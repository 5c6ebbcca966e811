/**
 * The array edits the view models apply to id lists before writing them back:
 * `contains` + `append`, `firstIndex(of:)` + `remove(at:)`, and `removeAll { $0 == x }`.
 */
module ListEdits {
  import opened Wrappers

  /** Document ids (user ids, post ids) are strings. */
  type Id = string

  /** No id occurs twice. */
  predicate NoDup(xs: seq<Id>) {
    forall i, j | 0 <= i < j < |xs| :: xs[i] != xs[j]
  }

  /** Swift's `firstIndex(of:)`: the position of the first occurrence, if any. */
  function FirstIndex(xs: seq<Id>, x: Id): (r: Option<nat>)
    ensures r.None? <==> x !in xs
    ensures r.Some? ==> r.value < |xs| && xs[r.value] == x && x !in xs[..r.value]
  {
    if xs == [] then None
    else if xs[0] == x then Some(0)
    else match FirstIndex(xs[1..], x)
      case None => None
      case Some(i) =>
        assert xs[..i + 1] == [xs[0]] + xs[1..][..i];
        Some(i + 1)
  }

  /** Swift's `remove(at:)`. */
  function RemoveAt(xs: seq<Id>, i: nat): (r: seq<Id>)
    requires i < |xs|
    ensures |r| == |xs| - 1
    ensures multiset(r) == multiset(xs) - multiset{xs[i]}
  {
    assert xs == xs[..i] + [xs[i]] + xs[i + 1..];
    xs[..i] + xs[i + 1..]
  }

  /** `if let i = xs.firstIndex(of: x) { xs.remove(at: i) }`: drops the first occurrence only. */
  function RemoveFirst(xs: seq<Id>, x: Id): (r: seq<Id>)
    ensures |r| == if x in xs then |xs| - 1 else |xs|
  {
    match FirstIndex(xs, x)
    case None => xs
    case Some(i) => RemoveAt(xs, i)
  }

  /** `if !xs.contains(x) { xs.append(x) }`. */
  function AppendIfAbsent(xs: seq<Id>, x: Id): (r: seq<Id>)
    ensures x in r
    ensures forall y :: y in r <==> y in xs || y == x
    ensures x in xs ==> r == xs
    ensures x !in xs ==> r == xs + [x]
  {
    if x in xs then xs else xs + [x]
  }

  /** Swift's `removeAll { $0 == x }`: keeps every other element, in order. */
  function RemoveAll(xs: seq<Id>, x: Id): (r: seq<Id>)
    ensures x !in r
    ensures forall y :: y != x ==> multiset(r)[y] == multiset(xs)[y]
  {
    if xs == [] then []
    else
      assert xs == [xs[0]] + xs[1..];
      if xs[0] == x then RemoveAll(xs[1..], x)
      else [xs[0]] + RemoveAll(xs[1..], x)
  }

  /** `removeAll` keeps the survivors in their order: it works piece by piece. */
  lemma {:induction false} RemoveAllAppend(a: seq<Id>, b: seq<Id>, x: Id)
    ensures RemoveAll(a + b, x) == RemoveAll(a, x) + RemoveAll(b, x)
  {
    if a != [] {
      assert a + b != [] && (a + b)[0] == a[0] && (a + b)[1..] == a[1..] + b;
      RemoveAllAppend(a[1..], b, x);
    } else {
      assert a + b == b;
    }
  }

  /** Membership after `removeAll`: every element but x. */
  lemma RemoveAllIn(xs: seq<Id>, x: Id, y: Id)
    ensures y in RemoveAll(xs, x) <==> y in xs && y != x
  {
    assert y in RemoveAll(xs, x) <==> y in multiset(RemoveAll(xs, x));
    assert y in xs <==> y in multiset(xs);
  }

  /** Removing the first occurrence leaves every other element, and the remaining
      copies of `x`, where they were: the result is the list with that one slot cut out. */
  lemma RemoveFirstShape(xs: seq<Id>, x: Id)
    requires x in xs
    ensures exists i | 0 <= i < |xs| ::
      xs[i] == x && x !in xs[..i] && RemoveFirst(xs, x) == xs[..i] + xs[i + 1..]
  {
    var i := FirstIndex(xs, x).value;
    assert xs[i] == x && x !in xs[..i] && RemoveFirst(xs, x) == xs[..i] + xs[i + 1..];
  }

  /** Removing an absent id changes nothing. */
  lemma RemoveFirstAbsent(xs: seq<Id>, x: Id)
    requires x !in xs
    ensures RemoveFirst(xs, x) == xs
  {
  }

  /** Which ids a removal leaves: all others, and `x` only if it occurred twice. */
  lemma RemoveFirstMembers(xs: seq<Id>, x: Id)
    ensures multiset(RemoveFirst(xs, x)) == multiset(xs) - multiset{x}
    ensures forall y :: y != x ==> (y in RemoveFirst(xs, x) <==> y in xs)
    ensures NoDup(xs) ==> x !in RemoveFirst(xs, x)
  {
    match FirstIndex(xs, x)
    case None =>
    case Some(i) =>
      var r := RemoveAt(xs, i);
      forall y | y != x ensures y in r <==> y in xs {
        assert y in r <==> multiset(r)[y] > 0;
        assert y in xs <==> multiset(xs)[y] > 0;
      }
      if NoDup(xs) {
        NoDupCount(xs, x);
        assert multiset(r)[x] == 0;
      }
  }

  /** On a duplicate-free list, removing the first x leaves exactly the other members. */
  lemma RemoveFirstIn(xs: seq<Id>, x: Id, y: Id)
    requires NoDup(xs)
    ensures y in RemoveFirst(xs, x) <==> y in xs && y != x
  {
    RemoveFirstMembers(xs, x);
  }

  /** Removing the first copy keeps a list duplicate-free. */
  lemma RemoveFirstNoDup(xs: seq<Id>, x: Id)
    requires NoDup(xs)
    ensures NoDup(RemoveFirst(xs, x))
  {
    match FirstIndex(xs, x)
    case None =>
    case Some(i) =>
      var r := RemoveAt(xs, i);
      forall a, b | 0 <= a < b < |r| ensures r[a] != r[b] {
        var a' := if a < i then a else a + 1;
        var b' := if b < i then b else b + 1;
        assert r[a] == xs[a'] && r[b] == xs[b'];
      }
  }

  /** Appending only an absent id keeps a list duplicate-free. */
  lemma AppendIfAbsentNoDup(xs: seq<Id>, x: Id)
    requires NoDup(xs)
    ensures NoDup(AppendIfAbsent(xs, x))
  {
  }

  /** How a removal unfolds over the head of the list. */
  lemma RemoveFirstCons(xs: seq<Id>, x: Id)
    requires xs != []
    ensures xs[0] == x ==> RemoveFirst(xs, x) == xs[1..]
    ensures xs[0] != x ==> RemoveFirst(xs, x) == [xs[0]] + RemoveFirst(xs[1..], x)
  {
    if xs[0] != x {
      match FirstIndex(xs[1..], x)
      case None =>
      case Some(i) =>
        assert xs[..i + 1] + xs[i + 2..] == [xs[0]] + (xs[1..][..i] + xs[1..][i + 1..]);
    }
  }

  /** On a duplicate-free list, the store's removal (first occurrence) and the
      client's removal (every occurrence) agree. */
  lemma {:induction false} RemoveFirstIsRemoveAll(xs: seq<Id>, x: Id)
    requires NoDup(xs)
    ensures RemoveFirst(xs, x) == RemoveAll(xs, x)
  {
    if xs != [] {
      RemoveFirstCons(xs, x);
      assert NoDup(xs[1..]);
      if xs[0] == x {
        assert x !in xs[1..];
        RemoveAllAbsent(xs[1..], x);
      } else {
        RemoveFirstIsRemoveAll(xs[1..], x);
      }
    }
  }

  /** `removeAll` of an absent id is the identity. */
  lemma {:induction false} RemoveAllAbsent(xs: seq<Id>, x: Id)
    requires x !in xs
    ensures RemoveAll(xs, x) == xs
  {
    if xs != [] {
      RemoveAllAbsent(xs[1..], x);
    }
  }

  /** `removeAll` keeps a list duplicate-free. */
  lemma {:induction false} RemoveAllNoDup(xs: seq<Id>, x: Id)
    requires NoDup(xs)
    ensures NoDup(RemoveAll(xs, x))
  {
    if xs != [] {
      assert NoDup(xs[1..]);
      RemoveAllNoDup(xs[1..], x);
      if xs[0] != x {
        var r := RemoveAll(xs[1..], x);
        assert xs[0] !in xs[1..];
        assert multiset(r)[xs[0]] == multiset(xs[1..])[xs[0]] == 0;
        assert [xs[0]] + r == RemoveAll(xs, x);
      }
    }
  }

  /** In a duplicate-free list every element occurs at most once. */
  lemma {:induction false} NoDupCount(xs: seq<Id>, y: Id)
    requires NoDup(xs)
    ensures multiset(xs)[y] <= 1
  {
    if xs != [] {
      assert xs == [xs[0]] + xs[1..];
      assert NoDup(xs[1..]);
      NoDupCount(xs[1..], y);
      if xs[0] == y {
        assert y !in xs[1..];
      }
    }
  }
}
