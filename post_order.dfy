/** The newest-first order the feed and the profile sort their posts into. */
module PostOrder {
  import opened PostModel

  /** The sort comparator: `a` comes before `b` when its (year, month, day) is later. */
  predicate IsNewer(a: PostDate, b: PostDate) {
    if a.year != b.year then a.year > b.year
    else if a.month != b.month then a.month > b.month
    else a.day > b.day
  }

  /** No post is newer than one before it. Posts with equal dates may come in any order. */
  predicate NewestFirst(ps: seq<Post>) {
    forall i, j | 0 <= i < j < |ps| :: !IsNewer(ps[j].date, ps[i].date)
  }

  /** The comparator is a strict weak order: irreflexive, asymmetric, and "not newer" is
      transitive, so sorting by it is well defined up to ties. */
  lemma IsNewerStrictWeakOrder(a: PostDate, b: PostDate, c: PostDate)
    ensures !IsNewer(a, a)
    ensures IsNewer(a, b) ==> !IsNewer(b, a)
    ensures !IsNewer(a, b) && !IsNewer(b, c) ==> !IsNewer(a, c)
    ensures !IsNewer(a, b) && !IsNewer(b, a) ==> a == b
  {
  }

  /** Puts `p` in front of the first post it is at least as new as. */
  function Insert(p: Post, ps: seq<Post>): (r: seq<Post>)
    requires NewestFirst(ps)
    ensures NewestFirst(r)
    ensures multiset(r) == multiset(ps) + multiset{p}
  {
    if ps == [] || !IsNewer(ps[0].date, p.date) then
      assert forall j | 0 <= j < |ps| :: !IsNewer(ps[j].date, ps[0].date);
      [p] + ps
    else
      assert ps == [ps[0]] + ps[1..];
      var rest := Insert(p, ps[1..]);
      forall x | x in rest ensures !IsNewer(x.date, ps[0].date) {
        assert x in multiset(rest);
        if x != p {
          assert x in multiset(ps[1..]);
        }
      }
      [ps[0]] + rest
  }

  /** `posts.sort { newer first }`: the same posts, newest first. */
  function SortNewestFirst(ps: seq<Post>): (r: seq<Post>)
    ensures NewestFirst(r)
    ensures multiset(r) == multiset(ps)
  {
    if ps == [] then []
    else
      assert ps == [ps[0]] + ps[1..];
      Insert(ps[0], SortNewestFirst(ps[1..]))
  }
}
