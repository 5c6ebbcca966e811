/**
 * What the friend-graph updates keep and what they break: the mirrored-list
 * invariants, duplicate-freedom, the no-op cases, and the state a failed second
 * write leaves behind.
 */
module FriendGraphProps {
  import opened Wrappers
  import opened ListEdits
  import opened Store
  import opened FriendGraph

  /** No relationship list of a document holds an id twice. */
  predicate DocNoDup(d: UserDoc) {
    NoDup(d.friends) && NoDup(d.sentFriendRequests) && NoDup(d.receivedFriendRequests)
  }

  predicate AllNoDup(users: Users) {
    forall id | id in users :: DocNoDup(users[id])
  }

  /** For every two stored users a and b: b is in a's sent list exactly when a is in b's
      received list, and b is a's friend exactly when a is b's friend. */
  predicate Mirrored(users: Users) {
    forall a, b | a in users && b in users ::
      && (b in users[a].sentFriendRequests <==> a in users[b].receivedFriendRequests)
      && (b in users[a].friends <==> a in users[b].friends)
  }

  /** The document a first-phase edit produces. */
  function FirstResult(op: Op, d: UserDoc, cur: string, other: string): UserDoc {
    match op
    case Send => d.(receivedFriendRequests := d.receivedFriendRequests + [cur])
    case Accept => d.(receivedFriendRequests := RemoveFirst(d.receivedFriendRequests, other),
                      friends := AppendIfAbsent(d.friends, other))
    case Reject => d.(receivedFriendRequests := RemoveFirst(d.receivedFriendRequests, other))
    case Cancel => d.(sentFriendRequests := RemoveFirst(d.sentFriendRequests, other))
    case Unfriend => d.(friends := RemoveFirst(d.friends, other))
  }

  /** The document a second-phase edit produces. */
  function SecondResult(op: Op, d: UserDoc, cur: string, other: string): UserDoc {
    match op
    case Send => d.(sentFriendRequests := d.sentFriendRequests + [other])
    case Accept => d.(sentFriendRequests := RemoveFirst(d.sentFriendRequests, cur),
                      friends := AppendIfAbsent(d.friends, cur))
    case Reject => d.(sentFriendRequests := RemoveFirst(d.sentFriendRequests, cur))
    case Cancel => d.(receivedFriendRequests := RemoveFirst(d.receivedFriendRequests, cur))
    case Unfriend => d.(friends := RemoveFirst(d.friends, cur))
  }

  lemma FirstEditApplied(op: Op, d: UserDoc, cur: string, other: string)
    requires FirstEdit(op, d, cur, other).Some?
    ensures ApplyWrites(d, FirstEdit(op, d, cur, other).value) == FirstResult(op, d, cur, other)
  {
    var ws := FirstEdit(op, d, cur, other).value;
    if op == Accept { ApplyTwo(d, ws[0], ws[1]); } else { ApplyOne(d, ws[0]); }
  }

  lemma SecondEditApplied(op: Op, d: UserDoc, cur: string, other: string)
    requires SecondEdit(op, d, cur, other).Some?
    ensures ApplyWrites(d, SecondEdit(op, d, cur, other).value) == SecondResult(op, d, cur, other)
  {
    var ws := SecondEdit(op, d, cur, other).value;
    if op == Accept { ApplyTwo(d, ws[0], ws[1]); } else { ApplyOne(d, ws[0]); }
  }

  /** The store after a first phase that passed its check and wrote. */
  lemma AfterFirstIs(op: Op, users: Users, cur: string, other: string)
    requires FirstTarget(op, cur, other) in users
    requires FirstEdit(op, users[FirstTarget(op, cur, other)], cur, other).Some?
    ensures var t := FirstTarget(op, cur, other);
      AfterFirst(op, users, cur, other) == users[t := FirstResult(op, users[t], cur, other)]
  {
    FirstEditApplied(op, users[FirstTarget(op, cur, other)], cur, other);
  }

  /** The store after the second phase: edited only when both its calls succeed. */
  lemma SecondPhaseIs(op: Op, users: Users, cur: string, other: string, f: Faults)
    ensures var t := SecondTarget(op, cur, other);
      SecondPhase(op, users, cur, other, f) ==
        if !f.secondRead && !f.secondWrite && t in users && SecondEdit(op, users[t], cur, other).Some?
        then users[t := SecondResult(op, users[t], cur, other)] else users
  {
    var t := SecondTarget(op, cur, other);
    if t in users && SecondEdit(op, users[t], cur, other).Some? {
      SecondEditApplied(op, users[t], cur, other);
    }
  }

  lemma FirstResultNoDup(op: Op, d: UserDoc, cur: string, other: string)
    requires DocNoDup(d) && FirstEdit(op, d, cur, other).Some?
    ensures DocNoDup(FirstResult(op, d, cur, other))
  {
    RemoveFirstNoDup(d.receivedFriendRequests, other);
    RemoveFirstNoDup(d.sentFriendRequests, other);
    RemoveFirstNoDup(d.friends, other);
    AppendIfAbsentNoDup(d.friends, other);
  }

  lemma SecondResultNoDup(op: Op, d: UserDoc, cur: string, other: string)
    requires DocNoDup(d) && SecondEdit(op, d, cur, other).Some?
    ensures DocNoDup(SecondResult(op, d, cur, other))
  {
    RemoveFirstNoDup(d.receivedFriendRequests, cur);
    RemoveFirstNoDup(d.sentFriendRequests, cur);
    RemoveFirstNoDup(d.friends, cur);
    AppendIfAbsentNoDup(d.friends, cur);
  }

  /** No operation ever puts a duplicate into a relationship list, whichever of its
      store calls fail. */
  lemma RunKeepsNoDup(op: Op, users: Users, cur: string, other: string, f: Faults)
    requires AllNoDup(users)
    ensures AllNoDup(Run(op, users, cur, other, f).users)
  {
    var t := FirstTarget(op, cur, other);
    if !f.firstRead && !f.firstWrite && t in users && FirstEdit(op, users[t], cur, other).Some? {
      AfterFirstIs(op, users, cur, other);
      FirstResultNoDup(op, users[t], cur, other);
      var s1 := AfterFirst(op, users, cur, other);
      assert AllNoDup(s1);
      SecondPhaseIs(op, s1, cur, other, f);
      var t2 := SecondTarget(op, cur, other);
      if t2 in s1 && SecondEdit(op, s1[t2], cur, other).Some? {
        SecondResultNoDup(op, s1[t2], cur, other);
      }
    }
  }

  /** The store after an operation none of whose store calls failed and whose check
      passed: the first result, then the second where the second check passes. */
  lemma FullRunIs(op: Op, users: Users, cur: string, other: string)
    requires FirstTarget(op, cur, other) in users
    requires FirstEdit(op, users[FirstTarget(op, cur, other)], cur, other).Some?
    ensures var t := FirstTarget(op, cur, other);
      var s1 := users[t := FirstResult(op, users[t], cur, other)];
      var t2 := SecondTarget(op, cur, other);
      Run(op, users, cur, other, NoFaults) ==
        Outcome(if t2 in s1 && SecondEdit(op, s1[t2], cur, other).Some?
                then s1[t2 := SecondResult(op, s1[t2], cur, other)] else s1, None)
  {
    AfterFirstIs(op, users, cur, other);
    SecondPhaseIs(op, AfterFirst(op, users, cur, other), cur, other, NoFaults);
  }

  /** Sending adds cur to other's received list and other to cur's sent list. */
  lemma SendEffect(users: Users, cur: string, other: string, a: string, x: string)
    requires Mirrored(users)
    requires other in users && cur !in users[other].receivedFriendRequests && a in users
    ensures var s2 := Run(Send, users, cur, other, NoFaults).users;
      && s2.Keys == users.Keys
      && (x in s2[a].receivedFriendRequests <==>
          x in users[a].receivedFriendRequests || (a == other && x == cur))
      && (x in s2[a].sentFriendRequests <==>
          x in users[a].sentFriendRequests || (a == cur && x == other))
      && s2[a].friends == users[a].friends
  {
    var d := users[other];
    FullRunIs(Send, users, cur, other);
    var s1 := users[other := FirstResult(Send, d, cur, other)];
    if cur in users {
      var e := s1[cur];
      assert other !in users[cur].sentFriendRequests;
      assert other !in e.sentFriendRequests;
      var s2 := s1[cur := SecondResult(Send, e, cur, other)];
      assert Run(Send, users, cur, other, NoFaults).users == s2;
    } else {
      assert Run(Send, users, cur, other, NoFaults).users == s1;
    }
  }

  /** Accepting moves the request out of both request lists and makes the two users
      each other's friends. */
  lemma AcceptEffect(users: Users, cur: string, other: string, a: string, x: string)
    requires AllNoDup(users)
    requires cur in users && other in users[cur].receivedFriendRequests && a in users
    ensures var s2 := Run(Accept, users, cur, other, NoFaults).users;
      && s2.Keys == users.Keys
      && (x in s2[a].receivedFriendRequests <==>
          x in users[a].receivedFriendRequests && !(a == cur && x == other))
      && (x in s2[a].sentFriendRequests <==>
          x in users[a].sentFriendRequests && !(a == other && x == cur))
      && (x in s2[a].friends <==>
          x in users[a].friends || (a == cur && x == other) || (a == other && x == cur))
  {
    var d := users[cur];
    assert DocNoDup(d);
    FullRunIs(Accept, users, cur, other);
    var s1 := users[cur := FirstResult(Accept, d, cur, other)];
    RemoveFirstIn(d.receivedFriendRequests, other, x);
    if other in users {
      var e := s1[other];
      assert DocNoDup(users[other]);
      assert e.sentFriendRequests == users[other].sentFriendRequests;
      RemoveFirstIn(e.sentFriendRequests, cur, x);
      var s2 := s1[other := SecondResult(Accept, e, cur, other)];
      assert Run(Accept, users, cur, other, NoFaults).users == s2;
    } else {
      assert Run(Accept, users, cur, other, NoFaults).users == s1;
    }
  }

  /** Rejecting removes the request from both request lists and nothing else. */
  lemma RejectEffect(users: Users, cur: string, other: string, a: string, x: string)
    requires AllNoDup(users)
    requires cur in users && other in users[cur].receivedFriendRequests && a in users
    ensures var s2 := Run(Reject, users, cur, other, NoFaults).users;
      && s2.Keys == users.Keys
      && (x in s2[a].receivedFriendRequests <==>
          x in users[a].receivedFriendRequests && !(a == cur && x == other))
      && (x in s2[a].sentFriendRequests <==>
          x in users[a].sentFriendRequests && !(a == other && x == cur))
      && s2[a].friends == users[a].friends
  {
    var d := users[cur];
    assert DocNoDup(d);
    FullRunIs(Reject, users, cur, other);
    var s1 := users[cur := FirstResult(Reject, d, cur, other)];
    RemoveFirstIn(d.receivedFriendRequests, other, x);
    if other in users {
      var e := s1[other];
      assert DocNoDup(users[other]);
      assert e.sentFriendRequests == users[other].sentFriendRequests;
      RemoveFirstIn(e.sentFriendRequests, cur, x);
      var s2 := s1[other := SecondResult(Reject, e, cur, other)];
      assert Run(Reject, users, cur, other, NoFaults).users == s2;
    } else {
      assert Run(Reject, users, cur, other, NoFaults).users == s1;
    }
  }

  /** Cancelling removes the request from cur's sent list and other's received list
      and nothing else. */
  lemma CancelEffect(users: Users, cur: string, other: string, a: string, x: string)
    requires AllNoDup(users)
    requires cur in users && other in users[cur].sentFriendRequests && a in users
    ensures var s2 := Run(Cancel, users, cur, other, NoFaults).users;
      && s2.Keys == users.Keys
      && (x in s2[a].receivedFriendRequests <==>
          x in users[a].receivedFriendRequests && !(a == other && x == cur))
      && (x in s2[a].sentFriendRequests <==>
          x in users[a].sentFriendRequests && !(a == cur && x == other))
      && s2[a].friends == users[a].friends
  {
    var d := users[cur];
    assert DocNoDup(d);
    FullRunIs(Cancel, users, cur, other);
    var s1 := users[cur := FirstResult(Cancel, d, cur, other)];
    RemoveFirstIn(d.sentFriendRequests, other, x);
    if other in users {
      var e := s1[other];
      assert DocNoDup(users[other]);
      assert e.receivedFriendRequests == users[other].receivedFriendRequests;
      RemoveFirstIn(e.receivedFriendRequests, cur, x);
      var s2 := s1[other := SecondResult(Cancel, e, cur, other)];
      assert Run(Cancel, users, cur, other, NoFaults).users == s2;
    } else {
      assert Run(Cancel, users, cur, other, NoFaults).users == s1;
    }
  }

  /** Unfriending removes exactly the pair (cur, other) in both directions from the
      friend lists and touches nothing else. */
  lemma UnfriendEffect(users: Users, cur: string, other: string, a: string, x: string)
    requires AllNoDup(users)
    requires cur in users && other in users[cur].friends && a in users
    ensures var s2 := Run(Unfriend, users, cur, other, NoFaults).users;
      && s2.Keys == users.Keys
      && s2[a].receivedFriendRequests == users[a].receivedFriendRequests
      && s2[a].sentFriendRequests == users[a].sentFriendRequests
      && (x in s2[a].friends <==>
          x in users[a].friends && !(a == cur && x == other) && !(a == other && x == cur))
  {
    var d := users[cur];
    assert DocNoDup(d);
    RemoveFirstNoDup(d.friends, other);
    FullRunIs(Unfriend, users, cur, other);
    var s1 := users[cur := FirstResult(Unfriend, d, cur, other)];
    if other in users {
      var e := s1[other];
      assert DocNoDup(users[other]);
      assert NoDup(e.friends);
      var s2 := s1[other := SecondResult(Unfriend, e, cur, other)];
      assert Run(Unfriend, users, cur, other, NoFaults).users == s2;
      if a == other {
        RemoveFirstIn(e.friends, cur, x);
        RemoveFirstIn(d.friends, other, x);
      } else if a == cur {
        RemoveFirstIn(d.friends, other, x);
      }
    } else {
      assert Run(Unfriend, users, cur, other, NoFaults).users == s1;
      RemoveFirstIn(d.friends, other, x);
    }
  }

  lemma SendKeepsMirrored(users: Users, cur: string, other: string)
    requires Mirrored(users) && AllNoDup(users)
    requires other in users && cur !in users[other].receivedFriendRequests
    ensures Mirrored(Run(Send, users, cur, other, NoFaults).users)
  {
    var s2 := Run(Send, users, cur, other, NoFaults).users;
    SendEffect(users, cur, other, other, other);
    forall a, b | a in s2 && b in s2
      ensures (b in s2[a].sentFriendRequests <==> a in s2[b].receivedFriendRequests)
      ensures (b in s2[a].friends <==> a in s2[b].friends)
    {
      SendEffect(users, cur, other, a, b);
      SendEffect(users, cur, other, b, a);
    }
  }

  lemma AcceptKeepsMirrored(users: Users, cur: string, other: string)
    requires Mirrored(users) && AllNoDup(users)
    requires cur in users && other in users[cur].receivedFriendRequests
    ensures Mirrored(Run(Accept, users, cur, other, NoFaults).users)
  {
    var s2 := Run(Accept, users, cur, other, NoFaults).users;
    AcceptEffect(users, cur, other, cur, cur);
    forall a, b | a in s2 && b in s2
      ensures (b in s2[a].sentFriendRequests <==> a in s2[b].receivedFriendRequests)
      ensures (b in s2[a].friends <==> a in s2[b].friends)
    {
      AcceptEffect(users, cur, other, a, b);
      AcceptEffect(users, cur, other, b, a);
    }
  }

  lemma RejectKeepsMirrored(users: Users, cur: string, other: string)
    requires Mirrored(users) && AllNoDup(users)
    requires cur in users && other in users[cur].receivedFriendRequests
    ensures Mirrored(Run(Reject, users, cur, other, NoFaults).users)
  {
    var s2 := Run(Reject, users, cur, other, NoFaults).users;
    RejectEffect(users, cur, other, cur, cur);
    forall a, b | a in s2 && b in s2
      ensures (b in s2[a].sentFriendRequests <==> a in s2[b].receivedFriendRequests)
      ensures (b in s2[a].friends <==> a in s2[b].friends)
    {
      RejectEffect(users, cur, other, a, b);
      RejectEffect(users, cur, other, b, a);
    }
  }

  lemma CancelKeepsMirrored(users: Users, cur: string, other: string)
    requires Mirrored(users) && AllNoDup(users)
    requires cur in users && other in users[cur].sentFriendRequests
    ensures Mirrored(Run(Cancel, users, cur, other, NoFaults).users)
  {
    var s2 := Run(Cancel, users, cur, other, NoFaults).users;
    CancelEffect(users, cur, other, cur, cur);
    forall a, b | a in s2 && b in s2
      ensures (b in s2[a].sentFriendRequests <==> a in s2[b].receivedFriendRequests)
      ensures (b in s2[a].friends <==> a in s2[b].friends)
    {
      CancelEffect(users, cur, other, a, b);
      CancelEffect(users, cur, other, b, a);
    }
  }

  lemma UnfriendKeepsMirrored(users: Users, cur: string, other: string)
    requires Mirrored(users) && AllNoDup(users)
    requires cur in users && other in users[cur].friends
    ensures Mirrored(Run(Unfriend, users, cur, other, NoFaults).users)
  {
    var s2 := Run(Unfriend, users, cur, other, NoFaults).users;
    UnfriendEffect(users, cur, other, cur, cur);
    forall a, b | a in s2 && b in s2
      ensures (b in s2[a].sentFriendRequests <==> a in s2[b].receivedFriendRequests)
      ensures (b in s2[a].friends <==> a in s2[b].friends)
    {
      UnfriendEffect(users, cur, other, a, b);
      UnfriendEffect(users, cur, other, b, a);
    }
  }

  /** The check the first phase makes, stated on the lists it reads: send requires
      that cur has not already requested other; the others require that other is in
      the initiator's received, received, sent or friends list respectively. */
  predicate Admits(op: Op, d: UserDoc, cur: string, other: string) {
    match op
    case Send => cur !in d.receivedFriendRequests
    case Accept => other in d.receivedFriendRequests
    case Reject => other in d.receivedFriendRequests
    case Cancel => other in d.sentFriendRequests
    case Unfriend => other in d.friends
  }

  lemma FirstEditAdmits(op: Op, d: UserDoc, cur: string, other: string)
    ensures FirstEdit(op, d, cur, other).Some? <==> Admits(op, d, cur, other)
  {
  }

  /** When the check fails nothing is written, whatever the later calls would have
      done, and the rejection message is set. */
  lemma RejectedWritesNothing(op: Op, users: Users, cur: string, other: string, f: Faults)
    requires !f.firstRead && FirstTarget(op, cur, other) in users
    requires !Admits(op, users[FirstTarget(op, cur, other)], cur, other)
    ensures Run(op, users, cur, other, f) == Outcome(users, RejectedMessage(op))
  {
    FirstEditAdmits(op, users[FirstTarget(op, cur, other)], cur, other);
  }

  /** When the first read or the first write fails nothing is written and the
      operation's failure message is set; a missing first document writes nothing. */
  lemma FirstPhaseFailureWritesNothing(op: Op, users: Users, cur: string, other: string, f: Faults)
    requires f.firstRead || f.firstWrite || FirstTarget(op, cur, other) !in users
    ensures Run(op, users, cur, other, f).users == users
    ensures f.firstRead ==> Run(op, users, cur, other, f).errorMessage == Some(FailMessage(op))
    ensures !f.firstRead && FirstTarget(op, cur, other) !in users ==>
      Run(op, users, cur, other, f).errorMessage == MissingMessage(op)
    ensures (!f.firstRead && FirstTarget(op, cur, other) in users &&
             Admits(op, users[FirstTarget(op, cur, other)], cur, other)) ==>
      Run(op, users, cur, other, f).errorMessage == Some(FailMessage(op))
  {
    if FirstTarget(op, cur, other) in users {
      FirstEditAdmits(op, users[FirstTarget(op, cur, other)], cur, other);
    }
  }

  /** When the check passes and the first write succeeds but the second read or write
      fails, the store keeps the first document's edit alone, and no error is reported. */
  lemma SecondPhaseFailureState(op: Op, users: Users, cur: string, other: string, f: Faults)
    requires FirstTarget(op, cur, other) in users
    requires Admits(op, users[FirstTarget(op, cur, other)], cur, other)
    requires !f.firstRead && !f.firstWrite && (f.secondRead || f.secondWrite)
    ensures var t := FirstTarget(op, cur, other);
      Run(op, users, cur, other, f) ==
        Outcome(users[t := FirstResult(op, users[t], cur, other)], None)
  {
    var t := FirstTarget(op, cur, other);
    FirstEditAdmits(op, users[t], cur, other);
    AfterFirstIs(op, users, cur, other);
    SecondPhaseIs(op, AfterFirst(op, users, cur, other), cur, other, f);
  }

  /** That partial state breaks the mirror between two distinct users: the first
      document records the change and the second does not. */
  lemma PartialFailureBreaksMirror(op: Op, users: Users, cur: string, other: string, f: Faults)
    requires Mirrored(users) && AllNoDup(users)
    requires cur != other && cur in users && other in users
    requires Admits(op, users[FirstTarget(op, cur, other)], cur, other)
    requires !f.firstRead && !f.firstWrite && (f.secondRead || f.secondWrite)
    ensures !Mirrored(Run(op, users, cur, other, f).users)
  {
    SecondPhaseFailureState(op, users, cur, other, f);
    var s := Run(op, users, cur, other, f).users;
    match op
    case Send =>
      assert cur in s[other].receivedFriendRequests;
      assert other !in s[cur].sentFriendRequests;
    case Accept =>
      assert DocNoDup(users[cur]);
      RemoveFirstIn(users[cur].receivedFriendRequests, other, other);
      assert cur in s[other].sentFriendRequests;
      assert other !in s[cur].receivedFriendRequests;
    case Reject =>
      assert DocNoDup(users[cur]);
      RemoveFirstIn(users[cur].receivedFriendRequests, other, other);
      assert cur in s[other].sentFriendRequests;
      assert other !in s[cur].receivedFriendRequests;
    case Cancel =>
      assert DocNoDup(users[cur]);
      RemoveFirstIn(users[cur].sentFriendRequests, other, other);
      assert cur in s[other].receivedFriendRequests;
      assert other !in s[cur].sentFriendRequests;
    case Unfriend =>
      assert DocNoDup(users[cur]);
      RemoveFirstIn(users[cur].friends, other, other);
      assert cur in s[other].friends;
      assert other !in s[cur].friends;
  }

  /** After a first phase that went through, the first document no longer passes the
      check, and the second phase cannot undo that. */
  lemma AfterSuccessNotAdmitted(op: Op, users: Users, cur: string, other: string, f: Faults)
    requires AllNoDup(users)
    requires FirstTarget(op, cur, other) in users
    requires Admits(op, users[FirstTarget(op, cur, other)], cur, other)
    requires !f.firstRead && !f.firstWrite
    ensures var s := Run(op, users, cur, other, f).users;
      FirstTarget(op, cur, other) in s && !Admits(op, s[FirstTarget(op, cur, other)], cur, other)
  {
    var t := FirstTarget(op, cur, other);
    var d := users[t];
    assert DocNoDup(d);
    FirstEditAdmits(op, d, cur, other);
    AfterFirstIs(op, users, cur, other);
    var s1 := users[t := FirstResult(op, d, cur, other)];
    SecondPhaseIs(op, s1, cur, other, f);
    var s := Run(op, users, cur, other, f).users;
    var t2 := SecondTarget(op, cur, other);
    match op
    case Send =>
      assert cur in s[t].receivedFriendRequests;
    case Accept =>
      RemoveFirstIn(d.receivedFriendRequests, other, other);
      assert s[t].receivedFriendRequests == s1[t].receivedFriendRequests;
    case Reject =>
      RemoveFirstIn(d.receivedFriendRequests, other, other);
      assert s[t].receivedFriendRequests == s1[t].receivedFriendRequests;
    case Cancel =>
      RemoveFirstIn(d.sentFriendRequests, other, other);
      assert s[t].sentFriendRequests == s1[t].sentFriendRequests;
    case Unfriend =>
      var e := FirstResult(op, d, cur, other);
      RemoveFirstNoDup(d.friends, other);
      RemoveFirstIn(d.friends, other, other);
      if t2 == t {
        RemoveFirstIn(e.friends, cur, other);
      }
  }

  /** Repeating an operation right after one whose first phase went through changes
      nothing, whichever calls fail the second time; so a repeat never completes a
      second phase that failed. */
  lemma RepeatIsNoOp(op: Op, users: Users, cur: string, other: string, f: Faults, g: Faults)
    requires AllNoDup(users)
    requires FirstTarget(op, cur, other) in users
    requires Admits(op, users[FirstTarget(op, cur, other)], cur, other)
    requires !f.firstRead && !f.firstWrite
    ensures var s := Run(op, users, cur, other, f).users;
      Run(op, s, cur, other, g).users == s
    ensures var s := Run(op, users, cur, other, f).users;
      !g.firstRead ==> Run(op, s, cur, other, g).errorMessage == RejectedMessage(op)
  {
    AfterSuccessNotAdmitted(op, users, cur, other, f);
    var s := Run(op, users, cur, other, f).users;
    if !g.firstRead {
      RejectedWritesNothing(op, s, cur, other, g);
    }
  }

  /** Send does not look at the friend lists: a request to someone who is already a
      friend goes through, and the two end up both friends and requested. */
  lemma SendIgnoresFriendship(users: Users, cur: string, other: string)
    requires Mirrored(users)
    requires cur in users && other in users && other in users[cur].friends
    requires cur !in users[other].receivedFriendRequests
    ensures var s := Run(Send, users, cur, other, NoFaults).users;
      && cur in s[other].receivedFriendRequests && other in s[cur].sentFriendRequests
      && cur in s[other].friends && other in s[cur].friends
  {
    SendEffect(users, cur, other, other, cur);
    SendEffect(users, cur, other, cur, other);
  }

  /** Started from a mirrored, duplicate-free store, each operation whose reads and
      writes all succeed leaves the store mirrored and duplicate-free. */
  lemma RunKeepsMirrored(op: Op, users: Users, cur: string, other: string)
    requires Mirrored(users) && AllNoDup(users)
    ensures Mirrored(Run(op, users, cur, other, NoFaults).users)
    ensures AllNoDup(Run(op, users, cur, other, NoFaults).users)
  {
    RunKeepsNoDup(op, users, cur, other, NoFaults);
    var t := FirstTarget(op, cur, other);
    if t in users && FirstEdit(op, users[t], cur, other).Some? {
      match op
      case Send => SendKeepsMirrored(users, cur, other);
      case Accept => AcceptKeepsMirrored(users, cur, other);
      case Reject => RejectKeepsMirrored(users, cur, other);
      case Cancel => CancelKeepsMirrored(users, cur, other);
      case Unfriend => UnfriendKeepsMirrored(users, cur, other);
    }
  }
}
