/**
 * The friends screen: the list of users that can still be asked, and the buttons that
 * call the feed view model and then edit the signed-in user's own lists at once,
 * without waiting for the store.
 */
module SearchUsers {
  import opened Wrappers
  import opened ListEdits
  import opened UserModel
  import opened Store
  import opened FriendGraph
  import opened FriendGraphProps
  import opened FeedViewModel

  /** A listed user is offered when the signed-in user has no friendship and no request
      in either direction with them; with nobody signed in every user is offered. */
  predicate Offered(id: string, current: Option<User>) {
    current.None? ||
      (id !in current.value.friends && id !in current.value.sentFriendRequests &&
       id !in current.value.receivedFriendRequests)
  }

  /** `availableUsers`: the listed users that are offered, in listing order. */
  function AvailableUsers(users: seq<string>, current: Option<User>): (r: seq<string>)
    ensures forall id :: id in r <==> id in users && Offered(id, current)
    ensures |r| <= |users|
    decreases |users|
  {
    if users == [] then []
    else
      var rest := AvailableUsers(users[..|users| - 1], current);
      var last := users[|users| - 1];
      assert users == users[..|users| - 1] + [last];
      if Offered(last, current) then rest + [last] else rest
  }

  /** The filter keeps listing order: filtering a concatenation is concatenating the
      filtered parts. */
  lemma {:induction false} AvailableUsersAppend(a: seq<string>, b: seq<string>, current: Option<User>)
    ensures AvailableUsers(a + b, current) == AvailableUsers(a, current) + AvailableUsers(b, current)
    decreases |b|
  {
    if b != [] {
      var n := |b| - 1;
      assert (a + b)[..|a + b| - 1] == a + b[..n];
      assert (a + b)[|a + b| - 1] == b[n];
      AvailableUsersAppend(a, b[..n], current);
    } else {
      assert a + b == a;
    }
  }

  /** With nobody signed in every listed user is offered. */
  lemma {:induction false} AvailableUsersSignedOut(users: seq<string>)
    ensures AvailableUsers(users, None) == users
    decreases |users|
  {
    if users != [] {
      AvailableUsersSignedOut(users[..|users| - 1]);
      assert users == users[..|users| - 1] + [users[|users| - 1]];
    }
  }

  /** The edit each button makes to the signed-in user's own lists right after calling
      the view model: unfriend, reject and cancel remove every copy of the id from
      friends, received and sent; accept removes every copy from received and adds it
      to friends unless there; send adds it to sent unless there. */
  function LocalEdit(op: Op, u: User, id: string): (r: User)
    ensures Same(r, u)
    ensures r.myPosts == u.myPosts && r.myStats == u.myStats && r.password == u.password
  {
    match op
    case Send => u.(sentFriendRequests := AppendIfAbsent(u.sentFriendRequests, id))
    case Accept => u.(receivedFriendRequests := RemoveAll(u.receivedFriendRequests, id),
                      friends := AppendIfAbsent(u.friends, id))
    case Reject => u.(receivedFriendRequests := RemoveAll(u.receivedFriendRequests, id))
    case Cancel => u.(sentFriendRequests := RemoveAll(u.sentFriendRequests, id))
    case Unfriend => u.(friends := RemoveAll(u.friends, id))
  }

  /** What each local edit does to the membership of the three lists, and that every
      other field is kept. */
  lemma LocalEditMembers(op: Op, u: User, id: string, x: string)
    ensures var r := LocalEdit(op, u, id);
      && r.userId == u.userId && r.username == u.username && r.email == u.email
      && r.password == u.password && r.myPosts == u.myPosts && r.myStats == u.myStats
      && (x in r.friends <==>
          if op == Accept then x in u.friends || x == id
          else if op == Unfriend then x in u.friends && x != id
          else x in u.friends)
      && (x in r.sentFriendRequests <==>
          if op == Send then x in u.sentFriendRequests || x == id
          else if op == Cancel then x in u.sentFriendRequests && x != id
          else x in u.sentFriendRequests)
      && (x in r.receivedFriendRequests <==>
          if op == Accept || op == Reject then x in u.receivedFriendRequests && x != id
          else x in u.receivedFriendRequests)
  {
    RemoveAllIn(u.friends, id, x);
    RemoveAllIn(u.sentFriendRequests, id, x);
    RemoveAllIn(u.receivedFriendRequests, id, x);
  }

  predicate UserNoDup(u: User) {
    NoDup(u.friends) && NoDup(u.sentFriendRequests) && NoDup(u.receivedFriendRequests)
  }

  /** No local edit puts a duplicate into a list. */
  lemma LocalEditNoDup(op: Op, u: User, id: string)
    requires UserNoDup(u)
    ensures UserNoDup(LocalEdit(op, u, id))
  {
    AppendIfAbsentNoDup(u.friends, id);
    AppendIfAbsentNoDup(u.sentFriendRequests, id);
    RemoveAllNoDup(u.friends, id);
    RemoveAllNoDup(u.sentFriendRequests, id);
    RemoveAllNoDup(u.receivedFriendRequests, id);
  }

  /** After a send the user drops out of the offered list, and so does everyone after
      an accept; after unfriend, reject or cancel the user is offered again when no
      other tie remains. */
  lemma OfferedAfterEdit(op: Op, u: User, id: string)
    ensures op == Send || op == Accept ==> !Offered(id, Some(LocalEdit(op, u, id)))
    ensures op == Unfriend && id !in u.sentFriendRequests && id !in u.receivedFriendRequests ==>
      Offered(id, Some(LocalEdit(op, u, id)))
    ensures op == Reject && id !in u.friends && id !in u.sentFriendRequests ==>
      Offered(id, Some(LocalEdit(op, u, id)))
    ensures op == Cancel && id !in u.friends && id !in u.receivedFriendRequests ==>
      Offered(id, Some(LocalEdit(op, u, id)))
  {
    LocalEditMembers(op, u, id, id);
  }

  /** The local lists and the stored document list the same ids. */
  ghost predicate Agrees(u: User, d: UserDoc) {
    forall x ::
      && (x in u.friends <==> x in d.friends)
      && (x in u.sentFriendRequests <==> x in d.sentFriendRequests)
      && (x in u.receivedFriendRequests <==> x in d.receivedFriendRequests)
  }

  /** When the operation's check passes and every store call succeeds, the local edit
      lands where the store does: if the local lists agreed with the signed-in user's
      document before, they agree after. */
  lemma LocalAgreesAfterSuccess(op: Op, users: Users, u: User, other: string)
    requires AllNoDup(users)
    requires u.userId != other && u.userId in users && Agrees(u, users[u.userId])
    requires FirstTarget(op, u.userId, other) in users
    requires Admits(op, users[FirstTarget(op, u.userId, other)], u.userId, other)
    ensures var s := Run(op, users, u.userId, other, NoFaults).users;
      u.userId in s && Agrees(LocalEdit(op, u, other), s[u.userId])
  {
    var cur := u.userId;
    var t := FirstTarget(op, cur, other);
    var d := users[cur];
    assert DocNoDup(d);
    FirstEditAdmits(op, users[t], cur, other);
    FullRunIs(op, users, cur, other);
    var s := Run(op, users, cur, other, NoFaults).users;
    var r := LocalEdit(op, u, other);
    forall x
      ensures x in r.friends <==> x in s[cur].friends
      ensures x in r.sentFriendRequests <==> x in s[cur].sentFriendRequests
      ensures x in r.receivedFriendRequests <==> x in s[cur].receivedFriendRequests
    {
      LocalEditMembers(op, u, other, x);
      RemoveFirstIn(d.friends, other, x);
      RemoveFirstIn(d.sentFriendRequests, other, x);
      RemoveFirstIn(d.receivedFriendRequests, other, x);
    }
  }

  /** The local edit does not wait for the store: when the first read fails, nothing is
      written, yet the local lists change, so they stop agreeing with the document. */
  lemma LocalDivergesOnFailure(op: Op, users: Users, u: User, other: string, f: Faults)
    requires f.firstRead
    requires u.userId in users && Agrees(u, users[u.userId])
    requires op == Send ==> other !in u.sentFriendRequests
    requires op != Send ==> Admits(op, users[u.userId], u.userId, other)
    ensures !Agrees(LocalEdit(op, u, other), Run(op, users, u.userId, other, f).users[u.userId])
  {
    LocalEditMembers(op, u, other, other);
    var d := users[u.userId];
    assert Run(op, users, u.userId, other, f).users == users;
    match op
    case Send =>
      assert other in LocalEdit(op, u, other).sentFriendRequests && other !in d.sentFriendRequests;
    case Accept =>
      assert other !in LocalEdit(op, u, other).receivedFriendRequests && other in d.receivedFriendRequests;
    case Reject =>
      assert other !in LocalEdit(op, u, other).receivedFriendRequests && other in d.receivedFriendRequests;
    case Cancel =>
      assert other !in LocalEdit(op, u, other).sentFriendRequests && other in d.sentFriendRequests;
    case Unfriend =>
      assert other !in LocalEdit(op, u, other).friends && other in d.friends;
  }

  /** The screen's state: the signed-in user (owned by the authentication view model)
      and the feed view model it drives. */
  class SearchUsersView {
    var currentUser: Option<User>
    var feedVM: FeedVM

    constructor (currentUser: Option<User>, feedVM: FeedVM)
      ensures this.currentUser == currentUser && this.feedVM == feedVM
    {
      this.currentUser := currentUser;
      this.feedVM := feedVM;
    }

    /** The users the screen offers. */
    function Available(): (r: seq<string>)
      reads this, feedVM
      ensures forall id :: id in r <==> id in feedVM.users && Offered(id, currentUser)
    {
      AvailableUsers(feedVM.users, currentUser)
    }

    /** The "Remove Friend" button. */
    method RemoveFriendTapped(db: Database, friendID: string, f: Faults)
      modifies this, feedVM, db
      ensures feedVM == old(feedVM) && db.posts == old(db.posts)
      ensures feedVM.users == old(feedVM.users) && feedVM.userMap == old(feedVM.userMap)
      ensures feedVM.posts == old(feedVM.posts)
      ensures Available() == AvailableUsers(old(feedVM.users), currentUser)
      ensures old(currentUser).None? ==>
        && currentUser == old(currentUser) && db.users == old(db.users)
        && feedVM.errorMessage == old(feedVM.errorMessage) && feedVM.isLoading == old(feedVM.isLoading)
      ensures old(currentUser).Some? ==>
        && currentUser == Some(LocalEdit(Op.Unfriend, old(currentUser).value, friendID))
        && db.users == Run(Op.Unfriend, old(db.users), old(currentUser).value.userId, friendID, f).users
        && feedVM.errorMessage == Run(Op.Unfriend, old(db.users), old(currentUser).value.userId, friendID, f).errorMessage
        && !feedVM.isLoading
    {
      if currentUser.None? {
        return;
      }
      var u := currentUser.value;
      feedVM.Unfriend(db, u.userId, friendID, f);
      currentUser := Some(u.(friends := RemoveAll(u.friends, friendID)));
    }

    /** The "Accept" button of a received request. */
    method AcceptTapped(db: Database, requestID: string, f: Faults)
      modifies this, feedVM, db
      ensures feedVM == old(feedVM) && db.posts == old(db.posts)
      ensures feedVM.users == old(feedVM.users) && feedVM.userMap == old(feedVM.userMap)
      ensures feedVM.posts == old(feedVM.posts)
      ensures Available() == AvailableUsers(old(feedVM.users), currentUser)
      ensures old(currentUser).None? ==>
        && currentUser == old(currentUser) && db.users == old(db.users)
        && feedVM.errorMessage == old(feedVM.errorMessage) && feedVM.isLoading == old(feedVM.isLoading)
      ensures old(currentUser).Some? ==>
        && currentUser == Some(LocalEdit(Accept, old(currentUser).value, requestID))
        && db.users == Run(Accept, old(db.users), old(currentUser).value.userId, requestID, f).users
        && feedVM.errorMessage == Run(Accept, old(db.users), old(currentUser).value.userId, requestID, f).errorMessage
        && !feedVM.isLoading
    {
      if currentUser.None? {
        return;
      }
      var u := currentUser.value;
      feedVM.AcceptFriendRequest(db, u.userId, requestID, f);
      u := u.(receivedFriendRequests := RemoveAll(u.receivedFriendRequests, requestID));
      if requestID !in u.friends {
        u := u.(friends := u.friends + [requestID]);
      }
      currentUser := Some(u);
    }

    /** The "Reject" button of a received request. */
    method RejectTapped(db: Database, requestID: string, f: Faults)
      modifies this, feedVM, db
      ensures feedVM == old(feedVM) && db.posts == old(db.posts)
      ensures feedVM.users == old(feedVM.users) && feedVM.userMap == old(feedVM.userMap)
      ensures feedVM.posts == old(feedVM.posts)
      ensures Available() == AvailableUsers(old(feedVM.users), currentUser)
      ensures old(currentUser).None? ==>
        && currentUser == old(currentUser) && db.users == old(db.users)
        && feedVM.errorMessage == old(feedVM.errorMessage) && feedVM.isLoading == old(feedVM.isLoading)
      ensures old(currentUser).Some? ==>
        && currentUser == Some(LocalEdit(Reject, old(currentUser).value, requestID))
        && db.users == Run(Reject, old(db.users), old(currentUser).value.userId, requestID, f).users
        && feedVM.errorMessage == Run(Reject, old(db.users), old(currentUser).value.userId, requestID, f).errorMessage
        && !feedVM.isLoading
    {
      if currentUser.None? {
        return;
      }
      var u := currentUser.value;
      feedVM.RejectFriendRequest(db, u.userId, requestID, f);
      currentUser := Some(u.(receivedFriendRequests := RemoveAll(u.receivedFriendRequests, requestID)));
    }

    /** The "Cancel Request" button of a sent request. */
    method CancelTapped(db: Database, requestID: string, f: Faults)
      modifies this, feedVM, db
      ensures feedVM == old(feedVM) && db.posts == old(db.posts)
      ensures feedVM.users == old(feedVM.users) && feedVM.userMap == old(feedVM.userMap)
      ensures feedVM.posts == old(feedVM.posts)
      ensures Available() == AvailableUsers(old(feedVM.users), currentUser)
      ensures old(currentUser).None? ==>
        && currentUser == old(currentUser) && db.users == old(db.users)
        && feedVM.errorMessage == old(feedVM.errorMessage) && feedVM.isLoading == old(feedVM.isLoading)
      ensures old(currentUser).Some? ==>
        && currentUser == Some(LocalEdit(Cancel, old(currentUser).value, requestID))
        && db.users == Run(Cancel, old(db.users), old(currentUser).value.userId, requestID, f).users
        && feedVM.errorMessage == Run(Cancel, old(db.users), old(currentUser).value.userId, requestID, f).errorMessage
        && !feedVM.isLoading
    {
      if currentUser.None? {
        return;
      }
      var u := currentUser.value;
      feedVM.CancelFriendRequest(db, u.userId, requestID, f);
      currentUser := Some(u.(sentFriendRequests := RemoveAll(u.sentFriendRequests, requestID)));
    }

    /** The "Send Friend Request" button of an offered user. */
    method SendTapped(db: Database, userID: string, f: Faults)
      modifies this, feedVM, db
      ensures feedVM == old(feedVM) && db.posts == old(db.posts)
      ensures feedVM.users == old(feedVM.users) && feedVM.userMap == old(feedVM.userMap)
      ensures feedVM.posts == old(feedVM.posts)
      ensures Available() == AvailableUsers(old(feedVM.users), currentUser)
      ensures old(currentUser).None? ==>
        && currentUser == old(currentUser) && db.users == old(db.users)
        && feedVM.errorMessage == old(feedVM.errorMessage) && feedVM.isLoading == old(feedVM.isLoading)
      ensures old(currentUser).Some? ==>
        && currentUser == Some(LocalEdit(Send, old(currentUser).value, userID))
        && db.users == Run(Send, old(db.users), old(currentUser).value.userId, userID, f).users
        && feedVM.errorMessage == Run(Send, old(db.users), old(currentUser).value.userId, userID, f).errorMessage
        && !feedVM.isLoading
    {
      if currentUser.None? {
        return;
      }
      var u := currentUser.value;
      feedVM.SendFriendRequest(db, u.userId, userID, f);
      if userID !in u.sentFriendRequests {
        u := u.(sentFriendRequests := u.sentFriendRequests + [userID]);
      }
      currentUser := Some(u);
    }
  }
}
