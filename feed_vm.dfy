/**
 * The feed view model: the five friend operations as sequences of store calls, the
 * user directory fetch, and the feed fetch.
 *
 * Each friend operation is written the way the view model runs it: read one document,
 * check it, edit local copies of its lists, write them back, and only on success go on
 * to the second document. Every one of them is proved to leave exactly the store and
 * `errorMessage` that `FriendGraph.Run` describes, so the properties proved about
 * `Run` hold of the view model.
 */
module FeedViewModel {
  import opened Wrappers
  import opened ListEdits
  import opened PostModel
  import opened PostCodec
  import opened PostOrder
  import opened Store
  import opened FriendGraph

  /** The ids of the fetched user documents that carry both an id and a username,
      without the excluded id, in snapshot order. */
  function Listed(docs: seq<UserDoc>, exclude: Option<string>): seq<string>
    decreases |docs|
  {
    if docs == [] then []
    else
      var d := docs[|docs| - 1];
      var prefix := Listed(docs[..|docs| - 1], exclude);
      if Included(d, exclude) then prefix + [d.userId.value] else prefix
  }

  /** The id-to-username map built from the same documents; a later document with the
      same id overwrites an earlier one. */
  function Names(docs: seq<UserDoc>, exclude: Option<string>): map<string, string>
    decreases |docs|
  {
    if docs == [] then map[]
    else
      var d := docs[|docs| - 1];
      var prefix := Names(docs[..|docs| - 1], exclude);
      if Included(d, exclude) then prefix[d.userId.value := d.username.value] else prefix
  }

  /** A document is listed when it has both fields and its id is not the excluded one. */
  predicate Included(d: UserDoc, exclude: Option<string>) {
    d.userId.Some? && d.username.Some? && exclude != Some(d.userId.value)
  }

  /** An id is listed exactly when some fetched document carrying a username has it and
      it is not the excluded id. */
  lemma {:induction false} ListedMembers(docs: seq<UserDoc>, exclude: Option<string>, id: string)
    ensures id in Listed(docs, exclude) <==>
      exists i | 0 <= i < |docs| :: docs[i].userId == Some(id) && Included(docs[i], exclude)
    decreases |docs|
  {
    if docs != [] {
      var n := |docs| - 1;
      ListedMembers(docs[..n], exclude, id);
      if id in Listed(docs, exclude) && id !in Listed(docs[..n], exclude) {
        assert docs[n].userId == Some(id) && Included(docs[n], exclude);
      }
      if exists i | 0 <= i < n :: docs[..n][i].userId == Some(id) && Included(docs[..n][i], exclude) {
        var i :| 0 <= i < n && docs[..n][i].userId == Some(id) && Included(docs[..n][i], exclude);
        assert docs[i] == docs[..n][i];
      }
      if exists i | 0 <= i < |docs| :: docs[i].userId == Some(id) && Included(docs[i], exclude) {
        var i :| 0 <= i < |docs| && docs[i].userId == Some(id) && Included(docs[i], exclude);
        if i < n {
          assert docs[..n][i] == docs[i];
        }
      }
    }
  }

  /** The map has an entry for exactly the listed ids, and each entry is the username of
      the last document with that id. */
  lemma {:induction false} NamesMatchListed(docs: seq<UserDoc>, exclude: Option<string>)
    ensures Names(docs, exclude).Keys == set id | id in Listed(docs, exclude)
    ensures forall id | id in Names(docs, exclude) ::
      exists i | 0 <= i < |docs| ::
        && docs[i].userId == Some(id) && Included(docs[i], exclude)
        && docs[i].username == Some(Names(docs, exclude)[id])
        && forall j | i < j < |docs| :: docs[j].userId != Some(id) || !Included(docs[j], exclude)
    decreases |docs|
  {
    if docs != [] {
      var n := |docs| - 1;
      var pre := docs[..n];
      NamesMatchListed(pre, exclude);
      var m := Names(docs, exclude);
      forall id | id in m
        ensures exists i | 0 <= i < |docs| ::
          && docs[i].userId == Some(id) && Included(docs[i], exclude)
          && docs[i].username == Some(m[id])
          && forall j | i < j < |docs| :: docs[j].userId != Some(id) || !Included(docs[j], exclude)
      {
        if Included(docs[n], exclude) && docs[n].userId == Some(id) {
          assert docs[n].username == Some(m[id]);
        } else {
          var i :| 0 <= i < n
            && pre[i].userId == Some(id) && Included(pre[i], exclude)
            && pre[i].username == Some(Names(pre, exclude)[id])
            && forall j | i < j < n :: pre[j].userId != Some(id) || !Included(pre[j], exclude);
          assert docs[i] == pre[i];
          forall j | i < j < |docs| ensures docs[j].userId != Some(id) || !Included(docs[j], exclude) {
            if j < n { assert docs[j] == pre[j]; }
          }
        }
      }
    }
  }

  class FeedVM {
    var posts: seq<Post>
    /** The listed user ids. */
    var users: seq<string>
    /** User id to username. */
    var userMap: map<string, string>
    var isLoading: bool
    var errorMessage: Option<string>

    constructor ()
      ensures posts == [] && users == [] && userMap == map[]
      ensures !isLoading && errorMessage == None
    {
      posts := [];
      users := [];
      userMap := map[];
      isLoading := false;
      errorMessage := None;
    }

    /** Adds cur to other's received requests unless it is there, then continues with
        the sender's own document. */
    method SendFriendRequest(db: Database, cur: string, other: string, f: Faults)
      modifies this, db
      ensures db.users == Run(Send, old(db.users), cur, other, f).users
      ensures errorMessage == Run(Send, old(db.users), cur, other, f).errorMessage
      ensures !isLoading && db.posts == old(db.posts)
      ensures posts == old(posts) && users == old(users) && userMap == old(userMap)
    {
      isLoading := true;
      errorMessage := None;
      var r := db.GetUser(other, f.firstRead);
      match r
      case ReadFailed =>
        errorMessage := Some("Failed to send friend request");
        isLoading := false;
      case Absent =>
        errorMessage := Some("User not found");
        isLoading := false;
      case Present(d) =>
        var received := d.receivedFriendRequests;
        if cur !in received {
          received := received + [cur];
          var ok := db.UpdateUser(other, [SetReceived(received)], f.firstWrite);
          if !ok {
            errorMessage := Some("Failed to send friend request");
            isLoading := false;
          } else {
            AddToSentRequests(db, cur, other, f);
          }
        } else {
          isLoading := false;
        }
    }

    /** The second phase of a send: adds other to cur's sent requests unless it is there.
        Its failures are not reported. */
    method AddToSentRequests(db: Database, cur: string, other: string, f: Faults)
      modifies this, db
      ensures db.users == SecondPhase(Send, old(db.users), cur, other, f)
      ensures !isLoading && errorMessage == old(errorMessage) && db.posts == old(db.posts)
      ensures posts == old(posts) && users == old(users) && userMap == old(userMap)
    {
      var r := db.GetUser(cur, f.secondRead);
      match r
      case ReadFailed =>
        isLoading := false;
      case Absent =>
        isLoading := false;
      case Present(d) =>
        var sent := d.sentFriendRequests;
        if other !in sent {
          sent := sent + [other];
          var ok := db.UpdateUser(cur, [SetSent(sent)], f.secondWrite);
          isLoading := false;
        } else {
          isLoading := false;
        }
    }

    /** Moves other from cur's received requests to cur's friends, then continues with
        other's document. */
    method AcceptFriendRequest(db: Database, cur: string, other: string, f: Faults)
      modifies this, db
      ensures db.users == Run(Accept, old(db.users), cur, other, f).users
      ensures errorMessage == Run(Accept, old(db.users), cur, other, f).errorMessage
      ensures !isLoading && db.posts == old(db.posts)
      ensures posts == old(posts) && users == old(users) && userMap == old(userMap)
    {
      isLoading := true;
      errorMessage := None;
      var r := db.GetUser(cur, f.firstRead);
      match r
      case ReadFailed =>
        errorMessage := Some("Failed to accept friend request");
        isLoading := false;
      case Absent =>
        isLoading := false;
      case Present(d) =>
        var received := d.receivedFriendRequests;
        var friends := d.friends;
        match FirstIndex(received, other)
        case Some(index) =>
          received := RemoveAt(received, index);
          if other !in friends {
            friends := friends + [other];
          }
          var ok := db.UpdateUser(cur, [SetReceived(received), SetFriends(friends)], f.firstWrite);
          if !ok {
            errorMessage := Some("Failed to accept friend request");
            isLoading := false;
          } else {
            MoveFromSentToFriends(db, cur, other, f);
          }
        case None =>
          errorMessage := Some("Friend request not found");
          isLoading := false;
    }

    /** The second phase of an accept: removes cur from other's sent requests if there,
        adds cur to other's friends unless there, and writes both back. */
    method MoveFromSentToFriends(db: Database, cur: string, other: string, f: Faults)
      modifies this, db
      ensures db.users == SecondPhase(Accept, old(db.users), cur, other, f)
      ensures !isLoading && errorMessage == old(errorMessage) && db.posts == old(db.posts)
      ensures posts == old(posts) && users == old(users) && userMap == old(userMap)
    {
      var r := db.GetUser(other, f.secondRead);
      match r
      case ReadFailed =>
        isLoading := false;
      case Absent =>
        isLoading := false;
      case Present(d) =>
        var sent := d.sentFriendRequests;
        var friends := d.friends;
        match FirstIndex(sent, cur) {
          case Some(index) => sent := RemoveAt(sent, index);
          case None =>
        }
        if cur !in friends {
          friends := friends + [cur];
        }
        var ok := db.UpdateUser(other, [SetSent(sent), SetFriends(friends)], f.secondWrite);
        isLoading := false;
    }

    /** Removes other from cur's friends, then continues with other's document. */
    method Unfriend(db: Database, cur: string, other: string, f: Faults)
      modifies this, db
      ensures db.users == Run(Op.Unfriend, old(db.users), cur, other, f).users
      ensures errorMessage == Run(Op.Unfriend, old(db.users), cur, other, f).errorMessage
      ensures !isLoading && db.posts == old(db.posts)
      ensures posts == old(posts) && users == old(users) && userMap == old(userMap)
    {
      isLoading := true;
      errorMessage := None;
      var r := db.GetUser(cur, f.firstRead);
      match r
      case ReadFailed =>
        errorMessage := Some("Failed to unfriend user");
        isLoading := false;
      case Absent =>
        isLoading := false;
      case Present(d) =>
        var friends := d.friends;
        match FirstIndex(friends, other)
        case Some(index) =>
          friends := RemoveAt(friends, index);
          var ok := db.UpdateUser(cur, [SetFriends(friends)], f.firstWrite);
          if !ok {
            errorMessage := Some("Failed to unfriend user");
            isLoading := false;
          } else {
            RemoveFromOtherUserFriends(db, cur, other, f);
          }
        case None =>
          errorMessage := Some("User is not in your friends list");
          isLoading := false;
    }

    /** The second phase of an unfriend: removes cur from other's friends if there and
        writes the list back. */
    method RemoveFromOtherUserFriends(db: Database, cur: string, other: string, f: Faults)
      modifies this, db
      ensures db.users == SecondPhase(Op.Unfriend, old(db.users), cur, other, f)
      ensures !isLoading && errorMessage == old(errorMessage) && db.posts == old(db.posts)
      ensures posts == old(posts) && users == old(users) && userMap == old(userMap)
    {
      var r := db.GetUser(other, f.secondRead);
      match r
      case ReadFailed =>
        isLoading := false;
      case Absent =>
        isLoading := false;
      case Present(d) =>
        var friends := d.friends;
        match FirstIndex(friends, cur) {
          case Some(index) => friends := RemoveAt(friends, index);
          case None =>
        }
        var ok := db.UpdateUser(other, [SetFriends(friends)], f.secondWrite);
        isLoading := false;
    }

    /** Removes other from cur's sent requests, then continues with other's document. */
    method CancelFriendRequest(db: Database, cur: string, other: string, f: Faults)
      modifies this, db
      ensures db.users == Run(Cancel, old(db.users), cur, other, f).users
      ensures errorMessage == Run(Cancel, old(db.users), cur, other, f).errorMessage
      ensures !isLoading && db.posts == old(db.posts)
      ensures posts == old(posts) && users == old(users) && userMap == old(userMap)
    {
      isLoading := true;
      errorMessage := None;
      var r := db.GetUser(cur, f.firstRead);
      match r
      case ReadFailed =>
        errorMessage := Some("Failed to cancel friend request");
        isLoading := false;
      case Absent =>
        isLoading := false;
      case Present(d) =>
        var sent := d.sentFriendRequests;
        match FirstIndex(sent, other)
        case Some(index) =>
          sent := RemoveAt(sent, index);
          var ok := db.UpdateUser(cur, [SetSent(sent)], f.firstWrite);
          if !ok {
            errorMessage := Some("Failed to cancel friend request");
            isLoading := false;
          } else {
            RemoveFromReceivedRequests(db, cur, other, f);
          }
        case None =>
          errorMessage := Some("Friend request not found");
          isLoading := false;
    }

    /** The second phase of a cancel: removes cur from other's received requests if
        there and writes the list back. */
    method RemoveFromReceivedRequests(db: Database, cur: string, other: string, f: Faults)
      modifies this, db
      ensures db.users == SecondPhase(Cancel, old(db.users), cur, other, f)
      ensures !isLoading && errorMessage == old(errorMessage) && db.posts == old(db.posts)
      ensures posts == old(posts) && users == old(users) && userMap == old(userMap)
    {
      var r := db.GetUser(other, f.secondRead);
      match r
      case ReadFailed =>
        isLoading := false;
      case Absent =>
        isLoading := false;
      case Present(d) =>
        var received := d.receivedFriendRequests;
        match FirstIndex(received, cur) {
          case Some(index) => received := RemoveAt(received, index);
          case None =>
        }
        var ok := db.UpdateUser(other, [SetReceived(received)], f.secondWrite);
        isLoading := false;
    }

    /** Removes other from cur's received requests, then continues with other's document. */
    method RejectFriendRequest(db: Database, cur: string, other: string, f: Faults)
      modifies this, db
      ensures db.users == Run(Reject, old(db.users), cur, other, f).users
      ensures errorMessage == Run(Reject, old(db.users), cur, other, f).errorMessage
      ensures !isLoading && db.posts == old(db.posts)
      ensures posts == old(posts) && users == old(users) && userMap == old(userMap)
    {
      isLoading := true;
      errorMessage := None;
      var r := db.GetUser(cur, f.firstRead);
      match r
      case ReadFailed =>
        errorMessage := Some("Failed to reject friend request");
        isLoading := false;
      case Absent =>
        isLoading := false;
      case Present(d) =>
        var received := d.receivedFriendRequests;
        match FirstIndex(received, other)
        case Some(index) =>
          received := RemoveAt(received, index);
          var ok := db.UpdateUser(cur, [SetReceived(received)], f.firstWrite);
          if !ok {
            errorMessage := Some("Failed to reject friend request");
            isLoading := false;
          } else {
            RemoveFromSentRequests(db, cur, other, f);
          }
        case None =>
          errorMessage := Some("Friend request not found");
          isLoading := false;
    }

    /** The second phase of a reject: removes cur from other's sent requests if there
        and writes the list back. */
    method RemoveFromSentRequests(db: Database, cur: string, other: string, f: Faults)
      modifies this, db
      ensures db.users == SecondPhase(Reject, old(db.users), cur, other, f)
      ensures !isLoading && errorMessage == old(errorMessage) && db.posts == old(db.posts)
      ensures posts == old(posts) && users == old(users) && userMap == old(userMap)
    {
      var r := db.GetUser(other, f.secondRead);
      match r
      case ReadFailed =>
        isLoading := false;
      case Absent =>
        isLoading := false;
      case Present(d) =>
        var sent := d.sentFriendRequests;
        match FirstIndex(sent, cur) {
          case Some(index) => sent := RemoveAt(sent, index);
          case None =>
        }
        var ok := db.UpdateUser(other, [SetSent(sent)], f.secondWrite);
        isLoading := false;
    }

    /** Lists every user document carrying an id and a username, except `exclude`.
        A failed query sets the error and keeps the old lists; a missing snapshot keeps
        them silently. */
    method FetchAllUsers(result: Query<UserDoc>, exclude: Option<string>)
      modifies this
      ensures result.QueryFailed? ==> errorMessage == Some("Failed to load users")
      ensures !result.QueryFailed? ==> errorMessage == None
      ensures result.Documents? ==>
        users == Listed(result.docs, exclude) && userMap == Names(result.docs, exclude)
      ensures !result.Documents? ==> users == old(users) && userMap == old(userMap)
      ensures !isLoading && posts == old(posts)
    {
      isLoading := true;
      errorMessage := None;
      match result
      case QueryFailed =>
        errorMessage := Some("Failed to load users");
        isLoading := false;
      case NoSnapshot =>
        isLoading := false;
      case Documents(documents) =>
        var tempUsers: seq<string> := [];
        var tempUserMap: map<string, string> := map[];
        for i := 0 to |documents|
          invariant tempUsers == Listed(documents[..i], exclude)
          invariant tempUserMap == Names(documents[..i], exclude)
        {
          var d := documents[i];
          assert documents[..i + 1][..i] == documents[..i];
          if d.userId.None? || d.username.None? {
            continue;
          }
          if exclude.Some? && d.userId.value == exclude.value {
            continue;
          }
          tempUsers := tempUsers + [d.userId.value];
          tempUserMap := tempUserMap[d.userId.value := d.username.value];
        }
        assert documents[..|documents|] == documents;
        users := tempUsers;
        userMap := tempUserMap;
        isLoading := false;
    }

    /** Loads the feed: the parsed posts by the current user or a friend, newest first.
        A failed query sets the error and keeps the old posts; a missing snapshot keeps
        them silently. */
    method FetchAllPosts(result: Query<Doc>, currentUserID: string, friends: seq<string>)
      modifies this
      ensures result.QueryFailed? ==> errorMessage == Some("Failed to load posts")
      ensures !result.QueryFailed? ==> errorMessage == None
      ensures result.Documents? ==>
        && NewestFirst(posts)
        && multiset(posts) == multiset(ParseFeed(result.docs, currentUserID, friends))
      ensures !result.Documents? ==> posts == old(posts)
      ensures !isLoading && users == old(users) && userMap == old(userMap)
    {
      isLoading := true;
      errorMessage := None;
      match result
      case QueryFailed =>
        errorMessage := Some("Failed to load posts");
        isLoading := false;
      case NoSnapshot =>
        isLoading := false;
      case Documents(documents) =>
        posts := ParseFeed(documents, currentUserID, friends);
        posts := SortNewestFirst(posts);
        isLoading := false;
    }
  }

  /** A post is in the feed exactly when some fetched document parses to it and its
      author is the current user or one of the friends. */
  lemma FeedMembers(docs: seq<Doc>, currentUserID: string, friends: seq<string>, feed: seq<Post>, p: Post)
    requires multiset(feed) == multiset(ParseFeed(docs, currentUserID, friends))
    ensures p in feed <==> p in ParseAll(docs) && Visible(p, currentUserID, friends)
  {
    ParseFeedIsVisibleParse(docs, currentUserID, friends);
    assert p in feed <==> p in multiset(feed);
    assert p in ParseFeed(docs, currentUserID, friends) <==> p in multiset(ParseFeed(docs, currentUserID, friends));
  }
}
