/**
 * The profile view model: the signed-in user's own posts, newest first, and deleting
 * one of them, which removes the post document and then the id from the user's
 * `myPosts` list.
 */
module ProfileViewModel {
  import opened Wrappers
  import opened ListEdits
  import opened PostModel
  import opened PostCodec
  import opened PostOrder
  import opened Store

  /** `posts.removeAll { $0.postID == postID }`: the posts with another id, in order. */
  function WithoutPost(ps: seq<Post>, postID: string): (r: seq<Post>)
    ensures forall p :: p in r <==> p in ps && p.postID != postID
    ensures |r| <= |ps|
  {
    if ps == [] then []
    else
      assert ps == [ps[0]] + ps[1..];
      var rest := WithoutPost(ps[1..], postID);
      if ps[0].postID == postID then rest else [ps[0]] + rest
  }

  /** The removal works piece by piece, so the surviving posts keep their order. */
  lemma {:induction false} WithoutPostAppend(a: seq<Post>, b: seq<Post>, postID: string)
    ensures WithoutPost(a + b, postID) == WithoutPost(a, postID) + WithoutPost(b, postID)
  {
    if a != [] {
      assert a + b != [] && (a + b)[0] == a[0] && (a + b)[1..] == a[1..] + b;
      WithoutPostAppend(a[1..], b, postID);
    } else {
      assert a + b == b;
    }
  }

  /** Removing posts keeps the rest in their order, so a newest-first list stays
      newest-first. */
  lemma {:induction false} WithoutPostKeepsOrder(ps: seq<Post>, postID: string)
    requires NewestFirst(ps)
    ensures NewestFirst(WithoutPost(ps, postID))
  {
    if ps != [] {
      assert ps == [ps[0]] + ps[1..];
      assert NewestFirst(ps[1..]);
      WithoutPostKeepsOrder(ps[1..], postID);
      var rest := WithoutPost(ps[1..], postID);
      if ps[0].postID != postID {
        var r := [ps[0]] + rest;
        forall i, j | 0 <= i < j < |r| ensures !IsNewer(r[j].date, r[i].date) {
          if i == 0 {
            assert r[j] in rest;
            assert r[j] in ps[1..];
          }
        }
      }
    }
  }

  /** The edit of the user document's `myPosts`: the first copy of the id goes;
      `None` when the id is not there and nothing is written. */
  function MyPostsEdit(d: UserDoc, postID: string): Option<seq<FieldWrite>> {
    match FirstIndex(d.myPosts, postID)
    case Some(i) => Some([SetMyPosts(RemoveAt(d.myPosts, i))])
    case None => None
  }

  /** The edit removes exactly one copy of the id and keeps every other entry in order;
      nothing else of the document changes. */
  lemma MyPostsEditShape(d: UserDoc, postID: string)
    ensures MyPostsEdit(d, postID).None? <==> postID !in d.myPosts
    ensures MyPostsEdit(d, postID).Some? ==>
      var e := ApplyWrites(d, MyPostsEdit(d, postID).value);
      && e == d.(myPosts := e.myPosts)
      && multiset(e.myPosts) == multiset(d.myPosts) - multiset{postID}
      && exists i | 0 <= i < |d.myPosts| ::
           d.myPosts[i] == postID && postID !in d.myPosts[..i] &&
           e.myPosts == d.myPosts[..i] + d.myPosts[i + 1..]
  {
    if postID in d.myPosts {
      var w := MyPostsEdit(d, postID).value;
      assert w[1..] == [];
      RemoveFirstShape(d.myPosts, postID);
      RemoveFirstMembers(d.myPosts, postID);
    }
  }

  class ProfileVM {
    var posts: seq<Post>
    var isLoading: bool
    var errorMessage: Option<string>

    constructor ()
      ensures posts == [] && !isLoading && errorMessage == None
    {
      posts := [];
      isLoading := false;
      errorMessage := None;
    }

    /** Loads the user's posts (the store answers the query for that user), newest
        first. A failed query sets the error and keeps the old posts. */
    method FetchUserPosts(result: Query<Doc>)
      modifies this
      ensures result.QueryFailed? ==> errorMessage == Some("Failed to load posts")
      ensures !result.QueryFailed? ==> errorMessage == None
      ensures result.Documents? ==>
        NewestFirst(posts) && multiset(posts) == multiset(ParseAll(result.docs))
      ensures !result.Documents? ==> posts == old(posts)
      ensures !isLoading
    {
      isLoading := true;
      errorMessage := None;
      match result
      case QueryFailed =>
        errorMessage := Some("Failed to load posts");
        isLoading := false;
      case NoSnapshot =>
        isLoading := false;
      case Documents(documents) =>
        posts := ParseAll(documents);
        posts := SortNewestFirst(posts);
        isLoading := false;
    }

    /** Deletes the post document, and only when that succeeds goes on to the user
        document. */
    method DeletePost(db: Database, postID: string, userID: string,
                      deleteFails: bool, readFails: bool, writeFails: bool)
      modifies this, db
      ensures deleteFails ==>
        && db.posts == old(db.posts) && db.users == old(db.users)
        && posts == old(posts) && errorMessage == Some("Failed to delete post")
      ensures !deleteFails ==> db.posts == old(db.posts) - {postID}
      ensures !deleteFails ==>
        RemovedFromUser(old(db.users), db.users, old(posts), posts, errorMessage,
                        postID, userID, readFails, writeFails)
      ensures !isLoading
    {
      isLoading := true;
      errorMessage := None;
      var ok := db.DeletePost(postID, deleteFails);
      if !ok {
        errorMessage := Some("Failed to delete post");
        isLoading := false;
        return;
      }
      RemovePostFromUser(db, postID, userID, readFails, writeFails);
    }

    /** What the second step leaves: the user document loses the id only when the read
        succeeds, the document exists, the id is in `myPosts` and the write succeeds;
        the local posts lose it only in that same case; a failed write is the only
        failure reported. */
    ghost predicate RemovedFromUser(users0: map<string, UserDoc>, users1: map<string, UserDoc>,
                                    posts0: seq<Post>, posts1: seq<Post>, message: Option<string>,
                                    postID: string, userID: string, readFails: bool, writeFails: bool)
    {
      var edit := if !readFails && userID in users0 then MyPostsEdit(users0[userID], postID) else None;
      if edit.Some? && !writeFails then
        && users1 == users0[userID := ApplyWrites(users0[userID], edit.value)]
        && posts1 == WithoutPost(posts0, postID)
        && message == None
      else
        && users1 == users0
        && posts1 == posts0
        && message == (if edit.Some? then Some("Failed to update user profile") else None)
    }

    method RemovePostFromUser(db: Database, postID: string, userID: string, readFails: bool, writeFails: bool)
      requires errorMessage == None
      modifies this, db
      ensures RemovedFromUser(old(db.users), db.users, old(posts), posts, errorMessage,
                              postID, userID, readFails, writeFails)
      ensures db.posts == old(db.posts) && !isLoading
    {
      var r := db.GetUser(userID, readFails);
      match r
      case ReadFailed =>
        isLoading := false;
      case Absent =>
        isLoading := false;
      case Present(d) =>
        var myPosts := d.myPosts;
        match FirstIndex(myPosts, postID)
        case Some(index) =>
          myPosts := RemoveAt(myPosts, index);
          var ok := db.UpdateUser(userID, [SetMyPosts(myPosts)], writeFails);
          if !ok {
            errorMessage := Some("Failed to update user profile");
          } else {
            posts := WithoutPost(posts, postID);
          }
          isLoading := false;
        case None =>
          isLoading := false;
    }
  }
}
