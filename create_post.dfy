/**
 * Creating a post: the form's preview post with its defaults, the post button, and the
 * view model that writes the post document and then appends its id to the author's
 * `myPosts`.
 */
module CreatePost {
  import opened Wrappers
  import opened Numerals
  import opened Statistics
  import opened UserModel
  import opened PostModel
  import opened PostCodec
  import opened Store

  /** The author's document after a successful post write: when the read succeeds and
      the document exists, `myPosts` gets the id appended (no check for a copy) and
      nothing else changes; otherwise nothing is written. */
  function WithPostAppended(users: map<string, UserDoc>, userID: string, postID: string,
                            readFails: bool, writeFails: bool): (r: map<string, UserDoc>)
    ensures r.Keys == users.Keys
    ensures forall id | id in r && id != userID :: r[id] == users[id]
    ensures userID in users && !readFails && !writeFails ==>
      && |r[userID].myPosts| == |users[userID].myPosts| + 1
      && r[userID].myPosts[..|users[userID].myPosts|] == users[userID].myPosts
      && r[userID].myPosts[|users[userID].myPosts|] == postID
      && r[userID] == users[userID].(myPosts := r[userID].myPosts)
    ensures userID !in users || readFails || writeFails ==> r == users
  {
    if !readFails && userID in users && !writeFails then
      var d := users[userID];
      var r := users[userID := ApplyWrites(d, [SetMyPosts(d.myPosts + [postID])])];
      ApplyOne(d, SetMyPosts(d.myPosts + [postID]));
      assert (d.myPosts + [postID])[..|d.myPosts|] == d.myPosts;
      r
    else users
  }

  /** There is no check for a copy: adding the same post twice leaves two entries. */
  lemma AddedTwiceLeavesTwo(users: map<string, UserDoc>, userID: string, postID: string)
    requires userID in users
    ensures var twice := WithPostAppended(WithPostAppended(users, userID, postID, false, false),
                                          userID, postID, false, false);
      multiset(twice[userID].myPosts)[postID] == multiset(users[userID].myPosts)[postID] + 2
  {
    var once := WithPostAppended(users, userID, postID, false, false);
    var twice := WithPostAppended(once, userID, postID, false, false);
    var xs := users[userID].myPosts;
    assert once[userID].myPosts == xs + [postID] by {
      assert once[userID].myPosts == once[userID].myPosts[..|xs|] + [once[userID].myPosts[|xs|]];
    }
    assert twice[userID].myPosts == xs + [postID] + [postID] by {
      var ys := once[userID].myPosts;
      assert twice[userID].myPosts == twice[userID].myPosts[..|ys|] + [twice[userID].myPosts[|ys|]];
    }
    assert multiset(xs + [postID] + [postID]) == multiset(xs) + multiset{postID, postID};
  }

  class CreatePostVM {
    /** Writes the post document with its nine fields; only when that succeeds goes on
        to the author's document. The store calls' failures are not reported. */
    method AddNewPost(db: Database, post: Post, setFails: bool, readFails: bool, writeFails: bool)
      modifies db
      ensures db.posts == if setFails then old(db.posts) else old(db.posts)[post.postID := EncodePost(post)]
      ensures db.users == WithPostAppended(old(db.users), post.userID, post.postID, setFails || readFails, writeFails)
    {
      var ok := db.SetPost(post.postID, EncodePost(post), setFails);
      if ok {
        AddNewPostToUser(db, post, readFails, writeFails);
      }
    }

    method AddNewPostToUser(db: Database, post: Post, readFails: bool, writeFails: bool)
      modifies db
      ensures db.users == WithPostAppended(old(db.users), post.userID, post.postID, readFails, writeFails)
      ensures db.posts == old(db.posts)
    {
      var r := db.GetUser(post.userID, readFails);
      match r
      case ReadFailed =>
      case Absent =>
      case Present(d) =>
        var posts := d.myPosts;
        posts := posts + [post.postID];
        var ok := db.UpdateUser(post.userID, [SetMyPosts(posts)], writeFails);
    }
  }

  /** The form's fields. The date picker's components may be missing; the identifier
      of a new post is generated outside and passed in. */
  datatype Form = Form(
    grade: Grade,
    attempts: string,
    gymName: string,
    location: string,
    notes: string,
    year: Option<Int64>,
    month: Option<Int64>,
    day: Option<Int64>)

  /** `createPreviewPost`: the post the form describes, with its defaults. */
  function PreviewPost(form: Form, current: Option<User>, postID: string): (p: Post)
    ensures p.postID == postID && p.grade == form.grade
    ensures form.gymName == "" ==> p.gymName == "Gym Name"
    ensures form.gymName != "" ==> p.gymName == form.gymName
    ensures form.location == "" ==> p.location == "Location"
    ensures form.location != "" ==> p.location == form.location
    ensures p.notes == form.notes
    ensures ParseInt(form.attempts).Some? ==> p.attempts == ParseInt(form.attempts).value
    ensures ParseInt(form.attempts).None? ==> p.attempts == 0
    ensures current.Some? ==> p.userID == current.value.userId && p.username == current.value.username
    ensures current.None? ==> p.userID == "" && p.username == ""
    ensures p.date.year == form.year.GetOr(2025) && p.date.month == form.month.GetOr(1)
    ensures p.date.day == form.day.GetOr(1)
  {
    var date := PostDate(form.year.GetOr(2025), form.month.GetOr(1), form.day.GetOr(1));
    Post(
      postID,
      if current.Some? then current.value.userId else "",
      if current.Some? then current.value.username else "",
      ParseInt(form.attempts).GetOr(0),
      date,
      form.grade,
      if form.gymName == "" then "Gym Name" else form.gymName,
      if form.location == "" then "Location" else form.location,
      if form.notes == "" then "" else form.notes)
  }

  /** A calendar date has no negative component, so the post the button creates reads
      back unchanged from the document written for it. */
  lemma PreviewPostRoundTrips(form: Form, current: Option<User>, postID: string)
    requires form.year.Some? ==> form.year.value >= 0
    requires form.month.Some? ==> form.month.value >= 0
    requires form.day.Some? ==> form.day.value >= 0
    ensures ParsePost(EncodePost(PreviewPost(form, current, postID))) ==
      Some(PreviewPost(form, current, postID))
  {
    EncodeParseRoundTrip(PreviewPost(form, current, postID));
  }

  /** The post button's state. */
  class CreatePostView {
    var navigateToFeed: bool

    constructor ()
      ensures !navigateToFeed
    {
      navigateToFeed := false;
    }

    /** With nobody signed in nothing happens; otherwise the form's post is added and
        the screen moves to the feed, whatever the store calls do. */
    method PostTapped(db: Database, vm: CreatePostVM, form: Form, current: Option<User>, postID: string,
                      setFails: bool, readFails: bool, writeFails: bool)
      modifies this, db
      ensures current.None? ==>
        navigateToFeed == old(navigateToFeed) && db.posts == old(db.posts) && db.users == old(db.users)
      ensures current.Some? ==>
        var p := PreviewPost(form, current, postID);
        && navigateToFeed
        && db.posts == (if setFails then old(db.posts) else old(db.posts)[postID := EncodePost(p)])
        && db.users == WithPostAppended(old(db.users), p.userID, postID, setFails || readFails, writeFails)
    {
      if current.None? {
        return;
      }
      vm.AddNewPost(db, PreviewPost(form, current, postID), setFails, readFails, writeFails);
      navigateToFeed := true;
    }
  }
}
