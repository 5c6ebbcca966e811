/**
 * Post documents: the nine fields the create screen writes, and the parsing closure
 * that the feed, profile and analytics view models each apply to fetched documents.
 */
module PostCodec {
  import opened Wrappers
  import opened Numerals
  import opened Statistics
  import opened PostModel

  /** A stored field value. */
  datatype Value = Str(s: string) | Int(n: Int64) | StrList(items: seq<string>)

  /** A document's data: field name to value. */
  type Doc = map<string, Value>

  /** `data[key] as? String`. */
  function GetString(doc: Doc, key: string): (r: Option<string>)
    ensures r.Some? <==> key in doc && doc[key].Str?
  {
    if key in doc && doc[key].Str? then Some(doc[key].s) else None
  }

  /** `data[key] as? Int`. */
  function GetInt(doc: Doc, key: string): (r: Option<Int64>)
    ensures r.Some? <==> key in doc && doc[key].Int?
  {
    if key in doc && doc[key].Int? then Some(doc[key].n) else None
  }

  /** The field names a post document is written with. */
  const PostKeys: set<string> :=
    {"postID", "userID", "username", "attempts", "date", "grade", "gymName", "location", "notes"}

  /** `addNewPost`'s document: every field of the post, the date as `toString()` and the
      grade as its stored name. */
  function EncodePost(p: Post): (doc: Doc)
    ensures doc.Keys == PostKeys && |doc| == 9
  {
    assert |PostKeys| == 9;
    map["postID" := Str(p.postID), "userID" := Str(p.userID), "username" := Str(p.username),
        "attempts" := Int(p.attempts), "date" := Str(DateToString(p.date)),
        "grade" := Str(RawValue(p.grade)), "gymName" := Str(p.gymName),
        "location" := Str(p.location), "notes" := Str(p.notes)]
  }

  /** The profile screen's parser: eight typed fields are required, `notes` defaults to
      the empty string, then the date and the grade must parse. */
  function ParsePost(doc: Doc): Option<Post> {
    var postID :- GetString(doc, "postID");
    var userID :- GetString(doc, "userID");
    var username :- GetString(doc, "username");
    var attempts :- GetInt(doc, "attempts");
    var dateString :- GetString(doc, "date");
    var gradeString :- GetString(doc, "grade");
    var gymName :- GetString(doc, "gymName");
    var location :- GetString(doc, "location");
    var notes := GetString(doc, "notes").GetOr("");
    var date :- ParseDate(dateString);
    var grade :- FromRawValue(gradeString);
    Some(Post(postID, userID, username, attempts, date, grade, gymName, location, notes))
  }

  /** The feed's parser: as the profile's, but a post whose author is neither the
      current user nor a friend is dropped right after the field checks. */
  function FeedParse(doc: Doc, currentUserID: string, friends: seq<string>): Option<Post> {
    var postID :- GetString(doc, "postID");
    var userID :- GetString(doc, "userID");
    var username :- GetString(doc, "username");
    var attempts :- GetInt(doc, "attempts");
    var dateString :- GetString(doc, "date");
    var gradeString :- GetString(doc, "grade");
    var gymName :- GetString(doc, "gymName");
    var location :- GetString(doc, "location");
    if userID != currentUserID && userID !in friends then None
    else
      var notes := GetString(doc, "notes").GetOr("");
      var date :- ParseDate(dateString);
      var grade :- FromRawValue(gradeString);
      Some(Post(postID, userID, username, attempts, date, grade, gymName, location, notes))
  }

  /** The analytics parser: the grade is resolved inside the field checks. */
  function AnalyticsParse(doc: Doc): Option<Post> {
    var postID :- GetString(doc, "postID");
    var userID :- GetString(doc, "userID");
    var username :- GetString(doc, "username");
    var attempts :- GetInt(doc, "attempts");
    var dateString :- GetString(doc, "date");
    var gradeString :- GetString(doc, "grade");
    var grade :- FromRawValue(gradeString);
    var gymName :- GetString(doc, "gymName");
    var location :- GetString(doc, "location");
    var notes := GetString(doc, "notes").GetOr("");
    var date :- ParseDate(dateString);
    Some(Post(postID, userID, username, attempts, date, grade, gymName, location, notes))
  }

  /** The conditions under which a document yields a post. */
  predicate WellFormed(doc: Doc) {
    && GetString(doc, "postID").Some? && GetString(doc, "userID").Some?
    && GetString(doc, "username").Some? && GetInt(doc, "attempts").Some?
    && GetString(doc, "gymName").Some? && GetString(doc, "location").Some?
    && GetString(doc, "date").Some? && ParseDate(GetString(doc, "date").value).Some?
    && GetString(doc, "grade").Some? && FromRawValue(GetString(doc, "grade").value).Some?
  }

  /** A document is parsed exactly when it is well formed; the post then carries the
      document's fields, with a missing or non-text `notes` read as "". */
  lemma ParsePostExactly(doc: Doc)
    ensures ParsePost(doc).Some? <==> WellFormed(doc)
    ensures ParsePost(doc).Some? ==>
      var p := ParsePost(doc).value;
      && Some(p.postID) == GetString(doc, "postID") && Some(p.userID) == GetString(doc, "userID")
      && Some(p.username) == GetString(doc, "username") && Some(p.attempts) == GetInt(doc, "attempts")
      && Some(p.gymName) == GetString(doc, "gymName") && Some(p.location) == GetString(doc, "location")
      && Some(p.date) == ParseDate(GetString(doc, "date").value)
      && Some(p.grade) == FromRawValue(GetString(doc, "grade").value)
      && p.notes == (if "notes" in doc && doc["notes"].Str? then doc["notes"].s else "")
  {
  }

  /** The three copies of the parser agree: the feed's is the profile's followed by the
      author filter, and the analytics one is the profile's. */
  lemma ParsersAgree(doc: Doc, currentUserID: string, friends: seq<string>)
    ensures FeedParse(doc, currentUserID, friends) ==
      (if ParsePost(doc).Some? && Visible(ParsePost(doc).value, currentUserID, friends)
       then ParsePost(doc) else None)
    ensures AnalyticsParse(doc) == ParsePost(doc)
  {
  }

  /** A post the feed shows: written by the current user or by one of their friends. */
  predicate Visible(p: Post, currentUserID: string, friends: seq<string>) {
    p.userID == currentUserID || p.userID in friends
  }

  /** A post written by the create screen parses back to itself whenever its date parts
      are non-negative. */
  lemma EncodeParseRoundTrip(p: Post)
    requires NonNegative(p.date)
    ensures ParsePost(EncodePost(p)) == Some(p)
    ensures AnalyticsParse(EncodePost(p)) == Some(p)
  {
    var doc := EncodePost(p);
    DateRoundTrip(p.date);
    RawValueRoundTrip(p.grade);
    assert GetString(doc, "date") == Some(DateToString(p.date));
    assert GetString(doc, "grade") == Some(RawValue(p.grade));
    assert WellFormed(doc);
    ParsePostExactly(doc);
    ParsersAgree(doc, "", []);
  }

  /** `documents.compactMap(ParsePost)`. */
  function ParseAll(docs: seq<Doc>): seq<Post> {
    if docs == [] then []
    else
      var rest := ParseAll(docs[1..]);
      match ParsePost(docs[0])
      case Some(p) => [p] + rest
      case None => rest
  }

  /** `documents.compactMap(FeedParse)`. */
  function ParseFeed(docs: seq<Doc>, currentUserID: string, friends: seq<string>): seq<Post> {
    if docs == [] then []
    else
      var rest := ParseFeed(docs[1..], currentUserID, friends);
      match FeedParse(docs[0], currentUserID, friends)
      case Some(p) => [p] + rest
      case None => rest
  }

  /** `documents.compactMap(AnalyticsParse)`. */
  function ParseForAnalytics(docs: seq<Doc>): seq<Post> {
    if docs == [] then []
    else
      var rest := ParseForAnalytics(docs[1..]);
      match AnalyticsParse(docs[0])
      case Some(p) => [p] + rest
      case None => rest
  }

  /** The visible posts of a list, in order. */
  function KeepVisible(ps: seq<Post>, currentUserID: string, friends: seq<string>): (r: seq<Post>)
    ensures forall p | p in r :: p in ps && Visible(p, currentUserID, friends)
    ensures forall p | p in ps && Visible(p, currentUserID, friends) :: p in r
  {
    if ps == [] then []
    else
      var rest := KeepVisible(ps[1..], currentUserID, friends);
      if Visible(ps[0], currentUserID, friends) then [ps[0]] + rest else rest
  }

  /** The feed's posts are exactly the parseable posts by the user or a friend, in
      document order. */
  lemma {:induction false} ParseFeedIsVisibleParse(docs: seq<Doc>, currentUserID: string, friends: seq<string>)
    ensures ParseFeed(docs, currentUserID, friends) == KeepVisible(ParseAll(docs), currentUserID, friends)
  {
    if docs != [] {
      ParsersAgree(docs[0], currentUserID, friends);
      ParseFeedIsVisibleParse(docs[1..], currentUserID, friends);
    }
  }

  /** The analytics screen parses the same posts as the profile screen. */
  lemma {:induction false} AnalyticsParsesAsProfile(docs: seq<Doc>)
    ensures ParseForAnalytics(docs) == ParseAll(docs)
  {
    if docs != [] {
      ParsersAgree(docs[0], "", []);
      AnalyticsParsesAsProfile(docs[1..]);
    }
  }
}
