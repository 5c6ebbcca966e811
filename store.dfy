/**
 * The document store as the view models see it: single-document reads, merging
 * field updates, and whole-document writes, any of which may report an error.
 * Each call's failure is an explicit argument.
 */
module Store {
  import opened Wrappers
  import opened PostCodec

  /** The relationship and post lists of a user document. An array field that is
      missing reads as empty (`as? [String] ?? []`), so it is the empty sequence here. */
  datatype UserDoc = UserDoc(
    userId: Option<string>,
    username: Option<string>,
    friends: seq<string>,
    sentFriendRequests: seq<string>,
    receivedFriendRequests: seq<string>,
    myPosts: seq<string>)


  /** One field of an `updateData` call. */
  datatype FieldWrite =
    | SetFriends(ids: seq<string>)
    | SetSent(ids: seq<string>)
    | SetReceived(ids: seq<string>)
    | SetMyPosts(ids: seq<string>)

  function ApplyWrite(d: UserDoc, w: FieldWrite): UserDoc {
    match w
    case SetFriends(ids) => d.(friends := ids)
    case SetSent(ids) => d.(sentFriendRequests := ids)
    case SetReceived(ids) => d.(receivedFriendRequests := ids)
    case SetMyPosts(ids) => d.(myPosts := ids)
  }

  /** `updateData`: replaces the listed fields and keeps every other field. */
  function ApplyWrites(d: UserDoc, ws: seq<FieldWrite>): UserDoc
    decreases |ws|
  {
    if ws == [] then d else ApplyWrites(ApplyWrite(d, ws[0]), ws[1..])
  }

  /** A one-field update is that field's write. */
  lemma ApplyOne(d: UserDoc, w: FieldWrite)
    ensures ApplyWrites(d, [w]) == ApplyWrite(d, w)
  {
    assert [w][1..] == [];
  }

  /** A two-field update is the two writes in turn. */
  lemma ApplyTwo(d: UserDoc, w1: FieldWrite, w2: FieldWrite)
    ensures ApplyWrites(d, [w1, w2]) == ApplyWrite(ApplyWrite(d, w1), w2)
  {
    assert [w1, w2][1..] == [w2];
    ApplyOne(ApplyWrite(d, w1), w2);
  }

  /** The answer to `getDocument`. */
  datatype Read<T> = ReadFailed | Absent | Present(doc: T)

  /** The answer to a collection query (`getDocuments`): an error, no snapshot, or the
      documents in the order the store returns them. */
  datatype Query<T> = QueryFailed | NoSnapshot | Documents(docs: seq<T>)

  /** Which of an operation's four store calls (read, write, read, write) report an error. */
  datatype Faults = Faults(firstRead: bool, firstWrite: bool, secondRead: bool, secondWrite: bool)

  const NoFaults := Faults(false, false, false, false)

  /** The `users` and `posts` collections. */
  class Database {
    var users: map<string, UserDoc>
    var posts: map<string, Doc>

    constructor (users: map<string, UserDoc>, posts: map<string, Doc>)
      ensures this.users == users && this.posts == posts
    {
      this.users := users;
      this.posts := posts;
    }

    /** `users.document(id).getDocument`. */
    method GetUser(id: string, fails: bool) returns (r: Read<UserDoc>)
      ensures fails ==> r == ReadFailed
      ensures !fails ==> r == if id in users then Present(users[id]) else Absent
    {
      if fails {
        r := ReadFailed;
      } else if id in users {
        r := Present(users[id]);
      } else {
        r := Absent;
      }
    }

    /** `users.document(id).updateData(fields)`: fails on an error or a missing document. */
    method UpdateUser(id: string, writes: seq<FieldWrite>, fails: bool) returns (ok: bool)
      modifies this
      ensures ok == (!fails && id in old(users))
      ensures users == if ok then old(users)[id := ApplyWrites(old(users)[id], writes)] else old(users)
      ensures posts == old(posts)
    {
      ok := !fails && id in users;
      if ok {
        users := users[id := ApplyWrites(users[id], writes)];
      }
    }

    /** `posts.document(id).setData(doc)`: creates or replaces the document. */
    method SetPost(id: string, doc: Doc, fails: bool) returns (ok: bool)
      modifies this
      ensures ok == !fails
      ensures posts == if ok then old(posts)[id := doc] else old(posts)
      ensures users == old(users)
    {
      ok := !fails;
      if ok {
        posts := posts[id := doc];
      }
    }

    /** `posts.document(id).delete`: deleting an absent document succeeds. */
    method DeletePost(id: string, fails: bool) returns (ok: bool)
      modifies this
      ensures ok == !fails
      ensures posts == if ok then old(posts) - {id} else old(posts)
      ensures users == old(users)
    {
      ok := !fails;
      if ok {
        posts := posts - {id};
      }
    }
  }
}
