/** The user record as the client holds it. */
module UserModel {
  import opened Wrappers
  import opened Statistics

  /**
   * A user. `id` is computed from `userId`. The two request lists are read by the
   * friends screen although the record's declaration omits them; they are part of
   * the stored document, so they are fields here.
   */
  datatype User = User(
    userId: string,
    username: string,
    email: string,
    password: Option<string>,
    friends: seq<string>,
    myPosts: seq<string>,
    myStats: Stats,
    sentFriendRequests: seq<string>,
    receivedFriendRequests: seq<string>)
  {
    function Id(): string { userId }
  }

  /** `User(userId:username:email:password:)`: the given identity, every list empty and
      zeroed statistics; `password` defaults to nil when it is not passed. */
  function NewUser(userId: string, username: string, email: string, password: Option<string> := None): (u: User)
    ensures u.Id() == userId && u.username == username && u.email == email && u.password == password
    ensures u.friends == [] && u.myPosts == [] && u.myStats == InitialStats()
    ensures u.myStats.numClimbs == 0 && forall g: Grade :: u.myStats.Count(g) == 0
    ensures u.sentFriendRequests == [] && u.receivedFriendRequests == []
  {
    User(userId, username, email, password, [], [], InitialStats(), [], [])
  }

  /** The record's `==`: identity fields only. */
  predicate Same(a: User, b: User) {
    a.Id() == b.Id() && a.userId == b.userId && a.username == b.username && a.email == b.email
  }

  /** `==` ignores the password, the lists and the statistics: changing any of them
      keeps a user equal to its former self. */
  lemma SameIgnoresNonIdentity(a: User, password: Option<string>, friends: seq<string>,
                               myPosts: seq<string>, myStats: Stats)
    ensures Same(a, a.(password := password, friends := friends, myPosts := myPosts, myStats := myStats))
  {
  }

  /** `==` is reflexive, symmetric and transitive. */
  lemma SameIsEquivalence(a: User, b: User, c: User)
    ensures Same(a, a)
    ensures Same(a, b) ==> Same(b, a)
    ensures Same(a, b) && Same(b, c) ==> Same(a, c)
  {
  }
}
