/**
 * The friend-graph updates of the feed view model, as a function of the store.
 *
 * Each of the five operations is two single-document read-modify-writes. The first
 * phase reads one document, checks it, edits one or two lists and writes them; only
 * when that write succeeds does the second phase read the other document, edit it and
 * write it. Send works on the other user's document first; accept, reject, cancel and
 * unfriend on the initiator's own.
 */
module FriendGraph {
  import opened Wrappers
  import opened ListEdits
  import opened Store

  datatype Op = Send | Accept | Reject | Cancel | Unfriend

  type Users = map<string, UserDoc>

  /** The document the first phase reads and writes. */
  function FirstTarget(op: Op, cur: string, other: string): string {
    if op == Send then other else cur
  }

  /** The document the second phase reads and writes. */
  function SecondTarget(op: Op, cur: string, other: string): string {
    if op == Send then cur else other
  }

  /** The first phase's edit of document `d`; `None` when its check fails and nothing
      is written. */
  function FirstEdit(op: Op, d: UserDoc, cur: string, other: string): Option<seq<FieldWrite>> {
    match op
    case Send =>
      if cur in d.receivedFriendRequests then None
      else Some([SetReceived(d.receivedFriendRequests + [cur])])
    case Accept =>
      if other in d.receivedFriendRequests
      then Some([SetReceived(RemoveFirst(d.receivedFriendRequests, other)),
                 SetFriends(AppendIfAbsent(d.friends, other))])
      else None
    case Reject =>
      if other in d.receivedFriendRequests
      then Some([SetReceived(RemoveFirst(d.receivedFriendRequests, other))])
      else None
    case Cancel =>
      if other in d.sentFriendRequests
      then Some([SetSent(RemoveFirst(d.sentFriendRequests, other))])
      else None
    case Unfriend =>
      if other in d.friends
      then Some([SetFriends(RemoveFirst(d.friends, other))])
      else None
  }

  /** The second phase's edit of document `d`. Only send can skip its write; the others
      write back even when the id to remove is absent. */
  function SecondEdit(op: Op, d: UserDoc, cur: string, other: string): Option<seq<FieldWrite>> {
    match op
    case Send =>
      if other in d.sentFriendRequests then None
      else Some([SetSent(d.sentFriendRequests + [other])])
    case Accept =>
      Some([SetSent(RemoveFirst(d.sentFriendRequests, cur)), SetFriends(AppendIfAbsent(d.friends, cur))])
    case Reject =>
      Some([SetSent(RemoveFirst(d.sentFriendRequests, cur))])
    case Cancel =>
      Some([SetReceived(RemoveFirst(d.receivedFriendRequests, cur))])
    case Unfriend =>
      Some([SetFriends(RemoveFirst(d.friends, cur))])
  }

  /** The `errorMessage` set when a first-phase store call fails. */
  function FailMessage(op: Op): string {
    match op
    case Send => "Failed to send friend request"
    case Accept => "Failed to accept friend request"
    case Reject => "Failed to reject friend request"
    case Cancel => "Failed to cancel friend request"
    case Unfriend => "Failed to unfriend user"
  }

  /** The `errorMessage` when the first document does not exist. */
  function MissingMessage(op: Op): Option<string> {
    if op == Send then Some("User not found") else None
  }

  /** The `errorMessage` when the first phase's check fails. */
  function RejectedMessage(op: Op): Option<string> {
    match op
    case Send => None
    case Unfriend => Some("User is not in your friends list")
    case _ => Some("Friend request not found")
  }

  /** The store and `errorMessage` an operation leaves. */
  datatype Outcome = Outcome(users: Users, errorMessage: Option<string>)

  /** The second phase on store `users`; its failures are printed only. */
  function SecondPhase(op: Op, users: Users, cur: string, other: string, f: Faults): Users {
    var t := SecondTarget(op, cur, other);
    if f.secondRead || t !in users then users
    else match SecondEdit(op, users[t], cur, other)
      case None => users
      case Some(ws) => if f.secondWrite then users else users[t := ApplyWrites(users[t], ws)]
  }

  /** The store after the first write succeeded. */
  function AfterFirst(op: Op, users: Users, cur: string, other: string): Users
    requires FirstTarget(op, cur, other) in users
    requires FirstEdit(op, users[FirstTarget(op, cur, other)], cur, other).Some?
  {
    var t := FirstTarget(op, cur, other);
    users[t := ApplyWrites(users[t], FirstEdit(op, users[t], cur, other).value)]
  }

  /** The whole operation. */
  function Run(op: Op, users: Users, cur: string, other: string, f: Faults): (r: Outcome)
    ensures r.users.Keys == users.Keys
    ensures r.errorMessage.Some? ==> r.users == users
  {
    var t := FirstTarget(op, cur, other);
    if f.firstRead then Outcome(users, Some(FailMessage(op)))
    else if t !in users then Outcome(users, MissingMessage(op))
    else match FirstEdit(op, users[t], cur, other)
      case None => Outcome(users, RejectedMessage(op))
      case Some(_) =>
        if f.firstWrite then Outcome(users, Some(FailMessage(op)))
        else Outcome(SecondPhase(op, AfterFirst(op, users, cur, other), cur, other, f), None)
  }
}
