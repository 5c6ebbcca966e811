# BetaBuddy friend graph, feeds and analytics in Dafny

BetaBuddy is an iOS app for climbers. Users log climbs as posts, follow friends' posts in a feed, and see statistics about their own climbing. This project models the parts of the app that hold its logic:

- the friend-graph updates of the feed view model: send, accept, reject and cancel a friend request, and unfriend;
- the feed and user list fetched from the store;
- the friends screen, with the list of users it offers and the local edits each of its buttons makes;
- the profile view model: the user's posts, and deleting a post;
- the create-post view model, and the preview post the create screen builds;
- the analytics view model: total climbs, grade breakdown, gym visits, most-visited gym and the sorted breakdown;
- the post, date, grade, statistics and user records;
- the climb card's text helpers and like button.

The cloud document store is a `Database` class in `Store`. It has two collections of documents, `users` and `posts`. Each store call the app makes is a method of that class. Whether the call fails is an explicit boolean parameter, collected for the friend-graph operations in `Faults(firstRead, firstWrite, secondRead, secondWrite)`.

`updateData` merges only the listed fields. It is modelled as a sequence of `FieldWrite`s applied to the document. A list field the document lacks is read as the empty list, as the app's `?? []` does.

Each friend-graph operation is two single-document read-modify-writes. The second runs only when the first write succeeded. `FriendGraph.Run` states the whole operation as a function from the store to the final store and the `errorMessage`. The `FeedVM` methods run the store calls step by step and are proved to end in exactly that state.

`FriendGraphProps` then proves facts about `Run`:

- which runs keep the store *mirrored*: b is in a's sent list exactly when a is in b's received list, and friendship is symmetric;
- that no run ever puts a duplicate into a relationship list;
- that a failed second write leaves the store unmirrored, and that repeating the operation does not repair it;
- that a repeat after success changes nothing.

Query answers (`getDocuments`) are parameters of the fetch methods, of type `Query`. The store returns documents in an order the app does not choose. For that reason the model takes the document sequence as it comes.

Swift behaviour that the model writes out:

- `split(separator:)` omits empty pieces (`Numerals.Split`);
- `Int(String)` accepts an optional sign and at least one digit, within the 64-bit range (`Numerals.ParseInt`);
- `firstIndex(of:)` followed by `remove(at:)` removes the first copy only (`ListEdits.RemoveFirst`);
- `removeAll { $0 == x }` removes every copy (`ListEdits.RemoveAll`);
- `sort` is not stable, so the sorted feed is specified only as ordered newest first and a permutation of the parsed posts (`PostOrder.SortNewestFirst`).

What the friend-graph code does not do, and the model therefore does not do either:

- A failed store call is not retried.
- When the second phase fails after the first write succeeded, the two documents are not reconciled. `FriendGraphProps.PartialFailureBreaksMirror` and `FriendGraphProps.RepeatIsNoOp` show the drift that remains.
- Nothing checks that the other user is not the current user.
- Sending a request does not look at the `friends` lists. `FriendGraphProps.SendIgnoresFriendship` shows that two friends can still end up with a pending request between them.

## Model

| member | source | states |
|---|---|---|
| ListEdits.FirstIndex | BetaBuddy/Feed/ViewModels/FeedVM.swift:131 | no index exactly when the id is absent; otherwise the index of the first copy |
| ListEdits.RemoveAt | BetaBuddy/Feed/ViewModels/FeedVM.swift:133 | the list is one shorter and loses exactly that element |
| ListEdits.AppendIfAbsent | BetaBuddy/Feed/ViewModels/FeedVM.swift:136-137 | the members are the old members plus the id; the list is unchanged when the id was there, otherwise the id is appended |
| ListEdits.RemoveAll | BetaBuddy/Feed/Views/SearchUsersView.swift:42 | the id is gone and every other element keeps its count |
| ListEdits.RemoveFirst | BetaBuddy/Feed/ViewModels/FeedVM.swift:131-133 | one element shorter when the id is present, unchanged otherwise; `RemoveFirstShape`, `RemoveFirstMembers` and `RemoveFirstIn` give its contents |
| ListEdits.RemoveAllAppend | BetaBuddy/Profile/ViewModels/ProfileVM.swift:157 | remove-all works piece by piece, so the survivors keep their order |
| ListEdits.RemoveAllIn | BetaBuddy/Feed/Views/SearchUsersView.swift:66 | y remains exactly when it was there and is not the removed id |
| ListEdits.RemoveFirstShape | BetaBuddy/Feed/ViewModels/FeedVM.swift:245-246 | removing a present id deletes the element at its first index and keeps the rest in order |
| ListEdits.RemoveFirstAbsent | BetaBuddy/Feed/ViewModels/FeedVM.swift:297-298 | removing an absent id changes nothing (the second phase writes the list back unchanged) |
| ListEdits.RemoveFirstMembers | BetaBuddy/Feed/ViewModels/FeedVM.swift:345-346 | the list loses one copy of the id, other members are kept, and in a duplicate-free list the id is gone |
| ListEdits.RemoveFirstIn | BetaBuddy/Feed/ViewModels/FeedVM.swift:445-446 | in a duplicate-free list, y remains exactly when it was there and is not the removed id |
| ListEdits.RemoveFirstNoDup | BetaBuddy/Feed/ViewModels/FeedVM.swift:191-192 | removing the first copy keeps a list duplicate-free |
| ListEdits.AppendIfAbsentNoDup | BetaBuddy/Feed/ViewModels/FeedVM.swift:196-197 | the guarded append keeps a list duplicate-free |
| ListEdits.RemoveFirstIsRemoveAll | BetaBuddy/Feed/Views/SearchUsersView.swift:40-42 | on a duplicate-free list the store's first-copy removal and the screen's remove-all agree |
| ListEdits.RemoveAllAbsent | BetaBuddy/Feed/Views/SearchUsersView.swift:104 | removing an absent id changes nothing |
| ListEdits.RemoveAllNoDup | BetaBuddy/Feed/Views/SearchUsersView.swift:81 | remove-all keeps a list duplicate-free |
| Statistics.Index | BetaBuddy/Analytics/ViewModels/AnalyticsVM.swift:126-128 | the position of a grade in `allCases`, its first and only occurrence |
| Statistics.AllCasesComplete | BetaBuddy/Authentication/Models/Statistics.swift:39-50 | `allCases` lists all nine grades, each once, in declaration order |
| Statistics.FromRawValue | BetaBuddy/Feed/ViewModels/FeedVM.swift:629 | a grade parsed from a string prints back as that string |
| Statistics.RawValue | BetaBuddy/Post/ViewModels/CreatePostVM.swift:22 | the stored name of a grade; `RawValueRoundTrip` and `RawValueInjective` state that it is read back and never shared |
| Statistics.RawValueRoundTrip | BetaBuddy/Post/ViewModels/CreatePostVM.swift:22 | the stored grade name parses back to the same grade |
| Statistics.RawValueInjective | BetaBuddy/Post/ViewModels/CreatePostVM.swift:22 | two grades with the same stored name are the same grade |
| Statistics.InitialStats | BetaBuddy/Authentication/Models/Statistics.swift:24-35 | zero climbs and a zero count for every grade |
| UserModel.NewUser | BetaBuddy/Authentication/Models/User.swift:24-29 | the given identity and password (nil by default), empty lists and zeroed statistics |
| UserModel.Same | BetaBuddy/Authentication/Models/User.swift:32-34 | equality compares the identity fields only; `SameIgnoresNonIdentity` and `SameIsEquivalence` state its properties |
| UserModel.SameIgnoresNonIdentity | BetaBuddy/Authentication/Models/User.swift:32-34 | changing the password, the lists or the statistics keeps a user equal to its former self |
| UserModel.SameIsEquivalence | BetaBuddy/Authentication/Models/User.swift:32-34 | equality is reflexive, symmetric and transitive |
| Numerals.DigitChar | BetaBuddy/Post/Models/PostModel.swift:52 | a digit character with the given value |
| Numerals.NatToString | BetaBuddy/Post/Models/PostModel.swift:52 | a non-empty run of digits |
| Numerals.IntToString | BetaBuddy/Post/Models/PostModel.swift:52 | non-empty, starting with a minus exactly for a negative number, with no other minus, and the digits after the optional sign have the value of the number's magnitude |
| Numerals.DigitsValueOfNatToString | BetaBuddy/Post/Models/PostModel.swift:52 | the printed digits of n read back as n |
| Numerals.ParseInt | BetaBuddy/Feed/ViewModels/FeedVM.swift:619-621 | a value exactly when the string is an optional sign and one or more digits whose signed value fits in 64 bits, and that value is the result |
| Numerals.ParseIntRejectsNonDigit | BetaBuddy/Feed/ViewModels/FeedVM.swift:619-621 | a character that is neither a digit nor a leading sign makes the parse fail |
| Numerals.IntToStringRoundTrip | BetaBuddy/Post/Models/PostModel.swift:52 | every 64-bit integer, negative ones included, printed and parsed back is itself |
| Numerals.ParseIntRoundTrip | BetaBuddy/Feed/ViewModels/FeedVM.swift:619-621 | `Int(String)` reads a printed non-negative 64-bit integer back as itself |
| Numerals.Split | BetaBuddy/Feed/ViewModels/FeedVM.swift:617 | every piece is non-empty and free of the separator |
| Numerals.RunLength | BetaBuddy/Feed/ViewModels/FeedVM.swift:617 | the length of the separator-free prefix |
| Numerals.SplitPiece | BetaBuddy/Feed/ViewModels/FeedVM.swift:617 | a separator-free piece followed by the rest splits into that piece and the rest's pieces |
| Numerals.SplitSkip | BetaBuddy/Feed/ViewModels/FeedVM.swift:617 | a leading separator yields no empty piece |
| Numerals.SplitThree | BetaBuddy/Feed/ViewModels/FeedVM.swift:617-618 | three separator-free pieces joined with dashes split back into the three |
| PostModel.ParseDate | BetaBuddy/Feed/ViewModels/FeedVM.swift:617-626 | a parsed date came from exactly three dash-separated pieces |
| PostModel.DateToString | BetaBuddy/Post/Models/PostModel.swift:50-53 | the dash-joined fields; `DateRoundTrip` and `DateToStringInjective` state that a non-negative date is read back and never shared |
| PostModel.DateRoundTrip | BetaBuddy/Post/Models/PostModel.swift:50-53 | `toString()` of a date with non-negative fields parses back to that date |
| PostModel.DateToStringInjective | BetaBuddy/Post/Models/PostModel.swift:50-53 | two non-negative dates that print the same are equal |
| PostModel.NegativeMonthPrints | BetaBuddy/Post/Models/PostModel.swift:52 | month -1 prints as "2025--1-5" |
| PostModel.NegativeMonthReadsBackPositive | BetaBuddy/Feed/ViewModels/FeedVM.swift:617-626 | "2025--1-5" parses as month 1: the round trip needs non-negative fields |
| PostCodec.GetString | BetaBuddy/Feed/ViewModels/FeedVM.swift:597 | a value exactly when the key holds text |
| PostCodec.GetInt | BetaBuddy/Feed/ViewModels/FeedVM.swift:600 | a value exactly when the key holds an integer |
| PostCodec.EncodePost | BetaBuddy/Post/ViewModels/CreatePostVM.swift:16-26 | the document has exactly the nine post fields |
| PostCodec.ParsePost | BetaBuddy/Profile/ViewModels/ProfileVM.swift:41-87 | the profile's parse of one document; `ParsePostExactly` states when it succeeds and what it yields, `EncodeParseRoundTrip` that it inverts `EncodePost` |
| PostCodec.ParsePostExactly | BetaBuddy/Profile/ViewModels/ProfileVM.swift:41-87 | a document parses exactly when its eight typed fields, date and grade are valid; the post carries those fields, with `notes` defaulting to "" |
| PostCodec.ParsersAgree | BetaBuddy/Analytics/ViewModels/AnalyticsVM.swift:50-91 | the feed's parser is the profile's followed by the author filter, and the analytics parser is the profile's |
| PostCodec.EncodeParseRoundTrip | BetaBuddy/Post/ViewModels/CreatePostVM.swift:16-26 | a written post with a non-negative date is read back unchanged by the profile and analytics parsers |
| PostCodec.KeepVisible | BetaBuddy/Feed/ViewModels/FeedVM.swift:609-612 | exactly the posts by the current user or a friend are kept |
| PostCodec.ParseFeedIsVisibleParse | BetaBuddy/Feed/ViewModels/FeedVM.swift:594-645 | the feed's parse of the documents equals parsing them all and keeping the visible posts |
| PostCodec.AnalyticsParsesAsProfile | BetaBuddy/Analytics/ViewModels/AnalyticsVM.swift:50-91 | analytics parses a document list exactly as the profile does |
| PostOrder.IsNewerStrictWeakOrder | BetaBuddy/Feed/ViewModels/FeedVM.swift:648-656 | the sort's comparison is irreflexive, asymmetric and transitive in its incomparability, and ties only equal dates |
| PostOrder.Insert | BetaBuddy/Feed/ViewModels/FeedVM.swift:648-656 | inserting into a newest-first list gives a newest-first list holding one more post |
| PostOrder.SortNewestFirst | BetaBuddy/Profile/ViewModels/ProfileVM.swift:90-98 | newest first and a permutation of the input |
| Store.ApplyOne | BetaBuddy/Feed/ViewModels/FeedVM.swift:37-39 | an update of one field sets that field |
| Store.ApplyTwo | BetaBuddy/Feed/ViewModels/FeedVM.swift:141-144 | an update of two fields applies both, in order |
| Store.Database.constructor | BetaBuddy/Feed/ViewModels/FeedVM.swift:18 | the store holds the given collections |
| Store.Database.GetUser | BetaBuddy/Feed/ViewModels/FeedVM.swift:18-20 | a failed read, an absent document or the stored document |
| Store.Database.UpdateUser | BetaBuddy/Feed/ViewModels/FeedVM.swift:37-45 | succeeds exactly when the call does not fail and the document exists, and then merges the writes into that document only |
| Store.Database.SetPost | BetaBuddy/Post/ViewModels/CreatePostVM.swift:16-27 | on success the post document is replaced; the users are untouched |
| Store.Database.DeletePost | BetaBuddy/Profile/ViewModels/ProfileVM.swift:111-118 | on success the post document is gone; the users are untouched |
| FriendGraph.FirstEdit | BetaBuddy/Feed/ViewModels/FeedVM.swift:126-144 | the first phase's check and list edits for each operation; `FirstEditAdmits` states when it writes and `FirstEditApplied` the document it produces |
| FriendGraph.SecondEdit | BetaBuddy/Feed/ViewModels/FeedVM.swift:186-204 | the second phase's list edits; `SecondEditApplied` states the document it produces |
| FriendGraph.Run | BetaBuddy/Feed/ViewModels/FeedVM.swift:13-523 | the whole operation: the store keeps its documents, and a reported error means nothing was written; the `FriendGraphProps` lemmas state its effects |
| FriendGraphProps.FirstEditApplied | BetaBuddy/Feed/ViewModels/FeedVM.swift:131-144 | the first phase's writes produce the edited document |
| FriendGraphProps.SecondEditApplied | BetaBuddy/Feed/ViewModels/FeedVM.swift:191-204 | the second phase's writes produce the edited document |
| FriendGraphProps.AfterFirstIs | BetaBuddy/Feed/ViewModels/FeedVM.swift:110-172 | after the first write only the first target document has changed |
| FriendGraphProps.SecondPhaseIs | BetaBuddy/Feed/ViewModels/FeedVM.swift:174-223 | the second phase changes its document only when its read and write both succeed and its check passes |
| FriendGraphProps.FirstResultNoDup | BetaBuddy/Feed/ViewModels/FeedVM.swift:131-137 | a first-phase edit keeps a document's lists duplicate-free |
| FriendGraphProps.SecondResultNoDup | BetaBuddy/Feed/ViewModels/FeedVM.swift:191-197 | a second-phase edit keeps a document's lists duplicate-free |
| FriendGraphProps.RunKeepsNoDup | BetaBuddy/Feed/ViewModels/FeedVM.swift:13-523 | under any failures, no operation puts a duplicate into a relationship list |
| FriendGraphProps.FullRunIs | BetaBuddy/Feed/ViewModels/FeedVM.swift:13-523 | with no failures and a passing check, the store after both phases |
| FriendGraphProps.SendEffect | BetaBuddy/Feed/ViewModels/FeedVM.swift:13-108 | a successful send adds cur to other's received list and other to cur's sent list, and changes nothing else |
| FriendGraphProps.AcceptEffect | BetaBuddy/Feed/ViewModels/FeedVM.swift:110-223 | a successful accept moves the request into friends on both sides and changes nothing else |
| FriendGraphProps.RejectEffect | BetaBuddy/Feed/ViewModels/FeedVM.swift:425-523 | a successful reject removes the request from both sides and changes nothing else |
| FriendGraphProps.CancelEffect | BetaBuddy/Feed/ViewModels/FeedVM.swift:325-423 | a successful cancel removes the request from both sides and changes nothing else |
| FriendGraphProps.UnfriendEffect | BetaBuddy/Feed/ViewModels/FeedVM.swift:225-323 | a successful unfriend removes the friendship on both sides and changes nothing else |
| FriendGraphProps.SendKeepsMirrored | BetaBuddy/Feed/ViewModels/FeedVM.swift:13-108 | a send without failures keeps the store mirrored |
| FriendGraphProps.AcceptKeepsMirrored | BetaBuddy/Feed/ViewModels/FeedVM.swift:110-223 | an accept without failures keeps the store mirrored |
| FriendGraphProps.RejectKeepsMirrored | BetaBuddy/Feed/ViewModels/FeedVM.swift:425-523 | a reject without failures keeps the store mirrored |
| FriendGraphProps.CancelKeepsMirrored | BetaBuddy/Feed/ViewModels/FeedVM.swift:325-423 | a cancel without failures keeps the store mirrored |
| FriendGraphProps.UnfriendKeepsMirrored | BetaBuddy/Feed/ViewModels/FeedVM.swift:225-323 | an unfriend without failures keeps the store mirrored |
| FriendGraphProps.RunKeepsMirrored | BetaBuddy/Feed/ViewModels/FeedVM.swift:13-523 | every operation without failures keeps a mirrored, duplicate-free store mirrored and duplicate-free, whether or not its check passes |
| FriendGraphProps.FirstEditAdmits | BetaBuddy/Feed/ViewModels/FeedVM.swift:33 | the first phase writes exactly when its check on the lists passes |
| FriendGraphProps.RejectedWritesNothing | BetaBuddy/Feed/ViewModels/FeedVM.swift:160-161 | a failed check leaves the store alone and sets the operation's not-found message |
| FriendGraphProps.FirstPhaseFailureWritesNothing | BetaBuddy/Feed/ViewModels/FeedVM.swift:20-25 | a failed first read or write, or a missing document, leaves the store alone with the matching message |
| FriendGraphProps.SecondPhaseFailureState | BetaBuddy/Feed/ViewModels/FeedVM.swift:174-186 | a failed second read or write leaves exactly the first document edited, with no error reported |
| FriendGraphProps.PartialFailureBreaksMirror | BetaBuddy/Feed/ViewModels/FeedVM.swift:69-108 | a failed second phase leaves a mirrored store unmirrored |
| FriendGraphProps.AfterSuccessNotAdmitted | BetaBuddy/Feed/ViewModels/FeedVM.swift:131-160 | once the first write succeeded, the same check no longer passes |
| FriendGraphProps.RepeatIsNoOp | BetaBuddy/Feed/ViewModels/FeedVM.swift:155-161 | repeating an operation whose first write succeeded changes nothing and reports the not-found message, so a partial failure is never repaired |
| FriendGraphProps.SendIgnoresFriendship | BetaBuddy/Feed/ViewModels/FeedVM.swift:33-34 | sending to an existing friend still records a pending request on both sides |
| FeedViewModel.ListedMembers | BetaBuddy/Feed/ViewModels/FeedVM.swift:547-563 | an id is listed exactly when some document has text userId and username and is not the excluded user |
| FeedViewModel.NamesMatchListed | BetaBuddy/Feed/ViewModels/FeedVM.swift:561-562 | the name map's keys are the listed ids, and each maps to the username of the last such document |
| FeedViewModel.FeedVM.constructor | BetaBuddy/Feed/ViewModels/FeedVM.swift:7-11 | empty posts, users and name map, not loading, no error |
| FeedViewModel.FeedVM.SendFriendRequest | BetaBuddy/Feed/ViewModels/FeedVM.swift:13-67 | the store and message end as `Run(Send)` gives, loading cleared, feed fields unchanged |
| FeedViewModel.FeedVM.AddToSentRequests | BetaBuddy/Feed/ViewModels/FeedVM.swift:69-108 | the store ends as send's second phase gives |
| FeedViewModel.FeedVM.AcceptFriendRequest | BetaBuddy/Feed/ViewModels/FeedVM.swift:110-172 | the store and message end as `Run(Accept)` gives |
| FeedViewModel.FeedVM.MoveFromSentToFriends | BetaBuddy/Feed/ViewModels/FeedVM.swift:174-223 | the store ends as accept's second phase gives |
| FeedViewModel.FeedVM.Unfriend | BetaBuddy/Feed/ViewModels/FeedVM.swift:225-279 | the store and message end as `Run(Unfriend)` gives |
| FeedViewModel.FeedVM.RemoveFromOtherUserFriends | BetaBuddy/Feed/ViewModels/FeedVM.swift:281-323 | the store ends as unfriend's second phase gives |
| FeedViewModel.FeedVM.CancelFriendRequest | BetaBuddy/Feed/ViewModels/FeedVM.swift:325-379 | the store and message end as `Run(Cancel)` gives |
| FeedViewModel.FeedVM.RemoveFromReceivedRequests | BetaBuddy/Feed/ViewModels/FeedVM.swift:381-423 | the store ends as cancel's second phase gives |
| FeedViewModel.FeedVM.RejectFriendRequest | BetaBuddy/Feed/ViewModels/FeedVM.swift:425-479 | the store and message end as `Run(Reject)` gives |
| FeedViewModel.FeedVM.RemoveFromSentRequests | BetaBuddy/Feed/ViewModels/FeedVM.swift:481-523 | the store ends as reject's second phase gives |
| FeedViewModel.FeedVM.FetchAllUsers | BetaBuddy/Feed/ViewModels/FeedVM.swift:525-571 | on failure the error message; with documents, the listed ids and the name map; with no snapshot, the old lists |
| FeedViewModel.FeedVM.FetchAllPosts | BetaBuddy/Feed/ViewModels/FeedVM.swift:574-661 | on failure the error message; with documents, the visible parsed posts, newest first, as a permutation |
| FeedViewModel.FeedMembers | BetaBuddy/Feed/ViewModels/FeedVM.swift:594-656 | a post is in the feed exactly when a document parses to it and it is by the user or a friend |
| SearchUsers.Offered | BetaBuddy/Feed/Views/SearchUsersView.swift:17-24 | the filter's test; `AvailableUsers` and `OfferedAfterEdit` state its use |
| SearchUsers.AvailableUsers | BetaBuddy/Feed/Views/SearchUsersView.swift:16-26 | exactly the users who are not friends and have no request pending either way, and no more of them than were loaded |
| SearchUsers.AvailableUsersAppend | BetaBuddy/Feed/Views/SearchUsersView.swift:21-25 | the filter distributes over concatenation, so it keeps the list's order |
| SearchUsers.AvailableUsersSignedOut | BetaBuddy/Feed/Views/SearchUsersView.swift:17-19 | with nobody signed in every user is offered |
| SearchUsers.LocalEdit | BetaBuddy/Feed/Views/SearchUsersView.swift:38-128 | each button's edit of the signed-in user leaves an equal user with the same posts, statistics and password; `LocalEditMembers` states its effect on the lists |
| SearchUsers.LocalEditMembers | BetaBuddy/Feed/Views/SearchUsersView.swift:38-128 | what each button's local edit does to the membership of the three lists; the other fields are kept |
| SearchUsers.LocalEditNoDup | BetaBuddy/Feed/Views/SearchUsersView.swift:62-69 | the local edits keep the user's lists duplicate-free |
| SearchUsers.OfferedAfterEdit | BetaBuddy/Feed/Views/SearchUsersView.swift:16-26 | after send or accept the user is no longer offered; after unfriend, reject or cancel of the only tie, they are offered again |
| SearchUsers.LocalAgreesAfterSuccess | BetaBuddy/Feed/Views/SearchUsersView.swift:38-128 | when every store call succeeds, the local lists agree with the stored document as before |
| SearchUsers.LocalDivergesOnFailure | BetaBuddy/Feed/Views/SearchUsersView.swift:38-128 | when the first read fails, the local lists stop agreeing with the stored document |
| SearchUsers.SearchUsersView.Available | BetaBuddy/Feed/Views/SearchUsersView.swift:16-26 | the screen offers exactly the loaded users that pass the filter for the signed-in user |
| SearchUsers.SearchUsersView.constructor | BetaBuddy/Feed/Views/SearchUsersView.swift:12-13 | the screen holds the given user and view model |
| SearchUsers.SearchUsersView.RemoveFriendTapped | BetaBuddy/Feed/Views/SearchUsersView.swift:38-42 | signed in: the store and the view model's message run unfriend as `Run` gives, loading ends, and the local friends lose the id; signed out: the user, the store and the view model are unchanged; either way the loaded users, names and posts are kept, so the offered list is the old list filtered for the new user |
| SearchUsers.SearchUsersView.AcceptTapped | BetaBuddy/Feed/Views/SearchUsersView.swift:62-69 | signed in: the store and the view model's message run accept as `Run` gives, loading ends, and the request moves locally to friends; signed out: the user, the store and the view model are unchanged; either way the loaded users, names and posts are kept, so the offered list is the old list filtered for the new user |
| SearchUsers.SearchUsersView.RejectTapped | BetaBuddy/Feed/Views/SearchUsersView.swift:77-81 | signed in: the store and the view model's message run reject as `Run` gives, loading ends, and the local received list loses the id; signed out: the user, the store and the view model are unchanged; either way the loaded users, names and posts are kept, so the offered list is the old list filtered for the new user |
| SearchUsers.SearchUsersView.CancelTapped | BetaBuddy/Feed/Views/SearchUsersView.swift:100-104 | signed in: the store and the view model's message run cancel as `Run` gives, loading ends, and the local sent list loses the id; signed out: the user, the store and the view model are unchanged; either way the loaded users, names and posts are kept, so the offered list is the old list filtered for the new user |
| SearchUsers.SearchUsersView.SendTapped | BetaBuddy/Feed/Views/SearchUsersView.swift:122-128 | signed in: the store and the view model's message run send as `Run` gives, loading ends, and the local sent list gains the id; signed out: the user, the store and the view model are unchanged; either way the loaded users, names and posts are kept, so the offered list is the old list filtered for the new user |
| Analytics.Tally | BetaBuddy/Analytics/ViewModels/AnalyticsVM.swift:105-108 | every count is at least one and there are no more keys than values; `TallyCounts` and `TallySum` state the counts |
| Analytics.TallyCounts | BetaBuddy/Analytics/ViewModels/AnalyticsVM.swift:105-108 | a key is counted exactly when it occurs, and its count is its number of occurrences |
| Analytics.SumWithout | BetaBuddy/Analytics/ViewModels/AnalyticsVM.swift:105-108 | the total of a map is one entry plus the total of the rest |
| Analytics.SumIncrement | BetaBuddy/Analytics/ViewModels/AnalyticsVM.swift:107 | the defaulted increment raises the total by one |
| Analytics.TallySum | BetaBuddy/Analytics/ViewModels/AnalyticsVM.swift:102-114 | the counts add up to the number of posts |
| Analytics.TallyEmpty | BetaBuddy/Analytics/ViewModels/AnalyticsVM.swift:117-121 | the tally is empty exactly when there are no posts |
| Analytics.GradesOf | BetaBuddy/Analytics/ViewModels/AnalyticsVM.swift:106-107 | each post's grade, in order |
| Analytics.GymsOf | BetaBuddy/Analytics/ViewModels/AnalyticsVM.swift:112-113 | each post's gym, in order |
| Analytics.SortedBreakdown | BetaBuddy/Analytics/ViewModels/AnalyticsVM.swift:125-129 | the breakdown's pairs exactly, in `allCases` order |
| Analytics.BreakdownFrom | BetaBuddy/Analytics/ViewModels/AnalyticsVM.swift:125-129 | the pairs from a given grade position on, in `allCases` order |
| Analytics.AnalyticsVM.constructor | BetaBuddy/Analytics/ViewModels/AnalyticsVM.swift:14-24 | the initial field values, with "N/A" as the most-visited gym |
| Analytics.AnalyticsVM.FetchUserAnalytics | BetaBuddy/Analytics/ViewModels/AnalyticsVM.swift:27-97 | on failure the error message and the old figures; with documents, the parsed posts and figures computed from them |
| Analytics.AnalyticsVM.ComputeAnalytics | BetaBuddy/Analytics/ViewModels/AnalyticsVM.swift:100-122 | the total, the grade and gym tallies, and a most-visited gym ("N/A" when there is none) for the current posts |
| Analytics.CountGrades | BetaBuddy/Analytics/ViewModels/AnalyticsVM.swift:105-108 | the loop's dictionary is the tally of the posts' grades |
| Analytics.CountGyms | BetaBuddy/Analytics/ViewModels/AnalyticsVM.swift:111-114 | the loop's dictionary is the tally of the posts' gyms |
| Analytics.MostVisitedOf | BetaBuddy/Analytics/ViewModels/AnalyticsVM.swift:117-121 | none exactly for an empty map; otherwise a gym with the largest count |
| Analytics.CountsMeanCounts | BetaBuddy/Analytics/ViewModels/AnalyticsVM.swift:102-114 | grade and gym counts are occurrence counts, present exactly for what occurs, and each tally sums to the number of posts |
| Analytics.NoGymExactlyWhenNoPosts | BetaBuddy/Analytics/ViewModels/AnalyticsVM.swift:116-121 | when no gym is named "N/A", the most-visited gym is "N/A" exactly when there are no posts |
| Analytics.ComputeTwiceAgrees | BetaBuddy/Analytics/ViewModels/AnalyticsVM.swift:100-122 | two computations agree on every figure; their most-visited gyms may differ but have the same count |
| ProfileViewModel.WithoutPost | BetaBuddy/Profile/ViewModels/ProfileVM.swift:157 | exactly the posts with another id |
| ProfileViewModel.WithoutPostAppend | BetaBuddy/Profile/ViewModels/ProfileVM.swift:157 | the removal works piece by piece, so the surviving posts keep their order |
| ProfileViewModel.WithoutPostKeepsOrder | BetaBuddy/Profile/ViewModels/ProfileVM.swift:157 | removing posts keeps a newest-first list newest first |
| ProfileViewModel.MyPostsEdit | BetaBuddy/Profile/ViewModels/ProfileVM.swift:140-148 | the `myPosts` write of the delete; `MyPostsEditShape` states when it exists and what it writes |
| ProfileViewModel.MyPostsEditShape | BetaBuddy/Profile/ViewModels/ProfileVM.swift:140-148 | there is an edit exactly when the id is in `myPosts`; it removes the first copy, keeps the rest in order and touches no other field |
| ProfileViewModel.ProfileVM.constructor | BetaBuddy/Profile/ViewModels/ProfileVM.swift:14-16 | no posts, not loading, no error |
| ProfileViewModel.ProfileVM.FetchUserPosts | BetaBuddy/Profile/ViewModels/ProfileVM.swift:19-103 | on failure the error message and the old posts; with documents, the parsed posts, newest first, as a permutation |
| ProfileViewModel.ProfileVM.DeletePost | BetaBuddy/Profile/ViewModels/ProfileVM.swift:106-125 | a failed delete changes nothing and reports; otherwise the post document is gone and the user step follows |
| ProfileViewModel.ProfileVM.RemovePostFromUser | BetaBuddy/Profile/ViewModels/ProfileVM.swift:127-172 | the user document and the local posts lose the id only when every call succeeds and the id is listed; only a failed write is reported |
| CreatePost.WithPostAppended | BetaBuddy/Post/ViewModels/CreatePostVM.swift:38-75 | on success the author's `myPosts` gains the id at its end and nothing else changes; on any failure or a missing author the users are unchanged |
| CreatePost.AddedTwiceLeavesTwo | BetaBuddy/Post/ViewModels/CreatePostVM.swift:51-59 | adding the same post twice leaves two more copies of its id |
| CreatePost.CreatePostVM.AddNewPost | BetaBuddy/Post/ViewModels/CreatePostVM.swift:14-36 | the post document is written, and only then is the id appended to the author |
| CreatePost.CreatePostVM.AddNewPostToUser | BetaBuddy/Post/ViewModels/CreatePostVM.swift:38-75 | the author's document gains the id as `WithPostAppended` states; posts are untouched |
| CreatePost.PreviewPost | BetaBuddy/Post/Views/CreatePostView.swift:171-191 | the form's fields, with "Gym Name" for an empty gym and "Location" for an empty location, 0 for unparsable attempts, the signed-in user or "", and date defaults 2025-1-1 |
| CreatePost.PreviewPostRoundTrips | BetaBuddy/Post/Views/CreatePostView.swift:138-146 | the post the button stores parses back unchanged |
| CreatePost.CreatePostView.constructor | BetaBuddy/Post/Views/CreatePostView.swift:21 | the screen does not navigate at first |
| CreatePost.CreatePostView.PostTapped | BetaBuddy/Post/Views/CreatePostView.swift:138-146 | signed out: nothing changes; signed in: the preview post is added and the screen navigates, whatever the store calls do |
| ClimbCard.TimeOfDay | BetaBuddy/Components/ClimbCard.swift:285-293 | each name exactly for its hour range, "Night" for all the rest |
| ClimbCard.GradeTier | BetaBuddy/Components/ClimbCard.swift:295-302 | each tier exactly for its grades |
| ClimbCard.TierMonotone | BetaBuddy/Components/ClimbCard.swift:295-302 | a harder grade never has a lower tier |
| ClimbCard.ClimbTitle | BetaBuddy/Components/ClimbCard.swift:279-283 | the time of day, the tier and "Session"; `ClimbTitleParts` states that the title determines both parts |
| ClimbCard.ClimbTitleParts | BetaBuddy/Components/ClimbCard.swift:279-283 | two titles are equal exactly when their times of day and tiers are |
| ClimbCard.Status | BetaBuddy/Components/ClimbCard.swift:143-148 | "Flash!" exactly for one attempt, "Sent" otherwise |
| ClimbCard.Tapped | BetaBuddy/Components/ClimbCard.swift:217-221 | the like flag flips and the count moves by one in its direction |
| ClimbCard.TappedTwice | BetaBuddy/Components/ClimbCard.swift:217-221 | two taps restore the state |
| ClimbCard.LikeButton.constructor | BetaBuddy/Components/ClimbCard.swift:13-14 | not liked, count 0 |
| ClimbCard.LikeButton.Tap | BetaBuddy/Components/ClimbCard.swift:217-221 | the new state is one tap of the old, and the count stays 1 when liked and 0 otherwise |

## Left out

- The cloud store SDK, its callbacks and the network are not modelled. Each store call is a method of `Database` whose failure is a parameter.
- Concurrency is not modelled: callbacks that interleave, and two operations on the same documents at once. The operations run one after the other.
- Retries, reconciliation after a partial failure, and rejecting a request to oneself are not in the source, so they are not in the model. `FriendGraphProps.RepeatIsNoOp` and `FriendGraphProps.PartialFailureBreaksMirror` show what follows.
- A relationship or `myPosts` field missing from a document, or of the wrong type, is read as the empty list (`?? []`). The model does not tell the two apart.
- A document that exists but returns no data (`data()` nil) is treated as a missing document: a snapshot of an existing document always has data. The source's nil-data branches differ from its missing-document branches in two ways the model does not capture, listed next.
- On nil data `sendFriendRequest` reports nothing (FeedVM.swift:57-60), while for a missing document it reports "User not found"; the model reports "User not found" for both.
- `addToSentRequests` (FeedVM.swift:78-99) and `removePostFromUser` (ProfileVM.swift:138-166) have no branch for nil data, so they leave `isLoading` set, while the model clears it.
- Swift's sort algorithm is left out, and so is the order it leaves posts with equal dates in. The sorted lists are specified as ordered and a permutation only.
- The order in which a Swift dictionary is traversed is left out. For that reason `Analytics.MostVisitedOf` chooses among the gyms with the largest count without saying which.
- `ClimbCard.LikeButton.Tap`: the `Int` overflow of `likeCount` is not modelled. Its invariant keeps the count at 0 or 1.
- The clock, the calendar, `UUID()` and date formatting are not modelled. The hour, the date components and the new post id are parameters.
- `whereField` filters on the server. The query's answer is a parameter and the model does not check it against the user id.
- The order of the documents a query returns is a parameter.
- `User` is an observable class in the source, shared by reference with the authentication view model. The friends screen edits its lists in place, and every holder of the object sees the edit. The model holds the signed-in user as a value in `SearchUsersView.currentUser`, so it does not capture this aliasing.
- String equality and `contains` in Swift compare strings by Unicode canonical equivalence, while the model compares character sequences. The two agree on the generated ASCII document ids but can differ on usernames and emails, which `UserModel.Same` compares.
- Floating point, layout, animation and the SwiftUI views' rendering are left out. Only the buttons' actions and the computed properties are modelled.
- Authentication is not modelled (login, registration, the signed-in user's session). The signed-in user is a parameter of the friends screen and the create screen.
- The grade enum declares no raw values, yet the app calls `Grades(rawValue:)` and `rawValue`. The model uses each case's name as its raw value.
- `Statistics` counts per grade are never updated by the app. They are modelled only by their initial values.
