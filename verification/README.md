# Verified model of the vybe backend

The backend answers each request with a sequence of separate database statements, almost never inside one transaction.
This project models that: swiping, matching, chatting, message paging, the discovery feed, one-time codes, refresh
sessions and friendships, as they behave when requests run interleaved, when accounts are deleted in the middle of other
requests, and when nobody interferes.

| file | contents |
|---|---|
| Base.dfy | ids, times, optional values, the order of JavaScript's `sort` |
| Query.dfy | `orderBy ... desc` with `take`, any tie order allowed; draining a pool page by page |
| Schema.dfy | the tables, their keys and ON DELETE rules, each statement as an atomic step, and what every reachable store satisfies |
| Requests.dfy | requests in flight as program counters over the store, and runs of interleaved steps |
| Safety.dfy | the inductive invariant of those runs |
| Guarantees.dfy | what every run guarantees |
| Failures.dfy | what failed requests leave behind, and when opening a chat fails |
| Crash.dfy | what a process crash would cost |
| Alone.dfy | each operation as one uninterrupted call, proved equal to its steps |
| Promises.dfy | what a caller gets from each undisturbed operation, row by row |
| Answers.dfy | whose request an answer belongs to, and who is behind a notification, over whole runs |
| Views.dfy | match list, match by id, chat list |
| Paging.dfy | cursor pagination and the walk over all pages |
| Discovery.dfy | the feed and whom it may show |
| Drain.dfy | how swiping, request by request, drains the feed |
| Services.dfy | the services as classes, statement by statement, proved against Alone.dfy, Paging.dfy and Discovery.dfy |
| Codes.dfy | one-time codes and password changes of one account with any number of calls in flight |
| Auth.dfy, Sessions.dfy, Accounts.dfy | accounts, codes and refresh tokens, one operation after another |
| Friendships.dfy, FriendshipsService.dfy | friendship rows, interleaved and sequential |

Assumptions. Every awaited Prisma call is one atomic step that sees all committed data, a nested create and a
`$transaction` included; so is a query together with its `include`s. Ids are never issued twice. Requests in flight run to
completion: no process crash and no failing read (Crash.dfy shows what a crash does). Hash comparison succeeds on equal
input only, a signed token is its claims plus the secret that signed it, the two signing secrets differ, and the signer adds
whole-second `iat` and `exp` claims (section 4.1.6 of RFC 7519). Two statements issued together by `Promise.all` are one
step. A unique or foreign key violation, which the code does not catch, ends the request with `KeyViolation`; updating or
deleting a missing row ends it with `RowMissing`.

Where the code and its documentation disagree, the model follows the code. README.md:118 of the repository announces a
`new_match` payload with match id, user id, name and avatar; the code sends only the other user's id
(src/matches/matches.service.ts:71-72). README.md:61 promises a feed without existing matches; the query never looks at
matches. `Discovery.PartnerOnFeedIff` says exactly when a match partner passes the filter, and `Drain.PartnerIsShown` gives a
run in which one is shown. README.md:64 promises a match for every mutual like; `Guarantees.MutualLikesMatch` proves it for
requests that run to completion, and `Crash.CrashStrandsLikes` and `Crash.CrashCanStrand` say what a crash costs. README.md:77
calls opening a chat idempotent; it is for calls one after another (`Promises.OpenAloneIsIdempotent`), but a call that loses the
create race fails: `Failures.OpenLosesIff` says exactly when, `Failures.OpenRaceLoses` gives the race, and
`Guarantees.OpenChatAgrees` covers the calls that succeed.

## Model

| member | source | states |
|---|---|---|
| Base.SortedForgetsOrder | src/matches/matches.service.ts:52 | sorting the two ids gives both users of a pair the same key, in strictly ascending order |
| Base.BeforeIsLexicographic | src/matches/matches.service.ts:52 | the order is the lexicographic one on character codes, as sort() without a comparator has it |
| Schema.CreateUserIsSound | src/auth/auth.service.ts:40-45 | registration keeps the store consistent and loses nothing |
| Schema.CreateUserAdds | src/auth/auth.service.ts:40-45 | registration adds the one account with its time and changes nothing else |
| Schema.CreateProfileIsSound | src/users/users.service.ts:40-47 | adding a profile keeps the store consistent and loses nothing |
| Schema.CreateProfileAdds | src/users/users.service.ts:40-47 | a profile is added exactly for an account without one, and nothing else changes |
| Schema.CreateSwipeIsSound | src/matches/matches.service.ts:41-43 | a committed swipe record keeps every table consistent and loses nothing |
| Schema.CreateMatchIsSound | src/matches/matches.service.ts:52-55 | a committed match between two mutual likers is sorted, unique, between living users, and the chats stay right |
| Schema.CreateChatIsSound | src/chat/chat.service.ts:44-52 | a committed chat seats exactly the match's two users and no match ever gets a second chat |
| Schema.AppendMessageIsSound | src/chat/chat.service.ts:133-146 | a stored message has a seated sender; nothing else moves |
| Schema.DeleteUserIsSound | prisma/schema.prisma:65-179 | the cascade of one account deletion leaves every reference valid, nulls the match id of its chats, keeps the other user's seat and messages, and removes nothing that does not hang on the account |
| Schema.DeleteUserRemoves | prisma/schema.prisma:65-179 | a deletion removes the account, its profile and exactly the swipes, matches, seats and messages that name it; chats stay with their activity, without the matches that went |
| Safety.PcStable | src/matches/matches.service.ts:34-59 | what a request learned from its reads stays true, or one of the accounts is gone, whatever statement anybody else runs |
| Safety.ExecIsSound | src/matches/matches.service.ts:29-86 | every statement of every request keeps the store consistent, keeps the rooms safe, and leaves its request, reply and events justified |
| Safety.MatchInsertSettles | src/matches/matches.service.ts:53-55 | a match write leaves the pair matched whether it wins or loses the create, and loses exactly when the pair was matched already |
| Safety.NewMatchIsNew | src/matches/matches.service.ts:53-57 | a successful match write is the first for its pair: nobody announces it and nothing was announced |
| Safety.StepKeepsInv | src/matches/matches.service.ts:29-62 | every label of the interleaving keeps the whole invariant, account deletion between any two steps included |
| Safety.ReachableIsSound | src/matches/matches.service.ts:29-62 | the invariant holds after every run from the empty store |
| Guarantees.MutualLikesMatch | src/matches/matches.service.ts:34-58 | no lost match: in every reachable state a mutual like without a match has a request between its record and its match write; with no request in flight, matched means exactly mutual like |
| Guarantees.MatchesAreSound | src/matches/matches.service.ts:46-55 | in every reachable state a match is sorted, mutual, between living users, and the only one of its unordered pair |
| Guarantees.ChatIntegrity | prisma/schema.prisma:135-179 | in every reachable state a chat with a match seats exactly its two distinct users, a chat without one at most one, and every message's sender sits in its chat |
| Guarantees.OpenChatAgrees | src/chat/chat.service.ts:24-60 | all successful openChat replies for one match, at any time and by either user, name one chat and, while the match lives, its two users |
| Guarantees.OneChatPerMatch | prisma/schema.prisma:137 | no run ever founds two chats for one match id |
| Failures.FailedRequests | src/matches/matches.service.ts:34-55 | over any run a request that answered with a failure wrote nothing in any of its steps, unless it is a swipe that lost its match write; such a swipe stored its own like, and its pair is matched or an account is gone |
| Failures.OpenLosesIff | src/chat/chat.service.ts:44-52 | a call that found no chat fails with a key violation if and only if a chat was founded since its lookup or the match is gone |
| Failures.OpenRaceLoses | src/chat/chat.service.ts:31-52 | the failing input: for any match without a chat, two calls of its users interleave so that one opens the chat and the other fails |
| Failures.RecordFailsIff | src/matches/matches.service.ts:41-43 | a record write fails exactly if the record is there already or an account is missing |
| Failures.MatchWriteFailsIff | src/matches/matches.service.ts:53-55 | in every reachable state a match write fails exactly if the two are matched already or an account is gone |
| Failures.SendFailsIff | src/chat/chat.service.ts:133-146 | in every reachable state a message write past its membership check fails exactly if the sender is gone |
| Guarantees.OneAnnouncementPerPair | src/matches/matches.service.ts:51-72 | over a whole run a pair is announced at most once and to both alike; a matched pair with no announcement pending was announced exactly once to each |
| Guarantees.RoomSafety | src/gateway/chat.gateway.ts:53-91 | in every reachable state a socket in a chat room belongs to a participant of the chat or to a deleted account |
| Guarantees.RoomEventsAreCommitted | src/gateway/chat.gateway.ts:110-132 | every new_message event went to its message's own room and describes a stored message, unless the sender was deleted since |
| Guarantees.RecipientIsThePartner | src/chat/chat.service.ts:153-176 | whoever is notified of a message is the match partner of the user it names as sender; without a match one of the two accounts is gone |
| Answers.NotificationsAreAboutMessages | src/chat/chat.service.ts:139-176 | over any run whoever a notification names as sender has a message stored in that chat or is gone, and the one told is another participant or is gone |
| Answers.AnswersFit | src/matches/matches.service.ts:29-62 | over any run every answer belongs to its request: a swipe is stored and answered with a match of its own pair, opening with the requested match's chat and the asker in it, sending with the id of the very message, room changes only to participants |
| Answers.SwipeAnswerNamesTheMatch | src/matches/matches.service.ts:53-61 | over any run a match id answered to a like names, while both accounts live, the match of exactly those two |
| Guarantees.RunIsLater | prisma/schema.prisma:76-173 | over any run users, profiles, swipes, matches, seats and messages vanish only together with an account they depend on |
| Guarantees.AccountsComeAndGo | src/users/users.service.ts:97-101 | among the steps of a run a registration adds its account, a profile is added for a living account, and a deletion removes exactly its account |
| Crash.CrashStrandsLikes | src/matches/matches.service.ts:37-58 | after a crash that forgets the requests in flight, a mutual like can still become a match in some continuation if and only if it was one at the crash |
| Crash.CrashCanStrand | src/matches/matches.service.ts:41-53 | for any two users there is a run after which a crash leaves their mutual like without a match in every continuation |
| Alone.SwipeIsItsSteps | src/matches/matches.service.ts:29-62 | the five steps of a swipe, run without interference, have exactly the effect, events and reply stated for the whole operation |
| Alone.OpenIsItsSteps | src/chat/chat.service.ts:24-60 | the same for openChat |
| Alone.HttpSendIsItsSteps | src/chat/chat.service.ts:130-151 | the same for sending over HTTP and by upload, background notification included |
| Alone.SocketSendIsItsSteps | src/gateway/chat.gateway.ts:93-136 | the same for sending over a socket, room event and chat-list event included |
| Alone.RoomChangeIsItsSteps | src/gateway/chat.gateway.ts:53-91 | the same for joining and leaving a room: the room changes exactly for participants |
| Promises.SwipeAlonePromise | src/matches/matches.service.ts:29-62 | undisturbed, a swipe is refused for exactly the reason there is; otherwise it stores its record, and exactly if both now like each other it creates one match of the two, answers with its id and tells each about the other; nothing else changes |
| Promises.AnsweredMatchOpens | src/matches/matches.service.ts:53-61 | the match id a swipe answers with opens, for both users, a chat of the two |
| Promises.OpenAlonePromise | src/chat/chat.service.ts:24-60 | undisturbed, openChat answers exactly the two users of an existing match, with the match's chat and exactly them, tells an unknown match from a foreign one, and notifies nobody |
| Promises.OpenAloneIsIdempotent | src/chat/chat.service.ts:31-42 | asking again, by either user, returns the same answer and changes nothing |
| Promises.OpenAloneLeaves | src/chat/chat.service.ts:31-52 | opening leaves every other chat, its participants and every other table alone, and the whole store if the chat exists |
| Promises.AppendAlonePromise | src/chat/chat.service.ts:130-151 | appending succeeds exactly for participants, answers with the id of the one message it adds, touches its chat and leaves every other chat and table alone; otherwise it answers Forbidden and changes nothing |
| Promises.SendAlonePromise | src/chat/chat.service.ts:153-176 | on every path each other participant is sent exactly one push about a message by the sender, and the sender none; over a socket also one chat-list event each and the message to its room; nothing else is sent, and nothing for a refused message |
| Promises.SentHeadsThePage | src/chat/chat.service.ts:117-128 | a message newer than all others of its chat heads the first page, and the chat keeps its readers |
| Views.MatchListMeaning | src/matches/matches.service.ts:88-109 | on every reachable store the match list names every match partner exactly once and nobody else, newest first, each card with the id and time of its match |
| Views.MatchByIdMeaning | src/matches/matches.service.ts:111-134 | a match is shown to its two users only, with its id and time, and shows each of them the other; an unknown id and a foreign match are told apart |
| Views.ChatListMeaning | src/chat/chat.service.ts:62-84 | with any steps between the two reads, the list is exactly the chats the user sat in at the first, each once, latest activity at the second first; the user still sits in them unless deleted meanwhile, and misses only chats founded meanwhile |
| Views.ChatCardMeaning | src/chat/chat.service.ts:86-98 | with any steps between the two reads, a card with a match id names the match partner and one without names nobody, unless the reader was deleted meanwhile; the last message is missing exactly for an empty chat, else it is a newest one |
| Services.MatchesService.Swipe | src/matches/matches.service.ts:29-62 | the method, statement by statement, has the effect of Alone.SwipeAlone, whose meaning Promises.SwipeAlonePromise states; an answered match id is a match of the two users |
| Services.MatchesService.NotifyMatch | src/matches/matches.service.ts:64-86 | each of the two users is sent one new_match event and one push naming the other |
| Services.ChatService.OpenChat | src/chat/chat.service.ts:24-60 | the method has the effect of Alone.OpenAlone, whose meaning Promises.OpenAlonePromise states |
| Services.ChatService.GetMessages | src/chat/chat.service.ts:101-128 | non-participants are refused; otherwise the answer is a page of the messages the cursor asks for, in the sense of Paging.PageMeaning, limit 20 by default |
| Services.ChatService.SendMessage | src/chat/chat.service.ts:130-151 | the method has the effect of Alone.SendAlone over HTTP, whose meaning Promises.SendAlonePromise states; TEXT by default |
| Services.ChatService.NotifyMessageRecipient | src/chat/chat.service.ts:153-176 | the other participant, if any, is sent one push naming the sender, and nobody else anything |
| Services.ChatGateway.HandleJoinChat | src/gateway/chat.gateway.ts:53-71 | the socket enters the room exactly if its user participates, and the rooms stay safe |
| Services.ChatGateway.HandleLeaveChat | src/gateway/chat.gateway.ts:73-91 | the socket leaves the room exactly if its user participates, and the rooms stay safe |
| Services.ChatGateway.HandleSendMessage | src/gateway/chat.gateway.ts:93-136 | the method has the effect of Alone.SendAlone over a socket: the same append, plus the room event |
| Services.ChatGateway.NotifyRecipient | src/gateway/chat.gateway.ts:138-174 | the other participant, if any, is sent one chat_updated event and one push naming the sender, and nobody else anything |
| Services.FilesService.ValidateFile | src/files/files.service.ts:94-104 | a file passes exactly if present, a jpeg, jpg, png or webp, and at most 5242880 bytes; only an oversized image is answered with PayloadTooLarge |
| Services.FilesService.UploadChatImage | src/files/files.service.ts:43-71 | a refused file changes nothing; any other upload is the same append with the URL as an IMAGE message |
| Services.UsersService.DeleteAccount | src/users/users.service.ts:97-101 | deletion succeeds exactly for an existing account, keeps the store consistent and loses nothing unrelated |
| Services.DiscoveryService.GetDiscoveryFeed | src/discovery/discovery.service.ts:8-39 | the method returns one of the possible feeds: candidates only, at most 20, and all of them if fewer |
| Paging.PageWalk | src/chat/chat.service.ts:101-128 | for any timestamps, any tie order on each call and appends in between, following the cursor ends within the page count of the messages stored in the chat, shows only those, none twice, newest first, and a finished walk omits exactly the messages sharing the last row's time with a non-final page and not on it |
| Paging.PageMeaning | src/chat/chat.service.ts:104-128 | a page shows each message asked for at most once, newest first, at most limit of them; it shows all, or is full, its last row is the cursor, and what it leaves out is no newer than that |
| Paging.PageWalkIsComplete | src/chat/chat.service.ts:101-128 | with distinct timestamps a finished walk has exactly the page count and shows exactly the messages stored in the chat, each once |
| Paging.PageCountIsCeiling | src/chat/chat.service.ts:123-125 | the page count p is the least p of at least 1 with n <= p * limit |
| Paging.CompleteIffClean | src/chat/chat.service.ts:112-125 | for any tie order and appends in between, a finished walk shows everything if and only if no group of equal timestamps crosses a page boundary, a condition on the stored messages alone |
| Paging.TieLosesAMessage | src/chat/chat.service.ts:112-114 | two messages of one millisecond and page size one: the second is never shown |
| Paging.LostCursorRestarts | src/chat/chat.service.ts:107-115 | a cursor whose message is gone gets exactly the answers of page one; a live one never appears on the page it asks for |
| Paging.AppendsAreUnseen | src/chat/chat.service.ts:117-121 | messages appended with later times cannot appear on a page after the first |
| Discovery.FeedMeaning | src/discovery/discovery.service.ts:9-33 | a feed shows other accounts with a profile and without a swipe record by the reader, each once, newest account first, at most 20, and leaves one out only when full of accounts at least as new |
| Discovery.FeedOmitsPartners | src/discovery/discovery.service.ts:8-33 | on any run the feed shows nobody the reader was matched with when the exclusion list was read; a partner can appear only if swiped on between the two reads |
| Discovery.PartnerOnFeedIff | src/discovery/discovery.service.ts:9-18 | a match partner with a profile passes the feed's filter if and only if the reader had no swipe record for them when the exclusion list was read |
| Drain.PartnerIsShown | src/discovery/discovery.service.ts:9-33 | for any two users there is a run, with a swipe between the two reads, whose feed shows the match partner |
| Drain.SwipesCommit | src/matches/matches.service.ts:34-43 | one swipe request per card, any actions, interleaved with anything but joining, leaving or gaining a profile: once answered, every swipe is stored with its action, and nothing else is recorded for the reader |
| Drain.RoundExists | src/matches/matches.service.ts:29-62 | for any feed and any actions there is a run in which all those requests are answered |
| Drain.FeedDrains | src/discovery/discovery.service.ts:8-39 | if the reader sends one swipe request per card of each feed while nobody joins, leaves or gains a profile, r rounds show min(n, 20 r) of the n eligible users, none twice, and the k-th feed is empty exactly when 20 k >= n |
| Codes.BoundedGuessing | src/auth/auth.service.ts:155-166 | with at most k verify or reset calls between read and write at once, the counter stays within 4 + k, one issued code meets at most 4 + k wrong guesses across re-issues, and is accepted at most k times; k = 1 gives five and one |
| Codes.GuessingBoundIsTight | src/auth/auth.service.ts:247-258 | for every k some run with k overlapping calls makes exactly 4 + k wrong guesses against one code |
| Codes.CodesAuthorise | src/auth/auth.service.ts:135-179 | in any interleaving a verified account has a call behind it that presented a code issued at most 900000 ms earlier having seen fewer than five attempts; every password write was such a reset or a change that presented the first password or one written before; the stored password is the last one written |
| Codes.PresentAloneOutcome | src/auth/auth.service.ts:147-176 | what one undisturbed code call leaves in the row, case by case |
| Codes.LateWrites | src/auth/auth.service.ts:155-176 | a write lands on what the row holds by then: a wrong guess counts against the current code, a right one clears even a newer code, a new code replaces code and count |
| Auth.AuthService.Register | src/auth/auth.service.ts:30-67 | the method has the effect of Auth.RegisterAlone, whose meaning Accounts.RegistersUnverified states, and keeps addresses unique |
| Accounts.RegistersUnverified | src/auth/auth.service.ts:30-67 | a taken address is refused; otherwise an unverified account with that address and password, a code for fifteen minutes and an open session is added |
| Accounts.RegisterVerifyLogin | src/auth/auth.service.ts:30-95 | a new account is refused at login until it has presented its code in time, and then logs in |
| Accounts.NothingElseChanges | src/auth/auth.service.ts:30-307 | an address, a password, the verified flag, a session or a code changes only by the operation meant for it, with the credentials it demands; no other account is touched |
| Auth.AuthService.Login | src/auth/auth.service.ts:69-95 | tokens are answered if and only if some verified account has that address and password; the answered token is then stored for it and no other row changes; right credentials of an unverified account are answered with Forbidden |
| Accounts.LoginAnswers | src/auth/auth.service.ts:69-95 | a login answers an access token of fifteen minutes and a refresh token of thirty days in the account's name, or the reason of its refusal |
| Sessions.LoginOpensSession | src/auth/auth.service.ts:69-95 | the token answered by a login refreshes exactly until its thirty days are over |
| Auth.AuthService.RefreshTokens | src/auth/auth.service.ts:97-126 | the method has the effect of Auth.RefreshAlone, whose meaning Accounts.RefreshAnswers states, and keeps addresses unique |
| Accounts.RefreshAnswers | src/auth/auth.service.ts:97-126 | the stored refresh token, unexpired, is exchanged for a new access and a new refresh token, the latter then stored; any other is refused |
| Auth.AuthService.Logout | src/auth/auth.service.ts:128-133 | the method has the effect of Auth.LogoutAlone, whose meaning Accounts.LogoutEnds states, and keeps addresses unique |
| Accounts.LogoutEnds | src/auth/auth.service.ts:128-133 | after a logout no token of the account refreshes |
| Auth.AuthService.VerifyEmail | src/auth/auth.service.ts:135-179 | the method has the effect of Auth.VerifyAlone, whose meaning Accounts.VerifyAnswers states, and keeps addresses unique |
| Accounts.VerifyAnswers | src/auth/auth.service.ts:135-179 | the stored code, in time and with fewer than five wrong guesses counted, verifies an unverified account; a wrong one is then counted; anything else changes nothing |
| Accounts.MistypingVerifies | src/auth/auth.service.ts:151-176 | after any wrong guesses the right code in time verifies exactly if fewer than five of them came in time |
| Accounts.OnlyItsCodeVerifies | src/auth/auth.service.ts:135-179 | over any sequential run an account is verified only if its code was presented in time, before the fifth wrong guess |
| Sessions.ResendThenVerify | src/auth/auth.service.ts:181-204 | after a resend for an unverified account a call verifies it exactly if it presents the new code within fifteen minutes |
| Sessions.ResendIsItsSteps | src/auth/auth.service.ts:181-204 | resendVerification is the begin and the write of one issue at the code desk, or nothing once verified |
| Sessions.ForgotThenReset | src/auth/auth.service.ts:206-229 | after forgotPassword a reset succeeds exactly with the new code within fifteen minutes, so no earlier code does |
| Sessions.ForgotIsItsSteps | src/auth/auth.service.ts:206-229 | forgotPassword is the begin and the write of one issue at the reset desk |
| Auth.AuthService.ResetPassword | src/auth/auth.service.ts:231-274 | the method has the effect of Auth.ResetAlone, whose meaning Accounts.ResetAnswers states, and keeps addresses unique |
| Accounts.ResetAnswers | src/auth/auth.service.ts:231-274 | the same for a reset code, which sets the new password, is spent and ends the session |
| Accounts.MistypingResets | src/auth/auth.service.ts:243-271 | after any wrong guesses the right reset code in time succeeds exactly if fewer than five of them came in time |
| Accounts.ChangePasswordAnswers | src/users/users.service.ts:78-95 | a password change succeeds exactly with the current password |
| Sessions.ChangeThenLogin | src/users/users.service.ts:78-95 | after a password change exactly the new password logs the account in, if verified, and every other account logs in as before |
| Sessions.ChangePasswordIsItsSteps | src/users/users.service.ts:78-95 | changePassword is the comparison and the write of one password change at the desk, recorded exactly if it succeeds |
| Auth.AuthService.UpdateUserEmail | src/users/users.service.ts:59-77 | the method has the effect of Auth.ChangeEmailAlone, whose meaning Accounts.ChangeEmailThenLogin states, and keeps addresses unique |
| Accounts.ChangeEmailThenLogin | src/users/users.service.ts:59-77 | an address of another account is refused; otherwise the account logs in with the new address and no longer with the old one |
| Sessions.RefreshNeedsLastToken | src/auth/auth.service.ts:97-126 | over any sequential run a refresh succeeds exactly if the token verifies and is the last one its user was given, with no logout, reset or deletion since |
| Sessions.RotationReplaces | src/auth/auth.service.ts:119-125 | after a rotation the presented token is accepted again exactly if old and new were minted in the same second for the same address |
| Sessions.RotationRetires | src/auth/auth.service.ts:280-307 | after a rotation in a later second every token of an earlier second is refused for good, whatever follows |
| Sessions.SessionsSurvive | src/users/users.service.ts:78-95 | changing the password or the address, verifying, and asking for codes leave every session as it was |
| Sessions.ResetEndsSession | src/auth/auth.service.ts:262-271 | after a reset no token of that user refreshes, the new password is stored, and no second reset succeeds on the spent code |
| Sessions.RegisterIsItsSteps | src/auth/auth.service.ts:40-57 | registration starts both code desks of the account and issues the first verification code |
| Sessions.VerifyIsItsSteps | src/auth/auth.service.ts:135-179 | verifyEmail is its read and its write of the code desk |
| Sessions.ResetIsItsSteps | src/auth/auth.service.ts:231-274 | resetPassword is its read and its write of the code desk, password included |
| Friendships.RowsUnderInterleaving | prisma/schema.prisma:127 | under any interleaving there are no self-rows and at most two rows per pair, one per direction, and a second row only if its request looked before the first row existed |
| Friendships.StatusSteps | src/friendships/friendships.service.ts:66-114 | under any interleaving nothing returns to PENDING, and BLOCKED becomes ACCEPTED only by an accept that had read PENDING before the block was written |
| Friendships.BlockCanBeOverwritten | src/friendships/friendships.service.ts:74-81 | from any PENDING row there is an interleaving in which both the block and the late accept report success and the row ends ACCEPTED |
| Friendships.BothLookupsCanPass | src/friendships/friendships.service.ts:32-42 | two opposite requests that look before either writes both find nothing |
| Friendships.BothDirectionsCanArise | src/friendships/friendships.service.ts:44-46 | and then both inserts succeed, leaving two rows for the pair |
| Friendships.PerformIsTwoSteps | src/friendships/friendships.service.ts:27-126 | each undisturbed operation is its lookup and its write |
| Friendships.PerformOrder | src/friendships/friendships.service.ts:66-126 | one after another a status only moves from PENDING over ACCEPTED to BLOCKED, only the receiver accepts, only the two users block or remove |
| Friendships.RequestAnswers | src/friendships/friendships.service.ts:27-51 | a request succeeds exactly between two living, distinct users without a row in either direction, and adds a PENDING row from asker to asked; otherwise it names the reason and changes nothing |
| Friendships.AcceptAnswers | src/friendships/friendships.service.ts:66-86 | exactly the receiver can accept, exactly a PENDING row, and only its status changes |
| Friendships.BlockAnswers | src/friendships/friendships.service.ts:101-114 | exactly the two users can block, whatever the status, and only the status changes |
| Friendships.RemoveAnswers | src/friendships/friendships.service.ts:116-126 | exactly the two users can remove, whatever the status; the row is gone and every other row stays |
| Friendships.RemovedCanAskAgain | src/friendships/friendships.service.ts:27-51 | once their row is removed either of two users can ask the other again |
| Friendships.DeletionRemovesRows | prisma/schema.prisma:124-125 | deleting an account removes exactly the friendship rows it takes part in |
| Friendships.LabelsAct | prisma/schema.prisma:124-125 | among interleaved requests a deletion removes exactly its rows and leaves the requests in flight |
| Friendships.LateWriteAnswers | src/friendships/friendships.service.ts:44-125 | a write after its lookup fails exactly if its direction is taken or an account missing, or its row gone by then, and a failure changes nothing |
| Friendships.PlayKeepsOneRow | src/friendships/friendships.service.ts:27-51 | over any sequential run each unordered pair has at most one row, nobody a row with themselves, and every row is between living accounts |
| Friendships.RowHistory | src/friendships/friendships.service.ts:66-126 | over any sequential run a row keeps its two users and its status only moves from PENDING over ACCEPTED to BLOCKED until it is removed, after which it never returns |
| Friendships.FriendListMeaning | src/friendships/friendships.service.ts:128-150 | after any sequential run the list, filtered or not, names exactly the users with such a row to the reader, each once, never the reader, newest row first |
| FriendshipsServices.FriendshipsService.Request | src/friendships/friendships.service.ts:27-51 | the method has the effect of Friendships.Perform, whose meaning Friendships.RequestAnswers states, and keeps one row per pair |
| FriendshipsServices.FriendshipsService.Accept | src/friendships/friendships.service.ts:66-86 | the same, with the meaning of Friendships.AcceptAnswers |
| FriendshipsServices.FriendshipsService.Block | src/friendships/friendships.service.ts:101-114 | the same, with the meaning of Friendships.BlockAnswers |
| FriendshipsServices.FriendshipsService.Remove | src/friendships/friendships.service.ts:116-126 | the same, with the meaning of Friendships.RemoveAnswers |

## Left out

- Process crashes and failing reads or sends in the middle of a request, except for the effect of a crash on likes.
- Interleaved runs of session operations: the exact session claims are for one operation after another, and are false otherwise.
- NestJS wiring: modules, controllers, guards, decorators, exception filter, throttling, logging, health.
- Mail, Firebase, Cloudinary, Redis and Socket.io transport: foreign calls; an outgoing event or push is only recorded.
- Device tokens and whether a push finds one: a two-statement transaction and an existence test.
- Hash costs, input truncation, signature arithmetic, and the range of generated code digits.
- `handleConnection`, personal rooms, and typing indicators: a socket enters the model once its token was accepted, with the user id it then keeps.
- The stored rows that answers repeat besides their ids: a swipe is answered with its match id, a message with its own id.
- Display names and message previews inside notifications; friendship notifications.
- Profile editing, avatar upload, `getMyProfile`, `getPublicProfile`, and DTO validation, except the page limit of 1 to 100 and the checks on an uploaded file.
- `findPending`: the list for one status and one direction, which adds nothing to `findAll`.
- Friendship rows and account rows are modelled beside the chat store rather than in it: the tables share only the user they refer to.
- Codes.BoundedGuessing: speaks of one account's row; calls for other accounts touch other rows.
- Drain.SwipesCommit: speaks of requests that have been answered; that a request waiting its turn is eventually served is left to the runtime.
- Paging.PageWalk: does not cover deletions in the chat during the walk, where a lost cursor restarts at page one.
- Auth.AuthService.UpdateUserEmail: covers the address only, since the row has no other field that `updateUser` could change.
