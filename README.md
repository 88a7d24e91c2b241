# itunymous matchmaking and chat, modelled in Dafny

itunymous pairs registered users for an anonymous chat by the hobbies they
share. Its core has three parts:

- The FastAPI backend (`itunymous/backend/main.py`) keeps the users file, a
  waiting pool, the active chats, the per-room message logs and the e-mail
  verification codes. A chat request either matches the requester with the
  waiting user who shares strictly the most hobbies (the earliest such user)
  or puts the requester in the pool. The backend also ends, cancels and leaves
  chats, answers two probes (`check-active`, `get-room`) and stores and
  filters messages.
- The matchmaking screen (`ChatMatchmaking.tsx`) is a state machine. It
  starts a search, re-checks on timers, probes for an active chat
  periodically, takes `match_found` pushes, cancels, and continues an existing
  chat. A match is persisted in the browser's `itunymous_lastRoomId` slot.
- The chat screen (`ChatApp.tsx`) keeps its timeline newest first. It loads a
  room's history, polls for messages newer than a high-water timestamp,
  turns push events into system notices, and clears the persisted room
  pointer when the chat ends.

Files:

- `wrappers.dfy`: `Option` and `Result`.
- `protocol.dfy`: the stored message and every refusal, with its status code
  and `detail` text.
- `session.dfy`: the persisted pointer slot.
- `backend.dfy`: the stores as class `Server`. The read-only endpoints are
  functions of the map they read.
- `matchmaking.dfy`: class `MatchmakingView`.
- `chatview.dfy`: the timeline functions and class `ChatView`.
- `reconcile.dfy`: lemmas that join the backend's answers to the two screens.

Non-deterministic and external inputs are parameters:

- the clock (`now`);
- the random six-digit code and the generated room name;
- whether the e-mail went out;
- what each `fetch` returned;
- whether the socket is connected;
- for a stale React closure, the state value it captured.

Timer firings are explicit events. Timestamps are `real`.

Behaviours of the code a reader might not expect:

- The server log is stored oldest first. The chat screen reverses every
  batch, so its list is newest first.
- Polled batches are not de-duplicated. A batch is correct only because the
  server filters by `timestamp > since` (`PollCatchesUp`).
- Cancelling a search does not clear the armed timers. Their guards make
  them do nothing.
- A `match_found` push is taken whenever it names this user, whatever the
  screen's state.
- Each `connect` event registers the chat screen's push handlers once more,
  and only a change of `joined`, `room` or `username` brings them back to
  one. After a reconnection every push notice the screen receives shows
  twice (`ReconnectDoublesNoticesScenario`). Against this backend no such
  push arrives: the screen emits `join-room` but the server handles
  `join_room`, so the screen's socket never enters the chat's room.
- Both places that mount the chat screen pass a room
  (`app/src/app/page.tsx:178`, `ChatMatchmaking.tsx:224`). So in this app the
  join form (`HandleJoin`, `EnterName`, `EnterRoom`) and the auto-join
  (`AutoJoin`) never run; they are modelled as the component is written.
- Two messages sent within one tick of the server clock share a timestamp.
  A screen whose mark is that timestamp never receives the second one
  (`SameStampIsNeverPolled`).
- On the two modelled screens the room pointer is written only when a match
  resolves, never when a room is joined by hand. The start page, which also
  writes it, is not part of this model.
- A chat screen mounted with a room starts as joined, so its auto-join
  (`proceedWithJoin`) never runs. Its first poll, with `since=0`, brings the
  whole history (`FirstPollBringsWholeLog`).
- The backend refuses any chat request from a user who is already waiting.
  A re-check therefore always goes on to the probes (`ReRequestGoesToProbe`).

## Model

| member | source | states |
|---|---|---|
| Backend.CommonHobbies | itunymous/backend/main.py:287-290 | the number of distinct hobbies the two users share, never more than either user's distinct hobbies |
| Backend.CommonHobbiesFacts | itunymous/backend/main.py:287-290 | the overlap of two users does not depend on their order, never exceeds either user's distinct hobbies, and is 0 exactly when they share no hobby |
| Backend.Without | itunymous/backend/main.py:304 | removing a waiting user keeps exactly the other entries, leaves no entry for that id, and keeps ids distinct |
| Backend.WithoutConcat | itunymous/backend/main.py:304 | removing a user from a concatenated pool is removing it from each part, so the remaining entries keep their pool order |
| Backend.WithoutSingle | itunymous/backend/main.py:304 | a one-entry pool loses its entry exactly when it is the removed user's |
| Backend.BestMatch | itunymous/backend/main.py:281-295 | there is a choice exactly when the largest overlap is above 0; the chosen entry is in the pool, is not the requester, and shares exactly the reported number of hobbies |
| Backend.BestMatchIsMaximum | itunymous/backend/main.py:285-293 | no entry other than the requester shares more hobbies than the choice |
| Backend.BestMatchIsEarliest | itunymous/backend/main.py:291-293 | every entry before the choice, other than the requester, shares fewer hobbies: ties go to the earliest entry |
| Backend.FindBestMatch | itunymous/backend/main.py:282-293 | the matching loop over the pool in insertion order ends with the choice `BestMatch` specifies |
| Backend.Refusal | itunymous/backend/main.py:264-279 | the request is refused for a missing id, an unknown user, a busy user, or a user who is already waiting, checked in that order; each refusal holds exactly when its condition and none before it holds |
| Backend.WaitingUserIsRefused | itunymous/backend/main.py:278-279 | in a consistent pool, a waiting user's request is refused as "already waiting" |
| Backend.MatchKeepsStoresConsistent | itunymous/backend/main.py:299-306 | marking both users busy in the new room and removing the partner from the pool keeps every record's status consistent with its chat, and keeps the pool to distinct, available, registered users |
| Backend.EnqueueKeepsPoolConsistent | itunymous/backend/main.py:335-337 | adding an available user who is not waiting keeps the pool consistent |
| Backend.ReleasingKeepsStoresConsistent | itunymous/backend/main.py:353-364 | making some users available, and changing no one else, keeps every record's status consistent with its chat and keeps the pool consistent |
| Backend.DecimalString | itunymous/backend/main.py:189 | the decimal text of the code is never empty |
| Backend.CodeVerdict | itunymous/backend/main.py:210-228 | a code is accepted exactly when both fields are given, a code was issued for the e-mail, it has not expired and it matches; "not found" and "expired" hold exactly in their cases |
| Backend.IssuedCodeVerifiesWithinWindow | itunymous/backend/main.py:189-192 | an issued code verifies exactly up to 300 seconds after issue |
| Backend.Login | itunymous/backend/main.py:248-260 | login succeeds exactly for a registered e-mail with its password, and returns that user's id and hobbies; every failure is the 401 refusal |
| Backend.CheckActiveChat | itunymous/backend/main.py:386-398 | refused exactly for an empty id; active exactly for a known user who is busy and names a chat |
| Backend.GetUserRoom | itunymous/backend/main.py:400-412 | refused exactly for an empty id; otherwise the user's current chat, or none for an unknown user |
| Backend.ProbesAgree | itunymous/backend/main.py:386-412 | on consistent records, `check-active` says active exactly when `get-room` returns a room |
| Backend.Since | itunymous/backend/main.py:420 | the filter keeps exactly the stored messages newer than `since` and no more messages than were stored |
| Backend.SinceConcat | itunymous/backend/main.py:420 | filtering a concatenated log is concatenating the filtered parts, so stored order is kept |
| Backend.SinceKeepsNewer | itunymous/backend/main.py:420 | a log whose messages are all newer than `since` passes whole |
| Backend.SinceDropsOlder | itunymous/backend/main.py:420 | a log with no message newer than `since` gives nothing |
| Backend.GetRoomMessages | itunymous/backend/main.py:414-423 | an unknown room gives nothing; `since <= 0` gives the whole log; otherwise exactly the logged messages newer than `since`, in stored order (`Since`) |
| Backend.SendThenFetch | itunymous/backend/main.py:425-440 | after a send, a fetch whose `since` the message is newer than returns the earlier answer plus the message at the end; other rooms are unaffected |
| Backend.RegisteredUserLogsIn | itunymous/backend/main.py:237-243 | a newly registered user logs in with the registered password and gets back their own id and hobbies |
| Backend.Server.constructor | itunymous/backend/main.py:76-83 | at start-up the users and messages are as loaded, the other stores are empty, and the stores are consistent |
| Backend.Server.SendVerification | itunymous/backend/main.py:183-200 | an empty e-mail is refused; otherwise the code is stored for 300 seconds, even when the mail fails, and the failed mail is a 500 refusal; nothing else changes |
| Backend.Server.VerifyCode | itunymous/backend/main.py:208-228 | the answer is `CodeVerdict`; only an expired entry is deleted; nothing else changes |
| Backend.Server.RegisterUser | itunymous/backend/main.py:230-246 | a taken e-mail is refused without change; otherwise the user is added as available with no chat |
| Backend.Server.RequestChat | itunymous/backend/main.py:262-341 | the generated room name is never empty; a refusal changes nothing; with no overlapping partner the requester joins the end of the pool; otherwise both users become busy in the new room, the partner leaves the pool and the room records the pair; the stores stay consistent |
| Backend.Server.MatchWith | itunymous/backend/main.py:299-306 | both users become busy in the new room, the partner leaves the pool, the room records the pair, and the stores stay consistent |
| Backend.Server.Enqueue | itunymous/backend/main.py:335-337 | the requester's record joins the end of the pool and the stores stay consistent |
| Backend.Server.EndChat | itunymous/backend/main.py:343-371 | missing fields are refused; otherwise the room is closed and the caller and every participant of the room become available, and no one else changes |
| Backend.Server.ReleaseOthers | itunymous/backend/main.py:361-364 | every registered participant other than the caller becomes available, and no other record or store changes |
| Backend.Server.CancelChatRequest | itunymous/backend/main.py:373-384 | an empty id and a user who is not waiting are refused without change; a waiting user is removed from the pool |
| Backend.Server.SendMessage | itunymous/backend/main.py:425-443 | one message stamped `now` is appended to the room's log, creating it if needed |
| Backend.Server.LeaveRoom | itunymous/backend/main.py:470-482 | the user becomes available only when the room left is their current chat; the room stays active |
| Matchmaking.RejectionNoticeAsWritten | itunymous/app/src/Components/ChatMatchmaking.tsx:140-143 | reading `message`, the "chat already exists" notice shows exactly for the "already in a chat" text; otherwise the body's `message`, or the generic error when there is none |
| Matchmaking.CheckMatchProceeds | itunymous/app/src/Components/ChatMatchmaking.tsx:155 | the re-check stops for values that are not searching or already matched; when it goes on, the periodic probe's guard passes too for any signed-in user |
| Matchmaking.FallbackProceeds | itunymous/app/src/Components/ChatMatchmaking.tsx:59 | the periodic probe stops for values that are not searching, already matched, or have no user |
| Matchmaking.AsWrittenHidesEveryRefusal | itunymous/app/src/Components/ChatMatchmaking.tsx:139-145 | reading `message` from a refusal body, every backend refusal shows the generic error, "already in a chat" included |
| Matchmaking.RejectionNotice | itunymous/app/src/Components/ChatMatchmaking.tsx:139-145 | reading `detail`, the "chat already exists" notice shows exactly for the "already in a chat" text; otherwise the server's text, or the generic error when there is none |
| Matchmaking.RejectionNoticeNamesRefusal | itunymous/app/src/Components/ChatMatchmaking.tsx:139-145 | reading `detail`, the "chat already exists" notice shows exactly for the busy refusal, and every other refusal shows its own text |
| Matchmaking.MatchmakingView.constructor | itunymous/app/src/Components/ChatMatchmaking.tsx:6-11 | a new screen is idle, unmatched, with no room, no probe findings, a blank notice and no armed timer |
| Matchmaking.MatchmakingView.Resolve | itunymous/app/src/Components/ChatMatchmaking.tsx:41-45 | resolving a match sets the room, marks matched, stops searching and persists the room |
| Matchmaking.MatchmakingView.OnMatchFound | itunymous/app/src/Components/ChatMatchmaking.tsx:37-47 | a push for another user changes nothing; one for this user resolves to its room with the hobby count |
| Matchmaking.MatchmakingView.StartMatching | itunymous/app/src/Components/ChatMatchmaking.tsx:113-115 | the start button, shown only while not searching (line 257), begins searching and shows the matching notice |
| Matchmaking.MatchmakingView.OnRequestResponse | itunymous/app/src/Components/ChatMatchmaking.tsx:117-151 | a match resolves; "waiting" arms one re-check; a refusal or a network error stops searching with the refusal's notice or the connection notice; the pointer changes only on a match. The refusal's notice is `RejectionNotice`, the corrected reading of `detail`; the code reads `message`, which `RejectionNoticeAsWritten` models |
| Matchmaking.MatchmakingView.RunCheckMatch | itunymous/app/src/Components/ChatMatchmaking.tsx:154-199 | one re-check uses up its timer; past the guard, a match or a probe that finds a non-empty room resolves, and any other outcome re-arms exactly one timer and changes nothing else |
| Matchmaking.MatchmakingView.CheckMatch | itunymous/app/src/Components/ChatMatchmaking.tsx:154-199 | the re-check whose guard reads the current state: it proceeds exactly while searching and unmatched |
| Matchmaking.MatchmakingView.CheckMatchAsWritten | itunymous/app/src/Components/ChatMatchmaking.tsx:155 | the re-check whose guard reads the state captured when the start button was clicked |
| Matchmaking.MatchmakingView.RunFallback | itunymous/app/src/Components/ChatMatchmaking.tsx:58-82 | a periodic probe resolves only when its guard passes and the probe finds a non-empty room; otherwise nothing changes |
| Matchmaking.MatchmakingView.FallbackProbe | itunymous/app/src/Components/ChatMatchmaking.tsx:58-82 | the periodic probe whose guard reads the current state |
| Matchmaking.MatchmakingView.FallbackProbeAsWritten | itunymous/app/src/Components/ChatMatchmaking.tsx:58-90 | the periodic probe whose guard reads the state captured when its effect last ran |
| Matchmaking.MatchmakingView.CancelMatching | itunymous/app/src/Components/ChatMatchmaking.tsx:202-214 | searching stops and the cancelled notice shows, whatever the cancel call answers; armed timers stay armed |
| Matchmaking.MatchmakingView.ContinueChat | itunymous/app/src/Components/ChatMatchmaking.tsx:216-221 | with a non-empty probed room the screen takes that room and becomes matched, without touching the pointer; without one nothing changes |
| Matchmaking.MatchmakingView.CheckActiveChat | itunymous/app/src/Components/ChatMatchmaking.tsx:92-111 | the screen records an active chat exactly when the probe said active, with get-room's room; a failed or inactive probe leaves no room |
| Matchmaking.StaleCheckMatchScenario | itunymous/app/src/Components/ChatMatchmaking.tsx:154-155 | a user left waiting whose probe finds a room is matched by a re-check that reads the current state, and never by the re-check as written |
| Matchmaking.StaleFallbackScenario | itunymous/app/src/Components/ChatMatchmaking.tsx:57-90 | a searching user whose probe finds a room is matched by a periodic probe that reads the current state, and never by the probe as written |
| ChatView.Reverse | app/src/Components/ChatApp.tsx:107 | `.reverse()` keeps the length and puts element `i` at position `n-1-i` |
| ChatView.ReverseConcat | app/src/Components/ChatApp.tsx:107-108 | reversing a concatenation is concatenating the reversed parts in swapped order |
| ChatView.ToEntriesConcat | app/src/Components/ChatApp.tsx:107 | the entry mapping distributes over concatenation |
| ChatView.HistoryTimeline | app/src/Components/ChatApp.tsx:154-161 | a loaded history shows one entry per message, entry `i` being the `i`-th newest message's sender and text |
| ChatView.PolledTimeline | app/src/Components/ChatApp.tsx:107-108 | after a poll the list starts with the batch newest first, followed by what was shown before |
| ChatView.PolledHistory | app/src/Components/ChatApp.tsx:107-108 | polling a batch onto the history of an earlier log gives the history of the longer log |
| ChatView.HighWater | app/src/Components/ChatApp.tsx:106-109 | an empty batch keeps the mark; otherwise the mark becomes a timestamp of the batch, no older than any of its messages when the batch is in send order, and not below the old mark when every message is newer than it |
| ChatView.EffectEmits | app/src/Components/ChatApp.tsx:87-90 | one run of the listener effect emits `join_user_room` for the user exactly when connected and there is a user, and nothing else |
| ChatView.Notices | app/src/Components/ChatApp.tsx:34-64 | one push puts exactly one system notice per registered handler in front of the list |
| ChatView.PollTwiceIsPollOfBoth | app/src/Components/ChatApp.tsx:106-109 | two polls in a row leave the list and the high-water mark as one poll of both batches would |
| ChatView.ChatView.constructor | app/src/Components/ChatApp.tsx:19-25 | a screen mounted with a room starts joined to it, so its auto-join never fires; the list is empty, the mark is 0, the push handlers are registered once (line 83), and the user's own room is joined when connected (lines 87-90) |
| ChatView.ChatView.OnUserJoined | app/src/Components/ChatApp.tsx:35-38 | one system notice per registered handler goes in front of the list; nothing else changes |
| ChatView.ChatView.OnUserLeft | app/src/Components/ChatApp.tsx:39-43 | one system notice per registered handler goes in front of the list and the room pointer is removed |
| ChatView.ChatView.OnChatEnded | app/src/Components/ChatApp.tsx:52-56 | one system notice per registered handler goes in front of the list and the room pointer is removed |
| ChatView.ChatView.OnConnect | app/src/Components/ChatApp.tsx:68-80 | a reconnection registers the push handlers once more, re-joins the room when joined to one, then the user's own room when there is a user |
| ChatView.ChatView.PollMessages | app/src/Components/ChatApp.tsx:100-118 | while joined to a room, a fetched batch goes in front of the list newest first and the mark moves to the batch's last timestamp; otherwise nothing changes; the push handler registrations are kept |
| ChatView.ChatView.LoadHistory | app/src/Components/ChatApp.tsx:148-171 | a non-empty history becomes the list with the newest timestamp as mark; an empty one clears the list and sets the mark to now; a failure clears the list and keeps the mark; the push handler registrations are kept |
| ChatView.ChatView.AutoJoin | app/src/Components/ChatApp.tsx:120-183 | when armed, the auto-join loads the given room's history as `LoadHistory` does, then emits the join and becomes joined; the listener effect then re-runs, leaving the push handlers registered once and, when connected, joining the user's own room again (lines 87-98); otherwise nothing changes |
| ChatView.ChatView.HandleJoin | app/src/Components/ChatApp.tsx:190-223 | offered only while not joined (line 288): with a name and a room, the join loads that room's history, emits the join and becomes joined; the listener effect then re-runs, leaving the push handlers registered once and, when connected, joining the user's own room again (lines 87-98); otherwise nothing changes |
| ChatView.ChatView.EnterName | app/src/Components/ChatApp.tsx:290-297 | the name field sets the name; a changed name re-runs the listener effect, which leaves the handlers registered once and, with no user, emits nothing |
| ChatView.ChatView.EnterRoom | app/src/Components/ChatApp.tsx:298-305 | the room field sets the room; a changed room re-runs the listener effect, which leaves the handlers registered once and, when connected, joins the user's own room again |
| ChatView.ChatView.HandleLeaveRoom | app/src/Components/ChatApp.tsx:234-243 | the leave is emitted only when connected, and the room pointer and the push handler registrations are kept |
| ChatView.ChatView.HandleEndChat | app/src/Components/ChatApp.tsx:254-258 | the room pointer is removed before the end call, whatever the call answers |
| ChatView.ReconnectDoublesNoticesScenario | app/src/Components/ChatApp.tsx:68-98 | after one reconnection of a screen mounted with a room, followed by a poll and a leave, the partner's join notice shows twice; the leave step is reachable only because navigation is left out, since the leave button also calls `onLeaveChat` (lines 245-251), which unmounts the screen |
| Reconcile.PollCatchesUp | app/src/Components/ChatApp.tsx:100-118 | a screen showing the first `k` messages of a log stamped in send order, with the `k`-th's timestamp as mark, gets exactly the rest from the backend; it then shows the whole log newest first, each message once, and its mark is the newest |
| Reconcile.NewerThanMarkIsSuffix | itunymous/backend/main.py:420 | when the first `k` messages are no newer than `since` and the rest are newer, the filter returns exactly the rest |
| Reconcile.TimelineCatchesUp | app/src/Components/ChatApp.tsx:106-109 | polling the rest of a log onto the history of its first `k` messages gives the history of the whole log, with the newest timestamp as mark |
| Reconcile.FirstPollBringsWholeLog | app/src/Components/ChatApp.tsx:103 | a poll with mark 0 onto an empty list shows what a history load would show, and moves the mark to the newest timestamp |
| Reconcile.SameStampIsNeverPolled | itunymous/backend/main.py:414-437 | when two messages share a stamp, a fetch with that stamp as `since` returns neither, although the second is stored |
| Reconcile.HighWaterNeverRegresses | app/src/Components/ChatApp.tsx:109 | fed the backend's answer to its own `since`, the poll never moves its mark backwards |
| Reconcile.ReRequestGoesToProbe | itunymous/app/src/Components/ChatMatchmaking.tsx:158-176 | a waiting user's re-check is refused as "already waiting", so it never takes the matched branch and always goes on to the probes |
| Reconcile.ResponseOf | itunymous/app/src/Components/ChatMatchmaking.tsx:124-146 | the screen sees "matched" with the room and count exactly for a match, "waiting" exactly for an enqueue, and a refusal exactly for a backend refusal, whose body carries the refusal's `detail` and no `message`; never a network error |
| Reconcile.ProbeOf | itunymous/app/src/Components/ChatMatchmaking.tsx:176-184 | the probe never fails against the backend; it is active exactly for a known, busy user with a chat, and then carries that user's chat |
| Reconcile.MatchedUsersProbeTheirRoom | itunymous/backend/main.py:299-302 | after a match, the probes of both users report the new room, which the screen acts on when the name is not empty |

## Left out

- Sending e-mail (SMTP) is left out. Whether the mail went out is an argument of `SendVerification`.
- Backend.Server.SendVerification: the generic 500 raised for an unexpected exception is not modelled. With the sender as a parameter, no modelled step raises one.
- Reading and writing the users and messages files is left out. The users file is a map in the store. The read-only endpoints take the map they would load.
- The Socket.IO transport, rooms and emissions of the backend are left out. The chat screen's emissions are recorded in `sent`.
- The chat screen emits `join-room`, while the server handles `join_room`. Because the transport is not modelled, this mismatch has no effect in the model.
- React rendering, navigation (`onLeaveChat`, `window.location`) and logging are left out.
- ChatView.ChatView.LoadHistory: the mark after an empty history is `Date.now() / 1000`, the browser's clock, while stored stamps come from the server's `time.time()`. The model takes `now` as given and does not model skew between the two clocks, which can hide later messages from the poll.
- The client's truthiness tests on a room id (`if (roomData.roomId)`, `if (activeRoomId)`) are `Matchmaking.Truthy`: `null` and the empty string both fail.
- Reconcile.PollCatchesUp: assumes strictly increasing stamps. `time.time()` can repeat a value or step back, and then the `> since` filter can skip a message for good (`SameStampIsNeverPolled`).
- Reconcile.PollCatchesUp: assumes each poll is answered before the next is issued. The 1-second interval does not wait for its fetch, and a late answer to an older `since` would add its batch a second time and move the mark back.
- Reconcile.HighWaterNeverRegresses: assumes each poll is answered before the next is issued, for the same reason.
- The matchmaking screen's mount effect is left out: socket connect, `join_user_room` and its own `connect` handler. Its two mount-time probes are `CheckActiveChat` events.
- `handleSendMessage` of the chat screen is left out. It only posts to the send endpoint, which `Backend.Server.SendMessage` models.
- Interleavings inside one async handler are left out. An await is a split point: `StartMatching` then `OnRequestResponse`, and a probe's two fetches are one `ProbeResult`.
- The `userId` field of a user record is left out. It always equals the record's key.
- Request validation by Pydantic and CORS are left out.
- Backend.Server.RequestChat: the generated `room_<time>_<random>` name is a parameter. Name collisions are not modelled.

## Findings

| source | as written | input that shows it | evidently intended | confidence | as-written member | corrected member |
|---|---|---|---|---|---|---|
| itunymous/app/src/Components/ChatMatchmaking.tsx:155 | `checkMatch` is scheduled from the render where the start button was clicked, when `isSearching` was false, so its guard always returns | start a search, get "waiting", then let the backend match the user; the re-check does nothing (`StaleCheckMatchScenario`) | the re-check reads the current search state and goes on while searching and unmatched | high, not executed | Matchmaking.MatchmakingView.CheckMatchAsWritten | Matchmaking.MatchmakingView.CheckMatch |
| itunymous/app/src/Components/ChatMatchmaking.tsx:59 | the interval captures `isSearching` when its effect ran, and `isSearching` is not among the effect's dependencies (line 90), so the probe never fires while searching | mount, start a search, let the backend place the user in a room; no periodic probe resolves (`StaleFallbackScenario`) | the periodic probe reads the current search state | high, not executed | Matchmaking.MatchmakingView.FallbackProbeAsWritten | Matchmaking.MatchmakingView.FallbackProbe |
| itunymous/app/src/Components/ChatMatchmaking.tsx:140 | the refusal branch reads `data.message`, but a refusal body carries only `detail`, so the "chat already exists" notice never shows and every refusal shows "Bir hata oluştu." | a busy user starts a search: the backend answers 400 with detail "Zaten aktif bir sohbettesiniz." (`AsWrittenHidesEveryRefusal`) | read `detail`: the busy refusal shows the "chat already exists" notice and the others show their own text | high, not executed | Matchmaking.AsWrittenHidesEveryRefusal | Matchmaking.RejectionNotice |
