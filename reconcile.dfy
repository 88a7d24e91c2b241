/**
 * How the backend's answers and the two screens fit together: the chat
 * screen's poll keeps its list equal to the reversed server log and its
 * mark never goes back, and a matched user's probes report the new room to
 * the matchmaking screen even though re-requests from a waiting user are
 * always refused.
 */
module Reconcile {
  import opened Wrappers
  import opened Protocol
  import opened Backend
  import opened ChatView
  import Matchmaking

  /** `time.time()` at each send was later than at the one before. */
  ghost predicate StrictlyIncreasing(log: seq<Message>) {
    forall i, j :: 0 <= i < j < |log| ==> log[i].timestamp < log[j].timestamp
  }

  /** Every stamp is a positive epoch time. */
  ghost predicate AfterEpoch(log: seq<Message>) {
    forall i :: 0 <= i < |log| ==> log[i].timestamp > 0.0
  }

  /**
   * A screen that shows the first `k` messages of the log, with the mark
   * of the `k`-th, gets exactly the rest from its next poll; it then shows
   * the whole log newest first, each message once, and its mark is the
   * newest message's.
   */
  lemma PollCatchesUp(chats: map<string, seq<Message>>, roomId: string, k: nat)
    requires roomId in chats
    requires StrictlyIncreasing(chats[roomId]) && AfterEpoch(chats[roomId])
    requires 0 < k <= |chats[roomId]|
    ensures var log := chats[roomId];
            var mark := log[k - 1].timestamp;
            var batch := GetRoomMessages(chats, roomId, mark);
            && batch == log[k..]
            && PolledTimeline(HistoryTimeline(log[..k]), batch) == HistoryTimeline(log)
            && HighWater(mark, batch) == log[|log| - 1].timestamp
  {
    var log := chats[roomId];
    var mark := log[k - 1].timestamp;
    assert mark > 0.0;
    SplitsAtMark(log, k);
    NewerThanMarkIsSuffix(log, mark, k);
    assert GetRoomMessages(chats, roomId, mark) == log[k..];
    TimelineCatchesUp(log, k);
  }

  /** Polling the rest of a log onto the history of its first `k` messages gives the history of the whole log. */
  lemma TimelineCatchesUp(log: seq<Message>, k: nat)
    requires 0 < k <= |log|
    ensures PolledTimeline(HistoryTimeline(log[..k]), log[k..]) == HistoryTimeline(log)
    ensures HighWater(log[k - 1].timestamp, log[k..]) == log[|log| - 1].timestamp
  {
    PolledHistory(log[..k], log[k..]);
    assert log[..k] + log[k..] == log;
  }

  /** In a log stamped in send order, the `k`-th message separates the older ones from the newer ones. */
  lemma SplitsAtMark(log: seq<Message>, k: nat)
    requires StrictlyIncreasing(log)
    requires 0 < k <= |log|
    ensures forall i :: 0 <= i < k ==> log[i].timestamp <= log[k - 1].timestamp
    ensures forall i :: k <= i < |log| ==> log[i].timestamp > log[k - 1].timestamp
  {
  }

  /** When the first `k` messages are no newer than `since` and the rest are newer, the filter returns the rest. */
  lemma {:induction false} NewerThanMarkIsSuffix(log: seq<Message>, since: real, k: nat)
    requires k <= |log|
    requires forall i :: 0 <= i < k ==> log[i].timestamp <= since
    requires forall i :: k <= i < |log| ==> log[i].timestamp > since
    ensures Since(log, since) == log[k..]
  {
    if k == 0 {
      SinceKeepsNewer(log, since);
    } else {
      assert log[0].timestamp <= since;
      NewerThanMarkIsSuffix(log[1..], since, k - 1);
      assert log[1..][k - 1..] == log[k..];
    }
  }

  /**
   * A screen that shows nothing with mark 0 (a failed history load, or a
   * screen mounted with a room, which skips the load) gets the whole log
   * from its first poll and shows what a history load would have shown.
   */
  lemma FirstPollBringsWholeLog(chats: map<string, seq<Message>>, roomId: string)
    ensures PolledTimeline([], GetRoomMessages(chats, roomId, 0.0)) == HistoryTimeline(RoomLog(chats, roomId))
    ensures HighWater(0.0, GetRoomMessages(chats, roomId, 0.0)) ==
            if RoomLog(chats, roomId) == [] then 0.0 else RoomLog(chats, roomId)[|RoomLog(chats, roomId)| - 1].timestamp
  {
  }

  /**
   * Two messages sent within one tick of `time.time()` share a stamp; a
   * screen whose mark is that stamp never receives the second one, however
   * often it polls.
   */
  lemma SameStampIsNeverPolled(chats: map<string, seq<Message>>, roomId: string, first: Message, second: Message)
    requires first.timestamp == second.timestamp > 0.0
    ensures var log := chats[roomId := [first, second]];
            && second in RoomLog(log, roomId)
            && GetRoomMessages(log, roomId, first.timestamp) == []
  {
    var log := chats[roomId := [first, second]];
    assert [second][1..] == [];
    assert Since([second], first.timestamp) == [];
    assert [first, second][1..] == [second];
    assert Since([first, second], first.timestamp) == [];
  }

  /** Fed what the backend answers for it, the poll's mark never goes back. */
  lemma HighWaterNeverRegresses(chats: map<string, seq<Message>>, roomId: string, mark: real)
    requires AfterEpoch(RoomLog(chats, roomId))
    ensures HighWater(mark, GetRoomMessages(chats, roomId, mark)) >= mark
  {
    var batch := GetRoomMessages(chats, roomId, mark);
    if batch != [] {
      assert batch[|batch| - 1] in batch;
      if mark <= 0.0 {
        assert batch == RoomLog(chats, roomId);
      }
    }
  }

  /** What the matchmaking screen receives for a backend answer to `/api/chat/request`. */
  function ResponseOf(r: Result<ChatReply, ApiError>): (resp: Matchmaking.RequestResponse)
    ensures resp != Matchmaking.NetworkError
    ensures resp.MatchedReply? <==> r.Success? && r.value.Matched?
    ensures resp.MatchedReply? ==> resp.roomId == r.value.roomId && resp.commonHobbies == r.value.commonHobbies
    ensures resp == Matchmaking.WaitingReply <==> r == Success(WaitingForMatch)
    ensures resp.ErrorReply? <==> r.Failure?
    ensures resp.ErrorReply? ==> resp.body.message.None? && resp.body.detail == Some(Detail(r.error))
  {
    match r
    case Success(Matched(room, common)) => Matchmaking.MatchedReply(room, common)
    case Success(WaitingForMatch) => Matchmaking.WaitingReply
    case Failure(e) => Matchmaking.ErrorReply(ErrorBody(e))
  }

  /**
   * What the screen's probe sees: `check-active`, then `get-room` when it
   * said active. A refused probe's body has no `hasActiveChat`, which reads
   * as inactive.
   */
  function ProbeOf(users: map<string, User>, userId: string): (p: Matchmaking.ProbeResult)
    ensures !p.ProbeFailed?
    ensures p.Active? <==> userId != "" && userId in users && users[userId].status == Busy && users[userId].currentChat.Some?
    ensures p.Active? ==> p.roomId == users[userId].currentChat
  {
    if CheckActiveChat(users, userId) == Success(true) then
      Matchmaking.Active(if GetUserRoom(users, userId).Success? then GetUserRoom(users, userId).value else None)
    else Matchmaking.Inactive
  }

  /**
   * The re-request of a waiting user is refused as "already waiting", so
   * `checkMatch` never takes its "matched" branch against this backend and
   * always goes on to the probe.
   */
  lemma ReRequestGoesToProbe(users: map<string, User>, pool: seq<Waiting>, userId: string)
    requires PoolConsistent(users, pool)
    requires userId != "" && userId in Ids(pool)
    ensures var refusal := Refusal(users, pool, userId);
            && refusal.Some?
            && ResponseOf(Failure(refusal.value)) == Matchmaking.ErrorReply(ErrorBody(AlreadyWaiting))
  {
    WaitingUserIsRefused(users, pool, userId);
  }

  /**
   * After the backend matches a requester with a partner in `roomId`, the
   * probe of either of them finds that room, which resolves the partner's
   * search through `checkMatch` or the periodic probe.
   */
  lemma MatchedUsersProbeTheirRoom(users: map<string, User>, userId: string, partner: string, roomId: string)
    requires userId in users && partner in users
    requires userId != "" && partner != "" && userId != partner
    ensures var engaged := users[userId := Engaged(users[userId], roomId)][partner := Engaged(users[partner], roomId)];
            && ProbeOf(engaged, partner) == Matchmaking.Active(Some(roomId))
            && ProbeOf(engaged, userId) == Matchmaking.Active(Some(roomId))
            && (roomId != "" ==> Matchmaking.Truthy(ProbeOf(engaged, partner).roomId))
  {
  }
}
