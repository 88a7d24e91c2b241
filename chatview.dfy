/**
 * The chat screen. Its message list is kept newest first: the server's log
 * is in send order, and every fetched batch is reversed and put in front of
 * what is shown. `lastTimestamp` is the high-water mark the 1-second poll
 * asks with. Push events put system notices in front, and `user_left`,
 * `chat_ended` and the end button clear the persisted room pointer; the
 * leave button does not. `sent` records what is emitted on the socket.
 */
module ChatView {
  import opened Wrappers
  import opened Protocol
  import opened Session

  /** An item of the `messages` state, `{sender, message}`. */
  datatype Entry = Entry(sender: string, text: string)

  /** A socket emission of this screen. */
  datatype Emit =
    | JoinRoom(room: string, username: string)
    | JoinUserRoom(userId: string)
    | LeaveRoom(room: string, username: string)

  /** A `fetch` of the messages endpoint: the `messages` list it returned, or a failure. */
  datatype Fetch = Fetched(messages: seq<Message>) | FetchFailed

  /** `.map(m => ({sender: m.sender, message: m.message}))` */
  function ToEntries(batch: seq<Message>): seq<Entry> {
    seq(|batch|, i requires 0 <= i < |batch| => Entry(batch[i].sender, batch[i].text))
  }

  /** `.reverse()` */
  function Reverse<T>(s: seq<T>): (r: seq<T>)
    ensures |r| == |s|
    ensures forall i :: 0 <= i < |s| ==> r[i] == s[|s| - 1 - i]
  {
    if s == [] then [] else [s[|s| - 1]] + Reverse(s[..|s| - 1])
  }

  lemma ReverseConcat<T>(a: seq<T>, b: seq<T>)
    ensures Reverse(a + b) == Reverse(b) + Reverse(a)
  {
    assert forall i :: 0 <= i < |a + b| ==> Reverse(a + b)[i] == (Reverse(b) + Reverse(a))[i];
  }

  lemma ToEntriesConcat(a: seq<Message>, b: seq<Message>)
    ensures ToEntries(a + b) == ToEntries(a) + ToEntries(b)
  {
    assert forall i :: 0 <= i < |a + b| ==> ToEntries(a + b)[i] == (ToEntries(a) + ToEntries(b))[i];
  }

  /** The list a non-empty history load sets: entry `i` is the `i`-th newest fetched message. */
  function HistoryTimeline(batch: seq<Message>): (t: seq<Entry>)
    ensures |t| == |batch|
    ensures forall i :: 0 <= i < |batch| ==>
              t[i] == Entry(batch[|batch| - 1 - i].sender, batch[|batch| - 1 - i].text)
  {
    Reverse(ToEntries(batch))
  }

  /** The list after a poll brought `batch`: the batch newest first, in front of what was shown. */
  function PolledTimeline(shown: seq<Entry>, batch: seq<Message>): (t: seq<Entry>)
    ensures |t| == |batch| + |shown|
    ensures t[..|batch|] == HistoryTimeline(batch) && t[|batch|..] == shown
  {
    HistoryTimeline(batch) + shown
  }

  /** The high-water mark after a batch: its last (newest) timestamp, or the old mark for an empty batch. */
  function HighWater(mark: real, batch: seq<Message>): (h: real)
    ensures batch == [] ==> h == mark
    ensures batch != [] ==> exists i :: 0 <= i < |batch| && batch[i].timestamp == h
    ensures (forall i, j :: 0 <= i <= j < |batch| ==> batch[i].timestamp <= batch[j].timestamp) ==>
              forall m :: m in batch ==> m.timestamp <= h
    ensures (forall m :: m in batch ==> m.timestamp > mark) ==> h >= mark
  {
    if batch == [] then mark else batch[|batch| - 1].timestamp
  }

  /** A notice synthesised from a push event. */
  function SystemNotice(text: string): Entry {
    Entry("system", text)
  }

  /**
   * What one run of the listener effect emits: `join_user_room` for the
   * user, when the socket is connected and there is a user.
   */
  function EffectEmits(connected: bool, userEmail: string): (r: seq<Emit>)
    ensures |r| <= 1
    ensures r != [] <==> connected && userEmail != ""
    ensures forall e :: e in r ==> e == JoinUserRoom(userEmail)
  {
    if connected && userEmail != "" then [JoinUserRoom(userEmail)] else []
  }

  /** What `n` registered listeners put in front of the list for one push with `text`: one notice each. */
  function Notices(text: string, n: nat): (r: seq<Entry>)
    ensures |r| == n
    ensures forall i :: 0 <= i < n ==> r[i] == SystemNotice(text)
  {
    if n == 0 then [] else [SystemNotice(text)] + Notices(text, n - 1)
  }

  /** Polling history onto what it extends is the history of the longer log. */
  lemma PolledHistory(earlier: seq<Message>, batch: seq<Message>)
    ensures PolledTimeline(HistoryTimeline(earlier), batch) == HistoryTimeline(earlier + batch)
  {
    ToEntriesConcat(earlier, batch);
    ReverseConcat(ToEntries(earlier), ToEntries(batch));
  }

  /** Two polls in a row leave the list and the mark as one poll of both batches would. */
  lemma PollTwiceIsPollOfBoth(shown: seq<Entry>, first: seq<Message>, second: seq<Message>, mark: real)
    ensures PolledTimeline(PolledTimeline(shown, first), second) == PolledTimeline(shown, first + second)
    ensures HighWater(HighWater(mark, first), second) == HighWater(mark, first + second)
  {
    ToEntriesConcat(first, second);
    ReverseConcat(ToEntries(first), ToEntries(second));
    if second == [] {
      assert first + second == first;
    }
  }

  class ChatView {
    const initialRoom: string
    const userEmail: string
    const slot: PointerSlot
    var room: string
    var joined: bool
    var messages: seq<Entry>
    var username: string
    var lastTimestamp: real
    var sent: seq<Emit>
    var listeners: nat  // how many times the `user_joined`, `user_left` and `chat_ended` handlers are registered

    /** The guard of the auto-join effect. */
    predicate AutoJoinArmed()
      reads this
    {
      initialRoom != "" && userEmail != "" && !joined
    }

    /**
     * Mounting: with a room given the screen starts joined, so the auto-join
     * never arms. The listener effect runs once, registering the push
     * handlers and, when connected, joining the user's own room.
     */
    constructor (initialRoom: string, userEmail: string, slot: PointerSlot, connected: bool)
      ensures this.initialRoom == initialRoom && this.userEmail == userEmail && this.slot == slot
      ensures room == initialRoom && joined == (initialRoom != "")
      ensures messages == [] && username == userEmail && lastTimestamp == 0.0
      ensures sent == EffectEmits(connected, userEmail)
      ensures listeners == 1
      ensures initialRoom != "" ==> !AutoJoinArmed()
    {
      this.initialRoom := initialRoom;
      this.userEmail := userEmail;
      this.slot := slot;
      room := initialRoom;
      joined := initialRoom != "";
      messages := [];
      username := userEmail;
      lastTimestamp := 0.0;
      sent := EffectEmits(connected, userEmail);
      listeners := 1;
    }

    /** `user_joined`: every registered handler puts its notice in front. */
    method OnUserJoined(text: string)
      modifies this
      ensures messages == Notices(text, listeners) + old(messages) && listeners == old(listeners)
      ensures room == old(room) && joined == old(joined) && username == old(username)
      ensures lastTimestamp == old(lastTimestamp) && sent == old(sent)
      ensures slot.lastRoomId == old(slot.lastRoomId)
    {
      messages := Notices(text, listeners) + messages;
    }

    /** `user_left`: the partner left; every registered handler puts its notice in front, and the pointer is removed. */
    method OnUserLeft(text: string)
      modifies this, slot
      ensures messages == Notices(text, listeners) + old(messages) && listeners == old(listeners)
      ensures slot.lastRoomId == None
      ensures room == old(room) && joined == old(joined) && username == old(username)
      ensures lastTimestamp == old(lastTimestamp) && sent == old(sent)
    {
      messages := Notices(text, listeners) + messages;
      slot.lastRoomId := None;
    }

    /** `chat_ended`: the chat was ended; every registered handler puts its notice in front, and the pointer is removed. */
    method OnChatEnded(text: string)
      modifies this, slot
      ensures messages == Notices(text, listeners) + old(messages) && listeners == old(listeners)
      ensures slot.lastRoomId == None
      ensures room == old(room) && joined == old(joined) && username == old(username)
      ensures lastTimestamp == old(lastTimestamp) && sent == old(sent)
    {
      messages := Notices(text, listeners) + messages;
      slot.lastRoomId := None;
    }

    /**
     * `connect` (a reconnection): registers the push handlers once more,
     * re-joins the room when joined to one, and the user's own room when
     * there is a user.
     */
    method OnConnect()
      modifies this
      ensures sent == old(sent)
                      + (if joined && room != "" then [JoinRoom(room, username)] else [])
                      + (if userEmail != "" then [JoinUserRoom(userEmail)] else [])
      ensures room == old(room) && joined == old(joined) && username == old(username)
      ensures messages == old(messages) && lastTimestamp == old(lastTimestamp)
      ensures listeners == old(listeners) + 1
    {
      listeners := listeners + 1;
      if joined && room != "" {
        sent := sent + [JoinRoom(room, username)];
      }
      if userEmail != "" {
        sent := sent + [JoinUserRoom(userEmail)];
      }
    }

    /** One firing of the 1-second poll, which is armed only while joined to a room. */
    method PollMessages(result: Fetch)
      modifies this
      ensures old(joined) && old(room) != "" && result.Fetched? ==>
                && messages == PolledTimeline(old(messages), result.messages)
                && lastTimestamp == HighWater(old(lastTimestamp), result.messages)
      ensures !(old(joined) && old(room) != "" && result.Fetched?) ==>
                messages == old(messages) && lastTimestamp == old(lastTimestamp)
      ensures room == old(room) && joined == old(joined) && username == old(username) && sent == old(sent)
      ensures listeners == old(listeners)
    {
      if joined && room != "" && result.Fetched? && |result.messages| > 0 {
        messages := PolledTimeline(messages, result.messages);
        lastTimestamp := result.messages[|result.messages| - 1].timestamp;
      }
    }

    /** The `.then`/`.catch` of a history load; `now` is `Date.now() / 1000`. */
    method LoadHistory(result: Fetch, now: real)
      modifies this
      ensures result.Fetched? && result.messages != [] ==>
                messages == HistoryTimeline(result.messages)
                && lastTimestamp == result.messages[|result.messages| - 1].timestamp
      ensures result == Fetched([]) ==> messages == [] && lastTimestamp == now
      ensures result == FetchFailed ==> messages == [] && lastTimestamp == old(lastTimestamp)
      ensures room == old(room) && joined == old(joined) && username == old(username) && sent == old(sent)
      ensures listeners == old(listeners)
    {
      match result
      case Fetched(batch) =>
        if |batch| > 0 {
          messages := HistoryTimeline(batch);
          lastTimestamp := batch[|batch| - 1].timestamp;
        } else {
          messages := [];
          lastTimestamp := now;
        }
      case FetchFailed =>
        messages := [];
    }

    /**
     * The auto-join effect (`proceedWithJoin`): load the history of the
     * given room, then join it. Becoming joined re-runs the listener effect,
     * which leaves one registration and, when `connected`, joins the user's
     * own room again.
     */
    method AutoJoin(result: Fetch, now: real, connected: bool)
      modifies this
      ensures !old(AutoJoinArmed()) ==> unchanged(this)
      ensures old(AutoJoinArmed()) ==>
                && joined
                && sent == old(sent) + [JoinRoom(initialRoom, userEmail)] + EffectEmits(connected, userEmail)
                && (result.Fetched? && result.messages != [] ==>
                      messages == HistoryTimeline(result.messages)
                      && lastTimestamp == result.messages[|result.messages| - 1].timestamp)
                && (result == Fetched([]) ==> messages == [] && lastTimestamp == now)
                && (result == FetchFailed ==> messages == [] && lastTimestamp == old(lastTimestamp))
                && room == old(room) && username == old(username)
                && listeners == 1
    {
      if AutoJoinArmed() {
        LoadHistory(result, now);
        sent := sent + [JoinRoom(initialRoom, userEmail)] + EffectEmits(connected, userEmail);
        joined := true;
        listeners := 1;
      }
    }

    /**
     * The join button (`handleJoin`), shown only while not joined: needs a
     * name and a room; loads that room's history, then joins it, which
     * re-runs the listener effect: one registration of the push handlers
     * and, when `connected`, the user's own room joined again.
     */
    method HandleJoin(result: Fetch, now: real, connected: bool)
      requires !joined
      modifies this
      ensures old(username) == "" || old(room) == "" ==> unchanged(this)
      ensures old(username) != "" && old(room) != "" ==>
                && joined
                && sent == old(sent) + [JoinRoom(room, username)] + EffectEmits(connected, userEmail)
                && (result.Fetched? && result.messages != [] ==>
                      messages == HistoryTimeline(result.messages)
                      && lastTimestamp == result.messages[|result.messages| - 1].timestamp)
                && (result == Fetched([]) ==> messages == [] && lastTimestamp == now)
                && (result == FetchFailed ==> messages == [] && lastTimestamp == old(lastTimestamp))
                && room == old(room) && username == old(username)
                && listeners == 1
    {
      if username != "" && room != "" {
        LoadHistory(result, now);
        sent := sent + [JoinRoom(room, username)] + EffectEmits(connected, userEmail);
        joined := true;
        listeners := 1;
      }
    }

    /**
     * The name field, editable only while not joined and without a user: a
     * changed name re-runs the listener effect, which leaves one
     * registration; with no user it emits nothing.
     */
    method EnterName(name: string, connected: bool)
      requires !joined && userEmail == ""
      modifies this
      ensures username == name
      ensures listeners == if name != old(username) then 1 else old(listeners)
      ensures sent == old(sent)
      ensures room == old(room) && joined == old(joined) && messages == old(messages)
      ensures lastTimestamp == old(lastTimestamp)
    {
      if name != username {
        listeners := 1;
        sent := sent + EffectEmits(connected, userEmail);
      }
      username := name;
    }

    /**
     * The room field, editable only while not joined and without a given
     * room: a changed room re-runs the listener effect, which leaves one
     * registration and, when `connected`, joins the user's own room again.
     */
    method EnterRoom(r: string, connected: bool)
      requires !joined && initialRoom == ""
      modifies this
      ensures room == r
      ensures listeners == if r != old(room) then 1 else old(listeners)
      ensures sent == old(sent) + (if r != old(room) then EffectEmits(connected, userEmail) else [])
      ensures username == old(username) && joined == old(joined) && messages == old(messages)
      ensures lastTimestamp == old(lastTimestamp)
    {
      if r != room {
        listeners := 1;
        sent := sent + EffectEmits(connected, userEmail);
      }
      room := r;
    }

    /** The leave button: emits `leave_room` when connected; the pointer stays so the chat can be continued. */
    method HandleLeaveRoom(connected: bool)
      modifies this
      ensures sent == old(sent) + (if connected then [LeaveRoom(room, username)] else [])
      ensures slot.lastRoomId == old(slot.lastRoomId)
      ensures room == old(room) && joined == old(joined) && username == old(username)
      ensures messages == old(messages) && lastTimestamp == old(lastTimestamp)
      ensures listeners == old(listeners)
    {
      if connected {
        sent := sent + [LeaveRoom(room, username)];
      }
    }

    /** The end button: the pointer is removed before the end call, whatever that call answers. */
    method HandleEndChat()
      modifies slot
      ensures slot.lastRoomId == None
    {
      slot.lastRoomId := None;
    }
  }

  /**
   * A reconnection while joined registers the push handlers a second time;
   * polls and a leave keep both registrations, so the partner's next
   * `user_joined` shows its notice twice.
   */
  method ReconnectDoublesNoticesScenario(room: string, userEmail: string, text: string) returns (shown: seq<Entry>)
    requires room != ""
    ensures shown == [SystemNotice(text), SystemNotice(text)]
  {
    var slot := new PointerSlot(Some(room));
    var view := new ChatView(room, userEmail, slot, false);
    view.OnConnect();
    view.PollMessages(Fetched([]));
    view.HandleLeaveRoom(true);
    view.OnUserJoined(text);
    shown := view.messages;
  }
}
