/**
 * The matchmaking screen's state machine. Each method is one event: the
 * start button, the reply to the match request, a `match_found` push, a
 * firing of the `checkMatch` timer, a firing of the periodic active-chat
 * probe, the cancel button, the continue button and the mount-time probe.
 * What the network answered is an argument; timer firings are explicit
 * events, and `pendingChecks` counts the `checkMatch` timers still armed.
 */
module Matchmaking {
  import opened Wrappers
  import opened Protocol
  import opened Session

  /** The text the screen shows, by kind. */
  datatype Notice =
    | Blank                        // ""
    | Matching                     // "Hobi eşleştirmesi yapılıyor..."
    | WaitingForPartner            // "Uygun eşleşme bekleniyor... Lütfen bekleyin."
    | MatchFound(commonHobbies: int)  // "Eşleşme bulundu! N ortak hobiniz var."
    | MatchFoundRedirect           // "Eşleşme bulundu! Sohbet sayfasına yönlendiriliyorsunuz."
    | ChatAlreadyExists            // "Sohbet zaten var! Devam etmek için 'Sohbeti Devam Et' butonuna basın."
    | Problem(text: string)        // the server's text, or "Bir hata oluştu."
    | ConnectionProblem            // "Bağlantı hatası oluştu."
    | Cancelled                    // "Eşleşme iptal edildi."

  const GenericError: string := "Bir hata oluştu."
  const AlreadyInChatText: string := "Zaten aktif bir sohbettesiniz."

  /** How a `POST /api/chat/request` ended, as the client sees it. */
  datatype RequestResponse =
    | MatchedReply(roomId: string, commonHobbies: int)  // ok, status "matched"
    | WaitingReply                                     // ok, status "waiting"
    | ErrorReply(body: ReplyBody)                      // not ok
    | NetworkError                                     // fetch or JSON parsing threw

  /** The `check-active` call, followed by `get-room` when it said active. */
  datatype ProbeResult =
    | ProbeFailed                  // a call threw
    | Inactive                     // hasActiveChat false
    | Active(roomId: Option<string>)  // hasActiveChat true; get-room's roomId

  /** The error branch of `startMatching` as written: it looks at the body's `message` field. */
  function RejectionNoticeAsWritten(body: ReplyBody): (n: Notice)
    ensures n == ChatAlreadyExists <==> body.message == Some(AlreadyInChatText)
    ensures n != ChatAlreadyExists ==>
              n == Problem(if body.message.Some? && body.message.value != "" then body.message.value else GenericError)
    ensures body.message.None? ==> n == Problem(GenericError)
  {
    if body.message == Some(AlreadyInChatText) then ChatAlreadyExists
    else if body.message.Some? && body.message.value != "" then Problem(body.message.value)
    else Problem(GenericError)
  }

  /** The same branch reading `detail`, the field the backend's refusals fill. */
  function RejectionNotice(body: ReplyBody): (n: Notice)
    ensures n == ChatAlreadyExists <==> body.detail == Some(AlreadyInChatText)
    ensures n != ChatAlreadyExists ==> n == Problem(if body.detail.Some? && body.detail.value != "" then body.detail.value else GenericError)
  {
    if body.detail == Some(AlreadyInChatText) then ChatAlreadyExists
    else if body.detail.Some? && body.detail.value != "" then Problem(body.detail.value)
    else Problem(GenericError)
  }

  /** As written, every refusal of the backend shows the generic text, even "already in a chat". */
  lemma AsWrittenHidesEveryRefusal(e: ApiError)
    ensures RejectionNoticeAsWritten(ErrorBody(e)) == Problem(GenericError)
  {
  }

  /** Reading `detail`, the "already in a chat" notice appears for exactly that refusal, and every other refusal shows its own text. */
  lemma RejectionNoticeNamesRefusal(e: ApiError)
    ensures RejectionNotice(ErrorBody(e)) == ChatAlreadyExists <==> e == AlreadyInChat
    ensures e != AlreadyInChat ==> RejectionNotice(ErrorBody(e)) == Problem(Detail(e))
  {
    match e
    case AlreadyInChat =>
    case _ => assert Detail(e) != AlreadyInChatText && Detail(e) != "";
  }

  /**
   * The guard of `checkMatch`, on the values it reads: values from a render
   * that was not searching stop it, and whenever it passes, the periodic
   * probe's guard passes too for any signed-in user.
   */
  predicate CheckMatchProceeds(searching: bool, matched: bool): (p: bool)
    ensures !searching || matched ==> !p
    ensures p ==> forall user :: user != "" ==> FallbackProceeds(searching, matched, user)
  {
    searching && !matched
  }

  /** The guard of the periodic active-chat probe, on the values it reads: it also needs a user. */
  predicate FallbackProceeds(searching: bool, matched: bool, userEmail: string): (p: bool)
    ensures !searching || matched || userEmail == "" ==> !p
  {
    !matched && userEmail != "" && searching
  }

  /** A room id the screen acts on: JavaScript treats `null` and `""` alike as false. */
  predicate Truthy(roomId: Option<string>) {
    roomId.Some? && roomId.value != ""
  }

  class MatchmakingView {
    const userEmail: string
    const slot: PointerSlot
    var isSearching: bool
    var isMatched: bool
    var roomId: Option<string>
    var hasActiveChat: bool
    var activeRoomId: Option<string>
    var notice: Notice
    var pendingChecks: nat

    /** The state every match resolution leaves: matched, not searching, in `r`, and `r` persisted. */
    ghost predicate ResolvedTo(r: string)
      reads this, slot
    {
      roomId == Some(r) && isMatched && !isSearching && slot.lastRoomId == Some(r)
    }

    /** Neither the probe's findings nor the armed timers changed. */
    twostate predicate ProbeAndTimersKept()
      reads this
    {
      hasActiveChat == old(hasActiveChat) && activeRoomId == old(activeRoomId) && pendingChecks == old(pendingChecks)
    }

    constructor (userEmail: string, slot: PointerSlot)
      ensures this.userEmail == userEmail && this.slot == slot
      ensures !isSearching && !isMatched && roomId == None
      ensures !hasActiveChat && activeRoomId == None
      ensures notice == Blank && pendingChecks == 0
    {
      this.userEmail := userEmail;
      this.slot := slot;
      isSearching, isMatched, roomId := false, false, None;
      hasActiveChat, activeRoomId := false, None;
      notice, pendingChecks := Blank, 0;
    }

    /** The four resolutions share this update. */
    method Resolve(r: string, n: Notice)
      modifies this, slot
      ensures ResolvedTo(r) && notice == n
      ensures ProbeAndTimersKept()
    {
      roomId := Some(r);
      isMatched := true;
      isSearching := false;
      notice := n;
      slot.lastRoomId := Some(r);
    }

    /** A `match_found` push: only one addressed to this user is taken, whatever the state. */
    method OnMatchFound(targetUser: string, r: string, commonHobbies: int)
      modifies this, slot
      ensures targetUser != userEmail ==> unchanged(this) && unchanged(slot)
      ensures targetUser == userEmail ==> ResolvedTo(r) && notice == MatchFound(commonHobbies) && ProbeAndTimersKept()
    {
      if targetUser == userEmail {
        Resolve(r, MatchFound(commonHobbies));
      }
    }

    /** The start button, shown only while not searching: the part of `startMatching` before the request is awaited. */
    method StartMatching()
      requires !isSearching
      modifies this
      ensures isSearching && notice == Matching
      ensures isMatched == old(isMatched) && roomId == old(roomId) && ProbeAndTimersKept()
    {
      isSearching := true;
      notice := Matching;
    }

    /** The rest of `startMatching`, once the request has answered. */
    method OnRequestResponse(response: RequestResponse)
      modifies this, slot
      ensures response.MatchedReply? ==>
                ResolvedTo(response.roomId) && notice == MatchFound(response.commonHobbies) && ProbeAndTimersKept()
      ensures response == WaitingReply ==>
                && isSearching == old(isSearching) && isMatched == old(isMatched) && roomId == old(roomId)
                && notice == WaitingForPartner
                && pendingChecks == old(pendingChecks) + 1
                && hasActiveChat == old(hasActiveChat) && activeRoomId == old(activeRoomId)
                && unchanged(slot)
      ensures response.ErrorReply? || response == NetworkError ==>
                && !isSearching && isMatched == old(isMatched) && roomId == old(roomId)
                && notice == (if response.ErrorReply? then RejectionNotice(response.body) else ConnectionProblem)
                && ProbeAndTimersKept()
                && unchanged(slot)
    {
      match response
      case MatchedReply(r, common) =>
        Resolve(r, MatchFound(common));
      case WaitingReply =>
        notice := WaitingForPartner;
        pendingChecks := pendingChecks + 1;
      case ErrorReply(body) =>
        notice := RejectionNotice(body);
        isSearching := false;
      case NetworkError =>
        notice := ConnectionProblem;
        isSearching := false;
    }

    /**
     * What one firing of the `checkMatch` timer does, given whether its
     * guard passed: the timer is used up; past the guard, a "matched" reply
     * or an active probe with a room resolves without re-arming, and every
     * other outcome re-arms exactly one timer and changes nothing else.
     */
    twostate predicate CheckMatchEffect(passed: bool, response: RequestResponse, probe: ProbeResult)
      reads this, slot
    {
      && (!passed ==>
            && isSearching == old(isSearching) && isMatched == old(isMatched) && roomId == old(roomId)
            && notice == old(notice) && hasActiveChat == old(hasActiveChat) && activeRoomId == old(activeRoomId)
            && pendingChecks == old(pendingChecks) - 1
            && slot.lastRoomId == old(slot.lastRoomId))
      && (passed && response.MatchedReply? ==>
            ResolvedTo(response.roomId) && notice == MatchFound(response.commonHobbies)
            && pendingChecks == old(pendingChecks) - 1)
      && (passed && !response.MatchedReply? && response != NetworkError
            && probe.Active? && Truthy(probe.roomId) ==>
            ResolvedTo(probe.roomId.value) && notice == MatchFoundRedirect
            && pendingChecks == old(pendingChecks) - 1)
      && (passed && !response.MatchedReply?
            && (response == NetworkError || !probe.Active? || !Truthy(probe.roomId)) ==>
            && isSearching == old(isSearching) && isMatched == old(isMatched) && roomId == old(roomId)
            && notice == old(notice) && hasActiveChat == old(hasActiveChat) && activeRoomId == old(activeRoomId)
            && pendingChecks == old(pendingChecks)
            && slot.lastRoomId == old(slot.lastRoomId))
      && hasActiveChat == old(hasActiveChat) && activeRoomId == old(activeRoomId)
    }

    method RunCheckMatch(searching: bool, matched: bool, response: RequestResponse, probe: ProbeResult)
      requires pendingChecks > 0
      modifies this, slot
      ensures CheckMatchEffect(CheckMatchProceeds(searching, matched), response, probe)
    {
      pendingChecks := pendingChecks - 1;
      if !CheckMatchProceeds(searching, matched) {
        return;
      }
      match response
      case MatchedReply(r, common) =>
        Resolve(r, MatchFound(common));
      case NetworkError =>
        pendingChecks := pendingChecks + 1;
      case _ =>
        if probe.Active? && Truthy(probe.roomId) {
          Resolve(probe.roomId.value, MatchFoundRedirect);
        } else {
          pendingChecks := pendingChecks + 1;
        }
    }

    /** A firing of the `checkMatch` timer, its guard reading the current state. */
    method CheckMatch(response: RequestResponse, probe: ProbeResult)
      requires pendingChecks > 0
      modifies this, slot
      ensures CheckMatchEffect(old(isSearching) && !old(isMatched), response, probe)
    {
      RunCheckMatch(isSearching, isMatched, response, probe);
    }

    /**
     * A firing of the `checkMatch` timer as written: its guard reads the
     * `isSearching` and `isMatched` of the render in which the start button
     * was clicked, passed here as `seenSearching` and `seenMatched`.
     */
    method CheckMatchAsWritten(seenSearching: bool, seenMatched: bool, response: RequestResponse, probe: ProbeResult)
      requires pendingChecks > 0
      modifies this, slot
      ensures CheckMatchEffect(seenSearching && !seenMatched, response, probe)
    {
      RunCheckMatch(seenSearching, seenMatched, response, probe);
    }

    /** One firing of the periodic probe, given whether its guard passed: only an active probe with a room resolves. */
    twostate predicate FallbackEffect(passed: bool, probe: ProbeResult)
      reads this, slot
    {
      && (passed && probe.Active? && Truthy(probe.roomId) ==>
            ResolvedTo(probe.roomId.value) && notice == MatchFoundRedirect && ProbeAndTimersKept())
      && (!(passed && probe.Active? && Truthy(probe.roomId)) ==> unchanged(this) && unchanged(slot))
    }

    method RunFallback(searching: bool, matched: bool, probe: ProbeResult)
      modifies this, slot
      ensures FallbackEffect(FallbackProceeds(searching, matched, userEmail), probe)
    {
      if FallbackProceeds(searching, matched, userEmail) && probe.Active? && Truthy(probe.roomId) {
        Resolve(probe.roomId.value, MatchFoundRedirect);
      }
    }

    /** A firing of the 1.5-second active-chat probe, its guard reading the current state. */
    method FallbackProbe(probe: ProbeResult)
      modifies this, slot
      ensures FallbackEffect(FallbackProceeds(old(isSearching), old(isMatched), userEmail), probe)
    {
      RunFallback(isSearching, isMatched, probe);
    }

    /**
     * The same firing as written: the interval's callback reads the
     * `isSearching` and `isMatched` of the render in which its effect last
     * ran, passed here as `seenSearching` and `seenMatched`.
     */
    method FallbackProbeAsWritten(seenSearching: bool, seenMatched: bool, probe: ProbeResult)
      modifies this, slot
      ensures FallbackEffect(FallbackProceeds(seenSearching, seenMatched, userEmail), probe)
    {
      RunFallback(seenSearching, seenMatched, probe);
    }

    /** The cancel button: searching stops whatever the cancel call answers; armed timers stay armed. */
    method CancelMatching()
      modifies this
      ensures !isSearching && notice == Cancelled
      ensures isMatched == old(isMatched) && roomId == old(roomId) && ProbeAndTimersKept()
    {
      isSearching := false;
      notice := Cancelled;
    }

    /** The continue button: takes the probed room, if it is a non-empty id, without touching the pointer. */
    method ContinueChat()
      modifies this
      ensures Truthy(old(activeRoomId)) ==> roomId == old(activeRoomId) && isMatched
      ensures !Truthy(old(activeRoomId)) ==> roomId == old(roomId) && isMatched == old(isMatched)
      ensures isSearching == old(isSearching) && notice == old(notice) && ProbeAndTimersKept()
      ensures slot.lastRoomId == old(slot.lastRoomId)
    {
      if Truthy(activeRoomId) {
        roomId := activeRoomId;
        isMatched := true;
      }
    }

    /** `checkActiveChat`: records what the probe found; a failed or inactive probe leaves no room. */
    method CheckActiveChat(probe: ProbeResult)
      modifies this
      ensures hasActiveChat <==> probe.Active?
      ensures activeRoomId == if probe.Active? then probe.roomId else None
      ensures isSearching == old(isSearching) && isMatched == old(isMatched) && roomId == old(roomId)
      ensures notice == old(notice) && pendingChecks == old(pendingChecks)
      ensures slot.lastRoomId == old(slot.lastRoomId)
    {
      match probe
      case Active(r) =>
        hasActiveChat := true;
        activeRoomId := r;
      case _ =>
        hasActiveChat := false;
        activeRoomId := None;
    }
  }

  /**
   * The stale `checkMatch` guard at work: the search starts from a render
   * in which `isSearching` is false, the request answers "waiting", and when
   * the re-check fires the backend refuses the re-request (the user is
   * already waiting) but reports the user in room `r`. As written the
   * re-check returns at once; reading the current state it resolves to `r`.
   */
  method StaleCheckMatchScenario(userEmail: string, r: string) returns (matchedAsWritten: bool, matchedIntended: bool)
    requires r != ""
    ensures !matchedAsWritten && matchedIntended
  {
    var firstSlot := new PointerSlot(None);
    var first := new MatchmakingView(userEmail, firstSlot);
    var seenSearching, seenMatched := first.isSearching, first.isMatched;
    first.StartMatching();
    first.OnRequestResponse(WaitingReply);
    first.CheckMatchAsWritten(seenSearching, seenMatched, ErrorReply(ErrorBody(AlreadyWaiting)), Active(Some(r)));
    matchedAsWritten := first.isMatched;

    var secondSlot := new PointerSlot(None);
    var second := new MatchmakingView(userEmail, secondSlot);
    second.StartMatching();
    second.OnRequestResponse(WaitingReply);
    second.CheckMatch(ErrorReply(ErrorBody(AlreadyWaiting)), Active(Some(r)));
    matchedIntended := second.isMatched;
  }

  /**
   * The stale probe guard at work: the interval's effect ran at mount, when
   * `isSearching` was false; the user then searches and the probe finds room
   * `r`. As written nothing happens; reading the current state it resolves.
   */
  method StaleFallbackScenario(userEmail: string, r: string) returns (matchedAsWritten: bool, matchedIntended: bool)
    requires userEmail != "" && r != ""
    ensures !matchedAsWritten && matchedIntended
  {
    var firstSlot := new PointerSlot(None);
    var first := new MatchmakingView(userEmail, firstSlot);
    var seenSearching, seenMatched := first.isSearching, first.isMatched;
    first.StartMatching();
    first.OnRequestResponse(WaitingReply);
    first.FallbackProbeAsWritten(seenSearching, seenMatched, Active(Some(r)));
    matchedAsWritten := first.isMatched;

    var secondSlot := new PointerSlot(None);
    var second := new MatchmakingView(userEmail, secondSlot);
    second.StartMatching();
    second.OnRequestResponse(WaitingReply);
    second.FallbackProbe(Active(Some(r)));
    matchedIntended := second.isMatched;
  }
}
