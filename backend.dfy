/**
 * The FastAPI backend's in-memory stores and the endpoints that read and
 * change them: registration, login and e-mail codes, hobby matchmaking,
 * ending and leaving chats, and the per-room message log.
 *
 * The endpoints that only read (`login`, `check-active`, `get-room`,
 * `messages`) are functions of the map they read; `load_users()` reads the
 * users file afresh on every call, so that map is their argument. The
 * endpoints that change the stores are methods of `Server`.
 */
module Backend {
  import opened Wrappers
  import opened Protocol

  datatype Status = Available | Busy

  /** A record of the users file. Its `userId` field always equals its key, so it is not kept. */
  datatype User = User(password: string, hobbies: seq<string>, status: Status, currentChat: Option<string>)

  /** An entry of `waiting_pool`: a user id and the record loaded when that user asked for a match. */
  datatype Waiting = Waiting(userId: string, record: User)

  /** The successful replies of `/api/chat/request`. */
  datatype ChatReply = Matched(roomId: string, commonHobbies: nat) | WaitingForMatch

  datatype LoginReply = LoginReply(userId: string, hobbies: seq<string>)

  /** `(best_match, max_common_hobbies)` of the matching loop; `best` is an index into the pool. */
  datatype Choice = Choice(best: Option<nat>, common: nat)

  function Engaged(u: User, room: string): User {
    u.(status := Busy, currentChat := Some(room))
  }

  function Released(u: User): User {
    u.(status := Available, currentChat := None)
  }

  function HobbySet(hobbies: seq<string>): set<string> {
    set h | h in hobbies
  }

  /** `len(set(a) & set(b))`: the shared hobbies, each counted once. */
  function CommonHobbies(a: seq<string>, b: seq<string>): (n: nat)
    ensures n <= |HobbySet(a)| && n <= |HobbySet(b)|
  {
    var sa, sb := HobbySet(a), HobbySet(b);
    assert sa == (sa * sb) + (sa - sb);
    assert sb == (sa * sb) + (sb - sa);
    |sa * sb|
  }

  /**
   * The overlap counts the hobbies both lists name, each once: it does not
   * depend on the order of the two users, never exceeds either user's
   * distinct hobbies, and is 0 exactly when no hobby is shared.
   */
  lemma CommonHobbiesFacts(a: seq<string>, b: seq<string>)
    ensures CommonHobbies(a, b) == CommonHobbies(b, a)
    ensures CommonHobbies(a, b) <= |HobbySet(a)| && CommonHobbies(a, b) <= |HobbySet(b)|
    ensures CommonHobbies(a, b) == 0 <==> forall h :: h in a ==> h !in b
  {
    var sa, sb := HobbySet(a), HobbySet(b);
    assert sa * sb == sb * sa;
    assert sa == (sa * sb) + (sa - sb);
    assert sb == (sa * sb) + (sb - sa);
    if exists h :: h in a && h in b {
      var h :| h in a && h in b;
      assert h in sa * sb;
    } else {
      assert sa * sb == {};
    }
  }

  function Ids(pool: seq<Waiting>): seq<string> {
    seq(|pool|, i requires 0 <= i < |pool| => pool[i].userId)
  }

  /** A dictionary has each key once. */
  ghost predicate Distinct(pool: seq<Waiting>) {
    forall i, j :: 0 <= i < j < |pool| ==> pool[i].userId != pool[j].userId
  }

  /** Every record agrees with itself: busy exactly when it names a chat. */
  ghost predicate StatusMatchesChat(users: map<string, User>) {
    forall id :: id in users ==> (users[id].status == Busy <==> users[id].currentChat.Some?)
  }

  /** Every waiting user is a registered user who is not busy, and waits once. */
  ghost predicate PoolConsistent(users: map<string, User>, pool: seq<Waiting>) {
    && Distinct(pool)
    && forall i :: 0 <= i < |pool| ==> pool[i].userId in users && users[pool[i].userId].status == Available
  }

  /** `del waiting_pool[id]`: the pool without `id`'s entry, in the same order. */
  function Without(pool: seq<Waiting>, id: string): (r: seq<Waiting>)
    ensures forall w :: w in r <==> w in pool && w.userId != id
    ensures id !in Ids(r)
    ensures Distinct(pool) ==> Distinct(r)
  {
    if pool == [] then []
    else
      var rest := Without(pool[1..], id);
      assert pool == [pool[0]] + pool[1..];
      if pool[0].userId == id then rest else [pool[0]] + rest
  }

  /** Removal works entry by entry: the pool order of what remains is the pool order before. */
  lemma {:induction false} WithoutConcat(p: seq<Waiting>, q: seq<Waiting>, id: string)
    ensures Without(p + q, id) == Without(p, id) + Without(q, id)
  {
    if p == [] {
      assert p + q == q;
    } else {
      assert (p + q)[0] == p[0] && (p + q)[1..] == p[1..] + q;
      WithoutConcat(p[1..], q, id);
    }
  }

  /** One entry is dropped exactly when it is the removed user's. */
  lemma WithoutSingle(w: Waiting, id: string)
    ensures Without([w], id) == if w.userId == id then [] else [w]
  {
    assert [w][1..] == [];
  }

  /** The room's stored log, or the empty list a first message creates. */
  function RoomLog(chats: map<string, seq<Message>>, roomId: string): seq<Message> {
    if roomId in chats then chats[roomId] else []
  }

  /**
   * The matching loop's state after it has visited `pool` in order: an entry
   * other than the requester replaces the best so far only with a strictly
   * larger hobby overlap. The result is the earliest entry of strictly
   * maximal overlap, and there is none when every overlap is 0.
   */
  function BestMatch(pool: seq<Waiting>, userId: string, hobbies: seq<string>): (c: Choice)
    ensures c.best.None? <==> c.common == 0
    ensures c.best.Some? ==>
              && c.best.value < |pool|
              && pool[c.best.value].userId != userId
              && CommonHobbies(hobbies, pool[c.best.value].record.hobbies) == c.common
    decreases |pool|
  {
    if pool == [] then Choice(None, 0)
    else
      var n := |pool| - 1;
      var prev := BestMatch(pool[..n], userId, hobbies);
      var common := CommonHobbies(hobbies, pool[n].record.hobbies);
      if pool[n].userId != userId && common > prev.common then Choice(Some(n), common) else prev
  }

  /** No entry other than the requester shares more hobbies than the choice. */
  lemma {:induction false} BestMatchIsMaximum(pool: seq<Waiting>, userId: string, hobbies: seq<string>)
    ensures forall j :: 0 <= j < |pool| && pool[j].userId != userId ==>
              CommonHobbies(hobbies, pool[j].record.hobbies) <= BestMatch(pool, userId, hobbies).common
    decreases |pool|
  {
    if pool != [] {
      var n := |pool| - 1;
      var prev := BestMatch(pool[..n], userId, hobbies);
      var c := BestMatch(pool, userId, hobbies);
      assert prev.common <= c.common;
      BestMatchIsMaximum(pool[..n], userId, hobbies);
      forall j | 0 <= j < n && pool[j].userId != userId
        ensures CommonHobbies(hobbies, pool[j].record.hobbies) <= c.common
      {
        assert pool[..n][j] == pool[j];
      }
    }
  }

  /** Every entry before the choice, other than the requester, shares fewer hobbies: the choice is the earliest maximum. */
  lemma {:induction false} BestMatchIsEarliest(pool: seq<Waiting>, userId: string, hobbies: seq<string>)
    ensures var c := BestMatch(pool, userId, hobbies);
            c.best.Some? ==>
              forall j :: 0 <= j < c.best.value && pool[j].userId != userId ==>
                CommonHobbies(hobbies, pool[j].record.hobbies) < c.common
    decreases |pool|
  {
    if pool != [] {
      var n := |pool| - 1;
      var prev := BestMatch(pool[..n], userId, hobbies);
      var c := BestMatch(pool, userId, hobbies);
      if c == prev {
        BestMatchIsEarliest(pool[..n], userId, hobbies);
        if c.best.Some? {
          forall j | 0 <= j < c.best.value && pool[j].userId != userId
            ensures CommonHobbies(hobbies, pool[j].record.hobbies) < c.common
          {
            assert pool[..n][j] == pool[j];
          }
        }
      } else {
        BestMatchIsMaximum(pool[..n], userId, hobbies);
        forall j | 0 <= j < n && pool[j].userId != userId
          ensures CommonHobbies(hobbies, pool[j].record.hobbies) < c.common
        {
          assert pool[..n][j] == pool[j];
        }
      }
    }
  }

  /** The loop of `request_chat` over `waiting_pool.items()`. */
  method FindBestMatch(pool: seq<Waiting>, userId: string, hobbies: seq<string>) returns (best: Option<nat>, maxCommon: nat)
    ensures Choice(best, maxCommon) == BestMatch(pool, userId, hobbies)
  {
    best, maxCommon := None, 0;
    for i := 0 to |pool|
      invariant Choice(best, maxCommon) == BestMatch(pool[..i], userId, hobbies)
    {
      assert pool[..i + 1][..i] == pool[..i];
      if pool[i].userId != userId {
        var common := CommonHobbies(hobbies, pool[i].record.hobbies);
        if common > maxCommon {
          maxCommon := common;
          best := Some(i);
        }
      }
    }
    assert pool[..|pool|] == pool;
  }

  /** The four guards of `request_chat`, in order; `None` lets the request through. */
  function Refusal(users: map<string, User>, pool: seq<Waiting>, userId: string): (r: Option<ApiError>)
    ensures r.None? <==> userId != "" && userId in users && users[userId].status != Busy && userId !in Ids(pool)
    ensures r == Some(UserIdMissing) <==> userId == ""
    ensures r == Some(UserNotFound) <==> userId != "" && userId !in users
    ensures r == Some(AlreadyInChat) <==> userId != "" && userId in users && users[userId].status == Busy
    ensures r == Some(AlreadyWaiting) <==>
              userId != "" && userId in users && users[userId].status != Busy && userId in Ids(pool)
  {
    if userId == "" then Some(UserIdMissing)
    else if userId !in users then Some(UserNotFound)
    else if users[userId].status == Busy then Some(AlreadyInChat)
    else if userId in Ids(pool) then Some(AlreadyWaiting)
    else None
  }

  /** A user who is waiting is refused with "already waiting": a waiting user's re-request never matches. */
  lemma WaitingUserIsRefused(users: map<string, User>, pool: seq<Waiting>, userId: string)
    requires PoolConsistent(users, pool)
    requires userId != "" && userId in Ids(pool)
    ensures Refusal(users, pool, userId) == Some(AlreadyWaiting)
  {
    var i :| 0 <= i < |pool| && Ids(pool)[i] == userId;
    assert users[pool[i].userId].status == Available;
  }

  /**
   * Engaging the requester and a waiting partner, and taking the partner out
   * of the pool, keeps the records and the pool consistent.
   */
  lemma MatchKeepsStoresConsistent(users: map<string, User>, pool: seq<Waiting>, userId: string, partner: string, roomId: string)
    requires StatusMatchesChat(users) && PoolConsistent(users, pool)
    requires userId in users && userId !in Ids(pool) && partner in users
    ensures var engaged := users[userId := Engaged(users[userId], roomId)][partner := Engaged(users[partner], roomId)];
            StatusMatchesChat(engaged) && PoolConsistent(engaged, Without(pool, partner))
  {
    var engaged := users[userId := Engaged(users[userId], roomId)][partner := Engaged(users[partner], roomId)];
    var rest := Without(pool, partner);
    forall i | 0 <= i < |rest|
      ensures rest[i].userId in engaged && engaged[rest[i].userId].status == Available
    {
      assert rest[i] in pool;
      var j :| 0 <= j < |pool| && pool[j] == rest[i];
      assert Ids(pool)[j] != userId;
    }
  }

  /** Adding a registered, available user who is not yet waiting keeps the pool consistent. */
  lemma EnqueueKeepsPoolConsistent(users: map<string, User>, pool: seq<Waiting>, userId: string)
    requires PoolConsistent(users, pool)
    requires userId in users && users[userId].status == Available && userId !in Ids(pool)
    ensures PoolConsistent(users, pool + [Waiting(userId, users[userId])])
  {
    forall i | 0 <= i < |pool|
      ensures pool[i].userId != userId
    {
      assert Ids(pool)[i] == pool[i].userId;
    }
  }

  /** Making some users available, and changing nothing else, keeps the records and the pool consistent. */
  lemma ReleasingKeepsStoresConsistent(users: map<string, User>, pool: seq<Waiting>, after: map<string, User>)
    requires StatusMatchesChat(users) && PoolConsistent(users, pool)
    requires after.Keys == users.Keys
    requires forall id :: id in users ==> after[id] == users[id] || after[id] == Released(users[id])
    ensures StatusMatchesChat(after) && PoolConsistent(after, pool)
  {
  }

  /** The decimal text of a number, as `str()` writes it. */
  function DecimalString(n: nat): (s: string)
    ensures |s| >= 1
  {
    if n < 10 then [(48 + n) as char] else DecimalString(n / 10) + [(48 + n % 10) as char]
  }

  /** `verify_code`'s verdict on the stored codes at time `now`. */
  function CodeVerdict(codes: map<string, (string, real)>, email: string, code: string, now: real): (r: Result<(), ApiError>)
    ensures r.Success? <==> email != "" && code != "" && email in codes && now <= codes[email].1 && code == codes[email].0
    ensures r == Failure(CodeNotFound) <==> email != "" && code != "" && email !in codes
    ensures r == Failure(CodeExpired) <==> email != "" && code != "" && email in codes && now > codes[email].1
  {
    if email == "" || code == "" then Failure(CodeFieldsMissing)
    else if email !in codes then Failure(CodeNotFound)
    else if now > codes[email].1 then Failure(CodeExpired)
    else if code != codes[email].0 then Failure(CodeWrong)
    else Success(())
  }

  /** A code issued at `issuedAt` is accepted exactly until 300 seconds later. */
  lemma IssuedCodeVerifiesWithinWindow(codes: map<string, (string, real)>, email: string, n: nat, issuedAt: real, now: real)
    requires email != ""
    ensures var issued := codes[email := (DecimalString(n), issuedAt + 300.0)];
            CodeVerdict(issued, email, DecimalString(n), now).Success? <==> now <= issuedAt + 300.0
  {
  }

  /** `/api/login` */
  function Login(users: map<string, User>, email: string, password: string): (r: Result<LoginReply, ApiError>)
    ensures r.Success? <==> email in users && users[email].password == password
    ensures r.Success? ==> r.value == LoginReply(email, users[email].hobbies)
    ensures r.Failure? ==> r.error == BadCredentials && StatusCode(r.error) == 401
  {
    if email !in users || users[email].password != password then Failure(BadCredentials)
    else Success(LoginReply(email, users[email].hobbies))
  }

  /** `/api/chat/check-active` */
  function CheckActiveChat(users: map<string, User>, userId: string): (r: Result<bool, ApiError>)
    ensures r.Failure? <==> userId == ""
    ensures r == Success(true) <==>
              userId != "" && userId in users && users[userId].status == Busy && users[userId].currentChat.Some?
  {
    if userId == "" then Failure(UserIdMissing)
    else if userId !in users then Success(false)
    else Success(users[userId].status == Busy && users[userId].currentChat.Some?)
  }

  /** `/api/chat/get-room` */
  function GetUserRoom(users: map<string, User>, userId: string): (r: Result<Option<string>, ApiError>)
    ensures r.Failure? <==> userId == ""
    ensures r.Success? ==> r.value == if userId in users then users[userId].currentChat else None
  {
    if userId == "" then Failure(UserIdMissing)
    else if userId !in users then Success(None)
    else Success(users[userId].currentChat)
  }

  /** On records the endpoints wrote, the two probes agree: active exactly when a room comes back. */
  lemma ProbesAgree(users: map<string, User>, userId: string)
    requires StatusMatchesChat(users)
    ensures CheckActiveChat(users, userId) == Success(true) <==>
            GetUserRoom(users, userId).Success? && GetUserRoom(users, userId).value.Some?
  {
    if userId != "" && userId in users {
      assert users[userId].status == Busy <==> users[userId].currentChat.Some?;
    }
  }

  /** The comprehension of `get_room_messages`: the messages newer than `since`, in stored order. */
  function Since(msgs: seq<Message>, since: real): (r: seq<Message>)
    ensures |r| <= |msgs|
    ensures forall i :: 0 <= i < |r| ==> r[i].timestamp > since
    ensures forall m :: m in r <==> m in msgs && m.timestamp > since
  {
    if msgs == [] then []
    else (if msgs[0].timestamp > since then [msgs[0]] else []) + Since(msgs[1..], since)
  }

  lemma {:induction false} SinceConcat(a: seq<Message>, b: seq<Message>, since: real)
    ensures Since(a + b, since) == Since(a, since) + Since(b, since)
  {
    if a == [] {
      assert a + b == b;
    } else {
      assert (a + b)[0] == a[0] && (a + b)[1..] == a[1..] + b;
      SinceConcat(a[1..], b, since);
    }
  }

  /** A log all newer than `since` passes whole. */
  lemma {:induction false} SinceKeepsNewer(msgs: seq<Message>, since: real)
    requires forall i :: 0 <= i < |msgs| ==> msgs[i].timestamp > since
    ensures Since(msgs, since) == msgs
  {
    if msgs != [] {
      SinceKeepsNewer(msgs[1..], since);
    }
  }

  /** A log none newer than `since` gives nothing. */
  lemma {:induction false} SinceDropsOlder(msgs: seq<Message>, since: real)
    requires forall i :: 0 <= i < |msgs| ==> msgs[i].timestamp <= since
    ensures Since(msgs, since) == []
  {
    if msgs != [] {
      SinceDropsOlder(msgs[1..], since);
    }
  }

  /** `/api/chat/messages/{room_id}?since=` */
  function GetRoomMessages(chats: map<string, seq<Message>>, roomId: string, since: real): (r: seq<Message>)
    ensures roomId !in chats ==> r == []
    ensures since <= 0.0 ==> r == RoomLog(chats, roomId)
    ensures since > 0.0 ==> forall m :: m in r <==> m in RoomLog(chats, roomId) && m.timestamp > since
    ensures since > 0.0 ==> r == Since(RoomLog(chats, roomId), since)
  {
    if roomId !in chats then []
    else if since > 0.0 then Since(chats[roomId], since)
    else chats[roomId]
  }

  /**
   * After a message is sent at `now`, a fetch with a `since` it is newer
   * than (or with no `since`) returns what it returned before plus that
   * message at the end; other rooms' fetches are unchanged.
   */
  lemma SendThenFetch(chats: map<string, seq<Message>>, roomId: string, m: Message, since: real, other: string)
    requires since <= 0.0 || m.timestamp > since
    requires other != roomId
    ensures var sent := chats[roomId := RoomLog(chats, roomId) + [m]];
            && GetRoomMessages(sent, roomId, since) == GetRoomMessages(chats, roomId, since) + [m]
            && GetRoomMessages(sent, other, since) == GetRoomMessages(chats, other, since)
  {
    if since > 0.0 {
      SinceConcat(RoomLog(chats, roomId), [m], since);
      SinceKeepsNewer([m], since);
    }
  }

  lemma RegisteredUserLogsIn(users: map<string, User>, email: string, password: string, hobbies: seq<string>)
    requires email !in users
    ensures Login(users[email := User(password, hobbies, Available, None)], email, password)
            == Success(LoginReply(email, hobbies))
  {
  }

  /** The module-level stores of the backend and the users file. */
  class Server {
    var users: map<string, User>
    var waitingPool: seq<Waiting>
    var activeChats: map<string, seq<string>>
    var chatMessages: map<string, seq<Message>>
    var verificationCodes: map<string, (string, real)>

    ghost predicate Valid()
      reads this
    {
      StatusMatchesChat(users) && PoolConsistent(users, waitingPool)
    }

    /** Start-up: the users file and the messages file as loaded; the other stores are empty. */
    constructor (savedUsers: map<string, User>, savedMessages: map<string, seq<Message>>)
      requires StatusMatchesChat(savedUsers)
      ensures Valid()
      ensures users == savedUsers && chatMessages == savedMessages
      ensures waitingPool == [] && activeChats == map[] && verificationCodes == map[]
    {
      users := savedUsers;
      chatMessages := savedMessages;
      waitingPool := [];
      activeChats := map[];
      verificationCodes := map[];
    }

    /**
     * `/api/send-verification`: `n` is the random six-digit number, `now`
     * the clock, `emailSent` whether the mail went out. The code is stored
     * for 300 seconds even when the mail fails.
     */
    method SendVerification(email: string, n: nat, now: real, emailSent: bool) returns (r: Result<(), ApiError>)
      requires Valid()
      requires 100000 <= n <= 999999
      modifies this
      ensures Valid()
      ensures email == "" ==> r == Failure(EmailMissing) && verificationCodes == old(verificationCodes)
      ensures email != "" ==>
                && verificationCodes == old(verificationCodes)[email := (DecimalString(n), now + 300.0)]
                && r == (if emailSent then Success(()) else Failure(EmailNotSent))
                && (r.Failure? ==> StatusCode(r.error) == 500)
      ensures users == old(users) && waitingPool == old(waitingPool)
      ensures activeChats == old(activeChats) && chatMessages == old(chatMessages)
    {
      if email == "" {
        return Failure(EmailMissing);
      }
      verificationCodes := verificationCodes[email := (DecimalString(n), now + 300.0)];
      r := if emailSent then Success(()) else Failure(EmailNotSent);
    }

    /** `/api/verify-code`: an expired entry is deleted; a matching code is not consumed. */
    method VerifyCode(email: string, code: string, now: real) returns (r: Result<(), ApiError>)
      requires Valid()
      modifies this
      ensures Valid()
      ensures r == CodeVerdict(old(verificationCodes), email, code, now)
      ensures verificationCodes ==
                if r == Failure(CodeExpired) then old(verificationCodes) - {email} else old(verificationCodes)
      ensures users == old(users) && waitingPool == old(waitingPool)
      ensures activeChats == old(activeChats) && chatMessages == old(chatMessages)
    {
      r := CodeVerdict(verificationCodes, email, code, now);
      if r == Failure(CodeExpired) {
        verificationCodes := verificationCodes - {email};
      }
    }

    /** `/api/register` */
    method RegisterUser(email: string, password: string, hobbies: seq<string>) returns (r: Result<(), ApiError>)
      requires Valid()
      modifies this
      ensures Valid()
      ensures email in old(users) ==> r == Failure(AlreadyRegistered) && users == old(users)
      ensures email !in old(users) ==>
                r == Success(()) && users == old(users)[email := User(password, hobbies, Available, None)]
      ensures waitingPool == old(waitingPool) && activeChats == old(activeChats)
      ensures chatMessages == old(chatMessages) && verificationCodes == old(verificationCodes)
    {
      if email in users {
        return Failure(AlreadyRegistered);
      }
      users := users[email := User(password, hobbies, Available, None)];
      r := Success(());
    }

    /**
     * `/api/chat/request`, with `roomId` standing for the
     * `room_<time>_<random>` name the source makes up, which is never empty.
     */
    method RequestChat(userId: string, roomId: string) returns (r: Result<ChatReply, ApiError>)
      requires Valid()
      requires roomId != ""
      modifies this
      ensures Valid()
      ensures old(Refusal(users, waitingPool, userId)).Some? ==>
                && r == Failure(old(Refusal(users, waitingPool, userId)).value)
                && users == old(users) && waitingPool == old(waitingPool) && activeChats == old(activeChats)
      ensures old(Refusal(users, waitingPool, userId)).None? ==>
                var requester := old(users)[userId];
                var choice := BestMatch(old(waitingPool), userId, requester.hobbies);
                && (choice.best.None? ==>
                      && r == Success(WaitingForMatch)
                      && users == old(users)
                      && waitingPool == old(waitingPool) + [Waiting(userId, requester)]
                      && activeChats == old(activeChats))
                && (choice.best.Some? ==>
                      var partner := old(waitingPool)[choice.best.value].userId;
                      && partner != userId && partner in old(users)
                      && old(users)[partner].status == Available
                      && r == Success(Matched(roomId, choice.common))
                      && users == old(users)[userId := Engaged(requester, roomId)]
                                            [partner := Engaged(old(users)[partner], roomId)]
                      && waitingPool == Without(old(waitingPool), partner)
                      && activeChats == old(activeChats)[roomId := [userId, partner]])
      ensures chatMessages == old(chatMessages) && verificationCodes == old(verificationCodes)
    {
      var refusal := Refusal(users, waitingPool, userId);
      if refusal.Some? {
        return Failure(refusal.value);
      }
      var requester := users[userId];
      var best, maxCommon := FindBestMatch(waitingPool, userId, requester.hobbies);
      if best.Some? && maxCommon > 0 {
        var partner := waitingPool[best.value].userId;
        assert partner in users && users[partner].status == Available;
        MatchWith(userId, partner, roomId);
        r := Success(Matched(roomId, maxCommon));
      } else {
        Enqueue(userId);
        r := Success(WaitingForMatch);
      }
    }

    /** The store updates of a match: both users busy in `roomId`, the partner out of the pool, the room recorded. */
    method MatchWith(userId: string, partner: string, roomId: string)
      requires Valid()
      requires roomId != ""
      requires userId in users && userId !in Ids(waitingPool) && partner in users
      modifies this
      ensures Valid()
      ensures users == old(users)[userId := Engaged(old(users)[userId], roomId)][partner := Engaged(old(users)[partner], roomId)]
      ensures waitingPool == Without(old(waitingPool), partner)
      ensures activeChats == old(activeChats)[roomId := [userId, partner]]
      ensures chatMessages == old(chatMessages) && verificationCodes == old(verificationCodes)
    {
      MatchKeepsStoresConsistent(users, waitingPool, userId, partner, roomId);
      users := users[userId := Engaged(users[userId], roomId)][partner := Engaged(users[partner], roomId)];
      waitingPool := Without(waitingPool, partner);
      activeChats := activeChats[roomId := [userId, partner]];
    }

    /** `waiting_pool[user_id] = requester`: an available user who is not waiting joins the end of the pool. */
    method Enqueue(userId: string)
      requires Valid()
      requires userId in users && users[userId].status == Available && userId !in Ids(waitingPool)
      modifies this
      ensures Valid()
      ensures waitingPool == old(waitingPool) + [Waiting(userId, old(users)[userId])]
      ensures users == old(users) && activeChats == old(activeChats)
      ensures chatMessages == old(chatMessages) && verificationCodes == old(verificationCodes)
    {
      EnqueueKeepsPoolConsistent(users, waitingPool, userId);
      waitingPool := waitingPool + [Waiting(userId, users[userId])];
    }

    /**
     * `/api/chat/end`: the caller becomes available; when the room is
     * active it is closed and every other participant becomes available.
     */
    method EndChat(roomId: string, userId: string) returns (r: Result<(), ApiError>)
      requires Valid()
      modifies this
      ensures Valid()
      ensures roomId == "" || userId == "" ==>
                r == Failure(RoomOrUserMissing) && users == old(users) && activeChats == old(activeChats)
      ensures roomId != "" && userId != "" ==>
                && r == Success(())
                && activeChats == old(activeChats) - {roomId}
                && users.Keys == old(users).Keys
                && forall id :: id in old(users) ==>
                     users[id] == if id == userId || (roomId in old(activeChats) && id in old(activeChats)[roomId])
                                  then Released(old(users)[id]) else old(users)[id]
      ensures waitingPool == old(waitingPool)
      ensures chatMessages == old(chatMessages) && verificationCodes == old(verificationCodes)
    {
      if roomId == "" || userId == "" {
        return Failure(RoomOrUserMissing);
      }
      if userId in users {
        users := users[userId := Released(users[userId])];
      }
      if roomId in activeChats {
        var participants := activeChats[roomId];
        activeChats := activeChats - {roomId};
        ReleaseOthers(participants, userId);
      } else {
        assert activeChats == old(activeChats) - {roomId};
      }
      ReleasingKeepsStoresConsistent(old(users), waitingPool, users);
      r := Success(());
    }

    /** The loop of `end_chat` over the room's participants: each registered one other than the caller becomes available. */
    method ReleaseOthers(participants: seq<string>, userId: string)
      modifies this
      ensures users.Keys == old(users).Keys
      ensures forall id :: id in old(users) ==>
                users[id] == if id != userId && id in participants then Released(old(users)[id]) else old(users)[id]
      ensures waitingPool == old(waitingPool) && activeChats == old(activeChats)
      ensures chatMessages == old(chatMessages) && verificationCodes == old(verificationCodes)
    {
      for i := 0 to |participants|
        invariant users.Keys == old(users).Keys
        invariant waitingPool == old(waitingPool) && activeChats == old(activeChats)
        invariant chatMessages == old(chatMessages) && verificationCodes == old(verificationCodes)
        invariant forall id :: id in old(users) ==>
                    users[id] == if id != userId && id in participants[..i] then Released(old(users)[id]) else old(users)[id]
      {
        assert participants[..i + 1] == participants[..i] + [participants[i]];
        var p := participants[i];
        if p in users && p != userId {
          users := users[p := Released(users[p])];
        }
      }
      assert participants[..|participants|] == participants;
    }

    /** `/api/chat/cancel` */
    method CancelChatRequest(userId: string) returns (r: Result<(), ApiError>)
      requires Valid()
      modifies this
      ensures Valid()
      ensures userId == "" ==> r == Failure(UserIdMissing) && waitingPool == old(waitingPool)
      ensures userId != "" && userId in Ids(old(waitingPool)) ==>
                r == Success(()) && waitingPool == Without(old(waitingPool), userId)
      ensures userId != "" && userId !in Ids(old(waitingPool)) ==>
                r == Failure(NoPendingRequest) && waitingPool == old(waitingPool)
      ensures users == old(users) && activeChats == old(activeChats)
      ensures chatMessages == old(chatMessages) && verificationCodes == old(verificationCodes)
    {
      if userId == "" {
        return Failure(UserIdMissing);
      }
      if userId in Ids(waitingPool) {
        ghost var before := waitingPool;
        waitingPool := Without(waitingPool, userId);
        forall i | 0 <= i < |waitingPool|
          ensures waitingPool[i].userId in users && users[waitingPool[i].userId].status == Available
        {
          assert waitingPool[i] in before;
          var j :| 0 <= j < |before| && before[j] == waitingPool[i];
        }
        r := Success(());
      } else {
        r := Failure(NoPendingRequest);
      }
    }

    /** `/api/chat/send-message`: appends one message stamped `now` to the room's log. */
    method SendMessage(roomId: string, sender: string, text: string, now: real)
      requires Valid()
      modifies this
      ensures Valid()
      ensures chatMessages == old(chatMessages)[roomId := RoomLog(old(chatMessages), roomId) + [Message(sender, text, now)]]
      ensures users == old(users) && waitingPool == old(waitingPool)
      ensures activeChats == old(activeChats) && verificationCodes == old(verificationCodes)
    {
      if roomId !in chatMessages {
        chatMessages := chatMessages[roomId := []];
      }
      chatMessages := chatMessages[roomId := chatMessages[roomId] + [Message(sender, text, now)]];
    }

    /**
     * The store update of the `leave_room` socket event: the user becomes
     * available only when the room left is their current chat; the room
     * stays in `activeChats`.
     */
    method LeaveRoom(room: string, username: string)
      requires Valid()
      modifies this
      ensures Valid()
      ensures users == if username in old(users) && old(users)[username].currentChat == Some(room)
                       then old(users)[username := Released(old(users)[username])]
                       else old(users)
      ensures waitingPool == old(waitingPool) && activeChats == old(activeChats)
      ensures chatMessages == old(chatMessages) && verificationCodes == old(verificationCodes)
    {
      if username in users && users[username].currentChat == Some(room) {
        users := users[username := Released(users[username])];
      }
    }
  }
}
