/** The browser's chat session (src/contexts/SocketContext.tsx).

    The session is a set of fields that socket event handlers and three user
    actions update: the connection flag, the chat state, the peer's data, the
    match start time, the reconnect delay, the fake-match attempt counter and
    the pending search timeout. `setTimeout` callbacks are explicit pending
    timers that a separate step fires; messages the session emits are appended
    to `sent`. Handlers read the CURRENT field values here (see the stale
    counter lemmas at the end for what the registered closures actually see). */
module ChatClient {
  import opened Common

  const InitialRetryDelay: real := 1000.0
  const MaxRetryDelay: real := 30000.0
  const RetryMultiplier: real := 1.5
  const JitterFactor: real := 0.2
  /** Delay of the search-retry and fake-match retry timers. */
  const MatchSearchTimeoutMs := 10000
  const MaxSearchAttempts := 5
  /** How long `ended` is shown before the session returns to `idle`. */
  const EndedHoldMs := 2000

  /** `ChatState`; `Connecting` is declared by the type but never entered. */
  datatype ChatState = Idle | Requesting | Connecting | Matched | Ended

  datatype PeerData = PeerData(id: Option<string>, country: Option<string>, gender: Option<string>)

  const NoPeer := PeerData(None, None, None)

  /** The options of `find_match`; "" is a filter left out. */
  datatype Filters = Filters(gender: string, country: string)

  const NoFilters := Filters("", "")

  /** Messages the session sends on its socket. */
  datatype Outgoing =
    | FindMatchMsg(filters: Filters)
    | SetupMatchMsg(matchId: string)
    | EndMatchMsg
    | ReportUserMsg(reportedId: string, reason: string)

  /** What a pending timer does when it fires. */
  datatype TimerKind = SearchRetry(filters: Filters) | FakeRetry | ResetToIdle

  /** A pending `setTimeout`: its handle, its callback and the delay it was armed with. */
  datatype Timer = Timer(id: nat, kind: TimerKind, delayMs: nat)

  datatype Session = Session(
    hasSocket: bool,
    connected: bool,
    chatState: ChatState,
    peer: PeerData,
    matchStartTime: Option<int>,
    retryDelay: real,
    searchAttempts: nat,
    searchTimeout: Option<nat>,
    timers: seq<Timer>,
    nextTimer: nat,
    sent: seq<Outgoing>)

  /** The state before the provider's effect creates a socket. */
  const Initial := Session(false, false, Idle, NoPeer, None, InitialRetryDelay, 0, None, [], 0, [])

  function Min(a: real, b: real): real
  {
    if a <= b then a else b
  }

  /** The reconnect backoff: `min(d * 1.5 + jitter, 30000)` with `jitter = draw * 0.2 * d`
      and `draw` the `Math.random()` value in [0, 1). */
  function NextDelay(d: real, draw: real): (r: real)
    requires 0.0 <= draw < 1.0
    ensures r <= MaxRetryDelay
    ensures d >= 0.0 ==> Min(d * RetryMultiplier, MaxRetryDelay) <= r <= Min(d * (RetryMultiplier + JitterFactor), MaxRetryDelay)
  {
    var jitter := draw * JitterFactor * d;
    assert d >= 0.0 ==> 0.0 <= jitter <= JitterFactor * d by {
      if d >= 0.0 {
        assert draw * (JitterFactor * d) <= 1.0 * (JitterFactor * d);
      }
    }
    Min(d * RetryMultiplier + jitter, MaxRetryDelay)
  }

  /** The delay stays within [1000, 30000] under any number of failed connects. */
  lemma BackoffStaysInRange(d: real, draw: real)
    requires 0.0 <= draw < 1.0
    requires InitialRetryDelay <= d <= MaxRetryDelay
    ensures InitialRetryDelay <= NextDelay(d, draw) <= MaxRetryDelay
    ensures d < MaxRetryDelay / RetryMultiplier ==> NextDelay(d, draw) >= d * RetryMultiplier
  {
  }

  // ---------------------------------------------------------------------------
  // Timers

  /** `clearTimeout(id)`: the timer with that id no longer fires. */
  function Cancel(ts: seq<Timer>, id: nat): (r: seq<Timer>)
    ensures forall i :: 0 <= i < |r| ==> r[i].id != id && r[i] in ts
    ensures forall t | t in ts && t.id != id :: t in r
  {
    Filter(ts, (t: Timer) => t.id != id)
  }

  /** `if (searchTimeout) { clearTimeout(searchTimeout); setSearchTimeout(null); }` */
  function ClearSearchTimeout(s: Session): Session
  {
    match s.searchTimeout
    case None => s
    case Some(id) => s.(timers := Cancel(s.timers, id), searchTimeout := None)
  }

  /** `setTimeout(...)`: a new pending timer with a fresh id. */
  function Arm(s: Session, kind: TimerKind, delayMs: nat): Session
  {
    s.(timers := s.timers + [Timer(s.nextTimer, kind, delayMs)], nextTimer := s.nextTimer + 1)
  }

  // ---------------------------------------------------------------------------
  // Socket events (SocketContext.tsx:72-175)

  /** The provider's effect creating the socket once a user is signed in. */
  function OpenStep(s: Session): Session
  {
    s.(hasSocket := true)
  }

  function ConnectStep(s: Session): Session
  {
    s.(connected := true, retryDelay := InitialRetryDelay)
  }

  function ConnectErrorStep(s: Session, draw: real): Session
    requires 0.0 <= draw < 1.0
  {
    s.(connected := false, retryDelay := NextDelay(s.retryDelay, draw))
  }

  function TransportDisconnectStep(s: Session): Session
  {
    ClearSearchTimeout(s).(connected := false, chatState := Idle, peer := NoPeer, matchStartTime := None)
  }

  function MatchReadyStep(s: Session, matchId: string): Session
  {
    s.(sent := s.sent + [SetupMatchMsg(matchId)])
  }

  function MatchFoundStep(s: Session, peerId: string, country: Option<string>, gender: Option<string>, now: int): Session
  {
    ClearSearchTimeout(s).(searchAttempts := 0, chatState := Matched,
                           peer := PeerData(Some(peerId), country, gender), matchStartTime := Some(now))
  }

  /** `fake_match`: keep searching (a retry in 10 s) while under the attempt limit, else settle. */
  function FakeMatchStep(s: Session, gender: string, country: string, now: int): Session
  {
    if s.searchAttempts < MaxSearchAttempts then
      Arm(s, FakeRetry, MatchSearchTimeoutMs).(searchAttempts := s.searchAttempts + 1, searchTimeout := Some(s.nextTimer))
    else
      s.(searchAttempts := 0, chatState := Matched, peer := PeerData(None, Some(country), Some(gender)), matchStartTime := Some(now))
  }

  function MatchEndedStep(s: Session): Session
  {
    Arm(ClearSearchTimeout(s).(chatState := Ended), ResetToIdle, EndedHoldMs)
  }

  function NoMatchesStep(s: Session): Session
  {
    s.(chatState := Requesting)
  }

  // ---------------------------------------------------------------------------
  // User actions (SocketContext.tsx:191-246)

  predicate CanAct(s: Session)
  {
    s.hasSocket && s.connected
  }

  /** `findMatch(options)`; the old timeout is cancelled but the field is simply overwritten. */
  function FindMatchStep(s: Session, filters: Filters): Session
  {
    if CanAct(s) && s.chatState == Idle then
      var s1 := s.(chatState := Requesting, searchAttempts := 0, sent := s.sent + [FindMatchMsg(filters)]);
      var s2 := if s1.searchTimeout.Some? then s1.(timers := Cancel(s1.timers, s1.searchTimeout.value)) else s1;
      Arm(s2, SearchRetry(filters), MatchSearchTimeoutMs).(searchTimeout := Some(s2.nextTimer))
    else s
  }

  function EndMatchStep(s: Session): Session
  {
    if CanAct(s) && (s.chatState == Matched || s.chatState == Requesting) then
      Arm(ClearSearchTimeout(s).(sent := s.sent + [EndMatchMsg], chatState := Ended), ResetToIdle, EndedHoldMs)
    else s
  }

  /** `reportUser(reason)`: only with a (truthy) peer id. */
  function ReportStep(s: Session, reason: string): Session
  {
    if CanAct(s) && s.peer.id.Some? && s.peer.id.value != "" then
      s.(sent := s.sent + [ReportUserMsg(s.peer.id.value, reason)])
    else s
  }

  /** The pending timer at position `k` fires. */
  function FireStep(s: Session, k: nat): Session
    requires k < |s.timers|
  {
    var t := s.timers[k];
    var s1 := s.(timers := s.timers[..k] + s.timers[k + 1..]);
    match t.kind
    case SearchRetry(f) =>
      if s1.chatState == Requesting && s1.searchAttempts < MaxSearchAttempts then
        s1.(sent := s1.sent + [FindMatchMsg(f)], searchAttempts := s1.searchAttempts + 1)
      else s1
    case FakeRetry => s1.(sent := s1.sent + [FindMatchMsg(NoFilters)])
    case ResetToIdle => s1.(chatState := Idle, peer := NoPeer, matchStartTime := None, searchAttempts := 0)
  }

  // ---------------------------------------------------------------------------
  // Invariant and properties

  /** The delay stays in range; `idle` carries no peer and no start time; `matched`
      always has a start time; `connecting` is never entered; timer ids are fresh. */
  predicate ValidSession(s: Session)
  {
    && InitialRetryDelay <= s.retryDelay <= MaxRetryDelay
    && (s.chatState == Idle ==> s.peer == NoPeer && s.matchStartTime.None?)
    && (s.chatState == Matched ==> s.matchStartTime.Some?)
    && s.chatState != Connecting
    && FreshIds(s.timers, s.nextTimer)
  }

  lemma InitialValid()
    ensures ValidSession(Initial)
  {
  }

  predicate FreshIds(ts: seq<Timer>, bound: nat)
  {
    forall i :: 0 <= i < |ts| ==> ts[i].id < bound
  }

  lemma {:induction false} ClearKeepsFresh(s: Session)
    requires FreshIds(s.timers, s.nextTimer)
    ensures FreshIds(ClearSearchTimeout(s).timers, s.nextTimer)
    ensures ClearSearchTimeout(s).nextTimer == s.nextTimer
  {
    if s.searchTimeout.Some? {
      var r := Cancel(s.timers, s.searchTimeout.value);
      forall i | 0 <= i < |r| ensures r[i].id < s.nextTimer {
        var j :| 0 <= j < |s.timers| && s.timers[j] == r[i];
      }
    }
  }

  lemma ConnectionEventsPreserveValid(s: Session, draw: real)
    requires ValidSession(s) && 0.0 <= draw < 1.0
    ensures ValidSession(OpenStep(s)) && ValidSession(ConnectStep(s)) && ValidSession(ConnectErrorStep(s, draw))
    ensures ValidSession(TransportDisconnectStep(s))
  {
    BackoffStaysInRange(s.retryDelay, draw);
    ClearKeepsFresh(s);
  }

  lemma MatchFoundPreservesValid(s: Session, peerId: string, country: Option<string>, gender: Option<string>, now: int)
    requires ValidSession(s)
    ensures ValidSession(MatchFoundStep(s, peerId, country, gender, now))
  {
    ClearKeepsFresh(s);
  }

  lemma MatchEndedPreservesValid(s: Session)
    requires ValidSession(s)
    ensures ValidSession(MatchEndedStep(s))
  {
    ClearKeepsFresh(s);
  }

  lemma FakeMatchPreservesValid(s: Session, fakeGender: string, fakeCountry: string, now: int)
    requires ValidSession(s)
    ensures ValidSession(FakeMatchStep(s, fakeGender, fakeCountry, now))
  {
    if s.searchAttempts < MaxSearchAttempts {
      var r := Arm(s, FakeRetry, MatchSearchTimeoutMs);
      assert forall i :: 0 <= i < |s.timers| ==> r.timers[i] == s.timers[i];
    }
  }

  lemma MatchEventsPreserveValid(s: Session, matchId: string, peerId: string, country: Option<string>, gender: Option<string>,
                                 now: int, fakeGender: string, fakeCountry: string)
    requires ValidSession(s)
    ensures ValidSession(MatchReadyStep(s, matchId))
    ensures ValidSession(MatchFoundStep(s, peerId, country, gender, now))
    ensures ValidSession(FakeMatchStep(s, fakeGender, fakeCountry, now))
    ensures ValidSession(MatchEndedStep(s))
  {
    MatchFoundPreservesValid(s, peerId, country, gender, now);
    MatchEndedPreservesValid(s);
    FakeMatchPreservesValid(s, fakeGender, fakeCountry, now);
  }

  lemma ActionsPreserveValid(s: Session, filters: Filters, reason: string)
    requires ValidSession(s)
    ensures ValidSession(FindMatchStep(s, filters)) && ValidSession(EndMatchStep(s)) && ValidSession(ReportStep(s, reason))
  {
    ClearKeepsFresh(s);
    if s.searchTimeout.Some? {
      ClearKeepsFresh(s.(sent := s.sent + [FindMatchMsg(filters)]));
    }
  }

  lemma FireStepValid(s: Session, k: nat)
    requires ValidSession(s) && k < |s.timers|
    ensures ValidSession(FireStep(s, k))
  {
    var r := s.timers[..k] + s.timers[k + 1..];
    forall i | 0 <= i < |r| ensures r[i].id < s.nextTimer {
      if i < k { assert r[i] == s.timers[i]; } else { assert r[i] == s.timers[i + 1]; }
    }
  }

  /** `findMatch` acts only with a connected socket in `idle`; it then requests, resets the
      counter, sends the filters and arms exactly one retry timer, recorded as the search timeout. */
  lemma FindMatchOnlyFromIdle(s: Session, filters: Filters)
    ensures var s' := FindMatchStep(s, filters);
      && (!(CanAct(s) && s.chatState == Idle) ==> s' == s)
      && (CanAct(s) && s.chatState == Idle ==>
            && s'.chatState == Requesting && s'.searchAttempts == 0
            && s'.sent == s.sent + [FindMatchMsg(filters)]
            && s'.searchTimeout == Some(s.nextTimer)
            && s'.timers[|s'.timers| - 1] == Timer(s.nextTimer, SearchRetry(filters), MatchSearchTimeoutMs))
  {
  }

  /** `match_found` enters `matched` with the peer's data and a start time, resets the
      counter, and the search timeout that was pending no longer fires. */
  lemma MatchFoundSettles(s: Session, peerId: string, country: Option<string>, gender: Option<string>, now: int)
    ensures var s' := MatchFoundStep(s, peerId, country, gender, now);
      && s'.chatState == Matched && s'.searchAttempts == 0 && s'.searchTimeout.None?
      && s'.peer == PeerData(Some(peerId), country, gender) && s'.matchStartTime == Some(now)
      && (s.searchTimeout.Some? ==> forall i :: 0 <= i < |s'.timers| ==> s'.timers[i].id != s.searchTimeout.value)
  {
  }

  /** The 2000 ms timer armed by `endMatch` (or by `match_ended`) is the last pending timer;
      when it fires the session is `idle` with no peer, no start time and a zero counter. */
  lemma EndThenResetIsIdle(s: Session, remote: bool)
    requires remote || (CanAct(s) && (s.chatState == Matched || s.chatState == Requesting))
    ensures var s1 := if remote then MatchEndedStep(s) else EndMatchStep(s);
      && s1.chatState == Ended
      && (!remote ==> s1.sent == s.sent + [EndMatchMsg])
      && |s1.timers| > 0 && s1.timers[|s1.timers| - 1].kind == ResetToIdle
      && s1.timers[|s1.timers| - 1].delayMs == EndedHoldMs
      && var s2 := FireStep(s1, |s1.timers| - 1);
         s2.chatState == Idle && s2.peer == NoPeer && s2.matchStartTime.None? && s2.searchAttempts == 0
  {
  }

  /** `endMatch` outside `matched`/`requesting`, or without a connected socket, changes nothing. */
  lemma EndMatchGuard(s: Session)
    requires !(CanAct(s) && (s.chatState == Matched || s.chatState == Requesting))
    ensures EndMatchStep(s) == s
  {
  }

  /** A transport disconnect from any state leaves the session idle and empty. */
  lemma DisconnectResets(s: Session)
    ensures var s' := TransportDisconnectStep(s);
      && !s'.connected && s'.chatState == Idle && s'.peer == NoPeer && s'.matchStartTime.None? && s'.searchTimeout.None?
      && s'.sent == s.sent
  {
  }

  /** `reportUser` sends exactly when the socket is connected and the peer has a truthy id,
      names that peer and changes nothing else; otherwise it changes nothing at all. */
  lemma ReportNeedsPeer(s: Session, reason: string)
    ensures var s' := ReportStep(s, reason);
      && (CanAct(s) && s.peer.id.Some? && s.peer.id.value != "" ==>
            s' == s.(sent := s.sent + [ReportUserMsg(s.peer.id.value, reason)]))
      && (!(CanAct(s) && s.peer.id.Some? && s.peer.id.value != "") ==> s' == s)
  {
  }

  // ---------------------------------------------------------------------------
  // The fake-match tolerance

  /** `n` fake matches in a row. */
  function FakeMatches(s: Session, n: nat, gender: string, country: string, now: int): Session
    decreases n
  {
    if n == 0 then s else FakeMatches(FakeMatchStep(s, gender, country, now), n - 1, gender, country, now)
  }

  /** With the live counter, each fake match below the limit only arms a retry: after `n` of
      them the session holds `n` new `FakeRetry` timers with fresh ids, each armed for
      MatchSearchTimeoutMs, the last of them recorded as the search timeout, and nothing was sent. */
  lemma {:induction false} FakeToleranceCounts(s: Session, n: nat, gender: string, country: string, now: int)
    requires s.searchAttempts + n <= MaxSearchAttempts
    ensures var s' := FakeMatches(s, n, gender, country, now);
      && s'.searchAttempts == s.searchAttempts + n
      && s'.chatState == s.chatState && s'.peer == s.peer && s'.sent == s.sent
      && s'.timers == s.timers + seq(n, i requires 0 <= i < n => Timer(s.nextTimer + i, FakeRetry, MatchSearchTimeoutMs))
      && s'.nextTimer == s.nextTimer + n
      && (n > 0 ==> s'.searchTimeout == Some(s.nextTimer + n - 1))
    decreases n
  {
    if n > 0 {
      var s1 := FakeMatchStep(s, gender, country, now);
      FakeToleranceCounts(s1, n - 1, gender, country, now);
      var added := seq(n, i requires 0 <= i < n => Timer(s.nextTimer + i, FakeRetry, MatchSearchTimeoutMs));
      var rest := seq(n - 1, i requires 0 <= i < n - 1 => Timer(s1.nextTimer + i, FakeRetry, MatchSearchTimeoutMs));
      assert added == [Timer(s.nextTimer, FakeRetry, MatchSearchTimeoutMs)] + rest;
    }
  }

  /** Below the limit, a fake match arms one retry for MatchSearchTimeoutMs; when it fires, it
      sends `find_match` without filters and leaves the rest of the session as it was. */
  lemma FakeRetryResends(s: Session, gender: string, country: string, now: int)
    requires s.searchAttempts < MaxSearchAttempts
    ensures var s1 := FakeMatchStep(s, gender, country, now);
      && s1.timers == s.timers + [Timer(s.nextTimer, FakeRetry, MatchSearchTimeoutMs)]
      && s1.searchTimeout == Some(s.nextTimer)
      && s1.searchAttempts == s.searchAttempts + 1
      && FireStep(s1, |s.timers|) == s1.(timers := s.timers, sent := s.sent + [FindMatchMsg(NoFilters)])
  {
    var s1 := FakeMatchStep(s, gender, country, now);
    assert s1.timers[..|s.timers|] == s.timers;
  }

  lemma FakeToleranceSettles(s: Session, gender: string, country: string, now: int)
    requires s.searchAttempts == 0
    ensures var s' := FakeMatches(s, MaxSearchAttempts + 1, gender, country, now);
      && s'.chatState == Matched && s'.searchAttempts == 0
      && s'.peer == PeerData(None, Some(country), Some(gender)) && s'.matchStartTime == Some(now)
  {
    FakeMatchesSplit(s, MaxSearchAttempts, gender, country, now);
    FakeToleranceCounts(s, MaxSearchAttempts, gender, country, now);
  }

  lemma {:induction false} FakeMatchesSplit(s: Session, n: nat, gender: string, country: string, now: int)
    ensures FakeMatches(s, n + 1, gender, country, now) == FakeMatchStep(FakeMatches(s, n, gender, country, now), gender, country, now)
    decreases n
  {
    if n > 0 {
      FakeMatchesSplit(FakeMatchStep(s, gender, country, now), n - 1, gender, country, now);
    }
  }

  /** The `fake_match` handler as registered: it is created once per signed-in user, so its
      test reads the counter `captured` at registration, while its increment is functional. */
  function StaleFakeMatchStep(s: Session, captured: nat, gender: string, country: string, now: int): Session
  {
    if captured < MaxSearchAttempts then
      Arm(s, FakeRetry, MatchSearchTimeoutMs).(searchAttempts := s.searchAttempts + 1, searchTimeout := Some(s.nextTimer))
    else
      s.(searchAttempts := 0, chatState := Matched, peer := PeerData(None, Some(country), Some(gender)), matchStartTime := Some(now))
  }

  function StaleFakeMatches(s: Session, captured: nat, n: nat, gender: string, country: string, now: int): Session
    decreases n
  {
    if n == 0 then s else StaleFakeMatches(StaleFakeMatchStep(s, captured, gender, country, now), captured, n - 1, gender, country, now)
  }

  /** As registered, the handler never settles: after any number of fake matches the state
      is unchanged and the counter has passed the limit. */
  lemma {:induction false} StaleToleranceNeverSettles(s: Session, captured: nat, n: nat, gender: string, country: string, now: int)
    requires captured < MaxSearchAttempts
    ensures var s' := StaleFakeMatches(s, captured, n, gender, country, now);
      && s'.chatState == s.chatState && s'.peer == s.peer
      && s'.searchAttempts == s.searchAttempts + n
      && |s'.timers| == |s.timers| + n
    decreases n
  {
    if n > 0 {
      StaleToleranceNeverSettles(StaleFakeMatchStep(s, captured, gender, country, now), captured, n - 1, gender, country, now);
    }
  }

  /** The search-retry callback as `findMatch` registers it: its test reads the chat state
      and counter captured when `findMatch` ran, not the current ones. */
  function StaleSearchRetryFire(s: Session, captured: ChatState, capturedAttempts: nat, f: Filters): Session
  {
    if captured == Requesting && capturedAttempts < MaxSearchAttempts then
      s.(sent := s.sent + [FindMatchMsg(f)], searchAttempts := s.searchAttempts + 1)
    else s
  }

  /** As registered, the retry never re-sends: `findMatch` acts only in `idle`, so the state
      its timer captured is `idle`, whatever the session has become when the timer fires. */
  lemma StaleSearchRetryNeverResends(s: Session, filters: Filters, later: Session)
    requires CanAct(s) && s.chatState == Idle
    ensures StaleSearchRetryFire(later, s.chatState, s.searchAttempts, filters) == later
  {
  }

  /** Reading the current state instead, a retry that fires while the search is still pending
      sends `find_match` again with the same filters and counts the attempt. */
  lemma SearchRetryResends(s: Session, filters: Filters)
    requires CanAct(s) && s.chatState == Idle
    ensures var s1 := FindMatchStep(s, filters);
      && |s1.timers| > 0 && s1.timers[|s1.timers| - 1].kind == SearchRetry(filters)
      && var s2 := FireStep(s1, |s1.timers| - 1);
         s2.sent == s.sent + [FindMatchMsg(filters), FindMatchMsg(filters)] && s2.searchAttempts == 1
         && s2.chatState == Requesting
  {
  }

  // ---------------------------------------------------------------------------
  // The session object

  class ChatSession {
    var hasSocket: bool
    var connected: bool
    var chatState: ChatState
    var peer: PeerData
    var matchStartTime: Option<int>
    var retryDelay: real
    var searchAttempts: nat
    var searchTimeout: Option<nat>
    var timers: seq<Timer>
    var nextTimer: nat
    var sent: seq<Outgoing>

    function State(): Session
      reads this
    {
      Session(hasSocket, connected, chatState, peer, matchStartTime, retryDelay, searchAttempts, searchTimeout, timers, nextTimer, sent)
    }

    ghost predicate Valid()
      reads this
    {
      ValidSession(State())
    }

    constructor ()
      ensures Valid() && State() == Initial
    {
      hasSocket, connected, chatState, peer, matchStartTime := false, false, Idle, NoPeer, None;
      retryDelay, searchAttempts, searchTimeout, timers, nextTimer, sent := InitialRetryDelay, 0, None, [], 0, [];
    }

    method ClearSearch()
      modifies this
      ensures State() == ClearSearchTimeout(old(State()))
    {
      if searchTimeout.Some? {
        timers := Cancel(timers, searchTimeout.value);
        searchTimeout := None;
      }
    }

    method ArmTimer(kind: TimerKind, delayMs: nat) returns (id: nat)
      modifies this
      ensures id == old(nextTimer)
      ensures State() == Arm(old(State()), kind, delayMs)
    {
      id := nextTimer;
      timers := timers + [Timer(id, kind, delayMs)];
      nextTimer := nextTimer + 1;
    }

    method Open()
      requires Valid()
      modifies this
      ensures Valid() && State() == OpenStep(old(State()))
    {
      hasSocket := true;
    }

    method OnConnect()
      requires Valid()
      modifies this
      ensures Valid() && State() == ConnectStep(old(State()))
    {
      connected := true;
      retryDelay := InitialRetryDelay;
    }

    method OnConnectError(draw: real)
      requires Valid() && 0.0 <= draw < 1.0
      modifies this
      ensures Valid() && State() == ConnectErrorStep(old(State()), draw)
    {
      BackoffStaysInRange(retryDelay, draw);
      connected := false;
      retryDelay := NextDelay(retryDelay, draw);
    }

    method OnDisconnect()
      requires Valid()
      modifies this
      ensures Valid() && State() == TransportDisconnectStep(old(State()))
    {
      ConnectionEventsPreserveValid(State(), 0.0);
      ClearSearch();
      connected := false;
      chatState := Idle;
      peer := NoPeer;
      matchStartTime := None;
    }

    method OnMatchReady(matchId: string)
      requires Valid()
      modifies this
      ensures Valid() && State() == MatchReadyStep(old(State()), matchId)
    {
      sent := sent + [SetupMatchMsg(matchId)];
    }

    method OnMatchFound(peerId: string, country: Option<string>, gender: Option<string>, now: int)
      requires Valid()
      modifies this
      ensures Valid() && State() == MatchFoundStep(old(State()), peerId, country, gender, now)
    {
      MatchFoundPreservesValid(State(), peerId, country, gender, now);
      ClearSearch();
      searchAttempts := 0;
      chatState := Matched;
      peer := PeerData(Some(peerId), country, gender);
      matchStartTime := Some(now);
    }

    method OnFakeMatch(gender: string, country: string, now: int)
      requires Valid()
      modifies this
      ensures Valid() && State() == FakeMatchStep(old(State()), gender, country, now)
    {
      FakeMatchPreservesValid(State(), gender, country, now);
      if searchAttempts < MaxSearchAttempts {
        var attempts := searchAttempts;
        var id := ArmTimer(FakeRetry, MatchSearchTimeoutMs);
        searchAttempts := attempts + 1;
        searchTimeout := Some(id);
      } else {
        searchAttempts := 0;
        chatState := Matched;
        peer := PeerData(None, Some(country), Some(gender));
        matchStartTime := Some(now);
      }
    }

    method OnMatchEnded()
      requires Valid()
      modifies this
      ensures Valid() && State() == MatchEndedStep(old(State()))
    {
      MatchEndedPreservesValid(State());
      ClearSearch();
      chatState := Ended;
      var _ := ArmTimer(ResetToIdle, EndedHoldMs);
    }

    method OnNoMatches()
      requires Valid()
      modifies this
      ensures Valid() && State() == NoMatchesStep(old(State()))
    {
      chatState := Requesting;
    }

    method FindMatch(filters: Filters)
      requires Valid()
      modifies this
      ensures Valid() && State() == FindMatchStep(old(State()), filters)
    {
      ActionsPreserveValid(State(), filters, "");
      if hasSocket && connected && chatState == Idle {
        chatState := Requesting;
        searchAttempts := 0;
        sent := sent + [FindMatchMsg(filters)];
        if searchTimeout.Some? {
          timers := Cancel(timers, searchTimeout.value);
        }
        var id := ArmTimer(SearchRetry(filters), MatchSearchTimeoutMs);
        searchTimeout := Some(id);
      }
    }

    method EndMatch()
      requires Valid()
      modifies this
      ensures Valid() && State() == EndMatchStep(old(State()))
    {
      ActionsPreserveValid(State(), NoFilters, "");
      if hasSocket && connected && (chatState == Matched || chatState == Requesting) {
        ClearSearch();
        sent := sent + [EndMatchMsg];
        chatState := Ended;
        var _ := ArmTimer(ResetToIdle, EndedHoldMs);
      }
    }

    method ReportUser(reason: string)
      requires Valid()
      modifies this
      ensures Valid() && State() == ReportStep(old(State()), reason)
    {
      if hasSocket && connected && peer.id.Some? && peer.id.value != "" {
        sent := sent + [ReportUserMsg(peer.id.value, reason)];
      }
    }

    method Fire(k: nat)
      requires Valid() && k < |timers|
      modifies this
      ensures Valid() && State() == FireStep(old(State()), k)
    {
      FireStepValid(State(), k);
      var t := timers[k];
      timers := timers[..k] + timers[k + 1..];
      match t.kind {
        case SearchRetry(f) =>
          if chatState == Requesting && searchAttempts < MaxSearchAttempts {
            sent := sent + [FindMatchMsg(f)];
            searchAttempts := searchAttempts + 1;
          }
        case FakeRetry =>
          sent := sent + [FindMatchMsg(NoFilters)];
        case ResetToIdle =>
          chatState := Idle;
          peer := NoPeer;
          matchStartTime := None;
          searchAttempts := 0;
      }
    }
  }
}
