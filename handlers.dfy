/** The server's matchmaking and match-lifecycle engine (server/socket/handlers.js).

    The server keeps two in-memory tables: `onlineUsers` (user id to socket id)
    and `searchingUsers` (user id to socket id and preferences, kept in
    insertion order, as a JavaScript `Map` is). The persistent store is an
    abstract directory of `users`, `matches` and `reports` rows. Every socket
    event is one step from a `ServerState` to the next; outbound socket
    messages are appended to an outbox; the 3000 ms filler timer is a pending
    record that a separate step fires. */
module SocketHandlers {
  import opened Common

  type UserId = string
  type SocketId = string

  const BanMessage := "You are banned from using this service"
  const CreateFailedMessage := "Failed to create match"
  /** Delay before a searcher with no partner gets a filler match. */
  const FillerDelayMs := 3000
  const FakeGenders: seq<string> := ["male", "female"]
  const FakeCountries: seq<string> := ["US", "GB", "CA", "DE", "FR", "JP", "IN", "BR"]

  /** Filters sent with `find_match`; "" stands for a field left out (falsy in JavaScript). */
  datatype Prefs = Prefs(gender: string, country: string)

  /** One entry of `searchingUsers`, with its key. */
  datatype Entry = Entry(userId: UserId, socketId: SocketId, prefs: Prefs)

  /** The columns of a `users` row that the handlers read or write. */
  datatype UserRow = UserRow(gender: Option<string>, country: Option<string>, isBanned: bool, isOnline: bool, lastSeen: int)

  /** A `matches` row; times are milliseconds since the epoch, `duration` is in seconds. */
  datatype MatchRow = MatchRow(id: string, peerA: UserId, peerB: Option<UserId>, isFake: bool,
                               startedAt: int, endedAt: Option<int>, duration: Option<int>)

  datatype ReportRow = ReportRow(id: string, reporterId: UserId, reportedId: UserId, matchId: string,
                                 reason: string, resolved: bool)

  /** The abstract directory (the store behind every `supabase.from(...)` call). */
  datatype Directory = Directory(users: map<UserId, UserRow>, matches: seq<MatchRow>, reports: seq<ReportRow>)

  /** Messages the server sends to one socket. `Closed` is the server dropping the socket. */
  datatype Event =
    | MatchReady(matchId: string)
    | MatchFound(matchId: string, peerId: UserId, gender: Option<string>, country: Option<string>)
    | FakeMatch(matchId: string, fakeGender: string, fakeCountry: string)
    | MatchEnded
    | MatchSetupComplete(matchId: string, row: MatchRow)
    | Error(message: string)
    | Signal(from: UserId, payload: string)
    | Closed

  datatype Emission = Emission(to: SocketId, event: Event)

  /** How an awaited insert ends: stored, resolved with an error object (which
      these handlers never inspect), or thrown. */
  datatype InsertOutcome = Inserted | InsertErrored | InsertThrew

  /** A filler timer armed by the pairing step; it captured the searcher's socket and filters. */
  datatype FillerTimer = FillerTimer(userId: UserId, socketId: SocketId, prefs: Prefs)

  datatype ServerState = ServerState(
    online: map<UserId, SocketId>,
    searching: seq<Entry>,
    timers: seq<FillerTimer>,
    db: Directory,
    outbox: seq<Emission>)

  // ---------------------------------------------------------------------------
  // `searchingUsers` as an insertion-ordered map

  /** No user id has two entries. */
  predicate Keyed(q: seq<Entry>)
  {
    forall i, j :: 0 <= i < j < |q| ==> q[i].userId != q[j].userId
  }

  /** Position of the entry for `id`, if any. */
  function Find(q: seq<Entry>, id: UserId): (r: Option<nat>)
    ensures r.Some? ==> r.value < |q| && q[r.value].userId == id
    ensures r.Some? ==> forall j :: 0 <= j < r.value ==> q[j].userId != id
    ensures r.None? <==> forall j :: 0 <= j < |q| ==> q[j].userId != id
  {
    if q == [] then None
    else if q[0].userId == id then Some(0)
    else match Find(q[1..], id)
      case None => None
      case Some(k) => Some(k + 1)
  }

  /** `Map.get`. */
  function Get(q: seq<Entry>, id: UserId): (r: Option<Entry>)
    ensures r.Some? ==> r.value in q && r.value.userId == id
    ensures r.None? ==> forall j :: 0 <= j < |q| ==> q[j].userId != id
  {
    match Find(q, id)
    case None => None
    case Some(k) => Some(q[k])
  }

  /** `Map.set`: an existing key keeps its place and takes the new value; a new key goes last. */
  function Put(q: seq<Entry>, e: Entry): (r: seq<Entry>)
    ensures Keyed(q) ==> Keyed(r)
    ensures e in r && Get(r, e.userId) == Some(e)
    ensures Find(q, e.userId).None? ==> r == q + [e]
    ensures Find(q, e.userId).Some? ==> |r| == |q|
    ensures forall j :: 0 <= j < |q| && q[j].userId != e.userId ==> r[j] == q[j]
  {
    match Find(q, e.userId)
    case None =>
      assert (q + [e])[|q|] == e;
      q + [e]
    case Some(k) =>
      assert q[k := e][k] == e;
      q[k := e]
  }

  /** `Map.delete`. */
  function Delete(q: seq<Entry>, id: UserId): (r: seq<Entry>)
    ensures Keyed(q) ==> Keyed(r)
    ensures Find(r, id).None?
    ensures forall j :: 0 <= j < |r| ==> r[j] in q
    ensures forall j :: 0 <= j < |q| && q[j].userId != id ==> q[j] in r
    ensures IsSubsequence(r, q)
  {
    DeleteKeyed(q, id);
    FilterIsSubsequence(q, (x: Entry) => x.userId != id);
    Filter(q, (x: Entry) => x.userId != id)
  }

  lemma {:induction false} DeleteKeyed(q: seq<Entry>, id: UserId)
    ensures Keyed(q) ==> Keyed(Filter(q, (x: Entry) => x.userId != id))
    decreases |q|
  {
    if q != [] && Keyed(q) {
      var p := (x: Entry) => x.userId != id;
      assert Keyed(q[1..]) by {
        forall i, j | 0 <= i < j < |q[1..]| ensures q[1..][i].userId != q[1..][j].userId {
          assert q[1..][i] == q[i + 1] && q[1..][j] == q[j + 1];
        }
      }
      DeleteKeyed(q[1..], id);
      var rest := Filter(q[1..], p);
      forall j | 0 <= j < |rest| ensures rest[j].userId != q[0].userId {
        var k :| 0 <= k < |q[1..]| && q[1..][k] == rest[j];
        assert q[k + 1] == rest[j];
      }
    }
  }

  /** Deleting an id that has no entry changes nothing. */
  lemma DeleteAbsent(q: seq<Entry>, id: UserId)
    requires Find(q, id).None?
    ensures Delete(q, id) == q
  {
    FilterKeepsAll(q, (x: Entry) => x.userId != id);
  }

  /** Deleting the key of entry `x` removes exactly that entry. */
  lemma {:induction false} DeleteSplits(q: seq<Entry>, x: Entry)
    requires Keyed(q) && x in q
    ensures multiset(Delete(q, x.userId)) + multiset{x} == multiset(q)
    decreases |q|
  {
    var p := (y: Entry) => y.userId != x.userId;
    assert q == [q[0]] + q[1..];
    assert Keyed(q[1..]) by {
      forall i, j | 0 <= i < j < |q[1..]| ensures q[1..][i].userId != q[1..][j].userId {
        assert q[1..][i] == q[i + 1] && q[1..][j] == q[j + 1];
      }
    }
    if q[0].userId == x.userId {
      assert Find(q[1..], x.userId).None? by {
        forall j | 0 <= j < |q[1..]| ensures q[1..][j].userId != x.userId {
          assert q[1..][j] == q[j + 1];
        }
      }
      DeleteAbsent(q[1..], x.userId);
      assert Delete(q, x.userId) == Filter(q[1..], p);
    } else {
      assert x in q[1..];
      DeleteSplits(q[1..], x);
      assert Delete(q, x.userId) == [q[0]] + Filter(q[1..], p);
    }
  }

  // ---------------------------------------------------------------------------
  // Pairing

  function StoredGender(users: map<UserId, UserRow>, id: UserId): Option<string>
  {
    if id in users then users[id].gender else None
  }

  function StoredCountry(users: map<UserId, UserRow>, id: UserId): Option<string>
  {
    if id in users then users[id].country else None
  }

  /** The scan's test of one candidate (handlers.js:199-223): each filter applies
      only when both the searcher and the candidate gave it, and then the
      SEARCHER's stored attribute must equal the CANDIDATE's wish. */
  predicate Compatible(users: map<UserId, UserRow>, searcher: UserId, prefs: Prefs, cand: Entry)
  {
    && (prefs.gender != "" && cand.prefs.gender != "" ==> StoredGender(users, searcher) == Some(cand.prefs.gender))
    && (prefs.country != "" && cand.prefs.country != "" ==> StoredCountry(users, searcher) == Some(cand.prefs.country))
  }

  /** Whether the scan takes entry `c` as the partner of `searcher`. */
  predicate Takes(users: map<UserId, UserRow>, searcher: UserId, prefs: Prefs, c: Entry)
  {
    c.userId != searcher && Compatible(users, searcher, prefs, c)
  }

  /** The first entry at or after `from`, in insertion order, that the scan takes. */
  function FirstCompatible(q: seq<Entry>, users: map<UserId, UserRow>, searcher: UserId, prefs: Prefs, from: nat): (r: Option<nat>)
    requires from <= |q|
    ensures r.Some? ==> from <= r.value < |q|
    decreases |q| - from
  {
    if from == |q| then None
    else if Takes(users, searcher, prefs, q[from]) then Some(from)
    else FirstCompatible(q, users, searcher, prefs, from + 1)
  }

  /** The scan pairs with the first compatible other entry and nothing earlier qualifies;
      it finds nothing only when no entry qualifies. */
  lemma {:induction false} FirstCompatibleIsFirst(q: seq<Entry>, users: map<UserId, UserRow>, searcher: UserId, prefs: Prefs, from: nat)
    requires from <= |q|
    ensures var r := FirstCompatible(q, users, searcher, prefs, from);
      && (r.Some? ==> from <= r.value < |q| && Takes(users, searcher, prefs, q[r.value]))
      && (r.Some? ==> forall j :: from <= j < r.value ==> !Takes(users, searcher, prefs, q[j]))
      && (r.None? ==> forall j :: from <= j < |q| ==> !Takes(users, searcher, prefs, q[j]))
    decreases |q| - from
  {
    if from < |q| && !Takes(users, searcher, prefs, q[from]) {
      FirstCompatibleIsFirst(q, users, searcher, prefs, from + 1);
    }
  }

  /** The `for ... of searchingUsers.entries()` scan (handlers.js:196-227). */
  method ScanForPartner(q: seq<Entry>, users: map<UserId, UserRow>, searcher: UserId, prefs: Prefs) returns (k: Option<nat>)
    ensures k == FirstCompatible(q, users, searcher, prefs, 0)
  {
    var i := 0;
    while i < |q|
      invariant 0 <= i <= |q|
      invariant FirstCompatible(q, users, searcher, prefs, 0) == FirstCompatible(q, users, searcher, prefs, i)
    {
      if q[i].userId != searcher && Compatible(users, searcher, prefs, q[i]) {
        assert Takes(users, searcher, prefs, q[i]);
        return Some(i);
      }
      i := i + 1;
    }
    return None;
  }

  /** The four messages of a successful pairing: `match_ready` to both, then
      `match_found` to both, each carrying the other peer's id and stored attributes. */
  function PairingEvents(matchId: string, users: map<UserId, UserRow>, me: UserId, mySock: SocketId, cand: Entry): seq<Emission>
  {
    [ Emission(mySock, MatchReady(matchId)),
      Emission(cand.socketId, MatchReady(matchId)),
      Emission(mySock, MatchFound(matchId, cand.userId, StoredGender(users, cand.userId), StoredCountry(users, cand.userId))),
      Emission(cand.socketId, MatchFound(matchId, me, StoredGender(users, me), StoredCountry(users, me))) ]
  }

  /** `findMatch(userId, preferences)` (handlers.js:186-315); `lookupsThrow` says
      whether fetching both profiles after the insert throws. */
  function PairStep(s: ServerState, userId: UserId, prefs: Prefs, matchId: string, now: int,
                    insert: InsertOutcome, lookupsThrow: bool): ServerState
  {
    if userId !in s.online || Get(s.searching, userId).None? then s
    else
      var mySock := s.online[userId];
      match FirstCompatible(s.searching, s.db.users, userId, prefs, 0)
      case None => s.(timers := s.timers + [FillerTimer(userId, mySock, prefs)])
      case Some(k) => PairWith(s, userId, mySock, Get(s.searching, userId).value, s.searching[k], matchId, now, insert, lookupsThrow)
  }

  /** The pairing with a found partner `cand`: both leave the queue, the row is inserted, and
      either both are told of the match or, after a throw, both are put back and told of the failure. */
  function PairWith(s: ServerState, userId: UserId, mySock: SocketId, me: Entry, cand: Entry, matchId: string, now: int,
                    insert: InsertOutcome, lookupsThrow: bool): ServerState
  {
    var dequeued := Delete(Delete(s.searching, userId), cand.userId);
    var row := MatchRow(matchId, userId, Some(cand.userId), false, now, None, None);
    var matches := if insert == Inserted then s.db.matches + [row] else s.db.matches;
    if insert == InsertThrew || lookupsThrow then
      s.(searching := Put(Put(dequeued, me), cand),
         db := s.db.(matches := matches),
         outbox := s.outbox + [Emission(mySock, Error(CreateFailedMessage)), Emission(cand.socketId, Error(CreateFailedMessage))])
    else
      s.(searching := dequeued,
         db := s.db.(matches := matches),
         outbox := s.outbox + PairingEvents(matchId, s.db.users, userId, mySock, cand))
  }

  /** `find_match` is refused when the ban lookup errors (no row, or a failing
      store) or the row says banned (handlers.js:35-44). */
  predicate BanRefuses(users: map<UserId, UserRow>, userId: UserId, lookupFails: bool)
  {
    lookupFails || userId !in users || users[userId].isBanned
  }

  /** The `find_match` handler (handlers.js:31-52). */
  function FindMatchStep(s: ServerState, userId: UserId, socketId: SocketId, prefs: Prefs, lookupFails: bool,
                         matchId: string, now: int, insert: InsertOutcome, lookupsThrow: bool): ServerState
  {
    if BanRefuses(s.db.users, userId, lookupFails) then
      s.(outbox := s.outbox + [Emission(socketId, Error(BanMessage))])
    else
      PairStep(s.(searching := Put(s.searching, Entry(userId, socketId, prefs))), userId, prefs, matchId, now, insert, lookupsThrow)
  }

  function Pick(catalogue: seq<string>, wish: string, pick: nat): string
    requires pick < |catalogue|
  {
    if wish != "" then wish else catalogue[pick]
  }

  /** The filler timer firing (handlers.js:279-314); `gPick` and `cPick` stand for the `Math.random` draws. */
  function FillerStep(s: ServerState, k: nat, matchId: string, now: int, insert: InsertOutcome, gPick: nat, cPick: nat): ServerState
    requires k < |s.timers| && gPick < 2 && cPick < 8
  {
    var t := s.timers[k];
    var s1 := s.(timers := s.timers[..k] + s.timers[k + 1..]);
    if Get(s1.searching, t.userId).None? || t.userId !in s1.online then s1
    else if insert == InsertThrew then
      s1.(outbox := s1.outbox + [Emission(t.socketId, Error(CreateFailedMessage))])
    else
      var row := MatchRow(matchId, t.userId, None, true, now, None, None);
      s1.(searching := Delete(s1.searching, t.userId),
          db := if insert == Inserted then s1.db.(matches := s1.db.matches + [row]) else s1.db,
          outbox := s1.outbox + [Emission(t.socketId, MatchReady(matchId)),
                                 Emission(t.socketId, FakeMatch(matchId, Pick(FakeGenders, t.prefs.gender, gPick),
                                                                Pick(FakeCountries, t.prefs.country, cPick)))])
  }

  // ---------------------------------------------------------------------------
  // Directory queries

  /** The positions of the rows at or after `from` that satisfy `p`, in order. */
  function RowsWhere(ms: seq<MatchRow>, p: MatchRow -> bool, from: nat): (r: seq<nat>)
    requires from <= |ms|
    ensures forall j :: j in r <==> from <= j < |ms| && p(ms[j])
    ensures forall t :: 0 <= t < |r| ==> from <= r[t] < |ms|
    decreases |ms| - from
  {
    if from == |ms| then []
    else
      var rest := RowsWhere(ms, p, from + 1);
      if p(ms[from]) then [from] + rest else rest
  }

  /** `.single()`: a row only when the query matched exactly one. */
  function Single(idx: seq<nat>): (r: Option<nat>)
    ensures r.Some? ==> r.value in idx
  {
    if |idx| == 1 then Some(idx[0]) else None
  }

  predicate InvolvesActive(m: MatchRow, u: UserId)
  {
    m.endedAt.None? && (m.peerA == u || m.peerB == Some(u))
  }

  /** The lookup in `end_match` and `disconnect`: the one unended match that has `u` as a peer. */
  function ActiveMatch(ms: seq<MatchRow>, u: UserId, lookupFails: bool): (r: Option<nat>)
    ensures r.Some? ==> r.value < |ms| && InvolvesActive(ms[r.value], u)
    ensures r.Some? ==> forall j :: 0 <= j < |ms| && j != r.value ==> !InvolvesActive(ms[j], u)
    ensures lookupFails ==> r.None?
  {
    if lookupFails then None else Single(RowsWhere(ms, (m: MatchRow) => InvolvesActive(m, u), 0))
  }

  /** Conversely, when the lookup works and exactly one unended match has `u` as a peer, it is found. */
  lemma ActiveMatchFindsTheOne(ms: seq<MatchRow>, u: UserId, i: nat)
    requires i < |ms| && InvolvesActive(ms[i], u)
    requires forall j :: 0 <= j < |ms| && j != i ==> !InvolvesActive(ms[j], u)
    ensures ActiveMatch(ms, u, false) == Some(i)
  {
    RowsWhereOnly(ms, u, i, 0);
  }

  /** With `ms[i]` the only unended match of `u`, the query's rows from `from` on are `i` alone, or none. */
  lemma {:induction false} RowsWhereOnly(ms: seq<MatchRow>, u: UserId, i: nat, from: nat)
    requires from <= |ms| && i < |ms| && InvolvesActive(ms[i], u)
    requires forall j :: 0 <= j < |ms| && j != i ==> !InvolvesActive(ms[j], u)
    ensures RowsWhere(ms, (m: MatchRow) => InvolvesActive(m, u), from) == if from <= i then [i] else []
    decreases |ms| - from
  {
    if from < |ms| {
      RowsWhereOnly(ms, u, i, from + 1);
    }
  }

  /** Two unended matches for one user hide each other from the lookup. */
  lemma TwoActiveMatchesBlockEnd(ms: seq<MatchRow>, u: UserId, i: nat, j: nat)
    requires i < |ms| && j < |ms| && i != j
    requires InvolvesActive(ms[i], u) && InvolvesActive(ms[j], u)
    ensures ActiveMatch(ms, u, false).None?
  {
    var r := RowsWhere(ms, (m: MatchRow) => InvolvesActive(m, u), 0);
    assert i in r && j in r;
  }

  /** The duration the handlers store: `Math.floor((now - started_at) / 1000)`. */
  function DurationSeconds(startedAt: int, now: int): int
  {
    (now - startedAt) / 1000
  }

  function EndRow(m: MatchRow, now: int): MatchRow
  {
    m.(endedAt := Some(now), duration := Some(DurationSeconds(m.startedAt, now)))
  }

  function EndActive(ms: seq<MatchRow>, u: UserId, now: int, lookupFails: bool): seq<MatchRow>
  {
    match ActiveMatch(ms, u, lookupFails)
    case None => ms
    case Some(i) => ms[i := EndRow(ms[i], now)]
  }

  /** `match_ended` for the other peer of a real match, when that peer is online. */
  function PeerNotice(ms: seq<MatchRow>, online: map<UserId, SocketId>, u: UserId, lookupFails: bool): seq<Emission>
  {
    match ActiveMatch(ms, u, lookupFails)
    case None => []
    case Some(i) =>
      var m := ms[i];
      if !m.isFake && m.peerB.Some? then
        var other := OtherPeer(m, u);
        if other in online then [Emission(online[other], MatchEnded)] else []
      else []
  }

  /** The peer of `m` that is not `u`. */
  function OtherPeer(m: MatchRow, u: UserId): UserId
    requires m.peerB.Some?
  {
    if m.peerA == u then m.peerB.value else m.peerA
  }

  /** Whether ending `u`'s match sends `match_ended` to the other peer. */
  predicate NotifiesPeer(ms: seq<MatchRow>, online: map<UserId, SocketId>, u: UserId)
  {
    var a := ActiveMatch(ms, u, false);
    a.Some? && !ms[a.value].isFake && ms[a.value].peerB.Some? && OtherPeer(ms[a.value], u) in online
  }

  predicate Between(m: MatchRow, a: UserId, b: UserId)
  {
    (m.peerA == a && m.peerB == Some(b)) || (m.peerA == b && m.peerB == Some(a))
  }

  /** Among the rows at positions `idx`, one that started last (`order by started_at desc limit 1`). */
  function Latest(ms: seq<MatchRow>, idx: seq<nat>): (r: Option<nat>)
    requires forall j :: 0 <= j < |idx| ==> idx[j] < |ms|
    ensures r.None? <==> idx == []
    ensures r.Some? ==> r.value in idx
    ensures r.Some? ==> forall j :: 0 <= j < |idx| ==> ms[idx[j]].startedAt <= ms[r.value].startedAt
  {
    if idx == [] then None
    else
      var rest := Latest(ms, idx[1..]);
      if rest.None? || ms[idx[0]].startedAt >= ms[rest.value].startedAt then Some(idx[0]) else rest
  }

  function LatestBetween(ms: seq<MatchRow>, a: UserId, b: UserId, lookupFails: bool): Option<nat>
  {
    if lookupFails then None
    else
      var idx := RowsWhere(ms, (m: MatchRow) => Between(m, a, b), 0);
      Latest(ms, idx)
  }

  function SetPresence(users: map<UserId, UserRow>, id: UserId, isOnline: bool, now: int): map<UserId, UserRow>
  {
    if id in users then users[id := users[id].(isOnline := isOnline, lastSeen := now)] else users
  }

  // ---------------------------------------------------------------------------
  // The other socket events

  /** `io.on('connection')` (handlers.js:8-29). */
  function ConnectStep(s: ServerState, userId: UserId, socketId: SocketId, now: int): ServerState
  {
    if userId == "" then s.(outbox := s.outbox + [Emission(socketId, Closed)])
    else s.(online := s.online[userId := socketId], db := s.db.(users := SetPresence(s.db.users, userId, true, now)))
  }

  /** `signal` (handlers.js:54-64). */
  function SignalStep(s: ServerState, from: UserId, to: UserId, payload: string): ServerState
  {
    if to in s.online then s.(outbox := s.outbox + [Emission(s.online[to], Signal(from, payload))]) else s
  }

  /** `setup_match` (handlers.js:66-80). */
  function SetupMatchStep(s: ServerState, socketId: SocketId, matchId: string, lookupFails: bool): ServerState
  {
    var ms := s.db.matches;
    if lookupFails then s
    else match Single(RowsWhere(ms, (m: MatchRow) => m.id == matchId, 0))
      case None => s
      case Some(i) => s.(outbox := s.outbox + [Emission(socketId, MatchSetupComplete(matchId, ms[i]))])
  }

  /** The match update of `end_match` and `disconnect`, whose `{ error }` the handlers never read:
      a failed write leaves the table as it was. */
  function EndWrite(ms: seq<MatchRow>, u: UserId, now: int, lookupFails: bool, writeFails: bool): seq<MatchRow>
  {
    if writeFails then ms else EndActive(ms, u, now, lookupFails)
  }

  /** `end_match` (handlers.js:82-114). */
  function EndMatchStep(s: ServerState, userId: UserId, socketId: SocketId, now: int, lookupFails: bool, writeFails: bool): ServerState
  {
    var ms := s.db.matches;
    s.(db := s.db.(matches := EndWrite(ms, userId, now, lookupFails, writeFails)),
       outbox := s.outbox + PeerNotice(ms, s.online, userId, lookupFails) + [Emission(socketId, MatchEnded)],
       searching := Delete(s.searching, userId))
  }

  /** `report_user` (handlers.js:116-139); the insert's `{ error }` is never read, so a failed
      insert simply leaves no row. */
  function ReportStep(s: ServerState, userId: UserId, reportedId: UserId, reason: string, reportId: string,
                      lookupFails: bool, insertFails: bool): ServerState
  {
    var ms := s.db.matches;
    match LatestBetween(ms, userId, reportedId, lookupFails)
    case None => s
    case Some(i) =>
      if insertFails then s else
      s.(db := s.db.(reports := s.db.reports + [ReportRow(reportId, userId, reportedId, ms[i].id, reason, false)]))
  }

  /** `disconnect` (handlers.js:141-183): both tables first, then the directory. */
  function DisconnectStep(s: ServerState, userId: UserId, now: int, lookupFails: bool, writeFails: bool): ServerState
  {
    var online := s.online - {userId};
    var ms := s.db.matches;
    s.(online := online,
       searching := Delete(s.searching, userId),
       db := s.db.(matches := EndWrite(ms, userId, now, lookupFails, writeFails), users := SetPresence(s.db.users, userId, false, now)),
       outbox := s.outbox + PeerNotice(ms, online, userId, lookupFails))
  }

  // ---------------------------------------------------------------------------
  // Invariants and properties

  /** A match row as the handlers write it: fake iff it has no second peer;
      ended iff it has a duration, which is the floor of the elapsed seconds. */
  predicate WellFormedRow(m: MatchRow)
  {
    && (m.isFake <==> m.peerB.None?)
    && (m.endedAt.None? <==> m.duration.None?)
    && (m.endedAt.Some? ==> m.duration == Some(DurationSeconds(m.startedAt, m.endedAt.value)))
  }

  predicate WellFormedTable(ms: seq<MatchRow>)
  {
    forall i :: 0 <= i < |ms| ==> WellFormedRow(ms[i])
  }

  predicate ValidState(s: ServerState)
  {
    Keyed(s.searching) && WellFormedTable(s.db.matches)
  }

  /** Ending writes `ended_at = now` and the floor of the elapsed seconds on the user's one
      unended match, touches no other row, and leaves the user with no unended match; with no
      such match (none, several, or a failed lookup) nothing changes. Rows stay well formed. */
  lemma EndActiveWellFormed(ms: seq<MatchRow>, u: UserId, now: int, lookupFails: bool)
    requires WellFormedTable(ms)
    ensures WellFormedTable(EndActive(ms, u, now, lookupFails))
    ensures var r := EndActive(ms, u, now, lookupFails);
      var a := ActiveMatch(ms, u, lookupFails);
      && |r| == |ms|
      && (a.None? ==> r == ms)
      && (a.Some? ==> && r[a.value].endedAt == Some(now)
                      && r[a.value].duration == Some(DurationSeconds(ms[a.value].startedAt, now))
                      && r[a.value] == ms[a.value].(endedAt := Some(now), duration := Some(DurationSeconds(ms[a.value].startedAt, now)))
                      && (forall j :: 0 <= j < |ms| && j != a.value ==> r[j] == ms[j])
                      && (forall j :: 0 <= j < |r| ==> !InvolvesActive(r[j], u)))
  {
  }

  /** Ending twice is ending once: a second `end_match` or a duplicate
      `disconnect` finds no unended match and writes nothing. */
  lemma EndActiveTwiceIsOnce(ms: seq<MatchRow>, u: UserId, t1: int, t2: int)
    ensures EndActive(EndActive(ms, u, t1, false), u, t2, false) == EndActive(ms, u, t1, false)
    ensures ActiveMatch(EndActive(ms, u, t1, false), u, false).None? || ActiveMatch(ms, u, false).None?
  {
    match ActiveMatch(ms, u, false)
    case None =>
    case Some(i) =>
      var ms1 := ms[i := EndRow(ms[i], t1)];
      var r := RowsWhere(ms1, (m: MatchRow) => InvolvesActive(m, u), 0);
  }

  lemma {:induction false} StepsPreserveValid(s: ServerState, userId: UserId, socketId: SocketId, prefs: Prefs, lookupFails: bool,
                                              matchId: string, now: int, insert: InsertOutcome, lookupsThrow: bool, writeFails: bool)
    requires ValidState(s)
    ensures ValidState(ConnectStep(s, userId, socketId, now))
    ensures ValidState(FindMatchStep(s, userId, socketId, prefs, lookupFails, matchId, now, insert, lookupsThrow))
    ensures ValidState(EndMatchStep(s, userId, socketId, now, lookupFails, writeFails))
    ensures ValidState(DisconnectStep(s, userId, now, lookupFails, writeFails))
  {
    EndActiveWellFormed(s.db.matches, userId, now, lookupFails);
    assert WellFormedTable(EndWrite(s.db.matches, userId, now, lookupFails, writeFails));
    if !BanRefuses(s.db.users, userId, lookupFails) {
      PairStepValid(s.(searching := Put(s.searching, Entry(userId, socketId, prefs))), userId, prefs, matchId, now, insert, lookupsThrow);
    }
  }

  lemma PairStepValid(s: ServerState, userId: UserId, prefs: Prefs, matchId: string, now: int, insert: InsertOutcome, lookupsThrow: bool)
    requires ValidState(s)
    ensures ValidState(PairStep(s, userId, prefs, matchId, now, insert, lookupsThrow))
  {
  }

  lemma FillerStepValid(s: ServerState, k: nat, matchId: string, now: int, insert: InsertOutcome, gPick: nat, cPick: nat)
    requires k < |s.timers| && gPick < 2 && cPick < 8
    requires ValidState(s)
    ensures ValidState(FillerStep(s, k, matchId, now, insert, gPick, cPick))
  {
  }

  /** A refused `find_match` only answers `error`: the queue, the timers and the directory are untouched. */
  lemma BannedUserNeverQueued(s: ServerState, userId: UserId, socketId: SocketId, prefs: Prefs, lookupFails: bool,
                              matchId: string, now: int, insert: InsertOutcome, lookupsThrow: bool)
    requires lookupFails || userId !in s.db.users || s.db.users[userId].isBanned
    ensures var s' := FindMatchStep(s, userId, socketId, prefs, lookupFails, matchId, now, insert, lookupsThrow);
      && s'.searching == s.searching && s'.timers == s.timers && s'.db == s.db && s'.online == s.online
      && s'.outbox == s.outbox + [Emission(socketId, Error(BanMessage))]
  {
  }

  /** Re-sending `find_match` while queued keeps one entry per user, in its old place. */
  lemma RequeueKeepsOneEntry(q: seq<Entry>, e: Entry)
    requires Keyed(q) && Find(q, e.userId).Some?
    ensures Keyed(Put(q, e)) && |Put(q, e)| == |q|
    ensures Find(Put(q, e), e.userId) == Find(q, e.userId)
  {
  }

  /** A successful pairing takes both peers out of the queue, records peer_a = searcher,
      peer_b = partner, not fake, and sends `match_ready` before `match_found` to each. */
  lemma PairingDequeuesBoth(s: ServerState, userId: UserId, prefs: Prefs, matchId: string, now: int)
    requires ValidState(s)
    requires userId in s.online && Get(s.searching, userId).Some?
    requires FirstCompatible(s.searching, s.db.users, userId, prefs, 0).Some?
    ensures var k := FirstCompatible(s.searching, s.db.users, userId, prefs, 0).value;
      var cand := s.searching[k];
      var s' := PairStep(s, userId, prefs, matchId, now, Inserted, false);
      var mySock := s.online[userId];
      && cand.userId != userId
      && s'.searching == Delete(Delete(s.searching, userId), cand.userId)
      && Find(s'.searching, userId).None? && Find(s'.searching, cand.userId).None?
      && (forall e :: e in s.searching && e.userId != userId && e.userId != cand.userId ==> e in s'.searching)
      && s'.db.matches == s.db.matches + [MatchRow(matchId, userId, Some(cand.userId), false, now, None, None)]
      && s'.db.users == s.db.users && s'.db.reports == s.db.reports
      && s'.online == s.online && s'.timers == s.timers
      && s'.outbox == s.outbox + [
           Emission(mySock, MatchReady(matchId)),
           Emission(cand.socketId, MatchReady(matchId)),
           Emission(mySock, MatchFound(matchId, cand.userId, StoredGender(s.db.users, cand.userId), StoredCountry(s.db.users, cand.userId))),
           Emission(cand.socketId, MatchFound(matchId, userId, StoredGender(s.db.users, userId), StoredCountry(s.db.users, userId)))]
  {
    FirstCompatibleIsFirst(s.searching, s.db.users, userId, prefs, 0);
    var k := FirstCompatible(s.searching, s.db.users, userId, prefs, 0).value;
    var d1 := Delete(s.searching, userId);
    var d2 := Delete(d1, s.searching[k].userId);
    forall j | 0 <= j < |d2| ensures d2[j].userId != userId {
      assert d2[j] in d1;
      var i :| 0 <= i < |d1| && d1[i] == d2[j];
    }
  }

  /** Taking two entries out of the queue leaves every other entry and drops exactly those two. */
  lemma {:induction false} DeleteTwoSplits(q: seq<Entry>, me: Entry, cand: Entry)
    requires Keyed(q) && me in q && cand in q && me.userId != cand.userId
    ensures var d := Delete(Delete(q, me.userId), cand.userId);
      multiset(d + [me, cand]) == multiset(q)
  {
    var d1 := Delete(q, me.userId);
    DeleteSplits(q, me);
    assert cand in d1 by {
      var k :| 0 <= k < |q| && q[k] == cand;
    }
    DeleteSplits(d1, cand);
  }

  /** Taking two entries out and setting them again moves exactly those two to the end. */
  lemma {:induction false} RequeueMovesToEnd(q: seq<Entry>, me: Entry, cand: Entry)
    requires Keyed(q) && me in q && cand in q && me.userId != cand.userId
    ensures var d := Delete(Delete(q, me.userId), cand.userId);
      && Put(Put(d, me), cand) == d + [me, cand]
      && multiset(d + [me, cand]) == multiset(q)
  {
    DeleteTwoSplits(q, me, cand);
    var d2 := Delete(Delete(q, me.userId), cand.userId);
    DeleteStaysAbsent(Delete(q, me.userId), me.userId, cand.userId);
    assert Put(d2, me) == d2 + [me];
    AppendStaysAbsent(d2, me, cand.userId);
    assert d2 + [me] + [cand] == d2 + [me, cand];
  }

  /** Deleting from a queue without a user leaves it without that user. */
  lemma DeleteStaysAbsent(q: seq<Entry>, absent: UserId, id: UserId)
    requires Find(q, absent).None?
    ensures Find(Delete(q, id), absent).None?
  {
    var d := Delete(q, id);
    forall j | 0 <= j < |d| ensures d[j].userId != absent {
      var i :| 0 <= i < |q| && q[i] == d[j];
    }
  }

  /** Appending another user's entry keeps a user absent. */
  lemma AppendStaysAbsent(q: seq<Entry>, e: Entry, absent: UserId)
    requires Find(q, absent).None? && e.userId != absent
    ensures Find(q + [e], absent).None?
  {
    forall j | 0 <= j < |q + [e]| ensures (q + [e])[j].userId != absent {
      if j < |q| { assert (q + [e])[j] == q[j]; }
    }
  }

  /** The rollback after a throw puts back exactly the two entries it removed, both now last. */
  lemma RollbackRestoresEntries(s: ServerState, userId: UserId, prefs: Prefs, matchId: string, now: int, insert: InsertOutcome, lookupsThrow: bool)
    requires ValidState(s)
    requires userId in s.online && Get(s.searching, userId).Some?
    requires FirstCompatible(s.searching, s.db.users, userId, prefs, 0).Some?
    requires insert == InsertThrew || lookupsThrow
    ensures var s' := PairStep(s, userId, prefs, matchId, now, insert, lookupsThrow);
      var me := Get(s.searching, userId).value;
      var cand := s.searching[FirstCompatible(s.searching, s.db.users, userId, prefs, 0).value];
      && multiset(s'.searching) == multiset(s.searching)
      && |s'.searching| >= 2 && s'.searching[|s'.searching| - 2..] == [me, cand]
      && s'.timers == s.timers && s'.online == s.online
      && s'.db.matches == (if insert == Inserted then s.db.matches + [MatchRow(matchId, userId, Some(cand.userId), false, now, None, None)]
                           else s.db.matches)
      && s'.outbox == s.outbox + [Emission(s.online[userId], Error(CreateFailedMessage)), Emission(cand.socketId, Error(CreateFailedMessage))]
  {
    FirstCompatibleIsFirst(s.searching, s.db.users, userId, prefs, 0);
    var me := Get(s.searching, userId).value;
    var cand := s.searching[FirstCompatible(s.searching, s.db.users, userId, prefs, 0).value];
    RequeueMovesToEnd(s.searching, me, cand);
    var d := Delete(Delete(s.searching, me.userId), cand.userId);
    assert (d + [me, cand])[|d|..] == [me, cand];
  }

  /** The filler timer does nothing (beyond being consumed) once its user left the queue or went offline. */
  lemma FillerIdleWhenGone(s: ServerState, k: nat, matchId: string, now: int, insert: InsertOutcome, gPick: nat, cPick: nat)
    requires k < |s.timers| && gPick < 2 && cPick < 8
    requires Get(s.searching, s.timers[k].userId).None? || s.timers[k].userId !in s.online
    ensures var s' := FillerStep(s, k, matchId, now, insert, gPick, cPick);
      s' == s.(timers := s.timers[..k] + s.timers[k + 1..])
  {
  }

  /** A filler that fires records a fake match with no second peer, dequeues the user
      and sends `match_ready` then `fake_match`, using the wished-for attributes or catalogue entries. */
  lemma FillerCreatesFakeMatch(s: ServerState, k: nat, matchId: string, now: int, gPick: nat, cPick: nat)
    requires k < |s.timers| && gPick < 2 && cPick < 8
    requires Get(s.searching, s.timers[k].userId).Some? && s.timers[k].userId in s.online
    ensures var t := s.timers[k];
      var s' := FillerStep(s, k, matchId, now, Inserted, gPick, cPick);
      && s'.db.matches == s.db.matches + [MatchRow(matchId, t.userId, None, true, now, None, None)]
      && Find(s'.searching, t.userId).None?
      && |s'.outbox| == |s.outbox| + 2
      && s'.outbox[|s.outbox|] == Emission(t.socketId, MatchReady(matchId))
      && s'.outbox[|s.outbox| + 1].event.FakeMatch?
      && (t.prefs.gender != "" ==> s'.outbox[|s.outbox| + 1].event.fakeGender == t.prefs.gender)
      && s'.outbox[|s.outbox| + 1].event.fakeGender in (if t.prefs.gender == "" then FakeGenders else [t.prefs.gender])
      && s'.outbox[|s.outbox| + 1].event.fakeCountry in (if t.prefs.country == "" then FakeCountries else [t.prefs.country])
      && (t.prefs.gender == "" ==> s'.outbox[|s.outbox| + 1].event.fakeGender == FakeGenders[gPick])
      && (t.prefs.country == "" ==> s'.outbox[|s.outbox| + 1].event.fakeCountry == FakeCountries[cPick])
  {
  }

  /** Ending notifies the other peer only for a real match whose other peer is online, and
      always answers the caller; the caller leaves the queue. */
  lemma EndMatchNotifies(s: ServerState, userId: UserId, socketId: SocketId, now: int, lookupFails: bool, writeFails: bool)
    ensures var s' := EndMatchStep(s, userId, socketId, now, lookupFails, writeFails);
      var ms := s.db.matches;
      && s'.db.matches == (if writeFails then ms else EndActive(ms, userId, now, lookupFails))
      && s'.db.users == s.db.users && s'.db.reports == s.db.reports
      && s'.online == s.online && s'.timers == s.timers
      && s'.searching == Delete(s.searching, userId)
      && (!lookupFails && NotifiesPeer(ms, s.online, userId) ==>
            s'.outbox == s.outbox + [Emission(s.online[OtherPeer(ms[ActiveMatch(ms, userId, false).value], userId)], MatchEnded),
                                     Emission(socketId, MatchEnded)])
      && (lookupFails || !NotifiesPeer(ms, s.online, userId) ==> s'.outbox == s.outbox + [Emission(socketId, MatchEnded)])
  {
  }

  /** A signal reaches the target's current socket exactly when the target is online. */
  lemma SignalOnlyToOnline(s: ServerState, from: UserId, to: UserId, payload: string)
    ensures var s' := SignalStep(s, from, to, payload);
      && (to in s.online ==> s' == s.(outbox := s.outbox + [Emission(s.online[to], Signal(from, payload))]))
      && (to !in s.online ==> s' == s)
  {
  }

  /** After `disconnect` the user is in neither table. */
  lemma DisconnectForgetsUser(s: ServerState, userId: UserId, now: int, lookupFails: bool, writeFails: bool)
    ensures var s' := DisconnectStep(s, userId, now, lookupFails, writeFails);
      userId !in s'.online && Find(s'.searching, userId).None? && s'.timers == s.timers
  {
  }

  /** `disconnect` ends the user's match as `end_match` does, marks the user offline, and tells
      the other peer of a real match when that peer is still online; the user gets nothing. */
  lemma DisconnectNotifies(s: ServerState, userId: UserId, now: int, lookupFails: bool, writeFails: bool)
    ensures var s' := DisconnectStep(s, userId, now, lookupFails, writeFails);
      var ms := s.db.matches;
      var online := s.online - {userId};
      && s'.online == online
      && s'.db.matches == (if writeFails then ms else EndActive(ms, userId, now, lookupFails))
      && (userId in s.db.users ==> userId in s'.db.users && !s'.db.users[userId].isOnline && s'.db.users[userId].lastSeen == now)
      && (forall v :: v != userId ==> (v in s'.db.users <==> v in s.db.users))
      && (forall v :: v in s.db.users && v != userId ==> s'.db.users[v] == s.db.users[v])
      && (!lookupFails && NotifiesPeer(ms, online, userId) ==>
            s'.outbox == s.outbox + [Emission(online[OtherPeer(ms[ActiveMatch(ms, userId, false).value], userId)], MatchEnded)])
      && (lookupFails || !NotifiesPeer(ms, online, userId) ==> s'.outbox == s.outbox)
  {
  }

  /** A connection without a user id is dropped and never registered. */
  lemma ConnectRegistersOnlyIdentified(s: ServerState, userId: UserId, socketId: SocketId, now: int)
    ensures var s' := ConnectStep(s, userId, socketId, now);
      && (userId == "" ==> s'.online == s.online && s'.outbox == s.outbox + [Emission(socketId, Closed)])
      && (userId != "" ==> s'.online == s.online[userId := socketId] && s'.outbox == s.outbox)
  {
  }

  /** The report attaches to the latest match between the two users, if there is one. */
  lemma ReportUsesLatestMatch(s: ServerState, userId: UserId, reportedId: UserId, reason: string, reportId: string)
    ensures var s' := ReportStep(s, userId, reportedId, reason, reportId, false, false);
      var ms := s.db.matches;
      && ((forall j :: 0 <= j < |ms| ==> !Between(ms[j], userId, reportedId)) <==> s' == s)
      && (s' != s ==>
            exists i :: (0 <= i < |ms| && Between(ms[i], userId, reportedId)
              && (forall j :: 0 <= j < |ms| && Between(ms[j], userId, reportedId) ==> ms[j].startedAt <= ms[i].startedAt)
              && s'.db.reports == s.db.reports + [ReportRow(reportId, userId, reportedId, ms[i].id, reason, false)]))
  {
    var ms := s.db.matches;
    var s' := ReportStep(s, userId, reportedId, reason, reportId, false, false);
    LatestBetweenMeaning(ms, userId, reportedId);
    var found := LatestBetween(ms, userId, reportedId, false);
    if found.Some? {
      var i := found.value;
      assert |s'.db.reports| == |s.db.reports| + 1;
      assert s'.db.reports == s.db.reports + [ReportRow(reportId, userId, reportedId, ms[i].id, reason, false)];
    }
  }

  /** A fake match the client searches past is never ended, so its row stays unended; the next
      filler match gives the user a second unended row, and from then on `end_match` (and likewise
      `disconnect`) finds no single match and ends neither. */
  lemma FakeMatchLeftOpenBlocksEnd(s: ServerState, k: nat, matchId: string, now: int, gPick: nat, cPick: nat,
                                   i: nat, socketId: SocketId, later: int)
    requires k < |s.timers| && gPick < 2 && cPick < 8
    requires Get(s.searching, s.timers[k].userId).Some? && s.timers[k].userId in s.online
    requires i < |s.db.matches| && InvolvesActive(s.db.matches[i], s.timers[k].userId)
    ensures var u := s.timers[k].userId;
      var s1 := FillerStep(s, k, matchId, now, Inserted, gPick, cPick);
      var s2 := EndMatchStep(s1, u, socketId, later, false, false);
      && |s2.db.matches| == |s.db.matches| + 1
      && s2.db.matches == s1.db.matches
      && InvolvesActive(s2.db.matches[i], u) && InvolvesActive(s2.db.matches[|s.db.matches|], u)
  {
    var u := s.timers[k].userId;
    FillerCreatesFakeMatch(s, k, matchId, now, gPick, cPick);
    var s1 := FillerStep(s, k, matchId, now, Inserted, gPick, cPick);
    TwoActiveMatchesBlockEnd(s1.db.matches, u, i, |s.db.matches|);
  }

  /** Ending every unended match of `u`, as `end_match` evidently intends: afterwards `u` has no
      unended match, rows of other users are untouched, and each ended row gets `now` and its duration. */
  function EndAllActive(ms: seq<MatchRow>, u: UserId, now: int): (r: seq<MatchRow>)
    ensures |r| == |ms|
    ensures forall j :: 0 <= j < |r| ==> !InvolvesActive(r[j], u)
    ensures forall j :: 0 <= j < |ms| && !InvolvesActive(ms[j], u) ==> r[j] == ms[j]
    ensures forall j :: 0 <= j < |ms| && InvolvesActive(ms[j], u) ==>
              r[j].endedAt == Some(now) && r[j].duration == Some(DurationSeconds(ms[j].startedAt, now))
    ensures WellFormedTable(ms) ==> WellFormedTable(r)
  {
    seq(|ms|, j requires 0 <= j < |ms| => if InvolvesActive(ms[j], u) then EndRow(ms[j], now) else ms[j])
  }

  /** Where the lookup of `end_match` works (one unended match), ending all is ending that one. */
  lemma EndAllActiveAgrees(ms: seq<MatchRow>, u: UserId, now: int)
    requires ActiveMatch(ms, u, false).Some?
    ensures EndAllActive(ms, u, now) == EndActive(ms, u, now, false)
  {
  }

  /** The latest-match lookup finds nothing exactly when no match is between the two users,
      and otherwise a match between them that no other one between them started after. */
  lemma LatestBetweenMeaning(ms: seq<MatchRow>, a: UserId, b: UserId)
    ensures LatestBetween(ms, a, b, false).None? <==> forall j :: 0 <= j < |ms| ==> !Between(ms[j], a, b)
    ensures var r := LatestBetween(ms, a, b, false);
      r.Some? ==> && r.value < |ms| && Between(ms[r.value], a, b)
                  && forall j :: 0 <= j < |ms| && Between(ms[j], a, b) ==> ms[j].startedAt <= ms[r.value].startedAt
  {
    var idx := RowsWhere(ms, (m: MatchRow) => Between(m, a, b), 0);
    if idx == [] {
      forall j | 0 <= j < |ms| ensures !Between(ms[j], a, b) {
        assert j !in idx;
      }
    } else {
      var i := Latest(ms, idx).value;
      assert i in idx;
      forall j | 0 <= j < |ms| && Between(ms[j], a, b) ensures ms[j].startedAt <= ms[i].startedAt {
        assert j in idx;
        var t :| 0 <= t < |idx| && idx[t] == j;
      }
    }
  }

  // ---------------------------------------------------------------------------
  // The server object

  class MatchServer {
    var online: map<UserId, SocketId>
    var searching: seq<Entry>
    var timers: seq<FillerTimer>
    var db: Directory
    var outbox: seq<Emission>

    function State(): ServerState
      reads this
    {
      ServerState(online, searching, timers, db, outbox)
    }

    ghost predicate Valid()
      reads this
    {
      ValidState(State())
    }

    /** `setupSocketHandlers(io)`: both tables start empty. */
    constructor (directory: Directory)
      requires WellFormedTable(directory.matches)
      ensures Valid()
      ensures State() == ServerState(map[], [], [], directory, [])
    {
      online := map[];
      searching := [];
      timers := [];
      db := directory;
      outbox := [];
    }

    method Connect(userId: UserId, socketId: SocketId, now: int) returns (accepted: bool)
      requires Valid()
      modifies this
      ensures Valid()
      ensures accepted <==> userId != ""
      ensures State() == ConnectStep(old(State()), userId, socketId, now)
    {
      if userId == "" {
        outbox := outbox + [Emission(socketId, Closed)];
        return false;
      }
      online := online[userId := socketId];
      db := db.(users := SetPresence(db.users, userId, true, now));
      return true;
    }

    method FindMatch(userId: UserId, socketId: SocketId, prefs: Prefs, lookupFails: bool,
                     matchId: string, now: int, insert: InsertOutcome, lookupsThrow: bool)
      requires Valid()
      modifies this
      ensures Valid()
      ensures State() == FindMatchStep(old(State()), userId, socketId, prefs, lookupFails, matchId, now, insert, lookupsThrow)
    {
      if lookupFails || userId !in db.users || db.users[userId].isBanned {
        outbox := outbox + [Emission(socketId, Error(BanMessage))];
        return;
      }
      searching := Put(searching, Entry(userId, socketId, prefs));
      PairUp(userId, prefs, matchId, now, insert, lookupsThrow);
    }

    method PairUp(userId: UserId, prefs: Prefs, matchId: string, now: int, insert: InsertOutcome, lookupsThrow: bool)
      requires Valid()
      modifies this
      ensures Valid()
      ensures State() == PairStep(old(State()), userId, prefs, matchId, now, insert, lookupsThrow)
    {
      PairStepValid(State(), userId, prefs, matchId, now, insert, lookupsThrow);
      if userId !in online { return; }
      var mySock := online[userId];
      var me := Get(searching, userId);
      if me.None? { return; }
      var k := ScanForPartner(searching, db.users, userId, prefs);
      if k.None? {
        timers := timers + [FillerTimer(userId, mySock, prefs)];
        return;
      }
      Pair(userId, mySock, me.value, searching[k.value], matchId, now, insert, lookupsThrow);
    }

    /** The pairing half of `findMatch`, once the partner is chosen. */
    method Pair(userId: UserId, mySock: SocketId, me: Entry, cand: Entry, matchId: string, now: int,
                insert: InsertOutcome, lookupsThrow: bool)
      modifies this
      ensures State() == PairWith(old(State()), userId, mySock, me, cand, matchId, now, insert, lookupsThrow)
    {
      searching := Delete(Delete(searching, userId), cand.userId);
      if insert == Inserted {
        db := db.(matches := db.matches + [MatchRow(matchId, userId, Some(cand.userId), false, now, None, None)]);
      }
      if insert == InsertThrew || lookupsThrow {
        searching := Put(Put(searching, me), cand);
        outbox := outbox + [Emission(mySock, Error(CreateFailedMessage)), Emission(cand.socketId, Error(CreateFailedMessage))];
      } else {
        outbox := outbox + PairingEvents(matchId, db.users, userId, mySock, cand);
      }
    }

    method FireFiller(k: nat, matchId: string, now: int, insert: InsertOutcome, gPick: nat, cPick: nat)
      requires Valid()
      requires k < |timers| && gPick < 2 && cPick < 8
      modifies this
      ensures Valid()
      ensures State() == FillerStep(old(State()), k, matchId, now, insert, gPick, cPick)
    {
      FillerStepValid(State(), k, matchId, now, insert, gPick, cPick);
      var t := timers[k];
      timers := timers[..k] + timers[k + 1..];
      if Get(searching, t.userId).None? || t.userId !in online { return; }
      if insert == InsertThrew {
        outbox := outbox + [Emission(t.socketId, Error(CreateFailedMessage))];
        return;
      }
      if insert == Inserted {
        db := db.(matches := db.matches + [MatchRow(matchId, t.userId, None, true, now, None, None)]);
      }
      var fakeGender := Pick(FakeGenders, t.prefs.gender, gPick);
      var fakeCountry := Pick(FakeCountries, t.prefs.country, cPick);
      searching := Delete(searching, t.userId);
      outbox := outbox + [Emission(t.socketId, MatchReady(matchId)), Emission(t.socketId, FakeMatch(matchId, fakeGender, fakeCountry))];
    }

    method Signal(from: UserId, to: UserId, payload: string)
      requires Valid()
      modifies this
      ensures Valid()
      ensures State() == SignalStep(old(State()), from, to, payload)
    {
      if to in online {
        outbox := outbox + [Emission(online[to], Event.Signal(from, payload))];
      }
    }

    method SetupMatch(socketId: SocketId, matchId: string, lookupFails: bool)
      requires Valid()
      modifies this
      ensures Valid()
      ensures State() == SetupMatchStep(old(State()), socketId, matchId, lookupFails)
    {
      if lookupFails { return; }
      var found := Single(RowsWhere(db.matches, (m: MatchRow) => m.id == matchId, 0));
      if found.Some? {
        outbox := outbox + [Emission(socketId, MatchSetupComplete(matchId, db.matches[found.value]))];
      }
    }

    method EndMatch(userId: UserId, socketId: SocketId, now: int, lookupFails: bool, writeFails: bool)
      requires Valid()
      modifies this
      ensures Valid()
      ensures State() == EndMatchStep(old(State()), userId, socketId, now, lookupFails, writeFails)
    {
      StepsPreserveValid(State(), userId, socketId, Prefs("", ""), lookupFails, "", now, Inserted, false, writeFails);
      var notice := PeerNotice(db.matches, online, userId, lookupFails);
      if !writeFails {
        db := db.(matches := EndActive(db.matches, userId, now, lookupFails));
      }
      outbox := outbox + notice + [Emission(socketId, MatchEnded)];
      searching := Delete(searching, userId);
    }

    method ReportUser(userId: UserId, reportedId: UserId, reason: string, reportId: string, lookupFails: bool, insertFails: bool)
      requires Valid()
      modifies this
      ensures Valid()
      ensures State() == ReportStep(old(State()), userId, reportedId, reason, reportId, lookupFails, insertFails)
    {
      var latest := LatestBetween(db.matches, userId, reportedId, lookupFails);
      if latest.Some? && !insertFails {
        db := db.(reports := db.reports + [ReportRow(reportId, userId, reportedId, db.matches[latest.value].id, reason, false)]);
      }
    }

    method Disconnect(userId: UserId, now: int, lookupFails: bool, writeFails: bool)
      requires Valid()
      modifies this
      ensures Valid()
      ensures State() == DisconnectStep(old(State()), userId, now, lookupFails, writeFails)
    {
      StepsPreserveValid(State(), userId, "", Prefs("", ""), lookupFails, "", now, Inserted, false, writeFails);
      online := online - {userId};
      searching := Delete(searching, userId);
      var notice := PeerNotice(db.matches, online, userId, lookupFails);
      if !writeFails {
        db := db.(matches := EndActive(db.matches, userId, now, lookupFails));
      }
      outbox := outbox + notice;
      db := db.(users := SetPresence(db.users, userId, false, now));
    }
  }
}
