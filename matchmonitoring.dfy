/** The admin match list (src/pages/admin/MatchMonitoring.tsx).

    The page fetches the `matches` rows that meet the chosen date range and
    flags, narrows them in the browser by a case-sensitive search on the match
    id and the two peers, shows each row's duration and status, and lets the
    admin end a match that is still running. */
module MatchMonitoring {
  import opened Common
  import Profile
  import SocketHandlers

  /** A `matches` row as the page reads it; times are milliseconds. */
  datatype MatchRecord = MatchRecord(id: string, peerA: string, peerB: Option<string>, isFake: bool,
                                     startedAt: int, endedAt: Option<int>, duration: Option<int>,
                                     videoUrl: Option<string>)

  // ---------------------------------------------------------------------------
  // The query

  datatype DateRange = All | Today | Week | Month

  /** The date-range cutoffs, computed by the browser in local time; the model takes them
      as given: the start of today, seven days ago and one month ago. */
  datatype Cutoffs = Cutoffs(today: int, week: int, month: int)

  datatype MatchFilters = MatchFilters(range: DateRange, onlyFake: bool, onlyActive: bool, onlyRecorded: bool)

  /** One constraint added to the query. */
  datatype Constraint = StartedSince(cutoff: int) | IsFake | Active | Recorded

  function Cutoff(range: DateRange, c: Cutoffs): int
    requires range != All
  {
    match range
    case Today => c.today
    case Week => c.week
    case Month => c.month
  }

  /** The constraints `fetchMatches` adds, in order. */
  function Constraints(f: MatchFilters, c: Cutoffs): seq<Constraint>
  {
    (if f.range != All then [StartedSince(Cutoff(f.range, c))] else [])
    + (if f.onlyFake then [IsFake] else [])
    + (if f.onlyActive then [Active] else [])
    + (if f.onlyRecorded then [Recorded] else [])
  }

  predicate Satisfies(m: MatchRecord, k: Constraint)
  {
    match k
    case StartedSince(cutoff) => m.startedAt >= cutoff
    case IsFake => m.isFake
    case Active => m.endedAt.None?
    case Recorded => m.videoUrl.Some?
  }

  /** The rows the query returns, in table order. */
  function Fetch(table: seq<MatchRecord>, f: MatchFilters, c: Cutoffs): seq<MatchRecord>
  {
    var ks := Constraints(f, c);
    Filter(table, (m: MatchRecord) => forall k | k in ks :: Satisfies(m, k))
  }

  /** What the filter panel asks of a row. */
  predicate Wanted(m: MatchRecord, f: MatchFilters, c: Cutoffs)
  {
    && (f.range != All ==> m.startedAt >= Cutoff(f.range, c))
    && (f.onlyFake ==> m.isFake)
    && (f.onlyActive ==> m.endedAt.None?)
    && (f.onlyRecorded ==> m.videoUrl.Some?)
  }

  /** "All time" adds no date constraint, any other range exactly one; each flag adds its own
      constraint exactly when it is set. */
  lemma ConstraintsExact(f: MatchFilters, c: Cutoffs)
    ensures (exists t :: StartedSince(t) in Constraints(f, c)) <==> f.range != All
    ensures f.range != All ==> StartedSince(Cutoff(f.range, c)) in Constraints(f, c)
    ensures IsFake in Constraints(f, c) <==> f.onlyFake
    ensures Active in Constraints(f, c) <==> f.onlyActive
    ensures Recorded in Constraints(f, c) <==> f.onlyRecorded
    ensures |Constraints(f, c)| == (if f.range != All then 1 else 0) + (if f.onlyFake then 1 else 0)
                                   + (if f.onlyActive then 1 else 0) + (if f.onlyRecorded then 1 else 0)
  {
    if f.range != All {
      assert StartedSince(Cutoff(f.range, c)) in Constraints(f, c);
    }
  }

  /** The query holds nothing but those constraints. */
  lemma ConstraintsOnly(f: MatchFilters, c: Cutoffs)
    ensures forall k | k in Constraints(f, c) ::
      (f.range != All && k == StartedSince(Cutoff(f.range, c))) || k == IsFake || k == Active || k == Recorded
  {
  }

  /** A row meets every constraint of the query exactly when it is what the panel asks for. */
  lemma ConstraintsMeaning(m: MatchRecord, f: MatchFilters, c: Cutoffs)
    ensures (forall k | k in Constraints(f, c) :: Satisfies(m, k)) <==> Wanted(m, f, c)
  {
    ConstraintsExact(f, c);
    ConstraintsOnly(f, c);
  }

  /** A row is fetched exactly when it meets every filter that is set. */
  lemma FetchMeaning(table: seq<MatchRecord>, f: MatchFilters, c: Cutoffs, m: MatchRecord)
    requires m in table
    ensures m in Fetch(table, f, c) <==> Wanted(m, f, c)
  {
    ConstraintsMeaning(m, f, c);
    var k :| 0 <= k < |table| && table[k] == m;
  }

  // ---------------------------------------------------------------------------
  // The search

  /** The term occurs, as typed, in the match id, a non-empty first peer or a non-empty second peer. */
  predicate Mentions(m: MatchRecord, term: string)
  {
    || Contains(m.id, term)
    || (m.peerA != "" && Contains(m.peerA, term))
    || (m.peerB.Some? && m.peerB.value != "" && Contains(m.peerB.value, term))
  }

  /** The search effect: an empty term shows every fetched match. */
  function Search(matches: seq<MatchRecord>, term: string): (r: seq<MatchRecord>)
    ensures term == "" ==> r == matches
    ensures forall i :: 0 <= i < |r| ==> r[i] in matches && (term != "" ==> Mentions(r[i], term))
    ensures forall i :: 0 <= i < |matches| && Mentions(matches[i], term) ==> matches[i] in r
  {
    if term == "" then matches else Filter(matches, (m: MatchRecord) => Mentions(m, term))
  }

  /** The search keeps the fetched order. */
  lemma SearchIsSubsequence(matches: seq<MatchRecord>, term: string)
    ensures IsSubsequence(Search(matches, term), matches)
  {
    if term == "" {
      FilterKeepsAll(matches, (m: MatchRecord) => true);
      FilterIsSubsequence(matches, (m: MatchRecord) => true);
    } else {
      FilterIsSubsequence(matches, (m: MatchRecord) => Mentions(m, term));
    }
  }

  /** Unlike the user list, the match search is case-sensitive. */
  lemma SearchIsCaseSensitive()
    ensures var m := MatchRecord("AB", "", None, true, 0, None, None, None);
      Search([m], "AB") == [m] && Search([m], "ab") == []
  {
    var m := MatchRecord("AB", "", None, true, 0, None, None, None);
    assert OccursAt(m.id, "AB", 0);
    assert !OccursAt("AB", "ab", 0) by {
      assert "AB"[0..2][0] == 'A';
    }
    assert !Mentions(m, "ab");
  }

  // ---------------------------------------------------------------------------
  // Ending a match

  /** The rows with that id: `.single()` yields a row only when there is exactly one. */
  function Single(table: seq<MatchRecord>, id: string): (r: Option<MatchRecord>)
    ensures r.Some? ==> r.value in table && r.value.id == id
  {
    var hits := Filter(table, (m: MatchRecord) => m.id == id);
    if |hits| == 1 then Some(hits[0]) else None
  }

  /** `.single()` finds a row exactly when one position of the table has the id, and the row
      it finds is the one at that position. */
  lemma SingleMeaning(table: seq<MatchRecord>, id: string)
    ensures Single(table, id).Some? <==>
              exists i :: 0 <= i < |table| && table[i].id == id && forall j :: 0 <= j < |table| && table[j].id == id ==> j == i
    ensures forall i :: 0 <= i < |table| && table[i].id == id && Single(table, id).Some? ==> Single(table, id).value == table[i]
  {
    var p := (m: MatchRecord) => m.id == id;
    var hits := Filter(table, p);
    if |hits| == 1 {
      var i :| 0 <= i < |table| && table[i] == hits[0];
      FilterOne(table, p, i);
    }
    forall i | 0 <= i < |table| && table[i].id == id && forall j :: 0 <= j < |table| && table[j].id == id ==> j == i
      ensures |hits| == 1
    {
      FilterOne(table, p, i);
    }
  }

  /** `handleEndMatch` at time `now`: when the lookup finds the row, every row with that id gets
      `ended_at = now` and the elapsed whole seconds as its duration; a failed update changes
      nothing. */
  function EndMatch(table: seq<MatchRecord>, id: string, now: int, updateFails: bool): (r: seq<MatchRecord>)
    ensures |r| == |table|
    ensures Single(table, id).None? || updateFails ==> r == table
    ensures forall i :: 0 <= i < |r| && table[i].id != id ==> r[i] == table[i]
    ensures Single(table, id).Some? && !updateFails ==>
              forall i :: 0 <= i < |r| && table[i].id == id ==>
                r[i] == table[i].(endedAt := Some(now),
                                  duration := Some(SocketHandlers.DurationSeconds(Single(table, id).value.startedAt, now)))
  {
    match Single(table, id)
    case None => table
    case Some(found) =>
      if updateFails then table
      else
        var duration := (now - found.startedAt) / 1000;
        seq(|table|, i requires 0 <= i < |table| =>
          if table[i].id == id then table[i].(endedAt := Some(now), duration := Some(duration)) else table[i])
  }

  /** The row the admin ends now reads as the server's own end of a match: ended at `now`, with
      the same duration the server records, and nothing else of it changed. */
  lemma EndMatchAgreesWithServer(table: seq<MatchRecord>, id: string, now: int, i: int)
    requires 0 <= i < |table| && table[i].id == id && Single(table, id).Some?
    ensures var m := EndMatch(table, id, now, false)[i];
      && m == table[i].(endedAt := Some(now), duration := m.duration)
      && m.duration == Some(SocketHandlers.DurationSeconds(table[i].startedAt, now))
  {
    var hits := Filter(table, (m: MatchRecord) => m.id == id);
    assert table[i] in hits;
    var k :| 0 <= k < |hits| && hits[k] == table[i];
  }

  /** The server's view of a row. */
  function AsServerRow(m: MatchRecord): SocketHandlers.MatchRow
  {
    SocketHandlers.MatchRow(m.id, m.peerA, m.peerB, m.isFake, m.startedAt, m.endedAt, m.duration)
  }

  /** Ending a match from the admin page keeps the row well formed in the server's sense:
      ended exactly when it has a duration, and that duration the elapsed whole seconds. */
  lemma EndMatchKeepsRowsWellFormed(table: seq<MatchRecord>, id: string, now: int, updateFails: bool)
    requires forall i :: 0 <= i < |table| ==> SocketHandlers.WellFormedRow(AsServerRow(table[i]))
    ensures var t := EndMatch(table, id, now, updateFails);
      forall i :: 0 <= i < |t| ==> SocketHandlers.WellFormedRow(AsServerRow(t[i]))
  {
    var t := EndMatch(table, id, now, updateFails);
    forall i | 0 <= i < |t|
      ensures SocketHandlers.WellFormedRow(AsServerRow(t[i]))
    {
      if Single(table, id).Some? && !updateFails && table[i].id == id {
        EndMatchAgreesWithServer(table, id, now, i);
      }
    }
  }

  // ---------------------------------------------------------------------------
  // The row display

  /** The duration cell as written: "N seconds" when the duration is truthy, "In progress" otherwise. */
  function DurationLabel(m: MatchRecord): string
  {
    if m.duration.Some? && m.duration.value != 0 then Profile.IntToString(m.duration.value) + " seconds"
    else "In progress"
  }

  /** The duration cell shows seconds exactly when the duration is truthy: a missing or a zero
      duration both read "In progress". */
  lemma DurationLabelCases(m: MatchRecord)
    ensures DurationLabel(m) == "In progress" <==> m.duration.None? || m.duration.value == 0
    ensures m.duration.Some? && m.duration.value != 0 ==>
      DurationLabel(m) == Profile.IntToString(m.duration.value) + " seconds"
  {
    if m.duration.Some? && m.duration.value != 0 {
      var text := Profile.IntToString(m.duration.value) + " seconds";
      assert text[|text| - 8] == ' ' && "In progress"[3] == 'p';
    }
  }

  /** The status cell. */
  function StatusLabel(m: MatchRecord): (r: string)
    ensures r == "Ended" <==> m.endedAt.Some?
    ensures r == "Active" <==> m.endedAt.None?
  {
    if m.endedAt.Some? then "Ended" else "Active"
  }

  /** The end button is offered only on a match that has not ended. */
  predicate OffersEnd(m: MatchRecord)
  {
    m.endedAt.None?
  }

  /** As written, a match ended within its first second shows "In progress" beside "Ended". */
  lemma ZeroSecondMatchShownInProgress()
    ensures var t := [MatchRecord("m", "a", Some("b"), false, 5000, None, None, None)];
      var m := EndMatch(t, "m", 5999, false)[0];
      StatusLabel(m) == "Ended" && DurationLabel(m) == "In progress"
  {
    var t := [MatchRecord("m", "a", Some("b"), false, 5000, None, None, None)];
    assert Filter(t, (m: MatchRecord) => m.id == "m") == t;
  }

  /** The duration cell keyed on whether the match has ended, as the status cell is. */
  function EndedDurationLabel(m: MatchRecord): string
  {
    if m.endedAt.Some? && m.duration.Some? then Profile.IntToString(m.duration.value) + " seconds"
    else "In progress"
  }

  /** The corrected duration cell never contradicts the status cell: on a well-formed row it
      reads "In progress" exactly when the match is active. */
  lemma EndedDurationAgreesWithStatus(m: MatchRecord)
    requires SocketHandlers.WellFormedRow(AsServerRow(m))
    ensures EndedDurationLabel(m) == "In progress" <==> StatusLabel(m) == "Active"
  {
    if m.endedAt.Some? {
      var text := Profile.IntToString(m.duration.value) + " seconds";
      assert text[|text| - 8] == ' ' && "In progress"[3] == 'p';
    }
  }
}
