/** The admin report list (src/pages/admin/ReportViewer.tsx).

    The page fetches the reports newest first, only the unresolved ones unless
    resolved reports are shown too, and narrows them in the browser by a
    search that matches the ids exactly as typed and the reason without
    regard to case. An unresolved report offers "resolve", and "ban" when it
    names a reported user. */
module ReportViewer {
  import opened Common
  import UserManagement

  /** A `reports` row; `createdAt` is a timestamp in milliseconds. */
  datatype ReportRecord = ReportRecord(id: string, reporterId: string, reportedId: Option<string>, matchId: string,
                                       reason: string, resolved: bool, createdAt: int)

  // ---------------------------------------------------------------------------
  // The query: `order('created_at', { ascending: false })`, then `resolved = false` unless shown

  predicate NewestFirst(rs: seq<ReportRecord>)
  {
    forall i, j :: 0 <= i < j < |rs| ==> rs[i].createdAt >= rs[j].createdAt
  }

  /** Putting a row before a newest-first list that starts no later keeps it newest first. */
  lemma PrependNewest(x: ReportRecord, rs: seq<ReportRecord>)
    requires NewestFirst(rs) && (rs == [] || x.createdAt >= rs[0].createdAt)
    ensures NewestFirst([x] + rs)
  {
    var out := [x] + rs;
    forall i, j | 0 <= i < j < |out|
      ensures out[i].createdAt >= out[j].createdAt
    {
      if i == 0 {
        assert out[j] == rs[j - 1];
        assert rs[0].createdAt >= rs[j - 1].createdAt || j == 1;
      } else {
        assert out[i] == rs[i - 1] && out[j] == rs[j - 1];
      }
    }
  }

  function Insert(r: ReportRecord, rs: seq<ReportRecord>): (out: seq<ReportRecord>)
    requires NewestFirst(rs)
    ensures NewestFirst(out)
    ensures |out| == |rs| + 1 && (out[0] == r || (rs != [] && out[0] == rs[0]))
  {
    if rs == [] || r.createdAt >= rs[0].createdAt then
      PrependNewest(r, rs);
      [r] + rs
    else
      var rest := Insert(r, rs[1..]);
      PrependNewest(rs[0], rest);
      [rs[0]] + rest
  }

  /** Inserting adds exactly the one row. */
  lemma {:induction false} InsertAddsOne(r: ReportRecord, rs: seq<ReportRecord>)
    requires NewestFirst(rs)
    ensures multiset(Insert(r, rs)) == multiset(rs) + multiset{r}
  {
    if rs != [] && r.createdAt < rs[0].createdAt {
      InsertAddsOne(r, rs[1..]);
      assert rs == [rs[0]] + rs[1..];
    }
  }

  /** The rows newest first; rows with the same timestamp keep their table order. */
  function SortNewestFirst(rs: seq<ReportRecord>): (out: seq<ReportRecord>)
    ensures NewestFirst(out)
    ensures multiset(out) == multiset(rs)
  {
    if rs == [] then []
    else
      assert rs == [rs[0]] + rs[1..];
      InsertAddsOne(rs[0], SortNewestFirst(rs[1..]));
      Insert(rs[0], SortNewestFirst(rs[1..]))
  }

  /** The rows `fetchReports` returns. */
  function Fetch(table: seq<ReportRecord>, showResolved: bool): seq<ReportRecord>
  {
    SortNewestFirst(if showResolved then table else Filter(table, (r: ReportRecord) => !r.resolved))
  }

  /** The fetched rows are newest first, and are exactly the table's rows (resolved ones only
      when shown), each as often as in the table. */
  lemma FetchMeaning(table: seq<ReportRecord>, showResolved: bool)
    ensures NewestFirst(Fetch(table, showResolved))
    ensures showResolved ==> multiset(Fetch(table, true)) == multiset(table)
    ensures forall r | r in Fetch(table, showResolved) :: r in table && (showResolved || !r.resolved)
    ensures forall r | r in table && (showResolved || !r.resolved) :: r in Fetch(table, showResolved)
  {
    var kept := if showResolved then table else Filter(table, (r: ReportRecord) => !r.resolved);
    assert multiset(Fetch(table, showResolved)) == multiset(kept);
    forall r | r in Fetch(table, showResolved)
      ensures r in table && (showResolved || !r.resolved)
    {
      assert r in multiset(kept);
      var k :| 0 <= k < |kept| && kept[k] == r;
    }
    forall r | r in table && (showResolved || !r.resolved)
      ensures r in Fetch(table, showResolved)
    {
      var k :| 0 <= k < |table| && table[k] == r;
      assert r in kept;
      assert r in multiset(Fetch(table, showResolved));
    }
  }

  // ---------------------------------------------------------------------------
  // The search

  /** The term occurs as typed in the id, the reporter or a non-empty reported id,
      or lower-cased in the lower-cased reason. */
  predicate Mentions(r: ReportRecord, term: string)
  {
    || Contains(r.id, term)
    || Contains(r.reporterId, term)
    || (r.reportedId.Some? && r.reportedId.value != "" && Contains(r.reportedId.value, term))
    || Contains(Lower(r.reason), Lower(term))
  }

  /** The search effect: an empty term shows every fetched report. */
  function Search(reports: seq<ReportRecord>, term: string): (r: seq<ReportRecord>)
    ensures term == "" ==> r == reports
    ensures forall i :: 0 <= i < |r| ==> r[i] in reports && (term != "" ==> Mentions(r[i], term))
    ensures forall i :: 0 <= i < |reports| && Mentions(reports[i], term) ==> reports[i] in r
  {
    if term == "" then reports else Filter(reports, (x: ReportRecord) => Mentions(x, term))
  }

  /** The search keeps the fetched order. */
  lemma SearchIsSubsequence(reports: seq<ReportRecord>, term: string)
    ensures IsSubsequence(Search(reports, term), reports)
  {
    if term == "" {
      FilterKeepsAll(reports, (x: ReportRecord) => true);
      FilterIsSubsequence(reports, (x: ReportRecord) => true);
    } else {
      FilterIsSubsequence(reports, (x: ReportRecord) => Mentions(x, term));
    }
  }

  /** The ids are matched with case: a report found by its id in upper case need not be found
      in lower case, while its reason is found either way. */
  lemma IdsAreCaseSensitive()
    ensures var r := ReportRecord("AB", "c", None, "m", "x", false, 0);
      Mentions(r, "AB") && !Mentions(r, "ab")
    ensures var r := ReportRecord("i", "c", None, "m", "Spam", false, 0);
      Mentions(r, "spam") && Mentions(r, "SPAM")
  {
    var a := ReportRecord("AB", "c", None, "m", "x", false, 0);
    assert OccursAt(a.id, "AB", 0);
    assert Mentions(a, "AB");
    assert Lower("ab") == "ab";
    assert !OccursAt("AB", "ab", 0) by {
      assert "AB"[0..2][0] == 'A';
    }
    assert !Contains("AB", "ab");
    assert !Contains("c", "ab");
    assert !Contains(Lower("x"), "ab");
    assert !Mentions(a, "ab");
    var b := ReportRecord("i", "c", None, "m", "Spam", false, 0);
    assert Lower("Spam") == "spam" && Lower("SPAM") == "spam" && Lower("spam") == "spam";
    assert OccursAt(Lower(b.reason), "spam", 0);
    assert Mentions(b, "spam");
    assert Mentions(b, "SPAM");
  }

  // ---------------------------------------------------------------------------
  // The row actions

  datatype Action = Resolve(reportId: string) | Ban(userId: string)

  /** The buttons shown on a report. */
  function Actions(r: ReportRecord): (acts: seq<Action>)
    ensures r.resolved ==> acts == []
    ensures !r.resolved ==> |acts| >= 1 && acts[0] == Resolve(r.id)
    ensures (exists u :: Ban(u) in acts) <==> !r.resolved && r.reportedId.Some? && r.reportedId.value != ""
    ensures forall u :: Ban(u) in acts ==> r.reportedId == Some(u)
  {
    if r.resolved then []
    else if r.reportedId.Some? && r.reportedId.value != "" then
      assert Ban(r.reportedId.value) in [Resolve(r.id), Ban(r.reportedId.value)];
      [Resolve(r.id), Ban(r.reportedId.value)]
    else [Resolve(r.id)]
  }

  /** `handleResolveReport`: mark the row with that id resolved; a failed update changes nothing. */
  function ResolveReport(table: seq<ReportRecord>, id: string, fails: bool): (r: seq<ReportRecord>)
    ensures |r| == |table|
    ensures forall i :: 0 <= i < |r| ==> r[i] == if !fails && table[i].id == id then table[i].(resolved := true) else table[i]
  {
    if fails then table
    else seq(|table|, i requires 0 <= i < |table| => if table[i].id == id then table[i].(resolved := true) else table[i])
  }

  /** A resolved report drops out of the default view and no longer offers any action. */
  lemma ResolvedLeavesDefaultView(table: seq<ReportRecord>, id: string)
    ensures forall r | r in Fetch(ResolveReport(table, id, false), false) :: r.id != id
    ensures forall i :: 0 <= i < |table| && table[i].id == id ==> Actions(ResolveReport(table, id, false)[i]) == []
  {
    FetchMeaning(ResolveReport(table, id, false), false);
    var t := ResolveReport(table, id, false);
    forall r | r in Fetch(t, false)
      ensures r.id != id
    {
      var k :| 0 <= k < |t| && t[k] == r;
    }
  }

  /** The ban button bans the reported user, the same write as the user list's ban. */
  lemma BanActsOnReported(r: ReportRecord, users: map<string, UserManagement.UserRecord>)
    requires !r.resolved && r.reportedId.Some? && r.reportedId.value != "" && r.reportedId.value in users
    ensures Ban(r.reportedId.value) in Actions(r)
    ensures UserManagement.SetBanned(users, r.reportedId.value, true, false)[r.reportedId.value].isBanned
  {
  }
}
