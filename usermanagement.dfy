/** The admin user list (src/pages/admin/UserManagement.tsx).

    The page fetches the `users` rows that meet the chosen attribute filters,
    then narrows them in the browser by a case-insensitive search on the
    username and the id. Ban and unban set one row's `is_banned` flag. */
module UserManagement {
  import opened Common

  datatype UserRecord = UserRecord(id: string, username: string, country: Option<string>, gender: Option<string>,
                                   isOnline: bool, isBanned: bool)

  /** The filter panel; "" is an unset text filter. */
  datatype UserFilters = UserFilters(country: string, gender: string, onlineOnly: bool, bannedOnly: bool)

  /** One equality constraint added to the query. */
  datatype Constraint = CountryIs(country: string) | GenderIs(gender: string) | IsOnline | IsBanned

  /** The constraints `fetchUsers` adds, in order. */
  function Constraints(f: UserFilters): seq<Constraint>
  {
    (if f.country != "" then [CountryIs(f.country)] else [])
    + (if f.gender != "" then [GenderIs(f.gender)] else [])
    + (if f.onlineOnly then [IsOnline] else [])
    + (if f.bannedOnly then [IsBanned] else [])
  }

  predicate Satisfies(u: UserRecord, c: Constraint)
  {
    match c
    case CountryIs(x) => u.country == Some(x)
    case GenderIs(x) => u.gender == Some(x)
    case IsOnline => u.isOnline
    case IsBanned => u.isBanned
  }

  /** The rows the query returns, in table order. */
  function Fetch(table: seq<UserRecord>, f: UserFilters): seq<UserRecord>
  {
    var cs := Constraints(f);
    Filter(table, (u: UserRecord) => forall c | c in cs :: Satisfies(u, c))
  }

  /** What the filter panel asks of a row. */
  predicate Wanted(u: UserRecord, f: UserFilters)
  {
    && (f.country != "" ==> u.country == Some(f.country))
    && (f.gender != "" ==> u.gender == Some(f.gender))
    && (f.onlineOnly ==> u.isOnline)
    && (f.bannedOnly ==> u.isBanned)
  }

  /** The query holds a constraint for exactly the filters that are set, and no other. */
  lemma ConstraintsExact(f: UserFilters)
    ensures CountryIs(f.country) in Constraints(f) <==> f.country != ""
    ensures GenderIs(f.gender) in Constraints(f) <==> f.gender != ""
    ensures IsOnline in Constraints(f) <==> f.onlineOnly
    ensures IsBanned in Constraints(f) <==> f.bannedOnly
  {
  }

  /** The query holds nothing but those constraints. */
  lemma ConstraintsOnly(f: UserFilters)
    ensures forall c | c in Constraints(f) :: c == CountryIs(f.country) || c == GenderIs(f.gender) || c == IsOnline || c == IsBanned
  {
  }

  /** A row meets every constraint of the query exactly when it is what the panel asks for. */
  lemma ConstraintsMeaning(u: UserRecord, f: UserFilters)
    ensures (forall c | c in Constraints(f) :: Satisfies(u, c)) <==> Wanted(u, f)
  {
    ConstraintsExact(f);
    ConstraintsOnly(f);
  }

  /** A row is fetched exactly when it meets every filter that is set. */
  lemma FetchMeaning(table: seq<UserRecord>, f: UserFilters, u: UserRecord)
    requires u in table
    ensures u in Fetch(table, f) <==> Wanted(u, f)
  {
    ConstraintsMeaning(u, f);
    var k :| 0 <= k < |table| && table[k] == u;
  }

  /** The search predicate: the lower-cased term occurs in the lower-cased username or id. */
  predicate Mentions(u: UserRecord, term: string)
  {
    Contains(Lower(u.username), Lower(term)) || Contains(Lower(u.id), Lower(term))
  }

  /** The search effect: an empty term shows every fetched row. */
  function Search(users: seq<UserRecord>, term: string): (r: seq<UserRecord>)
    ensures term == "" ==> r == users
    ensures forall i :: 0 <= i < |r| ==> r[i] in users && (term != "" ==> Mentions(r[i], term))
    ensures forall i :: 0 <= i < |users| && Mentions(users[i], term) ==> users[i] in r
  {
    if term == "" then users else Filter(users, (u: UserRecord) => Mentions(u, term))
  }

  /** The search keeps the order of the fetched rows. */
  lemma SearchIsSubsequence(users: seq<UserRecord>, term: string)
    ensures IsSubsequence(Search(users, term), users)
  {
    if term == "" {
      FilterKeepsAll(users, (u: UserRecord) => true);
      FilterIsSubsequence(users, (u: UserRecord) => true);
    } else {
      FilterIsSubsequence(users, (u: UserRecord) => Mentions(u, term));
    }
  }

  /** The case of the search term never changes the result. */
  lemma SearchIgnoresCase(users: seq<UserRecord>, term: string)
    ensures Search(users, term) == Search(users, Lower(term))
  {
    LowerIdempotent(term);
    if term != "" {
      assert Lower(term) != [];
      FilterCongruent(users, (u: UserRecord) => Mentions(u, term), (u: UserRecord) => Mentions(u, Lower(term)));
    }
  }

  /** `handleBanUser` / `handleUnbanUser`: set `is_banned` on the row with that id; a failed
      update changes nothing. */
  function SetBanned(table: map<string, UserRecord>, id: string, banned: bool, fails: bool): (r: map<string, UserRecord>)
    ensures r.Keys == table.Keys
    ensures forall k :: k in table && (k != id || fails) ==> r[k] == table[k]
    ensures !fails && id in table ==> r[id] == table[id].(isBanned := banned)
  {
    if fails || id !in table then table else table[id := table[id].(isBanned := banned)]
  }

  /** Unbanning a user the admin just banned gives back a table where that user is unbanned
      and nothing else differs; banning twice is banning once. */
  lemma BanThenUnban(table: map<string, UserRecord>, id: string)
    ensures var t := SetBanned(SetBanned(table, id, true, false), id, false, false);
      t.Keys == table.Keys && (id in table ==> t[id] == table[id].(isBanned := false))
      && forall k :: k in table && k != id ==> t[k] == table[k]
    ensures SetBanned(SetBanned(table, id, true, false), id, true, false) == SetBanned(table, id, true, false)
  {
  }
}
