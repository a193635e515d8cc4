/** The signed-in user and coin balance kept by the browser (src/contexts/AuthContext.tsx).

    `login` finds or creates the user's row, `logout` marks it offline and
    clears the session, `updateProfile` merges fields over the user, and
    `addCoins`/`spendCoins` post requests to the coin ledger and adopt the
    balance it answers. The `users` table is a field of the session object;
    the ledger's answer and store failures are parameters. */
module Auth {
  import opened Common
  import Transactions

  const StartingCoins := 10
  const PurchaseReason := "Coin purchase"
  const AddFailed := "Failed to add coins"
  const SpendFailed := "Failed to spend coins"

  /** The client's user object; `None` is a field that is null or absent. */
  datatype User = User(id: string, name: Option<string>, profilePicture: Option<string>, email: Option<string>,
                       bio: Option<string>, gender: Option<string>, age: Option<int>, country: Option<string>)

  /** A `users` row as `login` reads and writes it. */
  datatype UserRow = UserRow(username: string, coins: int, isOnline: bool, lastSeen: int,
                             profilePicture: Option<string>, bio: Option<string>, gender: Option<string>,
                             age: Option<int>, country: Option<string>)

  /** The object passed to `updateProfile`: a field is `Some` when the key is present. */
  datatype Patch = Patch(name: Option<Option<string>>, profilePicture: Option<Option<string>>, bio: Option<Option<string>>,
                         gender: Option<Option<string>>, age: Option<Option<int>>, country: Option<Option<string>>)

  function Prefix(s: string, n: nat): (r: string)
    ensures |r| <= n && r <= s
    ensures |s| >= n ==> |r| == n
  {
    if |s| <= n then s else s[..n]
  }

  /** The username of a new row: the given name, or "User" and the first six characters of the id. */
  function NewUsername(u: User): (r: string)
    ensures u.name.Some? && u.name.value != "" ==> r == u.name.value
    ensures (u.name.None? || u.name.value == "") ==> "User" <= r && r[4..] <= u.id && |r| == 4 + (if |u.id| < 6 then |u.id| else 6)
  {
    if u.name.Some? && u.name.value != "" then u.name.value else "User" + Prefix(u.id, 6)
  }

  /** The user after a login that found a row: the row's profile fields replace the given ones. */
  function WithStoredProfile(u: User, row: UserRow): User
  {
    u.(profilePicture := row.profilePicture, bio := row.bio, gender := row.gender, age := row.age, country := row.country)
  }

  function Override<T>(old_: T, patch: Option<T>): T
  {
    if patch.Some? then patch.value else old_
  }

  /** `{...user, ...data}`: a key present in the patch wins. */
  function Merge(u: User, p: Patch): (r: User)
    ensures r.id == u.id && r.email == u.email
    ensures p.name.Some? ==> r.name == p.name.value
    ensures p.name.None? ==> r.name == u.name
    ensures p.profilePicture.Some? ==> r.profilePicture == p.profilePicture.value
    ensures p.profilePicture.None? ==> r.profilePicture == u.profilePicture
    ensures p.bio.Some? ==> r.bio == p.bio.value
    ensures p.bio.None? ==> r.bio == u.bio
    ensures p.gender.Some? ==> r.gender == p.gender.value
    ensures p.gender.None? ==> r.gender == u.gender
    ensures p.age.Some? ==> r.age == p.age.value
    ensures p.age.None? ==> r.age == u.age
    ensures p.country.Some? ==> r.country == p.country.value
    ensures p.country.None? ==> r.country == u.country
  {
    u.(name := Override(u.name, p.name), profilePicture := Override(u.profilePicture, p.profilePicture),
       bio := Override(u.bio, p.bio), gender := Override(u.gender, p.gender), age := Override(u.age, p.age),
       country := Override(u.country, p.country))
  }

  /** Applying the same profile update twice is applying it once; an empty patch changes nothing. */
  lemma MergeIdempotent(u: User, p: Patch)
    ensures Merge(Merge(u, p), p) == Merge(u, p)
    ensures Merge(u, Patch(None, None, None, None, None, None)) == u
  {
  }

  /** `{...p, ...q}` on patches. */
  function Combine(p: Patch, q: Patch): Patch
  {
    Patch(Later(p.name, q.name), Later(p.profilePicture, q.profilePicture), Later(p.bio, q.bio),
          Later(p.gender, q.gender), Later(p.age, q.age), Later(p.country, q.country))
  }

  function Later<T>(a: Option<T>, b: Option<T>): Option<T>
  {
    if b.Some? then b else a
  }

  /** Later keys win: two updates in a row are one update with the second's keys on top. */
  lemma MergeLaterWins(u: User, p: Patch, q: Patch)
    ensures Merge(Merge(u, p), q) == Merge(u, Combine(p, q))
  {
  }

  /** The body `addCoins` posts. */
  function PurchaseRequest(userId: string, amount: int): Transactions.Request
  {
    Transactions.Request(userId, Some(Transactions.Abs(amount)), "purchase", PurchaseReason)
  }

  /** The body `spendCoins` posts. */
  function SpendRequest(userId: string, amount: int, reason: string): Transactions.Request
  {
    Transactions.Request(userId, Some(-(Transactions.Abs(amount) as int)), "spend", reason)
  }

  /** A purchase of a non-zero amount by a known user is always accepted and adds |amount|. */
  lemma PurchaseAccepted(userId: string, amount: int, coins: int)
    requires userId != "" && amount != 0
    ensures Transactions.Check(PurchaseRequest(userId, amount), Some(coins))
              == Transactions.Accept(Transactions.Abs(amount), coins + Transactions.Abs(amount))
  {
  }

  /** The ledger accepts the client's spend exactly when the stored balance covers |amount|,
      and then records -|amount| and answers the reduced balance. */
  lemma SpendAgreesWithLedger(userId: string, amount: int, reason: string, coins: int)
    requires userId != "" && amount != 0 && reason != ""
    ensures Transactions.Check(SpendRequest(userId, amount, reason), Some(coins)).Accept? <==> coins >= Transactions.Abs(amount)
    ensures coins >= Transactions.Abs(amount) ==>
              Transactions.Check(SpendRequest(userId, amount, reason), Some(coins))
                == Transactions.Accept(-(Transactions.Abs(amount) as int), coins - Transactions.Abs(amount))
  {
  }

  /** A ledger answer the client treats as success (`response.ok && data.success`, with a balance). */
  predicate Succeeded(resp: Transactions.Response)
  {
    200 <= resp.status < 300 && resp.success && resp.newBalance.Some?
  }

  /** `data.error || fallback`. */
  function ErrorText(resp: Transactions.Response, fallback: string): string
  {
    if resp.error != "" then resp.error else fallback
  }

  class AuthSession {
    var user: Option<User>
    var isAdmin: bool
    var coins: int
    var error: Option<string>
    /** The `users` table. */
    var rows: map<string, UserRow>
    /** The bodies posted to the coin ledger, oldest first. */
    var requests: seq<Transactions.Request>

    constructor (table: map<string, UserRow>)
      ensures user.None? && !isAdmin && coins == StartingCoins && error.None? && rows == table && requests == []
    {
      user, isAdmin, coins, error, rows, requests := None, false, StartingCoins, None, table, [];
    }

    /** `login(mockUser)`; `failure` is the message of the error a failing store call throws. */
    method Login(u: User, fetchFails: bool, writeFails: bool, failure: string, now: int) returns (thrown: bool)
      modifies this
      ensures thrown <==> fetchFails || writeFails
      ensures thrown ==> user == old(user) && coins == old(coins) && rows == old(rows) && error == Some(failure)
      ensures !thrown && u.id !in old(rows) ==>
        && rows == old(rows)[u.id := UserRow(NewUsername(u), StartingCoins, true, now, None, None, None, None, None)]
        && coins == StartingCoins && user == Some(u) && error.None?
      ensures !thrown && u.id in old(rows) ==>
        && rows == old(rows)[u.id := old(rows)[u.id].(isOnline := true, lastSeen := now)]
        && coins == old(rows)[u.id].coins && user == Some(WithStoredProfile(u, old(rows)[u.id])) && error.None?
      ensures isAdmin == old(isAdmin) && requests == old(requests)
    {
      if fetchFails || writeFails {
        error := Some(failure);
        return true;
      }
      if u.id !in rows {
        rows := rows[u.id := UserRow(NewUsername(u), StartingCoins, true, now, None, None, None, None, None)];
        coins := StartingCoins;
        user := Some(u);
      } else {
        var row := rows[u.id];
        rows := rows[u.id := row.(isOnline := true, lastSeen := now)];
        coins := row.coins;
        user := Some(WithStoredProfile(u, row));
      }
      error := None;
      return false;
    }

    /** `logout()`; `thrown` says whether the offline update rejects, in which case nothing
        changes; `writeFails` says whether it resolves with `{ error }`, which the `.then` does
        not read: the session is cleared all the same and the row stays as it was. */
    method Logout(thrown: bool, writeFails: bool, now: int)
      modifies this
      ensures old(user).None? || thrown ==> user == old(user) && coins == old(coins) && isAdmin == old(isAdmin) && error == old(error) && rows == old(rows)
      ensures old(user).Some? && !thrown ==>
        && user.None? && !isAdmin && error.None? && coins == 0
        && var id := old(user).value.id;
           rows == (if writeFails || id !in old(rows) then old(rows) else old(rows)[id := old(rows)[id].(isOnline := false, lastSeen := now)])
      ensures requests == old(requests)
    {
      if user.None? || thrown {
        return;
      }
      var id := user.value.id;
      if !writeFails && id in rows {
        rows := rows[id := rows[id].(isOnline := false, lastSeen := now)];
      }
      user := None;
      isAdmin := false;
      error := None;
      coins := 0;
    }

    method UpdateProfile(p: Patch)
      modifies this
      ensures user == (if old(user).None? then None else Some(Merge(old(user).value, p)))
      ensures coins == old(coins) && isAdmin == old(isAdmin) && error == old(error) && rows == old(rows) && requests == old(requests)
    {
      if user.None? {
        return;
      }
      user := Some(Merge(user.value, p));
    }

    /** `addCoins(amount)`; `reply` is the ledger's answer, `None` when the request itself throws
        (with message `failure`). */
    method AddCoins(amount: int, reply: Option<Transactions.Response>, failure: string) returns (thrown: bool)
      modifies this
      ensures old(user).None? ==> !thrown && requests == old(requests) && coins == old(coins) && error == old(error)
      ensures old(user).Some? ==> requests == old(requests) + [PurchaseRequest(old(user).value.id, amount)]
      ensures old(user).Some? && reply.Some? && Succeeded(reply.value) ==>
                !thrown && coins == reply.value.newBalance.value && error == old(error)
      ensures old(user).Some? && reply.Some? && !Succeeded(reply.value) ==>
                thrown && coins == old(coins) && error == Some(ErrorText(reply.value, AddFailed))
      ensures old(user).Some? && reply.None? ==> thrown && coins == old(coins) && error == Some(failure)
      ensures user == old(user) && isAdmin == old(isAdmin) && rows == old(rows)
    {
      if user.None? {
        return false;
      }
      requests := requests + [PurchaseRequest(user.value.id, amount)];
      if reply.None? {
        error := Some(failure);
        return true;
      }
      if !Succeeded(reply.value) {
        error := Some(ErrorText(reply.value, AddFailed));
        return true;
      }
      coins := reply.value.newBalance.value;
      return false;
    }

    /** `spendCoins(amount, reason)`: refused locally without a user or when the
        balance is below `amount`; otherwise the ledger decides. */
    method SpendCoins(amount: int, reason: string, reply: Option<Transactions.Response>, failure: string) returns (ok: bool)
      modifies this
      ensures old(user).None? || old(coins) < amount ==> !ok && requests == old(requests) && coins == old(coins) && error == old(error)
      ensures old(user).Some? && old(coins) >= amount ==> requests == old(requests) + [SpendRequest(old(user).value.id, amount, reason)]
      ensures ok <==> old(user).Some? && old(coins) >= amount && reply.Some? && Succeeded(reply.value)
      ensures ok ==> coins == reply.value.newBalance.value && error == old(error)
      ensures !ok ==> coins == old(coins)
      ensures old(user).Some? && old(coins) >= amount && reply.Some? && !Succeeded(reply.value) ==>
                error == Some(ErrorText(reply.value, SpendFailed))
      ensures old(user).Some? && old(coins) >= amount && reply.None? ==> error == Some(failure)
      ensures user == old(user) && isAdmin == old(isAdmin) && rows == old(rows)
    {
      if user.None? || coins < amount {
        return false;
      }
      requests := requests + [SpendRequest(user.value.id, amount, reason)];
      if reply.None? {
        error := Some(failure);
        return false;
      }
      if !Succeeded(reply.value) {
        error := Some(ErrorText(reply.value, SpendFailed));
        return false;
      }
      coins := reply.value.newBalance.value;
      return true;
    }
  }
}
