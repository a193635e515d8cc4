/** The coin ledger endpoint, `POST /api/transactions` (server/routes/transactionRoutes.js).

    A request is checked in a fixed order (fields present, known type, known
    user, non-zero amount, enough coins for a spend); an accepted request
    records a transaction whose amount carries the sign of its type, then
    writes the new balance, and deletes the transaction again if that write
    fails. The `users` coin column and the `transactions` table are fields of
    a `Ledger` object; store failures are parameters. */
module Transactions {
  import opened Common

  const MissingFields := "Missing required fields"
  const InvalidType := "Invalid transaction type"
  const UserNotFound := "User not found"
  const InvalidAmount := "Invalid amount"
  const InsufficientCoins := "Insufficient coins"
  const CreateFailed := "Failed to create transaction"
  const UpdateFailed := "Failed to update balance"
  const Completed := "completed"

  /** The JSON body; `amount` is `None` when the field is absent (`undefined`),
      and "" stands for a falsy string field. */
  datatype Request = Request(userId: string, amount: Option<int>, txType: string, reason: string)

  /** A `transactions` row. */
  datatype TxRow = TxRow(id: string, userId: string, amount: int, txType: string, reason: string, status: string)

  /** The HTTP answer: status, `success`, `error`, and on success the transaction and new balance. */
  datatype Response = Response(status: int, success: bool, error: string, transaction: Option<TxRow>, newBalance: Option<int>)

  /** The outcome of the checks: a rejection, or the signed amount to record and the balance to write. */
  datatype Verdict = Reject(status: int, message: string) | Accept(signed: int, newBalance: int)

  function Abs(n: int): (r: nat)
    ensures r == n || r == -n
  {
    if n < 0 then -n else n
  }

  /** `userId`, `type` and `reason` truthy and `amount` defined. */
  predicate FieldsPresent(req: Request)
  {
    req.userId != "" && req.amount.Some? && req.txType != "" && req.reason != ""
  }

  predicate KnownType(t: string)
  {
    t == "purchase" || t == "spend"
  }

  /** The validation chain and balance arithmetic (transactionRoutes.js:61-150);
      `balance` is the user's coins, or `None` when the lookup errs or finds no row. */
  function Check(req: Request, balance: Option<int>): Verdict
  {
    if !FieldsPresent(req) then Reject(400, MissingFields)
    else if !KnownType(req.txType) then Reject(400, InvalidType)
    else if balance.None? then Reject(404, UserNotFound)
    else
      var abs: int := Abs(req.amount.value);
      var coins := balance.value;
      if abs <= 0 then Reject(400, InvalidAmount)
      else if req.txType == "spend" && coins < abs then Reject(400, InsufficientCoins)
      else
        var newBalance := if req.txType == "purchase" then coins + abs else coins - abs;
        Accept(if req.txType == "purchase" then abs else -abs, newBalance)
  }

  /** The checks run in order: the first failing one decides the answer. */
  lemma CheckOrder(req: Request, balance: Option<int>)
    ensures !FieldsPresent(req) ==> Check(req, balance) == Reject(400, MissingFields)
    ensures FieldsPresent(req) && !KnownType(req.txType) ==> Check(req, balance) == Reject(400, InvalidType)
    ensures FieldsPresent(req) && KnownType(req.txType) && balance.None? ==> Check(req, balance) == Reject(404, UserNotFound)
    ensures FieldsPresent(req) && KnownType(req.txType) && req.amount == Some(0) && balance.Some? ==>
              Check(req, balance) == Reject(400, InvalidAmount)
    ensures Check(req, balance).Accept? ==> FieldsPresent(req) && KnownType(req.txType) && balance.Some? && req.amount != Some(0)
  {
  }

  /** Every accepted request moves the balance by exactly the signed amount it records;
      the amount is +|amount| for a purchase and -|amount| for a spend, never zero. */
  lemma AcceptedArithmetic(req: Request, coins: int)
    requires Check(req, Some(coins)).Accept?
    ensures var v := Check(req, Some(coins));
      && req.amount.Some? && v.signed != 0
      && v.newBalance == coins + v.signed
      && (req.txType == "purchase" ==> v.signed == Abs(req.amount.value) && v.newBalance > coins)
      && (req.txType == "spend" ==> v.signed == -(Abs(req.amount.value) as int) && v.newBalance < coins)
      && (req.txType == "purchase" || req.txType == "spend")
  {
  }

  /** An accepted spend never takes the balance below zero, and a spend is accepted
      exactly when the balance covers |amount|. */
  lemma SpendNeverOverdraws(req: Request, coins: int)
    requires req.userId != "" && req.amount.Some? && req.amount.value != 0 && req.reason != "" && req.txType == "spend"
    ensures Check(req, Some(coins)).Accept? <==> coins >= Abs(req.amount.value)
    ensures Check(req, Some(coins)).Accept? ==> Check(req, Some(coins)).newBalance >= 0
    ensures !Check(req, Some(coins)).Accept? ==> Check(req, Some(coins)) == Reject(400, InsufficientCoins)
  {
  }

  /** The sign of the request amount is ignored. */
  lemma SignIgnored(req: Request, balance: Option<int>)
    requires req.amount.Some?
    ensures Check(req.(amount := Some(-req.amount.value)), balance) == Check(req, balance)
  {
  }

  /** The transactions other than the one with id `txId`. */
  function WithoutTx(txs: seq<TxRow>, txId: string): (r: seq<TxRow>)
    ensures forall i :: 0 <= i < |r| ==> r[i].id != txId && r[i] in txs
    ensures forall t | t in txs && t.id != txId :: t in r
    ensures IsSubsequence(r, txs)
  {
    FilterIsSubsequence(txs, (t: TxRow) => t.id != txId);
    Filter(txs, (t: TxRow) => t.id != txId)
  }

  /** Deleting a freshly appended row gives the table back. */
  lemma DeleteUndoesInsert(txs: seq<TxRow>, row: TxRow)
    requires forall i :: 0 <= i < |txs| ==> txs[i].id != row.id
    ensures WithoutTx(txs + [row], row.id) == txs
  {
    var p := (t: TxRow) => t.id != row.id;
    FilterKeepsAll(txs, p);
    FilterAppendDropped(txs, row, p);
  }

  lemma {:induction false} FilterAppendDropped(xs: seq<TxRow>, x: TxRow, p: TxRow -> bool)
    requires !p(x)
    ensures Filter(xs + [x], p) == Filter(xs, p)
    decreases |xs|
  {
    if xs == [] {
      assert [x][1..] == [];
    } else {
      assert (xs + [x])[1..] == xs[1..] + [x];
      FilterAppendDropped(xs[1..], x, p);
    }
  }

  /** The balances are never negative. */
  predicate NonNegative(coins: map<string, int>)
  {
    forall u :: u in coins ==> coins[u] >= 0
  }

  class Ledger {
    /** The `coins` column of `users`. */
    var coins: map<string, int>
    var transactions: seq<TxRow>

    ghost predicate Valid()
      reads this
    {
      NonNegative(coins)
    }

    constructor (balances: map<string, int>)
      requires NonNegative(balances)
      ensures Valid() && coins == balances && transactions == []
    {
      coins := balances;
      transactions := [];
    }

    /** The route handler. `txId` is the fresh uuid; the three flags say which store call fails. */
    method Post(req: Request, lookupFails: bool, txId: string, insertFails: bool, updateFails: bool, deleteFails: bool)
      returns (resp: Response)
      requires Valid()
      requires forall i :: 0 <= i < |transactions| ==> transactions[i].id != txId
      modifies this
      ensures Valid()
      ensures var balance := if lookupFails || req.userId !in old(coins) then None else Some(old(coins)[req.userId]);
        match Check(req, balance)
        case Reject(status, message) =>
          resp == Response(status, false, message, None, None) && coins == old(coins) && transactions == old(transactions)
        case Accept(signed, newBalance) =>
          var row := TxRow(txId, req.userId, signed, req.txType, req.reason, Completed);
          if insertFails then
            resp == Response(500, false, CreateFailed, None, None) && coins == old(coins) && transactions == old(transactions)
          else if updateFails then
            && resp == Response(500, false, UpdateFailed, None, None) && coins == old(coins)
            && transactions == (if deleteFails then old(transactions) + [row] else old(transactions))
          else
            && resp == Response(200, true, "", Some(row), Some(newBalance))
            && coins == old(coins)[req.userId := newBalance] && transactions == old(transactions) + [row]
    {
      var balance := if lookupFails || req.userId !in coins then None else Some(coins[req.userId]);
      var verdict := Check(req, balance);
      if verdict.Reject? {
        return Response(verdict.status, false, verdict.message, None, None);
      }
      AcceptedArithmetic(req, balance.value);
      var row := TxRow(txId, req.userId, verdict.signed, req.txType, req.reason, Completed);
      if insertFails {
        return Response(500, false, CreateFailed, None, None);
      }
      transactions := transactions + [row];
      if updateFails {
        if !deleteFails {
          DeleteUndoesInsert(old(transactions), row);
          transactions := WithoutTx(transactions, txId);
        }
        return Response(500, false, UpdateFailed, None, None);
      }
      coins := coins[req.userId := verdict.newBalance];
      return Response(200, true, "", Some(row), Some(verdict.newBalance));
    }
  }
}
