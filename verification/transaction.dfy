/** Transaction records and the process-wide counter that numbers them. */
module Transactions {
  import opened BankErrors
  import opened Text

  datatype TxType = Deposit | Withdrawal | TransferIn | TransferOut

  /** One immutable history entry. The timestamp is not modelled. */
  datatype Transaction = Transaction(
    id: int,
    kind: TxType,
    amount: real,
    balanceAfter: real,
    description: string)

  /** The constructor's checks, in the order it makes them: a missing type,
      a non-positive amount, a missing or blank description. */
  function CheckTransaction(kind: Option<TxType>, amount: real, description: Option<string>): (r: Outcome)
    ensures r.Pass? <==> kind.Some? && amount > 0.0 && description.Some? && !IsBlank(description.value)
    ensures kind.None? ==> r == Fail(IllegalArgument(MissingTransactionType))
    ensures kind.Some? && amount <= 0.0 ==> r == Fail(IllegalArgument(NonPositiveTransactionAmount(amount)))
  {
    if kind.None? then Fail(IllegalArgument(MissingTransactionType))
    else if amount <= 0.0 then Fail(IllegalArgument(NonPositiveTransactionAmount(amount)))
    else if description.None? || IsBlank(description.value) then Fail(IllegalArgument(BlankDescription))
    else Pass
  }

  /** The record the constructor builds once its checks pass. */
  function Record(id: int, kind: TxType, amount: real, balanceAfter: real, description: string): Transaction {
    Transaction(id, kind, amount, balanceAfter, Trim(description))
  }

  /** What every constructed record satisfies: a positive amount and a
      non-empty description with nothing left to trim. */
  predicate WellFormed(t: Transaction) {
    t.amount > 0.0 && IsTrimmed(t.description)
  }

  /** A record built from arguments that pass the checks is well formed. */
  lemma RecordWellFormed(id: int, kind: TxType, amount: real, balanceAfter: real, description: string)
    requires CheckTransaction(Some(kind), amount, Some(description)).Pass?
    ensures WellFormed(Record(id, kind, amount, balanceAfter, description))
    ensures Record(id, kind, amount, balanceAfter, description).id == id
  {
    TrimIsSlice(description);
  }

  /** The static `nextId` of the transaction class, made explicit. */
  class TransactionCounter {
    var nextId: int

    /** The first id handed out is 1. */
    constructor ()
      ensures nextId == 1
    {
      nextId := 1;
    }

    /** The transaction constructor: validate, then take the current id and
        advance the counter. A failed construction consumes no id. */
    method NewTransaction(kind: Option<TxType>, amount: real, balanceAfter: real, description: Option<string>)
      returns (r: Result<Transaction>)
      modifies this
      ensures CheckTransaction(kind, amount, description).Fail? ==>
        r == Failure(CheckTransaction(kind, amount, description).error) && nextId == old(nextId)
      ensures CheckTransaction(kind, amount, description).Pass? ==>
        && r == Success(Record(old(nextId), kind.value, amount, balanceAfter, description.value))
        && nextId == old(nextId) + 1
      ensures r.Success? ==> WellFormed(r.value)
    {
      var check := CheckTransaction(kind, amount, description);
      if check.Fail? {
        return Failure(check.error);
      }
      RecordWellFormed(nextId, kind.value, amount, balanceAfter, description.value);
      r := Success(Record(nextId, kind.value, amount, balanceAfter, description.value));
      nextId := nextId + 1;
    }
  }
}
