/** The bank service: the customer list changed in place, and the
    operations that reach an account through it. */
module Bank {
  import opened BankErrors
  import opened BankConstants
  import opened Transactions
  import opened AccountRules
  import opened Accounts
  import opened Customers
  import opened Directory
  import opened Transfers

  class BankServices {
    var custlist: seq<Customer>

    /** The accounts of the listed customers. */
    ghost function AccountSet(): set<Account>
      reads this
    {
      set i | 0 <= i < |custlist| :: custlist[i].account
    }

    /** Ids and account numbers are distinct, and every account keeps its
        invariant relative to the transaction counter. */
    ghost predicate Valid(nextId: int)
      reads this, AccountSet()
    {
      && Unique(custlist)
      && forall i :: 0 <= i < |custlist| ==> custlist[i].account.Valid(nextId)
    }

    /** The account of the first customer with the id. */
    ghost function AccountOf(id: int): Account
      reads this
      requires HasId(custlist, id)
    {
      custlist[FirstIndex(custlist, id)].account
    }

    constructor ()
      ensures custlist == []
    {
      custlist := [];
    }

    /** `hasDuplicate`: some listed customer shares the id or the account number. */
    method HasDuplicate(customer: Customer) returns (b: bool)
      ensures b <==> HasId(custlist, customer.custId) || HasAccNo(custlist, customer.account.accNo)
    {
      var i := 0;
      while i < |custlist|
        invariant i <= |custlist|
        invariant forall j :: 0 <= j < i ==>
          custlist[j].custId != customer.custId && custlist[j].account.accNo != customer.account.accNo
      {
        var c := custlist[i];
        if c.custId == customer.custId || c.account.accNo == customer.account.accNo {
          return true;
        }
        i := i + 1;
      }
      return false;
    }

    /** `addAccount`, past reading the customer: a duplicate fails with
        DuplicateAccount and appends nothing; otherwise the customer is appended. */
    method AddAccount(customer: Customer, ghost nextId: int) returns (o: Outcome)
      requires Valid(nextId) && customer.account.Valid(nextId)
      modifies this
      ensures Valid(nextId)
      ensures o.Fail? <==> HasId(old(custlist), customer.custId) || HasAccNo(old(custlist), customer.account.accNo)
      ensures o.Fail? ==> o.error == DuplicateAccount(customer.account.accNo) && custlist == old(custlist)
      ensures o.Pass? ==> custlist == old(custlist) + [customer]
    {
      var dup := HasDuplicate(customer);
      if dup {
        return Fail(DuplicateAccount(customer.account.accNo));
      }
      AppendKeepsUnique(custlist, customer);
      custlist := custlist + [customer];
      o := Pass;
    }

    /** `findById`: the first customer with the id, or AccountNotFound. */
    method FindById(id: int) returns (r: Result<Customer>)
      ensures r.Failure? <==> !HasId(custlist, id)
      ensures r.Failure? ==> r.error == AccountNotFound(id)
      ensures r.Success? ==> r.value.custId == id && r.value == custlist[FirstIndex(custlist, id)]
    {
      var i := IndexOfId(custlist, id);
      if i == |custlist| {
        return Failure(AccountNotFound(id));
      }
      return Success(custlist[i]);
    }

    /** `deleteCustomer`: removes the first customer with the id, whatever its
        balance; an unknown id fails with AccountNotFound. */
    method DeleteCustomer(custId: int, ghost nextId: int) returns (o: Outcome)
      requires Valid(nextId)
      modifies this
      ensures Valid(nextId)
      ensures !HasId(old(custlist), custId) ==> o == Fail(AccountNotFound(custId)) && custlist == old(custlist)
      ensures HasId(old(custlist), custId) ==>
        o == Pass && custlist == RemoveAt(old(custlist), FirstIndex(old(custlist), custId))
    {
      var i := IndexOfId(custlist, custId);
      if i == |custlist| {
        return Fail(AccountNotFound(custId));
      }
      RemoveAtKeepsUnique(custlist, i);
      custlist := RemoveAt(custlist, i);
      o := Pass;
    }

    /** `deposit`: find the customer, then deposit into its account; no other account changes. */
    method Deposit(custId: int, amount: real, ids: TransactionCounter) returns (o: Outcome)
      requires Valid(ids.nextId)
      modifies AccountSet(), ids
      ensures Valid(ids.nextId)
      ensures !HasId(custlist, custId) ==>
        o == Fail(AccountNotFound(custId)) && unchanged(AccountSet()) && unchanged(ids)
      ensures HasId(custlist, custId) ==>
        var a := AccountOf(custId);
        && Step(o, a.State(), ids.nextId) == DepositStep(old(a.State()), a.accNo, amount, old(ids.nextId))
        && unchanged(AccountSet() - {a})
    {
      var found := FindById(custId);
      if found.Failure? {
        return Fail(found.error);
      }
      var acc := found.value.account;
      ghost var n0 := ids.nextId;
      o := acc.Deposit(amount, ids);
      forall i | 0 <= i < |custlist|
        ensures custlist[i].account.Valid(ids.nextId)
      {
        if custlist[i].account != acc {
          StaysValid(custlist[i].account, n0, ids.nextId);
        }
      }
    }

    /** `withdraw`: find the customer, then withdraw from its account; no other account changes. */
    method Withdraw(custId: int, amount: real, today: int, ids: TransactionCounter) returns (o: Outcome)
      requires Valid(ids.nextId)
      modifies AccountSet(), ids
      ensures Valid(ids.nextId)
      ensures !HasId(custlist, custId) ==>
        o == Fail(AccountNotFound(custId)) && unchanged(AccountSet()) && unchanged(ids)
      ensures HasId(custlist, custId) ==>
        var a := AccountOf(custId);
        && Step(o, a.State(), ids.nextId) == WithdrawStep(old(a.State()), a.accNo, amount, today, old(ids.nextId))
        && unchanged(AccountSet() - {a})
    {
      var found := FindById(custId);
      if found.Failure? {
        return Fail(found.error);
      }
      var acc := found.value.account;
      ghost var n0 := ids.nextId;
      o := acc.Withdraw(amount, today, ids);
      forall i | 0 <= i < |custlist|
        ensures custlist[i].account.Valid(ids.nextId)
      {
        if custlist[i].account != acc {
          StaysValid(custlist[i].account, n0, ids.nextId);
        }
      }
    }

    /** `transfer`: equal ids fail with IllegalArgument; a missing sender, then
        a missing receiver, fails with AccountNotFound; all three before any
        account is touched. Otherwise the two accounts change as TransferStep
        says, and no other account changes. */
    method Transfer(fromId: int, toId: int, amount: real, today: int, ids: TransactionCounter) returns (o: Outcome)
      requires Valid(ids.nextId)
      modifies AccountSet(), ids
      ensures Valid(ids.nextId)
      ensures fromId == toId ==> o == Fail(IllegalArgument(SameAccount))
      ensures fromId != toId && !HasId(custlist, fromId) ==> o == Fail(AccountNotFound(fromId))
      ensures fromId != toId && HasId(custlist, fromId) && !HasId(custlist, toId) ==> o == Fail(AccountNotFound(toId))
      ensures fromId == toId || !HasId(custlist, fromId) || !HasId(custlist, toId) ==>
        unchanged(AccountSet()) && unchanged(ids)
      ensures fromId != toId && HasId(custlist, fromId) && HasId(custlist, toId) ==>
        var f := AccountOf(fromId);
        var t := AccountOf(toId);
        && f != t
        && TransferResult(o, f.State(), t.State(), ids.nextId)
           == TransferStep(old(f.State()), f.accNo, old(t.State()), t.accNo, amount, today, old(ids.nextId))
        && unchanged(AccountSet() - {f, t})
    {
      if fromId == toId {
        return Fail(IllegalArgument(SameAccount));
      }
      var fromCust := FindById(fromId);
      if fromCust.Failure? {
        return Fail(fromCust.error);
      }
      var toCust := FindById(toId);
      if toCust.Failure? {
        return Fail(toCust.error);
      }
      o := MoveBetween(fromCust.value, toCust.value, amount, today, ids,
                       FirstIndex(custlist, fromId), FirstIndex(custlist, toId));
    }

    /** The rest of `transfer` once both customers are found, at distinct
        positions `i` and `j` of the list: move the funds between their
        accounts, which are distinct objects, and leave the others alone. */
    method MoveBetween(fromCust: Customer, toCust: Customer, amount: real, today: int, ids: TransactionCounter,
                       ghost i: nat, ghost j: nat) returns (o: Outcome)
      requires Valid(ids.nextId)
      requires i < |custlist| && j < |custlist| && i != j
      requires custlist[i] == fromCust && custlist[j] == toCust
      modifies AccountSet(), ids
      ensures Valid(ids.nextId)
      ensures fromCust.account != toCust.account
      ensures TransferResult(o, fromCust.account.State(), toCust.account.State(), ids.nextId)
        == TransferStep(old(fromCust.account.State()), fromCust.account.accNo,
                        old(toCust.account.State()), toCust.account.accNo, amount, today, old(ids.nextId))
      ensures unchanged(AccountSet() - {fromCust.account, toCust.account})
    {
      var fromAcc := fromCust.account;
      var toAcc := toCust.account;
      ghost var n0 := ids.nextId;
      AccountsDistinct(custlist, i, j);
      assert fromAcc in AccountSet() && toAcc in AccountSet();
      o := MoveFunds(fromAcc, toAcc, amount, today, ids);
      forall k | 0 <= k < |custlist|
        ensures custlist[k].account.Valid(ids.nextId)
      {
        if custlist[k].account != fromAcc && custlist[k].account != toAcc {
          StaysValid(custlist[k].account, n0, ids.nextId);
        }
      }
    }

    /** `addInterestToAllAccounts`: credit interest to every listed account,
        in list order. */
    method AddInterestToAllAccounts(ids: TransactionCounter)
      requires Valid(ids.nextId)
      modifies AccountSet(), ids
      ensures Valid(ids.nextId) && ids.nextId >= old(ids.nextId)
      ensures forall i :: 0 <= i < |custlist| ==>
        Credited(old(custlist[i].account.State()), custlist[i].account.kind, custlist[i].account.accNo,
                 custlist[i].account.State())
    {
      if |custlist| == 0 {
        return;
      }
      var i := 0;
      while i < |custlist|
        invariant 0 <= i <= |custlist|
        invariant Valid(ids.nextId) && ids.nextId >= old(ids.nextId)
        invariant forall k :: 0 <= k < i ==>
          Credited(old(custlist[k].account.State()), custlist[k].account.kind, custlist[k].account.accNo,
                   custlist[k].account.State())
        invariant forall k :: i <= k < |custlist| ==> custlist[k].account.State() == old(custlist[k].account.State())
      {
        var acc := custlist[i].account;
        ghost var n0 := ids.nextId;
        ghost var before := acc.State();
        acc.AddInterestToBalance(ids);
        assert Credited(before, acc.kind, acc.accNo, acc.State()) by {
          assert InterestStep(before, acc.kind, acc.accNo, n0).ledger == acc.State();
        }
        forall k | 0 <= k < |custlist| && k != i
          ensures custlist[k].account != acc
        {
          AccountsDistinct(custlist, i, k);
        }
        forall k | 0 <= k < |custlist|
          ensures custlist[k].account.Valid(ids.nextId)
        {
          if k != i {
            StaysValid(custlist[k].account, n0, ids.nextId);
          }
        }
        i := i + 1;
      }
    }

    /** `printStatement`: the count is clamped to MAX_STATEMENT, then the
        account shows that many of its latest entries, oldest first. */
    method PrintStatement(custId: int, count: int) returns (r: Result<seq<Transaction>>)
      ensures !HasId(custlist, custId) ==> r == Failure(AccountNotFound(custId))
      ensures HasId(custlist, custId) ==>
        var h := AccountOf(custId).transactions;
        && r.Success? && |r.value| <= MAX_STATEMENT
        && |r.value| == StatementSize(if count < MAX_STATEMENT then count else MAX_STATEMENT, |h|)
        && r.value == h[|h| - |r.value|..]
    {
      var found := FindById(custId);
      if found.Failure? {
        return Failure(found.error);
      }
      var shown := found.value.account.PrintStatement(if count < MAX_STATEMENT then count else MAX_STATEMENT);
      return Success(shown);
    }

    /** `getAllCustomers`: a copy of the list. */
    method GetAllCustomers() returns (r: seq<Customer>)
      ensures r == custlist
    {
      r := custlist;
    }
  }

  /** The body of `transfer` once both accounts are known: withdraw from the
      sender, then deposit to the receiver. The re-deposit to the sender on a
      failed deposit is proved dead and so left out of the body; the contract
      still matches TransferStep, which keeps it. */
  method MoveFunds(fromAcc: Account, toAcc: Account, amount: real, today: int, ids: TransactionCounter)
    returns (o: Outcome)
    requires fromAcc != toAcc
    requires fromAcc.Valid(ids.nextId) && toAcc.Valid(ids.nextId)
    modifies fromAcc, toAcc, ids
    ensures fromAcc.Valid(ids.nextId) && toAcc.Valid(ids.nextId)
    ensures TransferResult(o, fromAcc.State(), toAcc.State(), ids.nextId)
      == TransferStep(old(fromAcc.State()), fromAcc.accNo, old(toAcc.State()), toAcc.accNo, amount, today, old(ids.nextId))
  {
    ghost var n0 := ids.nextId;
    ghost var from0 := fromAcc.State();
    ghost var to0 := toAcc.State();
    var withdrawn := false;
    o := fromAcc.Withdraw(amount, today, ids);
    if o.Pass? {
      withdrawn := true;
      StaysValid(toAcc, n0, ids.nextId);
      RollbackUnreachable(from0, fromAcc.accNo, to0, toAcc.accNo, amount, today, n0);
      o := toAcc.Deposit(amount, ids);
      if o.Fail? {
        // the re-deposit to the sender, `fromAcc.Deposit(amount, ids)`: never
        // reached, since RollbackUnreachable shows the deposit cannot fail once
        // the withdrawal has succeeded
        assert false;
      }
    }
  }

  /** An account that kept its invariant under the counter value `n` keeps it
      once the counter has moved on to `m`. */
  lemma StaysValid(a: Account, n: int, m: int)
    requires a.Valid(n) && n <= m
    ensures a.Valid(m)
  {
    CoherentMonotone(a.State(), n, m);
  }
}
