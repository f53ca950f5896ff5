/** The account object: its fields change in place through deposit,
    withdraw and interest credit, each proved to compute the matching step
    of AccountRules. */
module Accounts {
  import opened BankErrors
  import opened BankConstants
  import opened Text
  import opened Transactions
  import opened AccountRules

  class Account {
    const accNo: int
    const ifscCode: string
    const accType: AccountType
    const kind: Kind
    var balance: real
    var transactions: seq<Transaction>
    var todayDebitTotal: real
    var lastDebitDate: int

    /** The mutable fields as one value. */
    function State(): Ledger
      reads this
    {
      Ledger(balance, transactions, todayDebitTotal, lastDebitDate)
    }

    /** The object invariant, relative to the transaction counter's next id. */
    ghost predicate Valid(nextId: int)
      reads this
    {
      Coherent(State(), nextId) && KindOk(kind) && IsIfsc(ifscCode)
    }

    /** The base constructor's field initialisation: the code is stored
        upper-cased, the balance as max(0, balance), the history empty, and
        the accumulator dated `today`. The checks are made by OpenSavings and
        OpenCurrent before this runs. */
    constructor (accNo: int, ifscCode: string, balance: real, accType: AccountType, kind: Kind, today: int)
      ensures this.accNo == accNo && this.ifscCode == ToUpper(ifscCode)
      ensures this.accType == accType && this.kind == kind
      ensures State() == Ledger(if balance < 0.0 then 0.0 else balance, [], 0.0, today)
    {
      this.accNo := accNo;
      this.ifscCode := ToUpper(ifscCode);
      this.balance := if balance < 0.0 then 0.0 else balance;
      this.accType := accType;
      this.kind := kind;
      this.transactions := [];
      this.todayDebitTotal := 0.0;
      this.lastDebitDate := today;
    }

    /** `new SavingsAccount(...)`: fails as CheckSavingsOpening says (IFSC, then
        floor, then rate); otherwise a fresh, valid account holding exactly the
        initial balance and no history. */
    static method OpenSavings(accNo: int, ifscCode: string, balance: real, accType: AccountType,
                              interestRate: real, today: int)
      returns (r: Result<Account>)
      ensures r.Failure? <==> CheckSavingsOpening(ifscCode, balance, interestRate).Fail?
      ensures r.Failure? ==> r.error == CheckSavingsOpening(ifscCode, balance, interestRate).error
      ensures r.Success? ==>
        && fresh(r.value)
        && r.value.accNo == accNo && r.value.ifscCode == ToUpper(ifscCode) && r.value.accType == accType
        && r.value.kind == Savings(interestRate)
        && r.value.State() == Ledger(balance, [], 0.0, today)
        && forall n :: r.value.Valid(n)
    {
      var check := CheckSavingsOpening(ifscCode, balance, interestRate);
      if check.Fail? {
        return Failure(check.error);
      }
      var a := new Account(accNo, ifscCode, balance, accType, Savings(interestRate), today);
      return Success(a);
    }

    /** `new CurrentAccount(...)`: the base checks only; a null company name
        becomes "Unknown Company", any other is stored trimmed. */
    static method OpenCurrent(accNo: int, ifscCode: string, balance: real, accType: AccountType,
                              companyName: Option<string>, today: int)
      returns (r: Result<Account>)
      ensures r.Failure? <==> CheckOpening(ifscCode, balance).Fail?
      ensures r.Failure? ==> r.error == CheckOpening(ifscCode, balance).error
      ensures r.Success? ==>
        && fresh(r.value)
        && r.value.accNo == accNo && r.value.ifscCode == ToUpper(ifscCode) && r.value.accType == accType
        && r.value.kind == Current(CompanyName(companyName))
        && (companyName.None? ==> r.value.kind.companyName == "Unknown Company")
        && (companyName.Some? ==> r.value.kind.companyName == Trim(companyName.value))
        && r.value.State() == Ledger(balance, [], 0.0, today)
        && forall n :: r.value.Valid(n)
    {
      var check := CheckOpening(ifscCode, balance);
      if check.Fail? {
        return Failure(check.error);
      }
      var a := new Account(accNo, ifscCode, balance, accType, Current(CompanyName(companyName)), today);
      return Success(a);
    }

    /** `deposit`. */
    method Deposit(amount: real, ids: TransactionCounter) returns (o: Outcome)
      requires Valid(ids.nextId)
      modifies this, ids
      ensures Valid(ids.nextId)
      ensures Step(o, State(), ids.nextId) == DepositStep(old(State()), accNo, amount, old(ids.nextId))
    {
      ghost var before := State();
      ghost var step := DepositStep(before, accNo, amount, ids.nextId);
      assert Coherent(step.ledger, step.nextId) by {
        DepositKeepsCoherent(before, accNo, amount, ids.nextId);
      }
      if amount <= 0.0 {
        return Fail(InvalidAmount(amount));
      }
      balance := balance + amount;
      assert IsTrimmed(DepositNote(accNo)) by {
        DepositNoteTrimmed(accNo);
      }
      Log(TxType.Deposit, amount, DepositNote(accNo), ids);
      o := Pass;
      assert State() == step.ledger;
    }

    /** `withdraw`: the three checks on the amount and the balance, then the
        daily check, then the update. */
    method Withdraw(amount: real, today: int, ids: TransactionCounter) returns (o: Outcome)
      requires Valid(ids.nextId)
      modifies this, ids
      ensures Valid(ids.nextId)
      ensures Step(o, State(), ids.nextId) == WithdrawStep(old(State()), accNo, amount, today, old(ids.nextId))
    {
      ghost var before := State();
      ghost var reset := ResetIfNewDay(before, today);
      ghost var step := WithdrawStep(before, accNo, amount, today, ids.nextId);
      if amount <= 0.0 {
        assert step == Step(Fail(InvalidAmount(amount)), before, ids.nextId);
        return Fail(InvalidAmount(amount));
      }
      if balance < amount {
        assert step == Step(Fail(InsufficientFunds(amount, balance)), before, ids.nextId);
        return Fail(InsufficientFunds(amount, balance));
      }
      var newBalance := balance - amount;
      if newBalance < MIN_BALANCE {
        assert step == Step(Fail(MinimumBalance(newBalance)), before, ids.nextId);
        return Fail(MinimumBalance(newBalance));
      }
      assert Coherent(step.ledger, step.nextId) by {
        WithdrawKeepsCoherent(before, accNo, amount, today, ids.nextId);
      }
      o := CheckDailyLimit(amount, today);
      if o.Fail? {
        assert step == Step(o, reset, ids.nextId);
        return;
      }
      balance := newBalance;
      todayDebitTotal := todayDebitTotal + amount;
      assert IsTrimmed(WithdrawalNote(accNo)) by {
        WithdrawalNoteTrimmed(accNo);
      }
      Log(TransferOut, amount, WithdrawalNote(accNo), ids);
      assert State() == step.ledger;
    }

    /** `transactions.add(new Transaction(kind, amount, balance, note))`: log
        an entry for the current balance under the counter's next id. The
        entry's checks cannot fail here, since the amount is positive and the
        note is not blank; and the note is already trimmed, so the entry
        holds it as it is. */
    method Log(kind: TxType, amount: real, note: string, ids: TransactionCounter)
      requires amount > 0.0 && IsTrimmed(note)
      modifies this, ids
      ensures transactions == old(transactions) + [Transaction(old(ids.nextId), kind, amount, balance, note)]
      ensures ids.nextId == old(ids.nextId) + 1
      ensures balance == old(balance) && todayDebitTotal == old(todayDebitTotal) && lastDebitDate == old(lastDebitDate)
    {
      TrimmedIsFixed(note);
      var t := ids.NewTransaction(Some(kind), amount, balance, Some(note));
      transactions := transactions + [t.value];
    }

    /** `checkDailyLimit`: reset the accumulator and the date on a new day, then
        test the cap; the reset stays even when the test fails. */
    method CheckDailyLimit(amount: real, today: int) returns (o: Outcome)
      modifies this
      ensures State() == ResetIfNewDay(old(State()), today)
      ensures o == if todayDebitTotal + amount > DAILY_LIMIT then Fail(DailyLimitExceeded) else Pass
    {
      if today != lastDebitDate {
        todayDebitTotal := 0.0;
        lastDebitDate := today;
      }
      if todayDebitTotal + amount > DAILY_LIMIT {
        return Fail(DailyLimitExceeded);
      }
      return Pass;
    }

    /** `calculateInterest`, dispatched on the variant; it reads and changes nothing else. */
    function CalculateInterest(): (r: real)
      reads this
      ensures kind.Current? ==> r == 0.0
      ensures kind.Savings? ==> 12.0 * r == balance * kind.interestRate / 100.0
    {
      Interest(kind, balance)
    }

    /** `addInterestToBalance`: credit and log positive interest, otherwise do nothing. */
    method AddInterestToBalance(ids: TransactionCounter)
      requires Valid(ids.nextId)
      modifies this, ids
      ensures Valid(ids.nextId)
      ensures Step(Pass, State(), ids.nextId) == InterestStep(old(State()), kind, accNo, old(ids.nextId))
    {
      ghost var before := State();
      ghost var step := InterestStep(before, kind, accNo, ids.nextId);
      assert Coherent(step.ledger, step.nextId) by {
        InterestKeepsCoherent(before, kind, accNo, ids.nextId);
      }
      var interest := CalculateInterest();
      if interest > 0.0 {
        balance := balance + interest;
        assert IsTrimmed(InterestNote(accNo)) by {
          InterestNoteTrimmed(accNo);
        }
        Log(TxType.Deposit, interest, InterestNote(accNo), ids);
      }
      assert State() == step.ledger;
    }

    /** `printStatement(count)`: the entries from max(0, size - count) to the
        end, in order; that is the last min(count, size) entries, and none when
        count <= 0 or the history is empty. Nothing changes. */
    method PrintStatement(count: int) returns (shown: seq<Transaction>)
      ensures |shown| == StatementSize(count, |transactions|)
      ensures shown == transactions[|transactions| - |shown|..]
    {
      shown := [];
      if |transactions| == 0 {
        return;
      }
      var size := |transactions|;
      var start := if size - count > 0 then size - count else 0;
      var i := start;
      while i < size
        invariant start <= i
        invariant start <= size ==> i <= size && shown == transactions[start..i]
        invariant start > size ==> shown == []
      {
        shown := shown + [transactions[i]];
        i := i + 1;
      }
    }

    /** `getTransactions`: the history as a value, so the caller's copy is not
        affected by later operations. */
    method GetTransactions() returns (r: seq<Transaction>)
      ensures r == transactions
    {
      r := transactions;
    }
  }
}
