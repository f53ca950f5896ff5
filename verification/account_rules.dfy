/** The rules of an account, as functions on the value of its mutable state.
    Each method of the Account class is proved to compute one of these steps. */
module AccountRules {
  import opened BankErrors
  import opened BankConstants
  import opened Text
  import opened Transactions

  /** The cap on one day's successful withdrawals. */
  const DAILY_LIMIT: real := 50000.0

  /** The type tag passed to every account, independently of its variant. */
  datatype AccountType = SavingsAccount | CurrentAccount

  /** The two account variants and the data each adds to the base account. */
  datatype Kind = Savings(interestRate: real) | Current(companyName: string)

  /** What an account's operations change: the balance, the history, the
      daily-debit accumulator and the day it was last reset. */
  datatype Ledger = Ledger(balance: real, history: seq<Transaction>, debitTotal: real, lastDebitDay: int)

  /** The outcome of one operation, the state it leaves and the counter after it. */
  datatype Step = Step(outcome: Outcome, ledger: Ledger, nextId: int)

  /* ---------- construction ---------- */

  /** The base constructor's checks: the IFSC pattern on the upper-cased code
      first, then the balance floor. */
  function CheckOpening(ifscCode: string, balance: real): (r: Outcome)
    ensures r.Pass? <==> IsIfsc(ToUpper(ifscCode)) && balance >= MIN_BALANCE
    ensures !IsIfsc(ToUpper(ifscCode)) ==> r == Fail(InvalidIfsc(ifscCode))
    ensures IsIfsc(ToUpper(ifscCode)) && balance < MIN_BALANCE ==> r == Fail(MinimumBalance(balance))
  {
    if !IsIfsc(ToUpper(ifscCode)) then Fail(InvalidIfsc(ifscCode))
    else if balance < MIN_BALANCE then Fail(MinimumBalance(balance))
    else Pass
  }

  /** A savings account adds a rate check after the base constructor's checks. */
  function CheckSavingsOpening(ifscCode: string, balance: real, interestRate: real): (r: Outcome)
    ensures r.Pass? <==> CheckOpening(ifscCode, balance).Pass? && 0.0 <= interestRate <= 20.0
    ensures CheckOpening(ifscCode, balance).Fail? ==> r == CheckOpening(ifscCode, balance)
    ensures CheckOpening(ifscCode, balance).Pass? && !(0.0 <= interestRate <= 20.0) ==>
      r == Fail(IllegalArgument(RateOutOfRange(interestRate)))
  {
    var base := CheckOpening(ifscCode, balance);
    if base.Fail? then base
    else if interestRate < 0.0 || interestRate > 20.0 then Fail(IllegalArgument(RateOutOfRange(interestRate)))
    else Pass
  }

  /** The company name a current account stores: a null name becomes
      "Unknown Company", any other is trimmed. */
  function CompanyName(name: Option<string>): (r: string)
    ensures name.None? ==> r == "Unknown Company"
    ensures name.Some? ==> (r == [] <==> IsBlank(name.value)) && (r == [] || IsTrimmed(r))
  {
    if name.None? then "Unknown Company" else Trim(name.value)
  }

  /** The variant data a constructed account always satisfies. */
  predicate KindOk(kind: Kind) {
    kind.Savings? ==> 0.0 <= kind.interestRate <= 20.0
  }

  /* ---------- interest ---------- */

  /** `calculateInterest`: monthly simple interest for savings, none for current. */
  function Interest(kind: Kind, balance: real): (r: real)
    ensures kind.Current? ==> r == 0.0
    ensures kind.Savings? ==> 12.0 * r == balance * kind.interestRate / 100.0
  {
    match kind
    case Savings(rate) => balance * (rate / 100.0) * (1.0 / 12.0)
    case Current(_) => 0.0
  }

  /** Interest is never negative on a constructed account. */
  lemma InterestNonNegative(kind: Kind, balance: real)
    requires KindOk(kind) && balance >= MIN_BALANCE
    ensures Interest(kind, balance) >= 0.0
  {
    if kind.Savings? {
      var rate := kind.interestRate;
      assert rate / 100.0 >= 0.0;
      assert balance * (rate / 100.0) >= 0.0;
    }
  }

  /* ---------- history invariants ---------- */

  function DepositNote(accNo: int): string { "Deposit to A/c " + IntToString(accNo) }
  function WithdrawalNote(accNo: int): string { "Withdrawal from A/c " + IntToString(accNo) }
  function InterestNote(accNo: int): string { "Interest credited to A/c " + IntToString(accNo) }

  /** The descriptions the account writes start with a letter and end with a
      digit, so they are already trimmed and `trim` leaves them as they are. */
  lemma DepositNoteTrimmed(accNo: int)
    ensures IsTrimmed(DepositNote(accNo))
  {
    var d := IntToString(accNo);
    assert DepositNote(accNo)[|DepositNote(accNo)| - 1] == d[|d| - 1];
  }

  lemma WithdrawalNoteTrimmed(accNo: int)
    ensures IsTrimmed(WithdrawalNote(accNo))
  {
    var d := IntToString(accNo);
    assert WithdrawalNote(accNo)[|WithdrawalNote(accNo)| - 1] == d[|d| - 1];
  }

  lemma InterestNoteTrimmed(accNo: int)
    ensures IsTrimmed(InterestNote(accNo))
  {
    var d := IntToString(accNo);
    assert InterestNote(accNo)[|InterestNote(accNo)| - 1] == d[|d| - 1];
  }

  predicate IdsIncreasing(h: seq<Transaction>) {
    forall i, j :: 0 <= i < j < |h| ==> h[i].id < h[j].id
  }

  /** The invariant every account keeps, relative to the transaction counter:
      the balance is at least the floor, the daily accumulator lies within
      [0, DAILY_LIMIT], every entry is well formed, the ids increase and
      are all below the counter, and the newest entry records the current balance. */
  predicate Coherent(l: Ledger, nextId: int) {
    && l.balance >= MIN_BALANCE
    && 0.0 <= l.debitTotal <= DAILY_LIMIT
    && IdsIncreasing(l.history)
    && (forall k :: 0 <= k < |l.history| ==> l.history[k].id < nextId && WellFormed(l.history[k]))
    && (|l.history| > 0 ==> l.history[|l.history| - 1].balanceAfter == l.balance)
  }

  /** The counter only grows, so coherence with an older counter value carries over. */
  lemma CoherentMonotone(l: Ledger, n: int, m: int)
    requires Coherent(l, n) && n <= m
    ensures Coherent(l, m)
  {
  }

  /** Appending a record built from valid arguments, with the counter's id and
      the new balance, keeps the ledger coherent with the advanced counter. */
  lemma AppendRecord(l: Ledger, l2: Ledger, nextId: int, kind: TxType, amount: real, b: real, note: string)
    requires Coherent(l, nextId) && IsTrimmed(note) && amount > 0.0 && b >= MIN_BALANCE
    requires 0.0 <= l2.debitTotal <= DAILY_LIMIT
    requires l2.balance == b && l2.history == l.history + [Transaction(nextId, kind, amount, b, note)]
    ensures Coherent(l2, nextId + 1)
  {
    var t := Transaction(nextId, kind, amount, b, note);
    assert WellFormed(t) && t.id == nextId && t.balanceAfter == b;
    assert forall k :: 0 <= k < |l.history| ==> l2.history[k] == l.history[k];
  }

  /* ---------- deposit ---------- */

  /** `deposit`: a non-positive amount fails and changes nothing; otherwise the
      balance grows and one DEPOSIT entry records the new balance. */
  function DepositStep(l: Ledger, accNo: int, amount: real, nextId: int): (r: Step)
    ensures r.outcome.Fail? <==> amount <= 0.0
    ensures r.outcome.Fail? ==> r.ledger == l && r.nextId == nextId
    ensures r.outcome.Pass? ==> r.ledger.balance == l.balance + amount && r.nextId == nextId + 1
  {
    if amount <= 0.0 then Step(Fail(InvalidAmount(amount)), l, nextId)
    else
      var b := l.balance + amount;
      Step(Pass, l.(balance := b, history := l.history + [Transaction(nextId, Deposit, amount, b, DepositNote(accNo))]),
           nextId + 1)
  }

  /** A deposit fails exactly on a non-positive amount, and then changes nothing;
      a successful one adds the amount and appends exactly one DEPOSIT entry
      for the amount, carrying the counter's id and the new balance. */
  lemma DepositOutcomes(l: Ledger, accNo: int, amount: real, nextId: int)
    ensures var s := DepositStep(l, accNo, amount, nextId);
      && (s.outcome.Fail? <==> amount <= 0.0)
      && (s.outcome.Fail? ==> s.outcome.error == InvalidAmount(amount) && s.ledger == l && s.nextId == nextId)
      && (s.outcome.Pass? ==>
        && s.ledger.balance == l.balance + amount
        && |s.ledger.history| == |l.history| + 1
        && s.ledger.history[..|l.history|] == l.history
        && s.ledger.history[|l.history|].kind == Deposit
        && s.ledger.history[|l.history|].amount == amount
        && s.ledger.history[|l.history|].balanceAfter == s.ledger.balance
        && s.ledger.history[|l.history|].id == nextId
        && s.nextId == nextId + 1
        && s.ledger.debitTotal == l.debitTotal && s.ledger.lastDebitDay == l.lastDebitDay)
  {
  }

  lemma DepositKeepsCoherent(l: Ledger, accNo: int, amount: real, nextId: int)
    requires Coherent(l, nextId)
    ensures var s := DepositStep(l, accNo, amount, nextId);
      Coherent(s.ledger, s.nextId) && s.nextId >= nextId
  {
    if amount > 0.0 {
      DepositNoteTrimmed(accNo);
      AppendRecord(l, DepositStep(l, accNo, amount, nextId).ledger, nextId,
                   Deposit, amount, l.balance + amount, DepositNote(accNo));
    }
  }

  /* ---------- withdrawal ---------- */

  /** `checkDailyLimit`'s first half: on a new day the accumulator and the date are reset. */
  function ResetIfNewDay(l: Ledger, today: int): (r: Ledger)
    ensures r.balance == l.balance && r.history == l.history && r.lastDebitDay == today
    ensures r.debitTotal == TodayTotal(l, today)
  {
    if today != l.lastDebitDay then l.(debitTotal := 0.0, lastDebitDay := today) else l
  }

  /** The amount already withdrawn on `today`, as the daily check sees it. */
  function TodayTotal(l: Ledger, today: int): real {
    if l.lastDebitDay == today then l.debitTotal else 0.0
  }

  /** `withdraw`: InvalidAmount, InsufficientFunds, MinimumBalance, then the
      daily check (which resets the accumulator on a new day even when it then
      fails); on success the balance drops, the accumulator grows and one
      TRANSFER_OUT entry is appended. */
  function WithdrawStep(l: Ledger, accNo: int, amount: real, today: int, nextId: int): (r: Step)
    ensures r.outcome.Fail? ==> r.ledger.balance == l.balance && r.ledger.history == l.history && r.nextId == nextId
    ensures r.outcome.Pass? ==> r.ledger.balance == l.balance - amount >= MIN_BALANCE && r.nextId == nextId + 1
  {
    if amount <= 0.0 then Step(Fail(InvalidAmount(amount)), l, nextId)
    else if l.balance < amount then Step(Fail(InsufficientFunds(amount, l.balance)), l, nextId)
    else if l.balance - amount < MIN_BALANCE then Step(Fail(MinimumBalance(l.balance - amount)), l, nextId)
    else
      var r := ResetIfNewDay(l, today);
      if r.debitTotal + amount > DAILY_LIMIT then Step(Fail(DailyLimitExceeded), r, nextId)
      else
        var b := l.balance - amount;
        Step(Pass,
             r.(balance := b, debitTotal := r.debitTotal + amount,
                history := l.history + [Transaction(nextId, TransferOut, amount, b, WithdrawalNote(accNo))]),
             nextId + 1)
  }

  /** The four errors of a withdrawal, each exactly when the earlier checks pass
      and its own fails; on any of them the balance, the history and the counter
      are unchanged, and only DailyLimitExceeded can have reset the accumulator. */
  lemma WithdrawErrors(l: Ledger, accNo: int, amount: real, today: int, nextId: int)
    ensures var s := WithdrawStep(l, accNo, amount, today, nextId);
      && (s.outcome == Fail(InvalidAmount(amount)) <==> amount <= 0.0)
      && (s.outcome == Fail(InsufficientFunds(amount, l.balance)) <==> 0.0 < amount && l.balance < amount)
      && (s.outcome == Fail(MinimumBalance(l.balance - amount)) <==>
            0.0 < amount <= l.balance && l.balance - amount < MIN_BALANCE)
      && (s.outcome == Fail(DailyLimitExceeded) <==>
            0.0 < amount <= l.balance && l.balance - amount >= MIN_BALANCE
            && TodayTotal(l, today) + amount > DAILY_LIMIT)
      && (s.outcome.Pass? <==>
            0.0 < amount <= l.balance && l.balance - amount >= MIN_BALANCE
            && TodayTotal(l, today) + amount <= DAILY_LIMIT)
      && (s.outcome.Fail? ==> s.ledger.balance == l.balance && s.ledger.history == l.history && s.nextId == nextId)
      && (s.outcome.Fail? && s.outcome != Fail(DailyLimitExceeded) ==> s.ledger == l)
      && (s.outcome == Fail(DailyLimitExceeded) ==> s.ledger == ResetIfNewDay(l, today))
  {
  }

  /** A successful withdrawal takes exactly the amount, adds it to today's
      accumulator, dates the accumulator today, and appends one TRANSFER_OUT
      entry (not WITHDRAWAL) for the amount and the new balance. */
  lemma WithdrawSucceeds(l: Ledger, accNo: int, amount: real, today: int, nextId: int)
    requires WithdrawStep(l, accNo, amount, today, nextId).outcome.Pass?
    ensures var s := WithdrawStep(l, accNo, amount, today, nextId);
      && s.ledger.balance == l.balance - amount
      && s.ledger.debitTotal == TodayTotal(l, today) + amount
      && s.ledger.lastDebitDay == today
      && |s.ledger.history| == |l.history| + 1
      && s.ledger.history[..|l.history|] == l.history
      && s.ledger.history[|l.history|].kind == TransferOut
      && s.ledger.history[|l.history|].amount == amount
      && s.ledger.history[|l.history|].balanceAfter == s.ledger.balance
      && s.nextId == nextId + 1
  {
  }

  lemma WithdrawKeepsCoherent(l: Ledger, accNo: int, amount: real, today: int, nextId: int)
    requires Coherent(l, nextId)
    ensures var s := WithdrawStep(l, accNo, amount, today, nextId);
      Coherent(s.ledger, s.nextId) && s.nextId >= nextId
  {
    var s := WithdrawStep(l, accNo, amount, today, nextId);
    var r := ResetIfNewDay(l, today);
    assert Coherent(r, nextId);
    if 0.0 < amount <= l.balance && l.balance - amount >= MIN_BALANCE && r.debitTotal + amount <= DAILY_LIMIT {
      WithdrawalNoteTrimmed(accNo);
      AppendRecord(l, s.ledger, nextId, TransferOut, amount, l.balance - amount, WithdrawalNote(accNo));
    } else {
      assert s.ledger == l || s.ledger == r;
    }
  }

  /* ---------- the daily cap over a day's withdrawals ---------- */

  /** The result of a run of withdrawals: the final state and counter, and the
      total of the amounts that succeeded. */
  datatype Run = Run(ledger: Ledger, nextId: int, withdrawn: real)

  /** Withdraw each amount in turn, all on the same day. */
  function WithdrawAll(l: Ledger, accNo: int, amounts: seq<real>, today: int, nextId: int): Run
    decreases |amounts|
  {
    if amounts == [] then Run(l, nextId, 0.0)
    else
      var s := WithdrawStep(l, accNo, amounts[0], today, nextId);
      var rest := WithdrawAll(s.ledger, accNo, amounts[1..], today, s.nextId);
      rest.(withdrawn := rest.withdrawn + (if s.outcome.Pass? then amounts[0] else 0.0))
  }

  /** One withdrawal raises today's accumulator by exactly what it takes, and
      never past the cap. */
  lemma WithdrawTodayTotal(l: Ledger, accNo: int, amount: real, today: int, nextId: int)
    requires 0.0 <= l.debitTotal <= DAILY_LIMIT
    ensures var s := WithdrawStep(l, accNo, amount, today, nextId);
      && TodayTotal(s.ledger, today) == TodayTotal(l, today) + (if s.outcome.Pass? then amount else 0.0)
      && 0.0 <= s.ledger.debitTotal <= DAILY_LIMIT
  {
  }

  /** Within one day, the withdrawals that succeed add up to at most the daily
      limit less what was already withdrawn that day. */
  lemma {:induction false} DailyCap(l: Ledger, accNo: int, amounts: seq<real>, today: int, nextId: int)
    requires 0.0 <= l.debitTotal <= DAILY_LIMIT
    decreases |amounts|
    ensures var r := WithdrawAll(l, accNo, amounts, today, nextId);
      && TodayTotal(r.ledger, today) == TodayTotal(l, today) + r.withdrawn
      && r.withdrawn <= DAILY_LIMIT - TodayTotal(l, today)
      && r.withdrawn <= DAILY_LIMIT
      && 0.0 <= r.ledger.debitTotal <= DAILY_LIMIT
  {
    if amounts != [] {
      var s := WithdrawStep(l, accNo, amounts[0], today, nextId);
      WithdrawTodayTotal(l, accNo, amounts[0], today, nextId);
      DailyCap(s.ledger, accNo, amounts[1..], today, s.nextId);
    }
  }

  /* ---------- interest credit ---------- */

  /** `addInterestToBalance`: credit the interest and log a DEPOSIT entry only
      when it is positive; otherwise change nothing. */
  function InterestStep(l: Ledger, kind: Kind, accNo: int, nextId: int): (r: Step)
    ensures r.outcome == Pass && r.ledger.balance >= l.balance
    ensures r.ledger.debitTotal == l.debitTotal && r.ledger.lastDebitDay == l.lastDebitDay
    ensures r.ledger == l <==> r.nextId == nextId
  {
    var i := Interest(kind, l.balance);
    if i > 0.0 then
      Step(Pass, l.(balance := l.balance + i,
                    history := l.history + [Transaction(nextId, Deposit, i, l.balance + i, InterestNote(accNo))]),
           nextId + 1)
    else Step(Pass, l, nextId)
  }

  /** A current account earns nothing, so crediting interest changes nothing. */
  lemma CurrentEarnsNothing(l: Ledger, name: string, accNo: int, nextId: int)
    ensures InterestStep(l, Current(name), accNo, nextId) == Step(Pass, l, nextId)
  {
  }

  /** A savings account at rate 0 earns nothing either. */
  lemma ZeroRateEarnsNothing(l: Ledger, accNo: int, nextId: int)
    ensures InterestStep(l, Savings(0.0), accNo, nextId) == Step(Pass, l, nextId)
  {
  }

  /** A credit of positive interest raises the balance by the interest and
      logs it as a DEPOSIT entry; the accumulator is untouched. */
  lemma InterestCredited(l: Ledger, kind: Kind, accNo: int, nextId: int)
    requires Interest(kind, l.balance) > 0.0
    ensures var s := InterestStep(l, kind, accNo, nextId);
      && s.ledger.balance == l.balance + Interest(kind, l.balance)
      && s.ledger.history == l.history + [s.ledger.history[|l.history|]]
      && s.ledger.history[|l.history|].kind == Deposit
      && s.ledger.history[|l.history|].amount == Interest(kind, l.balance)
      && s.ledger.history[|l.history|].balanceAfter == s.ledger.balance
      && s.ledger.debitTotal == l.debitTotal && s.ledger.lastDebitDay == l.lastDebitDay
      && s.nextId == nextId + 1
  {
  }

  lemma InterestKeepsCoherent(l: Ledger, kind: Kind, accNo: int, nextId: int)
    requires Coherent(l, nextId)
    ensures var s := InterestStep(l, kind, accNo, nextId);
      Coherent(s.ledger, s.nextId) && s.nextId >= nextId
  {
    var i := Interest(kind, l.balance);
    if i > 0.0 {
      InterestNoteTrimmed(accNo);
      AppendRecord(l, InterestStep(l, kind, accNo, nextId).ledger, nextId,
                   Deposit, i, l.balance + i, InterestNote(accNo));
    }
  }

  /** `after` is `before` with its interest credited, under whatever id the counter handed out. */
  ghost predicate Credited(before: Ledger, kind: Kind, accNo: int, after: Ledger) {
    exists n :: InterestStep(before, kind, accNo, n).ledger == after
  }

  /** What a credited ledger holds: the balance raised by the interest when
      that is positive, with one DEPOSIT entry for it; otherwise the ledger unchanged. */
  lemma CreditedBalance(before: Ledger, kind: Kind, accNo: int, after: Ledger)
    requires Credited(before, kind, accNo, after)
    ensures Interest(kind, before.balance) > 0.0 ==>
      && after.balance == before.balance + Interest(kind, before.balance)
      && |after.history| == |before.history| + 1
      && after.history[..|before.history|] == before.history
      && after.history[|before.history|].kind == Deposit
      && after.history[|before.history|].amount == Interest(kind, before.balance)
    ensures Interest(kind, before.balance) <= 0.0 ==> after == before
  {
    var n :| InterestStep(before, kind, accNo, n).ledger == after;
    if Interest(kind, before.balance) > 0.0 {
      InterestCredited(before, kind, accNo, n);
    }
  }

  /* ---------- statements ---------- */

  /** How many entries `printStatement(count)` shows out of `size`: min(count, size), and none for count <= 0. */
  function StatementSize(count: int, size: nat): nat {
    if count <= 0 then 0 else if count < size then count else size
  }
}
