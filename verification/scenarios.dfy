/** Worked examples of the ledger rules on concrete values. */
module Scenarios {
  import opened BankErrors
  import opened AccountRules
  import opened Transfers

  /** A savings account at 6% with 2000 earns 10 a month; crediting it
      yields 2010 and one new entry. */
  lemma MonthlyInterestExample(accNo: int, day: int, nextId: int)
    ensures Interest(Savings(6.0), 2000.0) == 10.0
    ensures var s := InterestStep(Ledger(2000.0, [], 0.0, day), Savings(6.0), accNo, nextId);
      s.ledger.balance == 2010.0 && |s.ledger.history| == 1
  {
  }

  /** Withdrawing 500 from 1200 would leave 700, under the 1000 floor: it
      fails and the balance stays 1200. */
  lemma MinimumBalanceExample(accNo: int, day: int, nextId: int)
    ensures var s := WithdrawStep(Ledger(1200.0, [], 0.0, day), accNo, 500.0, day, nextId);
      s.outcome == Fail(MinimumBalance(700.0)) && s.ledger.balance == 1200.0
  {
  }

  /** Transferring 300 from 1500 to 500 leaves 1200 and 800. */
  lemma TransferExample(fromNo: int, toNo: int, day: int, nextId: int)
    ensures var t := TransferStep(Ledger(1500.0, [], 0.0, day), fromNo, Ledger(500.0, [], 0.0, day), toNo,
                                  300.0, day, nextId);
      t.outcome == Pass && t.sender.balance == 1200.0 && t.receiver.balance == 800.0
  {
  }

  /** After 49800 withdrawn in a day, a further 500 that day exceeds the
      50000 cap; only the first withdrawal is debited. */
  lemma DailyLimitExample(accNo: int, day: int, nextId: int)
    ensures var s1 := WithdrawStep(Ledger(60000.0, [], 0.0, day), accNo, 49800.0, day, nextId);
      && s1.outcome == Pass
      && var s2 := WithdrawStep(s1.ledger, accNo, 500.0, day, s1.nextId);
      && s2.outcome == Fail(DailyLimitExceeded)
      && s2.ledger.balance == 10200.0
  {
  }
}
