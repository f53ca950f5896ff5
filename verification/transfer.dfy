/** A transfer between two accounts, as values: the sender's withdrawal, then
    the receiver's deposit, with the compensating re-deposit to the sender
    written as the service writes it. */
module Transfers {
  import opened BankErrors
  import opened Transactions
  import opened AccountRules

  /** The outcome, both ledgers afterwards, and the counter afterwards. */
  datatype TransferResult = TransferResult(outcome: Outcome, sender: Ledger, receiver: Ledger, nextId: int)

  /** `transfer` on the two ledgers: a success moves money without creating
      or losing any, and a failure leaves the receiver alone and the sender's
      balance where it was, whether or not the re-deposit ran. */
  function TransferStep(from: Ledger, fromNo: int, to: Ledger, toNo: int, amount: real, today: int, nextId: int): (r: TransferResult)
    ensures r.outcome.Pass? ==> r.sender.balance + r.receiver.balance == from.balance + to.balance
    ensures r.outcome.Fail? ==> r.receiver == to && r.sender.balance == from.balance
    ensures r.nextId >= nextId
  {
    var w := WithdrawStep(from, fromNo, amount, today, nextId);
    if w.outcome.Fail? then TransferResult(w.outcome, w.ledger, to, w.nextId)
    else
      var d := DepositStep(to, toNo, amount, w.nextId);
      if d.outcome.Fail? then
        // roll back: re-deposit to the sender; whether or not that succeeds,
        // the caller sees the deposit's own error
        var back := DepositStep(w.ledger, fromNo, amount, d.nextId);
        TransferResult(d.outcome, back.ledger, d.ledger, back.nextId)
      else TransferResult(Pass, w.ledger, d.ledger, d.nextId)
  }

  /** The roll-back branch is never taken: a withdrawal that succeeded had a
      positive amount, and a deposit fails only on a non-positive one. */
  lemma RollbackUnreachable(from: Ledger, fromNo: int, to: Ledger, toNo: int, amount: real, today: int, nextId: int)
    requires WithdrawStep(from, fromNo, amount, today, nextId).outcome.Pass?
    ensures DepositStep(to, toNo, amount, WithdrawStep(from, fromNo, amount, today, nextId).nextId).outcome.Pass?
  {
    WithdrawErrors(from, fromNo, amount, today, nextId);
  }

  /** A transfer fails exactly when the sender's withdrawal fails, with the
      same error; then no money moves, neither history grows and no id is used. */
  lemma TransferFailure(from: Ledger, fromNo: int, to: Ledger, toNo: int, amount: real, today: int, nextId: int)
    ensures var t := TransferStep(from, fromNo, to, toNo, amount, today, nextId);
      && t.outcome == WithdrawStep(from, fromNo, amount, today, nextId).outcome
      && (t.outcome.Fail? ==>
        && t.sender.balance == from.balance && t.sender.history == from.history
        && t.receiver == to && t.nextId == nextId)
  {
    WithdrawErrors(from, fromNo, amount, today, nextId);
  }

  /** A successful transfer moves the amount from the sender to the receiver,
      so the two balances keep their sum; the sender logs one TRANSFER_OUT
      entry and the receiver one DEPOSIT entry, with consecutive ids. */
  lemma TransferMovesMoney(from: Ledger, fromNo: int, to: Ledger, toNo: int, amount: real, today: int, nextId: int)
    requires TransferStep(from, fromNo, to, toNo, amount, today, nextId).outcome.Pass?
    ensures var t := TransferStep(from, fromNo, to, toNo, amount, today, nextId);
      && amount > 0.0
      && t.sender.balance == from.balance - amount
      && t.receiver.balance == to.balance + amount
      && t.sender.balance + t.receiver.balance == from.balance + to.balance
      && |t.sender.history| == |from.history| + 1 && t.sender.history[..|from.history|] == from.history
      && |t.receiver.history| == |to.history| + 1 && t.receiver.history[..|to.history|] == to.history
      && t.sender.history[|from.history|].kind == TransferOut
      && t.sender.history[|from.history|].amount == amount
      && t.sender.history[|from.history|].id == nextId
      && t.receiver.history[|to.history|].kind == Deposit
      && t.receiver.history[|to.history|].amount == amount
      && t.receiver.history[|to.history|].id == nextId + 1
      && t.nextId == nextId + 2
  {
    var w := WithdrawStep(from, fromNo, amount, today, nextId);
    WithdrawErrors(from, fromNo, amount, today, nextId);
    WithdrawSucceeds(from, fromNo, amount, today, nextId);
    DepositOutcomes(to, toNo, amount, w.nextId);
  }

  /** Both ledgers stay coherent through a transfer, whatever its outcome. */
  lemma TransferKeepsCoherent(from: Ledger, fromNo: int, to: Ledger, toNo: int, amount: real, today: int, nextId: int)
    requires Coherent(from, nextId) && Coherent(to, nextId)
    ensures var t := TransferStep(from, fromNo, to, toNo, amount, today, nextId);
      Coherent(t.sender, t.nextId) && Coherent(t.receiver, t.nextId) && t.nextId >= nextId
  {
    var w := WithdrawStep(from, fromNo, amount, today, nextId);
    WithdrawKeepsCoherent(from, fromNo, amount, today, nextId);
    CoherentMonotone(to, nextId, w.nextId);
    if w.outcome.Pass? {
      RollbackUnreachable(from, fromNo, to, toNo, amount, today, nextId);
      var d := DepositStep(to, toNo, amount, w.nextId);
      DepositKeepsCoherent(to, toNo, amount, w.nextId);
      CoherentMonotone(w.ledger, w.nextId, d.nextId);
    }
  }
}
