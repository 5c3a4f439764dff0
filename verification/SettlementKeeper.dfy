/** The settlement keeper: statuses, counters, maps and the settlement log, updated in place. */
module SettlementKeeper {
  import opened Amounts
  import T = Settlement

  class Keeper {
    const config: T.Config

    var escrows: map<nat, T.Escrow>
    var settlements: seq<T.Record>
    var deposits: map<nat, T.Deposit>
    var withdrawals: map<nat, T.Withdrawal>
    var totalSettled: int
    var totalFees: int
    var totalDeposited: int
    var totalWithdrawn: int
    var activeEscrows: int
    var escrowSeq: nat
    var settlementSeq: nat
    var depositSeq: nat
    var withdrawalSeq: nat

    ghost function Abs(): T.State
      reads this
    {
      T.State(escrows, settlements, deposits, withdrawals, totalSettled, totalFees, totalDeposited, totalWithdrawn,
              activeEscrows, escrowSeq, settlementSeq, depositSeq, withdrawalSeq)
    }

    /** Records and completed escrows correspond, every total is the sum it stands for, every escrow was funded in
        time, and the count of active escrows misses none. */
    ghost predicate Valid()
      reads this
    {
      T.Consistent(config, Abs())
    }

    constructor (config: T.Config)
      ensures Valid()
      ensures this.config == config && Abs() == T.INIT_STATE
    {
      this.config := config;
      escrows, settlements, deposits, withdrawals := map[], [], map[], map[];
      totalSettled, totalFees, totalDeposited, totalWithdrawn, activeEscrows := 0, 0, 0, 0, 0;
      escrowSeq, settlementSeq, depositSeq, withdrawalSeq := 0, 0, 0, 0;
      new;
      T.InitConsistent(config);
    }

    method CreateDepositIntent(wallet: string, user: string, amount: int, payment: T.Method, now: int)
      returns (r: T.Outcome)
      requires Valid()
      modifies this`deposits, this`depositSeq
      ensures (Abs(), r) == T.CreateDeposit(config, old(Abs()), wallet, user, amount, payment, now)
      ensures Valid()
    {
      T.DepositConsistent(config, Abs(), wallet, user, amount, payment, now);
      if amount < config.minSettlement {
        return T.Failed(T.BelowMinimum);
      }
      if !config.Enabled(payment) {
        return T.Failed(T.MethodDisabled);
      }
      depositSeq := depositSeq + 1;
      var intent := T.Deposit.Deposit(wallet, user, amount, payment, T.DepositPending, "", now, 0,
                                      now + config.timeoutSeconds);
      deposits := deposits[depositSeq := intent];
      r := T.Done(depositSeq);
    }

    method ConfirmDeposit(id: nat, paymentRef: string, now: int) returns (r: T.Outcome)
      requires Valid()
      modifies this`deposits, this`totalDeposited
      ensures (Abs(), r) == T.ConfirmDeposit(old(Abs()), id, paymentRef, now)
      ensures Valid()
    {
      T.ConfirmConsistent(config, Abs(), id, paymentRef, now);
      if id !in deposits {
        return T.Failed(T.NotFound);
      }
      var intent := deposits[id];
      if intent.status != T.DepositPending {
        return T.Failed(T.WrongStatus);
      }
      if now > intent.expiresAt {
        deposits := deposits[id := intent.(status := T.DepositExpired)];
        return T.Failed(T.HasExpired);
      }
      intent := intent.(status := T.DepositConfirmed);
      intent := intent.(paymentRef := paymentRef);
      intent := intent.(confirmedAt := now);
      deposits := deposits[id := intent];
      totalDeposited := totalDeposited + intent.amount;
      r := T.Done(id);
    }

    method CreateWithdrawalRequest(wallet: string, user: string, amount: int, payment: T.Method, destination: string,
        now: int)
      returns (r: T.Outcome)
      requires Valid()
      modifies this`withdrawals, this`withdrawalSeq
      ensures (Abs(), r) == T.CreateWithdrawal(config, old(Abs()), wallet, user, amount, payment, destination, now)
      ensures Valid()
    {
      T.WithdrawalConsistent(config, Abs(), wallet, user, amount, payment, destination, now);
      if !config.Enabled(payment) {
        return T.Failed(T.MethodDisabled);
      }
      var fee := config.withdrawalFeeFlat + Quo(amount * config.withdrawalFeeBps, 10_000);
      if amount <= fee {
        return T.Failed(T.FeeNotCovered);
      }
      withdrawalSeq := withdrawalSeq + 1;
      var req := T.Withdrawal.Withdrawal(wallet, user, amount, payment, false, destination, now, 0);
      withdrawals := withdrawals[withdrawalSeq := req];
      r := T.Done(withdrawalSeq);
    }

    method ProcessWithdrawal(id: nat, now: int) returns (r: T.Outcome)
      requires Valid()
      modifies this`withdrawals, this`totalWithdrawn, this`totalFees
      ensures (Abs(), r) == T.ProcessWithdrawal(config, old(Abs()), id, now)
      ensures Valid()
    {
      T.ProcessConsistent(config, Abs(), id, now);
      if id !in withdrawals {
        return T.Failed(T.NotFound);
      }
      var req := withdrawals[id];
      if req.completed {
        return T.Failed(T.WrongStatus);
      }
      withdrawals := withdrawals[id := req.(completed := true, processedAt := now)];
      var fee := config.withdrawalFeeFlat + Quo(req.amount * config.withdrawalFeeBps, 10_000);
      totalWithdrawn := totalWithdrawn + req.amount;
      totalFees := totalFees + fee;
      r := T.Done(id);
    }

    method CreateEscrow(tradeId: string, buyer: string, seller: string, amount: int, payment: T.Method, now: int)
      returns (r: T.Outcome)
      requires Valid()
      modifies this`escrows, this`escrowSeq, this`activeEscrows
      ensures (Abs(), r) == T.CreateEscrow(config, old(Abs()), tradeId, buyer, seller, amount, payment, now)
      ensures Valid()
    {
      T.EscrowConsistent(config, Abs(), tradeId, buyer, seller, amount, payment, now);
      if amount < config.minSettlement {
        return T.Failed(T.BelowMinimum);
      }
      if amount > config.maxSettlement {
        return T.Failed(T.AboveMaximum);
      }
      var fee := Quo(amount * config.settlementFeeBps, 10_000);
      escrowSeq := escrowSeq + 1;
      var escrow := T.Escrow.Escrow(tradeId, buyer, seller, amount, fee, T.Pending, payment, "", now, 0, 0,
                                    now + config.timeoutSeconds);
      escrows := escrows[escrowSeq := escrow];
      activeEscrows := activeEscrows + 1;
      r := T.Done(escrowSeq);
    }

    method FundEscrow(id: nat, paymentRef: string, now: int) returns (r: T.Outcome)
      requires Valid()
      modifies this`escrows, this`activeEscrows
      ensures (Abs(), r) == T.FundEscrow(old(Abs()), id, paymentRef, now)
      ensures Valid()
    {
      T.FundConsistent(config, Abs(), id, paymentRef, now);
      if id !in escrows {
        return T.Failed(T.NotFound);
      }
      var escrow := escrows[id];
      if escrow.status != T.Pending {
        return T.Failed(T.WrongStatus);
      }
      if now > escrow.expiresAt {
        escrows := escrows[id := escrow.(status := T.Expired)];
        activeEscrows := activeEscrows - 1;
        return T.Failed(T.HasExpired);
      }
      escrow := escrow.(status := T.Funded);
      escrow := escrow.(paymentRef := paymentRef);
      escrow := escrow.(fundedAt := now);
      escrows := escrows[id := escrow];
      r := T.Done(id);
    }

    method ExecuteSettlement(id: nat, ftgAmount: int, height: int, now: int) returns (r: T.Outcome)
      requires Valid()
      modifies this`escrows, this`activeEscrows, this`settlementSeq, this`settlements, this`totalSettled, this`totalFees
      ensures (Abs(), r) == T.Execute(old(Abs()), id, ftgAmount, height, now)
      ensures Valid()
    {
      ghost var s := Abs();
      if id !in escrows {
        return T.Failed(T.NotFound);
      }
      var escrow := escrows[id];
      if escrow.status != T.Funded {
        return T.Failed(T.WrongStatus);
      }
      T.ExecuteConsistent(config, s, id, ftgAmount, height, now);
      r := Complete(id, ftgAmount, height, now);
    }

    /** Completes a funded escrow and records its settlement. */
    method Complete(id: nat, ftgAmount: int, height: int, now: int) returns (r: T.Outcome)
      requires id in escrows && escrows[id].status == T.Funded
      modifies this`escrows, this`activeEscrows, this`settlementSeq, this`settlements, this`totalSettled, this`totalFees
      ensures (Abs(), r) == T.Execute(old(Abs()), id, ftgAmount, height, now)
    {
      var escrow := escrows[id];
      escrows := escrows[id := escrow.(status := T.Completed, completedAt := now)];
      activeEscrows := activeEscrows - 1;
      var pricePerFtg := 0;
      if ftgAmount > 0 {
        pricePerFtg := Quo(escrow.amount * MICRO, ftgAmount);
      }
      settlementSeq := settlementSeq + 1;
      var record := T.Record.Record(settlementSeq, id, escrow.tradeId, escrow.buyer, escrow.seller, ftgAmount,
                                    escrow.amount, pricePerFtg, escrow.fee, escrow.payment, height, now);
      settlements := settlements + [record];
      totalSettled := totalSettled + escrow.amount;
      totalFees := totalFees + escrow.fee;
      r := T.Done(settlementSeq);
    }

    method RefundEscrow(id: nat) returns (r: T.Outcome)
      requires Valid()
      modifies this`escrows
      ensures (Abs(), r) == T.Refund(old(Abs()), id)
      ensures Valid()
    {
      T.RefundConsistent(config, Abs(), id);
      if id !in escrows {
        return T.Failed(T.NotFound);
      }
      if escrows[id].status == T.Completed {
        return T.Failed(T.WrongStatus);
      }
      escrows := escrows[id := escrows[id].(status := T.Refunded)];
      if escrows[id].status == T.Funded || escrows[id].status == T.Pending {
        // The source would lower the count of active escrows here, but the new status is already stored.
        assert false;
      }
      r := T.Done(id);
    }
  }
}
