/** What the settlement ledger owes to the events before it: who asked for each deposit, withdrawal, escrow and record,
    what fees are, and why an operation is refused. */
module SettlementHistory {
  import opened Amounts
  import opened Settlement

  // ---- Fees and methods ----

  /** The amount exceeds the flat fee and the rate's share of it, counted without the share's fraction. */
  predicate CoversFee(c: Config, amount: int) {
    var rest, share := amount - c.withdrawalFeeFlat, amount * c.withdrawalFeeBps;
    if share >= 0 then rest * 10_000 > share else (rest - 1) * 10_000 >= share
  }

  lemma CoversFeeIs(c: Config, amount: int)
    ensures CoversFee(c, amount) <==> amount > c.WithdrawalFee(amount)
  {
    var share := amount * c.withdrawalFeeBps;
    QuoTruncates(share, 10_000, Quo(share, 10_000));
  }

  /** What event `e` adds to the fees collected: on a withdrawal the flat fee and the rate's share of the amount, on a
      settlement the rate's share, both without the share's fraction. */
  predicate FeeAdded(c: Config, s: State, e: Event, x: int) {
    match e
    case ProcessWithdrawalEv(id) =>
      if id in s.withdrawals && !s.withdrawals[id].completed
      then Truncates(s.withdrawals[id].amount * c.withdrawalFeeBps, 10_000, x - c.withdrawalFeeFlat)
      else x == 0
    case ExecuteEv(id, _, _) =>
      if id in s.escrows && s.escrows[id].status == Funded
      then Truncates(s.escrows[id].amount * c.settlementFeeBps, 10_000, x)
      else x == 0
    case _ => x == 0
  }

  lemma StepFees(c: Config, s: State, e: Event, now: int)
    requires KeysOk(c, s)
    ensures FeeAdded(c, s, e, Step(c, s, e, now).0.totalFees - s.totalFees)
  {
    match e
    case ProcessWithdrawalEv(id) =>
      if id in s.withdrawals {
        var share := s.withdrawals[id].amount * c.withdrawalFeeBps;
        QuoTruncates(share, 10_000, Quo(share, 10_000));
      }
    case ExecuteEv(id, _, _) =>
      if id in s.escrows {
        var share := s.escrows[id].amount * c.settlementFeeBps;
        QuoTruncates(share, 10_000, Quo(share, 10_000));
      }
    case _ =>
  }

  /** In every history the fees collected grow by the fees of processed withdrawals and completed settlements alone. */
  lemma RunFees(c: Config, events: seq<(Event, int)>)
    requires events != []
    ensures var s, e := StateAt(c, events[..|events| - 1]), events[|events| - 1].0;
            FeeAdded(c, s, e, StateAt(c, events).totalFees - s.totalFees)
  {
    RunLedger(c, events[..|events| - 1]);
    StepFees(c, StateAt(c, events[..|events| - 1]), events[|events| - 1].0, events[|events| - 1].1);
  }

  /** Each switch turns one payment method on or off and no other; a method without a switch is never on. */
  lemma MethodSwitches(c: Config, m: Method, on: bool)
    ensures c.(bankWire := on).Enabled(m) <==> if m == BankWire then on else c.Enabled(m)
    ensures c.(stripe := on).Enabled(m) <==> if m == Stripe then on else c.Enabled(m)
    ensures c.(crypto := on).Enabled(m) <==> if m == Stablecoin then on else c.Enabled(m)
    ensures c.(nobleIbc := on).Enabled(m) <==> if m == NobleIBC then on else c.Enabled(m)
    ensures c.(circle := on).Enabled(m) <==> if m == CircleMint then on else c.Enabled(m)
    ensures !c.Enabled(OtherMethod)
  {
  }

  // ---- What is allowed ----

  /** Deposits expire the configured time after they were made, and are confirmed by then. */
  ghost predicate DepositsInTime(c: Config, s: State) {
    forall id :: id in s.deposits ==>
      var d := s.deposits[id];
      && d.expiresAt == d.createdAt + c.timeoutSeconds
      && (d.status == DepositConfirmed ==> d.confirmedAt <= d.expiresAt)
  }

  lemma StepDepositsInTime(c: Config, s: State, e: Event, now: int)
    requires DepositsInTime(c, s)
    ensures DepositsInTime(c, Step(c, s, e, now).0)
  {
  }

  lemma {:induction false} RunDepositsInTime(c: Config, events: seq<(Event, int)>)
    ensures DepositsInTime(c, StateAt(c, events))
  {
    if events != [] {
      var n := |events| - 1;
      RunDepositsInTime(c, events[..n]);
      StepDepositsInTime(c, StateAt(c, events[..n]), events[n].0, events[n].1);
    }
  }

  /** The event may take place: the amount is within bounds and covers its fee, the method is on, what it names is there
      in the right status, and time has not run out. */
  predicate Allowed(c: Config, s: State, e: Event, now: int) {
    match e
    case CreateDepositEv(_, _, amount, payment) => amount >= c.minSettlement && c.Enabled(payment)
    case ConfirmDepositEv(id, _) =>
      && id in s.deposits && s.deposits[id].status == DepositPending
      && now <= s.deposits[id].createdAt + c.timeoutSeconds
    case CreateWithdrawalEv(_, _, amount, payment, _) => c.Enabled(payment) && CoversFee(c, amount)
    case ProcessWithdrawalEv(id) => id in s.withdrawals && !s.withdrawals[id].completed
    case CreateEscrowEv(_, _, _, amount, _) => c.minSettlement <= amount <= c.maxSettlement
    case FundEscrowEv(id, _) =>
      && id in s.escrows && s.escrows[id].status == Pending
      && now <= s.escrows[id].createdAt + c.timeoutSeconds
    case ExecuteEv(id, _, _) => id in s.escrows && s.escrows[id].status == Funded
    case RefundEv(id) => id in s.escrows && s.escrows[id].status != Completed
  }

  /** The event finds the deposit or escrow it would pay past its time, and marks it so. */
  predicate TooLate(c: Config, s: State, e: Event, now: int) {
    || (e.ConfirmDepositEv? && e.id in s.deposits && s.deposits[e.id].status == DepositPending
        && now > s.deposits[e.id].createdAt + c.timeoutSeconds)
    || (e.FundEscrowEv? && e.id in s.escrows && s.escrows[e.id].status == Pending
        && now > s.escrows[e.id].createdAt + c.timeoutSeconds)
  }

  lemma StepAllowed(c: Config, s: State, e: Event, now: int)
    requires InTime(c, s) && DepositsInTime(c, s)
    ensures Step(c, s, e, now).1.Done? <==> Allowed(c, s, e, now)
    ensures Step(c, s, e, now).1 == Failed(HasExpired) <==> TooLate(c, s, e, now)
    ensures !Allowed(c, s, e, now) && !TooLate(c, s, e, now) ==> Step(c, s, e, now).0 == s
  {
    if e.CreateWithdrawalEv? { CoversFeeIs(c, e.amount); }
  }

  /** After any history an operation goes through exactly when it is allowed; one that comes too late is told so, and
      told otherwise the next time; any other changes nothing. */
  lemma RunAllowed(c: Config, events: seq<(Event, int)>, e: Event, now: int)
    ensures var s := StateAt(c, events);
            var (s', r) := Step(c, s, e, now);
            && (r.Done? <==> Allowed(c, s, e, now))
            && (r == Failed(HasExpired) <==> TooLate(c, s, e, now))
            && (r == Failed(HasExpired) ==> Step(c, s', e, now).1 == Failed(WrongStatus))
            && (r.Failed? && r.error != HasExpired ==> s' == s)
  {
    RunInTime(c, events);
    RunDepositsInTime(c, events);
    StepAllowed(c, StateAt(c, events), e, now);
  }

  /** The thing event `e` names is in the ledger. */
  predicate Named(s: State, e: Event) {
    match e
    case ConfirmDepositEv(id, _) => id in s.deposits
    case ProcessWithdrawalEv(id) => id in s.withdrawals
    case FundEscrowEv(id, _) => id in s.escrows
    case ExecuteEv(id, _, _) => id in s.escrows
    case RefundEv(id) => id in s.escrows
    case _ => true
  }

  function WithAmount(e: Event, amount: int): Event {
    match e
    case CreateDepositEv(wallet, user, _, payment) => CreateDepositEv(wallet, user, amount, payment)
    case CreateWithdrawalEv(wallet, user, _, payment, to) => CreateWithdrawalEv(wallet, user, amount, payment, to)
    case CreateEscrowEv(tradeId, buyer, seller, _, payment) => CreateEscrowEv(tradeId, buyer, seller, amount, payment)
    case _ => e
  }

  /** What a refusal tells: what is named was never made; an amount is on the wrong side of a bound, which going further
      does not help and the bound itself does; a disabled method is not helped by any amount; and what is named has
      moved on, in a way no time changes. */
  lemma Refused(c: Config, s: State, e: Event, now: int, x: Error, amount: int, later: int)
    requires Step(c, s, e, now).1 == Failed(x)
    ensures x == NotFound <==> !Named(s, e)
    ensures x == BelowMinimum ==>
              && Step(c, s, WithAmount(e, c.minSettlement), now).1 != Failed(BelowMinimum)
              && (amount <= e.amount ==> Step(c, s, WithAmount(e, amount), now).1 == Failed(BelowMinimum))
    ensures x == AboveMaximum ==>
              && (c.minSettlement <= c.maxSettlement ==> Step(c, s, WithAmount(e, c.maxSettlement), now).1.Done?)
              && (amount >= e.amount ==> Step(c, s, WithAmount(e, amount), now).1 == Failed(AboveMaximum))
    ensures x == MethodDisabled ==>
              Step(c, s, WithAmount(e, amount), now).1 in {Failed(MethodDisabled), Failed(BelowMinimum)}
    ensures x == WrongStatus ==> Step(c, s, e, later).1 == Failed(WrongStatus)
    ensures x == FeeNotCovered ==> e.CreateWithdrawalEv? && c.Enabled(e.payment) && !CoversFee(c, e.amount)
  {
    if e.CreateWithdrawalEv? { CoversFeeIs(c, e.amount); }
  }

  // ---- Where deposits and withdrawals come from ----

  predicate DepositMade(d: Deposit, e: Event, at: int) {
    e == CreateDepositEv(d.wallet, d.user, d.amount, d.payment) && at == d.createdAt
  }

  /** What an event does to one deposit. */
  lemma StepDeposit(c: Config, s: State, e: Event, now: int, id: nat)
    requires id in Step(c, s, e, now).0.deposits && KeysOk(c, s)
    ensures var d' := Step(c, s, e, now).0.deposits[id];
            if id in s.deposits then
              var d := s.deposits[id];
              || d' == d
              || (e.ConfirmDepositEv? && e.id == id && d.status == DepositPending
                  && d' == if now <= d.expiresAt
                           then d.(status := DepositConfirmed, paymentRef := e.paymentRef, confirmedAt := now)
                           else d.(status := DepositExpired))
            else DepositMade(d', e, now) && d'.status == DepositPending && Allowed(c, s, e, now)
  {
  }

  /** Every deposit was asked for by an allowed event, whose wallet, user, amount and method it keeps. */
  lemma {:induction false} DepositOrigin(c: Config, events: seq<(Event, int)>, id: nat) returns (i: nat)
    requires id in StateAt(c, events).deposits
    ensures i < |events| && DepositMade(StateAt(c, events).deposits[id], events[i].0, events[i].1)
    ensures Allowed(c, StateAt(c, events[..i]), events[i].0, events[i].1)
  {
    var n := |events| - 1;
    RunLedger(c, events[..n]);
    StepDeposit(c, StateAt(c, events[..n]), events[n].0, events[n].1, id);
    if id in StateAt(c, events[..n]).deposits {
      i := DepositOrigin(c, events[..n], id);
      assert events[..n][..i] == events[..i];
    } else {
      i := n;
    }
  }

  /** A deposit that is not pending was confirmed by an event in time, whose reference and time it keeps, or marked
      expired by one past its time. */
  lemma {:induction false} DepositAnswered(c: Config, events: seq<(Event, int)>, id: nat) returns (i: nat)
    requires id in StateAt(c, events).deposits && StateAt(c, events).deposits[id].status != DepositPending
    ensures i < |events| && events[i].0.ConfirmDepositEv? && events[i].0.id == id
    ensures var d := StateAt(c, events).deposits[id];
            if events[i].1 <= d.createdAt + c.timeoutSeconds then
              d.status == DepositConfirmed && d.paymentRef == events[i].0.paymentRef && d.confirmedAt == events[i].1
            else d.status == DepositExpired
  {
    var n := |events| - 1;
    RunLedger(c, events[..n]);
    RunDepositsInTime(c, events);
    RunDepositsInTime(c, events[..n]);
    var s := StateAt(c, events[..n]);
    StepDeposit(c, s, events[n].0, events[n].1, id);
    if s.deposits[id] == StateAt(c, events).deposits[id] {
      i := DepositAnswered(c, events[..n], id);
    } else {
      i := n;
    }
  }

  predicate WithdrawalMade(w: Withdrawal, e: Event, at: int) {
    e == CreateWithdrawalEv(w.wallet, w.user, w.amount, w.payment, w.destination) && at == w.createdAt
  }

  lemma StepWithdrawal(c: Config, s: State, e: Event, now: int, id: nat)
    requires id in Step(c, s, e, now).0.withdrawals && KeysOk(c, s)
    ensures var w' := Step(c, s, e, now).0.withdrawals[id];
            if id in s.withdrawals then
              var w := s.withdrawals[id];
              || w' == w
              || (e == ProcessWithdrawalEv(id) && !w.completed && w' == w.(completed := true, processedAt := now))
            else WithdrawalMade(w', e, now) && !w'.completed && Allowed(c, s, e, now)
  {
    if e.CreateWithdrawalEv? { CoversFeeIs(c, e.amount); }
  }

  /** Every withdrawal was asked for by an event whose amount covered its fee by a method that was on, and keeps what
      that event asked for. */
  lemma {:induction false} WithdrawalOrigin(c: Config, events: seq<(Event, int)>, id: nat) returns (i: nat)
    requires id in StateAt(c, events).withdrawals
    ensures i < |events| && WithdrawalMade(StateAt(c, events).withdrawals[id], events[i].0, events[i].1)
    ensures Allowed(c, StateAt(c, events[..i]), events[i].0, events[i].1)
  {
    var n := |events| - 1;
    RunLedger(c, events[..n]);
    StepWithdrawal(c, StateAt(c, events[..n]), events[n].0, events[n].1, id);
    if id in StateAt(c, events[..n]).withdrawals {
      i := WithdrawalOrigin(c, events[..n], id);
      assert events[..n][..i] == events[..i];
    } else {
      i := n;
    }
  }

  /** A completed withdrawal was processed at the time it records. */
  lemma {:induction false} WithdrawalProcessed(c: Config, events: seq<(Event, int)>, id: nat) returns (i: nat)
    requires id in StateAt(c, events).withdrawals && StateAt(c, events).withdrawals[id].completed
    ensures i < |events| && events[i] == (ProcessWithdrawalEv(id), StateAt(c, events).withdrawals[id].processedAt)
  {
    var n := |events| - 1;
    RunLedger(c, events[..n]);
    var s := StateAt(c, events[..n]);
    StepWithdrawal(c, s, events[n].0, events[n].1, id);
    if id in s.withdrawals && s.withdrawals[id].completed {
      i := WithdrawalProcessed(c, events[..n], id);
    } else {
      i := n;
    }
  }

  // ---- Where escrows and records come from ----

  predicate EscrowMade(c: Config, e: Escrow, ev: Event, at: int) {
    && ev == CreateEscrowEv(e.tradeId, e.buyer, e.seller, e.amount, e.payment) && at == e.createdAt
    && Truncates(e.amount * c.settlementFeeBps, 10_000, e.fee)
  }

  /** What an event does to one escrow. */
  lemma StepEscrow(c: Config, s: State, e: Event, now: int, id: nat)
    requires id in Step(c, s, e, now).0.escrows && KeysOk(c, s)
    ensures var x' := Step(c, s, e, now).0.escrows[id];
            if id in s.escrows then
              var x := s.escrows[id];
              || x' == x
              || (e.FundEscrowEv? && e.id == id && x.status == Pending
                  && x' == if now <= x.expiresAt then x.(status := Funded, paymentRef := e.paymentRef, fundedAt := now)
                           else x.(status := Expired))
              || (e.ExecuteEv? && e.id == id && x.status == Funded && x' == x.(status := Completed, completedAt := now))
              || (e == RefundEv(id) && x.status != Completed && x' == x.(status := Refunded))
            else EscrowMade(c, x', e, now) && x'.status == Pending && Allowed(c, s, e, now)
  {
    if e.CreateEscrowEv? {
      var share := e.amount * c.settlementFeeBps;
      QuoTruncates(share, 10_000, Quo(share, 10_000));
    }
  }

  /** Every escrow was asked for by an event within the limits and keeps its trade, buyer, seller, amount, method and
      time; its fee is the rate's share of the amount, without the fraction. */
  lemma {:induction false} EscrowOrigin(c: Config, events: seq<(Event, int)>, id: nat) returns (i: nat)
    requires id in StateAt(c, events).escrows
    ensures i < |events| && EscrowMade(c, StateAt(c, events).escrows[id], events[i].0, events[i].1)
    ensures Allowed(c, StateAt(c, events[..i]), events[i].0, events[i].1)
  {
    var n := |events| - 1;
    RunLedger(c, events[..n]);
    StepEscrow(c, StateAt(c, events[..n]), events[n].0, events[n].1, id);
    if id in StateAt(c, events[..n]).escrows {
      i := EscrowOrigin(c, events[..n], id);
      assert events[..n][..i] == events[..i];
    } else {
      i := n;
    }
  }

  /** A funded or completed escrow was funded in time by an event whose reference and time it keeps. */
  lemma {:induction false} EscrowFunded(c: Config, events: seq<(Event, int)>, id: nat) returns (i: nat)
    requires id in StateAt(c, events).escrows && StateAt(c, events).escrows[id].status in {Funded, Completed}
    ensures var x := StateAt(c, events).escrows[id];
            i < |events| && events[i] == (FundEscrowEv(id, x.paymentRef), x.fundedAt)
            && x.fundedAt <= x.createdAt + c.timeoutSeconds
  {
    var n := |events| - 1;
    RunLedger(c, events[..n]);
    RunInTime(c, events);
    var s := StateAt(c, events[..n]);
    StepEscrow(c, s, events[n].0, events[n].1, id);
    if id in s.escrows && s.escrows[id].status in {Funded, Completed} {
      i := EscrowFunded(c, events[..n], id);
    } else {
      i := n;
    }
  }

  /** A refunded escrow was refunded by an event, and never completed before. */
  lemma {:induction false} EscrowRefunded(c: Config, events: seq<(Event, int)>, id: nat) returns (i: nat)
    requires id in StateAt(c, events).escrows && StateAt(c, events).escrows[id].status == Refunded
    ensures i < |events| && events[i].0 == RefundEv(id)
    ensures id in StateAt(c, events[..i]).escrows && StateAt(c, events[..i]).escrows[id].status != Completed
  {
    var n := |events| - 1;
    RunLedger(c, events[..n]);
    var s := StateAt(c, events[..n]);
    StepEscrow(c, s, events[n].0, events[n].1, id);
    if id in s.escrows && s.escrows[id].status == Refunded {
      i := EscrowRefunded(c, events[..n], id);
      assert events[..n][..i] == events[..i];
    } else {
      i := n;
    }
  }

  /** Record `r` is of the event, and its price is the whole part of what was paid for a million units. */
  predicate RecordMade(r: Record, e: Event, at: int) {
    && e == ExecuteEv(r.escrowId, r.ftgAmount, r.height) && at == r.settledAt
    && (if r.ftgAmount > 0 then Truncates(r.usdcAmount * 1_000_000, r.ftgAmount, r.pricePerFtg) else r.pricePerFtg == 0)
  }

  lemma StepRecord(c: Config, s: State, e: Event, now: int)
    ensures var s' := Step(c, s, e, now).0;
            || s'.settlements == s.settlements
            || (s'.settlements[..|s'.settlements| - 1] == s.settlements
                && RecordMade(s'.settlements[|s'.settlements| - 1], e, now))
  {
    if e.ExecuteEv? && e.id in s.escrows && e.ftgAmount > 0 {
      var paid := s.escrows[e.id].amount * MICRO;
      QuoTruncates(paid, e.ftgAmount, Quo(paid, e.ftgAmount));
    }
  }

  /** Every record was written by an event that completed its escrow, and keeps that event's units, height and time; its
      price is the whole part of what a million units cost. */
  lemma {:induction false} RecordOrigin(c: Config, events: seq<(Event, int)>, k: nat) returns (i: nat)
    requires k < |StateAt(c, events).settlements|
    ensures i < |events| && RecordMade(StateAt(c, events).settlements[k], events[i].0, events[i].1)
  {
    var n := |events| - 1;
    var s := StateAt(c, events[..n]);
    StepRecord(c, s, events[n].0, events[n].1);
    if k < |s.settlements| {
      i := RecordOrigin(c, events[..n], k);
    } else {
      i := n;
    }
  }
}
