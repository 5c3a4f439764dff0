/** The settlement ledger: deposits, withdrawals and escrows, with their running totals. */
module Settlement {
  import opened Sums
  import opened Amounts

  datatype Method = BankWire | CircleMint | NobleIBC | Stablecoin | Stripe | OtherMethod

  /** An escrow fails only by expiring before it is funded. */
  datatype EscrowStatus = Pending | Funded | Completed | Expired | Refunded

  datatype Escrow = Escrow(
    tradeId: string,
    buyer: string,
    seller: string,
    amount: int,
    fee: int,
    status: EscrowStatus,
    payment: Method,
    paymentRef: string,
    createdAt: int,
    fundedAt: int,
    completedAt: int,
    expiresAt: int)

  datatype Record = Record(
    id: nat,
    escrowId: nat,
    tradeId: string,
    buyer: string,
    seller: string,
    ftgAmount: int,
    usdcAmount: int,
    pricePerFtg: int,
    fee: int,
    payment: Method,
    height: int,
    settledAt: int)

  datatype DepositStatus = DepositPending | DepositConfirmed | DepositExpired

  datatype Deposit = Deposit(
    wallet: string,
    user: string,
    amount: int,
    payment: Method,
    status: DepositStatus,
    paymentRef: string,
    createdAt: int,
    confirmedAt: int,
    expiresAt: int)

  datatype Withdrawal = Withdrawal(
    wallet: string,
    user: string,
    amount: int,
    payment: Method,
    completed: bool,
    destination: string,
    createdAt: int,
    processedAt: int)

  datatype Config = Config(
    timeoutSeconds: int,
    minSettlement: int,
    maxSettlement: int,
    settlementFeeBps: int,
    withdrawalFeeFlat: int,
    withdrawalFeeBps: int,
    bankWire: bool,
    stripe: bool,
    crypto: bool,
    nobleIbc: bool,
    circle: bool)
  {
    predicate Enabled(m: Method) {
      match m
      case BankWire => bankWire
      case Stripe => stripe
      case Stablecoin => crypto
      case NobleIBC => nobleIbc
      case CircleMint => circle
      case OtherMethod => false
    }

    function SettlementFee(amount: int): int { Quo(amount * settlementFeeBps, 10_000) }

    function WithdrawalFee(amount: int): int { withdrawalFeeFlat + Quo(amount * withdrawalFeeBps, 10_000) }
  }

  datatype Error = BelowMinimum | AboveMaximum | MethodDisabled | NotFound | WrongStatus | HasExpired | FeeNotCovered

  datatype Outcome = Done(id: nat) | Failed(error: Error)

  datatype State = State(
    escrows: map<nat, Escrow>,
    settlements: seq<Record>,
    deposits: map<nat, Deposit>,
    withdrawals: map<nat, Withdrawal>,
    totalSettled: int,
    totalFees: int,
    totalDeposited: int,
    totalWithdrawn: int,
    activeEscrows: int,
    escrowSeq: nat,
    settlementSeq: nat,
    depositSeq: nat,
    withdrawalSeq: nat)

  const INIT_STATE := State(map[], [], map[], map[], 0, 0, 0, 0, 0, 0, 0, 0, 0)

  datatype Event =
    | CreateDepositEv(wallet: string, user: string, amount: int, payment: Method)
    | ConfirmDepositEv(id: nat, paymentRef: string)
    | CreateWithdrawalEv(wallet: string, user: string, amount: int, payment: Method, destination: string)
    | ProcessWithdrawalEv(id: nat)
    | CreateEscrowEv(tradeId: string, buyer: string, seller: string, amount: int, payment: Method)
    | FundEscrowEv(id: nat, paymentRef: string)
    | ExecuteEv(id: nat, ftgAmount: int, height: int)
    | RefundEv(id: nat)

  function CreateDeposit(c: Config, s: State, wallet: string, user: string, amount: int, payment: Method,
      now: int): (State, Outcome) {
    if amount < c.minSettlement then (s, Failed(BelowMinimum))
    else if !c.Enabled(payment) then (s, Failed(MethodDisabled))
    else
      var id := s.depositSeq + 1;
      var d := Deposit(wallet, user, amount, payment, DepositPending, "", now, 0, now + c.timeoutSeconds);
      (s.(deposits := s.deposits[id := d], depositSeq := id), Done(id))
  }

  function ConfirmDeposit(s: State, id: nat, paymentRef: string, now: int): (State, Outcome) {
    if id !in s.deposits then (s, Failed(NotFound))
    else
      var d := s.deposits[id];
      if d.status != DepositPending then (s, Failed(WrongStatus))
      else if now > d.expiresAt then (s.(deposits := s.deposits[id := d.(status := DepositExpired)]), Failed(HasExpired))
      else
        (s.(deposits := s.deposits[id := d.(status := DepositConfirmed, paymentRef := paymentRef, confirmedAt := now)],
            totalDeposited := s.totalDeposited + d.amount), Done(id))
  }

  function CreateWithdrawal(c: Config, s: State, wallet: string, user: string, amount: int, payment: Method,
      destination: string, now: int): (State, Outcome) {
    if !c.Enabled(payment) then (s, Failed(MethodDisabled))
    else if amount <= c.WithdrawalFee(amount) then (s, Failed(FeeNotCovered))
    else
      var id := s.withdrawalSeq + 1;
      var w := Withdrawal(wallet, user, amount, payment, false, destination, now, 0);
      (s.(withdrawals := s.withdrawals[id := w], withdrawalSeq := id), Done(id))
  }

  function ProcessWithdrawal(c: Config, s: State, id: nat, now: int): (State, Outcome) {
    if id !in s.withdrawals then (s, Failed(NotFound))
    else
      var w := s.withdrawals[id];
      if w.completed then (s, Failed(WrongStatus))
      else
        (s.(withdrawals := s.withdrawals[id := w.(completed := true, processedAt := now)],
            totalWithdrawn := s.totalWithdrawn + w.amount,
            totalFees := s.totalFees + c.WithdrawalFee(w.amount)), Done(id))
  }

  function CreateEscrow(c: Config, s: State, tradeId: string, buyer: string, seller: string, amount: int,
      payment: Method, now: int): (State, Outcome) {
    if amount < c.minSettlement then (s, Failed(BelowMinimum))
    else if amount > c.maxSettlement then (s, Failed(AboveMaximum))
    else
      var id := s.escrowSeq + 1;
      var e := Escrow(tradeId, buyer, seller, amount, c.SettlementFee(amount), Pending, payment, "", now, 0, 0,
                      now + c.timeoutSeconds);
      (s.(escrows := s.escrows[id := e], escrowSeq := id, activeEscrows := s.activeEscrows + 1), Done(id))
  }

  function FundEscrow(s: State, id: nat, paymentRef: string, now: int): (State, Outcome) {
    if id !in s.escrows then (s, Failed(NotFound))
    else
      var e := s.escrows[id];
      if e.status != Pending then (s, Failed(WrongStatus))
      else if now > e.expiresAt then
        (s.(escrows := s.escrows[id := e.(status := Expired)], activeEscrows := s.activeEscrows - 1), Failed(HasExpired))
      else (s.(escrows := s.escrows[id := e.(status := Funded, paymentRef := paymentRef, fundedAt := now)]), Done(id))
  }

  function RecordOf(e: Escrow, id: nat, escrowId: nat, ftgAmount: int, height: int, now: int): Record {
    var price := if ftgAmount > 0 then Quo(e.amount * MICRO, ftgAmount) else 0;
    Record(id, escrowId, e.tradeId, e.buyer, e.seller, ftgAmount, e.amount, price, e.fee, e.payment, height, now)
  }

  function Execute(s: State, id: nat, ftgAmount: int, height: int, now: int): (State, Outcome) {
    if id !in s.escrows then (s, Failed(NotFound))
    else
      var e := s.escrows[id];
      if e.status != Funded then (s, Failed(WrongStatus))
      else
        var n := s.settlementSeq + 1;
        (s.(escrows := s.escrows[id := e.(status := Completed, completedAt := now)],
            activeEscrows := s.activeEscrows - 1,
            settlementSeq := n,
            settlements := s.settlements + [RecordOf(e, n, id, ftgAmount, height, now)],
            totalSettled := s.totalSettled + e.amount,
            totalFees := s.totalFees + e.fee), Done(n))
  }

  /** The status is overwritten before it is tested, so the count of active escrows is never lowered here. */
  function Refund(s: State, id: nat): (State, Outcome) {
    if id !in s.escrows then (s, Failed(NotFound))
    else if s.escrows[id].status == Completed then (s, Failed(WrongStatus))
    else (s.(escrows := s.escrows[id := s.escrows[id].(status := Refunded)]), Done(id))
  }

  function Step(c: Config, s: State, e: Event, now: int): (State, Outcome) {
    match e
    case CreateDepositEv(wallet, user, amount, payment) => CreateDeposit(c, s, wallet, user, amount, payment, now)
    case ConfirmDepositEv(id, paymentRef) => ConfirmDeposit(s, id, paymentRef, now)
    case CreateWithdrawalEv(wallet, user, amount, payment, destination) =>
      CreateWithdrawal(c, s, wallet, user, amount, payment, destination, now)
    case ProcessWithdrawalEv(id) => ProcessWithdrawal(c, s, id, now)
    case CreateEscrowEv(tradeId, buyer, seller, amount, payment) =>
      CreateEscrow(c, s, tradeId, buyer, seller, amount, payment, now)
    case FundEscrowEv(id, paymentRef) => FundEscrow(s, id, paymentRef, now)
    case ExecuteEv(id, ftgAmount, height) => Execute(s, id, ftgAmount, height, now)
    case RefundEv(id) => Refund(s, id)
  }

  /** The state after a history of events, each at its time. */
  function StateAt(c: Config, events: seq<(Event, int)>): State {
    if events == [] then INIT_STATE
    else
      var n := |events| - 1;
      Step(c, StateAt(c, events[..n]), events[n].0, events[n].1).0
  }

  // ---- Records and completed escrows ----

  /** Record `r` describes completed escrow `e`. */
  predicate Describes(r: Record, e: Escrow) {
    && e.status == Completed
    && r.tradeId == e.tradeId && r.buyer == e.buyer && r.seller == e.seller
    && r.usdcAmount == e.amount && r.fee == e.fee && r.payment == e.payment && r.settledAt == e.completedAt
  }

  /** Settlement records and completed escrows correspond one to one, and records are numbered in order. */
  ghost predicate RecordsMatch(s: State) {
    && s.settlementSeq == |s.settlements|
    && (forall i :: 0 <= i < |s.settlements| ==>
          && s.settlements[i].id == i + 1
          && s.settlements[i].escrowId in s.escrows
          && Describes(s.settlements[i], s.escrows[s.settlements[i].escrowId]))
    && (forall i, j :: 0 <= i < j < |s.settlements| ==> s.settlements[i].escrowId != s.settlements[j].escrowId)
    && (forall id :: id in s.escrows && s.escrows[id].status == Completed ==>
          exists i :: 0 <= i < |s.settlements| && s.settlements[i].escrowId == id)
  }

  ghost predicate KeysOk(c: Config, s: State) {
    && (forall id :: id in s.escrows ==> id <= s.escrowSeq)
    && (forall id :: id in s.deposits ==> id <= s.depositSeq)
    && (forall id :: id in s.withdrawals ==> id <= s.withdrawalSeq)
    && (forall id :: id in s.escrows ==>
          && c.minSettlement <= s.escrows[id].amount <= c.maxSettlement
          && s.escrows[id].fee == c.SettlementFee(s.escrows[id].amount))
    && (forall id :: id in s.withdrawals ==> c.WithdrawalFee(s.withdrawals[id].amount) < s.withdrawals[id].amount)
  }

  function SettledAmount(): Escrow -> int { (e: Escrow) => if e.status == Completed then e.amount else 0 }

  function SettledFee(): Escrow -> int { (e: Escrow) => if e.status == Completed then e.fee else 0 }

  function WithdrawnAmount(): Withdrawal -> int { (w: Withdrawal) => if w.completed then w.amount else 0 }

  function WithdrawnFee(c: Config): Withdrawal -> int { (w: Withdrawal) => if w.completed then c.WithdrawalFee(w.amount) else 0 }

  function ConfirmedAmount(): Deposit -> int { (d: Deposit) => if d.status == DepositConfirmed then d.amount else 0 }

  /** Each running total is the sum it stands for. */
  ghost predicate TotalsMatch(c: Config, s: State) {
    && s.totalSettled == Sum(s.escrows, SettledAmount())
    && s.totalFees == Sum(s.escrows, SettledFee()) + Sum(s.withdrawals, WithdrawnFee(c))
    && s.totalWithdrawn == Sum(s.withdrawals, WithdrawnAmount())
    && s.totalDeposited == Sum(s.deposits, ConfirmedAmount())
  }

  lemma EscrowKeys(c: Config, s: State, e: Event, now: int)
    requires KeysOk(c, s) && (e.CreateEscrowEv? || e.FundEscrowEv? || e.ExecuteEv? || e.RefundEv?)
    ensures KeysOk(c, Step(c, s, e, now).0)
  {
  }

  lemma PaymentKeys(c: Config, s: State, e: Event, now: int)
    requires KeysOk(c, s) && !(e.CreateEscrowEv? || e.FundEscrowEv? || e.ExecuteEv? || e.RefundEv?)
    ensures KeysOk(c, Step(c, s, e, now).0)
  {
  }

  lemma StepKeys(c: Config, s: State, e: Event, now: int)
    requires KeysOk(c, s)
    ensures KeysOk(c, Step(c, s, e, now).0)
  {
    if e.CreateEscrowEv? || e.FundEscrowEv? || e.ExecuteEv? || e.RefundEv? {
      EscrowKeys(c, s, e, now);
    } else {
      PaymentKeys(c, s, e, now);
    }
  }

  /** Completing an escrow that is not completed yet, and logging it. */
  lemma LogRecord(s: State, s': State, r: Record)
    requires RecordsMatch(s)
    requires r.escrowId in s.escrows && s.escrows[r.escrowId].status != Completed
    requires s'.settlements == s.settlements + [r] && s'.settlementSeq == s.settlementSeq + 1 == r.id
    requires r.escrowId in s'.escrows && Describes(r, s'.escrows[r.escrowId])
    requires s'.escrows == s.escrows[r.escrowId := s'.escrows[r.escrowId]]
    ensures RecordsMatch(s')
  {
    var n := |s.settlements|;
    assert forall i :: 0 <= i < n ==> s'.settlements[i] == s.settlements[i];
    assert s'.settlements[n] == r;
    forall i | 0 <= i < n ensures s.settlements[i].escrowId != r.escrowId {
      assert Describes(s.settlements[i], s.escrows[s.settlements[i].escrowId]);
    }
    forall k | k in s'.escrows && s'.escrows[k].status == Completed
      ensures exists i :: 0 <= i < |s'.settlements| && s'.settlements[i].escrowId == k
    {
      if k != r.escrowId {
        var i :| 0 <= i < n && s.settlements[i].escrowId == k;
        assert s'.settlements[i].escrowId == k;
      }
    }
  }

  lemma ExecuteRecords(s: State, id: nat, ftgAmount: int, height: int, now: int)
    requires RecordsMatch(s)
    ensures RecordsMatch(Execute(s, id, ftgAmount, height, now).0)
  {
    var (s', r) := Execute(s, id, ftgAmount, height, now);
    if r.Done? {
      LogRecord(s, s', RecordOf(s.escrows[id], s'.settlementSeq, id, ftgAmount, height, now));
    }
  }

  /** The other operations leave the log alone, and completed escrows as they are. */
  lemma OtherRecords(s: State, s': State)
    requires RecordsMatch(s) && s'.settlements == s.settlements && s'.settlementSeq == s.settlementSeq
    requires forall id :: id in s.escrows && s.escrows[id].status == Completed ==>
               id in s'.escrows && s'.escrows[id] == s.escrows[id]
    requires forall id :: id in s'.escrows && s'.escrows[id].status == Completed ==>
               id in s.escrows && s.escrows[id].status == Completed
    ensures RecordsMatch(s')
  {
  }

  lemma CreateRecords(c: Config, s: State, e: Event, now: int)
    requires RecordsMatch(s) && KeysOk(c, s) && e.CreateEscrowEv?
    ensures RecordsMatch(Step(c, s, e, now).0)
  {
    OtherRecords(s, Step(c, s, e, now).0);
  }

  lemma FundRecords(s: State, id: nat, paymentRef: string, now: int)
    requires RecordsMatch(s)
    ensures RecordsMatch(FundEscrow(s, id, paymentRef, now).0)
  {
    OtherRecords(s, FundEscrow(s, id, paymentRef, now).0);
  }

  lemma RefundRecords(s: State, id: nat)
    requires RecordsMatch(s)
    ensures RecordsMatch(Refund(s, id).0)
  {
    OtherRecords(s, Refund(s, id).0);
  }

  lemma PaymentRecords(c: Config, s: State, e: Event, now: int)
    requires RecordsMatch(s)
    requires e.CreateDepositEv? || e.ConfirmDepositEv? || e.CreateWithdrawalEv? || e.ProcessWithdrawalEv?
    ensures RecordsMatch(Step(c, s, e, now).0)
  {
    OtherRecords(s, Step(c, s, e, now).0);
  }

  lemma StepRecords(c: Config, s: State, e: Event, now: int)
    requires RecordsMatch(s) && KeysOk(c, s)
    ensures RecordsMatch(Step(c, s, e, now).0)
  {
    match e
    case ExecuteEv(id, ftgAmount, height) => ExecuteRecords(s, id, ftgAmount, height, now);
    case CreateEscrowEv(_, _, _, _, _) => CreateRecords(c, s, e, now);
    case FundEscrowEv(id, paymentRef) => FundRecords(s, id, paymentRef, now);
    case RefundEv(id) => RefundRecords(s, id);
    case _ => PaymentRecords(c, s, e, now);
  }

  lemma DepositTotals(c: Config, s: State, id: nat, paymentRef: string, now: int)
    requires TotalsMatch(c, s)
    ensures TotalsMatch(c, ConfirmDeposit(s, id, paymentRef, now).0)
  {
    PutDeposit(s, ConfirmDeposit(s, id, paymentRef, now).0, id);
  }

  lemma WithdrawalTotals(c: Config, s: State, id: nat, now: int)
    requires TotalsMatch(c, s)
    ensures TotalsMatch(c, ProcessWithdrawal(c, s, id, now).0)
  {
    PutWithdrawal(c, s, ProcessWithdrawal(c, s, id, now).0, id);
  }

  lemma FundTotals(c: Config, s: State, id: nat, paymentRef: string, now: int)
    requires TotalsMatch(c, s)
    ensures TotalsMatch(c, FundEscrow(s, id, paymentRef, now).0)
  {
    PutEscrow(s, FundEscrow(s, id, paymentRef, now).0, id);
  }

  lemma ExecuteTotals(c: Config, s: State, id: nat, ftgAmount: int, height: int, now: int)
    requires TotalsMatch(c, s)
    ensures TotalsMatch(c, Execute(s, id, ftgAmount, height, now).0)
  {
    PutEscrow(s, Execute(s, id, ftgAmount, height, now).0, id);
  }

  lemma RefundTotals(c: Config, s: State, id: nat)
    requires TotalsMatch(c, s)
    ensures TotalsMatch(c, Refund(s, id).0)
  {
    PutEscrow(s, Refund(s, id).0, id);
  }

  lemma CreateTotals(c: Config, s: State, e: Event, now: int)
    requires KeysOk(c, s) && TotalsMatch(c, s)
    requires e.CreateDepositEv? || e.CreateWithdrawalEv? || e.CreateEscrowEv?
    ensures TotalsMatch(c, Step(c, s, e, now).0)
  {
    var s' := Step(c, s, e, now).0;
    match e
    case CreateDepositEv(_, _, _, _) => PutDeposit(s, s', s.depositSeq + 1);
    case CreateWithdrawalEv(_, _, _, _, _) => PutWithdrawal(c, s, s', s.withdrawalSeq + 1);
    case CreateEscrowEv(_, _, _, _, _) => PutEscrow(s, s', s.escrowSeq + 1);
  }

  lemma StepTotals(c: Config, s: State, e: Event, now: int)
    requires KeysOk(c, s) && TotalsMatch(c, s)
    ensures TotalsMatch(c, Step(c, s, e, now).0)
  {
    match e
    case ConfirmDepositEv(id, paymentRef) => DepositTotals(c, s, id, paymentRef, now);
    case ProcessWithdrawalEv(id) => WithdrawalTotals(c, s, id, now);
    case FundEscrowEv(id, paymentRef) => FundTotals(c, s, id, paymentRef, now);
    case ExecuteEv(id, ftgAmount, height) => ExecuteTotals(c, s, id, ftgAmount, height, now);
    case RefundEv(id) => RefundTotals(c, s, id);
    case _ => CreateTotals(c, s, e, now);
  }

  lemma PutDeposit(s: State, s': State, id: nat)
    ensures id in s'.deposits && s'.deposits == s.deposits[id := s'.deposits[id]] ==>
              Sum(s'.deposits, ConfirmedAmount()) == Sum(s.deposits, ConfirmedAmount())
                + ConfirmedAmount()(s'.deposits[id]) - (if id in s.deposits then ConfirmedAmount()(s.deposits[id]) else 0)
  {
    if id in s'.deposits && s'.deposits == s.deposits[id := s'.deposits[id]] {
      SumPut(s.deposits, id, s'.deposits[id], ConfirmedAmount());
    }
  }

  lemma PutWithdrawal(c: Config, s: State, s': State, id: nat)
    ensures id in s'.withdrawals && s'.withdrawals == s.withdrawals[id := s'.withdrawals[id]] ==>
              && Sum(s'.withdrawals, WithdrawnAmount()) == Sum(s.withdrawals, WithdrawnAmount())
                   + WithdrawnAmount()(s'.withdrawals[id]) - (if id in s.withdrawals then WithdrawnAmount()(s.withdrawals[id]) else 0)
              && Sum(s'.withdrawals, WithdrawnFee(c)) == Sum(s.withdrawals, WithdrawnFee(c))
                   + WithdrawnFee(c)(s'.withdrawals[id]) - (if id in s.withdrawals then WithdrawnFee(c)(s.withdrawals[id]) else 0)
  {
    if id in s'.withdrawals && s'.withdrawals == s.withdrawals[id := s'.withdrawals[id]] {
      SumPut(s.withdrawals, id, s'.withdrawals[id], WithdrawnAmount());
      SumPut(s.withdrawals, id, s'.withdrawals[id], WithdrawnFee(c));
    }
  }

  lemma PutEscrow(s: State, s': State, id: nat)
    ensures id in s'.escrows && s'.escrows == s.escrows[id := s'.escrows[id]] ==>
              && Sum(s'.escrows, SettledAmount()) == Sum(s.escrows, SettledAmount())
                   + SettledAmount()(s'.escrows[id]) - (if id in s.escrows then SettledAmount()(s.escrows[id]) else 0)
              && Sum(s'.escrows, SettledFee()) == Sum(s.escrows, SettledFee())
                   + SettledFee()(s'.escrows[id]) - (if id in s.escrows then SettledFee()(s.escrows[id]) else 0)
              && Sum(s'.escrows, OpenOne()) == Sum(s.escrows, OpenOne())
                   + OpenOne()(s'.escrows[id]) - (if id in s.escrows then OpenOne()(s.escrows[id]) else 0)
  {
    if id in s'.escrows && s'.escrows == s.escrows[id := s'.escrows[id]] {
      SumPut(s.escrows, id, s'.escrows[id], SettledAmount());
      SumPut(s.escrows, id, s'.escrows[id], SettledFee());
      SumPut(s.escrows, id, s'.escrows[id], OpenOne());
    }
  }

  /** The ledger. After any history, records and completed escrows correspond one to one, every total is the
      sum it stands for, and no fee of a withdrawal reaches its amount. */
  lemma {:induction false} RunLedger(c: Config, events: seq<(Event, int)>)
    ensures KeysOk(c, StateAt(c, events)) && RecordsMatch(StateAt(c, events)) && TotalsMatch(c, StateAt(c, events))
  {
    if events != [] {
      var n := |events| - 1;
      RunLedger(c, events[..n]);
      var s := StateAt(c, events[..n]);
      StepKeys(c, s, events[n].0, events[n].1);
      StepRecords(c, s, events[n].0, events[n].1);
      StepTotals(c, s, events[n].0, events[n].1);
    }
  }

  /** A settlement fee is smaller than the amount it is taken from exactly when the rate is below 100%. */
  lemma SettlementFeeBelowAmount(c: Config, amount: int)
    requires amount > 0 && c.settlementFeeBps >= 0
    ensures c.SettlementFee(amount) < amount <==> c.settlementFeeBps < 10_000
    ensures c.SettlementFee(amount) >= 0
  {
    MulNonNegative(amount, c.settlementFeeBps);
    if c.settlementFeeBps < 10_000 {
      MulMono(c.settlementFeeBps, 9_999, amount);
    } else {
      MulMono(10_000, c.settlementFeeBps, amount);
    }
  }

  /** The recorded price is the largest whole price at which the delivered units do not cost more than was
      paid. */
  lemma RecordedPrice(e: Escrow, id: nat, escrowId: nat, ftgAmount: int, height: int, now: int)
    requires ftgAmount > 0 && e.amount >= 0
    ensures var p := RecordOf(e, id, escrowId, ftgAmount, height, now).pricePerFtg;
            p * ftgAmount <= e.amount * MICRO < (p + 1) * ftgAmount
  {
    var x := e.amount * MICRO;
    assert x == ftgAmount * (x / ftgAmount) + x % ftgAmount;
  }

  // ---- States an escrow never leaves ----

  /** Completed and refunded escrows stay as they are. */
  lemma StepKeepsTerminal(c: Config, s: State, e: Event, now: int, id: nat)
    requires KeysOk(c, s)
    requires id in s.escrows && (s.escrows[id].status == Completed || s.escrows[id].status == Refunded)
    ensures var s' := Step(c, s, e, now).0; id in s'.escrows && s'.escrows[id] == s.escrows[id]
  {
  }

  lemma RunKeys(c: Config, events: seq<(Event, int)>)
    ensures KeysOk(c, StateAt(c, events))
  {
    RunLedger(c, events);
  }

  lemma {:induction false} TerminalForever(c: Config, events: seq<(Event, int)>, k: nat, id: nat)
    requires k <= |events|
    requires var s := StateAt(c, events[..k]);
             id in s.escrows && (s.escrows[id].status == Completed || s.escrows[id].status == Refunded)
    ensures var s, s' := StateAt(c, events[..k]), StateAt(c, events);
            id in s'.escrows && s'.escrows[id] == s.escrows[id]
  {
    if k == |events| {
      assert events[..k] == events;
    } else {
      var n := |events| - 1;
      assert events[..n][..k] == events[..k];
      TerminalForever(c, events[..n], k, id);
      RunKeys(c, events[..n]);
      StepKeepsTerminal(c, StateAt(c, events[..n]), events[n].0, events[n].1, id);
    }
  }

  // ---- Expiry ----

  /** Escrows are funded within the configured time, and only funded ones are completed. */
  ghost predicate InTime(c: Config, s: State) {
    forall id :: id in s.escrows ==>
      var e := s.escrows[id];
      && e.expiresAt == e.createdAt + c.timeoutSeconds
      && (e.status == Funded || e.status == Completed ==> e.fundedAt <= e.expiresAt)
      && (e.status == Pending || e.status == Expired ==> e.fundedAt == e.completedAt == 0)
  }

  lemma StepInTime(c: Config, s: State, e: Event, now: int)
    requires InTime(c, s)
    ensures InTime(c, Step(c, s, e, now).0)
  {
  }

  lemma {:induction false} RunInTime(c: Config, events: seq<(Event, int)>)
    ensures InTime(c, StateAt(c, events))
  {
    if events != [] {
      RunInTime(c, events[..|events| - 1]);
      StepInTime(c, StateAt(c, events[..|events| - 1]), events[|events| - 1].0, events[|events| - 1].1);
    }
  }

  /** An escrow that failed expired: it was still unfunded when someone tried to fund it too late. */
  lemma ExpiredExactlyWhen(c: Config, s: State, e: Event, now: int, id: nat)
    requires id in s.escrows && s.escrows[id].status != Expired && KeysOk(c, s)
    ensures var s' := Step(c, s, e, now).0;
            id in s'.escrows && (s'.escrows[id].status == Expired <==> ExpiresNow(s, e, now) && e.id == id)
  {
  }

  // ---- The count of active escrows ----

  function OpenOne(): Escrow -> int { (e: Escrow) => if e.status == Pending || e.status == Funded then 1 else 0 }

  /** The event finds the escrow it would fund expired. */
  predicate ExpiresNow(s: State, e: Event, now: int) {
    e.FundEscrowEv? && e.id in s.escrows && s.escrows[e.id].status == Pending && now > s.escrows[e.id].expiresAt
  }

  /** The event refunds an escrow that still counts as active. */
  predicate RefundsOpen(s: State, e: Event) {
    e.RefundEv? && e.id in s.escrows && (s.escrows[e.id].status == Pending || s.escrows[e.id].status == Funded)
  }

  function Expiries(c: Config, events: seq<(Event, int)>): nat {
    if events == [] then 0
    else
      var n := |events| - 1;
      Expiries(c, events[..n]) + if ExpiresNow(StateAt(c, events[..n]), events[n].0, events[n].1) then 1 else 0
  }

  function OpenRefunds(c: Config, events: seq<(Event, int)>): nat {
    if events == [] then 0
    else
      var n := |events| - 1;
      OpenRefunds(c, events[..n]) + if RefundsOpen(StateAt(c, events[..n]), events[n].0) then 1 else 0
  }

  /** How a step moves the counter, the settlements and the open escrows. */
  ghost predicate ActiveMoves(s: State, s': State, expires: int, refunds: int) {
    && s'.activeEscrows - s.activeEscrows
       == (s'.escrowSeq - s.escrowSeq) - (|s'.settlements| - |s.settlements|) - expires
    && (s'.activeEscrows - Sum(s'.escrows, OpenOne())) - (s.activeEscrows - Sum(s.escrows, OpenOne())) == refunds
  }

  lemma CreateActive(c: Config, s: State, e: Event, now: int)
    requires KeysOk(c, s) && e.CreateEscrowEv?
    ensures ActiveMoves(s, Step(c, s, e, now).0, 0, 0)
  {
    PutEscrow(s, Step(c, s, e, now).0, s.escrowSeq + 1);
  }

  lemma FundActive(s: State, id: nat, paymentRef: string, now: int)
    ensures ActiveMoves(s, FundEscrow(s, id, paymentRef, now).0,
                        if ExpiresNow(s, FundEscrowEv(id, paymentRef), now) then 1 else 0, 0)
  {
    PutEscrow(s, FundEscrow(s, id, paymentRef, now).0, id);
  }

  lemma ExecuteActive(s: State, id: nat, ftgAmount: int, height: int, now: int)
    ensures ActiveMoves(s, Execute(s, id, ftgAmount, height, now).0, 0, 0)
  {
    PutEscrow(s, Execute(s, id, ftgAmount, height, now).0, id);
  }

  lemma RefundActive(s: State, id: nat)
    ensures ActiveMoves(s, Refund(s, id).0, 0, if RefundsOpen(s, RefundEv(id)) then 1 else 0)
  {
    PutEscrow(s, Refund(s, id).0, id);
  }

  lemma StepActive(c: Config, s: State, e: Event, now: int)
    requires KeysOk(c, s)
    ensures ActiveMoves(s, Step(c, s, e, now).0, if ExpiresNow(s, e, now) then 1 else 0, if RefundsOpen(s, e) then 1 else 0)
  {
    match e
    case CreateEscrowEv(_, _, _, _, _) => CreateActive(c, s, e, now);
    case FundEscrowEv(id, paymentRef) => FundActive(s, id, paymentRef, now);
    case ExecuteEv(id, ftgAmount, height) => ExecuteActive(s, id, ftgAmount, height, now);
    case RefundEv(id) => RefundActive(s, id);
    case _ =>
  }

  /** The counter is the number of escrows ever made, less settlements and expiries; and it exceeds the
      number of pending or funded escrows by the number of such escrows that were refunded. */
  lemma {:induction false} RunActive(c: Config, events: seq<(Event, int)>)
    ensures var s := StateAt(c, events);
            && s.activeEscrows == s.escrowSeq - |s.settlements| - Expiries(c, events)
            && s.activeEscrows == Sum(s.escrows, OpenOne()) + OpenRefunds(c, events)
  {
    if events != [] {
      var n := |events| - 1;
      RunActive(c, events[..n]);
      RunLedger(c, events[..n]);
      StepActive(c, StateAt(c, events[..n]), events[n].0, events[n].1);
    }
  }

  /** No event of the history refunds an escrow that still counts as active. */
  predicate NeverRefundsOpen(c: Config, events: seq<(Event, int)>) {
    events == [] ||
    (var n := |events| - 1;
     !RefundsOpen(StateAt(c, events[..n]), events[n].0) && NeverRefundsOpen(c, events[..n]))
  }

  /** So the counter is right exactly on the histories that never refund a pending or funded escrow. */
  lemma ActiveIsExact(c: Config, events: seq<(Event, int)>)
    ensures var s := StateAt(c, events);
            && s.activeEscrows >= Sum(s.escrows, OpenOne())
            && (s.activeEscrows == Sum(s.escrows, OpenOne()) <==> NeverRefundsOpen(c, events))
  {
    RunActive(c, events);
    NoOpenRefunds(c, events);
  }

  lemma {:induction false} NoOpenRefunds(c: Config, events: seq<(Event, int)>)
    ensures OpenRefunds(c, events) == 0 <==> NeverRefundsOpen(c, events)
  {
    if events != [] {
      NoOpenRefunds(c, events[..|events| - 1]);
    }
  }

  /** A history after which the counter is wrong: one escrow made and refunded. */
  lemma RefundLeavesCounter(c: Config)
    requires c.minSettlement <= c.maxSettlement
    ensures var events := [(CreateEscrowEv("t", "b", "s", c.minSettlement, Stripe), 0), (RefundEv(1), 0)];
            StateAt(c, events).activeEscrows == 1 && Sum(StateAt(c, events).escrows, OpenOne()) == 0
  {
    var events := [(CreateEscrowEv("t", "b", "s", c.minSettlement, Stripe), 0), (RefundEv(1), 0)];
    var s0: State := INIT_STATE;
    var first := [events[0]];
    var none: seq<(Event, int)> := [];
    assert events[..1] == first && first[..0] == none;
    var s1 := Step(c, s0, events[0].0, 0).0;
    assert StateAt(c, first) == s1;
    var s2 := Step(c, s1, events[1].0, 0).0;
    assert StateAt(c, events) == s2;
    SumZero(s2.escrows, OpenOne());
  }

  // ---- All of it at once ----

  /** What every state of the ledger meets: records, totals and times agree, and no open escrow is missing from the
      count. */
  ghost predicate Consistent(c: Config, s: State) {
    && KeysOk(c, s) && RecordsMatch(s) && TotalsMatch(c, s) && InTime(c, s)
    && s.activeEscrows >= Sum(s.escrows, OpenOne())
  }

  lemma InitConsistent(c: Config)
    ensures Consistent(c, INIT_STATE)
  {
  }

  lemma StepConsistent(c: Config, s: State, e: Event, now: int)
    requires Consistent(c, s)
    ensures Consistent(c, Step(c, s, e, now).0)
  {
    StepKeys(c, s, e, now);
    StepRecords(c, s, e, now);
    StepTotals(c, s, e, now);
    StepInTime(c, s, e, now);
    StepActive(c, s, e, now);
  }

  lemma DepositConsistent(c: Config, s: State, wallet: string, user: string, amount: int, payment: Method, now: int)
    requires Consistent(c, s)
    ensures Consistent(c, CreateDeposit(c, s, wallet, user, amount, payment, now).0)
  {
    var e := CreateDepositEv(wallet, user, amount, payment);
    assert Step(c, s, e, now) == CreateDeposit(c, s, wallet, user, amount, payment, now);
    StepConsistent(c, s, e, now);
  }

  lemma ConfirmConsistent(c: Config, s: State, id: nat, paymentRef: string, now: int)
    requires Consistent(c, s)
    ensures Consistent(c, ConfirmDeposit(s, id, paymentRef, now).0)
  {
    assert Step(c, s, ConfirmDepositEv(id, paymentRef), now) == ConfirmDeposit(s, id, paymentRef, now);
    StepConsistent(c, s, ConfirmDepositEv(id, paymentRef), now);
  }

  lemma WithdrawalConsistent(c: Config, s: State, wallet: string, user: string, amount: int, payment: Method,
      destination: string, now: int)
    requires Consistent(c, s)
    ensures Consistent(c, CreateWithdrawal(c, s, wallet, user, amount, payment, destination, now).0)
  {
    var e := CreateWithdrawalEv(wallet, user, amount, payment, destination);
    assert Step(c, s, e, now) == CreateWithdrawal(c, s, wallet, user, amount, payment, destination, now);
    StepConsistent(c, s, e, now);
  }

  lemma ProcessConsistent(c: Config, s: State, id: nat, now: int)
    requires Consistent(c, s)
    ensures Consistent(c, ProcessWithdrawal(c, s, id, now).0)
  {
    assert Step(c, s, ProcessWithdrawalEv(id), now) == ProcessWithdrawal(c, s, id, now);
    StepConsistent(c, s, ProcessWithdrawalEv(id), now);
  }

  lemma EscrowConsistent(c: Config, s: State, tradeId: string, buyer: string, seller: string, amount: int,
      payment: Method, now: int)
    requires Consistent(c, s)
    ensures Consistent(c, CreateEscrow(c, s, tradeId, buyer, seller, amount, payment, now).0)
  {
    var e := CreateEscrowEv(tradeId, buyer, seller, amount, payment);
    assert Step(c, s, e, now) == CreateEscrow(c, s, tradeId, buyer, seller, amount, payment, now);
    StepConsistent(c, s, e, now);
  }

  lemma FundConsistent(c: Config, s: State, id: nat, paymentRef: string, now: int)
    requires Consistent(c, s)
    ensures Consistent(c, FundEscrow(s, id, paymentRef, now).0)
  {
    assert Step(c, s, FundEscrowEv(id, paymentRef), now) == FundEscrow(s, id, paymentRef, now);
    StepConsistent(c, s, FundEscrowEv(id, paymentRef), now);
  }

  lemma ExecuteConsistent(c: Config, s: State, id: nat, ftgAmount: int, height: int, now: int)
    requires Consistent(c, s)
    ensures Consistent(c, Execute(s, id, ftgAmount, height, now).0)
  {
    assert Step(c, s, ExecuteEv(id, ftgAmount, height), now) == Execute(s, id, ftgAmount, height, now);
    StepConsistent(c, s, ExecuteEv(id, ftgAmount, height), now);
  }

  lemma RefundConsistent(c: Config, s: State, id: nat)
    requires Consistent(c, s)
    ensures Consistent(c, Refund(s, id).0)
  {
    assert Step(c, s, RefundEv(id), 0) == Refund(s, id);
    StepConsistent(c, s, RefundEv(id), 0);
  }
}
