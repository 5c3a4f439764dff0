/** Treasury commitments against the bank: funded, then delivered or cancelled, never both. */
module Treasury {
  import opened Sums
  import opened Amounts

  type Address = string

  datatype Status = Pending | Funded | Delivered | Cancelled

  /** Prices are fixed-point numbers scaled by ten to the eighteenth. */
  datatype Commitment = Commitment(
    buyer: string,
    amount: int,
    price: int,
    totalValue: int,
    status: Status,
    createdAt: int,
    deliveredAt: int,
    destination: Address)

  datatype Config = Config(minting: Address, committed: Address, liquidity: Address, owner: Address)

  datatype Error =
    | Unauthorized
    | InsufficientMinting
    | NegativeCoin
    | TransferFailed
    | NotFound
    | WrongStatus

  datatype Result = Ok | Failed(error: Error)

  /** Bank balances of the one denomination the treasury moves, and the commitment store. */
  datatype State = State(bank: map<Address, int>, commitments: map<nat, Commitment>, count: nat)

  const INIT_STATE := State(map[], map[], 0)

  function Balance(bank: map<Address, int>, a: Address): int { if a in bank then bank[a] else 0 }

  /** What the bank does with a transfer: a negative coin cannot be built, a short balance is refused. */
  function Send(bank: map<Address, int>, from: Address, to: Address, amount: int): (map<Address, int>, Result) {
    if amount < 0 then (bank, Failed(NegativeCoin))
    else if Balance(bank, from) < amount then (bank, Failed(TransferFailed))
    else
      var bank1 := bank[from := Balance(bank, from) - amount];
      (bank1[to := Balance(bank1, to) + amount], Ok)
  }

  function Commit(cfg: Config, s: State, sender: Address, amount: int, buyer: string, price: int,
      now: int): (State, Result) {
    if sender != cfg.owner then (s, Failed(Unauthorized))
    else if Balance(s.bank, cfg.minting) < amount then (s, Failed(InsufficientMinting))
    else
      var (bank, r) := Send(s.bank, cfg.minting, cfg.committed, amount);
      if r.Failed? then (s, r)
      else
        var id := s.count + 1;
        var c := Commitment(buyer, amount, price, Quo(price * amount, MICRO), Funded, now, 0, "");
        (State(bank, s.commitments[id := c], id), Ok)
  }

  function ToLiquidity(cfg: Config, s: State, sender: Address, amount: int): (State, Result) {
    if sender != cfg.owner then (s, Failed(Unauthorized))
    else if Balance(s.bank, cfg.minting) < amount then (s, Failed(InsufficientMinting))
    else
      var (bank, r) := Send(s.bank, cfg.minting, cfg.liquidity, amount);
      if r.Failed? then (s, r) else (s.(bank := bank), Ok)
  }

  function Deliver(cfg: Config, s: State, sender: Address, id: nat, to: Address, now: int): (State, Result) {
    if sender != cfg.owner then (s, Failed(Unauthorized))
    else if id !in s.commitments then (s, Failed(NotFound))
    else if s.commitments[id].status != Funded then (s, Failed(WrongStatus))
    else
      var c := s.commitments[id];
      var (bank, r) := Send(s.bank, cfg.committed, to, c.amount);
      if r.Failed? then (s, r)
      else (s.(bank := bank, commitments := s.commitments[id := c.(status := Delivered, deliveredAt := now, destination := to)]), Ok)
  }

  function Cancel(cfg: Config, s: State, sender: Address, id: nat): (State, Result) {
    if sender != cfg.owner then (s, Failed(Unauthorized))
    else if id !in s.commitments then (s, Failed(NotFound))
    else if s.commitments[id].status != Funded && s.commitments[id].status != Pending then (s, Failed(WrongStatus))
    else
      var c := s.commitments[id];
      var (bank, r) := Send(s.bank, cfg.committed, cfg.minting, c.amount);
      if r.Failed? then (s, r)
      else (s.(bank := bank, commitments := s.commitments[id := c.(status := Cancelled)]), Ok)
  }

  /** Treasury operations, and what others may do at the bank: transfers that do not debit the committed
      wallet, and coins minted to any address. */
  datatype Event =
    | CommitEv(sender: Address, amount: int, buyer: string, price: int, now: int)
    | LiquidityEv(sender: Address, amount: int)
    | DeliverEv(sender: Address, id: nat, to: Address, now: int)
    | CancelEv(sender: Address, id: nat)
    | TransferEv(from: Address, to: Address, amount: int)
    | MintEv(to: Address, minted: nat)

  function Step(cfg: Config, s: State, e: Event): (State, Result) {
    match e
    case CommitEv(sender, amount, buyer, price, now) => Commit(cfg, s, sender, amount, buyer, price, now)
    case LiquidityEv(sender, amount) => ToLiquidity(cfg, s, sender, amount)
    case DeliverEv(sender, id, to, now) => Deliver(cfg, s, sender, id, to, now)
    case CancelEv(sender, id) => Cancel(cfg, s, sender, id)
    case TransferEv(from, to, amount) =>
      if from == cfg.committed then (s, Failed(Unauthorized))
      else var (bank, r) := Send(s.bank, from, to, amount); (s.(bank := bank), r)
    case MintEv(to, minted) => (s.(bank := s.bank[to := Balance(s.bank, to) + minted]), Ok)
  }

  function StateAt(cfg: Config, events: seq<Event>): State {
    if events == [] then INIT_STATE
    else Step(cfg, StateAt(cfg, events[..|events| - 1]), events[|events| - 1]).0
  }

  // ---- Cover ----

  function FundedAmount(): Commitment -> int { (c: Commitment) => if c.status == Funded then c.amount else 0 }

  /** What the committed wallet holds beyond the funded commitments. */
  ghost function Surplus(cfg: Config, s: State): int {
    Balance(s.bank, cfg.committed) - Sum(s.commitments, FundedAmount())
  }

  /** Ids run up to the counter, amounts are not negative, and nothing is ever pending. */
  ghost predicate StoreOk(s: State) {
    && (forall id :: id in s.commitments <==> 1 <= id <= s.count)
    && (forall id :: id in s.commitments ==> s.commitments[id].amount >= 0 && s.commitments[id].status != Pending)
  }

  /** What an event moves into the committed wallet that answers for no commitment: deliveries to it, transfers and
      coins from outside, and, where the minting wallet is the same one, what a liquidity transfer takes from it, what
      a commitment asks for without bringing it, and what a cancellation gives up without taking it. */
  function Windfall(cfg: Config, s: State, e: Event): int {
    if Step(cfg, s, e).1.Failed? then 0
    else
      var one := cfg.minting == cfg.committed;
      match e
      case CommitEv(_, amount, _, _, _) => if one then -amount else 0
      case LiquidityEv(_, amount) => (if cfg.liquidity == cfg.committed then amount else 0) - (if one then amount else 0)
      case DeliverEv(_, id, to, _) => if to == cfg.committed && id in s.commitments then s.commitments[id].amount else 0
      case CancelEv(_, id) => if one && id in s.commitments then s.commitments[id].amount else 0
      case TransferEv(_, to, amount) => if to == cfg.committed then amount else 0
      case MintEv(to, minted) => if to == cfg.committed then minted else 0
  }

  lemma SendMoves(bank: map<Address, int>, from: Address, to: Address, amount: int, a: Address)
    requires Send(bank, from, to, amount).1.Ok?
    ensures amount >= 0
    ensures Balance(Send(bank, from, to, amount).0, a)
         == Balance(bank, a) - (if a == from then amount else 0) + (if a == to then amount else 0)
  {
  }

  lemma StepStoreOk(cfg: Config, s: State, e: Event)
    requires StoreOk(s)
    ensures StoreOk(Step(cfg, s, e).0)
  {
  }

  lemma {:induction false} RunStoreOk(cfg: Config, events: seq<Event>)
    ensures StoreOk(StateAt(cfg, events))
  {
    if events != [] {
      RunStoreOk(cfg, events[..|events| - 1]);
      StepStoreOk(cfg, StateAt(cfg, events[..|events| - 1]), events[|events| - 1]);
    }
  }

  /** Every step changes the surplus by the windfall alone, which with the minting and committed wallets apart is
      never negative. */
  lemma StepSurplus(cfg: Config, s: State, e: Event)
    requires StoreOk(s)
    ensures Surplus(cfg, Step(cfg, s, e).0) == Surplus(cfg, s) + Windfall(cfg, s, e)
    ensures cfg.minting != cfg.committed ==> Windfall(cfg, s, e) >= 0
  {
    var (s', r) := Step(cfg, s, e);
    if r.Ok? {
      match e
      case CommitEv(sender, amount, buyer, price, now) =>
        SendMoves(s.bank, cfg.minting, cfg.committed, amount, cfg.committed);
        SumPut(s.commitments, s'.count, s'.commitments[s'.count], FundedAmount());
      case LiquidityEv(sender, amount) => SendMoves(s.bank, cfg.minting, cfg.liquidity, amount, cfg.committed);
      case DeliverEv(sender, id, to, now) =>
        SendMoves(s.bank, cfg.committed, to, s.commitments[id].amount, cfg.committed);
        SumPut(s.commitments, id, s'.commitments[id], FundedAmount());
      case CancelEv(sender, id) =>
        SendMoves(s.bank, cfg.committed, cfg.minting, s.commitments[id].amount, cfg.committed);
        SumPut(s.commitments, id, s'.commitments[id], FundedAmount());
      case TransferEv(from, to, amount) => SendMoves(s.bank, from, to, amount, cfg.committed);
      case MintEv(to, minted) =>
    }
  }

  ghost function Windfalls(cfg: Config, events: seq<Event>): int {
    if events == [] then 0
    else
      var n := |events| - 1;
      Windfalls(cfg, events[..n]) + Windfall(cfg, StateAt(cfg, events[..n]), events[n])
  }

  /** Cover. In every run, whatever the wallets, the committed one holds the funded commitments and the windfalls,
      exactly; with two wallets these are never negative. */
  lemma {:induction false} RunCover(cfg: Config, events: seq<Event>)
    ensures Surplus(cfg, StateAt(cfg, events)) == Windfalls(cfg, events)
    ensures cfg.minting != cfg.committed ==> Windfalls(cfg, events) >= 0
  {
    if events != [] {
      var n := |events| - 1;
      RunCover(cfg, events[..n]);
      RunStoreOk(cfg, events[..n]);
      StepSurplus(cfg, StateAt(cfg, events[..n]), events[n]);
    }
  }

  /** What every state of the treasury meets: commitments are in order, no address is overdrawn, and with two
      wallets the committed one holds at least what the funded commitments ask for. */
  ghost predicate Consistent(cfg: Config, s: State) {
    && StoreOk(s)
    && (forall a :: a in s.bank ==> s.bank[a] >= 0)
    && (cfg.minting != cfg.committed ==> Surplus(cfg, s) >= 0)
  }

  lemma OpeningConsistent(cfg: Config, bank: map<Address, int>)
    requires forall a :: a in bank ==> bank[a] >= 0
    ensures Consistent(cfg, State(bank, map[], 0))
  {
  }

  lemma StepBank(cfg: Config, s: State, e: Event)
    requires forall a :: a in s.bank ==> s.bank[a] >= 0
    ensures forall a :: a in Step(cfg, s, e).0.bank ==> Step(cfg, s, e).0.bank[a] >= 0
  {
  }

  lemma StepConsistent(cfg: Config, s: State, e: Event)
    requires Consistent(cfg, s)
    ensures Consistent(cfg, Step(cfg, s, e).0)
  {
    StepStoreOk(cfg, s, e);
    StepBank(cfg, s, e);
    StepSurplus(cfg, s, e);
  }

  lemma {:induction false} RunConsistent(cfg: Config, events: seq<Event>)
    ensures Consistent(cfg, StateAt(cfg, events))
  {
    if events == [] {
      OpeningConsistent(cfg, map[]);
    } else {
      RunConsistent(cfg, events[..|events| - 1]);
      StepConsistent(cfg, StateAt(cfg, events[..|events| - 1]), events[|events| - 1]);
    }
  }

  lemma FundedIsCovered(cfg: Config, s: State, id: nat)
    requires StoreOk(s) && Surplus(cfg, s) >= 0 && id in s.commitments
    ensures s.commitments[id].status != Pending
    ensures s.commitments[id].status == Funded ==> 0 <= s.commitments[id].amount <= Balance(s.bank, cfg.committed)
  {
    SumCovers(s.commitments, id, FundedAmount());
  }

  /** Where the commitments are covered, one is delivered exactly when the owner asks for it while it is funded: the
      committed wallet does not lack the coins. */
  lemma DeliverSucceeds(cfg: Config, s: State, sender: Address, id: nat, to: Address, now: int)
    requires StoreOk(s) && Surplus(cfg, s) >= 0
    ensures Deliver(cfg, s, sender, id, to, now).1.Ok?
       <==> sender == cfg.owner && id in s.commitments && s.commitments[id].status == Funded
  {
    if id in s.commitments { FundedIsCovered(cfg, s, id); }
  }

  lemma CancelSucceeds(cfg: Config, s: State, sender: Address, id: nat)
    requires StoreOk(s) && Surplus(cfg, s) >= 0
    ensures Cancel(cfg, s, sender, id).1.Ok?
       <==> sender == cfg.owner && id in s.commitments && s.commitments[id].status == Funded
  {
    if id in s.commitments { FundedIsCovered(cfg, s, id); }
  }

  /** After a commitment the funded commitments are covered exactly when they were before and, where the minting and
      the committed wallet are one, the wallet held that much beyond them. */
  lemma CommitCovered(cfg: Config, s: State, sender: Address, amount: int, buyer: string, price: int, now: int)
    requires StoreOk(s) && Commit(cfg, s, sender, amount, buyer, price, now).1.Ok?
    ensures Surplus(cfg, Commit(cfg, s, sender, amount, buyer, price, now).0) >= 0
       <==> Surplus(cfg, s) >= if cfg.minting == cfg.committed then amount else 0
  {
    StepSurplus(cfg, s, CommitEv(sender, amount, buyer, price, now));
  }

  /** The same for a transfer to the liquidity wallet, which takes the coins from the commitments only where the
      minting wallet holds them, and brings them back only where the liquidity wallet does. */
  lemma LiquidityCovered(cfg: Config, s: State, sender: Address, amount: int)
    requires StoreOk(s) && ToLiquidity(cfg, s, sender, amount).1.Ok?
    ensures Surplus(cfg, ToLiquidity(cfg, s, sender, amount).0) >= 0
       <==> Surplus(cfg, s)
            >= (if cfg.minting == cfg.committed then amount else 0) - (if cfg.liquidity == cfg.committed then amount else 0)
  {
    StepSurplus(cfg, s, LiquidityEv(sender, amount));
  }

  const ONE_WALLET := Config("treasury", "treasury", "pool", "owner")

  /** A history of a treasury whose minting and committed wallets are one: ten coins, six of them committed twice, and
      the first six delivered. */
  function OneWalletEvents(): seq<Event> {
    [MintEv("treasury", 10)] + [CommitEv("owner", 6, "a", 0, 0)] + [CommitEv("owner", 6, "b", 0, 0)]
    + [DeliverEv("owner", 1, "a", 0)]
  }

  /** After it a funded commitment cannot be delivered, though its owner asks. */
  lemma OneWalletUncovered()
    ensures var s := StateAt(ONE_WALLET, OneWalletEvents());
            && 2 in s.commitments && s.commitments[2].status == Funded
            && Deliver(ONE_WALLET, s, "owner", 2, "b", 0).1 == Failed(TransferFailed)
  {
    var all := OneWalletEvents();
    var none: seq<Event> := [];
    assert all[..3][..2][..1][..0] == none && all[..3][..2] == all[..2] && all[..2][..1] == all[..1];
    var s1 := Step(ONE_WALLET, INIT_STATE, all[0]).0;
    assert StateAt(ONE_WALLET, all[..1]) == s1;
    var s2 := Step(ONE_WALLET, s1, all[1]).0;
    assert StateAt(ONE_WALLET, all[..2]) == s2;
    var s3 := Step(ONE_WALLET, s2, all[2]).0;
    assert StateAt(ONE_WALLET, all[..3]) == s3;
    assert Balance(s3.bank, "treasury") == 10;
  }

  /** Another: ten coins, six of them committed, six sent to liquidity. */
  function OneWalletDrained(): seq<Event> {
    [MintEv("treasury", 10)] + [CommitEv("owner", 6, "a", 0, 0)] + [LiquidityEv("owner", 6)]
  }

  lemma OneWalletDrains()
    ensures var s := StateAt(ONE_WALLET, OneWalletDrained());
            && 1 in s.commitments && s.commitments[1].status == Funded
            && Deliver(ONE_WALLET, s, "owner", 1, "a", 0).1 == Failed(TransferFailed)
  {
    var all := OneWalletDrained();
    var none: seq<Event> := [];
    assert all[..2][..1][..0] == none && all[..2][..1] == all[..1];
    var s1 := Step(ONE_WALLET, INIT_STATE, all[0]).0;
    assert StateAt(ONE_WALLET, all[..1]) == s1;
    var s2 := Step(ONE_WALLET, s1, all[1]).0;
    assert StateAt(ONE_WALLET, all[..2]) == s2;
    assert Balance(s2.bank, "treasury") == 10;
  }

  // ---- Who is paid ----

  /** The coins of a commitment go to the destination, and to nobody else; it records where they went. */
  lemma DeliverPays(cfg: Config, s: State, sender: Address, id: nat, to: Address, now: int, a: Address)
    requires Deliver(cfg, s, sender, id, to, now).1.Ok?
    ensures var s' := Deliver(cfg, s, sender, id, to, now).0;
            var c := s.commitments[id];
            && Balance(s'.bank, a) == Balance(s.bank, a) + (if a == to then c.amount else 0)
                 - (if a == cfg.committed then c.amount else 0)
            && s'.commitments == s.commitments[id := c.(status := Delivered, deliveredAt := now, destination := to)]
  {
    SendMoves(s.bank, cfg.committed, to, s.commitments[id].amount, a);
  }

  /** In every run, committing and cancelling again gives every address back what it had. */
  lemma CommitThenCancel(cfg: Config, events: seq<Event>, sender: Address, amount: int, buyer: string, price: int,
      now: int, a: Address)
    requires Commit(cfg, StateAt(cfg, events), sender, amount, buyer, price, now).1.Ok?
    ensures var s := StateAt(cfg, events);
            var s1 := Commit(cfg, s, sender, amount, buyer, price, now).0;
            var (s2, r) := Cancel(cfg, s1, sender, s1.count);
            r.Ok? && Balance(s2.bank, a) == Balance(s.bank, a) && s2.commitments[s1.count].status == Cancelled
  {
    var s := StateAt(cfg, events);
    var s1 := Commit(cfg, s, sender, amount, buyer, price, now).0;
    RunConsistent(cfg, events);
    SendMoves(s.bank, cfg.minting, cfg.committed, amount, a);
    SendMoves(s.bank, cfg.minting, cfg.committed, amount, cfg.committed);
    SendMoves(s1.bank, cfg.committed, cfg.minting, amount, a);
  }

  /** A commitment's value is its price for its tokens, rounded toward zero. */
  lemma CommitmentValue(cfg: Config, s: State, sender: Address, amount: int, buyer: string, price: int, now: int)
    requires Commit(cfg, s, sender, amount, buyer, price, now).1.Ok?
    ensures var s' := Commit(cfg, s, sender, amount, buyer, price, now).0;
            var c := s'.commitments[s'.count];
            && (price >= 0 ==> c.totalValue * MICRO <= c.price * c.amount < (c.totalValue + 1) * MICRO)
            && (price <= 0 ==> (c.totalValue - 1) * MICRO < c.price * c.amount <= c.totalValue * MICRO)
  {
    QuoTruncates(price * amount, MICRO, Quo(price * amount, MICRO));
    if price >= 0 { MulNonNegative(price, amount); }
    if price <= 0 { MulNonNegative(-price, amount); }
  }

  // ---- Each commitment is paid out at most once ----

  /** The event pays commitment `id` out: it delivers it or hands it back. */
  predicate Pays(cfg: Config, s: State, e: Event, id: nat) {
    && (e.DeliverEv? || e.CancelEv?) && e.id == id
    && Step(cfg, s, e).1.Ok?
  }

  function Payouts(cfg: Config, events: seq<Event>, id: nat): nat {
    if events == [] then 0
    else
      var n := |events| - 1;
      Payouts(cfg, events[..n], id) + if Pays(cfg, StateAt(cfg, events[..n]), events[n], id) then 1 else 0
  }

  /** What a step does to one commitment. */
  lemma StepCommitment(cfg: Config, s: State, e: Event, id: nat)
    requires StoreOk(s)
    ensures var s' := Step(cfg, s, e).0;
            && (Pays(cfg, s, e, id) ==>
                  && id in s.commitments && s.commitments[id].status == Funded
                  && id in s'.commitments && (s'.commitments[id].status == Delivered || s'.commitments[id].status == Cancelled)
                  && s'.commitments[id].amount == s.commitments[id].amount)
            && (!Pays(cfg, s, e, id) && id in s.commitments ==>
                  id in s'.commitments && s'.commitments[id] == s.commitments[id])
            && (id !in s.commitments && id in s'.commitments ==> s'.commitments[id].status == Funded)
  {
  }

  /** In every run a commitment has been paid out once if it is delivered or cancelled, and never if it is
      funded or was not made. */
  lemma {:induction false} PaidAtMostOnce(cfg: Config, events: seq<Event>, id: nat)
    ensures var s := StateAt(cfg, events);
            Payouts(cfg, events, id)
            == if id in s.commitments && s.commitments[id].status != Funded then 1 else 0
  {
    if events != [] {
      var n := |events| - 1;
      PaidAtMostOnce(cfg, events[..n], id);
      RunStoreOk(cfg, events[..n]);
      StepCommitment(cfg, StateAt(cfg, events[..n]), events[n], id);
    }
  }

  // ---- Conservation at the bank ----

  function Coins(): int -> int { (x: int) => x }

  lemma SendConserves(bank: map<Address, int>, from: Address, to: Address, amount: int)
    ensures Sum(Send(bank, from, to, amount).0, Coins()) == Sum(bank, Coins())
  {
    if Send(bank, from, to, amount).1.Ok? {
      var bank1 := bank[from := Balance(bank, from) - amount];
      SumPut(bank, from, Balance(bank, from) - amount, Coins());
      SumPut(bank1, to, Balance(bank1, to) + amount, Coins());
    }
  }

  /** No treasury operation and no transfer creates or destroys coins. */
  lemma StepConserves(cfg: Config, s: State, e: Event)
    ensures Sum(Step(cfg, s, e).0.bank, Coins())
         == Sum(s.bank, Coins()) + if e.MintEv? then e.minted else 0
  {
    match e
    case CommitEv(sender, amount, buyer, price, now) => SendConserves(s.bank, cfg.minting, cfg.committed, amount);
    case LiquidityEv(sender, amount) => SendConserves(s.bank, cfg.minting, cfg.liquidity, amount);
    case DeliverEv(sender, id, to, now) =>
      if id in s.commitments { SendConserves(s.bank, cfg.committed, to, s.commitments[id].amount); }
    case CancelEv(sender, id) =>
      if id in s.commitments { SendConserves(s.bank, cfg.committed, cfg.minting, s.commitments[id].amount); }
    case TransferEv(from, to, amount) => SendConserves(s.bank, from, to, amount);
    case MintEv(to, minted) => SumPut(s.bank, to, Balance(s.bank, to) + minted, Coins());
  }
}
