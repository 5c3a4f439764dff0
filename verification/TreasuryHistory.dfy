/** What the treasury owes to the events before it: who may move its coins, where each balance comes from, who asked
    for each commitment, and why an operation is refused. */
module TreasuryHistory {
  import opened Treasury

  // ---- Who may act ----

  /** A treasury operation asked for by somebody else than the owner. */
  predicate Foreign(cfg: Config, e: Event) {
    (e.CommitEv? || e.LiquidityEv? || e.DeliverEv? || e.CancelEv?) && e.sender != cfg.owner
  }

  function WithoutForeign(cfg: Config, events: seq<Event>): seq<Event> {
    if events == [] then []
    else
      var n := |events| - 1;
      WithoutForeign(cfg, events[..n]) + if Foreign(cfg, events[n]) then [] else [events[n]]
  }

  /** Only the owner's operations, and what happens at the bank outside the treasury, leave a trace: a history without
      everybody else's operations ends in the same state. */
  lemma {:induction false} OnlyTheOwner(cfg: Config, events: seq<Event>)
    ensures StateAt(cfg, events) == StateAt(cfg, WithoutForeign(cfg, events))
  {
    if events != [] {
      var n := |events| - 1;
      var before := WithoutForeign(cfg, events[..n]);
      OnlyTheOwner(cfg, events[..n]);
      if !Foreign(cfg, events[n]) {
        var all := before + [events[n]];
        assert WithoutForeign(cfg, events) == all && all[..|all| - 1] == before;
      } else {
        assert WithoutForeign(cfg, events) == before;
      }
    }
  }

  // ---- What moves ----

  /** The event may take place: the owner asks for coins the minting wallet has, or for a funded commitment the
      committed wallet can pay; others move their own coins. */
  predicate Allowed(cfg: Config, s: State, e: Event) {
    match e
    case CommitEv(sender, amount, _, _, _) => sender == cfg.owner && 0 <= amount <= Balance(s.bank, cfg.minting)
    case LiquidityEv(sender, amount) => sender == cfg.owner && 0 <= amount <= Balance(s.bank, cfg.minting)
    case DeliverEv(sender, id, _, _) => sender == cfg.owner && Payable(cfg, s, id)
    case CancelEv(sender, id) => sender == cfg.owner && Payable(cfg, s, id)
    case TransferEv(from, _, amount) => from != cfg.committed && 0 <= amount <= Balance(s.bank, from)
    case MintEv(_, _) => true
  }

  predicate Payable(cfg: Config, s: State, id: nat) {
    && id in s.commitments && s.commitments[id].status == Funded
    && s.commitments[id].amount <= Balance(s.bank, cfg.committed)
  }

  /** The coins an event that takes place moves, out of which address and into which; minted ones come from nowhere. */
  function Moved(s: State, e: Event): int {
    match e
    case CommitEv(_, amount, _, _, _) => amount
    case LiquidityEv(_, amount) => amount
    case DeliverEv(_, id, _, _) => if id in s.commitments then s.commitments[id].amount else 0
    case CancelEv(_, id) => if id in s.commitments then s.commitments[id].amount else 0
    case TransferEv(_, _, amount) => amount
    case MintEv(_, minted) => minted
  }

  predicate Takes(cfg: Config, e: Event, a: Address) {
    match e
    case CommitEv(_, _, _, _, _) => a == cfg.minting
    case LiquidityEv(_, _) => a == cfg.minting
    case DeliverEv(_, _, _, _) => a == cfg.committed
    case CancelEv(_, _) => a == cfg.committed
    case TransferEv(from, _, _) => a == from
    case MintEv(_, _) => false
  }

  predicate Gives(cfg: Config, e: Event, a: Address) {
    match e
    case CommitEv(_, _, _, _, _) => a == cfg.committed
    case LiquidityEv(_, _) => a == cfg.liquidity
    case DeliverEv(_, _, to, _) => a == to
    case CancelEv(_, _) => a == cfg.minting
    case TransferEv(_, to, _) => a == to
    case MintEv(to, _) => a == to
  }

  function Change(cfg: Config, s: State, e: Event, a: Address): int {
    if !Allowed(cfg, s, e) then 0
    else (if Gives(cfg, e, a) then Moved(s, e) else 0) - (if Takes(cfg, e, a) then Moved(s, e) else 0)
  }

  /** An event goes through exactly when it is allowed, moves its coins from one address to the other and changes no
      other balance; else it changes nothing. */
  lemma StepMoves(cfg: Config, s: State, e: Event, a: Address)
    requires StoreOk(s)
    ensures Step(cfg, s, e).1.Ok? <==> Allowed(cfg, s, e)
    ensures Step(cfg, s, e).1.Failed? ==> Step(cfg, s, e).0 == s
    ensures Balance(Step(cfg, s, e).0.bank, a) == Balance(s.bank, a) + Change(cfg, s, e, a)
  {
  }

  function Changes(cfg: Config, events: seq<Event>, a: Address): int {
    if events == [] then 0
    else
      var n := |events| - 1;
      Changes(cfg, events[..n], a) + Change(cfg, StateAt(cfg, events[..n]), events[n], a)
  }

  /** In every run an address holds what the allowed events brought it, less what they took. */
  lemma {:induction false} RunBalance(cfg: Config, events: seq<Event>, a: Address)
    ensures Balance(StateAt(cfg, events).bank, a) == Changes(cfg, events, a)
  {
    if events != [] {
      var n := |events| - 1;
      RunBalance(cfg, events[..n], a);
      RunStoreOk(cfg, events[..n]);
      StepMoves(cfg, StateAt(cfg, events[..n]), events[n], a);
    }
  }

  // ---- Where a commitment comes from and goes to ----

  /** Commitment `id` keeps the terms of the event that made it. */
  predicate MadeBy(cfg: Config, c: Commitment, e: Event) {
    e == CommitEv(cfg.owner, c.amount, c.buyer, c.price, c.createdAt)
  }

  /** What an event does to commitment `id`: makes it with its own terms, marks it paid out, or leaves it alone. */
  lemma StepTerms(cfg: Config, s: State, e: Event, id: nat)
    requires StoreOk(s)
    ensures var s' := Step(cfg, s, e).0;
            && (id !in s.commitments && id in s'.commitments ==>
                  && id == s.count + 1 && MadeBy(cfg, s'.commitments[id], e) && Allowed(cfg, s, e)
                  && s'.commitments[id].status == Funded)
            && (id in s.commitments ==>
                  && id in s'.commitments
                  && var c, c' := s.commitments[id], s'.commitments[id];
                  && c'.buyer == c.buyer && c'.amount == c.amount && c'.price == c.price && c'.createdAt == c.createdAt
                  && c'.totalValue == c.totalValue
                  && (c' == c
                      || (c' == c.(status := Cancelled) && e == CancelEv(cfg.owner, id))
                      || (c'.status == Delivered && e == DeliverEv(cfg.owner, id, c'.destination, c'.deliveredAt))))
  {
  }

  /** Every commitment of a run was made by a request of the owner for coins the minting wallet had, and keeps the
      buyer, amount, price and time of that request. */
  lemma {:induction false} CommitmentOrigin(cfg: Config, events: seq<Event>, id: nat) returns (i: nat)
    requires id in StateAt(cfg, events).commitments
    ensures i < |events| && MadeBy(cfg, StateAt(cfg, events).commitments[id], events[i])
    ensures Allowed(cfg, StateAt(cfg, events[..i]), events[i]) && StateAt(cfg, events[..i]).count + 1 == id
  {
    var n := |events| - 1;
    RunStoreOk(cfg, events[..n]);
    StepTerms(cfg, StateAt(cfg, events[..n]), events[n], id);
    if id in StateAt(cfg, events[..n]).commitments {
      i := CommitmentOrigin(cfg, events[..n], id);
      assert events[..n][..i] == events[..i];
    } else {
      i := n;
    }
  }

  /** Every delivered commitment was delivered by a request of the owner, to the destination and at the time it records,
      and every cancelled one was cancelled by one. */
  lemma {:induction false} PayoutOrigin(cfg: Config, events: seq<Event>, id: nat) returns (i: nat)
    requires id in StateAt(cfg, events).commitments && StateAt(cfg, events).commitments[id].status != Funded
    ensures i < |events|
    ensures var c := StateAt(cfg, events).commitments[id];
            && (c.status == Delivered || c.status == Cancelled)
            && events[i] == if c.status == Delivered then DeliverEv(cfg.owner, id, c.destination, c.deliveredAt)
                            else CancelEv(cfg.owner, id)
  {
    var n := |events| - 1;
    RunStoreOk(cfg, events);
    RunStoreOk(cfg, events[..n]);
    StepTerms(cfg, StateAt(cfg, events[..n]), events[n], id);
    var s := StateAt(cfg, events[..n]);
    if id in s.commitments && s.commitments[id] == StateAt(cfg, events).commitments[id] {
      i := PayoutOrigin(cfg, events[..n], id);
    } else {
      i := n;
    }
  }

  // ---- Reasons ----

  /** A commitment or a liquidity transfer is refused to others than the owner, who is never told so; for want of coins,
      which minting the missing ones makes up for; or for a negative amount, which no minting does. */
  lemma SpendingRefused(cfg: Config, s: State, e: Event, minted: nat, x: Error)
    requires Consistent(cfg, s) && (e.CommitEv? || e.LiquidityEv?) && Step(cfg, s, e).1 == Failed(x)
    ensures x == Unauthorized <==> e.sender != cfg.owner
    ensures x in {Unauthorized, InsufficientMinting, NegativeCoin}
    ensures var s1 := Step(cfg, s, MintEv(cfg.minting, minted)).0;
            var missing := e.amount - Balance(s.bank, cfg.minting);
            && (x == InsufficientMinting ==> missing > 0 && (Step(cfg, s1, e).1.Ok? <==> minted >= missing))
            && (x == NegativeCoin ==> Step(cfg, s1, e).1 == Failed(NegativeCoin))
  {
  }

  /** The coins the committed wallet lacks for commitment `id`. */
  function Missing(cfg: Config, s: State, id: nat): int
    requires id in s.commitments
  {
    s.commitments[id].amount - Balance(s.bank, cfg.committed)
  }

  /** A payout that fails for want of coins: the commitment is funded, and minting the missing coins lets it through. */
  lemma PayoutStarved(cfg: Config, s: State, e: Event, minted: nat)
    requires StoreOk(s) && (e.DeliverEv? || e.CancelEv?) && Step(cfg, s, e).1 == Failed(TransferFailed)
    ensures e.id in s.commitments && s.commitments[e.id].status == Funded && Missing(cfg, s, e.id) > 0
    ensures Step(cfg, Step(cfg, s, MintEv(cfg.committed, minted)).0, e).1.Ok? <==> minted >= Missing(cfg, s, e.id)
  {
  }

  lemma PayoutReason(cfg: Config, s: State, e: Event, x: Error)
    requires StoreOk(s) && (e.DeliverEv? || e.CancelEv?) && Step(cfg, s, e).1 == Failed(x)
    ensures x == Unauthorized <==> e.sender != cfg.owner
    ensures x in {Unauthorized, NotFound, WrongStatus, TransferFailed}
    ensures x == NotFound ==> e.id !in s.commitments
    ensures x == WrongStatus ==> e.id in s.commitments && s.commitments[e.id].status != Funded
  {
  }

  /** A delivery or a cancellation is refused to others than the owner; for a commitment that was never made; for one
      that has been paid out already; or while the committed wallet lacks the coins, which happens only where it is the
      minting wallet too and which minting the missing ones makes up for. */
  lemma PayoutRefused(cfg: Config, events: seq<Event>, e: Event, minted: nat, x: Error)
    requires (e.DeliverEv? || e.CancelEv?) && Step(cfg, StateAt(cfg, events), e).1 == Failed(x)
    ensures x == Unauthorized <==> e.sender != cfg.owner
    ensures x in {Unauthorized, NotFound, WrongStatus, TransferFailed}
    ensures var s := StateAt(cfg, events);
            && (x == NotFound ==> e.id !in s.commitments)
            && (x == WrongStatus ==> Payouts(cfg, events, e.id) == 1)
            && (x == TransferFailed ==>
                  && cfg.minting == cfg.committed && e.id in s.commitments && Payouts(cfg, events, e.id) == 0
                  && Missing(cfg, s, e.id) > 0
                  && (Step(cfg, Step(cfg, s, MintEv(cfg.committed, minted)).0, e).1.Ok?
                      <==> minted >= Missing(cfg, s, e.id)))
  {
    var s := StateAt(cfg, events);
    RunConsistent(cfg, events);
    PaidAtMostOnce(cfg, events, e.id);
    PayoutReason(cfg, s, e, x);
    if x == TransferFailed {
      PayoutStarved(cfg, s, e, minted);
      if cfg.minting != cfg.committed { FundedIsCovered(cfg, s, e.id); }
    }
  }
}
