/** Minting against energy certificates and burning, over one bank: what backs the supply. */
module EnergySupply {
  import opened Sums
  import opened Amounts

  type Address = string

  /** Energy quantities and revenues are decimals scaled by ten to the eighteenth. */
  const SCALE := 1_000_000_000_000_000_000
  const TOKENS_PER_MWH := 100
  const MICRO_PER_TOKEN := 1_000_000

  /** One uftg is backed by this much of a scaled MWh. */
  const SCALED_MWH_PER_UFTG := 10_000_000_000

  const MIN_BURN := 1_000_000

  datatype Certificate = Certificate(
    id: nat,
    externalId: string,
    mwh: int,
    ipfsHash: string,
    provenance: string,
    minted: int,
    owner: Address)

  datatype Params = Params(minMwh: int, requireIpfs: bool, accepted: seq<string>)

  const DEFAULT_PARAMS := Params(SCALE, true, ["proof_of_purchase", "proof_of_generation", "proof_of_storage"])

  datatype Source = MerchantProtocol | Manual | Redemption | UnknownSource

  datatype BurnEvent = BurnEvent(amount: int, source: Source, sender: Address, revenue: int)

  datatype BurnStats = BurnStats(total: int, events: nat, merchant: int, manual: int, redemption: int, revenue: int)

  datatype Error =
    | NotAuthorized
    | ProvenanceRejected
    | IpfsMissing
    | BelowMinimum
    | AlreadyRegistered
    | NegativeCoin
    | InvalidSource
    | InsufficientBalance

  datatype Result = Ok | Failed(error: Error)

  /** The bank's balances of the token, the certificate and burn stores, and their running totals. */
  datatype State = State(
    bank: map<Address, int>,
    certificates: map<string, Certificate>,
    certificateCount: nat,
    totalMinted: int,
    totalBacked: int,
    minters: set<Address>,
    merchants: set<Address>,
    params: Params,
    burns: map<nat, BurnEvent>,
    burnCount: nat,
    stats: BurnStats)

  const INIT_STATE := State(map[], map[], 0, 0, 0, {}, {}, DEFAULT_PARAMS, map[], 0, BurnStats(0, 0, 0, 0, 0, 0))

  function Balance(bank: map<Address, int>, a: Address): int { if a in bank then bank[a] else 0 }

  function TokensFor(mwh: int): int { Quo(mwh * TOKENS_PER_MWH * MICRO_PER_TOKEN, SCALE) }

  /** The state once a certificate is recorded and its tokens are credited. */
  function Minted(s: State, sender: Address, externalId: string, mwh: int, ipfsHash: string, provenance: string,
      recipient: Address): State {
    var tokens := TokensFor(mwh);
    var id := s.certificateCount + 1;
    var cert := Certificate(id, externalId, mwh, ipfsHash, provenance, tokens, sender);
    s.(bank := s.bank[recipient := Balance(s.bank, recipient) + tokens],
       certificates := s.certificates[externalId := cert],
       certificateCount := id,
       totalMinted := s.totalMinted + tokens,
       totalBacked := s.totalBacked + mwh)
  }

  /** An empty destination stands for the sender. */
  function Mint(s: State, sender: Address, externalId: string, mwh: int, ipfsHash: string, provenance: string,
      to: Address): (State, Result) {
    if sender !in s.minters then (s, Failed(NotAuthorized))
    else if provenance !in s.params.accepted then (s, Failed(ProvenanceRejected))
    else if s.params.requireIpfs && ipfsHash == "" then (s, Failed(IpfsMissing))
    else if mwh < s.params.minMwh then (s, Failed(BelowMinimum))
    else if externalId in s.certificates then (s, Failed(AlreadyRegistered))
    else if TokensFor(mwh) < 0 then (s, Failed(NegativeCoin))
    else (Minted(s, sender, externalId, mwh, ipfsHash, provenance, if to == "" then sender else to), Ok)
  }

  function StatsAfter(b: BurnStats, amount: int, source: Source, revenue: int): BurnStats {
    var b1 := b.(total := b.total + amount, events := b.events + 1);
    match source
    case MerchantProtocol => b1.(merchant := b1.merchant + amount, revenue := b1.revenue + revenue)
    case Manual => b1.(manual := b1.manual + amount)
    case Redemption => b1.(redemption := b1.redemption + amount)
    case UnknownSource => b1
  }

  /** What was burned from one source; an unknown source has no bucket. */
  function Bucket(b: BurnStats, source: Source): int {
    match source
    case MerchantProtocol => b.merchant
    case Manual => b.manual
    case Redemption => b.redemption
    case UnknownSource => 0
  }

  /** The bucket of one source and the total grew by `amount`, the other buckets stayed, so what the buckets make up
      of the total did not change; one more event is counted, and revenue for a merchant's burn only. */
  ghost predicate Grown(b: BurnStats, amount: int, source: Source, revenue: int, b': BurnStats) {
    && Bucket(b', source) == Bucket(b, source) + amount
    && (forall other :: other != source ==> Bucket(b', other) == Bucket(b, other))
    && b'.total - (b'.merchant + b'.manual + b'.redemption) == b.total - (b.merchant + b.manual + b.redemption)
    && b'.events == b.events + 1
    && b'.revenue == b.revenue + if source == MerchantProtocol then revenue else 0
  }

  /** That says all there is to say of the new statistics. */
  lemma GrownIs(b: BurnStats, amount: int, source: Source, revenue: int, b': BurnStats)
    requires source != UnknownSource && Grown(b, amount, source, revenue, b')
    ensures b' == StatsAfter(b, amount, source, revenue)
  {
    assert Bucket(b', MerchantProtocol) == b'.merchant && Bucket(b', Manual) == b'.manual;
    assert Bucket(b', Redemption) == b'.redemption;
  }

  /** The state once the sender is debited and the burn is recorded. */
  function Burned(s: State, sender: Address, amount: int, source: Source, revenue: int): State {
    var id := s.burnCount + 1;
    s.(bank := s.bank[sender := Balance(s.bank, sender) - amount],
       burns := s.burns[id := BurnEvent(amount, source, sender, revenue)],
       burnCount := id,
       stats := StatsAfter(s.stats, amount, source, revenue))
  }

  function Burn(s: State, sender: Address, amount: int, source: Source, revenue: int): (State, Result) {
    if source == UnknownSource then (s, Failed(InvalidSource))
    else if source == MerchantProtocol && sender !in s.merchants then (s, Failed(NotAuthorized))
    else if amount < MIN_BURN then (s, Failed(BelowMinimum))
    else if Balance(s.bank, sender) < amount then (s, Failed(InsufficientBalance))
    else (Burned(s, sender, amount, source, revenue), Ok)
  }

  function Transfer(s: State, from: Address, to: Address, amount: int): (State, Result) {
    if amount < 0 then (s, Failed(NegativeCoin))
    else if Balance(s.bank, from) < amount then (s, Failed(InsufficientBalance))
    else
      var bank1 := s.bank[from := Balance(s.bank, from) - amount];
      (s.(bank := bank1[to := Balance(bank1, to) + amount]), Ok)
  }

  datatype Event =
    | MintEv(sender: Address, externalId: string, mwh: int, ipfsHash: string, provenance: string, to: Address)
    | BurnEv(from: Address, amount: int, source: Source, revenue: int)
    | TransferEv(from: Address, to: Address, amount: int)
    | MinterEv(minter: Address, allowed: bool)
    | MerchantEv(merchant: Address)
    | ParamsEv(params: Params)

  function Step(s: State, e: Event): (State, Result) {
    match e
    case MintEv(sender, externalId, mwh, ipfsHash, provenance, to) => Mint(s, sender, externalId, mwh, ipfsHash, provenance, to)
    case BurnEv(from, amount, source, revenue) => Burn(s, from, amount, source, revenue)
    case TransferEv(from, to, amount) => Transfer(s, from, to, amount)
    case MinterEv(minter, allowed) => (s.(minters := if allowed then s.minters + {minter} else s.minters - {minter}), Ok)
    case MerchantEv(merchant) => (s.(merchants := s.merchants + {merchant}), Ok)
    case ParamsEv(params) => (s.(params := params), Ok)
  }

  function StateAt(events: seq<Event>): State {
    if events == [] then INIT_STATE
    else Step(StateAt(events[..|events| - 1]), events[|events| - 1]).0
  }

  // ---- Sums ----

  function Coins(): int -> int { (x: int) => x }

  function MintedBy(): Certificate -> int { (c: Certificate) => c.minted }

  function BackedBy(): Certificate -> int { (c: Certificate) => c.mwh }

  function BurnedBy(): BurnEvent -> int { (b: BurnEvent) => b.amount }

  function BurnedFrom(source: Source): BurnEvent -> int { (b: BurnEvent) => if b.source == source then b.amount else 0 }

  function RevenueOf(): BurnEvent -> int { (b: BurnEvent) => if b.source == MerchantProtocol then b.revenue else 0 }

  function One<T>(): T -> int { (x: T) => 1 }

  // ---- The ledgers agree ----

  /** Each certificate minted the truncated value of its energy, and the totals are sums over the store. */
  ghost predicate MintsMatch(s: State) {
    && (forall x :: x in s.certificates ==>
          && s.certificates[x].externalId == x
          && s.certificates[x].minted == TokensFor(s.certificates[x].mwh) >= 0)
    && s.totalMinted == Sum(s.certificates, MintedBy())
    && s.totalBacked == Sum(s.certificates, BackedBy())
    && s.certificateCount == Sum(s.certificates, One())
  }

  /** The statistics are sums over the stored burn events, in total and by source. */
  ghost predicate BurnsMatch(s: State) {
    && (forall id :: id in s.burns <==> 1 <= id <= s.burnCount)
    && (forall id :: id in s.burns ==> s.burns[id].amount >= MIN_BURN && s.burns[id].source != UnknownSource)
    && s.stats.events == s.burnCount
    && s.stats.total == Sum(s.burns, BurnedBy())
    && s.stats.merchant == Sum(s.burns, BurnedFrom(MerchantProtocol))
    && s.stats.manual == Sum(s.burns, BurnedFrom(Manual))
    && s.stats.redemption == Sum(s.burns, BurnedFrom(Redemption))
    && s.stats.revenue == Sum(s.burns, RevenueOf())
    && s.stats.total == s.stats.merchant + s.stats.manual + s.stats.redemption
  }

  /** The coins in existence are those minted and not burned, and no account is overdrawn. */
  ghost predicate SupplyMatches(s: State) {
    && Sum(s.bank, Coins()) == s.totalMinted - s.stats.total
    && forall a :: a in s.bank ==> s.bank[a] >= 0
  }

  ghost predicate Ledgers(s: State) { MintsMatch(s) && BurnsMatch(s) && SupplyMatches(s) }

  /** The totals after one more certificate. */
  lemma CertificatesMatch(s: State, s': State, c: Certificate)
    requires MintsMatch(s) && c.externalId !in s.certificates && c.minted == TokensFor(c.mwh) >= 0
    requires s'.certificates == s.certificates[c.externalId := c] && s'.certificateCount == s.certificateCount + 1
    requires s'.totalMinted == s.totalMinted + c.minted && s'.totalBacked == s.totalBacked + c.mwh
    ensures MintsMatch(s')
  {
    SumPut(s.certificates, c.externalId, c, MintedBy());
    SumPut(s.certificates, c.externalId, c, BackedBy());
    SumPut(s.certificates, c.externalId, c, One());
  }

  lemma MintLedgers(s: State, sender: Address, externalId: string, mwh: int, ipfsHash: string, provenance: string,
      to: Address)
    requires Ledgers(s)
    ensures Ledgers(Mint(s, sender, externalId, mwh, ipfsHash, provenance, to).0)
  {
    var (s', r) := Mint(s, sender, externalId, mwh, ipfsHash, provenance, to);
    if r.Ok? {
      var recipient := if to == "" then sender else to;
      CertificatesMatch(s, s', s'.certificates[externalId]);
      SumPut(s.bank, recipient, s'.bank[recipient], Coins());
    }
  }

  /** The statistics after one more stored event. */
  lemma BurnStatsMatch(s: State, b: BurnEvent)
    requires BurnsMatch(s) && b.amount >= MIN_BURN && b.source != UnknownSource
    ensures var id := s.burnCount + 1;
            BurnsMatch(s.(burns := s.burns[id := b], burnCount := id, stats := StatsAfter(s.stats, b.amount, b.source, b.revenue)))
  {
    var id: nat := s.burnCount + 1;
    assert id !in s.burns;
    assert b.source == MerchantProtocol || b.source == Manual || b.source == Redemption;
    SumPut(s.burns, id, b, BurnedBy());
    SumPut(s.burns, id, b, BurnedFrom(MerchantProtocol));
    SumPut(s.burns, id, b, BurnedFrom(Manual));
    SumPut(s.burns, id, b, BurnedFrom(Redemption));
    SumPut(s.burns, id, b, RevenueOf());
  }

  lemma BurnLedgers(s: State, sender: Address, amount: int, source: Source, revenue: int)
    requires Ledgers(s)
    ensures Ledgers(Burn(s, sender, amount, source, revenue).0)
  {
    var (s', r) := Burn(s, sender, amount, source, revenue);
    if r.Ok? {
      BurnStatsMatch(s, BurnEvent(amount, source, sender, revenue));
      SumPut(s.bank, sender, s'.bank[sender], Coins());
    }
  }

  lemma TransferSupply(bank: map<Address, int>, from: Address, to: Address, amount: int)
    requires 0 <= amount <= Balance(bank, from)
    requires forall a :: a in bank ==> bank[a] >= 0
    ensures var bank1 := bank[from := Balance(bank, from) - amount];
            var bank2 := bank1[to := Balance(bank1, to) + amount];
            Sum(bank2, Coins()) == Sum(bank, Coins()) && forall a :: a in bank2 ==> bank2[a] >= 0
  {
    var bank1 := bank[from := Balance(bank, from) - amount];
    SumPut(bank, from, Balance(bank, from) - amount, Coins());
    SumPut(bank1, to, Balance(bank1, to) + amount, Coins());
  }

  lemma TransferLedgers(s: State, from: Address, to: Address, amount: int)
    requires Ledgers(s)
    ensures Ledgers(Transfer(s, from, to, amount).0)
  {
    if Transfer(s, from, to, amount).1.Ok? {
      TransferSupply(s.bank, from, to, amount);
    }
  }

  lemma StepLedgers(s: State, e: Event)
    requires Ledgers(s)
    ensures Ledgers(Step(s, e).0)
  {
    match e
    case MintEv(sender, externalId, mwh, ipfsHash, provenance, to) =>
      MintLedgers(s, sender, externalId, mwh, ipfsHash, provenance, to);
    case BurnEv(from, amount, source, revenue) => BurnLedgers(s, from, amount, source, revenue);
    case TransferEv(from, to, amount) => TransferLedgers(s, from, to, amount);
    case _ =>
  }

  /** After any history of mints, burns, transfers and changes of permission or parameters, the supply is
      what was minted less what was burned, and every total is the sum over the stored records. */
  lemma {:induction false} RunLedgers(events: seq<Event>)
    ensures Ledgers(StateAt(events))
  {
    if events == [] {
      InitLedgers();
    } else {
      RunLedgers(events[..|events| - 1]);
      StepLedgers(StateAt(events[..|events| - 1]), events[|events| - 1]);
    }
  }

  lemma InitLedgers()
    ensures Ledgers(INIT_STATE)
  {
  }

  // ---- The truncation bound ----

  lemma TokensTruncate(mwh: int)
    requires mwh >= 0
    ensures 0 <= TokensFor(mwh)
    ensures TokensFor(mwh) * SCALED_MWH_PER_UFTG <= mwh < (TokensFor(mwh) + 1) * SCALED_MWH_PER_UFTG
  {
    assert mwh * TOKENS_PER_MWH * MICRO_PER_TOKEN == mwh * 100_000_000;
    assert mwh * 100_000_000 / SCALE == mwh / SCALED_MWH_PER_UFTG;
  }

  /** A mint that goes through is backed exactly when the certificate's energy is not negative, and mints the
      exact value of that energy exactly when it is a whole number of uftg. */
  lemma TokensBacked(mwh: int)
    requires TokensFor(mwh) >= 0
    ensures TokensFor(mwh) * SCALED_MWH_PER_UFTG <= mwh < (TokensFor(mwh) + 1) * SCALED_MWH_PER_UFTG <==> mwh >= 0
    ensures mwh >= 0 ==> (TokensFor(mwh) * SCALED_MWH_PER_UFTG == mwh <==> mwh % SCALED_MWH_PER_UFTG == 0)
  {
    if mwh >= 0 {
      TokensTruncate(mwh);
      DivUnique(mwh, SCALED_MWH_PER_UFTG, TokensFor(mwh), mwh - TokensFor(mwh) * SCALED_MWH_PER_UFTG);
    } else {
      MulNonNegative(TokensFor(mwh), SCALED_MWH_PER_UFTG);
    }
  }

  /** One MWh and the smallest fraction more mint what one MWh does. */
  lemma TokensInexact()
    ensures TokensFor(SCALE + 1) == TokensFor(SCALE) == TOKENS_PER_MWH * MICRO_PER_TOKEN
    ensures TokensFor(SCALE + 1) * SCALED_MWH_PER_UFTG != SCALE + 1
  {
    TokensBacked(SCALE + 1);
  }

  /** Energy a certificate carries below zero, which the code lets in once the minimum is set that low. */
  function Debt(): Certificate -> int { (c: Certificate) => if c.mwh < 0 then -c.mwh else 0 }

  lemma {:induction false} BackedBounds(certs: map<string, Certificate>)
    requires forall x :: x in certs ==> certs[x].minted == TokensFor(certs[x].mwh) >= 0
    ensures Sum(certs, BackedBy()) + Sum(certs, Debt()) >= SCALED_MWH_PER_UFTG * Sum(certs, MintedBy())
    ensures certs != map[] ==>
              Sum(certs, BackedBy()) + Sum(certs, Debt())
              < SCALED_MWH_PER_UFTG * (Sum(certs, MintedBy()) + Sum(certs, One()))
    ensures certs == map[] ==> Sum(certs, One()) == 0
    decreases |certs|
  {
    if certs != map[] {
      var x := Pick(certs);
      assert (certs - {x}).Keys == certs.Keys - {x};
      BackedBounds(certs - {x});
      CertificateBounds(certs[x]);
    }
  }

  lemma CertificateBounds(c: Certificate)
    requires c.minted == TokensFor(c.mwh) >= 0
    ensures c.minted * SCALED_MWH_PER_UFTG <= c.mwh + Debt()(c) < (c.minted + 1) * SCALED_MWH_PER_UFTG
  {
    if c.mwh >= 0 {
      TokensTruncate(c.mwh);
    } else {
      assert -c.mwh * TOKENS_PER_MWH * MICRO_PER_TOKEN / SCALE == 0;
    }
  }

  lemma NoDebt(certs: map<string, Certificate>)
    ensures Sum(certs, Debt()) >= 0
    ensures Sum(certs, Debt()) == 0 <==> forall x :: x in certs ==> certs[x].mwh >= 0
  {
    SumNonNegative(certs, Debt());
    if forall x :: x in certs ==> certs[x].mwh >= 0 {
      SumZero(certs, Debt());
    } else {
      var x :| x in certs && certs[x].mwh < 0;
      SumCovers(certs, x, Debt());
    }
  }

  /** Certificates never carry negative energy, whatever minimum the parameters set. */
  predicate Positive(e: Event) { e.ParamsEv? ==> e.params.minMwh >= 0 }

  lemma {:induction false} RunEnergyNonNegative(events: seq<Event>)
    requires forall e :: e in events ==> Positive(e)
    ensures var s := StateAt(events);
            s.params.minMwh >= 0 && forall x :: x in s.certificates ==> s.certificates[x].mwh >= 0
  {
    if events != [] {
      var n := |events| - 1;
      assert events[n] in events && forall e :: e in events[..n] ==> e in events;
      RunEnergyNonNegative(events[..n]);
    }
  }

  /** Backing, after any history. With the energy certificates carry below zero added back, the minted tokens never
      stand for more energy than the certificates back, and fall short by less than one uftg for each certificate;
      and so, after burns, the supply stays within it. There is nothing to add back exactly when no certificate
      carries negative energy, as is so while no minimum is set below zero. */
  lemma Backed(events: seq<Event>)
    ensures var s := StateAt(events);
            var debt := Sum(s.certificates, Debt());
            && s.totalMinted * SCALED_MWH_PER_UFTG <= s.totalBacked + debt
            && (s.certificateCount > 0 ==>
                  s.totalBacked + debt < (s.totalMinted + s.certificateCount) * SCALED_MWH_PER_UFTG)
            && Sum(s.bank, Coins()) * SCALED_MWH_PER_UFTG <= s.totalBacked + debt
            && debt >= 0
            && (debt == 0 <==> forall x :: x in s.certificates ==> s.certificates[x].mwh >= 0)
            && ((forall e :: e in events ==> Positive(e)) ==> debt == 0)
  {
    RunLedgers(events);
    var s := StateAt(events);
    BackedBounds(s.certificates);
    NoDebt(s.certificates);
    if forall e :: e in events ==> Positive(e) { RunEnergyNonNegative(events); }
    forall id | id in s.burns ensures BurnedBy()(s.burns[id]) >= 0 {}
    SumNonNegative(s.burns, BurnedBy());
  }

  /** A history whose minimum was set below zero: a certificate of negative energy mints nothing and leaves the
      energy behind the supply below zero. */
  lemma NegativeEnergy()
    ensures var events := [MinterEv("m", true)] + [ParamsEv(Params(-1, false, ["p"]))]
                          + [MintEv("m", "x", -1, "", "p", "m")];
            StateAt(events).totalMinted == 0 && StateAt(events).totalBacked == -1
  {
    var all := [MinterEv("m", true)] + [ParamsEv(Params(-1, false, ["p"]))] + [MintEv("m", "x", -1, "", "p", "m")];
    var none: seq<Event> := [];
    assert all[..2][..1][..0] == none && all[..2][..1] == all[..1];
    var s1 := Step(INIT_STATE, all[0]).0;
    assert StateAt(all[..1]) == s1;
    var s2 := Step(s1, all[1]).0;
    assert StateAt(all[..2]) == s2;
    assert TokensFor(-1) == 0;
  }

  // ---- Who is credited and debited ----

  /** The tokens of a certificate go to the destination, or to the sender when none is named. */
  lemma MintCredits(s: State, sender: Address, externalId: string, mwh: int, ipfsHash: string, provenance: string,
      to: Address, a: Address)
    requires Mint(s, sender, externalId, mwh, ipfsHash, provenance, to).1.Ok?
    ensures Balance(Mint(s, sender, externalId, mwh, ipfsHash, provenance, to).0.bank, a)
         == Balance(s.bank, a) + if (to == "" && a == sender) || (to != "" && a == to) then TokensFor(mwh) else 0
  {
  }

  /** Round trip: the recipient of a mint can burn its tokens exactly when they reach the minimum, and that
      restores every balance and the supply. */
  lemma MintThenBurn(s: State, sender: Address, externalId: string, mwh: int, ipfsHash: string, provenance: string,
      to: Address, a: Address)
    requires Ledgers(s) && Mint(s, sender, externalId, mwh, ipfsHash, provenance, to).1.Ok?
    ensures var s1 := Mint(s, sender, externalId, mwh, ipfsHash, provenance, to).0;
            var (s2, r) := Burn(s1, if to == "" then sender else to, TokensFor(mwh), Manual, 0);
            && (r.Ok? <==> TokensFor(mwh) >= MIN_BURN)
            && (r.Ok? ==>
                  && Balance(s2.bank, a) == Balance(s.bank, a)
                  && s2.totalMinted - s2.stats.total == s.totalMinted - s.stats.total
                  && s2.stats.manual == s.stats.manual + s2.certificates[externalId].minted)
  {
    MintCredits(s, sender, externalId, mwh, ipfsHash, provenance, to, a);
  }

  /** Registered certificates and stored burns never change, whatever happens. */
  lemma {:induction false} RecordsForever(events: seq<Event>, k: nat)
    requires k <= |events|
    ensures forall x :: x in StateAt(events[..k]).certificates ==>
              && x in StateAt(events).certificates
              && StateAt(events).certificates[x] == StateAt(events[..k]).certificates[x]
    ensures forall id :: id in StateAt(events[..k]).burns ==>
              && id in StateAt(events).burns
              && StateAt(events).burns[id] == StateAt(events[..k]).burns[id]
  {
    if k == |events| {
      assert events[..k] == events;
    } else {
      var n := |events| - 1;
      assert events[..n][..k] == events[..k];
      RecordsForever(events[..n], k);
      RunBurns(events[..n]);
      StepRecords(StateAt(events[..n]), events[n]);
    }
  }

  lemma RunBurns(events: seq<Event>)
    ensures BurnsMatch(StateAt(events))
  {
    RunLedgers(events);
  }

  lemma StepRecords(s: State, e: Event)
    requires BurnsMatch(s)
    ensures forall x :: x in s.certificates ==> x in Step(s, e).0.certificates && Step(s, e).0.certificates[x] == s.certificates[x]
    ensures forall id :: id in s.burns ==> id in Step(s, e).0.burns && Step(s, e).0.burns[id] == s.burns[id]
  {
  }

  // ---- One mint a certificate ----

  predicate MintsFor(s: State, e: Event, externalId: string) {
    e.MintEv? && e.externalId == externalId && Step(s, e).1.Ok?
  }

  function Mints(events: seq<Event>, externalId: string): nat {
    if events == [] then 0
    else
      var n := |events| - 1;
      Mints(events[..n], externalId) + if MintsFor(StateAt(events[..n]), events[n], externalId) then 1 else 0
  }

  /** An external certificate has minted once if it is registered and never otherwise. */
  lemma {:induction false} MintsAtMostOnce(events: seq<Event>, externalId: string)
    ensures Mints(events, externalId) == if externalId in StateAt(events).certificates then 1 else 0
  {
    if events != [] {
      MintsAtMostOnce(events[..|events| - 1], externalId);
    }
  }
}
