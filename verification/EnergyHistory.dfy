/** What the supply owes to the events before it: who was allowed to mint and burn, what each record came from, where
    each balance comes from, and why an operation is refused. */
module EnergyHistory {
  import opened Amounts
  import opened EnergySupply

  // ---- Permissions and parameters, as the events gave them ----

  /** Whether the last permission for `m` lets it mint. */
  function MayMint(events: seq<Event>, m: Address): bool {
    if events == [] then false
    else
      var n := |events| - 1;
      if events[n].MinterEv? && events[n].minter == m then events[n].allowed else MayMint(events[..n], m)
  }

  /** The parameters last set. */
  function ParamsAt(events: seq<Event>): Params {
    if events == [] then DEFAULT_PARAMS
    else
      var n := |events| - 1;
      if events[n].ParamsEv? then events[n].params else ParamsAt(events[..n])
  }

  lemma {:induction false} RunPermissions(events: seq<Event>, m: Address)
    ensures m in StateAt(events).minters <==> MayMint(events, m)
    ensures m in StateAt(events).merchants <==> MerchantEv(m) in events
    ensures StateAt(events).params == ParamsAt(events)
  {
    if events != [] {
      var n := |events| - 1;
      assert events == events[..n] + [events[n]];
      RunPermissions(events[..n], m);
    }
  }

  // ---- What is allowed, and what it moves ----

  /** After `events`, the event may take place. A certificate is minted for an authorized minter, with an accepted
      provenance, a hash where one is asked for, at least the minimum energy, no uftg below zero, and only once. A burn
      has a known source, the merchant's permission where it is the merchants', the minimum amount, and the coins. */
  predicate Allowed(events: seq<Event>, e: Event) {
    match e
    case MintEv(sender, externalId, mwh, ipfsHash, provenance, _) =>
      && MayMint(events, sender)
      && provenance in ParamsAt(events).accepted
      && (ParamsAt(events).requireIpfs ==> ipfsHash != "")
      && mwh >= ParamsAt(events).minMwh && mwh > -SCALED_MWH_PER_UFTG
      && Mints(events, externalId) == 0
    case BurnEv(from, amount, source, _) =>
      && source != UnknownSource
      && (source == MerchantProtocol ==> MerchantEv(from) in events)
      && 1_000_000 <= amount <= Balance(StateAt(events).bank, from)
    case TransferEv(from, _, amount) => 0 <= amount <= Balance(StateAt(events).bank, from)
    case _ => true
  }

  lemma TokensNonNegative(mwh: int)
    ensures TokensFor(mwh) >= 0 <==> mwh > -SCALED_MWH_PER_UFTG
  {
    var n := mwh * TOKENS_PER_MWH * MICRO_PER_TOKEN;
    QuoTruncates(n, SCALE, TokensFor(mwh));
  }

  /** After any history an event goes through exactly when it is allowed, and changes nothing when it is not. */
  lemma RunAllowed(events: seq<Event>, e: Event)
    ensures var (s', r) := Step(StateAt(events), e);
            && (r.Ok? <==> Allowed(events, e))
            && (r.Failed? ==> s' == StateAt(events))
  {
    match e
    case MintEv(sender, externalId, mwh, _, _, _) =>
      RunPermissions(events, sender);
      MintsAtMostOnce(events, externalId);
      TokensNonNegative(mwh);
    case BurnEv(from, _, _, _) => RunPermissions(events, from);
    case _ =>
  }

  /** What an allowed event moves into address `a`. */
  function Change(events: seq<Event>, e: Event, a: Address): int {
    if !Allowed(events, e) then 0
    else
      match e
      case MintEv(sender, _, mwh, _, _, to) => if a == (if to == "" then sender else to) then TokensFor(mwh) else 0
      case BurnEv(from, amount, _, _) => if a == from then -amount else 0
      case TransferEv(from, to, amount) => (if a == to then amount else 0) - (if a == from then amount else 0)
      case _ => 0
  }

  function Changes(events: seq<Event>, a: Address): int {
    if events == [] then 0
    else
      var n := |events| - 1;
      Changes(events[..n], a) + Change(events[..n], events[n], a)
  }

  lemma StepBalance(events: seq<Event>, e: Event, a: Address)
    ensures Balance(Step(StateAt(events), e).0.bank, a) == Balance(StateAt(events).bank, a) + Change(events, e, a)
  {
    RunAllowed(events, e);
  }

  /** After any history an address holds the tokens allowed mints and transfers brought it, less what it burned and
      sent. */
  lemma {:induction false} RunBalance(events: seq<Event>, a: Address)
    ensures Balance(StateAt(events).bank, a) == Changes(events, a)
  {
    if events != [] {
      var n := |events| - 1;
      RunBalance(events[..n], a);
      StepBalance(events[..n], events[n], a);
    }
  }

  function MintedNow(events: seq<Event>, e: Event): int {
    if e.MintEv? && Allowed(events, e) then TokensFor(e.mwh) else 0
  }

  function BackedNow(events: seq<Event>, e: Event): int { if e.MintEv? && Allowed(events, e) then e.mwh else 0 }

  function BurnedNow(events: seq<Event>, e: Event): int { if e.BurnEv? && Allowed(events, e) then e.amount else 0 }

  lemma StepTotals(events: seq<Event>, e: Event, s: State, s': State)
    requires s == StateAt(events) && s' == Step(s, e).0
    ensures s'.totalMinted == s.totalMinted + MintedNow(events, e)
    ensures s'.totalBacked == s.totalBacked + BackedNow(events, e)
    ensures s'.stats.total == s.stats.total + BurnedNow(events, e)
  {
    RunAllowed(events, e);
  }

  /** The totals grow by an allowed mint's tokens and energy and by an allowed burn's amount, and on no other event. */
  lemma RunTotals(events: seq<Event>, e: Event)
    ensures StateAt(events + [e]).totalMinted == StateAt(events).totalMinted + MintedNow(events, e)
    ensures StateAt(events + [e]).totalBacked == StateAt(events).totalBacked + BackedNow(events, e)
    ensures StateAt(events + [e]).stats.total == StateAt(events).stats.total + BurnedNow(events, e)
  {
    assert (events + [e])[..|events|] == events;
    StepTotals(events, e, StateAt(events), StateAt(events + [e]));
  }

  // ---- Where records come from ----

  /** The event names certificate `c`'s owner, energy, hash and provenance. */
  predicate MintedBy(c: Certificate, e: Event) {
    && e.MintEv? && e.sender == c.owner && e.externalId == c.externalId && e.mwh == c.mwh
    && e.ipfsHash == c.ipfsHash && e.provenance == c.provenance
  }

  /** Every registered certificate came from a mint whose sender was last permitted to mint, of a provenance and with a
      hash and energy the parameters last set asked for; its owner, energy, hash and provenance are that event's, and
      its tokens that energy's. */
  lemma {:induction false} CertificateOrigin(events: seq<Event>, externalId: string) returns (i: nat)
    requires externalId in StateAt(events).certificates
    ensures var c := StateAt(events).certificates[externalId];
            && i < |events| && c.externalId == externalId && MintedBy(c, events[i])
            && Allowed(events[..i], events[i]) && c.minted == TokensFor(c.mwh)
  {
    var n := |events| - 1;
    if externalId in StateAt(events[..n]).certificates {
      i := CertificateOrigin(events[..n], externalId);
      assert events[..n][..i] == events[..i];
      RecordsForever(events, n);
    } else {
      i := n;
      RunAllowed(events[..n], events[n]);
    }
  }

  /** Every stored burn came from an allowed event, whose sender, amount, source and revenue it keeps. */
  lemma {:induction false} BurnOrigin(events: seq<Event>, id: nat) returns (i: nat)
    requires id in StateAt(events).burns
    ensures var b := StateAt(events).burns[id];
            i < |events| && events[i] == BurnEv(b.sender, b.amount, b.source, b.revenue)
            && Allowed(events[..i], events[i])
  {
    var n := |events| - 1;
    if id in StateAt(events[..n]).burns {
      i := BurnOrigin(events[..n], id);
      assert events[..n][..i] == events[..i];
      RecordsForever(events, n);
    } else {
      i := n;
      RunAllowed(events[..n], events[n]);
    }
  }

  // ---- Reasons ----

  /** How far a mint got that is refused for `x`. */
  function MintStage(x: Error): nat {
    match x
    case NotAuthorized => 1
    case ProvenanceRejected => 2
    case IpfsMissing => 3
    case BelowMinimum => 4
    case AlreadyRegistered => 5
    case NegativeCoin => 6
    case _ => 0
  }

  /** The state once what a mint was refused for is made up for: the sender is permitted, the provenance accepted, no
      hash asked for, the minimum lowered. */
  function MintRepaired(s: State, e: Event, x: Error): State
    requires e.MintEv?
  {
    match x
    case NotAuthorized => Step(s, MinterEv(e.sender, true)).0
    case ProvenanceRejected => Step(s, ParamsEv(s.params.(accepted := [e.provenance]))).0
    case IpfsMissing => Step(s, ParamsEv(s.params.(requireIpfs := false))).0
    case BelowMinimum => Step(s, ParamsEv(s.params.(minMwh := e.mwh))).0
    case _ => s
  }

  /** A mint that is refused goes through once the reason is made up for, or is refused at a later check; except that a
      certificate that has minted never mints again, and one of energy too far below zero never does. */
  lemma MintRefused(events: seq<Event>, e: Event, x: Error)
    requires e.MintEv? && Step(StateAt(events), e).1 == Failed(x)
    ensures MintStage(x) > 0
    ensures x == AlreadyRegistered ==> Mints(events, e.externalId) == 1
    ensures x == NegativeCoin ==> e.mwh <= -SCALED_MWH_PER_UFTG
    ensures var r := Step(MintRepaired(StateAt(events), e, x), e).1;
            r.Failed? ==> MintStage(r.error) > MintStage(x) || x == AlreadyRegistered || x == NegativeCoin
  {
    MintsAtMostOnce(events, e.externalId);
    TokensNonNegative(e.mwh);
  }

  function BurnStage(x: Error): nat {
    match x
    case InvalidSource => 1
    case NotAuthorized => 2
    case BelowMinimum => 3
    case InsufficientBalance => 4
    case _ => 0
  }

  /** The state once a merchant is permitted to burn, or the sender has the coins. */
  function BurnRepaired(s: State, e: Event, x: Error): State
    requires e.BurnEv?
  {
    match x
    case NotAuthorized => Step(s, MerchantEv(e.from)).0
    case InsufficientBalance => s.(bank := s.bank[e.from := e.amount])
    case _ => s
  }

  /** The burn with a source that is known, or the smallest amount. */
  function BurnAsked(e: Event, x: Error): Event
    requires e.BurnEv?
  {
    match x
    case InvalidSource => BurnEv(e.from, e.amount, Manual, e.revenue)
    case BelowMinimum => BurnEv(e.from, 1_000_000, e.source, e.revenue)
    case _ => e
  }

  /** A burn that is refused goes through once the reason is made up for, or is refused at a later check. */
  lemma BurnRefused(s: State, e: Event, x: Error)
    requires e.BurnEv? && Step(s, e).1 == Failed(x)
    ensures BurnStage(x) > 0
    ensures var r := Step(BurnRepaired(s, e, x), BurnAsked(e, x)).1;
            r.Failed? ==> BurnStage(r.error) > BurnStage(x)
  {
  }
}
