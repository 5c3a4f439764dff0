/** The energymint and burn keepers over their shared bank. */
module EnergySupplyKeeper {
  import opened Amounts
  import T = EnergySupply

  class Keeper {
    var bank: map<T.Address, int>
    var certificates: map<string, T.Certificate>
    var certificateCount: nat
    var totalMinted: int
    var totalBacked: int
    var minters: set<T.Address>
    var merchants: set<T.Address>
    var params: T.Params
    var burns: map<nat, T.BurnEvent>
    var burnCount: nat
    var stats: T.BurnStats

    ghost function Abs(): T.State
      reads this
    {
      T.State(bank, certificates, certificateCount, totalMinted, totalBacked, minters, merchants, params, burns,
              burnCount, stats)
    }

    /** The supply is what was minted less what was burned, and every total is the sum over its records. */
    ghost predicate Valid()
      reads this
    {
      T.Ledgers(Abs())
    }

    constructor ()
      ensures Abs() == T.INIT_STATE
      ensures Valid()
    {
      bank, certificates, burns := map[], map[], map[];
      certificateCount, totalMinted, totalBacked, burnCount := 0, 0, 0, 0;
      minters, merchants, params := {}, {}, T.DEFAULT_PARAMS;
      stats := T.BurnStats(0, 0, 0, 0, 0, 0);
      new;
      assert Abs() == T.INIT_STATE;
      T.InitLedgers();
    }

    method AddAuthorizedMinter(minter: T.Address)
      requires Valid()
      modifies this`minters
      ensures Valid() && minters == old(minters) + {minter}
    {
      minters := minters + {minter};
    }

    method RemoveAuthorizedMinter(minter: T.Address)
      requires Valid()
      modifies this`minters
      ensures Valid() && minters == old(minters) - {minter}
    {
      minters := minters - {minter};
    }

    method AddAuthorizedMerchant(merchant: T.Address)
      requires Valid()
      modifies this`merchants
      ensures Valid() && merchants == old(merchants) + {merchant}
    {
      merchants := merchants + {merchant};
    }

    method SetParams(p: T.Params)
      requires Valid()
      modifies this`params
      ensures Valid() && params == p
    {
      params := p;
    }

    /** Stands for the bank module, which anyone may use. */
    method SendCoins(from: T.Address, to: T.Address, amount: int) returns (r: T.Result)
      requires Valid()
      modifies this`bank
      ensures (Abs(), r) == T.Transfer(old(Abs()), from, to, amount)
      ensures Valid()
    {
      T.TransferLedgers(Abs(), from, to, amount);
      if amount < 0 {
        return T.Failed(T.NegativeCoin);
      }
      if T.Balance(bank, from) < amount {
        return T.Failed(T.InsufficientBalance);
      }
      bank := bank[from := T.Balance(bank, from) - amount];
      bank := bank[to := T.Balance(bank, to) + amount];
      r := T.Ok;
    }

    method IsAcceptedProvenance(accepted: seq<string>, kind: string) returns (found: bool)
      ensures found <==> kind in accepted
    {
      for i := 0 to |accepted|
        invariant kind !in accepted[..i]
      {
        if accepted[i] == kind {
          return true;
        }
      }
      assert accepted[..|accepted|] == accepted;
      found := false;
    }

    method GenerateCertificateID() returns (id: nat)
      modifies this`certificateCount
      ensures id == certificateCount == old(certificateCount) + 1
    {
      certificateCount := certificateCount + 1;
      id := certificateCount;
    }

    method IncrementTotalMinted(amount: int)
      modifies this`totalMinted
      ensures totalMinted == old(totalMinted) + amount
    {
      totalMinted := totalMinted + amount;
    }

    method IncrementTotalBackedMwh(amount: int)
      modifies this`totalBacked
      ensures totalBacked == old(totalBacked) + amount
    {
      totalBacked := totalBacked + amount;
    }

    method MintFromCertificate(sender: T.Address, externalId: string, mwh: int, ipfsHash: string, provenance: string,
                               destination: T.Address) returns (r: T.Result)
      requires Valid()
      modifies this
      ensures (Abs(), r) == T.Mint(old(Abs()), sender, externalId, mwh, ipfsHash, provenance, destination)
      ensures Valid()
      ensures r.Ok? ==> externalId !in old(certificates) && externalId in certificates
      ensures r.Failed? ==> Abs() == old(Abs())
    {
      T.MintLedgers(Abs(), sender, externalId, mwh, ipfsHash, provenance, destination);
      if sender !in minters {
        return T.Failed(T.NotAuthorized);
      }
      var accepted := IsAcceptedProvenance(params.accepted, provenance);
      if !accepted {
        return T.Failed(T.ProvenanceRejected);
      }
      if params.requireIpfs && ipfsHash == "" {
        return T.Failed(T.IpfsMissing);
      }
      if mwh < params.minMwh {
        return T.Failed(T.BelowMinimum);
      }
      if externalId in certificates {
        return T.Failed(T.AlreadyRegistered);
      }
      var tokens := Quo(mwh * T.TOKENS_PER_MWH * T.MICRO_PER_TOKEN, T.SCALE);
      if tokens < 0 {
        return T.Failed(T.NegativeCoin);
      }
      var recipient := destination;
      if recipient == "" {
        recipient := sender;
      }
      Issue(sender, externalId, mwh, ipfsHash, provenance, recipient, tokens);
      r := T.Ok;
    }

    /** Credits the tokens and records the certificate. */
    method Issue(sender: T.Address, externalId: string, mwh: int, ipfsHash: string, provenance: string,
        recipient: T.Address, tokens: int)
      requires tokens == T.TokensFor(mwh)
      modifies this`bank, this`certificates, this`certificateCount, this`totalMinted, this`totalBacked
      ensures Abs() == T.Minted(old(Abs()), sender, externalId, mwh, ipfsHash, provenance, recipient)
    {
      bank := bank[recipient := T.Balance(bank, recipient) + tokens];
      var id := GenerateCertificateID();
      certificates := certificates[externalId := T.Certificate(id, externalId, mwh, ipfsHash, provenance, tokens, sender)];
      IncrementTotalMinted(tokens);
      IncrementTotalBackedMwh(mwh);
    }

    method GenerateBurnID() returns (id: nat)
      modifies this`burnCount
      ensures id == burnCount == old(burnCount) + 1
    {
      burnCount := burnCount + 1;
      id := burnCount;
    }

    /** The bucket of the source grows by the amount and the others stay, so the buckets still make up the total;
        revenue comes from merchants only. */
    method UpdateBurnStats(amount: int, source: T.Source, revenue: int)
      modifies this`stats
      ensures source != T.UnknownSource ==> T.Grown(old(stats), amount, source, revenue, stats)
      ensures stats.total == old(stats).total + amount && stats.events == old(stats).events + 1
    {
      stats := stats.(total := stats.total + amount);
      stats := stats.(events := stats.events + 1);
      match source
      case MerchantProtocol =>
        stats := stats.(merchant := stats.merchant + amount);
        stats := stats.(revenue := stats.revenue + revenue);
      case Manual => stats := stats.(manual := stats.manual + amount);
      case Redemption => stats := stats.(redemption := stats.redemption + amount);
      case UnknownSource =>
    }

    method BurnTokens(sender: T.Address, amount: int, source: T.Source, revenue: int) returns (r: T.Result)
      requires Valid()
      modifies this`bank, this`burns, this`burnCount, this`stats
      ensures (Abs(), r) == T.Burn(old(Abs()), sender, amount, source, revenue)
      ensures Valid()
      ensures r.Ok? ==> stats.total == old(stats).total + amount && T.Balance(bank, sender) >= 0
      ensures r.Failed? ==> Abs() == old(Abs())
    {
      T.BurnLedgers(Abs(), sender, amount, source, revenue);
      if source == T.UnknownSource {
        return T.Failed(T.InvalidSource);
      }
      if source == T.MerchantProtocol && sender !in merchants {
        return T.Failed(T.NotAuthorized);
      }
      if amount < T.MIN_BURN {
        return T.Failed(T.BelowMinimum);
      }
      if T.Balance(bank, sender) < amount {
        return T.Failed(T.InsufficientBalance);
      }
      RecordBurn(sender, amount, source, revenue);
      r := T.Ok;
    }

    /** Debits the sender, stores the event and updates the statistics. */
    method RecordBurn(sender: T.Address, amount: int, source: T.Source, revenue: int)
      requires source != T.UnknownSource
      modifies this`bank, this`burns, this`burnCount, this`stats
      ensures Abs() == T.Burned(old(Abs()), sender, amount, source, revenue)
    {
      bank := bank[sender := T.Balance(bank, sender) - amount];
      var id := GenerateBurnID();
      burns := burns[id := T.BurnEvent(amount, source, sender, revenue)];
      UpdateBurnStats(amount, source, revenue);
      T.GrownIs(old(stats), amount, source, revenue, stats);
    }
  }
}
