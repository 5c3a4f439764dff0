/** The treasury keeper: its methods move bank balances and rewrite the stored commitments. */
module TreasuryKeeper {
  import opened Amounts
  import T = Treasury

  class Keeper {
    const config: T.Config

    var bank: map<T.Address, int>
    var commitments: map<nat, T.Commitment>
    var count: nat

    ghost function Abs(): T.State
      reads this
    {
      T.State(bank, commitments, count)
    }

    /** The commitments are in order, no address is overdrawn, and with two wallets the committed one covers the
        funded commitments. */
    ghost predicate Valid()
      reads this
    {
      T.Consistent(config, Abs())
    }

    /** A treasury over a bank that has its balances already. */
    constructor (config: T.Config, bank: map<T.Address, int>)
      requires forall a :: a in bank ==> bank[a] >= 0
      ensures this.config == config && Abs() == T.State(bank, map[], 0)
      ensures Valid()
    {
      this.config := config;
      this.bank, commitments, count := bank, map[], 0;
      new;
      T.OpeningConsistent(config, bank);
    }

    /** Stands for the bank module: both balances move, or an error is reported and neither does. */
    method SendCoins(from: T.Address, to: T.Address, amount: int) returns (r: T.Result)
      modifies this`bank
      ensures (bank, r) == T.Send(old(bank), from, to, amount)
    {
      if amount < 0 {
        return T.Failed(T.NegativeCoin);
      }
      if T.Balance(bank, from) < amount {
        return T.Failed(T.TransferFailed);
      }
      bank := bank[from := T.Balance(bank, from) - amount];
      bank := bank[to := T.Balance(bank, to) + amount];
      r := T.Ok;
    }

    method GenerateCommitmentID() returns (id: nat)
      modifies this`count
      ensures id == count == old(count) + 1
    {
      count := count + 1;
      id := count;
    }

    method TransferMintingToCommitted(sender: T.Address, amount: int, buyer: string, price: int, now: int)
      returns (r: T.Result)
      requires Valid()
      modifies this
      ensures (Abs(), r) == T.Commit(config, old(Abs()), sender, amount, buyer, price, now)
      ensures Valid()
    {
      T.StepConsistent(config, Abs(), T.CommitEv(sender, amount, buyer, price, now));
      if sender != config.owner {
        return T.Failed(T.Unauthorized);
      }
      if T.Balance(bank, config.minting) < amount {
        return T.Failed(T.InsufficientMinting);
      }
      r := SendCoins(config.minting, config.committed, amount);
      if r.Failed? {
        return;
      }
      var id := GenerateCommitmentID();
      var totalValue := Quo(price * amount, MICRO);
      commitments := commitments[id := T.Commitment(buyer, amount, price, totalValue, T.Funded, now, 0, "")];
    }

    method TransferMintingToLiquidity(sender: T.Address, amount: int) returns (r: T.Result)
      requires Valid()
      modifies this`bank
      ensures (Abs(), r) == T.ToLiquidity(config, old(Abs()), sender, amount)
      ensures Valid()
    {
      T.StepConsistent(config, Abs(), T.LiquidityEv(sender, amount));
      if sender != config.owner {
        return T.Failed(T.Unauthorized);
      }
      if T.Balance(bank, config.minting) < amount {
        return T.Failed(T.InsufficientMinting);
      }
      r := SendCoins(config.minting, config.liquidity, amount);
    }

    method DeliverCommitment(sender: T.Address, id: nat, destination: T.Address, now: int) returns (r: T.Result)
      requires Valid()
      modifies this`bank, this`commitments
      ensures (Abs(), r) == T.Deliver(config, old(Abs()), sender, id, destination, now)
      ensures Valid()
      ensures config.minting != config.committed ==>
                (r.Ok? <==> sender == config.owner && id in old(commitments) && old(commitments)[id].status == T.Funded)
    {
      T.StepConsistent(config, Abs(), T.DeliverEv(sender, id, destination, now));
      if config.minting != config.committed { T.DeliverSucceeds(config, Abs(), sender, id, destination, now); }
      if sender != config.owner {
        return T.Failed(T.Unauthorized);
      }
      if id !in commitments {
        return T.Failed(T.NotFound);
      }
      var commitment := commitments[id];
      if commitment.status != T.Funded {
        return T.Failed(T.WrongStatus);
      }
      r := SendCoins(config.committed, destination, commitment.amount);
      if r.Failed? {
        return;
      }
      commitment := commitment.(status := T.Delivered, deliveredAt := now, destination := destination);
      commitments := commitments[id := commitment];
    }

    method CancelCommitmentOp(sender: T.Address, id: nat) returns (r: T.Result)
      requires Valid()
      modifies this`bank, this`commitments
      ensures (Abs(), r) == T.Cancel(config, old(Abs()), sender, id)
      ensures Valid()
      ensures config.minting != config.committed ==>
                (r.Ok? <==> sender == config.owner && id in old(commitments) && old(commitments)[id].status == T.Funded)
    {
      T.StepConsistent(config, Abs(), T.CancelEv(sender, id));
      if config.minting != config.committed { T.CancelSucceeds(config, Abs(), sender, id); }
      if sender != config.owner {
        return T.Failed(T.Unauthorized);
      }
      if id !in commitments {
        return T.Failed(T.NotFound);
      }
      var commitment := commitments[id];
      if commitment.status != T.Funded && commitment.status != T.Pending {
        return T.Failed(T.WrongStatus);
      }
      r := SendCoins(config.committed, config.minting, commitment.amount);
      if r.Failed? {
        return;
      }
      commitments := commitments[id := commitment.(status := T.Cancelled)];
    }
  }
}
