/** The exchange's records: wallets, orders, trades, the trading pair and the configuration. */
module ExchangeTypes {
  type WalletId = nat
  type OrderId = nat
  type UserId = string
  type Denom = string
  type Day = int

  datatype Option<+T> = None | Some(value: T)

  datatype Side = Buy | Sell
  datatype OrderType = Limit | Market
  datatype Status = Open | Partial | Filled | Cancelled | Expired
  datatype Tier = NoTier | Basic | Full | Institutional

  datatype Error =
    | RegistrationClosed
    | WalletExists
    | WalletNotFound
    | WalletInactive
    | InsufficientKYC
    | TradingDisabled
    | PairNotFound
    | PairInactive
    | BelowMinOrder
    | InvalidPrice
    | DailyLimitExceeded
    | InsufficientBalance
    | OrderNotFound
    | Unauthorized
    | OrderFilled
    | OrderCancelled

  /** A missing denomination reads as zero. */
  function Amount(m: map<Denom, int>, d: Denom): int {
    if d in m then m[d] else 0
  }

  datatype Wallet = Wallet(
    user: UserId,
    tier: Tier,
    balances: map<Denom, int>,
    locked: map<Denom, int>,
    active: bool)
  {
    function Balance(d: Denom): int { Amount(balances, d) }

    function Locked(d: Denom): int { Amount(locked, d) }

    function Available(d: Denom): int { Balance(d) - Locked(d) }

    function AddBalance(d: Denom, x: int): Wallet {
      this.(balances := balances[d := Balance(d) + x])
    }

    function AddLocked(d: Denom, x: int): Wallet {
      this.(locked := locked[d := Locked(d) + x])
    }
  }

  datatype Order = Order(
    wallet: WalletId,
    side: Side,
    typ: OrderType,
    price: int,
    quantity: int,
    filled: int,
    remaining: int,
    status: Status)
  {
    predicate Active() { status == Open || status == Partial }

    /** Books are kept in ascending key order: bids by falling price, asks by rising price. */
    function Key(): int { if side == Buy then -price else price }

    /** The order after `q` of its units have traded; its status is set by the caller. */
    function Take(q: int): Order {
      this.(filled := filled + q, remaining := remaining - q)
    }
  }

  datatype Trade = Trade(
    id: nat,
    makerOrder: OrderId,
    takerOrder: OrderId,
    makerWallet: WalletId,
    takerWallet: WalletId,
    side: Side,
    price: int,
    quantity: int,
    makerFee: int,
    takerFee: int,
    day: Day,
    height: int)

  datatype Pair = Pair(
    id: string,
    base: Denom,
    quote: Denom,
    minOrderSize: int,
    makerFee: int,
    takerFee: int,
    active: bool)

  datatype Config = Config(
    tradingEnabled: bool,
    registrationOpen: bool,
    tierLimits: map<Tier, int>)

  datatype Env = Env(pair: Pair, config: Config)
  {
    /** What every result below assumes of the pair: two denominations, a positive minimum size, and
        fees between 0 and 10,000 basis points. */
    predicate Sound() {
      && pair.base != pair.quote
      && pair.minOrderSize > 0
      && 0 <= pair.makerFee <= 10_000
      && 0 <= pair.takerFee <= 10_000
    }

    function TierLimit(t: Tier): int {
      if t in config.tierLimits then config.tierLimits[t] else 0
    }
  }

  /** The pair and limits a new keeper starts with. */
  const DEFAULT_ENV := Env(
    Pair("FTG-USDC", "uftg", "uusdc", 1_000_000, 10, 25, true),
    Config(true, true,
      map[NoTier := 0, Basic := 1_000_000_000, Full := 50_000_000_000, Institutional := 0]))

  type Wallets = map<WalletId, Wallet>
  type Orders = map<OrderId, Order>
  type Volumes = map<(UserId, Day), int>

  function VolumeOf(v: Volumes, u: UserId, day: Day): int {
    if (u, day) in v then v[(u, day)] else 0
  }

  /** The whole state of the keeper. `bids` and `asks` list order ids. */
  datatype State = State(
    wallets: Wallets,
    orders: Orders,
    trades: seq<Trade>,
    volumes: Volumes,
    bids: seq<OrderId>,
    asks: seq<OrderId>,
    walletSeq: nat,
    orderSeq: nat,
    tradeSeq: nat)
  {
    function Book(side: Side): seq<OrderId> { if side == Buy then bids else asks }

    function WithBook(side: Side, book: seq<OrderId>): State {
      if side == Buy then this.(bids := book) else this.(asks := book)
    }
  }

  const INIT_STATE := State(map[], map[], [], map[], [], [], 0, 0, 0)

  function Opposite(side: Side): Side { if side == Buy then Sell else Buy }
}
