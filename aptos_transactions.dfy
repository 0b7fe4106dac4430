/** One row of the `aptos_transactions` table and its `to_dict`
    serialisation. `version`, `timestamp`, `pool_address`, `coin1` and
    `coin2` are required (and `id`, the primary key); every other column,
    `slippage` included, may be null. */
module AptosTransactions {
  import opened Common
  import opened Time

  datatype Txn = Txn(
    id: int,
    version: int,
    timestamp: DateTime,
    poolAddress: string,
    coin1: string,
    coin2: string,
    provider: Option<string>,
    volume: Option<real>,
    deltaX: Option<real>,
    priceX: Option<real>,
    fees: Option<real>,
    tvl: Option<real>,
    slippage: Option<real>,
    decimalX: Option<int>,
    deltaY: Option<real>,
    priceY: Option<real>,
    createdAt: Option<DateTime>,
    poolName: Option<string>)

  /** The columns of the table, in declaration order. */
  datatype Column =
    | Id | Version | Timestamp | PoolAddress | Coin1 | Coin2 | Provider
    | Volume | DeltaX | PriceX | Fees | Tvl | Slippage | DecimalX | DeltaY | PriceY
    | CreatedAt | PoolName
  {
    /** The key the column has in a serialised row. */
    function Name(): string {
      match this
      case Id => "id"
      case Version => "version"
      case Timestamp => "timestamp"
      case PoolAddress => "pool_address"
      case Coin1 => "coin1"
      case Coin2 => "coin2"
      case Provider => "provider"
      case Volume => "volume"
      case DeltaX => "delta_x"
      case PriceX => "price_x"
      case Fees => "fees"
      case Tvl => "tvl"
      case Slippage => "slippage"
      case DecimalX => "decimal_x"
      case DeltaY => "delta_y"
      case PriceY => "price_y"
      case CreatedAt => "created_at"
      case PoolName => "pool_name"
    }

    predicate IsText() {
      match this
      case PoolAddress | Coin1 | Coin2 | Provider | PoolName => true
      case _ => false
    }

    /** Serialised through `float(...)`. */
    predicate IsNumeric() {
      match this
      case Volume | DeltaX | PriceX | Fees | Tvl | Slippage | DeltaY | PriceY => true
      case _ => false
    }

    predicate IsInteger() {
      match this
      case Id | Version | DecimalX => true
      case _ => false
    }

    predicate IsTimestamp() {
      match this
      case Timestamp | CreatedAt => true
      case _ => false
    }

    /** Declared `nullable=True`. */
    predicate IsNullable() {
      match this
      case Id | Version | Timestamp | PoolAddress | Coin1 | Coin2 => false
      case _ => true
    }
  }

  const Columns: set<Column> :=
    {Id, Version, Timestamp, PoolAddress, Coin1, Coin2, Provider,
     Volume, DeltaX, PriceX, Fees, Tvl, Slippage, DecimalX, DeltaY, PriceY,
     CreatedAt, PoolName}

  /** A serialised row: column to JSON value. */
  type Dict = map<Column, Value<DateTime>>

  lemma AllColumns(c: Column)
    ensures c in Columns
  {
    match c
    case Id => case Version => case Timestamp => case PoolAddress => case Coin1 => case Coin2 =>
    case Provider => case Volume => case DeltaX => case PriceX => case Fees => case Tvl =>
    case Slippage => case DecimalX => case DeltaY => case PriceY => case CreatedAt => case PoolName =>
  }

  /** No two columns share a key. */
  lemma NamesDistinct(c: Column, c': Column)
    ensures c.Name() == c'.Name() ==> c == c'
  {
  }

  /** The value `to_dict` gives a column. */
  function Field(t: Txn, c: Column): (v: Value<DateTime>)
    ensures v != Null
    ensures c.IsNumeric() ==> v.Num?
    ensures c.IsInteger() ==> v.Int?
    ensures c.IsText() ==> v.Text?
  {
    match c
    case Id => Int(t.id)
    case Version => Int(t.version)
    case Timestamp => Iso(t.timestamp)
    case PoolAddress => Text(t.poolAddress)
    case Coin1 => Text(t.coin1)
    case Coin2 => Text(t.coin2)
    case Provider => Text(t.provider.GetOr(""))
    case Volume => Num(OrZero(t.volume))
    case DeltaX => Num(OrZero(t.deltaX))
    case PriceX => Num(OrZero(t.priceX))
    case Fees => Num(OrZero(t.fees))
    case Tvl => Num(OrZero(t.tvl))
    case Slippage => Num(OrZero(t.slippage))
    case DecimalX => Int(t.decimalX.GetOr(0))
    case DeltaY => Num(OrZero(t.deltaY))
    case PriceY => Num(OrZero(t.priceY))
    case CreatedAt => if t.createdAt.Some? then Iso(t.createdAt.value) else Text("")
    case PoolName => Text(t.poolName.GetOr(""))
  }

  /** `AptosTransactions.to_dict`: every column once and no null value;
      numbers as numbers, integers as integers, text as text. */
  function ToDict(t: Txn): (d: Dict)
    ensures forall c: Column :: c in d
    ensures forall c :: c in d ==> d[c] != Null
    ensures forall c :: c in d && c.IsNumeric() ==> d[c].Num?
    ensures forall c :: c in d && c.IsInteger() ==> d[c].Int?
    ensures forall c :: c in d && c.IsText() ==> d[c].Text?
  {
    var d := map c | c in Columns :: Field(t, c);
    assert forall c: Column :: c in d by {
      forall c: Column ensures c in d { AllColumns(c); }
    }
    d
  }

  lemma ToDictAt(t: Txn, c: Column)
    ensures ToDict(t)[c] == Field(t, c)
  {
  }

  /** Absent values in `to_dict`: numbers and integers as 0, text as '',
      and a missing `created_at` as '' rather than an ISO string. */
  lemma ToDictNulls(t: Txn)
    ensures t.slippage.None? ==> ToDict(t)[Slippage] == Num(0.0)
    ensures t.volume.None? ==> ToDict(t)[Volume] == Num(0.0)
    ensures t.decimalX.None? ==> ToDict(t)[DecimalX] == Int(0)
    ensures t.provider.None? ==> ToDict(t)[Provider] == Text("")
    ensures t.poolName.None? ==> ToDict(t)[PoolName] == Text("")
    ensures ToDict(t)[Timestamp] == Iso(t.timestamp)
    ensures ToDict(t)[CreatedAt] == if t.createdAt.None? then Text("") else Iso(t.createdAt.value)
  {
    var d := ToDict(t);
    assert d[Slippage] == Field(t, Slippage) && d[Volume] == Field(t, Volume);
    assert d[DecimalX] == Field(t, DecimalX) && d[Provider] == Field(t, Provider);
    assert d[PoolName] == Field(t, PoolName) && d[Timestamp] == Field(t, Timestamp);
    assert d[CreatedAt] == Field(t, CreatedAt);
  }

  /** The row as `to_dict` sees it: an absent number reads as 0, absent
      text as ''. */
  function Normalised(t: Txn): Txn
  {
    t.(provider := Some(t.provider.GetOr("")),
       volume := Some(OrZero(t.volume)), deltaX := Some(OrZero(t.deltaX)),
       priceX := Some(OrZero(t.priceX)), fees := Some(OrZero(t.fees)),
       tvl := Some(OrZero(t.tvl)), slippage := Some(OrZero(t.slippage)),
       decimalX := Some(t.decimalX.GetOr(0)),
       deltaY := Some(OrZero(t.deltaY)), priceY := Some(OrZero(t.priceY)),
       poolName := Some(t.poolName.GetOr("")))
  }

  function IntAt(d: Dict, c: Column): int {
    if c in d && d[c].Int? then d[c].i else 0
  }

  function NumAt(d: Dict, c: Column): real {
    if c in d && d[c].Num? then d[c].x else 0.0
  }

  function TextAt(d: Dict, c: Column): string {
    if c in d && d[c].Text? then d[c].s else ""
  }

  function StampAt(d: Dict, c: Column): Option<DateTime> {
    if c in d && d[c].Iso? then Some(d[c].t) else None
  }

  /** Reading a serialised row back into a record. */
  function FromDict(d: Dict): Txn
  {
    Txn(IntAt(d, Id), IntAt(d, Version), StampAt(d, Timestamp).GetOr(DateTime(0, 0, 0, 0)),
        TextAt(d, PoolAddress), TextAt(d, Coin1), TextAt(d, Coin2), Some(TextAt(d, Provider)),
        Some(NumAt(d, Volume)), Some(NumAt(d, DeltaX)), Some(NumAt(d, PriceX)),
        Some(NumAt(d, Fees)), Some(NumAt(d, Tvl)), Some(NumAt(d, Slippage)),
        Some(IntAt(d, DecimalX)), Some(NumAt(d, DeltaY)), Some(NumAt(d, PriceY)),
        StampAt(d, CreatedAt), Some(TextAt(d, PoolName)))
  }

  /** Reading back a dict whose columns hold a row's normalised values gives
      the normalised row. */
  lemma FromDictOf(d: Dict, t: Txn)
    requires IntAt(d, Id) == t.id && IntAt(d, Version) == t.version
    requires StampAt(d, Timestamp) == Some(t.timestamp)
    requires TextAt(d, PoolAddress) == t.poolAddress && TextAt(d, Coin1) == t.coin1
    requires TextAt(d, Coin2) == t.coin2 && TextAt(d, Provider) == t.provider.GetOr("")
    requires NumAt(d, Volume) == OrZero(t.volume) && NumAt(d, DeltaX) == OrZero(t.deltaX)
    requires NumAt(d, PriceX) == OrZero(t.priceX) && NumAt(d, Fees) == OrZero(t.fees)
    requires NumAt(d, Tvl) == OrZero(t.tvl) && NumAt(d, Slippage) == OrZero(t.slippage)
    requires IntAt(d, DecimalX) == t.decimalX.GetOr(0)
    requires NumAt(d, DeltaY) == OrZero(t.deltaY) && NumAt(d, PriceY) == OrZero(t.priceY)
    requires StampAt(d, CreatedAt) == t.createdAt && TextAt(d, PoolName) == t.poolName.GetOr("")
    ensures FromDict(d) == Normalised(t)
  {
  }

  lemma ReadRequired(t: Txn)
    ensures var d := ToDict(t);
      IntAt(d, Id) == t.id && IntAt(d, Version) == t.version
      && StampAt(d, Timestamp) == Some(t.timestamp) && TextAt(d, PoolAddress) == t.poolAddress
      && TextAt(d, Coin1) == t.coin1 && TextAt(d, Coin2) == t.coin2
  {
    ToDictAt(t, Id); ToDictAt(t, Version); ToDictAt(t, Timestamp);
    ToDictAt(t, PoolAddress); ToDictAt(t, Coin1); ToDictAt(t, Coin2);
  }

  lemma ReadOptional(t: Txn)
    ensures var d := ToDict(t);
      TextAt(d, Provider) == t.provider.GetOr("") && TextAt(d, PoolName) == t.poolName.GetOr("")
      && IntAt(d, DecimalX) == t.decimalX.GetOr(0) && StampAt(d, CreatedAt) == t.createdAt
  {
    ToDictAt(t, Provider); ToDictAt(t, PoolName); ToDictAt(t, DecimalX); ToDictAt(t, CreatedAt);
  }

  lemma ReadNumbers(t: Txn)
    ensures var d := ToDict(t);
      NumAt(d, Volume) == OrZero(t.volume) && NumAt(d, DeltaX) == OrZero(t.deltaX)
      && NumAt(d, PriceX) == OrZero(t.priceX) && NumAt(d, Fees) == OrZero(t.fees)
      && NumAt(d, Tvl) == OrZero(t.tvl) && NumAt(d, Slippage) == OrZero(t.slippage)
      && NumAt(d, DeltaY) == OrZero(t.deltaY) && NumAt(d, PriceY) == OrZero(t.priceY)
  {
    ToDictAt(t, Volume); ToDictAt(t, DeltaX); ToDictAt(t, PriceX); ToDictAt(t, Fees);
    ToDictAt(t, Tvl); ToDictAt(t, Slippage); ToDictAt(t, DeltaY); ToDictAt(t, PriceY);
  }

  /** `to_dict` loses nothing but the difference between an absent value and
      a zero or empty one. */
  lemma ToDictRoundTrip(t: Txn)
    ensures FromDict(ToDict(t)) == Normalised(t)
  {
    ReadRequired(t);
    ReadOptional(t);
    ReadNumbers(t);
    FromDictOf(ToDict(t), t);
  }

  lemma FieldNormalised(t: Txn, c: Column)
    ensures Field(Normalised(t), c) == Field(t, c)
  {
  }

  lemma ToDictInjective(t: Txn, u: Txn)
    ensures ToDict(t) == ToDict(u) <==> Normalised(t) == Normalised(u)
  {
    if ToDict(t) == ToDict(u) {
      ToDictRoundTrip(t);
      ToDictRoundTrip(u);
    }
    if Normalised(t) == Normalised(u) {
      forall c | c in Columns ensures ToDict(t)[c] == ToDict(u)[c] {
        FieldNormalised(t, c);
        FieldNormalised(u, c);
      }
    }
  }
}
