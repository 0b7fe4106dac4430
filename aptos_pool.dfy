/** One snapshot row of the `aptos_pools` table and its `to_dict`
    serialisation. Only the three `median_slippage_*` columns are nullable,
    so only they are optional in the record. */
module AptosPool {
  import opened Common
  import opened Time

  datatype Pool = Pool(
    id: int,
    timestamp: DateTime,
    provider: string,
    poolAddress: string,
    tokenA: string,
    tokenB: string,
    tvl: real,
    volumeDay: real,
    volumeWeek: real,
    volumeMonth: real,
    feesDay: real,
    feesWeek: real,
    feesMonth: real,
    state: string,
    medianSlippage1d: Option<real>,
    medianSlippage7d: Option<real>,
    medianSlippage30d: Option<real>)

  /** The columns of the table, in declaration order. */
  datatype Column =
    | Id | Timestamp | Provider | PoolAddress | TokenA | TokenB
    | Tvl | VolumeDay | VolumeWeek | VolumeMonth | FeesDay | FeesWeek | FeesMonth
    | State | MedianSlippage1d | MedianSlippage7d | MedianSlippage30d
  {
    /** The key the column has in a serialised row. */
    function Name(): string {
      match this
      case Id => "id"
      case Timestamp => "timestamp"
      case Provider => "provider"
      case PoolAddress => "pool_address"
      case TokenA => "token_a"
      case TokenB => "token_b"
      case Tvl => "tvl"
      case VolumeDay => "volume_day"
      case VolumeWeek => "volume_week"
      case VolumeMonth => "volume_month"
      case FeesDay => "fees_day"
      case FeesWeek => "fees_week"
      case FeesMonth => "fees_month"
      case State => "state"
      case MedianSlippage1d => "median_slippage_1d"
      case MedianSlippage7d => "median_slippage_7d"
      case MedianSlippage30d => "median_slippage_30d"
    }

    predicate IsText() {
      match this
      case Provider | PoolAddress | TokenA | TokenB | State => true
      case _ => false
    }

    predicate IsNumeric() {
      match this
      case Id | Timestamp | Provider | PoolAddress | TokenA | TokenB | State => false
      case _ => true
    }

    /** Declared `nullable=True`. */
    predicate IsNullable() {
      match this
      case MedianSlippage1d | MedianSlippage7d | MedianSlippage30d => true
      case _ => false
    }

    /** Whether the column's SQL type is `Integer` or `Float` (`Numeric` is
        neither): only the primary key. */
    predicate IsIntOrFloat() {
      this == Id
    }
  }

  const Columns: set<Column> :=
    {Id, Timestamp, Provider, PoolAddress, TokenA, TokenB,
     Tvl, VolumeDay, VolumeWeek, VolumeMonth, FeesDay, FeesWeek, FeesMonth,
     State, MedianSlippage1d, MedianSlippage7d, MedianSlippage30d}

  /** A serialised row: column to JSON value. */
  type Dict = map<Column, Value<DateTime>>

  lemma AllColumns(c: Column)
    ensures c in Columns
  {
    match c
    case Id => case Timestamp => case Provider => case PoolAddress => case TokenA => case TokenB =>
    case Tvl => case VolumeDay => case VolumeWeek => case VolumeMonth =>
    case FeesDay => case FeesWeek => case FeesMonth => case State =>
    case MedianSlippage1d => case MedianSlippage7d => case MedianSlippage30d =>
  }

  /** No two columns share a key. */
  lemma NamesDistinct(c: Column, c': Column)
    ensures c.Name() == c'.Name() ==> c == c'
  {
  }

  /** The value `to_dict` gives a column. */
  function Field(p: Pool, c: Column): (v: Value<DateTime>)
    ensures v != Null
    ensures c.IsNumeric() ==> v.Num?
    ensures c.IsText() ==> v.Text?
  {
    match c
    case Id => Int(p.id)
    case Timestamp => Iso(p.timestamp)
    case Provider => Text(p.provider)
    case PoolAddress => Text(p.poolAddress)
    case TokenA => Text(p.tokenA)
    case TokenB => Text(p.tokenB)
    case Tvl => Num(p.tvl)
    case VolumeDay => Num(p.volumeDay)
    case VolumeWeek => Num(p.volumeWeek)
    case VolumeMonth => Num(p.volumeMonth)
    case FeesDay => Num(p.feesDay)
    case FeesWeek => Num(p.feesWeek)
    case FeesMonth => Num(p.feesMonth)
    case State => Text(p.state)
    case MedianSlippage1d => Num(OrZero(p.medianSlippage1d))
    case MedianSlippage7d => Num(OrZero(p.medianSlippage7d))
    case MedianSlippage30d => Num(OrZero(p.medianSlippage30d))
  }

  /** `AptosPool.to_dict`: every column once and no null value; numbers as
      numbers (an absent slippage as 0), text as text, the timestamp in ISO
      form. */
  function ToDict(p: Pool): (d: Dict)
    ensures forall c: Column :: c in d
    ensures forall c :: c in d ==> d[c] != Null
    ensures forall c :: c in d && c.IsNumeric() ==> d[c].Num?
    ensures forall c :: c in d && c.IsText() ==> d[c].Text?
  {
    var d := map c | c in Columns :: Field(p, c);
    assert forall c: Column :: c in d by {
      forall c: Column ensures c in d { AllColumns(c); }
    }
    d
  }

  lemma ToDictAt(p: Pool, c: Column)
    ensures ToDict(p)[c] == Field(p, c)
  {
  }

  /** The key, the timestamp and the nullable slippages in `to_dict`. */
  lemma ToDictNulls(p: Pool)
    ensures ToDict(p)[Id] == Int(p.id) && ToDict(p)[Timestamp] == Iso(p.timestamp)
    ensures p.medianSlippage1d.None? ==> ToDict(p)[MedianSlippage1d] == Num(0.0)
    ensures p.medianSlippage7d.None? ==> ToDict(p)[MedianSlippage7d] == Num(0.0)
    ensures p.medianSlippage30d.None? ==> ToDict(p)[MedianSlippage30d] == Num(0.0)
  {
  }

  /** The row as `to_dict` sees it: an absent slippage reads as 0. */
  function Normalised(p: Pool): Pool
  {
    p.(medianSlippage1d := Some(OrZero(p.medianSlippage1d)),
       medianSlippage7d := Some(OrZero(p.medianSlippage7d)),
       medianSlippage30d := Some(OrZero(p.medianSlippage30d)))
  }

  function IntAt(d: Dict, c: Column): int {
    if c in d && d[c].Int? then d[c].i else 0
  }

  function NumAt(d: Dict, c: Column): real {
    if c in d && d[c].Num? then d[c].x else 0.0
  }

  function TextAt(d: Dict, c: Column): string {
    if c in d && d[c].Text? then d[c].s else ""
  }

  function StampAt(d: Dict, c: Column): DateTime {
    if c in d && d[c].Iso? then d[c].t else DateTime(0, 0, 0, 0)
  }

  /** Reading a serialised row back into a record. */
  function FromDict(d: Dict): Pool
  {
    Pool(IntAt(d, Id), StampAt(d, Timestamp),
         TextAt(d, Provider), TextAt(d, PoolAddress), TextAt(d, TokenA), TextAt(d, TokenB),
         NumAt(d, Tvl), NumAt(d, VolumeDay), NumAt(d, VolumeWeek), NumAt(d, VolumeMonth),
         NumAt(d, FeesDay), NumAt(d, FeesWeek), NumAt(d, FeesMonth),
         TextAt(d, State),
         Some(NumAt(d, MedianSlippage1d)), Some(NumAt(d, MedianSlippage7d)),
         Some(NumAt(d, MedianSlippage30d)))
  }

  /** Reading back a dict whose columns hold a row's normalised values gives
      the normalised row. */
  lemma FromDictOf(d: Dict, p: Pool)
    requires IntAt(d, Id) == p.id && StampAt(d, Timestamp) == p.timestamp
    requires TextAt(d, Provider) == p.provider && TextAt(d, PoolAddress) == p.poolAddress
    requires TextAt(d, TokenA) == p.tokenA && TextAt(d, TokenB) == p.tokenB
    requires NumAt(d, Tvl) == p.tvl && NumAt(d, VolumeDay) == p.volumeDay
    requires NumAt(d, VolumeWeek) == p.volumeWeek && NumAt(d, VolumeMonth) == p.volumeMonth
    requires NumAt(d, FeesDay) == p.feesDay && NumAt(d, FeesWeek) == p.feesWeek
    requires NumAt(d, FeesMonth) == p.feesMonth && TextAt(d, State) == p.state
    requires NumAt(d, MedianSlippage1d) == OrZero(p.medianSlippage1d)
    requires NumAt(d, MedianSlippage7d) == OrZero(p.medianSlippage7d)
    requires NumAt(d, MedianSlippage30d) == OrZero(p.medianSlippage30d)
    ensures FromDict(d) == Normalised(p)
  {
  }

  lemma ReadIdentity(p: Pool)
    ensures var d := ToDict(p);
      IntAt(d, Id) == p.id && StampAt(d, Timestamp) == p.timestamp
      && TextAt(d, Provider) == p.provider && TextAt(d, PoolAddress) == p.poolAddress
      && TextAt(d, TokenA) == p.tokenA && TextAt(d, TokenB) == p.tokenB
      && TextAt(d, State) == p.state
  {
    ToDictAt(p, Id); ToDictAt(p, Timestamp); ToDictAt(p, Provider); ToDictAt(p, PoolAddress);
    ToDictAt(p, TokenA); ToDictAt(p, TokenB); ToDictAt(p, State);
  }

  lemma ReadAmounts(p: Pool)
    ensures var d := ToDict(p);
      NumAt(d, Tvl) == p.tvl && NumAt(d, VolumeDay) == p.volumeDay
      && NumAt(d, VolumeWeek) == p.volumeWeek && NumAt(d, VolumeMonth) == p.volumeMonth
      && NumAt(d, FeesDay) == p.feesDay && NumAt(d, FeesWeek) == p.feesWeek
      && NumAt(d, FeesMonth) == p.feesMonth
  {
    ToDictAt(p, Tvl); ToDictAt(p, VolumeDay); ToDictAt(p, VolumeWeek); ToDictAt(p, VolumeMonth);
    ToDictAt(p, FeesDay); ToDictAt(p, FeesWeek); ToDictAt(p, FeesMonth);
  }

  lemma ReadSlippages(p: Pool)
    ensures var d := ToDict(p);
      NumAt(d, MedianSlippage1d) == OrZero(p.medianSlippage1d)
      && NumAt(d, MedianSlippage7d) == OrZero(p.medianSlippage7d)
      && NumAt(d, MedianSlippage30d) == OrZero(p.medianSlippage30d)
  {
    ToDictAt(p, MedianSlippage1d); ToDictAt(p, MedianSlippage7d); ToDictAt(p, MedianSlippage30d);
  }

  /** `to_dict` loses nothing but the difference between an absent slippage
      and a slippage of 0. */
  lemma ToDictRoundTrip(p: Pool)
    ensures FromDict(ToDict(p)) == Normalised(p)
  {
    ReadIdentity(p);
    ReadAmounts(p);
    ReadSlippages(p);
    FromDictOf(ToDict(p), p);
  }

  lemma FieldNormalised(p: Pool, c: Column)
    ensures Field(Normalised(p), c) == Field(p, c)
  {
  }

  lemma ToDictInjective(p: Pool, q: Pool)
    ensures ToDict(p) == ToDict(q) <==> Normalised(p) == Normalised(q)
  {
    if ToDict(p) == ToDict(q) {
      ToDictRoundTrip(p);
      ToDictRoundTrip(q);
    }
    if Normalised(p) == Normalised(q) {
      forall c | c in Columns ensures ToDict(p)[c] == ToDict(q)[c] {
        FieldNormalised(p, c);
        FieldNormalised(q, c);
      }
    }
  }
}
