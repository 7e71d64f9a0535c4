/** The outpoint codecs: the 37-byte key, the packed market funds form, and the JSON wire form. */
module OutPoints {
  import opened Rows

  // ----- Little-endian u32

  function PutUint32(v: uint32): (b: seq<byte>)
    ensures |b| == 4
  {
    [v % 0x100, (v / 0x100) % 0x100, (v / 0x1_0000) % 0x100, v / 0x100_0000]
  }

  function Uint32(b: seq<byte>): uint32
    requires |b| == 4
  {
    var b0: int, b1: int, b2: int, b3: int := b[0], b[1], b[2], b[3];
    b0 + 0x100 * b1 + 0x1_0000 * b2 + 0x100_0000 * b3
  }

  lemma Uint32RoundTrip(v: uint32)
    ensures Uint32(PutUint32(v)) == v
  {
    var q := v / 0x100;
    var r := q / 0x100;
    Shifts(v);
    assert v == v % 0x100 + 0x100 * q && q == q % 0x100 + 0x100 * r && r == r % 0x100 + 0x100 * (r / 0x100);
  }

  lemma LowByte(lo: int, hi: int)
    requires 0 <= lo < 0x100 && hi >= 0
    ensures (lo + 0x100 * hi) % 0x100 == lo && (lo + 0x100 * hi) / 0x100 == hi
  {
  }

  lemma Shifts(v: int)
    requires v >= 0
    ensures v / 0x1_0000 == (v / 0x100) / 0x100 && v / 0x100_0000 == (v / 0x1_0000) / 0x100
  {
  }

  lemma PutUint32RoundTrip(b: seq<byte>)
    requires |b| == 4
    ensures PutUint32(Uint32(b)) == b
  {
    var b0: int, b1: int, b2: int, b3: int := b[0], b[1], b[2], b[3];
    LowByte(b2, b3);
    LowByte(b1, b2 + 0x100 * b3);
    LowByte(b0, b1 + 0x100 * (b2 + 0x100 * b3));
    assert Uint32(b) == b0 + 0x100 * (b1 + 0x100 * (b2 + 0x100 * b3));
    Shifts(Uint32(b));
  }

  // ----- The table key

  const KEY_SIZE: nat := 37

  function KeyOf(o: OutPoint): (key: seq<byte>)
    ensures |key| == KEY_SIZE
  {
    [o.kind] + o.source + PutUint32(o.vout)
  }

  function FromKey(key: seq<byte>): Option<OutPoint>
    requires |key| == KEY_SIZE
  {
    if key[0] > KIND_PAYOUT then None else Some(OutPoint(key[0], key[1..33], Uint32(key[33..])))
  }

  /** Key fills a fixed buffer: the kind, the hash, the little-endian vout. */
  method Key(o: OutPoint) returns (key: array<byte>)
    ensures fresh(key) && key[..] == KeyOf(o)
  {
    key := new byte[KEY_SIZE](i => 0);
    key[0] := o.kind;
    for i := 0 to 32
      invariant key[0] == o.kind && key[1..1 + i] == o.source[..i]
    {
      key[1 + i] := o.source[i];
      assert key[1..2 + i] == key[1..1 + i] + [o.source[i]];
    }
    var tail := PutUint32(o.vout);
    key[33], key[34], key[35], key[36] := tail[0], tail[1], tail[2], tail[3];
    assert key[..] == [o.kind] + key[1..33] + tail;
    assert o.source[..32] == o.source;
  }

  /** Reading a key back gives the outpoint, on the five kinds and no other. */
  /** One byte for the kind, the source, and the output number with its low byte first. */
  lemma KeyLayout(o: OutPoint)
    ensures var key := KeyOf(o);
      && key[0] == o.kind && key[1..33] == o.source
      && o.vout == key[33] + 0x100 * (key[34] as int) + 0x1_0000 * (key[35] as int) + 0x100_0000 * (key[36] as int)
  {
    var key := KeyOf(o);
    Uint32RoundTrip(o.vout);
    assert key[33..] == PutUint32(o.vout);
    assert key[33] == key[33..][0] && key[34] == key[33..][1] && key[35] == key[33..][2] && key[36] == key[33..][3];
  }

  lemma KeyRoundTrip(o: OutPoint)
    ensures FromKey(KeyOf(o)) == if o.kind <= KIND_PAYOUT then Some(o) else None
  {
    var key := KeyOf(o);
    assert key[1..33] == o.source && key[33..] == PutUint32(o.vout);
    Uint32RoundTrip(o.vout);
  }

  /** Every key that reads back at all is the key of what it reads as. */
  lemma FromKeyRoundTrip(key: seq<byte>)
    requires |key| == KEY_SIZE && FromKey(key).Some?
    ensures KeyOf(FromKey(key).value) == key
  {
    PutUint32RoundTrip(key[33..]);
    assert key == [key[0]] + key[1..33] + key[33..];
  }

  /** Distinct outpoints have distinct keys, so a byte-keyed table is an outpoint-keyed one. */
  lemma KeyInjective(a: OutPoint, b: OutPoint)
    ensures KeyOf(a) == KeyOf(b) <==> a == b
  {
    if KeyOf(a) == KeyOf(b) {
      assert a.kind == KeyOf(a)[0] == b.kind;
      assert a.source == KeyOf(a)[1..33] == b.source;
      assert PutUint32(a.vout) == KeyOf(a)[33..] == PutUint32(b.vout);
      Uint32RoundTrip(a.vout);
      Uint32RoundTrip(b.vout);
    }
  }

  type Keying = OutPoint -> seq<byte>

  ghost predicate Injective(key: Keying) {
    forall p, q :: key(p) == key(q) ==> p == q
  }

  /** `keyed` is the byte-keyed image of `table`. */
  ghost predicate Mirrors<V>(key: Keying, table: map<OutPoint, V>, keyed: map<seq<byte>, V>) {
    && (forall p | p in table :: key(p) in keyed && keyed[key(p)] == table[p])
    && (forall k | k in keyed :: exists p | p in table :: key(p) == k)
  }

  lemma MirrorsInsert<V>(key: Keying, table: map<OutPoint, V>, keyed: map<seq<byte>, V>, o: OutPoint, v: V)
    requires Injective(key) && Mirrors(key, table, keyed)
    ensures Mirrors(key, table[o := v], keyed[key(o) := v])
  {
    var more, image := table[o := v], keyed[key(o) := v];
    forall k | k in image
      ensures exists p | p in more :: key(p) == k
    {
      if k == key(o) {
        assert o in more;
      } else {
        var p :| p in table && key(p) == k;
        assert p in more;
      }
    }
  }

  lemma MirrorsDelete<V>(key: Keying, table: map<OutPoint, V>, keyed: map<seq<byte>, V>, o: OutPoint)
    requires Injective(key) && Mirrors(key, table, keyed)
    ensures Mirrors(key, table - {o}, keyed - {key(o)})
  {
    var less, image := table - {o}, keyed - {key(o)};
    forall p | p in less
      ensures key(p) in image && image[key(p)] == less[p]
    {
      assert p in table && key(p) != key(o);
    }
    forall k | k in image
      ensures exists p | p in less :: key(p) == k
    {
      var p :| p in table && key(p) == k;
      assert p in less;
    }
  }

  /**
   The byte-keyed image of an outpoint-keyed table answers every lookup the same way, and stays its image under
   insert, update and delete by key.
   */
  lemma KeyedTableSimulates<V>(table: map<OutPoint, V>, keyed: map<seq<byte>, V>, o: OutPoint, v: V)
    requires Mirrors(KeyOf, table, keyed)
    ensures KeyOf(o) in keyed <==> o in table
    ensures o in table ==> keyed[KeyOf(o)] == table[o]
    ensures Mirrors(KeyOf, table[o := v], keyed[KeyOf(o) := v])
    ensures Mirrors(KeyOf, table - {o}, keyed - {KeyOf(o)})
  {
    forall p: OutPoint, q: OutPoint
      ensures KeyOf(p) == KeyOf(q) ==> p == q
    {
      KeyInjective(p, q);
    }
    assert Injective(KeyOf);
    MirrorsInsert(KeyOf, table, keyed, o, v);
    MirrorsDelete(KeyOf, table, keyed, o);
  }

  // ----- Market funds, packed into the hash

  function Zeros(n: nat): (r: seq<byte>)
    ensures |r| == n && forall i | 0 <= i < n :: r[i] == 0
  {
    seq(n, i => 0)
  }

  function MarketFundsOutPoint(marketId: seq<byte>, height: uint32, isFee: bool): OutPoint
    requires |marketId| == 6
  {
    OutPoint(KIND_MARKET_FUNDS, marketId + PutUint32(height) + [if isFee then 1 else 0] + Zeros(21), 0)
  }

  function MarketFunds(o: OutPoint): (seq<byte>, uint32, bool) {
    (o.source[..6], Uint32(o.source[6..10]), o.source[10] == 1)
  }

  /** The canonical packed form: flag 0 or 1, zero padding, zero vout. */
  predicate Canonical(o: OutPoint) {
    o.source[10] <= 1 && o.source[11..] == Zeros(21) && o.vout == 0
  }

  lemma MarketFundsRoundTrip(marketId: seq<byte>, height: uint32, isFee: bool)
    requires |marketId| == 6
    ensures MarketFunds(MarketFundsOutPoint(marketId, height, isFee)) == (marketId, height, isFee)
    ensures Canonical(MarketFundsOutPoint(marketId, height, isFee))
  {
    var o := MarketFundsOutPoint(marketId, height, isFee);
    assert o.source[..6] == marketId && o.source[6..10] == PutUint32(height) && o.source[11..] == Zeros(21);
    Uint32RoundTrip(height);
  }

  /** Six bytes of market id, the height with its low byte first, the flag, and zeros. */
  lemma MarketFundsLayout(marketId: seq<byte>, height: uint32, isFee: bool)
    requires |marketId| == 6
    ensures var o := MarketFundsOutPoint(marketId, height, isFee);
      && o.kind == KIND_MARKET_FUNDS && o.vout == 0 && o.source[..6] == marketId
      && height == o.source[6] + 0x100 * (o.source[7] as int) + 0x1_0000 * (o.source[8] as int)
                   + 0x100_0000 * (o.source[9] as int)
      && o.source[10] == (if isFee then 1 else 0) && forall i | 11 <= i < 32 :: o.source[i] == 0
  {
    var s := MarketFundsOutPoint(marketId, height, isFee).source;
    Uint32RoundTrip(height);
    assert s[..6] == marketId && s[6..10] == PutUint32(height) && s[11..] == Zeros(21);
    assert s[6] == s[6..10][0] && s[7] == s[6..10][1] && s[8] == s[6..10][2] && s[9] == s[6..10][3];
    assert forall i | 11 <= i < 32 :: s[i] == s[11..][i - 11];
  }

  /** Unpacking and packing again restores a market funds outpoint exactly when it is canonical. */
  lemma RepackIsCanonical(o: OutPoint)
    requires o.kind == KIND_MARKET_FUNDS
    ensures var m := MarketFunds(o); MarketFundsOutPoint(m.0, m.1, m.2) == o <==> Canonical(o)
  {
    var m := MarketFunds(o);
    var p := MarketFundsOutPoint(m.0, m.1, m.2);
    MarketFundsRoundTrip(m.0, m.1, m.2);
    if Canonical(o) {
      PutUint32RoundTrip(o.source[6..10]);
      assert o.source == o.source[..6] + o.source[6..10] + [o.source[10]] + o.source[11..];
    }
  }

  // ----- Hex and decimal text

  const DIGITS: string := "0123456789abcdef"

  function HexDigit(n: nat): char
    requires n < 16
  {
    DIGITS[n]
  }

  function HexValue(c: char): Option<nat> {
    if '0' <= c <= '9' then Some(c as int - '0' as int)
    else if 'a' <= c <= 'f' then Some(c as int - 'a' as int + 10)
    else if 'A' <= c <= 'F' then Some(c as int - 'A' as int + 10)
    else None
  }

  function EncodeHex(b: seq<byte>): string {
    if b == [] then "" else [HexDigit(b[0] / 16), HexDigit(b[0] % 16)] + EncodeHex(b[1..])
  }

  function DecodeHex(s: string): Option<seq<byte>> {
    if s == "" then Some([])
    else if |s| == 1 then None
    else
      match (HexValue(s[0]), HexValue(s[1]), DecodeHex(s[2..]))
      case (Some(hi), Some(lo), Some(rest)) => if hi < 16 && lo < 16 then Some([16 * hi + lo] + rest) else None
      case _ => None
  }

  lemma HexDigitRoundTrip(n: nat)
    requires n < 16
    ensures HexValue(HexDigit(n)) == Some(n) && HexDigit(n) != ':'
  {
  }

  /** Two digits in front decode to one byte in front. */
  lemma DecodeHexCons(x: byte, text: string, rest: seq<byte>)
    requires DecodeHex(text) == Some(rest)
    ensures DecodeHex([HexDigit(x / 16), HexDigit(x % 16)] + text) == Some([x] + rest)
  {
    var s := [HexDigit(x / 16), HexDigit(x % 16)] + text;
    HexDigitRoundTrip(x / 16);
    HexDigitRoundTrip(x % 16);
    assert s[2..] == text;
  }

  lemma {:induction false} HexRoundTrip(b: seq<byte>)
    ensures DecodeHex(EncodeHex(b)) == Some(b)
    decreases |b|
  {
    if b == [] {
    } else {
      HexRoundTrip(b[1..]);
      DecodeHexCons(b[0], EncodeHex(b[1..]), b[1..]);
      assert b == [b[0]] + b[1..];
    }
  }

  predicate LowerHex(c: char) {
    '0' <= c <= '9' || 'a' <= c <= 'f'
  }

  /** Two lower-case digits for each byte, in the order of the bytes. */
  lemma {:induction false} HexText(b: seq<byte>, i: nat)
    requires i < |b|
    ensures |EncodeHex(b)| == 2 * |b|
    ensures var hi, lo := EncodeHex(b)[2 * i], EncodeHex(b)[2 * i + 1];
      LowerHex(hi) && LowerHex(lo) && HexValue(hi) == Some(b[i] / 16) && HexValue(lo) == Some(b[i] % 16)
    decreases |b|
  {
    HexDigitRoundTrip(b[0] / 16);
    HexDigitRoundTrip(b[0] % 16);
    if |b| == 1 {
      assert b[1..] == [];
    } else if i == 0 {
      HexText(b[1..], 0);
    } else {
      HexText(b[1..], i - 1);
      var rest := EncodeHex(b[1..]);
      assert EncodeHex(b)[2 * i] == rest[2 * (i - 1)] && EncodeHex(b)[2 * i + 1] == rest[2 * (i - 1) + 1];
    }
  }

  lemma {:induction false} HexHasNoColon(b: seq<byte>)
    ensures ':' !in EncodeHex(b)
    decreases |b|
  {
    if b == [] {
    } else {
      HexHasNoColon(b[1..]);
      HexDigitRoundTrip(b[0] / 16);
      HexDigitRoundTrip(b[0] % 16);
    }
  }

  function Reversed(b: seq<byte>): (r: seq<byte>)
    ensures |r| == |b| && forall i | 0 <= i < |b| :: r[i] == b[|b| - 1 - i]
  {
    seq(|b|, i requires 0 <= i < |b| => b[|b| - 1 - i])
  }

  /** A mainchain hash prints its bytes last first. */
  method FlipHash(h: Hash) returns (flipped: array<byte>)
    ensures fresh(flipped) && flipped[..] == Reversed(h)
  {
    flipped := new byte[32](i => 0);
    for i := 0 to 32
      invariant forall j | 0 <= j < i :: flipped[31 - j] == h[j]
    {
      flipped[31 - i] := h[i];
    }
    forall k | 0 <= k < 32
      ensures flipped[k] == h[31 - k]
    {
      assert flipped[31 - (31 - k)] == h[31 - k];
    }
  }

  function BitcoinText(h: Hash): string {
    EncodeHex(Reversed(h))
  }

  function ParseBitcoinHash(s: string): Option<Hash> {
    match DecodeHex(s)
    case Some(raw) => if |raw| == 32 then Some(Reversed(raw)) else None
    case None => None
  }

  lemma BitcoinHashRoundTrip(h: Hash)
    ensures ParseBitcoinHash(BitcoinText(h)) == Some(h)
  {
    HexRoundTrip(Reversed(h));
    assert Reversed(Reversed(h)) == h;
  }

  /** The text of a mainchain hash shows its last byte first. */
  lemma BitcoinTextReversed(h: Hash, i: nat)
    requires i < 32
    ensures |BitcoinText(h)| == 64
    ensures HexValue(BitcoinText(h)[2 * i]) == Some(h[31 - i] / 16)
    ensures HexValue(BitcoinText(h)[2 * i + 1]) == Some(h[31 - i] % 16)
  {
    HexText(Reversed(h), i);
  }

  function Decimal(n: nat): string {
    if n < 10 then [HexDigit(n)] else Decimal(n / 10) + [HexDigit(n % 10)]
  }

  /** The value of a run of decimal digits. */
  function DecimalValue(s: string): Option<nat> {
    if s == "" then Some(0) else
      var last := s[|s| - 1];
      match DecimalValue(s[..|s| - 1])
      case Some(v) => if '0' <= last <= '9' then Some(10 * v + (last as int - '0' as int)) else None
      case None => None
  }

  /** ParseUint(text, 10, 32): digits only, at least one, at most the largest u32. */
  function ParseUint32(s: string): Option<uint32> {
    if s == "" then None else
      match DecimalValue(s)
      case Some(v) => if v < 0x1_0000_0000 then Some(v) else None
      case None => None
  }

  /** One more digit behind. */
  lemma DecimalValueSnoc(text: string, v: nat, digit: nat)
    requires DecimalValue(text) == Some(v) && digit < 10
    ensures DecimalValue(text + [HexDigit(digit)]) == Some(10 * v + digit)
  {
    var s := text + [HexDigit(digit)];
    assert s[..|s| - 1] == text && s[|s| - 1] == HexDigit(digit);
    assert HexDigit(digit) as int == '0' as int + digit;
  }

  lemma {:induction false} DecimalRoundTrip(n: nat)
    ensures Decimal(n) != "" && DecimalValue(Decimal(n)) == Some(n)
    decreases n
  {
    if n < 10 {
      DecimalValueSnoc("", 0, n);
      assert "" + [HexDigit(n)] == [HexDigit(n)];
    } else {
      DecimalRoundTrip(n / 10);
      DecimalValueSnoc(Decimal(n / 10), n / 10, n % 10);
    }
  }

  // ----- The "txid:vout" text of a deposit

  /** The index of the first colon, or the length when there is none. */
  function ColonAt(s: string): (i: nat)
    ensures i <= |s| && ':' !in s[..i] && (i < |s| ==> s[i] == ':')
  {
    if s == "" then 0
    else if s[0] == ':' then 0
    else
      var i := 1 + ColonAt(s[1..]);
      assert s[..i] == [s[0]] + s[1..][..i - 1];
      i
  }

  function DepositText(o: OutPoint): string {
    BitcoinText(o.source) + ":" + Decimal(o.vout)
  }

  function ParseDeposit(text: string): Option<OutPoint> {
    var i := ColonAt(text);
    if i == |text| then None else
      match (ParseUint32(text[i + 1..]), ParseBitcoinHash(text[..i]))
      case (Some(vout), Some(txid)) => Some(OutPoint(KIND_DEPOSIT, txid, vout))
      case _ => None
  }

  lemma {:induction false} ColonBetween(a: string, b: string)
    requires ':' !in a
    ensures ColonAt(a + ":" + b) == |a|
    decreases |a|
  {
    var s := a + ":" + b;
    if a == "" {
    } else {
      assert s[0] == a[0] && s[1..] == a[1..] + ":" + b;
      ColonBetween(a[1..], b);
    }
  }

  lemma DepositRoundTrip(o: OutPoint)
    requires o.kind == KIND_DEPOSIT
    ensures ParseDeposit(DepositText(o)) == Some(o)
  {
    var hex, dec := BitcoinText(o.source), Decimal(o.vout);
    HexHasNoColon(Reversed(o.source));
    ColonBetween(hex, dec);
    var text := DepositText(o);
    assert text[..|hex|] == hex && text[|hex| + 1..] == dec;
    BitcoinHashRoundTrip(o.source);
    DecimalRoundTrip(o.vout);
  }

  // ----- The JSON wire form

  datatype CoinbaseWire = CoinbaseWire(txid: Option<Hash>, merkleRoot: Option<Hash>, vout: uint32)

  datatype MarketWire = MarketWire(marketId: seq<byte>, height: uint32, isFee: bool)

  /** The decoded JSON object: any of its members may be present. */
  datatype Wire = Wire(
    regular: Option<(Hash, uint32)>,
    coinbase: Option<CoinbaseWire>,
    deposit: Option<string>,
    marketFunds: Option<MarketWire>,
    payout: Option<(Hash, uint32)>)

  const NO_VARIANT := Wire(None, None, None, None, None)

  function Marshal(o: OutPoint): Option<Wire> {
    if o.kind == KIND_REGULAR then Some(NO_VARIANT.(regular := Some((o.source, o.vout))))
    else if o.kind == KIND_COINBASE then Some(NO_VARIANT.(coinbase := Some(CoinbaseWire(Some(o.source), None, o.vout))))
    else if o.kind == KIND_DEPOSIT then Some(NO_VARIANT.(deposit := Some(DepositText(o))))
    else if o.kind == KIND_MARKET_FUNDS then
      var m := MarketFunds(o);
      Some(NO_VARIANT.(marketFunds := Some(MarketWire(m.0, m.1, m.2))))
    else if o.kind == KIND_PAYOUT then Some(NO_VARIANT.(payout := Some((o.source, o.vout))))
    else None
  }

  /** Reads the first variant present, in the order the fields are tried. */
  function Unmarshal(w: Wire): Option<OutPoint> {
    if w.regular.Some? then Some(OutPoint(KIND_REGULAR, w.regular.value.0, w.regular.value.1))
    else if w.coinbase.Some? then
      var c := w.coinbase.value;
      if c.txid.Some? then Some(OutPoint(KIND_COINBASE, c.txid.value, c.vout))
      else if c.merkleRoot.Some? then Some(OutPoint(KIND_COINBASE, c.merkleRoot.value, c.vout))
      else None
    else if w.deposit.Some? then ParseDeposit(w.deposit.value)
    else if w.marketFunds.Some? then
      var m := w.marketFunds.value;
      if |m.marketId| == 6 then Some(MarketFundsOutPoint(m.marketId, m.height, m.isFee)) else None
    else if w.payout.Some? then Some(OutPoint(KIND_PAYOUT, w.payout.value.0, w.payout.value.1))
    else None
  }

  /** Every outpoint of the five kinds encodes; it decodes to itself exactly when market funds are canonical. */
  lemma WireRoundTrip(o: OutPoint)
    ensures Marshal(o).Some? <==> o.kind <= KIND_PAYOUT
    ensures Marshal(o).Some? ==>
      (Unmarshal(Marshal(o).value) == Some(o) <==> (o.kind == KIND_MARKET_FUNDS ==> Canonical(o)))
  {
    if o.kind == KIND_DEPOSIT {
      DepositRoundTrip(o);
    } else if o.kind == KIND_MARKET_FUNDS {
      RepackIsCanonical(o);
    }
  }

  /** Each kind is written under its own member and no other; a coinbase by its txid. */
  lemma WireMembers(o: OutPoint)
    requires o.kind <= KIND_PAYOUT
    ensures var w := Marshal(o).value;
      && (w.regular == if o.kind == KIND_REGULAR then Some((o.source, o.vout)) else None)
      && (w.coinbase.Some? <==> o.kind == KIND_COINBASE)
      && (w.deposit.Some? <==> o.kind == KIND_DEPOSIT)
      && (w.marketFunds.Some? <==> o.kind == KIND_MARKET_FUNDS)
      && (w.payout == if o.kind == KIND_PAYOUT then Some((o.source, o.vout)) else None)
    ensures o.kind == KIND_COINBASE ==>
              Marshal(o).value.coinbase == Some(CoinbaseWire(Some(o.source), None, o.vout))
    ensures o.kind == KIND_DEPOSIT ==>
              forall c | c in Marshal(o).value.deposit.value :: LowerHex(c) || c == ':'
  {
    if o.kind == KIND_DEPOSIT {
      HexIsLower(Reversed(o.source));
      DecimalIsLower(o.vout);
    }
  }

  lemma {:induction false} HexIsLower(b: seq<byte>)
    ensures forall c | c in EncodeHex(b) :: LowerHex(c)
    decreases |b|
  {
    if b == [] {
    } else {
      HexIsLower(b[1..]);
      HexDigitRoundTrip(b[0] / 16);
      HexDigitRoundTrip(b[0] % 16);
    }
  }

  lemma {:induction false} DecimalIsLower(n: nat)
    ensures forall c | c in Decimal(n) :: LowerHex(c)
    decreases n
  {
    if n < 10 {
    } else {
      DecimalIsLower(n / 10);
    }
  }

  /** A node that names a coinbase by its merkle root is read too; where both are named the txid counts. */
  lemma CoinbaseEitherWay(txid: Option<Hash>, root: Hash, vout: uint32)
    ensures Unmarshal(NO_VARIANT.(coinbase := Some(CoinbaseWire(txid, Some(root), vout))))
         == Some(OutPoint(KIND_COINBASE, if txid.Some? then txid.value else root, vout))
  {
  }
}
