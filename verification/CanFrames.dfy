// What the bytes of a CAN frame mean, said without the converters: byte order and sign,
// hexadecimal digits, flags, and which values become telemetry.
module CanFrames {
  import opened Options
  import opened CanCodec

  // ---------- Integers ----------

  lemma {:induction false} NumberOfReverse(bs: seq<Byte>)
    requires bs != []
    ensures Number(Reverse(bs)) == 256 * Number(Reverse(bs[..|bs| - 1])) + bs[|bs| - 1]
  {
    ReverseSnoc(bs[..|bs| - 1], bs[|bs| - 1]);
    assert bs == bs[..|bs| - 1] + [bs[|bs| - 1]];
    assert Reverse(bs)[1..] == Reverse(bs[..|bs| - 1]);
  }

  lemma ReverseSnoc(bs: seq<Byte>, b: Byte)
    ensures Reverse(bs + [b]) == [b] + Reverse(bs)
  {}

  // Little-endian bytes begin with the lowest digit to the base 256, big-endian ones end
  // with it.
  lemma ByteOrderExactly(bs: seq<Byte>)
    ensures FromBytes([], Little, false) == Some(0) == FromBytes([], Big, false)
    ensures bs != [] ==>
      && FromBytes(bs[1..], Little, false).Some? && FromBytes(bs[..|bs| - 1], Big, false).Some?
      && FromBytes(bs, Little, false) == Some(bs[0] + 256 * FromBytes(bs[1..], Little, false).value)
      && FromBytes(bs, Big, false) == Some(256 * FromBytes(bs[..|bs| - 1], Big, false).value + bs[|bs| - 1])
  {
    if bs != [] { NumberOfReverse(bs); }
  }

  lemma TopCarries(b: Byte, u: nat, p: int, q: int)
    requires p == 256 * q
    ensures 2 * (b + 256 * u) >= 256 * p <==> 2 * u >= p
  {}

  lemma ArrangedTop(bs: seq<Byte>, order: Order)
    requires !order.UnknownOrder? && bs != []
    ensures Arrange(bs, order)[|bs| - 1] == if order.Big? then bs[0] else bs[|bs| - 1]
  {}

  lemma {:induction false} TopDigit(bs: seq<Byte>)
    requires bs != []
    ensures 2 * Number(bs) >= Power(|bs|) <==> bs[|bs| - 1] >= 128
  {
    if |bs| > 1 {
      TopDigit(bs[1..]);
      TopCarries(bs[0], Number(bs[1..]), Power(|bs| - 1), Power(|bs| - 2));
    } else {
      assert Number(bs) == bs[0] + 256 * Number(bs[1..]) && bs[1..] == [];
      assert Power(1) == 256 * Power(0);
    }
  }

  // Read as signed, bytes stand for a negative number if and only if their highest bit is
  // set: the one that is 256 to the number of bytes below the unsigned reading.
  lemma SignExactly(bs: seq<Byte>, order: Order)
    requires !order.UnknownOrder? && bs != []
    ensures FromBytes(bs, order, false).Some?
    ensures FromBytes(bs, order, true) ==
      Some(FromBytes(bs, order, false).value
           - if (if order.Big? then bs[0] else bs[|bs| - 1]) >= 128 then Power(|bs|) else 0)
  {
    hide Power, Number, Arrange;
    TopDigit(Arrange(bs, order));
    ArrangedTop(bs, order);
  }

  // ---------- Hexadecimal text ----------

  const DIGITS := "0123456789abcdef"
  const CAPITALS := "0123456789ABCDEF"

  // A byte is its higher digit, then its lower one.
  lemma ByteText(b: Byte)
    ensures ToHex([b]) == [DIGITS[b / 16], DIGITS[b % 16]]
  {
    assert [b][1..] == [];
  }

  // Digits of either case are read, and nothing else is.
  lemma DigitsReadExactly(x: char)
    ensures forall d | 0 <= d < 16 :: HexValue(x) == Some(d) <==> x == DIGITS[d] || x == CAPITALS[d]
  {}

  lemma TwoDigits(x: char, y: char, rest: string, bs: seq<Byte>)
    requires HexValue(x).Some? && HexValue(y).Some? && !IsSpace(x) && FromHex(rest) == Some(bs)
    ensures FromHex([x, y] + rest) == Some([16 * HexValue(x).value + HexValue(y).value] + bs)
  {
    assert ([x, y] + rest)[2..] == rest;
  }

  // Two digits make a byte, and blanks between bytes are passed over.
  lemma PairText(d: int, e: int, rest: string, bs: seq<Byte>)
    requires 0 <= d < 16 && 0 <= e < 16 && FromHex(rest) == Some(bs)
    ensures FromHex([DIGITS[d], DIGITS[e]] + rest) == Some([16 * d + e] + bs)
    ensures FromHex([DIGITS[d], DIGITS[e]] + (" " + rest)) == Some([16 * d + e] + bs)
  {
    DigitValue(d);
    DigitValue(e);
    assert (" " + rest)[1..] == rest && FromHex(" " + rest) == Some(bs);
    hide FromHex, HexValue, IsSpace, DIGITS, CAPITALS;
    TwoDigits(DIGITS[d], DIGITS[e], rest, bs);
    TwoDigits(DIGITS[d], DIGITS[e], " " + rest, bs);
  }

  lemma DigitValue(d: int)
    requires 0 <= d < 16
    ensures HexValue(DIGITS[d]) == Some(d) && !IsSpace(DIGITS[d])
  {}

  // ---------- The bytes of a value ----------

  // Inside the frame a value has the bytes from its start on, as many as its length says, or
  // all that follow.
  lemma PartExactly(c: UpConfig, data: seq<Byte>)
    requires 0 <= c.start <= |data|
    ensures c.length == None || c.length == Some(-1) ==> Part(c, data) == data[c.start..]
    ensures c.length.Some? && 0 <= c.length.value <= |data| - c.start ==>
      Part(c, data) == data[c.start..c.start + c.length.value]
    ensures c.length.Some? && c.length.value > |data| - c.start ==> Part(c, data) == data[c.start..]
  {}

  // With a start counted from the end it has them too, unless they reach the end: then it has
  // none.
  lemma PartFromTheEnd(c: UpConfig, data: seq<Byte>)
    requires -|data| <= c.start < 0 && c.length.Some? && 0 <= c.length.value <= -c.start
    ensures Part(c, data) == if c.length.value == -c.start then []
                             else data[|data| + c.start..|data| + c.start + c.length.value]
  {}

  // A raw value is the hexadecimal text of these bytes, a number what they stand for.
  lemma ReadsItsPart(c: UpConfig, data: seq<Byte>)
    ensures c.kind.Raw? ==> exists text :: ReadValue(c, data) == Some(TextReading(text))
                                           && FromHex(text) == Some(Part(c, data))
    ensures c.kind.Int? && !c.order.UnknownOrder? ==>
      exists v :: ReadValue(c, data) == Some(IntReading(v)) && FromBytes(Part(c, data), c.order, c.signed) == Some(v)
  {
    HexRoundTrip(Part(c, data));
    if c.kind.Raw? { assert ReadValue(c, data) == Some(TextReading(ToHex(Part(c, data)))); }
    if c.kind.Int? && !c.order.UnknownOrder? {
      assert ReadValue(c, data) == Some(IntReading(FromBytes(Part(c, data), c.order, c.signed).value));
    }
  }

  // ---------- What is sent ----------

  // Hexadecimal data of the request is sent as it is, whatever its value; without a value and
  // without such data, or without a request, nothing is.
  lemma HexDataIsSent(c: DownConfig, data: Data, bs: seq<Byte>)
    requires c.dataInHex == ""
    ensures data.Data? && bs != [] && data.dataInHex == ToHex(bs) ==> Downlink(c, data) == Some(bs)
    ensures data.NoData? || (data.dataInHex == "" && data.value == None) ==> Downlink(c, data) == None
  {
    HexRoundTrip(bs);
  }

  // ---------- Flags ----------

  // A flag is sent as one byte between the bytes before and after, and read back from there,
  // counted from the front or from the back.
  lemma FlagRoundTrip(c: DownConfig, data: Data, flag: bool, u: UpConfig, before: seq<Byte>, after: seq<Byte>)
    requires c.dataInHex == "" && data.Data? && data.dataInHex == "" && data.value == Some(Bool(flag))
    requires FromHex(c.before) == Some(before) && FromHex(c.after) == Some(after)
    requires u.kind.Flag? && (u.start == |before| || u.start == -|after| - 1)
    ensures Downlink(c, data) == Some(before + [if flag then 1 else 0] + after)
    ensures ReadValue(u, before + [if flag then 1 else 0] + after) == Some(BoolReading(flag))
  {}

  // Any byte but zero is read as a set flag; outside the frame there is none.
  lemma FlagReadExactly(u: UpConfig, data: seq<Byte>)
    requires u.kind.Flag?
    ensures 0 <= u.start < |data| ==> ReadValue(u, data) == Some(BoolReading(data[u.start] != 0))
    ensures -|data| <= u.start < 0 ==> ReadValue(u, data) == Some(BoolReading(data[|data| + u.start] != 0))
    ensures !(-|data| <= u.start < |data|) ==> ReadValue(u, data) == None
  {}

  // ---------- Telemetry and attributes ----------

  // The value is configured, as telemetry or not, and could be read.
  ghost predicate Yields(configs: seq<UpConfig>, data: seq<Byte>, key: string, v: Reading, telemetry: bool) {
    exists i :: 0 <= i < |configs| && configs[i].key == Some(key) && configs[i].telemetry == Some(telemetry)
                && ReadValue(configs[i], data) == Some(v)
  }

  lemma YieldsSnoc(configs: seq<UpConfig>, n: nat, data: seq<Byte>, key: string, v: Reading, telemetry: bool)
    requires |configs| == n + 1
    ensures Yields(configs, data, key, v, telemetry) <==>
      Yields(configs[..n], data, key, v, telemetry)
      || (configs[n].key == Some(key) && configs[n].telemetry == Some(telemetry)
          && ReadValue(configs[n], data) == Some(v))
  {
    hide ReadValue;
    assert forall i | 0 <= i < n :: configs[..n][i] == configs[i];
  }

  lemma {:induction false} ListedExactly(configs: seq<UpConfig>, data: seq<Byte>, key: string, v: Reading,
                                         telemetry: bool)
    ensures (key, v) in Uplink(configs, data, telemetry) <==> Yields(configs, data, key, v, telemetry)
  {
    if configs != [] {
      hide ReadValue, Yields;
      var n := |configs| - 1;
      ListedExactly(configs[..n], data, key, v, telemetry);
      YieldsSnoc(configs, n, data, key, v, telemetry);
    }
  }

  // Telemetry are exactly the values that were read and are configured as such, attributes
  // exactly those that are configured not to be.
  lemma ValuesLandExactly(configs: seq<UpConfig>, data: seq<Byte>, key: string, v: Reading)
    requires Uplinked(configs, data).Some?
    ensures (key, v) in Uplinked(configs, data).value.telemetry <==> Yields(configs, data, key, v, true)
    ensures (key, v) in Uplinked(configs, data).value.attributes <==> Yields(configs, data, key, v, false)
  {
    ListedExactly(configs, data, key, v, true);
    ListedExactly(configs, data, key, v, false);
  }

  // They come in the order in which they are configured.
  lemma ValuesComeInOrder(a: seq<UpConfig>, b: seq<UpConfig>, data: seq<Byte>)
    requires Uplinked(a + b, data).Some? && Uplinked(a, data).Some? && Uplinked(b, data).Some?
    ensures var all, first, second := Uplinked(a + b, data).value, Uplinked(a, data).value, Uplinked(b, data).value;
      && all.telemetry == first.telemetry + second.telemetry
      && all.attributes == first.attributes + second.attributes
  {
    ValuesAreIndependent(a, b, data, true);
    ValuesAreIndependent(a, b, data, false);
  }
}
