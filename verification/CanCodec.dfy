// The CAN converters: values to frames and frames to values.
module CanCodec {
  import opened Options
  import opened Sequences

  type Byte = b: int | 0 <= b < 256

  datatype Order = Big | Little | UnknownOrder

  // ---------- Integers as bytes ----------

  function Power(n: nat): (p: int)
    ensures p >= 1
  {
    if n == 0 then 1 else 256 * Power(n - 1)
  }

  // The n lowest digits of u to the base 256, lowest first.
  function Digits(u: nat, n: nat): (bs: seq<Byte>)
    ensures |bs| == n
  {
    if n == 0 then [] else [u % 256] + Digits(u / 256, n - 1)
  }

  function Number(bs: seq<Byte>): (u: nat)
    ensures u < Power(|bs|)
  {
    if bs == [] then 0 else bs[0] + 256 * Number(bs[1..])
  }

  function Reverse(bs: seq<Byte>): (r: seq<Byte>)
    ensures |r| == |bs| && forall i | 0 <= i < |bs| :: r[i] == bs[|bs| - 1 - i]
  {
    if bs == [] then [] else Reverse(bs[1..]) + [bs[0]]
  }

  function Arrange(bs: seq<Byte>, order: Order): (r: seq<Byte>)
    ensures |r| == |bs|
  {
    if order.Big? then Reverse(bs) else bs
  }

  // int.to_bytes fails on a value that the bytes cannot represent.
  predicate Fits(v: int, n: nat, signed: bool) {
    if signed then -Power(n) <= 2 * v < Power(n) else 0 <= v < Power(n)
  }

  function Residue(v: int, n: nat): int { if v < 0 then v + Power(n) else v }

  function ToBytes(v: int, n: int, order: Order, signed: bool): Option<seq<Byte>> {
    if n < 0 || order.UnknownOrder? || !Fits(v, n, signed) then None
    else Some(Arrange(Digits(Residue(v, n), n), order))
  }

  function Signed(u: nat, n: nat): int { if 2 * u >= Power(n) && n > 0 then u - Power(n) else u }

  function FromBytes(bs: seq<Byte>, order: Order, signed: bool): Option<int> {
    if order.UnknownOrder? then None
    else if signed then Some(Signed(Number(Arrange(bs, order)), |bs|))
    else Some(Number(Arrange(bs, order)))
  }

  // ---------- Bytes as hexadecimal text ----------

  function HexDigit(d: int): char
    requires 0 <= d < 16
  {
    if d < 10 then ('0' as int + d) as char else ('a' as int + d - 10) as char
  }

  function HexValue(c: char): (d: Option<int>)
    ensures d.Some? ==> 0 <= d.value < 16
  {
    if '0' <= c <= '9' then Some(c as int - '0' as int)
    else if 'a' <= c <= 'f' then Some(c as int - 'a' as int + 10)
    else if 'A' <= c <= 'F' then Some(c as int - 'A' as int + 10)
    else None
  }

  predicate IsSpace(c: char) { c == ' ' || 9 <= c as int <= 13 }

  function ToHex(bs: seq<Byte>): string {
    if bs == [] then "" else [HexDigit(bs[0] / 16), HexDigit(bs[0] % 16)] + ToHex(bs[1..])
  }

  // bytearray.fromhex: pairs of digits, space allowed between the pairs.
  function FromHex(s: string): Option<seq<Byte>> {
    if s == "" then Some([])
    else if IsSpace(s[0]) then FromHex(s[1..])
    else if |s| < 2 || HexValue(s[0]).None? || HexValue(s[1]).None? || FromHex(s[2..]).None? then None
    else Some([16 * HexValue(s[0]).value + HexValue(s[1]).value] + FromHex(s[2..]).value)
  }

  // ---------- Values to frames ----------

  // A text or float value comes with the bytes the library gives for it, if any.
  datatype Value = Bool(flag: bool) | Integer(number: int) | Library(bytes: Option<seq<Byte>>)

  datatype DownConfig = DownConfig(dataInHex: string, before: string, after: string, length: int, order: Order,
                                   signed: bool)

  datatype Data = NoData | Data(dataInHex: string, value: Option<Value>)

  function ValueBytes(c: DownConfig, v: Value): Option<seq<Byte>> {
    match v
    case Bool(flag) => Some([if flag then 1 else 0])
    case Integer(k) => ToBytes(k, c.length, c.order, c.signed || k < 0)
    case Library(bytes) => bytes
  }

  function Join(a: Option<seq<Byte>>, b: Option<seq<Byte>>): Option<seq<Byte>> {
    if a.None? || b.None? then None else Some(a.value + b.value)
  }

  function Downlink(c: DownConfig, data: Data): Option<seq<Byte>> {
    if c.dataInHex != "" then FromHex(c.dataInHex)
    else if data.NoData? then None
    else if data.dataInHex != "" then FromHex(data.dataInHex)
    else if data.value.None? then None
    else Join(Join(FromHex(c.before), ValueBytes(c, data.value.value)), FromHex(c.after))
  }

  method ConvertDown(c: DownConfig, data: Data) returns (frame: Option<seq<Byte>>)
    ensures frame == Downlink(c, data)
  {
    if c.dataInHex != "" { return FromHex(c.dataInHex); }
    if data.NoData? { return None; }
    if data.dataInHex != "" { return FromHex(data.dataInHex); }
    if data.value.None? { return None; }
    var canData: seq<Byte> := [];
    if c.before != "" {
      var bytes := FromHex(c.before);
      if bytes.None? { return None; }
      canData := canData + bytes.value;
    }
    assert FromHex(c.before).Some? && canData == FromHex(c.before).value;
    match data.value.value {
      case Bool(flag) => canData := canData + [if flag then 1 else 0];
      case Integer(k) =>
        var bytes := ToBytes(k, c.length, c.order, c.signed || k < 0);
        if bytes.None? { return None; }
        canData := canData + bytes.value;
      case Library(bytes) =>
        if bytes.None? { return None; }
        canData := canData + bytes.value;
    }
    assert Some(canData) == Join(FromHex(c.before), ValueBytes(c, data.value.value));
    if c.after != "" {
      var bytes := FromHex(c.after);
      if bytes.None? { return None; }
      canData := canData + bytes.value;
    }
    if c.after == "" { assert canData + FromHex(c.after).value == canData; }
    return Some(canData);
  }

  // ---------- Frames to values ----------

  // UnknownKind: the type is unknown, or a setting that the type needs is missing.
  datatype Kind = Flag | Int | Raw | LibraryKind(decoded: Option<string>) | UnknownKind

  // The key and whether it is telemetry may be missing.
  datatype UpConfig = UpConfig(key: Option<string>, telemetry: Option<bool>, kind: Kind, start: int,
                               length: Option<int>, order: Order, signed: bool)

  datatype Reading = BoolReading(flag: bool) | IntReading(number: int) | TextReading(text: string)

  datatype Converted = Converted(attributes: seq<(string, Reading)>, telemetry: seq<(string, Reading)>)

  // data[from:to] with its treatment of bounds outside the data.
  function Bound(data: seq<Byte>, i: int): (k: int)
    ensures 0 <= k <= |data|
  {
    if i > |data| then |data| else if i >= 0 then i else if i + |data| >= 0 then i + |data| else 0
  }

  function Slice(data: seq<Byte>, from: int, to: int): seq<Byte> {
    if Bound(data, from) < Bound(data, to) then data[Bound(data, from)..Bound(data, to)] else []
  }

  function DataLength(c: UpConfig, data: seq<Byte>): int {
    if c.length.Some? && c.length.value != -1 then c.length.value else |data| - c.start
  }

  function Part(c: UpConfig, data: seq<Byte>): seq<Byte> { Slice(data, c.start, c.start + DataLength(c, data)) }

  // What one configured value yields; None when it is dropped.
  function ReadValue(c: UpConfig, data: seq<Byte>): Option<Reading> {
    match c.kind
    case Flag =>
      if 0 <= c.start < |data| then Some(BoolReading(data[c.start] != 0))
      else if 0 <= c.start + |data| < |data| then Some(BoolReading(data[c.start + |data|] != 0))
      else None
    case Int =>
      if FromBytes(Part(c, data), c.order, c.signed).None? then None
      else Some(IntReading(FromBytes(Part(c, data), c.order, c.signed).value))
    case Raw => Some(TextReading(ToHex(Part(c, data))))
    case LibraryKind(decoded) => if decoded.Some? then Some(TextReading(decoded.value)) else None
    case UnknownKind => None
  }

  // What it adds to the telemetry, or to the attributes.
  function Listed(c: UpConfig, data: seq<Byte>, telemetry: bool): seq<(string, Reading)> {
    if c.key.Some? && c.telemetry == Some(telemetry) && ReadValue(c, data).Some?
    then [(c.key.value, ReadValue(c, data).value)] else []
  }

  function Uplink(configs: seq<UpConfig>, data: seq<Byte>, telemetry: bool): seq<(string, Reading)> {
    if configs == [] then []
    else Uplink(configs[..|configs| - 1], data, telemetry) + Listed(configs[|configs| - 1], data, telemetry)
  }

  // Some value before had a key; the handler of failures then has one to name.
  predicate KeySeen(configs: seq<UpConfig>) { exists i :: 0 <= i < |configs| && configs[i].key.Some? }

  // The handler of failures reads the settings itself, and raises if it misses one.
  predicate HandlerRaises(c: UpConfig, keySeen: bool) { c.telemetry.None? || (c.key.None? && !keySeen) }

  predicate Raises(configs: seq<UpConfig>) {
    configs != [] &&
    (Raises(configs[..|configs| - 1]) || HandlerRaises(configs[|configs| - 1], KeySeen(configs[..|configs| - 1])))
  }

  // The conversion of a frame; None if it raises, and all values are lost.
  function Uplinked(configs: seq<UpConfig>, data: seq<Byte>): Option<Converted> {
    if Raises(configs) then None else Some(Converted(Uplink(configs, data, false), Uplink(configs, data, true)))
  }

  method HexText(bytes: seq<Byte>) returns (value: string)
    ensures value == ToHex(bytes)
  {
    value := "";
    for i := 0 to |bytes|
      invariant value + ToHex(bytes[i..]) == ToHex(bytes)
    {
      assert bytes[i..][1..] == bytes[i + 1..];
      value := value + [HexDigit(bytes[i] / 16), HexDigit(bytes[i] % 16)];
    }
  }

  method ConvertUp(configs: seq<UpConfig>, data: seq<Byte>) returns (r: Option<Converted>)
    ensures r == Uplinked(configs, data)
  {
    var attributes, telemetry, keySeen := [], [], false;
    for i := 0 to |configs|
      invariant attributes == Uplink(configs[..i], data, false) && telemetry == Uplink(configs[..i], data, true)
      invariant keySeen == KeySeen(configs[..i]) && !Raises(configs[..i])
    {
      PrefixSteps(configs, i);
      var c := configs[i];
      if c.key.None? || c.telemetry.None? {
        if c.telemetry.None? || !keySeen {
          RaisesStays(configs, i + 1);
          return None;
        }
      } else {
        keySeen := true;
        var reading := ReadValue(c, data);
        if c.kind.Raw? {
          var text := HexText(Part(c, data));
          reading := Some(TextReading(text));
        }
        if reading.Some? {
          if c.telemetry.value { telemetry := telemetry + [(c.key.value, reading.value)]; }
          else { attributes := attributes + [(c.key.value, reading.value)]; }
        }
      }
    }
    assert configs[..|configs|] == configs;
    return Some(Converted(attributes, telemetry));
  }

  lemma PrefixSteps(configs: seq<UpConfig>, i: nat)
    requires i < |configs|
    ensures configs[..i + 1][..i] == configs[..i] && configs[..i + 1][i] == configs[i]
    ensures KeySeen(configs[..i + 1]) <==> KeySeen(configs[..i]) || configs[i].key.Some?
  {
    if KeySeen(configs[..i]) {
      var j :| 0 <= j < i && configs[..i][j].key.Some?;
      assert configs[..i + 1][j].key.Some?;
    }
    if KeySeen(configs[..i + 1]) && configs[i].key.None? {
      var j :| 0 <= j < i + 1 && configs[..i + 1][j].key.Some?;
      assert configs[..i][j].key.Some?;
    }
  }

  lemma {:induction false} RaisesStays(configs: seq<UpConfig>, i: nat)
    requires i <= |configs| && Raises(configs[..i])
    ensures Raises(configs)
  {
    if i == |configs| {
      assert configs[..i] == configs;
    } else {
      assert configs[..|configs| - 1][..i] == configs[..i];
      RaisesStays(configs[..|configs| - 1], i);
    }
  }

  // A conversion raises if and only if the first value has no key or some value does not
  // say whether it is telemetry.
  lemma {:induction false} ConversionRaisesExactly(configs: seq<UpConfig>)
    ensures Raises(configs) <==>
      configs != [] && (configs[0].key.None? || exists i :: 0 <= i < |configs| && configs[i].telemetry.None?)
  {
    if configs != [] {
      var n := |configs| - 1;
      ConversionRaisesExactly(configs[..n]);
      assert forall i | 0 <= i < n :: configs[..n][i] == configs[i];
      if n > 0 && configs[0].key.Some? { assert configs[..n][0].key.Some?; }
    }
  }

  lemma UplinkSnoc(configs: seq<UpConfig>, c: UpConfig, data: seq<Byte>, telemetry: bool)
    ensures Uplink(configs + [c], data, telemetry) == Uplink(configs, data, telemetry) + Listed(c, data, telemetry)
  {
    assert (configs + [c])[..|configs|] == configs;
  }

  lemma {:induction false} ValuesAreIndependent(a: seq<UpConfig>, b: seq<UpConfig>, data: seq<Byte>, telemetry: bool)
    ensures Uplink(a + b, data, telemetry) == Uplink(a, data, telemetry) + Uplink(b, data, telemetry)
  {
    hide Listed;
    if b == [] {
      assert a + b == a;
    } else {
      var n := |b| - 1;
      var last := Listed(b[n], data, telemetry);
      ValuesAreIndependent(a, b[..n], data, telemetry);
      UplinkSnoc(a + b[..n], b[n], data, telemetry);
      UplinkSnoc(b[..n], b[n], data, telemetry);
      assert b == b[..n] + [b[n]] && a + b == (a + b[..n]) + [b[n]];
      Associative(Uplink(a, data, telemetry), Uplink(b[..n], data, telemetry), last);
    }
  }

  // A value that cannot be converted changes nothing for the others if and only if it says
  // whether it is telemetry and, if it comes first, has a key.
  lemma BadValueChangesNothingExactly(a: seq<UpConfig>, c: UpConfig, b: seq<UpConfig>, data: seq<Byte>)
    requires ReadValue(c, data).None? || c.key.None?
    requires !Raises(a + b)
    ensures Uplinked(a + [c] + b, data) == Uplinked(a + b, data) <==> c.telemetry.Some? && (a != [] || c.key.Some?)
  {
    hide Raises, Uplink, ReadValue;
    ConversionRaisesExactly(a + b);
    ConversionRaisesExactly(a + [c] + b);
    WithOneMore(a, c, b);
    forall telemetry ensures Uplink(a + [c] + b, data, telemetry) == Uplink(a + b, data, telemetry) {
      NothingListed(a, c, b, data, telemetry);
    }
  }

  lemma NothingListed(a: seq<UpConfig>, c: UpConfig, b: seq<UpConfig>, data: seq<Byte>, telemetry: bool)
    requires ReadValue(c, data).None? || c.key.None?
    ensures Uplink(a + [c] + b, data, telemetry) == Uplink(a + b, data, telemetry)
  {
    hide ReadValue;
    ValuesAreIndependent(a + [c], b, data, telemetry);
    ValuesAreIndependent(a, b, data, telemetry);
    UplinkSnoc(a, c, data, telemetry);
    assert Listed(c, data, telemetry) == [];
  }

  lemma WithOneMore(a: seq<UpConfig>, c: UpConfig, b: seq<UpConfig>)
    ensures (exists i :: 0 <= i < |a + [c] + b| && (a + [c] + b)[i].telemetry.None?) <==>
              c.telemetry.None? || exists i :: 0 <= i < |a + b| && (a + b)[i].telemetry.None?
    ensures (a + [c] + b)[0] == if a == [] then c else (a + b)[0]
  {
    var l, s := a + [c] + b, a + b;
    forall i | 0 <= i < |s| ensures s[i] == l[if i < |a| then i else i + 1] {}
    assert l[|a|] == c;
    if i :| 0 <= i < |l| && l[i].telemetry.None? {
      if i != |a| { assert s[if i < |a| then i else i - 1] == l[i]; }
    }
  }

  // ---------- Round trips ----------

  lemma {:induction false} DigitsOfNumber(u: nat, n: nat)
    requires u < Power(n)
    ensures Number(Digits(u, n)) == u
  {
    if n > 0 {
      DigitsOfNumber(u / 256, n - 1);
      assert Digits(u, n)[1..] == Digits(u / 256, n - 1);
    }
  }

  lemma {:induction false} NumberOfDigits(bs: seq<Byte>)
    ensures Digits(Number(bs), |bs|) == bs
  {
    if bs != [] {
      NumberOfDigits(bs[1..]);
      LowestDigit(bs[0], Number(bs[1..]));
      assert [bs[0]] + bs[1..] == bs;
    }
  }

  lemma LowestDigit(b: Byte, u: nat)
    ensures (b + 256 * u) % 256 == b && (b + 256 * u) / 256 == u
  {}

  lemma ArrangeTwice(bs: seq<Byte>, order: Order)
    ensures Arrange(Arrange(bs, order), order) == bs
  {}

  // Reading the residue of a number gives the number exactly if the signedness agrees or
  // both ranges have it.
  lemma ResidueRoundTrip(v: int, n: nat, encodeSigned: bool, decodeSigned: bool)
    requires Fits(v, n, encodeSigned)
    ensures 0 <= Residue(v, n) < Power(n)
    ensures (if decodeSigned then Signed(Residue(v, n), n) else Residue(v, n)) == v <==>
              encodeSigned == decodeSigned || (0 <= v && 2 * v < Power(n))
  {}

  // Encoded bytes decode to the value again exactly if the signedness agrees or both
  // ranges have the value.
  lemma BytesRoundTrip(v: int, n: nat, order: Order, encodeSigned: bool, decodeSigned: bool)
    requires !order.UnknownOrder? && Fits(v, n, encodeSigned)
    ensures ToBytes(v, n, order, encodeSigned).Some?
    ensures |ToBytes(v, n, order, encodeSigned).value| == n
    ensures FromBytes(ToBytes(v, n, order, encodeSigned).value, order, decodeSigned) == Some(v) <==>
              encodeSigned == decodeSigned || (0 <= v && 2 * v < Power(n))
  {
    ResidueRoundTrip(v, n, encodeSigned, decodeSigned);
    hide Fits, Residue, Signed, Power, Digits, Number, Arrange;
    var bs := Digits(Residue(v, n), n);
    DigitsOfNumber(Residue(v, n), n);
    ArrangeTwice(bs, order);
  }

  // Which integers are accepted: an unsigned setting still takes negative values, as
  // two's complement.
  lemma IntegersAcceptedExactly(c: DownConfig, v: int)
    ensures ValueBytes(c, Integer(v)).Some? <==>
      c.length >= 0 && !c.order.UnknownOrder? && -Power(c.length) <= 2 * v
      && (if c.signed then 2 * v < Power(c.length) else v < Power(c.length))
  {}

  // The frame of an integer, read where the value starts: the value comes back exactly if
  // the signedness agrees or the value is in the range that both have in common.
  lemma IntegerRoundTripExactly(c: DownConfig, data: Data, u: UpConfig, v: int)
    requires c.dataInHex == "" && data.Data? && data.dataInHex == "" && data.value == Some(Integer(v))
    requires Downlink(c, data).Some? && c.length >= 0
    requires u.kind.Int? && u.order == c.order && u.start == |FromHex(c.before).value|
    requires u.length == Some(c.length) || (c.after == "" && (u.length == None || u.length == Some(-1)))
    ensures ReadValue(u, Downlink(c, data).value) == Some(IntReading(v)) <==>
              u.signed == (c.signed || v < 0) || (0 <= v && 2 * v < Power(c.length))
  {
    var frame := Downlink(c, data).value;
    var bytes := ToBytes(v, c.length, c.order, c.signed || v < 0).value;
    assert frame == FromHex(c.before).value + bytes + FromHex(c.after).value;
    assert |bytes| == c.length;
    assert Part(u, frame) == bytes;
    BytesRoundTrip(v, c.length, c.order, c.signed || v < 0, u.signed);
  }

  // Sending an integer and reading it where it starts gives it back exactly if the setting
  // takes it, bytes around it included, and it survives the reading.
  lemma IntegerSurvivesExactly(c: DownConfig, data: Data, u: UpConfig, v: int)
    requires c.dataInHex == "" && data.Data? && data.dataInHex == "" && data.value == Some(Integer(v))
    requires FromHex(c.before).Some? && c.length >= 0
    requires u.kind.Int? && u.order == c.order && u.start == |FromHex(c.before).value|
    requires u.length == Some(c.length) || (c.after == "" && (u.length == None || u.length == Some(-1)))
    ensures (Downlink(c, data).Some? && ReadValue(u, Downlink(c, data).value) == Some(IntReading(v))) <==>
      && FromHex(c.after).Some? && !c.order.UnknownOrder?
      && -Power(c.length) <= 2 * v && (if c.signed then 2 * v < Power(c.length) else v < Power(c.length))
      && (u.signed == (c.signed || v < 0) || (0 <= v && 2 * v < Power(c.length)))
  {
    hide ValueBytes, ReadValue, FromHex, Power;
    IntegersAcceptedExactly(c, v);
    if Downlink(c, data).Some? { IntegerRoundTripExactly(c, data, u, v); }
  }

  lemma ResidueOfSigned(u: nat, n: nat)
    requires u < Power(n)
    ensures Fits(Signed(u, n), n, true) && Residue(Signed(u, n), n) == u
    ensures Signed(u, n) >= 0 ==> Signed(u, n) == u
  {}

  // Encoding the number of some bytes gives the bytes again.
  lemma EncodedNumber(bs: seq<Byte>, order: Order, v: int, signed: bool)
    requires !order.UnknownOrder? && Fits(v, |bs|, signed) && Residue(v, |bs|) == Number(Arrange(bs, order))
    ensures ToBytes(v, |bs|, order, signed) == Some(bs)
  {
    NumberOfDigits(Arrange(bs, order));
    ArrangeTwice(bs, order);
  }

  // The other way round: reading bytes as an integer and sending that gives the bytes
  // again, exactly unless a large unsigned reading meets a signed setting.
  lemma ReencodingIsFaithfulExactly(c: DownConfig, bs: seq<Byte>, decodeSigned: bool)
    requires c.length == |bs| && !c.order.UnknownOrder?
    ensures ValueBytes(c, Integer(FromBytes(bs, c.order, decodeSigned).value)) == Some(bs) <==>
              decodeSigned || !c.signed || 2 * FromBytes(bs, c.order, decodeSigned).value < Power(|bs|)
  {
    var u := Number(Arrange(bs, c.order));
    var v := FromBytes(bs, c.order, decodeSigned).value;
    ResidueOfSigned(u, |bs|);
    if Fits(v, |bs|, c.signed || v < 0) { EncodedNumber(bs, c.order, v, c.signed || v < 0); }
  }

  lemma HexDigitValue(d: int)
    requires 0 <= d < 16
    ensures HexValue(HexDigit(d)) == Some(d) && !IsSpace(HexDigit(d))
  {}

  lemma {:induction false} HexRoundTrip(bs: seq<Byte>)
    ensures FromHex(ToHex(bs)) == Some(bs)
  {
    if bs != [] {
      HexRoundTrip(bs[1..]);
      HexDigitValue(bs[0] / 16);
      HexDigitValue(bs[0] % 16);
      assert ToHex(bs)[2..] == ToHex(bs[1..]);
      assert [bs[0]] + bs[1..] == bs;
    }
  }

  predicate Lowercase(c: char) { '0' <= c <= '9' || 'a' <= c <= 'f' }

  lemma LowercasePair(x: char, y: char, rest: string, bs: seq<Byte>, b: Byte)
    requires HexValue(x).Some? && HexValue(y).Some? && b == 16 * HexValue(x).value + HexValue(y).value
    ensures ToHex([b] + bs) == [x, y] + rest <==> Lowercase(x) && Lowercase(y) && ToHex(bs) == rest
  {
    assert b / 16 == HexValue(x).value && b % 16 == HexValue(y).value;
    assert ([b] + bs)[1..] == bs;
    var t := ToHex([b] + bs);
    assert t[0] == HexDigit(b / 16) && t[1] == HexDigit(b % 16) && t[2..] == ToHex(bs);
    assert ([x, y] + rest)[2..] == rest;
    if t == [x, y] + rest { assert t[0] == x && t[1] == y; }
  }

  // Text that parses is the hexadecimal form of its bytes exactly if it has nothing but
  // lower-case digits.
  lemma {:induction false} HexFormIsCanonicalExactly(s: string)
    requires FromHex(s).Some?
    ensures ToHex(FromHex(s).value) == s <==> forall i | 0 <= i < |s| :: Lowercase(s[i])
  {
    if s != "" {
      if IsSpace(s[0]) {
        HexDigitsAreLowercase(FromHex(s).value);
        assert !Lowercase(s[0]);
      } else {
        HexFormIsCanonicalExactly(s[2..]);
        var bs := FromHex(s).value;
        LowercasePair(s[0], s[1], s[2..], bs[1..], bs[0]);
        assert bs == [bs[0]] + bs[1..] && s == [s[0], s[1]] + s[2..];
        assert forall i | 0 <= i < |s[2..]| :: s[2..][i] == s[i + 2];
      }
    }
  }

  lemma {:induction false} HexDigitsAreLowercase(bs: seq<Byte>)
    ensures forall i | 0 <= i < |ToHex(bs)| :: Lowercase(ToHex(bs)[i])
  {
    if bs != [] { HexDigitsAreLowercase(bs[1..]); }
  }

  // A frame taken up raw and configured as `dataInHex` is sent as it was; an empty frame
  // gives an empty text, which counts as not configured.
  lemma RawFrameRoundTrip(frame: seq<Byte>, u: UpConfig, c: DownConfig, data: Data)
    requires u.kind.Raw? && u.start == 0 && (u.length == None || u.length == Some(-1))
    requires ReadValue(u, frame) == Some(TextReading(c.dataInHex))
    ensures frame != [] ==> Downlink(c, data) == Some(frame)
    ensures frame == [] ==> Downlink(c, data) == Downlink(c.(dataInHex := ""), data)
  {
    assert Part(u, frame) == frame;
    HexRoundTrip(frame);
  }
}
