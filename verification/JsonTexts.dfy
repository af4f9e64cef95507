// The JSON texts of readings and records, written out, and what the splitter's sizes are the
// lengths of.
module JsonTexts {
  import opened PyDict
  import opened Platform
  import opened JsonLists
  import opened StoredTexts
  import opened PackSplitter

  // ---------- Numbers ----------

  function DigitOf(n: nat): char
    requires n < 10
  {
    '0' + n as char
  }

  function NatText(n: nat): string {
    if n < 10 then [DigitOf(n)] else NatText(n / 10) + [DigitOf(n % 10)]
  }

  function IntText(n: int): string { if n < 0 then "-" + NatText(-n) else NatText(n) }

  predicate IsNumeral(s: string) { s != "" && forall k | 0 <= k < |s| :: '0' <= s[k] <= '9' }

  function ValueOf(s: string): nat
    requires IsNumeral(s)
  {
    (s[|s| - 1] - '0') as nat + if |s| == 1 then 0 else 10 * ValueOf(s[..|s| - 1])
  }

  // The digits are those of the number, without leading zeros.
  lemma {:induction false} NumeralOf(n: nat)
    ensures IsNumeral(NatText(n)) && ValueOf(NatText(n)) == n
    ensures NatText(n)[0] == '0' ==> n == 0
    ensures |NatText(n)| == NatSize(n)
  {
    if n >= 10 {
      NumeralOf(n / 10);
      assert NatText(n)[..|NatText(n)| - 1] == NatText(n / 10);
    }
  }

  lemma IntTextSize(n: int)
    ensures |IntText(n)| == IntSize(n)
  {
    NumeralOf(if n < 0 then -n else n);
  }

  // ---------- Objects and entries ----------

  function MemberTexts(o: Object): (r: seq<string>)
    ensures |r| == |o| && forall k | 0 <= k < |o| :: r[k] == o[k].0 + ":" + o[k].1
  {
    seq(|o|, k requires 0 <= k < |o| => o[k].0 + ":" + o[k].1)
  }

  function ObjectText(o: Object): string { "{" + CommaJoined(MemberTexts(o)) + "}" }

  function EntryText(ts: int, values: string): string {
    "{\"ts\":" + IntText(ts) + ",\"values\":" + values + "}"
  }

  function RawEntryText(e: RawEntry): string {
    EntryText(e.ts, match e.values case Some(o) => ObjectText(o) case None => "null")
  }

  function EntryTexts(es: seq<RawEntry>): (r: seq<string>)
    ensures |r| == |es| && forall k | 0 <= k < |es| :: r[k] == RawEntryText(es[k])
  {
    seq(|es|, k requires 0 <= k < |es| => RawEntryText(es[k]))
  }

  function PartText(p: Part): string { match p case Proper(o) => ObjectText(o) case Improper(text) => text }

  function PartTexts(ps: seq<Part>): (r: seq<string>)
    ensures |r| == |ps| && forall k | 0 <= k < |ps| :: r[k] == PartText(ps[k])
  {
    seq(|ps|, k requires 0 <= k < |ps| => PartText(ps[k]))
  }

  function AttributesText(a: Attributes): string {
    match a case Listed(ps) => ListText(PartTexts(ps)) case Whole(o) => ObjectText(o)
  }

  // The text of an object around its attributes and its telemetry.
  datatype Frame = Frame(head: string, middle: string, tail: string) {
    function Around(attributes: string, telemetry: string): string {
      head + attributes + middle + telemetry + tail
    }

    // Around {} and [].
    function Size(): nat { |head| + |middle| + |tail| + 4 }
  }

  // A record as the splitter stores it.
  function RecordText(f: Frame, t: Text): string {
    f.Around(AttributesText(t.attributes), ListText(EntryTexts(t.telemetry)))
  }

  lemma {:induction false} MembersSize(o: Object)
    ensures ListSize(MemberTexts(o)) == ObjectSize(o)
  {
    if o != [] {
      var n := |o| - 1;
      MembersSize(o[..n]);
      assert MemberTexts(o)[..n] == MemberTexts(o[..n]);
    }
  }

  lemma ObjectTextSize(o: Object)
    ensures |ObjectText(o)| == ObjectSize(o)
  {
    MembersSize(o);
    SizeOfText(MemberTexts(o));
  }

  lemma EntryTextSize(ts: int, o: Object)
    ensures |EntryText(ts, ObjectText(o))| == EntrySize(Entry(ts, o))
  {
    IntTextSize(ts);
    ObjectTextSize(o);
  }

  lemma TextsSnoc(es: seq<RawEntry>, n: nat)
    requires |es| == n + 1
    ensures EntryTexts(es)[..n] == EntryTexts(es[..n]) && EntryTexts(es)[n] == RawEntryText(es[n])
    ensures Entries(es)[..n] == Entries(es[..n]) && Entries(es)[n] == EntryOf(es[n])
  {}

  lemma {:induction false} EntriesTextSize(es: seq<RawEntry>)
    requires !HasNull(es)
    ensures ListSize(EntryTexts(es)) == 2 + EntriesSize(Entries(es)) + Commas(|es|)
  {
    if es != [] {
      hide EntryText, EntrySize, EntryTexts, Entries;
      var n := |es| - 1;
      assert es[n].values.Some?;
      EntriesTextSize(es[..n]);
      EntryTextSize(es[n].ts, es[n].values.value);
      TextsSnoc(es, n);
    }
  }

  // The size of a record under construction is the length of its text.
  lemma RecordTextSize(f: Frame, max: nat, device: Name, o: Object, es: seq<Entry>)
    ensures |RecordText(f, TextOf(Pack(device, [o], es)))| == RecordSize(Limits(f.Size(), max), o, es)
  {
    var t := TextOf(Pack(device, [o], es));
    ObjectTextSize(o);
    EntriesTextSize(t.telemetry);
    SizeOfText(EntryTexts(t.telemetry));
    assert Entries(t.telemetry) == es;
  }

  // What the splitter adds to the size of the record is the length of what it takes over: an
  // object of attributes, one value under its timestamp, or one value alone if the record
  // has that timestamp.
  lemma ChargedIsText(s: Adopted, o: Object, p: Datapoint)
    ensures ObjectSize(o) == |ObjectText(o)|
    ensures Contribution(s, p) == if p.ts in s.index then |ObjectText([(p.key, p.value)])|
                                  else |EntryText(p.ts, ObjectText([(p.key, p.value)]))|
  {
    ObjectTextSize(o);
    ObjectTextSize([(p.key, p.value)]);
    EntryTextSize(p.ts, [(p.key, p.value)]);
    assert Put([], p.key, p.value) == [(p.key, p.value)];
  }
}
