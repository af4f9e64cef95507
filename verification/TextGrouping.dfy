// The grouping of a stored text, part by part: what it merges into the buffer before it
// ends or raises is the event that the text is taken for.
module TextGrouping {
  import opened Options
  import opened PyDict
  import opened Platform
  import opened Sequences
  import opened StoredTexts
  import opened Delivery

  method GroupTelemetry(b: Bucket, es: seq<RawEntry>) returns (r: Bucket, raised: bool)
    ensures raised <==> HasNull(es)
    ensures r == Bucket(b.telemetry + Entries(es[..if raised then FirstNull(es) + 1 else |es|]), b.attributes)
  {
    r := b;
    for n := 0 to |es|
      invariant r == Bucket(b.telemetry + Entries(es[..n]), b.attributes)
      invariant forall k | 0 <= k < n :: es[k].values.Some?
    {
      OneEntryMore(b.telemetry, es, n);
      r := r.(telemetry := r.telemetry + [EntryOf(es[n])]);
      if es[n].values == None {
        assert FirstNull(es) == n;
        return r, true;
      }
    }
    raised := false;
  }

  lemma OneEntryMore(before: seq<Entry>, es: seq<RawEntry>, n: nat)
    requires n < |es|
    ensures before + Entries(es[..n + 1]) == before + Entries(es[..n]) + [EntryOf(es[n])]
  {
    assert Entries(es[..n + 1]) == Entries(es[..n]) + [EntryOf(es[n])];
    Associative(before, Entries(es[..n]), [EntryOf(es[n])]);
  }

  method GroupAttributes(b: Bucket, a: Attributes) returns (r: Bucket, raised: bool)
    ensures raised <==> HasBad(a)
    ensures r == Bucket(b.telemetry, MergeAll(b.attributes, ObjectsBefore(a)))
  {
    if a.Whole? {
      assert [a.members][..0] == [];
      return b.(attributes := Update(b.attributes, a.members)), false;
    }
    r := b;
    var parts := a.parts;
    for n := 0 to |parts|
      invariant r == Bucket(b.telemetry, MergeAll(b.attributes, AllObjects(parts[..n])))
      invariant forall k | 0 <= k < n :: parts[k].Proper?
    {
      if parts[n].Improper? {
        assert FirstBad(parts) == n;
        return r, true;
      }
      assert AllObjects(parts[..n + 1])[..n] == AllObjects(parts[..n]);
      r := r.(attributes := Update(r.attributes, parts[n].members));
    }
    assert FirstBad(parts) == |parts|;
    raised := false;
  }

  lemma NothingBad(a: Attributes)
    requires !HasBad(a)
    ensures ObjectsBefore(a) == Objects(a)
  {
    if a.Listed? { assert a.parts[..|a.parts|] == a.parts; }
  }

  // What the two loops leave is the bucket extended by the event's record.
  lemma LoopsExtend(b: Bucket, t: Text)
    ensures EventOf(t).Named() && EventOf(t).pack.device == t.device
    ensures EventOf(t).Faulty? <==> HasNull(t.telemetry) || HasBad(t.attributes)
    ensures Extend(b, EventOf(t).pack) ==
      if HasNull(t.telemetry)
      then Bucket(b.telemetry + Entries(t.telemetry[..FirstNull(t.telemetry) + 1]), b.attributes)
      else Bucket(b.telemetry + Entries(t.telemetry), MergeAll(b.attributes, ObjectsBefore(t.attributes)))
  {
    if !HasBad(t.attributes) { NothingBad(t.attributes); }
  }

  // The bucket of the text's device is extended in place, telemetry before attributes.
  method GroupText(buf: Buffer, t: Text) returns (buffer: Buffer, raised: bool)
    ensures Filled(buffer, raised) == Take(Filled(buf, false), EventOf(t))
  {
    hide EventOf, Extend, Put, HasNull, HasBad, Entries, ObjectsBefore;
    var b := BucketOf(buf, t.device);
    LoopsExtend(b, t);
    b, raised := GroupTelemetry(b, t.telemetry);
    if raised { return Put(buf, t.device, b), true; }
    assert t.telemetry[..|t.telemetry|] == t.telemetry;
    b, raised := GroupAttributes(b, t.attributes);
    return Put(buf, t.device, b), raised;
  }
}
