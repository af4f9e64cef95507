// For which orders of devices sending a pack device by device is faithful, whatever the
// records hold.
module RegroupingLimits {
  import opened Options
  import opened Platform
  import opened Delivery
  import opened DeliverySafety
  import opened Regrouping

  // Records of the given devices, in the given order.
  predicate Shape(evs: seq<StoredEvent>, ds: seq<Name>) {
    |evs| == |ds| && forall k | 0 <= k < |ds| :: evs[k].Event? && evs[k].pack.device == ds[k]
  }

  predicate ContiguousNames(c: Config, ds: seq<Name>) {
    forall i, j, k | 0 <= i < j < k < |ds| ::
      (ds[i] == ds[k] && TargetOf(c, ds[j]) == TargetOf(c, ds[k])) ==> ds[j] == ds[k]
  }

  ghost predicate Faithful(c: Config, evs: seq<StoredEvent>) {
    forall s :: BufferAt(c, Fill([], evs).buffer, s) == HistoryAt(c, evs, s)
  }

  lemma {:induction false} RecordsNeverAbort(evs: seq<StoredEvent>, ds: seq<Name>)
    requires Shape(evs, ds)
    ensures !Fill([], evs).aborted
  {
    if evs != [] { RecordsNeverAbort(evs[..|evs| - 1], ds[..|ds| - 1]); }
  }

  lemma ContiguousIsFaithful(c: Config, evs: seq<StoredEvent>, ds: seq<Name>)
    requires Shape(evs, ds) && ContiguousNames(c, ds)
    ensures Faithful(c, evs)
  {
    RecordsNeverAbort(evs, ds);
    assert Contiguous(c, evs);
    forall s ensures BufferAt(c, Fill([], evs).buffer, s) == HistoryAt(c, evs, s) {
      RefilledBufferMeaning(c, [], evs, s);
    }
  }

  // ---------- A pack that shows the difference ----------

  const ITEM: Item := Attribute("k")

  function Writing(v: Json): seq<Object> { [[("k", v)]] }

  // Empty records but for two, that write different values.
  function Two(ds: seq<Name>, p: nat, q: nat): seq<StoredEvent> {
    seq(|ds|, k requires 0 <= k < |ds| =>
      Event(Pack(ds[k], if k == p then Writing("1") else if k == q then Writing("2") else [], [])))
  }

  lemma WritingAt(v: Json)
    ensures AttributesAt(Writing(v), ITEM) == Some(v)
  {
    assert Writing(v)[..0] == [];
    assert AttributeAt(Writing(v)[0], ITEM) == Some(v);
  }

  lemma TwoAt(ds: seq<Name>, p: nat, q: nat, k: nat)
    requires k < |ds|
    ensures PackAt(Two(ds, p, q)[k].pack, ITEM) == if k == p then Some("1") else if k == q then Some("2") else None
  {
    WritingAt("1");
    WritingAt("2");
  }

  lemma {:induction false} TwoDeviceAt(ds: seq<Name>, p: nat, q: nat, n: nat, d: Name)
    requires p < q < |ds| && ds[p] != ds[q] && n <= |ds|
    ensures DeviceAt(Two(ds, p, q)[..n], d, ITEM) ==
      if d == ds[p] && p < n then Some("1") else if d == ds[q] && q < n then Some("2") else None
  {
    if n > 0 {
      TwoDeviceAt(ds, p, q, n - 1, d);
      TwoAt(ds, p, q, n - 1);
      assert Two(ds, p, q)[..n][..n - 1] == Two(ds, p, q)[..n - 1];
    }
  }

  lemma {:induction false} TwoHistoryAt(c: Config, ds: seq<Name>, p: nat, q: nat, n: nat)
    requires p < q < |ds| && TargetOf(c, ds[p]) == TargetOf(c, ds[q]) && n <= |ds|
    ensures HistoryAt(c, Two(ds, p, q)[..n], Slot(TargetOf(c, ds[p]), ITEM)) ==
      if q < n then Some("2") else if p < n then Some("1") else None
  {
    if n > 0 {
      TwoHistoryAt(c, ds, p, q, n - 1);
      TwoAt(ds, p, q, n - 1);
      assert Two(ds, p, q)[..n][..n - 1] == Two(ds, p, q)[..n - 1];
    }
  }

  lemma {:induction false} LastWriter(c: Config, names: seq<Name>, evs: seq<StoredEvent>, s: Slot, a: nat)
    requires a < |names| && NameAt(c, names[a], evs, s).Some?
    requires forall b | a < b < |names| :: NameAt(c, names[b], evs, s) == None
    ensures NamesAt(c, names, evs, s) == NameAt(c, names[a], evs, s)
  {
    if a < |names| - 1 { LastWriter(c, names[..|names| - 1], evs, s, a); }
  }

  lemma {:induction false} ListedAlike(x: seq<StoredEvent>, y: seq<StoredEvent>, ds: seq<Name>)
    requires Shape(x, ds) && Shape(y, ds)
    ensures FirstNames(x) == FirstNames(y)
  {
    if ds != [] {
      var n := |ds| - 1;
      ListedAlike(x[..n], y[..n], ds[..n]);
      RecordsNeverAbort(x[..n], ds[..n]);
      RecordsNeverAbort(y[..n], ds[..n]);
      AddPackKeys(Fill([], x[..n]).buffer, x[n].pack);
      AddPackKeys(Fill([], y[..n]).buffer, y[n].pack);
    }
  }

  lemma {:induction false} DeviceIsListed(evs: seq<StoredEvent>, ds: seq<Name>, k: nat)
    requires Shape(evs, ds) && k < |ds|
    ensures ds[k] in FirstNames(evs)
  {
    var n := |ds| - 1;
    RecordsNeverAbort(evs[..n], ds[..n]);
    AddPackKeys(Fill([], evs[..n]).buffer, evs[n].pack);
    if k < n { DeviceIsListed(evs[..n], ds[..n], k); }
  }

  // The earlier of two records wins if its device is listed behind the other's.
  lemma EarlierWins(c: Config, ds: seq<Name>, p: nat, q: nat, a: nat, b: nat)
    requires p < q < |ds| && ds[p] != ds[q] && TargetOf(c, ds[p]) == TargetOf(c, ds[q])
    requires b < a < |FirstNames(Two(ds, p, q))|
    requires FirstNames(Two(ds, p, q))[a] == ds[p] && FirstNames(Two(ds, p, q))[b] == ds[q]
    ensures !Faithful(c, Two(ds, p, q))
  {
    var evs, s := Two(ds, p, q), Slot(TargetOf(c, ds[p]), ITEM);
    var names, buf := FirstNames(evs), Fill([], evs).buffer;
    assert evs[..|ds|] == evs;
    RecordsNeverAbort(evs, ds);
    FillKeepsUnique([], evs);
    RefilledHolds([], evs);
    HeldIsDevice(c, buf, evs, s);
    forall m | a < m < |names| ensures NameAt(c, names[m], evs, s) == None {
      KeysDistinct(buf, a, m);
      KeysDistinct(buf, b, m);
      TwoDeviceAt(ds, p, q, |ds|, names[m]);
    }
    TwoDeviceAt(ds, p, q, |ds|, ds[p]);
    LastWriter(c, names, evs, s, a);
    TwoHistoryAt(c, ds, p, q, |ds|);
    assert BufferAt(c, buf, s) != HistoryAt(c, evs, s);
  }

  lemma InterleavedIsUnfaithful(c: Config, ds: seq<Name>, i: nat, j: nat, k: nat) returns (evs: seq<StoredEvent>)
    requires i < j < k < |ds| && ds[i] == ds[k] && ds[j] != ds[k] && TargetOf(c, ds[j]) == TargetOf(c, ds[k])
    ensures Shape(evs, ds) && !Faithful(c, evs)
  {
    hide Fill, Faithful, TargetOf;
    evs := Two(ds, j, k);
    DeviceIsListed(evs, ds, j);
    DeviceIsListed(evs, ds, k);
    var a :| 0 <= a < |FirstNames(evs)| && FirstNames(evs)[a] == ds[j];
    var b :| 0 <= b < |FirstNames(evs)| && FirstNames(evs)[b] == ds[k];
    if b < a {
      EarlierWins(c, ds, j, k, a, b);
    } else {
      ListedAlike(evs, Two(ds, i, j), ds);
      evs := Two(ds, i, j);
      EarlierWins(c, ds, i, j, b, a);
    }
  }

  // Regrouping by device is faithful for every content of the records exactly when no
  // device name comes back after another name of the same platform device.
  lemma RegroupingIsFaithfulExactly(c: Config, ds: seq<Name>)
    ensures (forall evs | Shape(evs, ds) :: Faithful(c, evs)) <==> ContiguousNames(c, ds)
  {
    if ContiguousNames(c, ds) {
      forall evs | Shape(evs, ds) ensures Faithful(c, evs) { ContiguousIsFaithful(c, evs, ds); }
    } else {
      var i, j, k :| 0 <= i < j < k < |ds| && ds[i] == ds[k] && ds[j] != ds[k]
                     && TargetOf(c, ds[j]) == TargetOf(c, ds[k]);
      var evs := InterleavedIsUnfaithful(c, ds, i, j, k);
    }
  }
}
