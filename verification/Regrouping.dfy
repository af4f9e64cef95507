// When sending a pack device by device leaves the platform as sending it event by
// event would.
module Regrouping {
  import opened Options
  import opened PyDict
  import opened Platform
  import opened Delivery
  import opened DeliverySafety

  // ---------- What the buffer holds ----------

  lemma {:induction false} NoPointInAttributes(os: seq<Object>, i: Item)
    requires i.Point?
    ensures AttributesAt(os, i) == None
  {
    if os != [] { NoPointInAttributes(os[..|os| - 1], i); }
  }

  lemma ExtendAt(b: Bucket, p: Pack, i: Item)
    ensures BucketAt(Extend(b, p), i) == Over(BucketAt(b, i), PackAt(p, i))
  {
    TelemetryAtConcat(b.telemetry, p.telemetry, i);
    MergeAllAt(b.attributes, p.attributes, i);
    if i.Point? {
      NoPointInAttributes(p.attributes, i);
    } else {
      TelemetryAtOtherTime(b.telemetry, i);
      TelemetryAtOtherTime(p.telemetry, i);
    }
  }

  function HeldAt(buf: Buffer, d: Name, i: Item): Option<Json> { BucketAt(BucketOf(buf, d), i) }

  lemma AddPackAt(buf: Buffer, p: Pack, d: Name, i: Item)
    ensures HeldAt(AddPack(buf, p), d, i) == Over(HeldAt(buf, d, i), if p.device == d then PackAt(p, i) else None)
  {
    PutGet(buf, p.device, Extend(BucketOf(buf, p.device), p), d);
    ExtendAt(BucketOf(buf, p.device), p, i);
  }

  lemma {:induction false} FillWithin(buf: Buffer, evs: seq<StoredEvent>, d: Name, i: Item)
    requires HeldAt(Fill(buf, evs).buffer, d, i).Some?
    ensures HeldAt(buf, d, i).Some? || DeviceAt(evs, d, i).Some?
  {
    if evs != [] {
      var n := |evs| - 1;
      if evs[n].Named() { AddPackAt(Fill(buf, evs[..n]).buffer, evs[n].pack, d, i); }
      if HeldAt(Fill(buf, evs[..n]).buffer, d, i).Some? { FillWithin(buf, evs[..n], d, i); }
    }
  }

  lemma {:induction false} FillExactly(buf: Buffer, evs: seq<StoredEvent>, d: Name, i: Item)
    requires !Fill(buf, evs).aborted
    ensures HeldAt(Fill(buf, evs).buffer, d, i) == Over(HeldAt(buf, d, i), DeviceAt(evs, d, i))
  {
    if evs != [] {
      var n := |evs| - 1;
      FillExactly(buf, evs[..n], d, i);
      if evs[n].Named() { AddPackAt(Fill(buf, evs[..n]).buffer, evs[n].pack, d, i); }
    }
  }

  // ---------- The order of the devices ----------

  // The devices of a pack in the order in which they first occur.
  function FirstNames(evs: seq<StoredEvent>): seq<Name> { Keys(Fill([], evs).buffer) }

  lemma {:induction false} FillKeepsUnique(buf: Buffer, evs: seq<StoredEvent>)
    requires Unique(buf)
    ensures Unique(Fill(buf, evs).buffer)
  {
    if evs != [] {
      var n := |evs| - 1;
      FillKeepsUnique(buf, evs[..n]);
      if evs[n].Named() {
        var b := Fill(buf, evs[..n]).buffer;
        PutKeepsUnique(b, evs[n].pack.device, Extend(BucketOf(b, evs[n].pack.device), evs[n].pack));
      }
    }
  }

  lemma AddPackKeys(buf: Buffer, p: Pack)
    ensures Keys(AddPack(buf, p)) == if p.device in Keys(buf) then Keys(buf) else Keys(buf) + [p.device]
  {
    PutKeys(buf, p.device, Extend(BucketOf(buf, p.device), p));
  }

  lemma {:induction false} FirstNamesGrow(evs: seq<StoredEvent>, n: nat)
    requires n <= |evs|
    ensures FirstNames(evs[..n]) <= FirstNames(evs)
  {
    if n == |evs| {
      assert evs[..n] == evs;
    } else {
      var m := |evs| - 1;
      assert evs[..m][..n] == evs[..n];
      FirstNamesGrow(evs[..m], n);
      if evs[m].Named() { AddPackKeys(Fill([], evs[..m]).buffer, evs[m].pack); }
    }
  }

  lemma {:induction false} AbortsAlike(a: Buffer, b: Buffer, evs: seq<StoredEvent>)
    ensures Fill(a, evs).aborted == Fill(b, evs).aborted
  {
    if evs != [] { AbortsAlike(a, b, evs[..|evs| - 1]); }
  }

  function Longer(a: seq<Name>, b: seq<Name>): seq<Name> { if |a| >= |b| then a else b }

  function AddName(ns: seq<Name>, d: Name): seq<Name> { if d in ns then ns else ns + [d] }

  lemma LongerAdd(names: seq<Name>, y: seq<Name>, all: seq<Name>, d: Name)
    requires names <= all && AddName(y, d) <= all
    ensures AddName(Longer(names, y), d) == Longer(names, AddName(y, d))
  {
    assert y == all[..|y|] && names == all[..|names|];
    if |names| > |y| {
      assert names[..|y|] == y;
      if d in y {
        var k :| 0 <= k < |y| && y[k] == d;
        assert names[k] == d;
      } else {
        assert AddName(y, d)[|y|] == d;
        assert names[|y|] == d;
      }
    } else if |names| == |y| {
      assert names == y;
    }
  }

  // Refilling a buffer whose devices are the first ones of the pack keeps their order.
  lemma {:induction false} RefillKeepsOrder(buf: Buffer, evs: seq<StoredEvent>, all: seq<Name>)
    requires Keys(buf) <= all && FirstNames(evs) <= all
    ensures Keys(Fill(buf, evs).buffer) == Longer(Keys(buf), FirstNames(evs))
  {
    if evs != [] {
      var n := |evs| - 1;
      FirstNamesGrow(evs, n);
      RefillKeepsOrder(buf, evs[..n], all);
      AbortsAlike(buf, [], evs[..n]);
      RefillStep(buf, evs, all);
    }
  }

  lemma RefillStep(buf: Buffer, evs: seq<StoredEvent>, all: seq<Name>)
    requires evs != [] && Keys(buf) <= all && FirstNames(evs) <= all
    requires Keys(Fill(buf, evs[..|evs| - 1]).buffer) == Longer(Keys(buf), FirstNames(evs[..|evs| - 1]))
    requires Fill(buf, evs[..|evs| - 1]).aborted == Fill([], evs[..|evs| - 1]).aborted
    ensures Keys(Fill(buf, evs).buffer) == Longer(Keys(buf), FirstNames(evs))
  {
    var n := |evs| - 1;
    if evs[n].Named() {
      AddPackKeys(Fill(buf, evs[..n]).buffer, evs[n].pack);
      AddPackKeys(Fill([], evs[..n]).buffer, evs[n].pack);
      if !Fill([], evs[..n]).aborted {
        LongerAdd(Keys(buf), FirstNames(evs[..n]), all, evs[n].pack.device);
      }
    }
  }

  // ---------- Order of writes ----------

  function NameAt(c: Config, d: Name, evs: seq<StoredEvent>, s: Slot): Option<Json> {
    if TargetOf(c, d) == s.target then DeviceAt(evs, d, s.item) else None
  }

  // The value left by applying all events of the first name, then all of the second,
  // and so on.
  function NamesAt(c: Config, names: seq<Name>, evs: seq<StoredEvent>, s: Slot): Option<Json> {
    if names == [] then None
    else Over(NamesAt(c, names[..|names| - 1], evs, s), NameAt(c, names[|names| - 1], evs, s))
  }

  lemma {:induction false} UniqueGet(buf: Buffer, k: nat)
    requires Unique(buf) && k < |buf|
    ensures Get(buf, buf[k].0) == Some(buf[k].1)
  {
    var n := |buf| - 1;
    if k < n {
      UniqueGet(buf[..n], k);
      assert Keys(buf[..n])[k] == buf[k].0;
    }
  }

  lemma {:induction false} BufferByNames(c: Config, buf: Buffer, evs: seq<StoredEvent>, s: Slot)
    requires forall k | 0 <= k < |buf| :: BucketAt(buf[k].1, s.item) == DeviceAt(evs, buf[k].0, s.item)
    ensures BufferAt(c, buf, s) == NamesAt(c, Keys(buf), evs, s)
  {
    if buf != [] {
      var n := |buf| - 1;
      BufferByNames(c, buf[..n], evs, s);
      assert Keys(buf)[..n] == Keys(buf[..n]);
    }
  }

  // A device name does not come back once another name of the same platform device
  // has been met.
  predicate Contiguous(c: Config, evs: seq<StoredEvent>) {
    forall i, j, k | 0 <= i < j < k < |evs| && evs[i].Named() && evs[j].Named() && evs[k].Named() ::
      (evs[i].pack.device == evs[k].pack.device &&
       TargetOf(c, evs[j].pack.device) == TargetOf(c, evs[k].pack.device)) ==>
      evs[j].pack.device == evs[k].pack.device
  }

  lemma FirstNamesStep(evs: seq<StoredEvent>)
    requires evs != []
    ensures var n := |evs| - 1;
      FirstNames(evs) == FirstNames(evs[..n])
      || (evs[n].Named() && FirstNames(evs) == FirstNames(evs[..n]) + [evs[n].pack.device])
  {
    hide AddPack;
    var n := |evs| - 1;
    if evs[n].Named() { AddPackKeys(Fill([], evs[..n]).buffer, evs[n].pack); }
  }

  lemma {:induction false} FirstNamesOccur(evs: seq<StoredEvent>, p: nat) returns (i: nat)
    requires p < |FirstNames(evs)|
    ensures i < |evs| && evs[i].Named() && evs[i].pack.device == FirstNames(evs)[p]
  {
    assert evs != [];
    hide FirstNames;
    FirstNamesStep(evs);
    if p < |FirstNames(evs[..|evs| - 1])| { i := FirstNamesOccur(evs[..|evs| - 1], p); } else { i := |evs| - 1; }
  }

  // A name is listed behind another one only if it occurs behind it.
  lemma {:induction false} FirstNamesOrder(evs: seq<StoredEvent>, p: nat, q: nat) returns (i: nat, j: nat)
    requires p < q < |FirstNames(evs)|
    ensures i < j < |evs| && evs[i].Named() && evs[j].Named()
    ensures evs[i].pack.device == FirstNames(evs)[p] && evs[j].pack.device == FirstNames(evs)[q]
  {
    assert evs != [];
    hide FirstNames;
    FirstNamesStep(evs);
    if q < |FirstNames(evs[..|evs| - 1])| {
      i, j := FirstNamesOrder(evs[..|evs| - 1], p, q);
    } else {
      i := FirstNamesOccur(evs[..|evs| - 1], p);
      j := |evs| - 1;
    }
  }

  lemma {:induction false} KeysDistinct(buf: Buffer, p: nat, q: nat)
    requires Unique(buf) && p < q < |buf|
    ensures Keys(buf)[p] != Keys(buf)[q]
  {
    var n := |buf| - 1;
    if q < n {
      KeysDistinct(buf[..n], p, q);
    } else {
      assert Keys(buf[..n])[p] == buf[p].0;
    }
  }

  lemma {:induction false} WriterIsListed(evs: seq<StoredEvent>, d: Name, i: Item)
    requires !Fill([], evs).aborted && DeviceAt(evs, d, i).Some?
    ensures d in FirstNames(evs)
  {
    hide AddPack, PackAt;
    var n := |evs| - 1;
    if evs[n].Named() { AddPackKeys(Fill([], evs[..n]).buffer, evs[n].pack); }
    if DeviceAt(evs[..n], d, i).Some? {
      WriterIsListed(evs[..n], d, i);
      FirstNamesGrow(evs, n);
    }
  }

  lemma DeviceAtSnoc(pre: seq<StoredEvent>, e: StoredEvent, d: Name, i: Item)
    ensures DeviceAt(pre + [e], d, i) ==
      Over(DeviceAt(pre, d, i), if e.Named() && e.pack.device == d then PackAt(e.pack, i) else None)
  {
    assert (pre + [e])[..|pre|] == pre;
  }

  lemma {:induction false} NamesAtSkip(c: Config, names: seq<Name>, pre: seq<StoredEvent>, e: StoredEvent, s: Slot)
    requires EventAt(c, e, s) == None
    ensures NamesAt(c, names, pre + [e], s) == NamesAt(c, names, pre, s)
  {
    if names != [] {
      NamesAtSkip(c, names[..|names| - 1], pre, e, s);
      DeviceAtSnoc(pre, e, names[|names| - 1], s.item);
    }
  }

  lemma {:induction false} NamesAtHit(c: Config, names: seq<Name>, pre: seq<StoredEvent>, e: StoredEvent, s: Slot,
                                      p: nat)
    requires p < |names| && EventAt(c, e, s).Some? && names[p] == e.pack.device
    requires forall q | p < q < |names| :: TargetOf(c, names[q]) != s.target
    ensures NamesAt(c, names, pre + [e], s) == EventAt(c, e, s)
  {
    var n := |names| - 1;
    if p < n {
      NamesAtHit(c, names[..n], pre, e, s, p);
    } else {
      DeviceAtSnoc(pre, e, names[n], s.item);
    }
  }

  // The last name of a platform device in a contiguous pack is that of its last event.
  lemma LaterNamesElsewhere(c: Config, pre: seq<StoredEvent>, e: StoredEvent, p: nat)
    requires e.Named() && Contiguous(c, pre + [e])
    requires p < |FirstNames(pre)| && FirstNames(pre)[p] == e.pack.device
    ensures forall q | p < q < |FirstNames(pre)| :: TargetOf(c, FirstNames(pre)[q]) != TargetOf(c, e.pack.device)
  {
    forall q | p < q < |FirstNames(pre)|
      ensures TargetOf(c, FirstNames(pre)[q]) != TargetOf(c, e.pack.device)
    {
      var i, j := FirstNamesOrder(pre, p, q);
      FillKeepsUnique([], pre);
      KeysDistinct(Fill([], pre).buffer, p, q);
      var evs := pre + [e];
      assert evs[i] == pre[i] && evs[j] == pre[j] && evs[|pre|] == e;
    }
  }

  lemma ContiguousPrefix(c: Config, evs: seq<StoredEvent>, n: nat)
    requires n <= |evs| && Contiguous(c, evs)
    ensures Contiguous(c, evs[..n])
  {}

  lemma FirstNamesSnoc(pre: seq<StoredEvent>, e: StoredEvent)
    requires !Fill([], pre + [e]).aborted
    ensures !Fill([], pre).aborted
    ensures FirstNames(pre + [e]) == if e.Named() then AddName(FirstNames(pre), e.pack.device) else FirstNames(pre)
  {
    hide AddPack;
    assert (pre + [e])[..|pre|] == pre;
    if e.Named() { AddPackKeys(Fill([], pre).buffer, e.pack); }
  }

  lemma HistoryAtSnoc(c: Config, pre: seq<StoredEvent>, e: StoredEvent, s: Slot)
    ensures HistoryAt(c, pre + [e], s) == Over(HistoryAt(c, pre, s), EventAt(c, e, s))
  {
    assert (pre + [e])[..|pre|] == pre;
  }

  lemma QuietRegroups(c: Config, pre: seq<StoredEvent>, e: StoredEvent, s: Slot)
    requires e.Named() && EventAt(c, e, s) == None && !Fill([], pre).aborted
    ensures NamesAt(c, AddName(FirstNames(pre), e.pack.device), pre + [e], s) == NamesAt(c, FirstNames(pre), pre, s)
  {
    hide FirstNames, PackAt;
    var names, d := FirstNames(pre), e.pack.device;
    NamesAtSkip(c, AddName(names, d), pre, e, s);
    if d !in names {
      assert (names + [d])[..|names|] == names;
      if DeviceAt(pre, d, s.item).Some? { WriterIsListed(pre, d, s.item); }
    }
  }

  lemma WriteRegroups(c: Config, pre: seq<StoredEvent>, e: StoredEvent, s: Slot)
    requires e.Named() && EventAt(c, e, s).Some? && Contiguous(c, pre + [e])
    ensures NamesAt(c, AddName(FirstNames(pre), e.pack.device), pre + [e], s) == EventAt(c, e, s)
  {
    hide FirstNames, PackAt, Contiguous;
    var names, d := FirstNames(pre), e.pack.device;
    if d in names {
      var p :| 0 <= p < |names| && names[p] == d;
      LaterNamesElsewhere(c, pre, e, p);
      NamesAtHit(c, names, pre, e, s, p);
    } else {
      NamesAtHit(c, names + [d], pre, e, s, |names|);
    }
  }

  lemma RegroupSnoc(c: Config, pre: seq<StoredEvent>, e: StoredEvent, s: Slot)
    requires !Fill([], pre + [e]).aborted && Contiguous(c, pre + [e])
    requires NamesAt(c, FirstNames(pre), pre, s) == HistoryAt(c, pre, s)
    ensures NamesAt(c, FirstNames(pre + [e]), pre + [e], s) == HistoryAt(c, pre + [e], s)
  {
    hide Fill, FirstNames, Contiguous;
    FirstNamesSnoc(pre, e);
    HistoryAtSnoc(c, pre, e, s);
    if EventAt(c, e, s).Some? {
      WriteRegroups(c, pre, e, s);
    } else if e.Named() {
      QuietRegroups(c, pre, e, s);
    } else {
      NamesAtSkip(c, FirstNames(pre), pre, e, s);
    }
  }

  lemma {:induction false} Regroup(c: Config, evs: seq<StoredEvent>, s: Slot)
    requires !Fill([], evs).aborted && Contiguous(c, evs)
    ensures NamesAt(c, FirstNames(evs), evs, s) == HistoryAt(c, evs, s)
  {
    if evs != [] {
      var n := |evs| - 1;
      ContiguousPrefix(c, evs, n);
      Regroup(c, evs[..n], s);
      assert evs == evs[..n] + [evs[n]];
      RegroupSnoc(c, evs[..n], evs[n], s);
    }
  }

  // Everything the buffer holds is written, at its place, by the events as well.
  ghost predicate Residue(buf: Buffer, evs: seq<StoredEvent>) {
    forall d, i :: HeldAt(buf, d, i).Some? ==> DeviceAt(evs, d, i).Some?
  }

  ghost predicate Holds(buf: Buffer, evs: seq<StoredEvent>) {
    forall d, i :: HeldAt(buf, d, i) == DeviceAt(evs, d, i)
  }

  lemma HeldIsDevice(c: Config, buf: Buffer, evs: seq<StoredEvent>, s: Slot)
    requires Unique(buf) && Holds(buf, evs)
    ensures BufferAt(c, buf, s) == NamesAt(c, Keys(buf), evs, s)
  {
    forall k | 0 <= k < |buf| ensures BucketAt(buf[k].1, s.item) == DeviceAt(evs, buf[k].0, s.item) {
      UniqueGet(buf, k);
      assert HeldAt(buf, buf[k].0, s.item) == BucketAt(buf[k].1, s.item);
    }
    BufferByNames(c, buf, evs, s);
  }

  lemma RefilledHolds(buf: Buffer, evs: seq<StoredEvent>)
    requires Residue(buf, evs) && !Fill(buf, evs).aborted
    ensures Holds(Fill(buf, evs).buffer, evs)
  {
    forall d, i ensures HeldAt(Fill(buf, evs).buffer, d, i) == DeviceAt(evs, d, i) {
      FillExactly(buf, evs, d, i);
    }
  }

  lemma RefilledOrder(buf: Buffer, evs: seq<StoredEvent>)
    requires Keys(buf) <= FirstNames(evs)
    ensures Keys(Fill(buf, evs).buffer) == FirstNames(evs)
  {
    RefillKeepsOrder(buf, evs, FirstNames(evs));
  }

  lemma HeldPackMeaning(c: Config, buf: Buffer, evs: seq<StoredEvent>, s: Slot)
    requires Unique(buf) && Keys(buf) == FirstNames(evs) && Holds(buf, evs)
    requires !Fill([], evs).aborted && Contiguous(c, evs)
    ensures BufferAt(c, buf, s) == HistoryAt(c, evs, s)
  {
    HeldIsDevice(c, buf, evs, s);
    Regroup(c, evs, s);
  }

  // A buffer refilled from a contiguous pack, whatever earlier turns left in it of the
  // same pack, is worth the pack applied once in storage order.
  lemma RefilledBufferMeaning(c: Config, buf: Buffer, evs: seq<StoredEvent>, s: Slot)
    requires Unique(buf) && Keys(buf) <= FirstNames(evs) && Residue(buf, evs)
    requires !Fill(buf, evs).aborted && Contiguous(c, evs)
    ensures BufferAt(c, Fill(buf, evs).buffer, s) == HistoryAt(c, evs, s)
  {
    RefilledHolds(buf, evs);
    RefilledOrder(buf, evs);
    FillKeepsUnique(buf, evs);
    AbortsAlike(buf, [], evs);
    HeldPackMeaning(c, Fill(buf, evs).buffer, evs, s);
  }
}
