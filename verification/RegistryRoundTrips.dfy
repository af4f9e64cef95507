// What becomes of a device over a save and a restart: the connector and the type it comes
// back with, whatever was done to it before.
module RegistryRoundTrips {
  import opened Options
  import opened PyDict
  import opened Registry
  import opened RegistryRuns

  // The record of a device names a connector, by name and id, and the device's type.
  predicate Tells(i: Info, name: string, id: string, kind: string) {
    match i
    case Live(c, t) => c.Some? && c.value.name == name && c.value.id == id && t == kind
    case Loaded(n, k, t) => n == name && k == id && t == kind
    case Missing => false
  }

  // The record that is saved of a device: the one among the disconnected goes first.
  predicate SavedAs(r: Registry, d: Name, name: string, id: string, kind: string) {
    if d in r.disconnected then Tells(r.disconnected[d], name, id, kind)
    else d in r.connected && HasConnector(r.connected[d]) && Tells(r.connected[d], name, id, kind)
  }

  predicate Exists(av: Available, name: string, id: string) { id in av.byId || name in av.byName }

  // The device is there with the connector of that id, or, as there is none, with the one of
  // that name; it is not there if there is neither.
  predicate BackIn(m: map<Name, Info>, d: Name, av: Available, name: string, id: string, kind: string) {
    && (id in av.byId ==> d in m && m[d] == Live(Some(av.byId[id]), kind))
    && (id !in av.byId && name in av.byName ==> d in m && m[d] == Live(Some(av.byName[name]), kind))
    && (!Exists(av, name, id) ==> d !in m)
  }

  // The file has the record, the new name, and a mark if the device is disconnected.
  lemma FileTells(r: Registry, d: Name, name: string, id: string, kind: string)
    requires Saveable(r) && SavedAs(r, d, name, id, kind)
    ensures d in Snapshot(r)
    ensures Snapshot(r)[d] == FileEntry(name, id, kind, Get(r.renamed, d), d in r.disconnected)
  {}

  lemma FileLeavesOut(r: Registry, d: Name)
    requires Saveable(r)
    ensures d in Snapshot(r) <==> d in r.disconnected || (d in r.connected && HasConnector(r.connected[d]))
  {}

  // ---------- Loading a file ----------

  // The record that an entry brings in, if its connector exists.
  predicate Comes(file: map<Name, FileEntry>, d: Name, av: Available) { d in file && Resolve(av, file[d]).Some? }

  function Brought(file: map<Name, FileEntry>, d: Name, av: Available): Info
    requires Comes(file, d, av)
  {
    Live(Resolve(av, file[d]), file[d].deviceType)
  }

  // The map after loading the entry of d.
  predicate Gets(m: map<Name, Info>, q: map<Name, Info>, file: map<Name, FileEntry>, d: Name, av: Available) {
    q == if Comes(file, d, av) then m[d := Brought(file, d, av)] else m
  }

  lemma LoadNextMaps(r: Registry, file: map<Name, FileEntry>, d: Name, x: Context)
    requires Saveable(r)
    ensures Gets(r.connected, LoadNext(r, file, d, x).connected, file, d, x.av)
    ensures Gets(r.saved, LoadNext(r, file, d, x).saved, file, d, x.av)
  {
    if Comes(file, d, x.av) {
      var y := Recall(r, d, file[d]);
      ReAddKeepsNames(y.(connected := y.connected[d := Brought(file, d, x.av)]), x.up);
    }
  }

  // What a map has after loading, if it had `before` in it.
  predicate Holds(m: map<Name, Info>, before: map<Name, Info>, file: map<Name, FileEntry>, e: Name, av: Available,
                  listed: bool) {
    if listed && Comes(file, e, av) then e in m && m[e] == Brought(file, e, av)
    else if e in before then e in m && m[e] == before[e]
    else e !in m
  }

  lemma {:induction false} LoadMaps(r: Registry, file: map<Name, FileEntry>, order: seq<Name>, x: Context, e: Name)
    requires Saveable(r)
    ensures Holds(LoadSome(r, file, order, x).connected, r.connected, file, e, x.av, e in order)
    ensures Holds(LoadSome(r, file, order, x).saved, r.saved, file, e, x.av, e in order)
  {
    if order != [] {
      hide LoadNext, Brought, Comes;
      var n := |order| - 1;
      assert order == order[..n] + [order[n]];
      LoadMaps(r, file, order[..n], x, e);
      LoadNextMaps(LoadSome(r, file, order[..n], x), file, order[n], x);
    }
  }

  // ---------- Restarts ----------

  // A device comes back as it was saved, with the connector of its id or, failing that, of its
  // name, be it connected or disconnected when it was saved.
  lemma RestartFindsTheConnector(r: Registry, x: Context, d: Name, name: string, id: string, kind: string)
    requires Saveable(r) && Lists(x.order, Snapshot(r)) && SavedAs(r, d, name, id, kind)
    ensures BackIn(Load(NOTHING.(file := Snapshot(r)), x).connected, d, x.av, name, id, kind)
    ensures BackIn(Load(NOTHING.(file := Snapshot(r)), x).saved, d, x.av, name, id, kind)
  {
    hide LoadSome;
    FileTells(r, d, name, id, kind);
    LoadMaps(NOTHING.(file := Snapshot(r)), Snapshot(r), x.order, x, d);
  }

  // No other device comes back.
  lemma RestartBringsNoOther(r: Registry, x: Context, d: Name)
    requires Saveable(r) && Lists(x.order, Snapshot(r))
    requires d !in r.disconnected && !(d in r.connected && HasConnector(r.connected[d]))
    ensures d !in Load(NOTHING.(file := Snapshot(r)), x).connected && d !in Load(NOTHING.(file := Snapshot(r)), x).saved
  {
    hide LoadSome;
    FileLeavesOut(r, d);
    LoadMaps(NOTHING.(file := Snapshot(r)), Snapshot(r), x.order, x, d);
  }

  // The service loads the file twice; what connectors come with the second load replace
  // those of the first.
  lemma StartFindsTheConnector(r: Registry, av: Available, x: Context, d: Name, name: string, id: string,
                               kind: string)
    requires Saveable(r) && Lists(x.order, Snapshot(r)) && SavedAs(r, d, name, id, kind)
    ensures BackIn(Restarted(Snapshot(r), av, x).connected, d, if Exists(x.av, name, id) then x.av else av,
                   name, id, kind)
  {
    hide LoadSome, BackIn;
    var file := Snapshot(r);
    var first := Load(NOTHING.(file := file), Offline(av, x));
    OfflineLoadKeepsFile(NOTHING.(file := file), file, x.order, Offline(av, x));
    RestartFindsTheConnector(r, Offline(av, x), d, name, id, kind);
    FileTells(r, d, name, id, kind);
    LoadMaps(first, file, x.order, x, d);
    SecondLoad(first.connected, Load(first, x).connected, file, d, av, x.av, name, id, kind);
  }

  lemma SecondLoad(before: map<Name, Info>, after: map<Name, Info>, file: map<Name, FileEntry>, d: Name, av: Available,
                   more: Available, name: string, id: string, kind: string)
    requires d in file && file[d].connectorName == name && file[d].connectorId == id && file[d].deviceType == kind
    requires BackIn(before, d, av, name, id, kind) && Holds(after, before, file, d, more, true)
    ensures BackIn(after, d, if Exists(more, name, id) then more else av, name, id, kind)
  {}

  // A notification saves and loads while the service runs: what the gateway has no connector
  // for stays as it is, all else gets its connector anew, disconnected devices too.
  lemma ReloadFindsTheConnector(r: Registry, x: Context, d: Name, name: string, id: string, kind: string)
    requires Saveable(r) && Lists(x.order, Snapshot(r)) && SavedAs(r, d, name, id, kind)
    ensures var m := SaveAndLoad(r, x).reg.connected;
      if Exists(x.av, name, id) then BackIn(m, d, x.av, name, id, kind)
      else if d in r.connected then d in m && m[d] == r.connected[d]
      else d !in m
  {
    hide LoadSome;
    FileTells(r, d, name, id, kind);
    LoadMaps(r.(file := Snapshot(r)), Snapshot(r), x.order, x, d);
  }

  // ---------- The disconnected devices of a restart ----------

  // Loaded from nothing, the entries so far leave this of e.
  predicate Left(q: Registry, file: map<Name, FileEntry>, e: Name, x: Context, listed: bool) {
    && (e in Keys(q.renamed) <==> listed && e in file && file[e].renaming.Some?)
    && (e in q.connected <==> listed && Comes(file, e, x.av))
    && (e in q.disconnected <==>
          listed && e in file && file[e].renaming.Some? && !(x.up && Comes(file, e, x.av)))
    && (e in q.disconnected ==>
          q.disconnected[e] == Loaded(file[e].connectorName, file[e].connectorId, file[e].deviceType))
  }

  lemma ReAddLeaves(r: Registry, up: bool, e: Name)
    requires Saveable(r)
    ensures var q := ReAdd(r, up).disconnected;
      && (e in q <==> e in r.disconnected && !(up && e in r.connected && e in Keys(r.renamed)))
      && (e in q ==> q[e] == r.disconnected[e])
  {
    if up && e in r.connected && e in Keys(r.renamed) { assert e in RenamedConnected(r); }
  }

  lemma RecallSays(r: Registry, d: Name, f: FileEntry, e: Name)
    ensures var q := Recall(r, d, f);
      && (e in Keys(q.renamed) <==> e in Keys(r.renamed) || (e == d && f.renaming.Some?))
      && (e in q.disconnected <==> e in r.disconnected || (e == d && f.renaming.Some?))
      && (e == d && f.renaming.Some? ==> q.disconnected[e] == Loaded(f.connectorName, f.connectorId, f.deviceType))
      && (!(e == d && f.renaming.Some?) && e in q.disconnected ==> q.disconnected[e] == r.disconnected[e])
      && q.connected == r.connected
  {
    if f.renaming.Some? { PutKeys(r.renamed, d, f.renaming.value); }
  }

  lemma RestoreSays(r: Registry, d: Name, i: Info, up: bool, e: Name)
    requires Saveable(r)
    ensures var q := Restore(r, d, i, up);
      && q.renamed == r.renamed && q.connected == r.connected[d := i]
      && (e in q.disconnected <==>
            e in r.disconnected && !(up && (e == d || e in r.connected) && e in Keys(r.renamed)))
      && (e in q.disconnected ==> q.disconnected[e] == r.disconnected[e])
  {
    var z := r.(connected := r.connected[d := i]);
    ReAddKeepsNames(z, up);
    ReAddLeaves(z, up, e);
  }

  lemma NextIs(r: Registry, file: map<Name, FileEntry>, d: Name, x: Context)
    requires Saveable(r) && d in file
    ensures Saveable(Recall(r, d, file[d]))
    ensures LoadNext(r, file, d, x) ==
      if Comes(file, d, x.av) then Restore(Recall(r, d, file[d]), d, Brought(file, d, x.av), x.up)
      else Recall(r, d, file[d])
  {}

  lemma NextLeaves(r: Registry, file: map<Name, FileEntry>, d: Name, x: Context, e: Name, listed: bool)
    requires Saveable(r) && Left(r, file, e, x, listed)
    ensures Left(LoadNext(r, file, d, x), file, e, x, listed || e == d)
  {
    if d in file {
      NextIs(r, file, d, x);
      hide Recall, Restore, Keys, LoadNext, Snapshot, Comes, Brought;
      var y := Recall(r, d, file[d]);
      RecallSays(r, d, file[d], e);
      if Comes(file, d, x.av) { RestoreSays(y, d, Brought(file, d, x.av), x.up, e); }
    }
  }

  lemma {:induction false} LoadLeaves(file: map<Name, FileEntry>, order: seq<Name>, x: Context, e: Name)
    ensures Left(LoadSome(NOTHING.(file := file), file, order, x), file, e, x, e in order)
  {
    if order != [] {
      hide Left, LoadNext;
      var n := |order| - 1;
      assert order == order[..n] + [order[n]];
      LoadLeaves(file, order[..n], x, e);
      NextLeaves(LoadSome(NOTHING.(file := file), file, order[..n], x), file, order[n], x, e, e in order[..n]);
    }
  }

  // After a restart exactly those renamed devices count as disconnected that the gateway has
  // no connector for, or, loaded offline, all of them; each with its record.
  lemma RestartKeepsDisconnected(r: Registry, x: Context, d: Name, name: string, id: string, kind: string)
    requires Saveable(r) && Lists(x.order, Snapshot(r)) && SavedAs(r, d, name, id, kind)
    ensures var m := Load(NOTHING.(file := Snapshot(r)), x).disconnected;
      && (d in m <==> d in Keys(r.renamed) && !(x.up && Exists(x.av, name, id)))
      && (d in m ==> m[d] == Loaded(name, id, kind))
  {
    hide LoadSome;
    FileTells(r, d, name, id, kind);
    LoadLeaves(Snapshot(r), x.order, x, d);
  }

  // ---------- After each operation ----------

  // A device that is added comes back with its connector, announced or not; its details are
  // the connector's kind and name.
  lemma AddedDeviceComesBack(r: Registry, d: Name, k: Connector, kind: string, link: Link, x: Context)
    requires Saveable(r) && link.up && d !in Keys(r.renamed) && !Known(r, d) && d !in r.disconnected
    requires Lists(x.order, AddDevice(r, d, Live(Some(k), kind), link).reg.file)
    ensures var o := AddDevice(r, d, Live(Some(k), kind), link);
      && d in o.reg.connected && o.reg.connected[d] == Live(Some(k), kind)
      && (o.raised <==> link.connectFails)
      && (o.value <==> !link.connectFails
                       && (!link.sendFails || (d in r.added && r.added[d] == Details(k.kind, k.name))))
      && (!link.connectFails ==> d in o.reg.added && o.reg.added[d] == Details(k.kind, k.name))
      && BackIn(Load(NOTHING.(file := o.reg.file), x).connected, d, x.av, k.name, k.id, kind)
  {
    hide LoadSome, BackIn, Snapshot;
    var q := Register(r, d, Live(Some(k), kind));
    assert Saveable(q) && SavedAs(q, d, k.name, k.id, kind);
    hide Saveable, SavedAs;
    assert AddDevice(r, d, Live(Some(k), kind), link).reg.file == Snapshot(q);
    RestartFindsTheConnector(q, x, d, k.name, k.id, kind);
  }

  // A changed connector is the device's connector, now and after a restart; the other
  // devices stay as they are.
  lemma ChangedConnectorComesBack(r: Registry, d: Name, k: Connector, x: Context)
    requires Saveable(r) && d in r.connected && !r.connected[d].Missing? && d !in r.disconnected
    requires r.connected[d] != Live(Some(k), r.connected[d].deviceType)
    requires Lists(x.order, UpdateDevice(r, d, k).reg.file)
    ensures var o := UpdateDevice(r, d, k);
      && o.reg.connected == r.connected[d := Live(Some(k), r.connected[d].deviceType)] && !o.raised
      && BackIn(Load(NOTHING.(file := o.reg.file), x).connected, d, x.av, k.name, k.id, r.connected[d].deviceType)
  {
    hide LoadSome, BackIn;
    var q := r.(connected := r.connected[d := Live(Some(k), r.connected[d].deviceType)]);
    assert UpdateDevice(r, d, k).reg == q.(file := Snapshot(q));
    RestartFindsTheConnector(q, x, d, k.name, k.id, r.connected[d].deviceType);
  }

  // A device that disconnects stays away over a restart if it was not renamed; a renamed one
  // comes back if its connector exists.
  lemma DisconnectedDeviceComesBackExactly(r: Registry, d: Name, name: string, id: string, kind: string, x: Context)
    requires Saveable(r) && Lists(x.order, DelDevice(r, d).reg.file)
    requires if d in r.connected then Tells(r.connected[d], name, id, kind)
             else d in r.disconnected && Tells(r.disconnected[d], name, id, kind)
    requires d !in Keys(r.renamed) && d in r.connected ==> d !in r.disconnected
    ensures var o := DelDevice(r, d);
      && !o.raised && d !in o.reg.connected
      && (d in Load(NOTHING.(file := o.reg.file), x).connected <==> d in Keys(r.renamed) && Exists(x.av, name, id))
      && (d in Keys(r.renamed) ==> BackIn(Load(NOTHING.(file := o.reg.file), x).connected, d, x.av, name, id, kind))
  {
    hide LoadSome, Snapshot;
    var q := Disconnect(r, d);
    if d in Keys(r.renamed) { assert q.disconnected[d] == Popped(r, d); }
    assert Saveable(q) by { forall e | e in q.disconnected ensures Storable(q.disconnected[e]) {} }
    assert DelDevice(r, d).reg == q.(file := Snapshot(q));
    if d in Keys(r.renamed) {
      RestartFindsTheConnector(q, x, d, name, id, kind);
    } else {
      RestartBringsNoOther(q, x, d);
    }
  }

  // ---------- Other devices ----------

  function Lookup(m: map<Name, Info>, d: Name): Option<Info> { if d in m then Some(m[d]) else None }

  // The registry has the same of this device.
  predicate SameOf(r: Registry, q: Registry, d: Name) {
    && Lookup(r.connected, d) == Lookup(q.connected, d) && Lookup(r.saved, d) == Lookup(q.saved, d)
    && Lookup(r.disconnected, d) == Lookup(q.disconnected, d) && Get(r.renamed, d) == Get(q.renamed, d)
    && (d in r.added <==> d in q.added) && (d in r.added ==> r.added[d] == q.added[d])
  }

  lemma SavingStays(r: Registry, q: Registry, e: Name)
    requires SameOf(r, q, e)
    ensures SameOf(r, Save(q).reg, e)
  {
    hide Snapshot, Saveable;
  }

  lemma DetailsStay(r: Registry, d: Name, i: Info, link: Link, e: Name)
    requires e != d
    ensures SameOf(r, SendDetails(r, d, i, link).reg, e)
  {}

  lemma AddingStays(r: Registry, d: Name, e: Name, i: Info, link: Link)
    requires e != d
    ensures SameOf(r, AddDevice(r, d, i, link).reg, e)
  {
    hide Save, SendDetails;
    SavingStays(r, r.(disconnected := r.disconnected - {d}), e);
    SavingStays(r, Register(r, d, i), e);
    var o := Save(Register(r, d, i));
    DetailsStay(o.reg, d, i, link, e);
    SameTwice(r, o.reg, SendDetails(o.reg, d, i, link).reg, e);
  }

  lemma SameTwice(r: Registry, q: Registry, p: Registry, e: Name)
    requires SameOf(r, q, e) && SameOf(q, p, e)
    ensures SameOf(r, p, e)
  {}

  // Adding a device, disconnecting it, changing its connector and forgetting it leave all
  // others as they are.
  lemma OthersStay(r: Registry, d: Name, e: Name, i: Info, k: Connector, link: Link)
    requires e != d
    ensures SameOf(r, AddDevice(r, d, i, link).reg, e) && SameOf(r, DelDevice(r, d).reg, e)
    ensures SameOf(r, UpdateDevice(r, d, k).reg, e)
    ensures forall name | LocalName(r, name) == d :: SameOf(r, Forget(r, name), e)
  {
    hide Save, AddDevice, Popped;
    AddingStays(r, d, e, i, link);
    SavingStays(r, Disconnect(r, d), e);
    if d in r.connected && !r.connected[d].Missing? {
      SavingStays(r, r.(connected := r.connected[d := WithConnector(r.connected[d], k)]), e);
    }
    RemoveGet(r.renamed, d, e);
  }

  // A device is left alone that the registry has connected or that is the new name of a
  // renamed one, and so is every device while the platform is not connected.
  lemma KnownDeviceIsLeftAlone(r: Registry, d: Name, e: Name, i: Info, link: Link)
    requires !link.up || (d !in Keys(r.renamed) && (d in r.connected || Get(r.renamed, e) == Some(d)))
    ensures AddDevice(r, d, i, link) == Outcome(r, false, link.up)
  {
    if link.up && d !in r.connected { KeyByValueMisses(r.renamed, d, e); }
  }

  // ---------- Operations that change nothing ----------

  // A connector that is the device's already is not saved anew.
  lemma SameConnectorChangesNothing(r: Registry, d: Name, k: Connector)
    requires d in r.connected && r.connected[d].Live? && r.connected[d].connector == Some(k)
    ensures UpdateDevice(r, d, k) == Outcome(r, false, true)
  {}

  // Nor does a notification change anything whose handling is disabled.
  lemma DisabledHandlingChangesNothing(r: Registry, old_: Name, new_: Name, x: Context)
    ensures Rename(r, false, old_, new_, x) == Outcome(r, false, true)
  {}

  // A device that gets the name it has keeps all its lookups.
  lemma RenamingToItselfChangesNothing(r: Registry, name: Name, e: Name)
    requires Unique(r.renamed) && Get(r.renamed, name) != Some(name)
    ensures Get(NoteRename(r, name, name), e) == Get(r.renamed, e)
  {
    var key := KeyByValue(r.renamed, name);
    if key.Some? {
      KeyByValueFinds(r.renamed, name);
      PutGet(r.renamed, key.value, name, e);
    }
  }

  // Adding all connected devices again saves them if a renamed one is among them.
  lemma ReAddedIsSavedExactly(r: Registry, up: bool)
    requires Saveable(r)
    ensures Saveable(ReAdd(r, up))
    ensures ReAdd(r, up).file ==
      if up && exists d :: d in r.connected && d in Keys(r.renamed) then Snapshot(ReAdd(r, up)) else r.file
  {
    if up && RenamedConnected(r) != {} {
      var d :| d in RenamedConnected(r);
      WrittenIgnoresFile(Without(r, RenamedConnected(r)), Snapshot(Without(r, RenamedConnected(r))));
    } else if up {
      assert forall d :: d in r.connected && d in Keys(r.renamed) ==> d in RenamedConnected(r);
    }
  }
}
