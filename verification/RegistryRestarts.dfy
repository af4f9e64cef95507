// When the registry's file carries the renames over a restart, and when reconnecting,
// disconnecting and reloading lose or revive a device.
module RegistryRestarts {
  import opened Options
  import opened PyDict
  import opened Registry
  import opened RegistryRuns
  import opened RegistryRoundTrips

  // Written before it, the file carries the platform's names over a restart if and only if
  // every renamed device was disconnected, or connected through a connector.
  lemma SavedRestartFollowsExactly(r: Registry, names: map<Name, Name>, av: Available, x: Context)
    requires Saveable(r) && Lists(x.order, Snapshot(r)) && Follows(r, names)
    ensures Follows(Restarted(Snapshot(r), av, x), names) <==> forall d | d in Keys(r.renamed) :: Persisted(r, d)
  {
    hide Restarted, Follows;
    var q := r.(file := Snapshot(r));
    RenamesDecide(r, q, names);
    RestartFollowsExactly(q, names, av, x);
    forall d ensures FileName(Snapshot(r), d) == Get(r.renamed, d) <==> (d in Keys(r.renamed) ==> Persisted(r, d)) {
      SnapshotName(r, d);
    }
  }

  lemma SnapshotName(r: Registry, d: Name)
    requires Saveable(r)
    ensures FileName(Snapshot(r), d) == if Persisted(r, d) then Get(r.renamed, d) else None
  {}

  // Disconnecting succeeds exactly unless the device is renamed and nothing is left of
  // it that the file could describe.
  lemma DisconnectingRaisesExactly(r: Registry, d: Name)
    requires Saveable(r)
    ensures DelDevice(r, d).raised <==> d in Keys(r.renamed) && !Storable(Popped(r, d))
  {
    var q := Disconnect(r, d);
    if d in Keys(r.renamed) { assert q.disconnected[d] == Popped(r, d); }
    if !(d in Keys(r.renamed) && !Storable(Popped(r, d))) {
      forall e | e in q.disconnected ensures Storable(q.disconnected[e]) {}
    }
  }

  // A renamed device that disconnects and connects again is in none of the maps: its
  // rename is not in the file, a restart forgets it, and disconnecting it once more raises.
  lemma ReconnectingLosesTheRename(r: Registry, d: Name, i: Info, link: Link, x: Context)
    requires Saveable(r) && d in Keys(r.renamed) && Storable(Popped(r, d)) && link.up
    requires Lists(x.order, AddDevice(DelDevice(r, d).reg, d, i, link).reg.file)
    ensures var o := AddDevice(DelDevice(r, d).reg, d, i, link);
      !o.raised && o.value && Get(o.reg.renamed, d) == Get(r.renamed, d)
      && d !in o.reg.connected && d !in o.reg.disconnected && d !in o.reg.file
      && Get(Load(NOTHING.(file := o.reg.file), x).renamed, d) == None
      && DelDevice(o.reg, d).raised
  {
    DisconnectingRaisesExactly(r, d);
    var q := DelDevice(r, d).reg;
    var o := AddDevice(q, d, i, link);
    var s := q.(disconnected := q.disconnected - {d});
    assert Saveable(q) && Saveable(s);
    assert o.reg == s.(file := Snapshot(s));
    SaveThenRestartRecovers(s, x);
    assert !Persisted(s, d);
    DisconnectingRaisesExactly(o.reg, d);
  }

  // Any notification reconnects exactly the disconnected devices whose connector exists: the
  // file's mark that a device is disconnected is not read.
  lemma ReloadReconnectsExactly(r: Registry, x: Context, d: Name, name: string, id: string, kind: string)
    requires Saveable(r) && Lists(x.order, Snapshot(r)) && d !in r.connected
    requires d in r.disconnected ==> Tells(r.disconnected[d], name, id, kind)
    ensures d in SaveAndLoad(r, x).reg.connected <==> d in r.disconnected && Exists(x.av, name, id)
  {
    hide LoadSome;
    if d in r.disconnected {
      ReloadFindsTheConnector(r, x, d, name, id, kind);
    } else {
      FileLeavesOut(r, d);
      LoadMaps(r.(file := Snapshot(r)), Snapshot(r), x.order, x, d);
    }
  }
}
