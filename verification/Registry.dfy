// The gateway's device registry: connected, saved, added and disconnected devices, the
// renames the platform told of, and the file they are persisted in.
module Registry {
  import opened Options
  import opened PyDict

  type Name = string

  datatype Connector = Connector(name: string, id: string, kind: string)

  // What the device maps hold: a device with its connector, a record as it was loaded
  // from the file, or nothing at all.
  datatype Info =
    | Live(connector: Option<Connector>, deviceType: string)
    | Loaded(connectorName: string, connectorId: string, deviceType: string)
    | Missing

  datatype FileEntry = FileEntry(connectorName: string, connectorId: string, deviceType: string,
                                 renaming: Option<Name>, disconnected: bool)

  datatype Details = Details(kind: string, connectorName: string)

  datatype Registry = Registry(
    connected: map<Name, Info>, saved: map<Name, Info>, added: map<Name, Details>,
    disconnected: map<Name, Info>, renamed: Dict<Name, Name>, file: map<Name, FileEntry>)

  const NOTHING: Registry := Registry(map[], map[], map[], map[], [], map[])

  // An operation's new registry, whether it raised, and the value it returned.
  datatype Outcome = Outcome(reg: Registry, raised: bool, value: bool)

  // ---------- Saving ----------

  predicate HasConnector(i: Info) { i.Live? && i.connector.Some? }

  predicate Storable(i: Info) { HasConnector(i) || i.Loaded? }

  function EntryFor(r: Registry, d: Name, i: Info, disconnected: bool): FileEntry
    requires Storable(i)
  {
    match i
    case Live(c, t) => FileEntry(c.value.name, c.value.id, t, Get(r.renamed, d), disconnected)
    case Loaded(n, id, t) => FileEntry(n, id, t, Get(r.renamed, d), disconnected)
  }

  // The file is only written if every disconnected device can be described.
  predicate Saveable(r: Registry) { forall d | d in r.disconnected :: Storable(r.disconnected[d]) }

  predicate Persisted(r: Registry, d: Name) {
    (d in r.connected && HasConnector(r.connected[d])) || d in r.disconnected
  }

  function Snapshot(r: Registry): map<Name, FileEntry>
    requires Saveable(r)
  {
    map d | d in r.connected.Keys + r.disconnected.Keys && Persisted(r, d) ::
      if d in r.disconnected then EntryFor(r, d, r.disconnected[d], true)
      else EntryFor(r, d, r.connected[d], false)
  }

  function Save(r: Registry): Outcome {
    if Saveable(r) then Outcome(r.(file := Snapshot(r)), false, true) else Outcome(r, true, false)
  }

  // ---------- Adding and removing ----------

  // `up`: the platform is connected; `connectFails`, `sendFails`: announcing the device,
  // or sending its details, raises.
  datatype Link = Link(up: bool, connectFails: bool, sendFails: bool)

  function DetailsOf(c: Connector): Details { Details(c.kind, c.name) }

  function Register(r: Registry, d: Name, i: Info): Registry {
    r.(connected := r.connected[d := i], saved := r.saved[d := i])
  }

  function SendDetails(r: Registry, d: Name, i: Info, link: Link): Outcome {
    if !HasConnector(i) || (d in r.added && r.added[d] == DetailsOf(i.connector.value)) then Outcome(r, false, true)
    else Outcome(r.(added := r.added[d := DetailsOf(i.connector.value)]), false, !link.sendFails)
  }

  function Announce(o: Outcome, d: Name, i: Info, link: Link): Outcome {
    if o.raised || link.connectFails then Outcome(o.reg, true, false) else SendDetails(o.reg, d, i, link)
  }

  // A name the registry already stands for: a renamed device, one that is connected, or
  // the new name of a renamed one.
  predicate Known(r: Registry, d: Name) { d in r.connected || KeyByValue(r.renamed, d).Some? }

  function AddDevice(r: Registry, d: Name, i: Info, link: Link): Outcome {
    if !link.up then Outcome(r, false, false)
    else if d in Keys(r.renamed) then Save(r.(disconnected := r.disconnected - {d}))
    else if Known(r, d) then Outcome(r, false, true)
    else Announce(Save(Register(r, d, i)), d, i, link)
  }

  function Popped(r: Registry, d: Name): Info {
    if d in r.connected then r.connected[d] else if d in r.disconnected then r.disconnected[d] else Missing
  }

  function Disconnect(r: Registry, d: Name): Registry {
    r.(connected := r.connected - {d}, saved := r.saved - {d}, added := r.added - {d},
       disconnected :=
         if d in Keys(r.renamed) then r.disconnected[d := Popped(r, d)]
         else if d in r.connected then r.disconnected
         else r.disconnected - {d})
  }

  function DelDevice(r: Registry, d: Name): Outcome { Save(Disconnect(r, d)) }

  // ---------- Loading ----------

  datatype Available = Available(byId: map<string, Connector>, byName: map<string, Connector>)

  function Resolve(av: Available, e: FileEntry): Option<Connector> {
    if e.connectorId in av.byId then Some(av.byId[e.connectorId])
    else if e.connectorName in av.byName then Some(av.byName[e.connectorName])
    else None
  }

  function Recall(r: Registry, d: Name, e: FileEntry): Registry {
    if e.renaming == None then r
    else r.(renamed := Put(r.renamed, d, e.renaming.value),
            disconnected := r.disconnected[d := Loaded(e.connectorName, e.connectorId, e.deviceType)])
  }

  function RenamedConnected(r: Registry): set<Name> { set d | d in r.connected && d in Keys(r.renamed) }

  function Without(r: Registry, ds: set<Name>): Registry { r.(disconnected := r.disconnected - ds) }

  function Written(r: Registry): Registry
    requires Saveable(r)
  {
    r.(file := Snapshot(r))
  }

  // All connected devices are added once more: while the platform is connected, renamed
  // ones leave the disconnected map and the file is written.
  function ReAdd(r: Registry, up: bool): Registry
    requires Saveable(r)
  {
    if !up || RenamedConnected(r) == {} then r else Written(Without(r, RenamedConnected(r)))
  }

  function LoadOne(r: Registry, d: Name, e: FileEntry, av: Available, up: bool): (x: Registry)
    requires Saveable(r)
    ensures Saveable(x)
  {
    match Resolve(av, e)
    case None => Recall(r, d, e)
    case Some(c) => Restore(Recall(r, d, e), d, Live(Some(c), e.deviceType), up)
  }

  function Restore(r: Registry, d: Name, i: Info, up: bool): (x: Registry)
    requires Saveable(r)
    ensures Saveable(x)
  {
    var y := ReAdd(r.(connected := r.connected[d := i]), up);
    y.(saved := y.saved[d := i])
  }

  // What surrounds a reload: the connectors that exist, whether the platform is
  // connected, and the order in which the file lists its devices.
  datatype Context = Context(av: Available, up: bool, order: seq<Name>)

  ghost predicate Lists(order: seq<Name>, file: map<Name, FileEntry>) {
    forall d :: d in order <==> d in file
  }

  function LoadNext(r: Registry, file: map<Name, FileEntry>, d: Name, x: Context): (y: Registry)
    requires Saveable(r)
    ensures Saveable(y)
  {
    if d in file then LoadOne(r, d, file[d], x.av, x.up) else r
  }

  function LoadSome(r: Registry, file: map<Name, FileEntry>, order: seq<Name>, x: Context): (y: Registry)
    requires Saveable(r)
    ensures Saveable(y)
  {
    if order == [] then r
    else LoadNext(LoadSome(r, file, order[..|order| - 1], x), file, order[|order| - 1], x)
  }

  function Load(r: Registry, x: Context): (y: Registry)
    requires Saveable(r)
    ensures Saveable(y)
  {
    LoadSome(r, r.file, x.order, x)
  }

  // A start from the file: it is loaded once before the platform connection exists, with
  // the connectors `av`, and once more when the connectors are up.
  function Offline(av: Available, x: Context): Context { Context(av, false, x.order) }

  function Restarted(file: map<Name, FileEntry>, av: Available, x: Context): (r: Registry)
    ensures Saveable(r)
  {
    Load(Load(NOTHING.(file := file), Offline(av, x)), x)
  }

  // ---------- A changed connector ----------

  function WithConnector(i: Info, c: Connector): Info
    requires !i.Missing?
  {
    Live(Some(c), i.deviceType)
  }

  // The connector of a connected device changes; the file is written if it is another one.
  function UpdateDevice(r: Registry, d: Name, c: Connector): Outcome {
    if d !in r.connected || r.connected[d].Missing? then Outcome(r, false, true)
    else if r.connected[d] == WithConnector(r.connected[d], c) then Outcome(r, false, true)
    else Save(r.(connected := r.connected[d := WithConnector(r.connected[d], c)]))
  }

  // ---------- Notifications of the platform ----------

  function SaveAndLoad(r: Registry, x: Context): Outcome {
    if Saveable(r) then Outcome(Load(r.(file := Snapshot(r)), x), false, true) else Outcome(r, true, false)
  }

  function NoteRename(r: Registry, old_: Name, new_: Name): Dict<Name, Name> {
    match KeyByValue(r.renamed, old_)
    case None => if old_ == new_ then r.renamed else Put(r.renamed, old_, new_)
    case Some(d) => if d == new_ then Remove(r.renamed, d) else Put(r.renamed, d, new_)
  }

  function Rename(r: Registry, enabled: bool, old_: Name, new_: Name, x: Context): Outcome {
    if enabled then SaveAndLoad(r.(renamed := NoteRename(r, old_, new_)), x) else Outcome(r, false, true)
  }

  // The local name a platform name stands for.
  function LocalOf(m: Dict<Name, Name>, name: Name): Name {
    match KeyByValue(m, name) case Some(d) => d case None => name
  }

  function LocalName(r: Registry, name: Name): Name { LocalOf(r.renamed, name) }

  function Forget(r: Registry, name: Name): Registry {
    var d := LocalName(r, name);
    r.(renamed := if KeyByValue(r.renamed, name).Some? then Remove(r.renamed, d) else r.renamed,
       connected := r.connected - {d}, saved := r.saved - {d}, added := r.added - {d},
       disconnected := r.disconnected - {d})
  }

  function Delete(r: Registry, name: Name, x: Context): Outcome { SaveAndLoad(Forget(r, name), x) }

  // The name under which a local device is sent to the platform.
  function UplinkOf(m: Dict<Name, Name>, d: Name): Name {
    match Get(m, d) case Some(name) => name case None => d
  }

  function UplinkName(r: Registry, d: Name): Name { UplinkOf(r.renamed, d) }

  lemma WrittenIgnoresFile(r: Registry, file: map<Name, FileEntry>)
    requires Saveable(r)
    ensures Written(r.(file := file)) == Written(r)
  {}

  // ---------- The registry as the service keeps it ----------

  class DeviceRegistry {
    var connected: map<Name, Info>
    var saved: map<Name, Info>
    var added: map<Name, Details>
    var disconnected: map<Name, Info>
    var renamed: Dict<Name, Name>
    var file: map<Name, FileEntry>

    function Abs(): Registry
      reads this
    {
      Registry(connected, saved, added, disconnected, renamed, file)
    }

    constructor ()
      ensures Abs() == NOTHING
    {
      connected, saved, added, disconnected, renamed, file := map[], map[], map[], map[], [], map[];
    }

    constructor Start(file: map<Name, FileEntry>, av: Available, x: Context)
      ensures Abs() == Restarted(file, av, x)
    {
      connected, saved, added, disconnected, renamed := map[], map[], map[], map[], [];
      this.file := file;
      new;
      assert Abs() == NOTHING.(file := file);
      LoadPersistentDevices(Offline(av, x));
      LoadPersistentDevices(x);
    }

    method SavePersistentDevices() returns (raised: bool)
      modifies this`file
      ensures Abs() == Save(old(Abs())).reg && raised == Save(old(Abs())).raised
    {
      raised := !Saveable(Abs());
      if !raised { file := Snapshot(Abs()); }
    }

    method Add(d: Name, i: Info, link: Link) returns (raised: bool, value: bool)
      modifies this
      ensures Outcome(Abs(), raised, value) == AddDevice(old(Abs()), d, i, link)
    {
      if !link.up { return false, false; }
      if d in Keys(renamed) {
        disconnected := disconnected - {d};
        raised := SavePersistentDevices();
        return raised, !raised;
      }
      if d in connected || KeyByValue(renamed, d).Some? { return false, true; }
      connected, saved := connected[d := i], saved[d := i];
      raised := SavePersistentDevices();
      if raised || link.connectFails { return true, false; }
      if HasConnector(i) && !(d in added && added[d] == DetailsOf(i.connector.value)) {
        added := added[d := DetailsOf(i.connector.value)];
        if link.sendFails { return false, false; }
      }
      return false, true;
    }

    method Del(d: Name) returns (raised: bool)
      modifies this
      ensures Abs() == DelDevice(old(Abs()), d).reg && raised == DelDevice(old(Abs()), d).raised
    {
      var device := if d in connected then connected[d] else if d in disconnected then disconnected[d] else Missing;
      if d in connected { connected := connected - {d}; } else { disconnected := disconnected - {d}; }
      if d in Keys(renamed) { disconnected := disconnected[d := device]; }
      saved, added := saved - {d}, added - {d};
      assert old(Abs()).connected - {d} == connected;
      assert Disconnect(old(Abs()), d).disconnected == disconnected;
      raised := SavePersistentDevices();
    }

    method Update(d: Name, c: Connector) returns (raised: bool)
      modifies this`connected, this`file
      ensures Abs() == UpdateDevice(old(Abs()), d, c).reg && raised == UpdateDevice(old(Abs()), d, c).raised
    {
      if d !in connected || connected[d].Missing? { return false; }
      var other := connected[d] != WithConnector(connected[d], c);
      connected := connected[d := WithConnector(connected[d], c)];
      if !other {
        assert connected == old(connected);
        return false;
      }
      raised := SavePersistentDevices();
    }

    // add_device once more for every connected device.
    method ReAddConnected(up: bool)
      requires Saveable(Abs())
      modifies this`disconnected, this`file
      ensures Abs() == ReAdd(old(Abs()), up)
    {
      if !up { return; }
      var todo := connected.Keys;
      ghost var done: set<Name> := {};
      while todo != {}
        invariant done == RenamedConnected(old(Abs())) - todo && todo <= connected.Keys
        invariant disconnected == old(disconnected) - done
        invariant if done == {} then file == old(file) else Abs() == Written(Without(old(Abs()), done))
        decreases todo
      {
        var d :| d in todo;
        todo := todo - {d};
        if d in Keys(renamed) {
          disconnected := disconnected - {d};
          done := done + {d};
          assert disconnected == old(disconnected) - done;
          WrittenIgnoresFile(Without(old(Abs()), done), file);
          file := Snapshot(Abs());
        }
      }
      assert done == RenamedConnected(old(Abs()));
    }

    method LoadDevice(d: Name, e: FileEntry, x: Context)
      requires Saveable(Abs())
      modifies this
      ensures Abs() == LoadOne(old(Abs()), d, e, x.av, x.up)
    {
      if e.renaming.Some? {
        renamed := Put(renamed, d, e.renaming.value);
        disconnected := disconnected[d := Loaded(e.connectorName, e.connectorId, e.deviceType)];
      }
      var c := Resolve(x.av, e);
      if c.None? { return; }
      connected := connected[d := Live(c, e.deviceType)];
      ReAddConnected(x.up);
      saved := saved[d := Live(c, e.deviceType)];
    }

    method LoadPersistentDevices(x: Context)
      requires Saveable(Abs())
      modifies this
      ensures Abs() == Load(old(Abs()), x)
    {
      var loaded := file;
      for n := 0 to |x.order|
        invariant Saveable(Abs())
        invariant Abs() == LoadSome(old(Abs()), loaded, x.order[..n], x)
      {
        assert x.order[..n + 1][..n] == x.order[..n];
        if x.order[n] in loaded { LoadDevice(x.order[n], loaded[x.order[n]], x); }
      }
      assert x.order[..|x.order|] == x.order;
    }

    method ProcessRenamed(enabled: bool, old_: Name, new_: Name, x: Context) returns (raised: bool)
      modifies this
      ensures Abs() == Rename(old(Abs()), enabled, old_, new_, x).reg
      ensures raised == Rename(old(Abs()), enabled, old_, new_, x).raised
    {
      if !enabled { return false; }
      var key := KeyByValue(renamed, old_);
      if key.Some? {
        if key.value == new_ {
          renamed := Remove(renamed, key.value);
          key := None;
        }
      } else {
        key := Some(old_);
      }
      if key.Some? && key.value != new_ { renamed := Put(renamed, key.value, new_); }
      raised := SavePersistentDevices();
      if !raised { LoadPersistentDevices(x); }
    }

    method ProcessDeleted(name: Name, x: Context) returns (raised: bool)
      modifies this
      ensures Abs() == Delete(old(Abs()), name, x).reg && raised == Delete(old(Abs()), name, x).raised
    {
      var d := name;
      var key := KeyByValue(renamed, name);
      if key.Some? {
        d := key.value;
        renamed := Remove(renamed, d);
      }
      connected, saved, added, disconnected := connected - {d}, saved - {d}, added - {d}, disconnected - {d};
      raised := SavePersistentDevices();
      if !raised { LoadPersistentDevices(x); }
    }
  }
}
