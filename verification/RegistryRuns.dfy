// What the registry keeps over every run of additions, removals and notifications, and
// how its renames follow the names the platform really uses.
module RegistryRuns {
  import opened Options
  import opened PyDict
  import opened Registry

  // ---------- Reloading ----------

  predicate Nested(r: Registry) { r.added.Keys <= r.saved.Keys <= r.connected.Keys }

  lemma {:induction false} ReplaceSame<K, V>(d: Dict<K, V>, k: K, v: V)
    requires Get(d, k) == Some(v)
    ensures Replace(d, k, v) == d
  {
    hide Keys;
    var n := |d| - 1;
    assert d == d[..n] + [d[n]];
    if d[n].0 != k { ReplaceSame(d[..n], k, v); } else { assert d[n] == (k, v); }
  }

  // What loading does to the rename map alone.
  function RecallName(m: Dict<Name, Name>, file: map<Name, FileEntry>, d: Name): Dict<Name, Name> {
    if d in file && file[d].renaming.Some? then Put(m, d, file[d].renaming.value) else m
  }

  function RecallNames(m: Dict<Name, Name>, file: map<Name, FileEntry>, order: seq<Name>): Dict<Name, Name> {
    if order == [] then m else RecallName(RecallNames(m, file, order[..|order| - 1]), file, order[|order| - 1])
  }

  lemma ReAddKeepsNames(r: Registry, up: bool)
    requires Saveable(r)
    ensures ReAdd(r, up).renamed == r.renamed && ReAdd(r, up).connected == r.connected
    ensures ReAdd(r, up).saved == r.saved && ReAdd(r, up).added == r.added
  {}

  lemma LoadNextNames(r: Registry, file: map<Name, FileEntry>, d: Name, x: Context)
    requires Saveable(r)
    ensures LoadNext(r, file, d, x).renamed == RecallName(r.renamed, file, d)
  {
    if d in file {
      var c := Resolve(x.av, file[d]);
      var y := Recall(r, d, file[d]);
      if c.Some? { ReAddKeepsNames(y.(connected := y.connected[d := Live(c, file[d].deviceType)]), x.up); }
    }
  }

  lemma {:induction false} LoadSomeNames(r: Registry, file: map<Name, FileEntry>, order: seq<Name>, x: Context)
    requires Saveable(r)
    ensures LoadSome(r, file, order, x).renamed == RecallNames(r.renamed, file, order)
  {
    if order != [] {
      var n := |order| - 1;
      LoadSomeNames(r, file, order[..n], x);
      LoadNextNames(LoadSome(r, file, order[..n], x), file, order[n], x);
    }
  }

  // The file says of every device what the rename map says.
  predicate Agrees(file: map<Name, FileEntry>, renamed: Dict<Name, Name>) {
    forall d | d in file :: file[d].renaming == Get(renamed, d)
  }

  lemma {:induction false} AgreeingNamesStay(m: Dict<Name, Name>, file: map<Name, FileEntry>, order: seq<Name>)
    requires Agrees(file, m)
    ensures RecallNames(m, file, order) == m
  {
    if order != [] {
      var d := order[|order| - 1];
      AgreeingNamesStay(m, file, order[..|order| - 1]);
      if d in file && file[d].renaming.Some? { ReplaceSame(m, d, file[d].renaming.value); }
    }
  }

  lemma {:induction false} RecallNamesGet(m: Dict<Name, Name>, file: map<Name, FileEntry>, order: seq<Name>, d: Name)
    ensures Get(RecallNames(m, file, order), d) ==
      if d in order && d in file && file[d].renaming.Some? then file[d].renaming else Get(m, d)
  {
    if order != [] {
      var n := |order| - 1;
      RecallNamesGet(m, file, order[..n], d);
      assert order == order[..n] + [order[n]];
      if order[n] in file && file[order[n]].renaming.Some? {
        PutGet(RecallNames(m, file, order[..n]), order[n], file[order[n]].renaming.value, d);
      }
    }
  }

  lemma LoadNextKeepsNested(r: Registry, file: map<Name, FileEntry>, d: Name, x: Context)
    requires Saveable(r) && Nested(r)
    ensures Nested(LoadNext(r, file, d, x))
  {
    if d in file {
      var c := Resolve(x.av, file[d]);
      var y := Recall(r, d, file[d]);
      if c.Some? { ReAddKeepsNames(y.(connected := y.connected[d := Live(c, file[d].deviceType)]), x.up); }
    }
  }

  lemma {:induction false} LoadKeepsNested(r: Registry, file: map<Name, FileEntry>, order: seq<Name>, x: Context)
    requires Saveable(r) && Nested(r)
    ensures Nested(LoadSome(r, file, order, x))
  {
    if order != [] {
      var n := |order| - 1;
      LoadKeepsNested(r, file, order[..n], x);
      LoadNextKeepsNested(LoadSome(r, file, order[..n], x), file, order[n], x);
    }
  }

  predicate Absent(r: Registry, d: Name) {
    && d !in r.connected && d !in r.saved && d !in r.added && d !in r.disconnected
    && d !in Keys(r.renamed) && d !in r.file
  }

  lemma ReAddKeepsAbsent(r: Registry, up: bool, a: Name)
    requires Saveable(r) && Absent(r, a)
    ensures Absent(ReAdd(r, up), a)
  {}

  lemma RecallKeepsAbsent(r: Registry, d: Name, e: FileEntry, a: Name)
    requires Absent(r, a) && a != d
    ensures Absent(Recall(r, d, e), a)
  {
    if e.renaming.Some? { PutKeys(r.renamed, d, e.renaming.value); }
  }

  lemma RestoreKeepsAbsent(r: Registry, d: Name, i: Info, up: bool, a: Name)
    requires Saveable(r) && Absent(r, a) && a != d
    ensures Absent(Restore(r, d, i, up), a)
  {
    ReAddKeepsAbsent(r.(connected := r.connected[d := i]), up, a);
  }

  lemma LoadNextKeepsAbsent(r: Registry, file: map<Name, FileEntry>, d: Name, x: Context, a: Name)
    requires Saveable(r) && Absent(r, a) && a !in file
    ensures Absent(LoadNext(r, file, d, x), a)
  {
    if d in file {
      var e := file[d];
      RecallKeepsAbsent(r, d, e, a);
      var c := Resolve(x.av, e);
      if c.Some? { RestoreKeepsAbsent(Recall(r, d, e), d, Live(c, e.deviceType), x.up, a); }
    }
  }

  lemma {:induction false} LoadKeepsAbsent(r: Registry, file: map<Name, FileEntry>, order: seq<Name>, x: Context,
                                           a: Name)
    requires Saveable(r) && Absent(r, a) && a !in file
    ensures Absent(LoadSome(r, file, order, x), a)
  {
    if order != [] {
      var n := |order| - 1;
      LoadKeepsAbsent(r, file, order[..n], x, a);
      LoadNextKeepsAbsent(LoadSome(r, file, order[..n], x), file, order[n], x, a);
    }
  }

  // Saving and then starting afresh from the file recovers the renames of the
  // disconnected devices and of the connected ones that have a connector, no others.
  lemma SaveThenRestartRecovers(r: Registry, x: Context)
    requires Saveable(r) && Lists(x.order, Snapshot(r))
    ensures forall d :: Get(Load(NOTHING.(file := Snapshot(r)), x).renamed, d) ==
                          if Persisted(r, d) then Get(r.renamed, d) else None
  {
    forall d ensures Get(Load(NOTHING.(file := Snapshot(r)), x).renamed, d) ==
                       if Persisted(r, d) then Get(r.renamed, d) else None
    {
      LoadSomeNames(NOTHING.(file := Snapshot(r)), Snapshot(r), x.order, x);
      RecallNamesGet([], Snapshot(r), x.order, d);
    }
  }

  // The save and reload inside the notification handlers leaves the rename map as it is.
  lemma SaveAndLoadKeepsRenames(r: Registry, x: Context)
    ensures SaveAndLoad(r, x).reg.renamed == r.renamed
  {
    if Saveable(r) {
      LoadSomeNames(r.(file := Snapshot(r)), Snapshot(r), x.order, x);
      AgreeingNamesStay(r.renamed, Snapshot(r), x.order);
    }
  }

  // ---------- A deleted device does not come back ----------

  // After a delete notification that could save, the device is in none of the five maps
  // and not in the file - exactly unless its local name is that of a renamed device
  // under whose old name the platform has no device.
  lemma DeletedDeviceIsGone(r: Registry, name: Name, x: Context)
    requires Unique(r.renamed) && !Delete(r, name, x).raised
    ensures Absent(Delete(r, name, x).reg, LocalName(r, name))
       <==> KeyByValue(r.renamed, name).Some? || name !in Keys(r.renamed)
  {
    var f, d := Forget(r, name), LocalName(r, name);
    RemoveGet(r.renamed, d, d);
    var g := f.(file := Snapshot(f));
    if KeyByValue(r.renamed, name).Some? || name !in Keys(r.renamed) {
      LoadKeepsAbsent(g, Snapshot(f), x.order, x, d);
    } else {
      SaveAndLoadKeepsRenames(f, x);
    }
  }

  // ---------- Renames follow the platform ----------

  // `names` gives the platform's current name of every local device it knows.
  ghost predicate Follows(r: Registry, names: map<Name, Name>) {
    && Unique(r.renamed)
    && (forall d, e | d in names && e in names :: names[d] == names[e] ==> d == e)
    && (forall d | d in names :: UplinkName(r, d) == names[d])
    && (forall d | d in Keys(r.renamed) :: d in names && names[d] != d)
  }

  lemma KnownByName(r: Registry, names: map<Name, Name>, d: Name)
    requires Follows(r, names) && d in names
    ensures LocalName(r, names[d]) == d
    ensures KeyByValue(r.renamed, names[d]).Some? <==> d in Keys(r.renamed)
  {
    var k := KeyByValue(r.renamed, names[d]);
    KeyByValueFinds(r.renamed, names[d]);
    if k.Some? {
      assert Get(r.renamed, k.value).Some?;
      assert UplinkName(r, k.value) == names[d];
    }
    if d in Keys(r.renamed) { KeyByValueMisses(r.renamed, names[d], d); }
  }

  // Translating a local name forward and the result back gives the name again.
  lemma DownlinkInvertsUplink(r: Registry, names: map<Name, Name>, d: Name)
    requires Follows(r, names) && d in names
    ensures LocalName(r, UplinkName(r, d)) == d && UplinkName(r, LocalName(r, names[d])) == names[d]
  {
    KnownByName(r, names, d);
  }

  function RenamedNames(names: map<Name, Name>, old_: Name, new_: Name): map<Name, Name> {
    map d | d in names :: if names[d] == old_ then new_ else names[d]
  }

  lemma NoteRenameGet(r: Registry, names: map<Name, Name>, d: Name, new_: Name, e: Name)
    requires Follows(r, names) && d in names && new_ !in names.Values
    ensures var m := NoteRename(r, names[d], new_);
      Unique(m) && Get(m, e) == if e == d then (if d == new_ then None else Some(new_)) else Get(r.renamed, e)
  {
    KnownByName(r, names, d);
    RemoveGet(r.renamed, d, e);
    PutGet(r.renamed, d, new_, e);
    RemoveKeepsUnique(r.renamed, d);
    PutKeepsUnique(r.renamed, d, new_);
    assert names[d] in names.Values;
  }

  lemma RenameFollows(r: Registry, names: map<Name, Name>, d: Name, new_: Name)
    requires Follows(r, names) && d in names && new_ !in names.Values
    ensures Follows(r.(renamed := NoteRename(r, names[d], new_)), RenamedNames(names, names[d], new_))
  {
    var r' := r.(renamed := NoteRename(r, names[d], new_));
    var names' := RenamedNames(names, names[d], new_);
    NoteRenameGet(r, names, d, new_, d);
    forall e | e in names ensures UplinkName(r', e) == names'[e] {
      NoteRenameGet(r, names, d, new_, e);
    }
    forall e | e in Keys(r'.renamed) ensures e in names' && names'[e] != e {
      NoteRenameGet(r, names, d, new_, e);
    }
    forall a, b | a in names' && b in names' && names'[a] == names'[b] ensures a == b {
      assert names[a] in names.Values && names[b] in names.Values;
    }
  }

  function DeletedNames(names: map<Name, Name>, name: Name): map<Name, Name> {
    map d | d in names && names[d] != name :: names[d]
  }

  lemma DeleteFollows(r: Registry, names: map<Name, Name>, d: Name)
    requires Follows(r, names) && d in names
    ensures Follows(Forget(r, names[d]), DeletedNames(names, names[d]))
  {
    KnownByName(r, names, d);
    RemoveKeepsUnique(r.renamed, d);
    var f := Forget(r, names[d]);
    var names' := DeletedNames(names, names[d]);
    forall e ensures Get(f.renamed, e) == if e == d then None else Get(r.renamed, e) { RemoveGet(r.renamed, d, e); }
    forall e | e in Keys(f.renamed) ensures e in names' && names'[e] != e { assert Get(f.renamed, e).Some?; }
  }

  // A device that gets announced was not known to the platform under its name.
  lemma AnnouncedFollows(r: Registry, names: map<Name, Name>, d: Name)
    requires Follows(r, names) && d !in Keys(r.renamed) && KeyByValue(r.renamed, d) == None
    ensures Follows(r, names[d := d])
  {
    forall e | e in names && names[e] == d ensures e == d {
      if e in Keys(r.renamed) { KeyByValueMisses(r.renamed, d, e); }
    }
  }

  lemma RenamesDecide(r: Registry, r': Registry, names: map<Name, Name>)
    requires Follows(r, names) && r'.renamed == r.renamed
    ensures Follows(r', names)
  {}

  // Renaming a device and then giving it its previous name leaves no trace in the map.
  lemma RenamingBackRestores(r: Registry, names: map<Name, Name>, d: Name, new_: Name, e: Name)
    requires Follows(r, names) && d in names && new_ !in names.Values
    ensures var q := r.(renamed := NoteRename(r, names[d], new_));
      Get(NoteRename(q, new_, names[d]), e) == Get(r.renamed, e)
  {
    var q := r.(renamed := NoteRename(r, names[d], new_));
    var names' := RenamedNames(names, names[d], new_);
    RenameFollows(r, names, d, new_);
    assert names'[d] == new_;
    forall a | a in names' ensures names'[a] != names[d] {}
    NoteRenameGet(r, names, d, new_, e);
    NoteRenameGet(q, names', d, names[d], e);
    assert UplinkName(r, d) == names[d];
  }

  // Two renames in a row do what the one direct rename does.
  lemma RenameChainsCompose(r: Registry, names: map<Name, Name>, d: Name, middle: Name, last: Name, e: Name)
    requires Follows(r, names) && d in names
    requires middle !in names.Values && last !in names.Values && middle != last
    ensures var q := r.(renamed := NoteRename(r, names[d], middle));
      Get(NoteRename(q, middle, last), e) == Get(NoteRename(r, names[d], last), e)
  {
    hide NoteRename, Follows;
    var q := r.(renamed := NoteRename(r, names[d], middle));
    var names' := RenamedNames(names, names[d], middle);
    RenameFollows(r, names, d, middle);
    assert names'[d] == middle;
    forall a | a in names' ensures names'[a] != last { assert a in names && names[a] in names.Values; }
    NoteRenameGet(r, names, d, middle, e);
    NoteRenameGet(r, names, d, last, e);
    NoteRenameGet(q, names', d, last, e);
  }

  // ---------- Translating twice ----------

  // No device was renamed to the local name of a renamed device.
  predicate Disjoint(m: Dict<Name, Name>) { forall d | d in Keys(m) :: Get(m, d).value !in Keys(m) }

  // Readings are translated when stored and again when sent: that is right for every
  // device exactly if no rename target is itself a renamed local name.
  lemma UplinkTwiceIsOnceExactly(r: Registry, names: map<Name, Name>)
    requires Follows(r, names)
    ensures (forall n :: UplinkName(r, UplinkName(r, n)) == UplinkName(r, n)) <==> Disjoint(r.renamed)
  {
    if !Disjoint(r.renamed) {
      var d :| d in Keys(r.renamed) && Get(r.renamed, d).value in Keys(r.renamed);
      assert UplinkName(r, d) == names[d] && UplinkName(r, names[d]) == names[names[d]] != names[d];
      assert UplinkName(r, UplinkName(r, d)) != UplinkName(r, d);
    } else {
      forall n ensures UplinkName(r, UplinkName(r, n)) == UplinkName(r, n) {
        if n in Keys(r.renamed) { assert Get(r.renamed, n).value !in Keys(r.renamed); }
      }
    }
  }

  // A requeued request is translated back a second time, with the same exception.
  lemma DownlinkTwiceIsOnceExactly(r: Registry, names: map<Name, Name>)
    requires Follows(r, names)
    ensures (forall n :: LocalName(r, LocalName(r, n)) == LocalName(r, n)) <==> Disjoint(r.renamed)
  {
    if !Disjoint(r.renamed) {
      var d :| d in Keys(r.renamed) && Get(r.renamed, d).value in Keys(r.renamed);
      var e := names[d];
      assert UplinkName(r, d) == e && UplinkName(r, e) == names[e];
      KnownByName(r, names, d);
      KnownByName(r, names, e);
      assert LocalName(r, names[e]) == e && LocalName(r, e) == d;
      assert LocalName(r, LocalName(r, names[e])) != LocalName(r, names[e]);
    } else {
      forall n ensures LocalName(r, LocalName(r, n)) == LocalName(r, n) {
        KeyByValueFinds(r.renamed, n);
        var d := LocalName(r, n);
        if KeyByValue(r.renamed, n).Some? && KeyByValue(r.renamed, d).Some? {
          KeyByValueFinds(r.renamed, d);
          assert false;
        }
      }
    }
  }

  // Where it goes wrong, the reading is attributed to another device of the platform.
  lemma UplinkTwiceMisdelivers(r: Registry, names: map<Name, Name>, d: Name)
    requires Follows(r, names) && d in names && names[d] != d && names[d] in Keys(r.renamed)
    ensures names[d] in names
    ensures UplinkName(r, UplinkName(r, d)) == names[names[d]] != names[d]
  {
    assert UplinkName(r, d) == names[d] && UplinkName(r, names[d]) == names[names[d]];
  }

  // Two ordinary renames get there from any state: x becomes y, and d takes over the name x.
  lemma NameTakeoverMisdelivers(r: Registry, names: map<Name, Name>, d: Name, x: Name, y: Name)
    requires Follows(r, names) && d in names && x in names && d != x && names[x] == x && y !in names.Values
    requires names[d] != y
    ensures var q := r.(renamed := NoteRename(r, x, y));
      var s := q.(renamed := NoteRename(q, names[d], x));
      Follows(s, RenamedNames(RenamedNames(names, x, y), names[d], x))
      && UplinkName(s, d) == x && UplinkName(s, UplinkName(s, d)) == y == UplinkName(s, x)
  {
    var q := r.(renamed := NoteRename(r, x, y));
    var names1 := RenamedNames(names, x, y);
    RenameFollows(r, names, x, y);
    assert y !in names.Values;
    forall a | a in names1 ensures names1[a] != x {
      if names[a] != x { assert names1[a] == names[a]; } else { assert x in names.Values; }
    }
    assert x !in names1.Values;
    assert names[d] != names[x];
    assert names1[d] == names[d] && names1[x] == y;
    RenameFollows(q, names1, d, x);
    var names2 := RenamedNames(names1, names[d], x);
    assert names2[d] == x && names2[x] == y;
    var s := q.(renamed := NoteRename(q, names[d], x));
    assert UplinkName(s, d) == names2[d] && UplinkName(s, x) == names2[x];
  }

  // ---------- Every run ----------

  datatype Op =
    | Add(device: Name, info: Info, link: Link)
    | Del(device: Name)
    | Renamed(old_: Name, new_: Name, x: Context)
    | Deleted(name: Name, x: Context)
    | Update(device: Name, connector: Connector)
    | Restart(av: Available, x: Context)

  function Apply(r: Registry, op: Op): Registry {
    match op
    case Add(d, i, link) => AddDevice(r, d, i, link).reg
    case Del(d) => DelDevice(r, d).reg
    case Renamed(a, b, x) => Rename(r, true, a, b, x).reg
    case Deleted(name, x) => Delete(r, name, x).reg
    case Update(d, c) => UpdateDevice(r, d, c).reg
    case Restart(av, x) => Restarted(r.file, av, x)
  }

  // A device gets registered, under its own name.
  predicate Registers(r: Registry, d: Name, link: Link) { link.up && d !in Keys(r.renamed) && !Known(r, d) }

  function NamesAfter(r: Registry, names: map<Name, Name>, op: Op): map<Name, Name> {
    match op
    case Add(d, _, link) => if Registers(r, d, link) then names[d := d] else names
    case Renamed(a, b, _) => RenamedNames(names, a, b)
    case Deleted(name, _) => DeletedNames(names, name)
    case _ => names
  }

  // The name the file gives to a device.
  function FileName(file: map<Name, FileEntry>, d: Name): Option<Name> {
    if d in file then file[d].renaming else None
  }

  // The file knows the renames, and no devices but those on the platform.
  ghost predicate FileCurrent(r: Registry, names: map<Name, Name>) {
    r.file.Keys <= names.Keys && forall d :: FileName(r.file, d) == Get(r.renamed, d)
  }

  // The platform renames a device it has to a name it does not use, and tells of the
  // deletion of devices it had; a restart finds a current file.
  ghost predicate Disciplined(r: Registry, names: map<Name, Name>, op: Op) {
    match op
    case Renamed(a, b, _) => a in names.Values && b !in names.Values
    case Deleted(name, _) => name in names.Values
    case Restart(_, x) => Lists(x.order, r.file) && FileCurrent(r, names)
    case _ => true
  }

  function RunRegistry(ops: seq<Op>): Registry {
    if ops == [] then NOTHING else Apply(RunRegistry(ops[..|ops| - 1]), ops[|ops| - 1])
  }

  function RunNames(ops: seq<Op>): map<Name, Name> {
    if ops == [] then map[]
    else NamesAfter(RunRegistry(ops[..|ops| - 1]), RunNames(ops[..|ops| - 1]), ops[|ops| - 1])
  }

  ghost predicate DisciplinedRun(ops: seq<Op>) {
    ops == [] ||
    (DisciplinedRun(ops[..|ops| - 1])
     && Disciplined(RunRegistry(ops[..|ops| - 1]), RunNames(ops[..|ops| - 1]), ops[|ops| - 1]))
  }

  lemma SaveAndLoadKeepsNested(r: Registry, x: Context)
    requires Nested(r)
    ensures Nested(SaveAndLoad(r, x).reg)
  {
    if Saveable(r) { LoadKeepsNested(r.(file := Snapshot(r)), Snapshot(r), x.order, x); }
  }

  lemma ApplyKeepsNested(r: Registry, op: Op)
    requires Nested(r)
    ensures Nested(Apply(r, op))
  {
    hide AddDevice, SaveAndLoad, Save, UpdateDevice, Restarted;
    match op
    case Add(d, i, link) => AddShape(r, d, i, link);
    case Del(d) => SavingKeepsMaps(Disconnect(r, d));
    case Renamed(a, b, x) => SaveAndLoadKeepsNested(r.(renamed := NoteRename(r, a, b)), x);
    case Deleted(name, x) => SaveAndLoadKeepsNested(Forget(r, name), x);
    case Update(d, c) => UpdateShape(r, d, c);
    case Restart(av, x) => RestartIsNested(r.file, av, x);
  }

  lemma UpdateShape(r: Registry, d: Name, c: Connector)
    ensures var q := UpdateDevice(r, d, c).reg;
      && q.renamed == r.renamed && q.disconnected == r.disconnected && q.connected.Keys == r.connected.Keys
      && q.saved == r.saved && q.added == r.added
  {
    if d in r.connected && !r.connected[d].Missing? {
      SavingKeepsMaps(r.(connected := r.connected[d := WithConnector(r.connected[d], c)]));
    }
  }

  lemma RestartIsNested(file: map<Name, FileEntry>, av: Available, x: Context)
    ensures Nested(Restarted(file, av, x))
  {
    var q := NOTHING.(file := file);
    LoadKeepsNested(q, file, x.order, Offline(av, x));
    var y := Load(q, Offline(av, x));
    LoadKeepsNested(y, y.file, x.order, x);
  }

  // In every run, disciplined or not, the added devices are among the saved ones and
  // those among the connected ones.
  lemma {:induction false} MapsStayNested(ops: seq<Op>)
    ensures Nested(RunRegistry(ops))
  {
    if ops != [] {
      MapsStayNested(ops[..|ops| - 1]);
      ApplyKeepsNested(RunRegistry(ops[..|ops| - 1]), ops[|ops| - 1]);
    }
  }

  // Every device in use has a name on the platform.
  ghost predicate Named(r: Registry, names: map<Name, Name>) { r.connected.Keys + r.disconnected.Keys <= names.Keys }

  lemma SnapshotNames(r: Registry)
    requires Saveable(r)
    ensures Snapshot(r).Keys <= r.connected.Keys + r.disconnected.Keys
  {}

  lemma LoadNextKeepsNamed(r: Registry, file: map<Name, FileEntry>, d: Name, x: Context, names: map<Name, Name>)
    requires Saveable(r) && Named(r, names) && file.Keys <= names.Keys
    ensures Named(LoadNext(r, file, d, x), names)
  {
    if d in file {
      var c := Resolve(x.av, file[d]);
      var y := Recall(r, d, file[d]);
      if c.Some? {
        ReAddKeepsNames(y.(connected := y.connected[d := Live(c, file[d].deviceType)]), x.up);
        ReAddShrinks(y.(connected := y.connected[d := Live(c, file[d].deviceType)]), x.up);
      }
    }
  }

  lemma ReAddShrinks(r: Registry, up: bool)
    requires Saveable(r)
    ensures ReAdd(r, up).disconnected.Keys <= r.disconnected.Keys
  {}

  lemma {:induction false} LoadKeepsNamed(r: Registry, file: map<Name, FileEntry>, order: seq<Name>, x: Context,
                                          names: map<Name, Name>)
    requires Saveable(r) && Named(r, names) && file.Keys <= names.Keys
    ensures Named(LoadSome(r, file, order, x), names)
  {
    if order != [] {
      var n := |order| - 1;
      LoadKeepsNamed(r, file, order[..n], x, names);
      LoadNextKeepsNamed(LoadSome(r, file, order[..n], x), file, order[n], x, names);
    }
  }

  lemma SaveAndLoadKeeps(r: Registry, x: Context, names: map<Name, Name>)
    requires Follows(r, names) && Named(r, names)
    ensures Follows(SaveAndLoad(r, x).reg, names) && Named(SaveAndLoad(r, x).reg, names)
  {
    SaveAndLoadKeepsRenames(r, x);
    RenamesDecide(r, SaveAndLoad(r, x).reg, names);
    if Saveable(r) {
      SnapshotNames(r);
      LoadKeepsNamed(r.(file := Snapshot(r)), Snapshot(r), x.order, x, names);
    }
  }

  lemma SavingKeepsMaps(r: Registry)
    ensures Save(r).reg == r.(file := Save(r).reg.file)
  {}

  lemma AddShape(r: Registry, d: Name, i: Info, link: Link)
    ensures var q := AddDevice(r, d, i, link).reg;
      && q.renamed == r.renamed && q.disconnected.Keys <= r.disconnected.Keys
      && (if Registers(r, d, link)
          then q.connected == r.connected[d := i] && q.saved == r.saved[d := i] && q.added.Keys <= r.added.Keys + {d}
          else q.connected == r.connected && q.saved == r.saved && q.added == r.added)
  {
    SavingKeepsMaps(r.(disconnected := r.disconnected - {d}));
    SavingKeepsMaps(Register(r, d, i));
  }

  lemma AddKeeps(r: Registry, names: map<Name, Name>, op: Op)
    requires op.Add? && Follows(r, names) && Named(r, names)
    ensures Follows(Apply(r, op), NamesAfter(r, names, op))
    ensures Named(Apply(r, op), NamesAfter(r, names, op))
  {
    AddShape(r, op.device, op.info, op.link);
    if Registers(r, op.device, op.link) { AnnouncedFollows(r, names, op.device); }
    RenamesDecide(r, Apply(r, op), NamesAfter(r, names, op));
  }

  lemma DelKeeps(r: Registry, names: map<Name, Name>, op: Op)
    requires op.Del? && Follows(r, names) && Named(r, names)
    ensures Follows(Apply(r, op), NamesAfter(r, names, op))
    ensures Named(Apply(r, op), NamesAfter(r, names, op))
  {
    SavingKeepsMaps(Disconnect(r, op.device));
    RenamesDecide(r, Apply(r, op), names);
  }

  lemma RenamedKeeps(r: Registry, names: map<Name, Name>, op: Op)
    requires op.Renamed? && Disciplined(r, names, op) && Follows(r, names) && Named(r, names)
    ensures Follows(Apply(r, op), NamesAfter(r, names, op))
    ensures Named(Apply(r, op), NamesAfter(r, names, op))
  {
    var d :| d in names && names[d] == op.old_;
    RenameFollows(r, names, d, op.new_);
    SaveAndLoadKeeps(r.(renamed := NoteRename(r, op.old_, op.new_)), op.x, NamesAfter(r, names, op));
  }

  lemma DeletedKeeps(r: Registry, names: map<Name, Name>, op: Op)
    requires op.Deleted? && Disciplined(r, names, op) && Follows(r, names) && Named(r, names)
    ensures Follows(Apply(r, op), NamesAfter(r, names, op))
    ensures Named(Apply(r, op), NamesAfter(r, names, op))
  {
    var d :| d in names && names[d] == op.name;
    KnownByName(r, names, d);
    DeleteFollows(r, names, d);
    SaveAndLoadKeeps(Forget(r, op.name), op.x, NamesAfter(r, names, op));
  }

  lemma UpdateKeeps(r: Registry, names: map<Name, Name>, op: Op)
    requires op.Update? && Follows(r, names) && Named(r, names)
    ensures Follows(Apply(r, op), NamesAfter(r, names, op))
    ensures Named(Apply(r, op), NamesAfter(r, names, op))
  {
    hide UpdateDevice, Follows;
    UpdateShape(r, op.device, op.connector);
    RenamesDecide(r, Apply(r, op), names);
  }

  lemma OfflineKeepsFile(r: Registry, i: Info, d: Name, e: FileEntry)
    requires Saveable(r)
    ensures Restore(r, d, i, false).file == r.file && Recall(r, d, e).file == r.file
  {}

  // Loading without the platform connection does not write the file.
  lemma {:induction false} OfflineLoadKeepsFile(r: Registry, file: map<Name, FileEntry>, order: seq<Name>, x: Context)
    requires Saveable(r) && !x.up
    ensures LoadSome(r, file, order, x).file == r.file
  {
    if order != [] {
      var n := |order| - 1;
      OfflineLoadKeepsFile(r, file, order[..n], x);
      var y, d := LoadSome(r, file, order[..n], x), order[n];
      if d in file {
        OfflineKeepsFile(Recall(y, d, file[d]), Live(Resolve(x.av, file[d]), file[d].deviceType), d, file[d]);
        OfflineKeepsFile(y, Missing, d, file[d]);
      }
    }
  }

  // After a restart the rename map is what the file says.
  lemma RestartNames(file: map<Name, FileEntry>, av: Available, x: Context, d: Name)
    requires Lists(x.order, file)
    ensures Get(Restarted(file, av, x).renamed, d) == FileName(file, d)
  {
    hide LoadSome, RecallNames;
    var q := NOTHING.(file := file);
    var y := Load(q, Offline(av, x));
    OfflineLoadKeepsFile(q, file, x.order, Offline(av, x));
    LoadSomeNames(q, file, x.order, Offline(av, x));
    LoadSomeNames(y, file, x.order, x);
    RecallNamesGet([], file, x.order, d);
    RecallNamesGet(y.renamed, file, x.order, d);
  }

  lemma {:induction false} RecallNamesUnique(m: Dict<Name, Name>, file: map<Name, FileEntry>, order: seq<Name>)
    requires Unique(m)
    ensures Unique(RecallNames(m, file, order))
  {
    if order != [] {
      var d := order[|order| - 1];
      RecallNamesUnique(m, file, order[..|order| - 1]);
      if d in file && file[d].renaming.Some? {
        PutKeepsUnique(RecallNames(m, file, order[..|order| - 1]), d, file[d].renaming.value);
      }
    }
  }

  lemma RestartIsUnique(file: map<Name, FileEntry>, av: Available, x: Context)
    ensures Unique(Restarted(file, av, x).renamed)
  {
    hide LoadSome, RecallNames;
    var q := NOTHING.(file := file);
    var y := Load(q, Offline(av, x));
    OfflineLoadKeepsFile(q, file, x.order, Offline(av, x));
    LoadSomeNames(q, file, x.order, Offline(av, x));
    LoadSomeNames(y, file, x.order, x);
    RecallNamesUnique([], file, x.order);
    RecallNamesUnique(y.renamed, file, x.order);
  }

  // A restarted registry has the platform's names right if and only if the file has every
  // rename and no others.
  lemma RestartFollowsExactly(r: Registry, names: map<Name, Name>, av: Available, x: Context)
    requires Follows(r, names) && Lists(x.order, r.file)
    ensures Follows(Restarted(r.file, av, x), names) <==> forall d :: FileName(r.file, d) == Get(r.renamed, d)
  {
    hide Restarted;
    var q := Restarted(r.file, av, x);
    RestartIsUnique(r.file, av, x);
    forall d ensures Get(q.renamed, d) == FileName(r.file, d) { RestartNames(r.file, av, x, d); }
    if Follows(q, names) {
      forall d ensures FileName(r.file, d) == Get(r.renamed, d) { FollowersAgree(q, r, names, d); }
    } else if forall d :: FileName(r.file, d) == Get(r.renamed, d) {
      SameNamesFollow(r, q, names);
    }
  }

  lemma FollowersAgree(q: Registry, r: Registry, names: map<Name, Name>, d: Name)
    requires Follows(q, names) && Follows(r, names)
    ensures Get(q.renamed, d) == Get(r.renamed, d)
  {
    if d in names { assert UplinkName(q, d) == UplinkName(r, d) == names[d]; }
  }

  lemma SameNamesFollow(r: Registry, q: Registry, names: map<Name, Name>)
    requires Follows(r, names) && Unique(q.renamed) && forall d :: Get(q.renamed, d) == Get(r.renamed, d)
    ensures Follows(q, names)
  {
    forall d | d in Keys(q.renamed) ensures d in names && names[d] != d { assert Get(q.renamed, d).Some?; }
  }

  lemma RestartKeeps(r: Registry, names: map<Name, Name>, op: Op)
    requires op.Restart? && Disciplined(r, names, op) && Follows(r, names)
    ensures Follows(Apply(r, op), NamesAfter(r, names, op))
    ensures Named(Apply(r, op), NamesAfter(r, names, op))
  {
    hide LoadSome, Follows;
    RestartFollowsExactly(r, names, op.av, op.x);
    var q := NOTHING.(file := r.file);
    var y := Load(q, Offline(op.av, op.x));
    OfflineLoadKeepsFile(q, r.file, op.x.order, Offline(op.av, op.x));
    LoadKeepsNamed(q, r.file, op.x.order, Offline(op.av, op.x), names);
    LoadKeepsNamed(y, r.file, op.x.order, op.x, names);
  }

  // In every run with a disciplined platform the rename map gives exactly the platform's
  // names, restarts included: it is injective, renames no device to itself, and every
  // device in use has one.
  lemma {:induction false} RegistryFollowsThePlatform(ops: seq<Op>)
    requires DisciplinedRun(ops)
    ensures Follows(RunRegistry(ops), RunNames(ops)) && Named(RunRegistry(ops), RunNames(ops))
  {
    if ops != [] {
      var n := |ops| - 1;
      RegistryFollowsThePlatform(ops[..n]);
      var r, names := RunRegistry(ops[..n]), RunNames(ops[..n]);
      match ops[n]
      case Add(_, _, _) => AddKeeps(r, names, ops[n]);
      case Del(_) => DelKeeps(r, names, ops[n]);
      case Renamed(_, _, _) => RenamedKeeps(r, names, ops[n]);
      case Deleted(_, _) => DeletedKeeps(r, names, ops[n]);
      case Update(_, _) => UpdateKeeps(r, names, ops[n]);
      case Restart(_, _) => RestartKeeps(r, names, ops[n]);
    }
  }

  // What that means for the data: every device in use is sent under its platform name,
  // no two under the same, and what comes back under that name is handed to it.
  lemma DevicesInUseAreNamedRight(ops: seq<Op>, d: Name)
    requires DisciplinedRun(ops) && d in RunRegistry(ops).connected
    ensures d in RunNames(ops) && UplinkName(RunRegistry(ops), d) == RunNames(ops)[d]
    ensures LocalName(RunRegistry(ops), RunNames(ops)[d]) == d
    ensures forall e | e in RunRegistry(ops).connected && e != d ::
      UplinkName(RunRegistry(ops), e) != UplinkName(RunRegistry(ops), d)
  {
    RegistryFollowsThePlatform(ops);
    DownlinkInvertsUplink(RunRegistry(ops), RunNames(ops), d);
    forall e | e in RunRegistry(ops).connected && e != d
      ensures UplinkName(RunRegistry(ops), e) != UplinkName(RunRegistry(ops), d)
    {
      assert e in RunNames(ops);
    }
  }

  // A device the platform deleted is nowhere in the registry, and in the file only if that
  // could not be written.
  lemma DeletionIsComplete(ops: seq<Op>, d: Name, x: Context)
    requires DisciplinedRun(ops) && d in RunNames(ops)
    ensures var o := Delete(RunRegistry(ops), RunNames(ops)[d], x);
      d !in RunNames(ops + [Deleted(RunNames(ops)[d], x)])
      && (if o.raised then Absent(o.reg.(file := map[]), d) else Absent(o.reg, d))
  {
    hide Delete, Follows, Absent;
    var r, names := RunRegistry(ops), RunNames(ops);
    RegistryFollowsThePlatform(ops);
    DeletedIsAbsent(r, names, d, x);
    assert (ops + [Deleted(names[d], x)])[..|ops|] == ops;
  }

  lemma DeletedIsAbsent(r: Registry, names: map<Name, Name>, d: Name, x: Context)
    requires Follows(r, names) && d in names
    ensures var o := Delete(r, names[d], x);
      if o.raised then Absent(o.reg.(file := map[]), d) else Absent(o.reg, d)
  {
    KnownByName(r, names, d);
    if !Delete(r, names[d], x).raised { DeletedDeviceIsGone(r, names[d], x); } else { RemoveGet(r.renamed, d, d); }
  }
}
