// When the registry's file knows all renames: which operations of a run leave it current,
// and which lose a rename.
module RegistryFiles {
  import opened Options
  import opened PyDict
  import opened Registry
  import opened RegistryRuns

  predicate Kept(r: Registry, d: Name) { d in r.connected || d in r.disconnected }

  // What a save writes down completely.
  predicate Durable(r: Registry) {
    && Saveable(r)
    && (forall d | d in r.connected :: HasConnector(r.connected[d]))
    && (forall d | d in Keys(r.renamed) :: Kept(r, d))
  }

  ghost predicate Good(r: Registry, names: map<Name, Name>) {
    Durable(r) && Named(r, names) && FileCurrent(r, names)
  }

  lemma GoodIsCurrent(r: Registry, names: map<Name, Name>)
    requires Good(r, names)
    ensures FileCurrent(r, names) && Saveable(r)
  {}

  // ---------- Operations that lose a rename ----------

  // A disconnected device that was renamed connects again, or the platform renames a
  // device that is neither connected nor disconnected.
  predicate Forgets(r: Registry, op: Op) {
    match op
    case Add(d, _, link) => link.up && d in Keys(r.renamed) && d !in r.connected
    case Renamed(a, _, _) => !Kept(r, LocalName(r, a))
    case _ => false
  }

  // The platform behaves; devices are added with their connector.
  ghost predicate Told(r: Registry, names: map<Name, Name>, op: Op) {
    match op
    case Add(_, i, _) => HasConnector(i)
    case Restart(_, x) => Lists(x.order, r.file)
    case _ => Disciplined(r, names, op)
  }

  ghost predicate ToldRun(ops: seq<Op>) {
    ops == [] ||
    (ToldRun(ops[..|ops| - 1])
     && Told(RunRegistry(ops[..|ops| - 1]), RunNames(ops[..|ops| - 1]), ops[|ops| - 1]))
  }

  predicate NeverForgets(ops: seq<Op>) {
    ops == [] || (NeverForgets(ops[..|ops| - 1]) && !Forgets(RunRegistry(ops[..|ops| - 1]), ops[|ops| - 1]))
  }

  ghost predicate AlwaysCurrent(ops: seq<Op>) {
    FileCurrent(RunRegistry(ops), RunNames(ops)) && (ops == [] || AlwaysCurrent(ops[..|ops| - 1]))
  }

  // ---------- Saving and loading ----------

  lemma SavedIsGood(r: Registry, names: map<Name, Name>)
    requires Durable(r) && Named(r, names)
    ensures Good(Written(r), names)
  {
    forall d ensures FileName(Snapshot(r), d) == Get(r.renamed, d) {
      if d in Keys(r.renamed) { assert Kept(r, d); }
    }
  }

  lemma ReAddKeepsGood(r: Registry, names: map<Name, Name>, up: bool)
    requires Good(r, names)
    ensures Good(ReAdd(r, up), names)
  {
    if up && RenamedConnected(r) != {} { SavedIsGood(Without(r, RenamedConnected(r)), names); }
  }

  lemma RecallKeepsGood(r: Registry, names: map<Name, Name>, d: Name, e: FileEntry)
    requires Good(r, names) && d in names && e.renaming == Get(r.renamed, d)
    ensures Good(Recall(r, d, e), names) && Recall(r, d, e).renamed == r.renamed
  {
    if e.renaming.Some? { ReplaceSame(r.renamed, d, e.renaming.value); }
  }

  lemma RestoreKeepsGood(r: Registry, names: map<Name, Name>, d: Name, i: Info, up: bool)
    requires Good(r, names) && d in names && HasConnector(i)
    ensures Good(Restore(r, d, i, up), names) && Restore(r, d, i, up).renamed == r.renamed
  {
    hide ReAdd;
    var q := r.(connected := r.connected[d := i]);
    ReAddKeepsGood(q, names, up);
    ReAddKeepsNames(q, up);
  }

  lemma LoadNextKeepsGood(r: Registry, file: map<Name, FileEntry>, d: Name, x: Context, names: map<Name, Name>)
    requires Good(r, names) && Agrees(file, r.renamed) && file.Keys <= names.Keys
    ensures Good(LoadNext(r, file, d, x), names) && LoadNext(r, file, d, x).renamed == r.renamed
  {
    hide Good, Recall, Restore;
    if d in file {
      var c := Resolve(x.av, file[d]);
      RecallKeepsGood(r, names, d, file[d]);
      if c.Some? { RestoreKeepsGood(Recall(r, d, file[d]), names, d, Live(c, file[d].deviceType), x.up); }
    }
  }

  lemma {:induction false} LoadKeepsGood(r: Registry, file: map<Name, FileEntry>, order: seq<Name>, x: Context,
                                         names: map<Name, Name>)
    requires Good(r, names) && Agrees(file, r.renamed) && file.Keys <= names.Keys
    ensures Good(LoadSome(r, file, order, x), names)
    ensures LoadSome(r, file, order, x).renamed == r.renamed
  {
    hide Good, LoadNext, Agrees;
    if order != [] {
      var n := |order| - 1;
      GoodIsCurrent(r, names);
      LoadKeepsGood(r, file, order[..n], x, names);
      LoadNextKeepsGood(LoadSome(r, file, order[..n], x), file, order[n], x, names);
    }
  }

  lemma SaveAndLoadIsGood(r: Registry, names: map<Name, Name>, x: Context)
    requires Durable(r) && Named(r, names)
    ensures Good(SaveAndLoad(r, x).reg, names)
  {
    hide LoadSome;
    SavedIsGood(r, names);
    LoadKeepsGood(Written(r), Snapshot(r), x.order, x, names);
  }

  // ---------- Operations ----------

  lemma AddIsGood(r: Registry, names: map<Name, Name>, op: Op)
    requires op.Add? && Good(r, names) && Told(r, names, op) && !Forgets(r, op)
    ensures Good(Apply(r, op), NamesAfter(r, names, op))
  {
    hide Good, Durable, Snapshot;
    var d := op.device;
    if op.link.up && d in Keys(r.renamed) {
      ReconnectingKeepsGood(r, names, d);
    } else if Registers(r, d, op.link) {
      RegisteringKeepsGood(r, names, d, op.info);
      AnnouncingKeepsGood(Save(Register(r, d, op.info)), d, op.info, op.link, names[d := d]);
    }
  }

  lemma ReconnectingKeepsGood(r: Registry, names: map<Name, Name>, d: Name)
    requires Good(r, names) && d in r.connected
    ensures Good(Save(r.(disconnected := r.disconnected - {d})).reg, names)
  {
    hide FileCurrent;
    SavedIsGood(r.(disconnected := r.disconnected - {d}), names);
  }

  lemma RegisteringKeepsGood(r: Registry, names: map<Name, Name>, d: Name, i: Info)
    requires Good(r, names) && HasConnector(i)
    ensures Good(Save(Register(r, d, i)).reg, names[d := d]) && !Save(Register(r, d, i)).raised
  {
    hide FileCurrent;
    SavedIsGood(Register(r, d, i), names[d := d]);
  }

  lemma AnnouncingKeepsGood(o: Outcome, d: Name, i: Info, link: Link, names: map<Name, Name>)
    requires Good(o.reg, names)
    ensures Good(Announce(o, d, i, link).reg, names)
  {}

  lemma DelIsGood(r: Registry, names: map<Name, Name>, d: Name)
    requires Good(r, names)
    ensures Good(DelDevice(r, d).reg, names)
  {
    SavedIsGood(Disconnect(r, d), names);
  }

  lemma UpdateIsGood(r: Registry, names: map<Name, Name>, d: Name, c: Connector)
    requires Good(r, names)
    ensures Good(UpdateDevice(r, d, c).reg, names)
  {
    if d in r.connected && !r.connected[d].Missing? {
      SavedIsGood(r.(connected := r.connected[d := WithConnector(r.connected[d], c)]), names);
    }
  }

  lemma RenamedIsGood(r: Registry, names: map<Name, Name>, op: Op)
    requires op.Renamed? && Good(r, names) && Follows(r, names) && Told(r, names, op) && !Forgets(r, op)
    ensures Good(Apply(r, op), NamesAfter(r, names, op))
  {
    hide SaveAndLoad;
    var d :| d in names && names[d] == op.old_;
    var q := r.(renamed := NoteRename(r, op.old_, op.new_));
    KnownByName(r, names, d);
    forall e | e in Keys(q.renamed) ensures Kept(q, e) { NoteRenameGet(r, names, d, op.new_, e); }
    SaveAndLoadIsGood(q, NamesAfter(r, names, op), op.x);
  }

  lemma DeletedIsGood(r: Registry, names: map<Name, Name>, op: Op)
    requires op.Deleted? && Good(r, names) && Follows(r, names) && Told(r, names, op)
    ensures Good(Apply(r, op), NamesAfter(r, names, op))
  {
    assert forall d, e | d in names && e in names :: names[d] == names[e] ==> d == e;
    hide SaveAndLoad, Follows, Forget, Durable;
    var d :| d in names && names[d] == op.name;
    KnownByName(r, names, d);
    ForgettingKeepsDurable(r, op.name);
    ForgettingKeepsNamed(r, names, op.name);
    SaveAndLoadIsGood(Forget(r, op.name), NamesAfter(r, names, op), op.x);
  }

  lemma ForgettingKeepsDurable(r: Registry, name: Name)
    requires Durable(r) && (LocalName(r, name) in Keys(r.renamed) ==> KeyByValue(r.renamed, name).Some?)
    ensures Durable(Forget(r, name))
  {
    var q, d := Forget(r, name), LocalName(r, name);
    forall e | e in Keys(q.renamed) ensures Kept(q, e) {
      RemoveGet(r.renamed, d, e);
      assert Get(q.renamed, e).Some?;
    }
  }

  lemma ForgettingKeepsNamed(r: Registry, names: map<Name, Name>, name: Name)
    requires Named(r, names) && LocalName(r, name) in names && names[LocalName(r, name)] == name
    requires forall e | e in names && names[e] == name :: e == LocalName(r, name)
    ensures Named(Forget(r, name), DeletedNames(names, name))
  {}

  // The first load after a start puts every rename of the file, and all it belongs to,
  // back into the maps.
  lemma {:induction false} FirstLoadIsDurable(file: map<Name, FileEntry>, order: seq<Name>, x: Context)
    requires !x.up
    ensures Durable(LoadSome(NOTHING.(file := file), file, order, x))
  {
    if order != [] {
      var n := |order| - 1;
      FirstLoadIsDurable(file, order[..n], x);
      NextIsDurable(LoadSome(NOTHING.(file := file), file, order[..n], x), file, order[n], x);
    }
  }

  lemma NextIsDurable(r: Registry, file: map<Name, FileEntry>, d: Name, x: Context)
    requires Durable(r) && !x.up
    ensures Durable(LoadNext(r, file, d, x))
  {
    hide Durable, Recall, Restore;
    if d in file {
      var c := Resolve(x.av, file[d]);
      RecallIsDurable(r, d, file[d]);
      if c.Some? { RestoreIsDurable(Recall(r, d, file[d]), d, Live(c, file[d].deviceType)); }
    }
  }

  lemma PutMembers(m: Dict<Name, Name>, d: Name, name: Name, a: Name)
    ensures a in Keys(Put(m, d, name)) <==> a in Keys(m) || a == d
  {
    hide Put, Keys;
    PutKeys(m, d, name);
  }

  lemma RecallIsDurable(r: Registry, d: Name, e: FileEntry)
    requires Durable(r)
    ensures Durable(Recall(r, d, e))
  {
    hide Keys, Put;
    if e.renaming.Some? {
      forall a | a in Keys(Recall(r, d, e).renamed) ensures Kept(Recall(r, d, e), a) {
        PutMembers(r.renamed, d, e.renaming.value, a);
      }
    }
  }

  lemma RestoreIsDurable(r: Registry, d: Name, i: Info)
    requires Durable(r) && HasConnector(i)
    ensures Durable(Restore(r, d, i, false))
  {}

  lemma RestartIsGood(r: Registry, names: map<Name, Name>, av: Available, x: Context)
    requires FileCurrent(r, names) && Lists(x.order, r.file)
    ensures Good(Restarted(r.file, av, x), names)
  {
    hide LoadSome, RecallNames;
    var q, off := NOTHING.(file := r.file), Offline(av, x);
    var y := Load(q, off);
    OfflineLoadKeepsFile(q, r.file, x.order, off);
    FirstLoadIsDurable(r.file, x.order, off);
    LoadKeepsNamed(q, r.file, x.order, off, names);
    LoadSomeNames(q, r.file, x.order, off);
    forall d ensures FileName(r.file, d) == Get(y.renamed, d) { RecallNamesGet([], r.file, x.order, d); }
    assert Agrees(r.file, y.renamed) by {
      forall d | d in r.file ensures r.file[d].renaming == Get(y.renamed, d) {
        assert FileName(r.file, d) == Get(y.renamed, d);
      }
    }
    LoadKeepsGood(y, r.file, x.order, x, names);
  }

  lemma ApplyIsGood(r: Registry, names: map<Name, Name>, op: Op)
    requires Good(r, names) && Follows(r, names) && Told(r, names, op) && !Forgets(r, op)
    ensures Good(Apply(r, op), NamesAfter(r, names, op))
  {
    hide Good, Follows, SaveAndLoad, Restarted, UpdateDevice, Save;
    match op
    case Add(_, _, _) => AddIsGood(r, names, op);
    case Del(d) => DelIsGood(r, names, d);
    case Renamed(_, _, _) => RenamedIsGood(r, names, op);
    case Deleted(_, _) => DeletedIsGood(r, names, op);
    case Update(d, c) => UpdateIsGood(r, names, d, c);
    case Restart(av, x) =>
      assert FileCurrent(r, names) by { GoodIsCurrent(r, names); }
      RestartIsGood(r, names, av, x);
  }

  // ---------- A lost rename ----------

  // The device is renamed, and neither the maps nor the file have it.
  predicate Lost(r: Registry, d: Name) { !Kept(r, d) && d !in r.file }

  lemma LoadNextKeepsLost(r: Registry, file: map<Name, FileEntry>, d: Name, x: Context, a: Name)
    requires Saveable(r) && Lost(r, a) && a !in file
    ensures Lost(LoadNext(r, file, d, x), a)
  {
    hide Recall, Restore, Lost;
    if d in file {
      var c := Resolve(x.av, file[d]);
      RecallKeepsLost(r, d, file[d], a);
      if c.Some? { RestoreKeepsLost(Recall(r, d, file[d]), d, Live(c, file[d].deviceType), x.up, a); }
    }
  }

  lemma RecallKeepsLost(r: Registry, d: Name, e: FileEntry, a: Name)
    requires Saveable(r) && Lost(r, a) && a != d
    ensures Saveable(Recall(r, d, e)) && Lost(Recall(r, d, e), a)
  {}

  lemma RestoreKeepsLost(r: Registry, d: Name, i: Info, up: bool, a: Name)
    requires Saveable(r) && Lost(r, a) && a != d
    ensures Lost(Restore(r, d, i, up), a)
  {
    hide ReAdd;
    ReAddKeepsLost(r.(connected := r.connected[d := i]), up, a);
  }

  lemma ReAddKeepsLost(r: Registry, up: bool, a: Name)
    requires Saveable(r) && Lost(r, a)
    ensures Lost(ReAdd(r, up), a)
  {}

  lemma {:induction false} LoadKeepsLost(r: Registry, file: map<Name, FileEntry>, order: seq<Name>, x: Context, a: Name)
    requires Saveable(r) && Lost(r, a) && a !in file
    ensures Lost(LoadSome(r, file, order, x), a)
  {
    if order != [] {
      var n := |order| - 1;
      LoadKeepsLost(r, file, order[..n], x, a);
      LoadNextKeepsLost(LoadSome(r, file, order[..n], x), file, order[n], x, a);
    }
  }

  lemma ForgettingLoses(r: Registry, names: map<Name, Name>, op: Op)
    requires Good(r, names) && Follows(r, names) && Told(r, names, op) && Forgets(r, op)
    ensures !FileCurrent(Apply(r, op), NamesAfter(r, names, op))
  {
    var q := Apply(r, op);
    match op
    case Add(d, _, _) =>
      assert Get(q.renamed, d).Some? && d !in q.file;
    case Renamed(a, b, x) =>
      var d :| d in names && names[d] == a;
      KnownByName(r, names, d);
      NoteRenameGet(r, names, d, b, d);
      var y := r.(renamed := NoteRename(r, a, b));
      assert a in names.Values;
      SaveAndLoadKeepsRenames(y, x);
      LoadKeepsLost(y.(file := Snapshot(y)), Snapshot(y), x.order, x, d);
      assert FileName(q.file, d) == None && Get(q.renamed, d) == Some(b);
  }

  // ---------- Every run ----------

  // As long as no rename is forgotten a restart finds a current file, and the run is one
  // of those for which the registry follows the platform.
  lemma {:induction false} RememberingRunIsGood(ops: seq<Op>)
    requires ToldRun(ops) && NeverForgets(ops)
    ensures DisciplinedRun(ops) && Good(RunRegistry(ops), RunNames(ops)) && AlwaysCurrent(ops)
  {
    if ops != [] {
      hide Good, Follows, Apply, Named, NamesAfter;
      var n := |ops| - 1;
      RememberingRunIsGood(ops[..n]);
      RegistryFollowsThePlatform(ops[..n]);
      var r, names := RunRegistry(ops[..n]), RunNames(ops[..n]);
      GoodIsCurrent(r, names);
      ApplyIsGood(r, names, ops[n]);
      GoodIsCurrent(RunRegistry(ops), RunNames(ops));
    }
  }

  // After every operation the file has all renames and no other devices than the
  // platform's, if and only if no operation was one that forgets a rename.
  lemma {:induction false} FileStaysCurrentExactly(ops: seq<Op>)
    requires ToldRun(ops)
    ensures AlwaysCurrent(ops) <==> NeverForgets(ops)
  {
    hide Good, Follows, Apply, NamesAfter, FileCurrent, Forgets, Told;
    if NeverForgets(ops) {
      RememberingRunIsGood(ops);
    } else {
      var n := |ops| - 1;
      FileStaysCurrentExactly(ops[..n]);
      if NeverForgets(ops[..n]) {
        RememberingRunIsGood(ops[..n]);
        RegistryFollowsThePlatform(ops[..n]);
        ForgettingLoses(RunRegistry(ops[..n]), RunNames(ops[..n]), ops[n]);
      }
    }
  }
}
