/**
 The plugin registry: a database and a directory tree that change together, with
 explicit undo steps when a later step of an operation fails.
 */
module PluginRegistry {
  import opened Wrappers

  datatype Key = Key(name: string, version: string)

  datatype Place = Version(key: Key) | Trash(id: nat) | Staging

  type Files = map<string, string>

  datatype Row = Row(enabled: bool, digest: string, signer: string, path: Place)

  datatype RemovedRow = RemovedRow(key: Key, digest: string, signer: string, path: Place)

  datatype Store = Store(plugins: map<Key, Row>, removed: map<nat, RemovedRow>, disk: map<Place, Files>)

  datatype Refusal = Conflict | DirectoryExists | NotInstalled | Unavailable | StillEnabled | NotRecoverable | NotRestorable
                   | StepFailed

  /** The step of an operation that raises, if any. */
  datatype Fault = WriteFails | PublishFails | DatabaseFails | AuditFails

  const NO_FILES: Files := map[]

  /** Rows and version directories correspond one to one. */
  ghost predicate RowsPlaced(plugins: map<Key, Row>, disk: map<Place, Files>) {
    && (forall k | k in plugins :: plugins[k].path == Version(k) && Version(k) in disk)
    && (forall p | p in disk && p.Version? :: p.key in plugins)
  }

  /** Removed rows and trash directories correspond one to one. */
  ghost predicate TrashPlaced(removed: map<nat, RemovedRow>, disk: map<Place, Files>) {
    && (forall id | id in removed :: removed[id].path == Trash(id) && Trash(id) in disk)
    && (forall p | p in disk && p.Trash? :: p.id in removed)
  }

  /** At most one version of a name is enabled. */
  ghost predicate OneEnabled(plugins: map<Key, Row>) {
    forall a, b | a in plugins && b in plugins && a.name == b.name ::
      plugins[a].enabled && plugins[b].enabled ==> a == b
  }

  /** Database and directories agree, and nothing is half-written. */
  ghost predicate Consistent(s: Store) {
    && RowsPlaced(s.plugins, s.disk) && TrashPlaced(s.removed, s.disk) && OneEnabled(s.plugins)
    && Staging !in s.disk
  }

  // ---------- Each operation as one indivisible change

  datatype Op =
    | Install(key: Key, digest: string, signer: string, files: Files)
    | SetEnabled(key: Key, enabled: bool, intact: bool)
    | Remove(key: Key, id: nat)
    | Restore(id: nat)

  function Refuses(s: Store, op: Op): Option<Refusal> {
    match op
    case Install(key, digest, _, _) =>
      if key in s.plugins then
        if s.plugins[key].digest != digest || Version(key) !in s.disk then Some(Conflict) else None
      else if Version(key) in s.disk then Some(DirectoryExists)
      else None
    case SetEnabled(key, enabled, intact) =>
      if key !in s.plugins then Some(NotInstalled)
      else if s.plugins[key].path != Version(key) || Version(key) !in s.disk || (enabled && !intact) then Some(Unavailable)
      else None
    case Remove(key, _) =>
      if key !in s.plugins then Some(NotInstalled)
      else if s.plugins[key].enabled then Some(StillEnabled)
      else if s.plugins[key].path !in s.disk then Some(Unavailable)
      else None
    case Restore(id) =>
      if id !in s.removed then Some(NotRecoverable)
      else if s.removed[id].path !in s.disk || Version(s.removed[id].key) in s.disk then Some(NotRestorable)
      else None
  }

  function Switch(plugins: map<Key, Row>, key: Key, enabled: bool): map<Key, Row>
    requires key in plugins
  {
    map k | k in plugins ::
      if k == key then plugins[k].(enabled := enabled)
      else if enabled && k.name == key.name then plugins[k].(enabled := false)
      else plugins[k]
  }

  function Effect(s: Store, op: Op): Store
    requires Refuses(s, op).None?
  {
    match op
    case Install(key, digest, signer, files) =>
      if key in s.plugins then s
      else s.(plugins := s.plugins[key := Row(false, digest, signer, Version(key))], disk := s.disk[Version(key) := files])
    case SetEnabled(key, enabled, _) => s.(plugins := Switch(s.plugins, key, enabled))
    case Remove(key, id) =>
      var row := s.plugins[key];
      Store(s.plugins - {key}, s.removed[id := RemovedRow(key, row.digest, row.signer, Trash(id))],
            Moved(s.disk, row.path, Trash(id)))
    case Restore(id) =>
      var row := s.removed[id];
      Store(s.plugins[row.key := Row(false, row.digest, row.signer, Version(row.key))], s.removed - {id},
            Moved(s.disk, row.path, Version(row.key)))
  }

  function Moved(disk: map<Place, Files>, from: Place, target: Place): map<Place, Files>
    requires from in disk
  {
    (disk - {from})[target := disk[from]]
  }

  /** An operation that is refused or fails at any step changes nothing. */
  function Perform(s: Store, op: Op, fails: bool): Store {
    if Refuses(s, op).Some? || (fails && !(op.Install? && op.key in s.plugins)) then s else Effect(s, op)
  }

  /** A removal takes an id never used before. */
  predicate FreshId(s: Store, op: Op) {
    op.Remove? ==> op.id !in s.removed && Trash(op.id) !in s.disk
  }

  lemma AddPlugin(plugins: map<Key, Row>, disk: map<Place, Files>, key: Key, row: Row, files: Files)
    requires RowsPlaced(plugins, disk) && OneEnabled(plugins) && row.path == Version(key) && !row.enabled
    ensures RowsPlaced(plugins[key := row], disk[Version(key) := files]) && OneEnabled(plugins[key := row])
  {
  }

  lemma DropPlugin(plugins: map<Key, Row>, disk: map<Place, Files>, key: Key)
    requires RowsPlaced(plugins, disk) && OneEnabled(plugins)
    ensures RowsPlaced(plugins - {key}, disk - {Version(key)}) && OneEnabled(plugins - {key})
  {
  }

  lemma AddRemoved(removed: map<nat, RemovedRow>, disk: map<Place, Files>, id: nat, row: RemovedRow, files: Files)
    requires TrashPlaced(removed, disk) && row.path == Trash(id)
    ensures TrashPlaced(removed[id := row], disk[Trash(id) := files])
  {
  }

  lemma DropRemoved(removed: map<nat, RemovedRow>, disk: map<Place, Files>, id: nat)
    requires TrashPlaced(removed, disk)
    ensures TrashPlaced(removed - {id}, disk - {Trash(id)})
  {
  }

  /** Only version directories matter to rows, and only trash directories to removed rows. */
  lemma OtherPlaces(s: Store, place: Place, files: Files)
    ensures RowsPlaced(s.plugins, s.disk) && !place.Version? ==>
              RowsPlaced(s.plugins, s.disk[place := files]) && RowsPlaced(s.plugins, s.disk - {place})
    ensures TrashPlaced(s.removed, s.disk) && !place.Trash? ==>
              TrashPlaced(s.removed, s.disk[place := files]) && TrashPlaced(s.removed, s.disk - {place})
  {
  }

  lemma InstallKeepsConsistent(s: Store, op: Op)
    requires Consistent(s) && op.Install? && Refuses(s, op).None?
    ensures Consistent(Effect(s, op))
  {
    hide RowsPlaced, TrashPlaced, OneEnabled;
    AddPlugin(s.plugins, s.disk, op.key, Row(false, op.digest, op.signer, Version(op.key)), op.files);
    OtherPlaces(s, Version(op.key), op.files);
  }

  lemma SwitchKeepsConsistent(s: Store, op: Op)
    requires Consistent(s) && op.SetEnabled? && Refuses(s, op).None?
    ensures Consistent(Effect(s, op))
  {
    SwitchKeepsOneEnabled(s.plugins, op.key, op.enabled);
    hide TrashPlaced, OneEnabled;
  }

  lemma SwitchKeepsOneEnabled(plugins: map<Key, Row>, key: Key, enabled: bool)
    requires OneEnabled(plugins) && key in plugins
    ensures OneEnabled(Switch(plugins, key, enabled))
  {
  }

  lemma RemoveKeepsConsistent(s: Store, op: Op)
    requires Consistent(s) && op.Remove? && Refuses(s, op).None? && FreshId(s, op)
    ensures Consistent(Effect(s, op))
  {
    var row, files := s.plugins[op.key], s.disk[s.plugins[op.key].path];
    assert row.path == Version(op.key);
    hide RowsPlaced, TrashPlaced, OneEnabled;
    DropPlugin(s.plugins, s.disk, op.key);
    OtherPlaces(s, row.path, files);
    var between := Store(s.plugins - {op.key}, s.removed, s.disk - {row.path});
    AddRemoved(between.removed, between.disk, op.id, RemovedRow(op.key, row.digest, row.signer, Trash(op.id)), files);
    OtherPlaces(between, Trash(op.id), files);
  }

  lemma RestoreKeepsConsistent(s: Store, op: Op)
    requires Consistent(s) && op.Restore? && Refuses(s, op).None?
    ensures Consistent(Effect(s, op))
  {
    var row, files := s.removed[op.id], s.disk[s.removed[op.id].path];
    assert row.path == Trash(op.id);
    hide RowsPlaced, TrashPlaced, OneEnabled;
    DropRemoved(s.removed, s.disk, op.id);
    OtherPlaces(s, row.path, files);
    var between := Store(s.plugins, s.removed - {op.id}, s.disk - {row.path});
    AddPlugin(between.plugins, between.disk, row.key, Row(false, row.digest, row.signer, Version(row.key)), files);
    OtherPlaces(between, Version(row.key), files);
  }

  lemma PerformKeepsConsistent(s: Store, op: Op, fails: bool)
    requires Consistent(s) && FreshId(s, op)
    ensures Consistent(Perform(s, op, fails))
  {
    hide Consistent, Effect;
    if Refuses(s, op).None? {
      match op {
        case Install(_, _, _, _) => InstallKeepsConsistent(s, op);
        case SetEnabled(_, _, _) => SwitchKeepsConsistent(s, op);
        case Remove(_, _) => RemoveKeepsConsistent(s, op);
        case Restore(_) => RestoreKeepsConsistent(s, op);
      }
    }
  }

  // ---------- Undo steps

  lemma AddThenDrop<K, V>(m: map<K, V>, k: K, v: V)
    requires k !in m
    ensures m[k := v] - {k} == m
  {
  }

  lemma DropThenAdd<K, V>(m: map<K, V>, k: K)
    requires k in m
    ensures (m - {k})[k := m[k]] == m
  {
  }

  lemma MoveBack(disk: map<Place, Files>, from: Place, target: Place)
    requires from in disk && target !in disk
    ensures target in Moved(disk, from, target) && from !in Moved(disk, from, target)
    ensures Moved(Moved(disk, from, target), target, from) == disk
  {
    assert Moved(Moved(disk, from, target), target, from) == disk;
  }

  lemma StagedAndMoved(disk: map<Place, Files>, files: Files, target: Place)
    requires Staging !in disk && target !in disk && target != Staging
    ensures Moved(disk[Staging := files], Staging, target) == disk[target := files]
  {
  }

  datatype Attempt = Attempt(op: Op, fails: bool)

  function Run(s: Store, attempts: seq<Attempt>): Store
    decreases |attempts|
  {
    if attempts == [] then s
    else Run(if FreshId(s, attempts[0].op) then Perform(s, attempts[0].op, attempts[0].fails) else s, attempts[1..])
  }

  /** Every run of operations, failing or not, keeps database and directories in agreement. */
  lemma {:induction false} RunKeepsConsistent(s: Store, attempts: seq<Attempt>)
    requires Consistent(s)
    ensures Consistent(Run(s, attempts))
    decreases |attempts|
  {
    hide Consistent, Perform;
    if attempts == [] {
    } else {
      if FreshId(s, attempts[0].op) {
        PerformKeepsConsistent(s, attempts[0].op, attempts[0].fails);
      }
      RunKeepsConsistent(if FreshId(s, attempts[0].op) then Perform(s, attempts[0].op, attempts[0].fails) else s, attempts[1..]);
    }
  }

  /** In a consistent store a removal can always be restored, and that gives the store back. */
  lemma RemoveThenRestore(s: Store, key: Key, id: nat)
    requires Consistent(s) && FreshId(s, Remove(key, id)) && Refuses(s, Remove(key, id)).None?
    ensures Refuses(Effect(s, Remove(key, id)), Restore(id)).None?
    ensures Effect(Effect(s, Remove(key, id)), Restore(id)) == s
  {
    var gone := Effect(s, Remove(key, id));
    var row := s.plugins[key];
    assert row.path == Version(key) && !row.enabled;
    hide Consistent;
    DropThenAdd(s.plugins, key);
    AddThenDrop(s.removed, id, gone.removed[id]);
    MoveBack(s.disk, row.path, Trash(id));
  }

  /** The row and the files of a removal are there, as they were. */
  ghost predicate KeepsRemoval(before: Store, after: Store, id: nat)
    requires id in before.removed && Trash(id) in before.disk
  {
    && id in after.removed && after.removed[id] == before.removed[id]
    && Trash(id) in after.disk && after.disk[Trash(id)] == before.disk[Trash(id)]
  }

  lemma StepKeepsRemoval(s: Store, op: Op, fails: bool, id: nat)
    requires Consistent(s) && FreshId(s, op) && id in s.removed && op != Restore(id)
    ensures Trash(id) in s.disk && KeepsRemoval(s, Perform(s, op, fails), id)
  {
    if Refuses(s, op).None? {
      match op {
        case Install(_, _, _, _) =>
        case SetEnabled(_, _, _) =>
        case Remove(key, _) => assert s.plugins[key].path == Version(key);
        case Restore(other) => assert s.removed[other].path == Trash(other);
      }
    }
  }

  /** No run without its own restore touches a removal. */
  lemma {:induction false} RunKeepsRemoval(s: Store, attempts: seq<Attempt>, id: nat)
    requires Consistent(s) && id in s.removed && forall i | 0 <= i < |attempts| :: attempts[i].op != Restore(id)
    ensures Trash(id) in s.disk && KeepsRemoval(s, Run(s, attempts), id)
    decreases |attempts|
  {
    assert Trash(id) in s.disk;
    hide Consistent, Perform;
    if attempts == [] {
    } else {
      var op, fails := attempts[0].op, attempts[0].fails;
      if FreshId(s, op) {
        PerformKeepsConsistent(s, op, fails);
        StepKeepsRemoval(s, op, fails, id);
      }
      RunKeepsRemoval(if FreshId(s, op) then Perform(s, op, fails) else s, attempts[1..], id);
    }
  }

  /**
   Whatever happens after a removal, short of its own restore, restoring it is accepted exactly when its
   version has not been installed again; and then the row and the files come back as they were removed.
   */
  lemma RecoverableAfterAnyRun(s: Store, key: Key, id: nat, attempts: seq<Attempt>)
    requires Consistent(s) && FreshId(s, Remove(key, id)) && Refuses(s, Remove(key, id)).None?
    requires forall i | 0 <= i < |attempts| :: attempts[i].op != Restore(id)
    ensures var later := Run(Effect(s, Remove(key, id)), attempts);
            && (Refuses(later, Restore(id)).None? <==> key !in later.plugins)
            && (key !in later.plugins ==>
                  var back := Effect(later, Restore(id));
                  && Version(key) in s.disk && Version(key) in back.disk && back.disk[Version(key)] == s.disk[Version(key)]
                  && back.plugins == later.plugins[key := s.plugins[key]] && back.removed == later.removed - {id})
  {
    var gone := Effect(s, Remove(key, id));
    RemoveKeepsConsistent(s, Remove(key, id));
    RunKeepsConsistent(gone, attempts);
    RunKeepsRemoval(gone, attempts, id);
    var later := Run(gone, attempts);
    assert s.plugins[key].path == Version(key) && !s.plugins[key].enabled;
    assert gone.disk[Trash(id)] == s.disk[Version(key)];
    assert later.removed[id] == RemovedRow(key, s.plugins[key].digest, s.plugins[key].signer, Trash(id));
    hide Run;
    assert Version(key) in later.disk <==> key in later.plugins;
  }

  /** Restoring and removing again under the same id gives the store back, too. */
  lemma RestoreThenRemove(s: Store, id: nat)
    requires Consistent(s) && Refuses(s, Restore(id)).None?
    ensures var op := Remove(s.removed[id].key, id);
            Refuses(Effect(s, Restore(id)), op).None? && Effect(Effect(s, Restore(id)), op) == s
  {
    var back := Effect(s, Restore(id));
    var row := s.removed[id];
    assert row.path == Trash(id) && row.key !in s.plugins;
    hide Consistent;
    AddThenDrop(s.plugins, row.key, back.plugins[row.key]);
    DropThenAdd(s.removed, id);
    MoveBack(s.disk, row.path, Version(row.key));
  }

  /** Enabling a version leaves it the only enabled one of its name, and no other name changes. */
  lemma EnableIsExclusive(s: Store, key: Key, other: Key)
    requires Refuses(s, SetEnabled(key, true, true)).None? && other in s.plugins
    ensures var after := Effect(s, SetEnabled(key, true, true)).plugins;
            && other in after
            && (other.name == key.name ==> (after[other].enabled <==> other == key))
            && (other.name != key.name ==> after[other] == s.plugins[other])
            && after[other] == s.plugins[other].(enabled := after[other].enabled)
  {
  }

  function Disabled(plugins: map<Key, Row>, name: string): map<Key, Row> {
    map k | k in plugins :: if k.name == name then plugins[k].(enabled := false) else plugins[k]
  }

  /** Same rows, up to the enabled flags of one name. */
  ghost predicate OnlyFlagsDiffer(plugins: map<Key, Row>, before: map<Key, Row>, name: string) {
    && plugins.Keys == before.Keys
    && (forall k | k in before && k.name == name :: SameButFlag(plugins[k], before[k]))
    && (forall k | k in before && k.name != name :: plugins[k] == before[k])
  }

  predicate SameButFlag(a: Row, b: Row) {
    a == b.(enabled := a.enabled)
  }

  lemma DisabledOnlyFlags(plugins: map<Key, Row>, before: map<Key, Row>, name: string)
    requires OnlyFlagsDiffer(plugins, before, name)
    ensures OnlyFlagsDiffer(Disabled(plugins, name), before, name)
  {
  }

  lemma UndoOne(plugins: map<Key, Row>, before: map<Key, Row>, name: string, k: Key)
    requires OnlyFlagsDiffer(plugins, before, name) && k in before && k.name == name
    ensures k in plugins && plugins[k].(enabled := before[k].enabled) == before[k]
    ensures OnlyFlagsDiffer(plugins[k := before[k]], before, name)
  {
  }

  lemma FlagsRestored(plugins: map<Key, Row>, before: map<Key, Row>, name: string)
    requires OnlyFlagsDiffer(plugins, before, name)
    requires forall k | k in before && k.name == name :: k in plugins && plugins[k] == before[k]
    ensures plugins == before
  {
  }

  class Registry {
    var plugins: map<Key, Row>
    var removed: map<nat, RemovedRow>
    var disk: map<Place, Files>

    ghost function State(): Store
      reads this
    {
      Store(plugins, removed, disk)
    }

    ghost predicate Valid()
      reads this
    {
      Consistent(State())
    }

    constructor ()
      ensures Valid() && State() == Store(map[], map[], map[])
    {
      plugins, removed, disk := map[], map[], map[];
    }

    method Rename(from: Place, target: Place)
      requires from in disk && target !in disk
      modifies this`disk
      ensures disk == Moved(old(disk), from, target)
    {
      disk := (disk - {from})[target := disk[from]];
    }

    /** `partial` is what a failed write leaves in the staging directory. */
    method InstallPackage(key: Key, digest: string, signer: string, files: Files, fault: Option<Fault>, partial: Files)
      returns (r: Result<Row, Refusal>)
      requires Valid()
      modifies this
      ensures Valid() && State() == Perform(old(State()), Install(key, digest, signer, files), fault.Some?)
      ensures r.Ok? ==> key in plugins && r.value == plugins[key]
      ensures r.Err? ==> State() == old(State())
      ensures Refuses(old(State()), Install(key, digest, signer, files)).Some? ==>
                r == Err(Refuses(old(State()), Install(key, digest, signer, files)).value)
    {
      PerformKeepsConsistent(State(), Install(key, digest, signer, files), fault.Some?);
      assert Staging !in disk;
      hide Consistent;
      var target := Version(key);
      if key in plugins {
        if plugins[key].digest != digest || target !in disk {
          return Err(Conflict);
        }
        return Ok(plugins[key]);
      }
      if target in disk {
        return Err(DirectoryExists);
      }
      var done := PublishAndRecord(key, digest, signer, files, fault, partial);
      return if done then Ok(plugins[key]) else Err(StepFailed);
    }

    /** The directory, the row and the audit record, or nothing. */
    method PublishAndRecord(key: Key, digest: string, signer: string, files: Files, fault: Option<Fault>, partial: Files)
      returns (done: bool)
      requires key !in plugins && Version(key) !in disk && Staging !in disk
      modifies this`plugins, this`disk
      ensures done == fault.None?
      ensures plugins == if done then old(plugins)[key := Row(false, digest, signer, Version(key))] else old(plugins)
      ensures disk == if done then old(disk)[Version(key) := files] else old(disk)
    {
      assert fault.Some? ==> var f := fault.value; f.WriteFails? || f.PublishFails? || f.DatabaseFails? || f.AuditFails?;
      var target := Version(key);
      var published := Publish(target, files, fault, partial);
      if !published {
        return false;
      }
      AddThenDrop(old(disk), target, files);
      if fault == Some(DatabaseFails) {
        disk := disk - {target};
        return false;
      }
      var row := Row(false, digest, signer, target);
      plugins := plugins[key := row];
      if fault == Some(AuditFails) {
        AddThenDrop(old(plugins), key, row);
        plugins := plugins - {key};
        disk := disk - {target};
        return false;
      }
      return true;
    }

    /** Writes into the staging directory and renames it, or cleans it up. */
    method Publish(target: Place, files: Files, fault: Option<Fault>, partial: Files) returns (published: bool)
      requires Staging !in disk && target !in disk && target != Staging
      modifies this`disk
      ensures published == (fault != Some(WriteFails) && fault != Some(PublishFails))
      ensures disk == if published then old(disk)[target := files] else old(disk)
    {
      AddThenDrop(disk, Staging, files);
      AddThenDrop(disk, Staging, partial);
      StagedAndMoved(disk, files, target);
      disk := disk[Staging := NO_FILES];
      if fault == Some(WriteFails) {
        disk := disk[Staging := partial];
        assert disk == old(disk)[Staging := partial];
        disk := disk - {Staging};
        return false;
      }
      disk := disk[Staging := files];
      assert disk == old(disk)[Staging := files];
      if fault == Some(PublishFails) {
        disk := disk - {Staging};
        return false;
      }
      Rename(Staging, target);
      return true;
    }

    /** A database fault rolls the transaction back; an audit fault comes after its commit. */
    method SetPluginEnabled(key: Key, enabled: bool, intact: bool, fault: Option<Fault>) returns (r: Result<Row, Refusal>)
      requires Valid()
      modifies this`plugins
      ensures Valid() && State() == Perform(old(State()), SetEnabled(key, enabled, intact), fault.Some?)
      ensures r.Ok? ==> key in plugins && r.value == plugins[key] && r.value.enabled == enabled
      ensures r.Err? ==> State() == old(State())
      ensures Refuses(old(State()), SetEnabled(key, enabled, intact)).Some? ==>
                r == Err(Refuses(old(State()), SetEnabled(key, enabled, intact)).value)
    {
      PerformKeepsConsistent(State(), SetEnabled(key, enabled, intact), fault.Some?);
      hide Consistent;
      var previous := map k | k in plugins && k.name == key.name :: plugins[k].enabled;
      if key !in plugins {
        return Err(NotInstalled);
      }
      if plugins[key].path != Version(key) || Version(key) !in disk {
        return Err(Unavailable);
      }
      if enabled && !intact {
        return Err(Unavailable);
      }
      var saved := plugins;
      UpdateFlags(key, enabled);
      if fault.Some? && fault.value != AuditFails {
        plugins := saved;
        return Err(StepFailed);
      }
      if fault.Some? {
        UndoEnabled(key.name, previous, old(plugins));
        return Err(StepFailed);
      }
      return Ok(plugins[key]);
    }

    method UpdateFlags(key: Key, enabled: bool)
      requires key in plugins
      modifies this`plugins
      ensures plugins == Switch(old(plugins), key, enabled) && plugins[key].enabled == enabled
      ensures OnlyFlagsDiffer(plugins, old(plugins), key.name)
    {
      if enabled {
        DisableAll(key.name);
      }
      plugins := plugins[key := plugins[key].(enabled := enabled)];
      assert plugins == Switch(old(plugins), key, enabled);
    }

    method DisableAll(name: string)
      modifies this`plugins
      ensures plugins == Disabled(old(plugins), name)
    {
      plugins := Disabled(plugins, name);
    }

    /** Puts back the recorded flags, one row at a time. */
    method UndoEnabled(name: string, previous: map<Key, bool>, ghost before: map<Key, Row>)
      requires OnlyFlagsDiffer(plugins, before, name)
      requires previous == map k | k in before && k.name == name :: before[k].enabled
      modifies this`plugins
      ensures plugins == before
    {
      DisabledOnlyFlags(plugins, before, name);
      DisableAll(name);
      hide Disabled, OnlyFlagsDiffer;
      var pending := previous.Keys;
      while pending != {}
        invariant pending <= previous.Keys
        invariant OnlyFlagsDiffer(plugins, before, name)
        invariant forall k | k in previous && k !in pending :: k in plugins && plugins[k] == before[k]
        decreases pending
      {
        var k :| k in pending;
        UndoOne(plugins, before, name, k);
        pending := pending - {k};
        plugins := plugins[k := plugins[k].(enabled := previous[k])];
      }
      FlagsRestored(plugins, before, name);
    }

    /** `id` is the fresh identifier of the removal. */
    method RemovePlugin(key: Key, id: nat, fault: Option<Fault>) returns (r: Result<RemovedRow, Refusal>)
      requires Valid() && FreshId(State(), Remove(key, id))
      modifies this
      ensures Valid() && State() == Perform(old(State()), Remove(key, id), fault.Some?)
      ensures r.Ok? ==> id in removed && r.value == removed[id]
      ensures r.Err? ==> State() == old(State())
      ensures Refuses(old(State()), Remove(key, id)).Some? ==> r == Err(Refuses(old(State()), Remove(key, id)).value)
    {
      PerformKeepsConsistent(State(), Remove(key, id), fault.Some?);
      assert key in plugins ==> plugins[key].path == Version(key);
      hide Consistent;
      if key !in plugins {
        return Err(NotInstalled);
      }
      var row := plugins[key];
      if row.enabled {
        return Err(StillEnabled);
      }
      if row.path !in disk {
        return Err(Unavailable);
      }
      var done := TrashAndRecord(key, id, row, fault);
      return if done then Ok(removed[id]) else Err(StepFailed);
    }

    /** The rename, the two rows and the audit record, or nothing. */
    method TrashAndRecord(key: Key, id: nat, row: Row, fault: Option<Fault>) returns (done: bool)
      requires key in plugins && plugins[key] == row && !row.enabled && row.path in disk
      requires id !in removed && Trash(id) !in disk
      modifies this
      ensures done == fault.None?
      ensures State() == if done then Effect(old(State()), Remove(key, id)) else old(State())
    {
      assert fault.Some? ==> var f := fault.value; f.WriteFails? || f.PublishFails? || f.DatabaseFails? || f.AuditFails?;
      var source, trash := row.path, Trash(id);
      if fault == Some(WriteFails) || fault == Some(PublishFails) {
        return false;
      }
      MoveBack(disk, source, trash);
      hide Moved;
      Rename(source, trash);
      if fault == Some(DatabaseFails) {
        Rename(trash, source);
        return false;
      }
      removed := removed[id := RemovedRow(key, row.digest, row.signer, trash)];
      plugins := plugins - {key};
      if fault == Some(AuditFails) {
        DropThenAdd(old(plugins), key);
        AddThenDrop(old(removed), id, removed[id]);
        Rename(trash, source);
        plugins := plugins[key := Row(false, row.digest, row.signer, source)];
        removed := removed - {id};
        return false;
      }
      return true;
    }

    method RestorePlugin(id: nat, fault: Option<Fault>) returns (r: Result<Row, Refusal>)
      requires Valid()
      modifies this
      ensures Valid() && State() == Perform(old(State()), Restore(id), fault.Some?)
      ensures r.Ok? ==> id in old(removed) && old(removed)[id].key in plugins && r.value == plugins[old(removed)[id].key]
      ensures r.Err? ==> State() == old(State())
      ensures Refuses(old(State()), Restore(id)).Some? ==> r == Err(Refuses(old(State()), Restore(id)).value)
    {
      PerformKeepsConsistent(State(), Restore(id), fault.Some?);
      assert id in removed ==> removed[id].path == Trash(id);
      assert id in removed && Version(removed[id].key) !in disk ==> removed[id].key !in plugins;
      hide Consistent;
      if id !in removed {
        return Err(NotRecoverable);
      }
      var row := removed[id];
      var trash, target := row.path, Version(row.key);
      if trash !in disk || target in disk {
        return Err(NotRestorable);
      }
      var done := UntrashAndRecord(id, row, fault);
      return if done then Ok(plugins[row.key]) else Err(StepFailed);
    }

    /** The rename, the two rows and the audit record, or nothing. */
    method UntrashAndRecord(id: nat, row: RemovedRow, fault: Option<Fault>) returns (done: bool)
      requires id in removed && removed[id] == row && row.path == Trash(id) && row.path in disk
      requires Version(row.key) !in disk && row.key !in plugins
      modifies this
      ensures done == fault.None?
      ensures State() == if done then Effect(old(State()), Restore(id)) else old(State())
    {
      assert fault.Some? ==> var f := fault.value; f.WriteFails? || f.PublishFails? || f.DatabaseFails? || f.AuditFails?;
      var trash, target := row.path, Version(row.key);
      if fault == Some(WriteFails) || fault == Some(PublishFails) {
        return false;
      }
      MoveBack(disk, trash, target);
      hide Moved;
      Rename(trash, target);
      if fault == Some(DatabaseFails) {
        Rename(target, trash);
        return false;
      }
      plugins := plugins[row.key := Row(false, row.digest, row.signer, target)];
      removed := removed - {id};
      if fault == Some(AuditFails) {
        AddThenDrop(old(plugins), row.key, plugins[row.key]);
        DropThenAdd(old(removed), id);
        Rename(target, trash);
        removed := removed[id := RemovedRow(row.key, row.digest, row.signer, trash)];
        plugins := plugins - {row.key};
        return false;
      }
      return true;
    }
  }
}
