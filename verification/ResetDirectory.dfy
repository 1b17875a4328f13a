/** `RuntimeDirectoryManager` as it runs. Each public operation holds the exclusive lock, so the methods
    are whole; the reset also hands out, as a ghost, the disks it passes through. */
module ResetDirectory {
  import opened RuntimeTypes
  import opened Sorting
  import opened ResetProtocol

  datatype DirectoryError =
    | NotEmpty | NotInitialized | IdentityMismatch | LeaseHeld | StagingTargetExists | CleanupRaised
    | InvalidIdentity(reason: IdentityFault)

  /** The package's callback: it may do anything to the entries, and may raise halfway. */
  type Cleanup = (Entries, Identity) -> (Entries, bool)

  function CleanedBy(cleanup: Option<Cleanup>, entries: Entries, current: Identity): (Entries, bool) {
    if cleanup.Some? then cleanup.value(entries, current) else (entries, true)
  }

  datatype IdentityFault = SameRuntimeId | WrongGeneration | WrongAncestor | ChangedTask

  /** `_validate_rerun_identity` */
  function IdentityFaultOf(current: Identity, next: Identity): Option<IdentityFault> {
    if next.runtimeId == current.runtimeId then Some(SameRuntimeId)
    else if next.generation != current.generation + 1 then Some(WrongGeneration)
    else if next.rerunOf != Some(current.runtimeId) then Some(WrongAncestor)
    else if current.logicalTaskId.Some? && next.logicalTaskId.Some? && next.logicalTaskId != current.logicalTaskId
    then Some(ChangedTask)
    else None
  }

  /** Opening a missing database creates one without an identity. */
  function AfterOpening(entries: Entries): Entries {
    if StoreIn(entries).NoStore? then WithStore(entries, Uninitialized) else entries
  }

  predicate LiveLease(store: Store, now: Time) {
    store.Owned? && store.leaseExpiry.Some? && store.leaseExpiry.value > now
  }

  /** The disk once any pending reset is complete. */
  function Settled(job: Job, d: Disk): Disk {
    if d.marker.None? then d else Disk(Fresh(job.identity), job.others, None)
  }

  lemma Longer(path: seq<Point>, q: Point)
    requires path != [] && History(path) && Follows(path[|path| - 1], q)
    ensures History(path + [q])
  {
    var longer := path + [q];
    forall i | 0 <= i < |longer| - 1 ensures Follows(longer[i], longer[i + 1]) {
      if i < |path| - 1 { assert Follows(path[i], path[i + 1]); }
    }
  }

  /** What is left to move after `i` moves into a directory that held `start`. */
  ghost predicate MovesLeft(names: seq<string>, i: nat, entries: Entries, kept: Entries, start: Entries) {
    && i <= |names| && Distinct(names)
    && (forall name :: name in entries <==> name in names[i..])
    && (forall name <- names[i..] :: name in kept <==> name in start)
    && (forall name <- names[..i] :: name !in start)
  }

  predicate Taken(names: seq<string>, start: Entries) {
    exists name <- names :: name in start
  }

  lemma TakenNames(names: seq<string>, entries: Entries, start: Entries)
    requires Lists(names, entries)
    ensures Taken(names, start) <==> !(entries.Keys !! start.Keys)
  {
  }

  lemma NothingMoved(names: seq<string>, entries: Entries, start: Entries)
    requires Lists(names, entries)
    ensures MovesLeft(names, 0, entries, start, start)
  {
    assert names[0..] == names;
  }

  lemma NextMove(names: seq<string>, i: nat, entries: Entries, kept: Entries, start: Entries)
    requires MovesLeft(names, i, entries, kept, start) && i < |names|
    ensures names[i] in entries
    ensures names[i] in kept ==> Taken(names, start)
    ensures names[i] !in kept ==>
      MovesLeft(names, i + 1, entries - {names[i]}, kept[names[i] := entries[names[i]]], start)
  {
    var name := names[i];
    assert names[i..] == [name] + names[i + 1..] && names[..i + 1] == names[..i] + [name];
    assert name in names[i..] && name in names;
  }

  lemma AllMoved(names: seq<string>, entries: Entries, kept: Entries, start: Entries)
    requires MovesLeft(names, |names|, entries, kept, start)
    ensures entries == map[] && !Taken(names, start)
  {
    assert names[|names|..] == [] && names[..|names|] == names;
  }

  /** The reset can complete: the new lineage is there already, or no entry's name is taken in staging. */
  predicate Unobstructed(d: Disk)
    requires d.marker.Some?
  {
    var m := d.marker.value;
    Opens(StoreIn(d.entries), m.identity.runtimeId) || d.entries.Keys !! Stage0(d, m.abandoned).Keys
  }

  /** Store creation has to be atomic: a crash that leaves the new database without its identity leaves a
      disk on which every later recovery is refused. */
  lemma HalfCreatedIsRefused(job: Job, d: Disk)
    requires job.Valid() && DATABASE_ENTRY in job.former
    requires MarkerOf(job, d) && StoreIn(d.entries).Uninitialized? && Stage0(d, job.abandoned) == job.former
    ensures !Unobstructed(d)
  {
    assert DATABASE_ENTRY in d.entries.Keys * job.former.Keys;
  }

  // The three ways the deletion of the staging directory goes on.

  lemma DeletesOne(d: Disk, abandoned: string, name: string)
    requires d.marker.Some? && d.marker.value.abandoned == abandoned
    requires abandoned in d.staged && name in d.staged[abandoned]
    ensures var e := d.(staged := d.staged[abandoned := d.staged[abandoned] - {name}]);
      Next(d, Deleting, e, Deleting) && e.staged - {abandoned} == d.staged - {abandoned}
  {
  }

  lemma DeletesLast(d: Disk, abandoned: string)
    requires d.marker.Some? && d.marker.value.abandoned == abandoned
    requires abandoned in d.staged && d.staged[abandoned] == map[]
    ensures Next(d, Deleting, d.(staged := d.staged - {abandoned}), Unlinking)
  {
  }

  lemma DeletesNothing(d: Disk, abandoned: string)
    requires d.marker.Some? && d.marker.value.abandoned == abandoned && abandoned !in d.staged
    ensures Next(d, Deleting, d, Unlinking) && d.staged - {abandoned} == d.staged
  {
  }

  class RuntimeDirectoryManager {
    var entries: Entries
    var staged: map<string, Entries>
    var marker: Option<Marker>
    ghost var job: Job

    /** A process starting over a directory; a marker it finds was left by an interrupted reset. */
    constructor (entries: Entries, staged: map<string, Entries>, marker: Option<Marker>, ghost job: Job)
      requires marker.Some? ==> Recoverable(job, Disk(entries, staged, marker))
      ensures View() == Disk(entries, staged, marker) && this.job == job && Valid()
    {
      this.entries, this.staged, this.marker, this.job := entries, staged, marker, job;
    }

    function View(): Disk
      reads this`entries, this`staged, this`marker
    {
      Disk(entries, staged, marker)
    }

    ghost predicate Valid()
      reads this
    {
      marker.Some? ==> Recoverable(job, View())
    }

    /** `RuntimeDurableStore(path, expected_runtime_id=...)` */
    method Open(expected: Option<string>) returns (r: Result<Identity, DirectoryError>)
      modifies this`entries
      ensures entries == AfterOpening(old(entries))
      ensures r == match StoreIn(old(entries))
                   case Owned(identity, _) =>
                     if expected.Some? && expected.value != identity.runtimeId then Failure(IdentityMismatch)
                     else Success(identity)
                   case _ => Failure(NotInitialized)
    {
      if StoreIn(entries).NoStore? {
        entries := WithStore(entries, Uninitialized);
      }
      var store := StoreIn(entries);
      if !store.Owned? {
        return Failure(NotInitialized);
      }
      if expected.Some? && expected.value != store.identity.runtimeId {
        return Failure(IdentityMismatch);
      }
      r := Success(store.identity);
    }

    /** `_initialize_new_store` */
    method InitializeNewStore(identity: Identity) returns (ok: bool)
      modifies this`entries
      ensures StoreIn(old(entries)).NoStore? ==> ok && entries == WithStore(old(entries), Owned(identity, None))
      ensures !StoreIn(old(entries)).NoStore? ==>
        entries == old(entries) && ok == Opens(StoreIn(entries), identity.runtimeId)
    {
      if !StoreIn(entries).NoStore? {
        var store := Open(Some(identity.runtimeId));
        return store.Success?;
      }
      entries := WithStore(entries, Owned(identity, None));
      ok := true;
    }

    /** The moving loop: each listed entry goes to staging unless its name is taken there. */
    method MoveEntries(names: seq<string>, abandoned: string, ghost before: seq<Point>)
      returns (ok: bool, ghost path: seq<Point>)
      requires marker.Some? && marker.value.abandoned == abandoned && abandoned in staged
      requires Lists(names, entries) && before != [] && History(before)
      requires before[|before| - 1] == Point(View(), Moving(names))
      modifies this`entries, this`staged
      ensures before <= path && History(path) && path[|path| - 1] == Point(View(), if ok then Moving([]) else Refused)
      ensures ok <==> old(entries).Keys !! old(staged)[abandoned].Keys
      ensures ok ==> entries == map[]
    {
      path := before;
      ghost var start := staged[abandoned];
      var i := 0;
      assert names[0..] == names;
      TakenNames(names, entries, start);
      hide Follows, History, MovesLeft, Taken;
      assert MovesLeft(names, 0, entries, start, start) by { NothingMoved(names, entries, start); }
      while i < |names|
        invariant 0 <= i <= |names| && abandoned in staged && marker == old(marker)
        invariant MovesLeft(names, i, entries, staged[abandoned], start)
        invariant before <= path && History(path) && path[|path| - 1] == Point(View(), Moving(names[i..]))
      {
        var name := names[i];
        NextMove(names, i, entries, staged[abandoned], start);
        if name in staged[abandoned] {
          path := Extended(path, Point(View(), Refused));
          return false, path;
        }
        assert names[i..][0] == name && names[i..][1..] == names[i + 1..];
        staged := staged[abandoned := staged[abandoned][name := entries[name]]];
        entries := entries - {name};
        path := Extended(path, Point(View(), Moving(names[i + 1..])));
        i := i + 1;
      }
      AllMoved(names, entries, staged[abandoned], start);
      assert names[i..] == [];
      ok := true;
    }

    /** `shutil.rmtree` of the staging directory, entry by entry in any order. */
    method DeleteStaged(abandoned: string, ghost before: seq<Point>) returns (ghost path: seq<Point>)
      requires marker.Some? && marker.value.abandoned == abandoned
      requires before != [] && History(before) && before[|before| - 1] == Point(View(), Deleting)
      modifies this`staged
      ensures before <= path && History(path) && path[|path| - 1] == Point(View(), Unlinking)
      ensures staged == old(staged) - {abandoned}
    {
      path := before;
      hide History, Follows, Next;
      if abandoned in staged {
        path := DeleteEntries(abandoned, before);
        DeletesLast(View(), abandoned);
        staged := staged - {abandoned};
      } else {
        DeletesNothing(View(), abandoned);
      }
      path := Extended(path, Point(View(), Unlinking));
    }

    method DeleteEntries(abandoned: string, ghost before: seq<Point>) returns (ghost path: seq<Point>)
      requires marker.Some? && marker.value.abandoned == abandoned && abandoned in staged
      requires before != [] && History(before) && before[|before| - 1] == Point(View(), Deleting)
      modifies this`staged
      ensures before <= path && History(path) && path[|path| - 1] == Point(View(), Deleting)
      ensures abandoned in staged && staged[abandoned] == map[]
      ensures staged - {abandoned} == old(staged) - {abandoned}
    {
      path := before;
      hide History, Follows, Next;
      while staged[abandoned] != map[]
        invariant abandoned in staged && staged - {abandoned} == old(staged) - {abandoned}
        invariant before <= path && History(path) && path[|path| - 1] == Point(View(), Deleting)
        decreases |staged[abandoned]|
      {
        path := DeleteEntry(abandoned, path);
      }
    }

    /** One entry of the staging directory. */
    method DeleteEntry(abandoned: string, ghost before: seq<Point>) returns (ghost path: seq<Point>)
      requires marker.Some? && marker.value.abandoned == abandoned && abandoned in staged && staged[abandoned] != map[]
      requires before != [] && History(before) && before[|before| - 1] == Point(View(), Deleting)
      modifies this`staged
      ensures before <= path && History(path) && path[|path| - 1] == Point(View(), Deleting)
      ensures abandoned in staged && staged - {abandoned} == old(staged) - {abandoned}
      ensures |staged[abandoned]| < |old(staged)[abandoned]|
    {
      hide History, Follows, Next;
      var name :| name in staged[abandoned];
      RemovedOne(staged[abandoned], name);
      DeletesOne(View(), abandoned, name);
      staged := staged[abandoned := staged[abandoned] - {name}];
      path := Extended(before, Point(View(), Deleting));
    }

    /** The last two moves of a reset: delete what is staged, then the marker. */
    method Clear(abandoned: string, ghost before: seq<Point>) returns (ghost path: seq<Point>)
      requires marker.Some? && marker.value.abandoned == abandoned
      requires before != [] && History(before) && before[|before| - 1] == Point(View(), Deleting)
      modifies this`staged, this`marker
      ensures before <= path && History(path) && path[|path| - 1] == Point(View(), Done)
      ensures staged == old(staged) - {abandoned} && marker.None?
    {
      path := DeleteStaged(abandoned, before);
      marker := None;
      Longer(path, Point(View(), Done));
      path := path + [Point(View(), Done)];
    }

    /** `_complete_reset_locked`: whatever the disk, the run is a history of the step relation that ends
        done, or refused when an error is raised. */
    method CompleteReset() returns (r: Result<(), DirectoryError>, ghost path: seq<Point>)
      requires marker.Some?
      modifies this`entries, this`staged, this`marker
      ensures path != [] && History(path) && path[0] == Point(old(View()), Checking)
      ensures path[|path| - 1] == Point(View(), if r.Success? then Done else Refused)
      ensures r.Success? <==> Unobstructed(old(View()))
      ensures Opens(StoreIn(old(entries)), old(marker).value.identity.runtimeId) ==>
        View() == Disk(old(entries), old(staged) - {old(marker).value.abandoned}, None)
    {
      hide History, Follows;
      var m := marker.value;
      path := Started(View());
      if !StoreIn(entries).NoStore? {
        var store := Open(Some(m.identity.runtimeId));
        if store.Success? {
          path := Extended(path, Point(View(), Deleting));
          path := Clear(m.abandoned, path);
          return Success(()), path;
        }
      }
      if m.abandoned !in staged {
        staged := staged[m.abandoned := map[]];
      }
      var names := ListKeys(entries.Keys);
      ListsKeys(names, entries);
      path := Extended(path, Point(View(), Moving(names)));
      var ok;
      ok, path := MoveEntries(names, m.abandoned, path);
      if !ok {
        return Failure(StagingTargetExists), path;
      }
      path := Extended(path, Point(View(), MarkingMoved));
      ghost var rest;
      r, rest := StartNewLineage(m, path);
      path := rest;
    }

    /** From an emptied directory to the end: the new store, then the staged leftovers and the marker. */
    method StartNewLineage(m: Marker, ghost before: seq<Point>) returns (r: Result<(), DirectoryError>,
        ghost path: seq<Point>)
      requires marker.Some? && marker.value.abandoned == m.abandoned && marker == Some(m)
      requires before != [] && History(before) && before[|before| - 1] == Point(View(), MarkingMoved)
      modifies this`entries, this`staged, this`marker
      ensures before <= path && History(path) && path[|path| - 1] == Point(View(), if r.Success? then Done else Refused)
      ensures StoreIn(old(entries)).NoStore? ==> r.Success?
    {
      hide History, Follows;
      path := before;
      marker := Some(m.(phase := Moved));
      path := Extended(path, Point(View(), Initializing));
      var ok := InitializeNewStore(m.identity);
      if !ok {
        path := Extended(path, Point(View(), Refused));
        return Failure(IdentityMismatch), path;
      }
      path := Extended(path, Point(View(), MarkingInitialized));
      marker := Some(m.(phase := Initialized));
      path := Extended(path, Point(View(), Deleting));
      path := Clear(m.abandoned, path);
      r := Success(());
    }

    // -------------------------------------------------------------- the public operations

    /** `_recover_pending_reset_locked`: from any disk an interrupted reset can leave, it ends with the new
        lineage alone. */
    method RecoverPendingResetLocked() returns (recovered: Option<Identity>)
      requires Valid()
      modifies this`entries, this`staged, this`marker
      ensures Valid() && View() == Settled(job, old(View())) && marker.None?
      ensures recovered == if old(marker).Some? then Some(job.identity) else None
    {
      if marker.None? {
        return None;
      }
      var identity := marker.value.identity;
      var r, path := CompleteReset();
      InvAlong(job, path);
      recovered := Some(identity);
    }

    /** `recover_pending_reset` */
    method RecoverPendingReset() returns (r: Result<Option<Identity>, DirectoryError>)
      requires Valid()
      modifies this`entries, this`staged, this`marker
      ensures Valid() && View() == Settled(job, old(View()))
      ensures r == Success(if old(marker).Some? then Some(job.identity) else None)
    {
      var recovered := RecoverPendingResetLocked();
      if recovered.None? {
        return Success(None);
      }
      var store := Open(Some(recovered.value.runtimeId));
      r := match store case Success(identity) => Success(Some(identity)) case Failure(error) => Failure(error);
    }

    /** `create` */
    method Create(identity: Identity) returns (r: Result<Identity, DirectoryError>)
      requires Valid()
      modifies this`entries, this`staged, this`marker
      ensures Valid() && marker.None? && staged == Settled(job, old(View())).staged
      ensures r.Success? <==> old(marker).None? && old(entries) == map[]
      ensures r.Success? ==> r.value == identity && entries == Fresh(identity)
      ensures r.Failure? ==> r.error == NotEmpty && entries == Settled(job, old(View())).entries
    {
      var recovered := RecoverPendingResetLocked();
      if entries != map[] {
        return Failure(NotEmpty);
      }
      entries := WithStore(entries, Owned(identity, None));
      r := Success(identity);
    }

    /** `continue_runtime` */
    method ContinueRuntime(expected: string) returns (r: Result<Identity, DirectoryError>)
      requires Valid()
      modifies this`entries, this`staged, this`marker
      ensures Valid() && marker.None?
      ensures var before := Settled(job, old(View()));
        && staged == before.staged && entries == AfterOpening(before.entries)
        && (r.Success? <==> Opens(StoreIn(before.entries), expected))
        && (r.Success? ==> r.value == StoreIn(before.entries).identity)
    {
      var recovered := RecoverPendingResetLocked();
      r := Open(Some(expected));
    }

    /** How a rerun that is not refused ends, by what the cleanup left. */
    static predicate Rerunned(
      r: Result<Identity, DirectoryError>, after: Disk, before: Disk, cleaned: (Entries, bool), next: Identity)
    {
      if !cleaned.1 then r == Failure(CleanupRaised) && after == Disk(cleaned.0, before.staged, None)
      else if Opens(StoreIn(cleaned.0), next.runtimeId) then
        r == Success(StoreIn(cleaned.0).identity) && after == Disk(cleaned.0, before.staged, None)
      else r == Success(next) && after == Disk(Fresh(next), before.staged, None)
    }

    /** Why a rerun is refused before it touches anything. */
    static function RerunRefusal(store: Store, next: Identity, expected: string, now: Time): Option<DirectoryError> {
      if !store.Owned? then Some(NotInitialized)
      else if store.identity.runtimeId != expected then Some(DirectoryError.IdentityMismatch)
      else if LiveLease(store, now) then Some(LeaseHeld)
      else
        match IdentityFaultOf(store.identity, next)
        case Some(fault) => Some(InvalidIdentity(fault))
        case None => None
    }

    /** `rerun`: refused, it leaves the recovered directory as it is; with a cleanup that raises, as that
        left it; otherwise the new lineage replaces the old one entirely, unless the cleanup put a store of
        the new runtime there itself. `abandoned` is the staging name made from a fresh random id. */
    method Rerun(next: Identity, expected: string, now: Time, cleanup: Option<Cleanup>, abandoned: string)
      returns (r: Result<Identity, DirectoryError>)
      requires Valid() && abandoned !in staged
      modifies this
      ensures Valid() && marker.None?
      ensures var before := Settled(old(job), old(View()));
        var store := StoreIn(before.entries);
        var refused := RerunRefusal(store, next, expected, now);
        if refused.Some?
        then r == Failure(refused.value) && View() == Disk(AfterOpening(before.entries), before.staged, None)
        else Rerunned(r, View(), before, CleanedBy(cleanup, before.entries, store.identity), next)
    {
      var recovered := RecoverPendingResetLocked();
      assert abandoned !in staged;
      var current := Open(Some(expected));
      if current.Failure? {
        return Failure(current.error);
      }
      if LiveLease(StoreIn(entries), now) {
        return Failure(LeaseHeld);
      }
      var fault := IdentityFaultOf(current.value, next);
      if fault.Some? {
        return Failure(InvalidIdentity(fault.value));
      }
      if cleanup.Some? {
        var cleaned := cleanup.value(entries, current.value);
        entries := cleaned.0;
        if !cleaned.1 {
          return Failure(CleanupRaised);
        }
      }
      job := Job(entries, staged, abandoned, next);
      marker := Some(Marker(Prepared, abandoned, next));
      if !Opens(StoreIn(entries), next.runtimeId) {
        MarkerWritten(job, View());
      }
      var done, path := CompleteReset();
      if job.Valid() {
        InvAlong(job, path);
      }
      r := Open(Some(next.runtimeId));
    }
  }

  /** Opening leaves an empty database where there was none, inside the entry as it was, and changes nothing
      else. */
  lemma OpeningKeeps(entries: Entries, name: string)
    ensures StoreIn(AfterOpening(entries)) ==
      if DATABASE_ENTRY in entries && entries[DATABASE_ENTRY].store != NoStore then entries[DATABASE_ENTRY].store
      else Uninitialized
    ensures name in AfterOpening(entries) <==> name in entries || name == DATABASE_ENTRY
    ensures name in entries ==> AfterOpening(entries)[name].content == entries[name].content
    ensures name in entries && name != DATABASE_ENTRY ==> AfterOpening(entries)[name] == entries[name]
  {
  }

  /** Nobody holds the runtime at this instant. */
  predicate Unheld(store: Store, now: Time)
    requires store.Owned?
  {
    store.leaseExpiry.None? || store.leaseExpiry.value <= now
  }

  /** Both identities name a task and the names differ. */
  predicate TaskChanged(current: Identity, next: Identity) {
    && current.logicalTaskId.Some? && next.logicalTaskId.Some?
    && current.logicalTaskId.value != next.logicalTaskId.value
  }

  /** A rerun is accepted exactly when the expected runtime is there and unheld and the new identity has an id
      of its own, the next generation, the abandoned runtime as its origin and the same task; otherwise the
      first of these that fails is the reason. */
  lemma RerunExact(store: Store, next: Identity, expected: string, now: Time)
    ensures match RuntimeDirectoryManager.RerunRefusal(store, next, expected, now)
            case None =>
              && store.Owned? && store.identity.runtimeId == expected && Unheld(store, now)
              && next.runtimeId != expected && next.generation == store.identity.generation + 1
              && next.rerunOf == Some(expected) && !TaskChanged(store.identity, next)
            case Some(NotInitialized) => !store.Owned?
            case Some(IdentityMismatch) => store.Owned? && store.identity.runtimeId != expected
            case Some(LeaseHeld) => store.Owned? && store.identity.runtimeId == expected && !Unheld(store, now)
            case Some(InvalidIdentity(fault)) =>
              && store.Owned? && store.identity.runtimeId == expected && Unheld(store, now)
              && (match fault
                  case SameRuntimeId => next.runtimeId == expected
                  case WrongGeneration =>
                    next.runtimeId != expected && next.generation != store.identity.generation + 1
                  case WrongAncestor =>
                    && next.runtimeId != expected && next.generation == store.identity.generation + 1
                    && next.rerunOf != Some(expected)
                  case ChangedTask =>
                    && next.runtimeId != expected && next.generation == store.identity.generation + 1
                    && next.rerunOf == Some(expected) && TaskChanged(store.identity, next))
            case _ => false
  {
  }

  /** Right after the marker is committed the disk is recoverable. */
  lemma MarkerWritten(job: Job, d: Disk)
    requires job.Valid() && d == Disk(job.former, job.others, Some(Marker(Prepared, job.abandoned, job.identity)))
    ensures Recoverable(job, d)
  {
    assert Stage0(d, job.abandoned) == map[] && d.entries + map[] == job.former;
    assert d.staged - {job.abandoned} == job.others;
  }

  ghost function Started(d: Disk): (path: seq<Point>)
    ensures path == [Point(d, Checking)] && History(path)
  {
    [Point(d, Checking)]
  }

  ghost function Extended(path: seq<Point>, q: Point): (longer: seq<Point>)
    requires path != [] && History(path) && Next(path[|path| - 1].disk, path[|path| - 1].at, q.disk, q.at)
    ensures longer == path + [q] && History(longer)
  {
    Longer(path, q);
    path + [q]
  }
}
