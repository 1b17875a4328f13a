/** The rerun reset as a crash-recoverable sequence of file-system steps: which disks can be left behind,
    and why running the recovery again always ends in the new lineage. */
module ResetProtocol {
  import opened RuntimeTypes
  import opened Sorting

  /** What the durable database inside an entry holds. Opening a missing one leaves it without identity. */
  datatype Store = NoStore | Uninitialized | Owned(identity: Identity, leaseExpiry: Option<Time>)

  /** One entry of the runtime directory other than the control directory. */
  datatype Entry = Entry(store: Store, content: Json)

  type Entries = map<string, Entry>

  const DATABASE_ENTRY := "runtime"

  datatype Phase = Prepared | Moved | Initialized

  datatype Marker = Marker(phase: Phase, abandoned: string, identity: Identity)

  /** The runtime directory, the directories beside it, and the reset marker in the control directory. */
  datatype Disk = Disk(entries: Entries, staged: map<string, Entries>, marker: Option<Marker>)

  function StoreIn(entries: Entries): Store {
    if DATABASE_ENTRY in entries then entries[DATABASE_ENTRY].store else NoStore
  }

  /** Opening with the expected runtime id succeeds. */
  predicate Opens(store: Store, runtimeId: string) {
    store.Owned? && store.identity.runtimeId == runtimeId
  }

  function WithStore(entries: Entries, store: Store): Entries {
    entries[DATABASE_ENTRY := Entry(store, if DATABASE_ENTRY in entries then entries[DATABASE_ENTRY].content else Null)]
  }

  function Fresh(identity: Identity): Entries {
    map[DATABASE_ENTRY := Entry(Owned(identity, None), Null)]
  }

  /** What one reset set out to do: the lineage it abandons, where to, and the lineage it starts. */
  datatype Job = Job(former: Entries, others: map<string, Entries>, abandoned: string, identity: Identity)
  {
    /** The marker was written over no store of the new runtime, with a staging name nobody uses. */
    ghost predicate Valid() {
      !Opens(StoreIn(former), identity.runtimeId) && abandoned !in others
    }
  }

  /** Where a running reset stands. A crash sends it back to the check. */
  datatype Stage =
    | Checking | Moving(names: seq<string>) | MarkingMoved | Initializing | MarkingInitialized
    | Deleting | Unlinking | Done | Refused

  // ---------------------------------------------------------------- one step

  function Stage0(d: Disk, abandoned: string): Entries {
    if abandoned in d.staged then d.staged[abandoned] else map[]
  }

  ghost predicate Lists(names: seq<string>, entries: Entries) {
    Distinct(names) && forall name :: name in names <==> name in entries
  }

  /** One atomic step of `_complete_reset_locked`. The directory listing comes in any order, and so does
      the removal of what is staged. */
  ghost predicate Next(d: Disk, at: Stage, e: Disk, to: Stage) {
    d.marker.Some? &&
    var m := d.marker.value;
    match at
    case Checking =>
      if Opens(StoreIn(d.entries), m.identity.runtimeId) then e == d && to == Deleting
      else
        && e == d.(staged := d.staged[m.abandoned := Stage0(d, m.abandoned)])
        && to.Moving? && Lists(to.names, d.entries)
    case Moving(names) =>
      if names == [] then e == d && to == MarkingMoved
      else
        var name := names[0];
        if name in Stage0(d, m.abandoned) then e == d && to == Refused
        else
          && name in d.entries && m.abandoned in d.staged && e == MovedOne(d, m.abandoned, name)
          && to == Moving(names[1..])
    case MarkingMoved => e == d.(marker := Some(m.(phase := Moved))) && to == Initializing
    case Initializing =>
      if StoreIn(d.entries).NoStore?
      then e == d.(entries := WithStore(d.entries, Owned(m.identity, None))) && to == MarkingInitialized
      else e == d && to == if Opens(StoreIn(d.entries), m.identity.runtimeId) then MarkingInitialized else Refused
    case MarkingInitialized => e == d.(marker := Some(m.(phase := Initialized))) && to == Deleting
    case Deleting =>
      if m.abandoned !in d.staged then e == d && to == Unlinking
      else if d.staged[m.abandoned] == map[] then e == d.(staged := d.staged - {m.abandoned}) && to == Unlinking
      else
        && to == Deleting
        && exists name :: name in d.staged[m.abandoned]
             && e == d.(staged := d.staged[m.abandoned := d.staged[m.abandoned] - {name}])
    case Unlinking => e == d.(marker := None) && to == Done
    case Done => false
    case Refused => false
  }

  /** Process death between any two steps; the next recovery starts at the check. */
  ghost predicate Crash(d: Disk, at: Stage, e: Disk, to: Stage) {
    e == d && d.marker.Some? && to == Checking
  }

  // ---------------------------------------------------------------- the invariant

  ghost predicate MarkerOf(job: Job, d: Disk) {
    d.marker.Some? && d.marker.value.abandoned == job.abandoned && d.marker.value.identity == job.identity
  }

  ghost predicate OthersKept(job: Job, d: Disk) {
    d.staged - {job.abandoned} == job.others
  }

  /** Before the new lineage exists nothing old is lost: every old entry is in place or staged, unchanged. */
  ghost predicate Conserved(job: Job, d: Disk) {
    && d.entries.Keys !! Stage0(d, job.abandoned).Keys
    && d.entries + Stage0(d, job.abandoned) == job.former
  }

  /** The new lineage is committed: it is all there is, and only staged leftovers remain to delete. */
  ghost predicate Committed(job: Job, d: Disk) {
    && d.entries == Fresh(job.identity)
    && Stage0(d, job.abandoned).Keys <= job.former.Keys
  }

  ghost predicate Recoverable(job: Job, d: Disk) {
    job.Valid() && MarkerOf(job, d) && OthersKept(job, d) && (Conserved(job, d) || Committed(job, d))
  }

  ghost predicate Finished(job: Job, d: Disk) {
    d == Disk(Fresh(job.identity), job.others, None)
  }

  ghost predicate Inv(job: Job, d: Disk, at: Stage) {
    match at
    case Done => job.Valid() && Finished(job, d)
    case Refused => false
    case _ =>
      && Recoverable(job, d)
      && match at
         case Moving(names) => Conserved(job, d) && Lists(names, d.entries) && job.abandoned in d.staged
         case MarkingMoved => Conserved(job, d) && d.entries == map[] && job.abandoned in d.staged
         case Initializing => Conserved(job, d) && d.entries == map[] && job.abandoned in d.staged
         case MarkingInitialized => Committed(job, d)
         case Deleting => Committed(job, d)
         case Unlinking => Committed(job, d) && job.abandoned !in d.staged
         case _ => true
  }

  // ---------------------------------------------------------------- every step keeps it

  /** An old lineage in place or half moved never passes for the new one. */
  lemma OldIsNotNew(job: Job, d: Disk)
    requires job.Valid() && Conserved(job, d)
    ensures !Opens(StoreIn(d.entries), job.identity.runtimeId)
  {
    if DATABASE_ENTRY in d.entries {
      assert (d.entries + Stage0(d, job.abandoned))[DATABASE_ENTRY] == d.entries[DATABASE_ENTRY];
    }
  }

  /** The staging target never exists already. */
  lemma MoveTarget(job: Job, d: Disk, names: seq<string>)
    requires Inv(job, d, Moving(names)) && names != []
    ensures names[0] in d.entries && names[0] !in d.staged[job.abandoned]
  {
    assert names[0] in names;
  }

  function MovedOne(d: Disk, abandoned: string, name: string): Disk
    requires name in d.entries && abandoned in d.staged
  {
    d.(entries := d.entries - {name},
       staged := d.staged[abandoned := d.staged[abandoned][name := d.entries[name]]])
  }

  lemma MoveConserves(job: Job, d: Disk, name: string)
    requires Conserved(job, d) && OthersKept(job, d) && job.abandoned in d.staged && name in d.entries
    ensures var e := MovedOne(d, job.abandoned, name); Conserved(job, e) && OthersKept(job, e)
  {
    var e := MovedOne(d, job.abandoned, name);
    assert e.entries + Stage0(e, job.abandoned) == job.former;
    assert e.staged - {job.abandoned} == d.staged - {job.abandoned};
  }

  lemma MoveStep(job: Job, d: Disk, names: seq<string>)
    requires Inv(job, d, Moving(names)) && names != [] && names[0] in d.entries
    ensures Inv(job, MovedOne(d, job.abandoned, names[0]), Moving(names[1..]))
  {
    MoveConserves(job, d, names[0]);
    hide Conserved, OthersKept, Job.Valid;
    assert names == [names[0]] + names[1..];
  }

  lemma CheckStep(job: Job, d: Disk, e: Disk, to: Stage)
    requires Inv(job, d, Checking) && Next(d, Checking, e, to)
    ensures Inv(job, e, to)
  {
    if Conserved(job, d) {
      OldIsNotNew(job, d);
      assert e.staged - {job.abandoned} == d.staged - {job.abandoned};
    }
  }

  lemma InitializeStep(job: Job, d: Disk, e: Disk, to: Stage)
    requires Inv(job, d, Initializing) && Next(d, Initializing, e, to)
    ensures Inv(job, e, to)
  {
    assert Stage0(d, job.abandoned) == job.former by {
      assert d.entries + Stage0(d, job.abandoned) == Stage0(d, job.abandoned);
    }
    assert e.entries == Fresh(job.identity);
  }

  lemma DeleteStep(job: Job, d: Disk, e: Disk, to: Stage)
    requires Inv(job, d, Deleting) && Next(d, Deleting, e, to)
    ensures Inv(job, e, to)
  {
    assert e.staged - {job.abandoned} == d.staged - {job.abandoned};
  }

  /** Every step and every crash keeps the invariant, so the refusals are never reached. */
  lemma StepKeepsInv(job: Job, d: Disk, at: Stage, e: Disk, to: Stage)
    requires Inv(job, d, at) && (Next(d, at, e, to) || Crash(d, at, e, to))
    ensures Inv(job, e, to) && !to.Refused?
  {
    if Next(d, at, e, to) {
      match at
      case Checking => CheckStep(job, d, e, to);
      case Moving(names) =>
        if names != [] {
          MoveTarget(job, d, names);
          MoveStep(job, d, names);
        }
      case Initializing => InitializeStep(job, d, e, to);
      case Deleting => DeleteStep(job, d, e, to);
      case Unlinking =>
        assert d.staged - {job.abandoned} == d.staged;
      case _ =>
    }
  }

  datatype Point = Point(disk: Disk, at: Stage)

  /** Any number of steps, with a crash allowed between any two. */
  ghost predicate History(points: seq<Point>) {
    forall i | 0 <= i < |points| - 1 :: Follows(points[i], points[i + 1])
  }

  ghost predicate Follows(p: Point, q: Point) {
    Next(p.disk, p.at, q.disk, q.at) || Crash(p.disk, p.at, q.disk, q.at)
  }

  /** From the moment the marker is committed, whatever crashes happen: the reset is never refused; until
      the new identity is committed every old entry is in place or staged, unchanged; and when it is done the
      new lineage is all there is, with no marker and no staging directory. */
  lemma ResetIsCrashSafe(job: Job, points: seq<Point>)
    requires job.Valid() && points != [] && History(points) && points[0].at == Checking
    requires points[0].disk == Disk(job.former, job.others, Some(Marker(Prepared, job.abandoned, job.identity)))
    ensures var last := points[|points| - 1];
      && Inv(job, last.disk, last.at) && !last.at.Refused?
      && (Conserved(job, last.disk) || last.disk.entries == Fresh(job.identity))
      && (last.at.Done? <==> last.disk.marker.None?)
      && (last.at.Done? ==> last.disk == Disk(Fresh(job.identity), job.others, None))
  {
    var d := points[0].disk;
    assert Stage0(d, job.abandoned) == map[] && d.entries + map[] == job.former;
    assert d.staged - {job.abandoned} == job.others;
    InvAlong(job, points);
  }

  /** The invariant carries over any history, wherever it starts. */
  lemma {:induction false} InvAlong(job: Job, points: seq<Point>)
    requires points != [] && History(points) && Inv(job, points[0].disk, points[0].at)
    ensures Inv(job, points[|points| - 1].disk, points[|points| - 1].at)
  {
    hide Next, Inv;
    if |points| > 1 {
      var init, last, before := points[..|points| - 1], points[|points| - 1], points[|points| - 2];
      InvAlong(job, init);
      assert init[|init| - 1] == before && Follows(points[|points| - 2], points[|points| - 2 + 1]);
      StepKeepsInv(job, before.disk, before.at, last.disk, last.at);
    }
  }

  // ---------------------------------------------------------------- it also ends

  function StageRank(at: Stage): nat {
    match at
    case Checking => 7
    case Moving(_) => 6
    case MarkingMoved => 5
    case Initializing => 4
    case MarkingInitialized => 3
    case Deleting => 2
    case Unlinking => 1
    case _ => 0
  }

  function Remaining(d: Disk, at: Stage): nat {
    match at
    case Moving(names) => |names|
    case Deleting => if d.marker.Some? then |Stage0(d, d.marker.value.abandoned)| else 0
    case _ => 0
  }

  /** Without further crashes a reset always has a next step until it is done, and each one brings it closer. */
  lemma ResetProgresses(job: Job, d: Disk, at: Stage) returns (e: Disk, to: Stage)
    requires Inv(job, d, at) && !at.Done?
    ensures Next(d, at, e, to) && Inv(job, e, to)
    ensures StageRank(to) < StageRank(at) || (StageRank(to) == StageRank(at) && Remaining(e, to) < Remaining(d, at))
  {
    e, to := SomeStep(job, d, at);
    StepKeepsInv(job, d, at, e, to);
  }

  lemma SomeStep(job: Job, d: Disk, at: Stage) returns (e: Disk, to: Stage)
    requires Inv(job, d, at) && !at.Done?
    ensures Next(d, at, e, to)
    ensures StageRank(to) < StageRank(at) || (StageRank(to) == StageRank(at) && Remaining(e, to) < Remaining(d, at))
  {
    hide Conserved, Committed, OthersKept, Job.Valid;
    var m := d.marker.value;
    match at
    case Checking => e, to := StartReset(d);
    case Moving(names) =>
      if names == [] {
        e, to := d, MarkingMoved;
      } else {
        MoveTarget(job, d, names);
        e, to := MovedOne(d, m.abandoned, names[0]), Moving(names[1..]);
      }
    case MarkingMoved => e, to := d.(marker := Some(m.(phase := Moved))), Initializing;
    case Initializing =>
      e, to := d.(entries := WithStore(d.entries, Owned(m.identity, None))), MarkingInitialized;
    case MarkingInitialized => e, to := d.(marker := Some(m.(phase := Initialized))), Deleting;
    case Deleting => e, to := DeleteSome(d);
    case Unlinking => e, to := d.(marker := None), Done;
  }

  lemma StartReset(d: Disk) returns (e: Disk, to: Stage)
    requires d.marker.Some?
    ensures Next(d, Checking, e, to) && (to.Deleting? || to.Moving?)
  {
    var m := d.marker.value;
    if Opens(StoreIn(d.entries), m.identity.runtimeId) {
      e, to := d, Deleting;
    } else {
      var names := Listing(d.entries.Keys);
      ListsKeys(names, d.entries);
      e, to := d.(staged := d.staged[m.abandoned := Stage0(d, m.abandoned)]), Moving(names);
    }
  }

  lemma DeleteSome(d: Disk) returns (e: Disk, to: Stage)
    requires d.marker.Some?
    ensures Next(d, Deleting, e, to) && (to.Unlinking? || (to.Deleting? && Remaining(e, to) < Remaining(d, Deleting)))
  {
    var m := d.marker.value;
    if m.abandoned !in d.staged {
      e, to := d, Unlinking;
    } else if d.staged[m.abandoned] == map[] {
      e, to := d.(staged := d.staged - {m.abandoned}), Unlinking;
    } else {
      var name :| name in d.staged[m.abandoned];
      e, to := d.(staged := d.staged[m.abandoned := d.staged[m.abandoned] - {name}]), Deleting;
      RemovedOne(d.staged[m.abandoned], name);
    }
  }

  lemma ListsKeys(names: seq<string>, entries: Entries)
    requires multiset(names) == multiset(entries.Keys)
    ensures Lists(names, entries)
  {
    ListedOnce(names, entries.Keys);
  }

  lemma RemovedOne(entries: Entries, name: string)
    requires name in entries
    ensures |entries - {name}| == |entries| - 1
  {
    assert (entries - {name}).Keys == entries.Keys - {name};
    assert entries.Keys == (entries.Keys - {name}) + {name};
  }
}
