/** The latest-checkpoint index: an entry for exactly the processes with a live checkpoint, and that
    entry is the newest one by (created_at, id). */
module CheckpointProofs {
  import opened RuntimeTypes
  import opened Sorting
  import opened RuntimeProjections

  ghost predicate Filed(x: CheckpointIndex) {
    forall id | id in x.live :: x.live[id].checkpointId == id
  }

  /** The index is right: keyed exactly by the processes that own a live checkpoint, newest first. */
  ghost predicate LatestRight(x: CheckpointIndex) {
    && (forall process :: process in x.latest <==> HasCheckpoint(x.live, process))
    && (forall process | process in x.latest :: IsLatest(x.live, process, x.latest[process]))
  }

  /** The commits that spoil the index: the live id being committed again is the latest of its
      process, and it moves to another process or falls behind another live checkpoint. */
  ghost predicate Spoils(x: CheckpointIndex, c: CheckpointRef) {
    && c.checkpointId in x.live
    && var before := x.live[c.checkpointId];
       && before.processId in x.latest && x.latest[before.processId] == c.checkpointId
       && (before.processId != c.processId ||
           exists other :: other in x.live && other != c.checkpointId && x.live[other].processId == c.processId
                           && !NotNewer(x.live[other], c))
  }

  lemma NewerOrder(a: CheckpointRef, b: CheckpointRef, c: CheckpointRef)
    ensures NotNewer(a, b) || NotNewer(b, a)
    ensures NotNewer(a, b) && NotNewer(b, c) ==> NotNewer(a, c)
    ensures NotNewer(a, b) && NotNewer(b, a) ==> a.checkpointId == b.checkpointId
  {
    TextLeqTotal(a.checkpointId, b.checkpointId);
    if TextLeq(a.checkpointId, b.checkpointId) && TextLeq(b.checkpointId, c.checkpointId) {
      TextLeqTransitive(a.checkpointId, b.checkpointId, c.checkpointId);
    }
    if TextLeq(a.checkpointId, b.checkpointId) && TextLeq(b.checkpointId, a.checkpointId) {
      TextLeqAntisymmetric(a.checkpointId, b.checkpointId);
    }
  }

  /** A process with a live checkpoint has a newest one. */
  lemma {:induction false} LatestExists(live: map<string, CheckpointRef>, process: string)
    requires HasCheckpoint(live, process)
    ensures exists id :: IsLatest(live, process, id)
    decreases |live|
  {
    var id :| id in live && live[id].processId == process;
    var rest := live - {id};
    assert rest.Keys == live.Keys - {id};
    forall other | other in live && other != id ensures other in rest && rest[other] == live[other] {}
    assert |rest| < |live|;
    NewerOrder(live[id], live[id], live[id]);
    if HasCheckpoint(rest, process) {
      LatestExists(rest, process);
      var top :| IsLatest(rest, process, top);
      NewerOrder(live[id], live[top], live[top]);
      var winner := if NotNewer(live[id], live[top]) then top else id;
      forall other | other in live && live[other].processId == process
        ensures NotNewer(live[other], live[winner])
      {
        if other != id {
          assert other in rest && rest[other] == live[other];
          NewerOrder(live[other], live[top], live[id]);
        }
      }
      assert IsLatest(live, process, winner);
    } else {
      assert IsLatest(live, process, id);
    }
  }

  lemma MaxIsLatest(live: map<string, CheckpointRef>, process: string)
    requires HasCheckpoint(live, process)
    ensures IsLatest(live, process, MaxCheckpoint(live, process))
  {
    LatestExists(live, process);
  }

  /** The newest live checkpoint of a process is unique, so `max` has one possible answer. */
  lemma LatestUnique(x: CheckpointIndex, process: string, a: string, b: string)
    requires Filed(x) && IsLatest(x.live, process, a) && IsLatest(x.live, process, b)
    ensures a == b
  {
    NewerOrder(x.live[a], x.live[b], x.live[a]);
  }

  lemma InvalidationKeepsLatest(x: CheckpointIndex, id: string)
    requires Filed(x) && LatestRight(x)
    ensures Filed(WithInvalidation(x, id)) && LatestRight(WithInvalidation(x, id))
  {
    if id in x.live {
      var owner := x.live[id].processId;
      var rest := x.live - {id};
      var y := WithInvalidation(x, id);
      forall process ensures process in y.latest <==> HasCheckpoint(rest, process) {
        if process != owner {
          if HasCheckpoint(x.live, process) {
            var other :| other in x.live && x.live[other].processId == process;
            assert other in rest && rest[other].processId == process;
          }
        } else if HasCheckpoint(x.live, owner) && x.latest[owner] != id {
          assert x.latest[owner] in rest;
        }
      }
      forall process | process in y.latest ensures IsLatest(rest, process, y.latest[process]) {
        if process == owner && x.latest[owner] == id { MaxIsLatest(rest, owner); }
      }
    }
  }

  lemma CommitKeys(x: CheckpointIndex, c: CheckpointRef)
    requires Filed(x) && LatestRight(x) && !Spoils(x, c)
    ensures var y := WithCommit(x, c); forall process :: process in y.latest <==> HasCheckpoint(y.live, process)
  {
    var y := WithCommit(x, c);
    forall process ensures process in y.latest <==> HasCheckpoint(y.live, process) {
      if HasCheckpoint(x.live, process) {
        var top := x.latest[process];
        assert IsLatest(x.live, process, top);
        assert top != c.checkpointId ==> y.live[top].processId == process;
      }
      assert y.live[c.checkpointId].processId == c.processId;
    }
  }

  lemma CommitLatest(x: CheckpointIndex, c: CheckpointRef, process: string)
    requires Filed(x) && LatestRight(x) && !Spoils(x, c)
    requires process in WithCommit(x, c).latest
    ensures IsLatest(WithCommit(x, c).live, process, WithCommit(x, c).latest[process])
  {
    var y := WithCommit(x, c);
    NewerOrder(c, c, c);
    if process in x.latest { assert IsLatest(x.live, process, x.latest[process]); }
    if process == c.processId {
      forall other | other in y.live && y.live[other].processId == process
        ensures NotNewer(y.live[other], y.live[y.latest[process]])
      {
        if other != c.checkpointId {
          assert HasCheckpoint(x.live, process);
          var top := x.latest[process];
          NewerOrder(y.live[top], c, c);
          NewerOrder(x.live[other], x.live[top], c);
        } else if process in x.latest {
          NewerOrder(y.live[x.latest[process]], c, c);
        }
      }
    }
  }

  /** A commit keeps the index right exactly when it does not spoil it. */
  lemma CommitExact(x: CheckpointIndex, c: CheckpointRef)
    requires Filed(x) && LatestRight(x)
    ensures Filed(WithCommit(x, c))
    ensures LatestRight(WithCommit(x, c)) <==> !Spoils(x, c)
  {
    var y := WithCommit(x, c);
    if Spoils(x, c) {
      NewerOrder(c, c, c);
      var before := x.live[c.checkpointId];
      assert y.latest[before.processId] == c.checkpointId;
      if before.processId == c.processId {
        var other :| other in x.live && other != c.checkpointId && x.live[other].processId == c.processId
                     && !NotNewer(x.live[other], c);
        assert y.live[other] == x.live[other];
        assert !IsLatest(y.live, c.processId, c.checkpointId);
      } else {
        assert !IsLatest(y.live, before.processId, c.checkpointId);
      }
    } else {
      CommitKeys(x, c);
      forall process | process in y.latest ensures IsLatest(y.live, process, y.latest[process]) {
        CommitLatest(x, c, process);
      }
    }
  }

  /** Committing the only live checkpoint again under another process spoils a right index. */
  lemma CommitSpoils(x: CheckpointIndex, c: CheckpointRef, d: CheckpointRef)
    requires x == WithCommit(CheckpointIndex(map[], map[]), c)
    requires d.checkpointId == c.checkpointId && d.processId != c.processId
    ensures Filed(x) && LatestRight(x) && Spoils(x, d) && !LatestRight(WithCommit(x, d))
  {
    CommitExact(CheckpointIndex(map[], map[]), c);
    CommitExact(x, d);
  }

  /** No event of the run is a commit that spoils the index it meets. */
  ghost predicate NeverSpoils(x: CheckpointIndex, events: seq<Event>)
    decreases |events|
  {
    events == [] ||
    var init, last := events[..|events| - 1], events[|events| - 1];
    NeverSpoils(x, init) && !(Commits(last) && Spoils(AfterEvents(x, init), last.payload.checkpoint.value))
  }

  ghost function AfterEvents(x: CheckpointIndex, events: seq<Event>): CheckpointIndex
    decreases |events|
  {
    if events == [] then x else WithCheckpoint(AfterEvents(x, events[..|events| - 1]), events[|events| - 1])
  }

  /** The checkpoint index of the fold is its own fold: nothing else in an event touches it. */
  lemma {:induction false} FoldCheckpoints(p: Projection, events: seq<Event>, enforce: bool)
    requires Fold(p, events, enforce).Success?
    ensures Fold(p, events, enforce).value.core.checkpoints == AfterEvents(p.core.checkpoints, events)
  {
    if events != [] { FoldCheckpoints(p, events[..|events| - 1], enforce); }
  }

  /** The index is right after every event of a run exactly when no commit in it spoils. */
  lemma {:induction false} LatestAlwaysRight(x: CheckpointIndex, events: seq<Event>)
    requires Filed(x) && LatestRight(x)
    ensures Filed(AfterEvents(x, events))
    ensures NeverSpoils(x, events) <==> forall k | 0 <= k <= |events| :: LatestRight(AfterEvents(x, events[..k]))
  {
    assert events[..|events|] == events;
    if events != [] {
      var init, last := events[..|events| - 1], events[|events| - 1];
      LatestAlwaysRight(x, init);
      forall k | 0 <= k <= |init| ensures events[..k] == init[..k] {}
      var y := AfterEvents(x, init);
      assert init[..|init|] == init;
      if LatestRight(y) {
        if last.checkpointId.Some? && last.eventType.CheckpointInvalidated? {
          InvalidationKeepsLatest(y, last.checkpointId.value);
        } else if Commits(last) {
          CommitExact(y, last.payload.checkpoint.value);
        }
      }
      hide LatestRight, Filed, Spoils, WithCommit, WithInvalidation;
      AllButLast(x, events);
    }
  }

  lemma AllButLast(x: CheckpointIndex, events: seq<Event>)
    requires events != []
    ensures var init := events[..|events| - 1];
      (forall k | 0 <= k <= |events| :: LatestRight(AfterEvents(x, events[..k])))
        <==> ((forall k | 0 <= k <= |init| :: LatestRight(AfterEvents(x, init[..k])))
              && LatestRight(AfterEvents(x, events)))
  {
    hide LatestRight, AfterEvents;
    var init := events[..|events| - 1];
    assert events[..|events|] == events;
    forall k | 0 <= k <= |init| ensures events[..k] == init[..k] {}
    if (forall k | 0 <= k <= |events| :: LatestRight(AfterEvents(x, events[..k]))) {
      forall k | 0 <= k <= |init| ensures LatestRight(AfterEvents(x, init[..k])) {
        assert LatestRight(AfterEvents(x, events[..k]));
      }
    }
  }

  /** A reduction files every live checkpoint under its own id. */
  lemma ReducedFiled(events: seq<Event>, policy: Policy)
    requires Reduce(events, policy).Success?
    ensures Filed(Reduce(events, policy).value.core.checkpoints)
  {
    var ordered := Sort(EventLeq, events);
    var start := EmptyProjection(if ordered != [] then ordered[0].runtimeId else "runtime");
    FoldCheckpoints(start, ordered, false);
    LatestAlwaysRight(start.core.checkpoints, ordered);
  }

  /** Main result: in any successful reduction whose commits never spoil the index. */
  lemma ReducedLatestRight(events: seq<Event>, policy: Policy)
    requires Reduce(events, policy).Success?
    requires NeverSpoils(EmptyCore("").checkpoints, Sort(EventLeq, events))
    ensures LatestRight(Reduce(events, policy).value.core.checkpoints)
  {
    var ordered := Sort(EventLeq, events);
    var start := EmptyProjection(if ordered != [] then ordered[0].runtimeId else "runtime");
    FoldCheckpoints(start, ordered, false);
    LatestAlwaysRight(start.core.checkpoints, ordered);
    assert ordered[..|ordered|] == ordered;
  }
}
