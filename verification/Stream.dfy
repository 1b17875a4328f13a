/** Polling an append-only event file: the cursor loop never skips or repeats an event. */
module EventStream {
  import opened RuntimeTypes
  import opened RuntimeProjections

  // ---------------------------------------------------------------- listing after a cursor

  function Above(events: seq<Event>, n: int): seq<Event> {
    if events == [] then []
    else
      var last := events[|events| - 1];
      Above(events[..|events| - 1], n) + (if NumericId(last.eventId) > n then [last] else [])
  }

  /** One past the last event with this id text, or zero. */
  function AfterText(events: seq<Event>, text: string): nat {
    if events == [] then 0
    else if IdText(events[|events| - 1].eventId) == text then |events|
    else AfterText(events[..|events| - 1], text)
  }

  /** `RuntimeEventJsonlStore.list` */
  function Listed(events: seq<Event>, since: Option<EventId>): seq<Event> {
    match since
    case None => events
    case Some(IntId(n)) => Above(events, n)
    case Some(TextId(text, numeric)) =>
      if AfterText(events, text) > 0 then Tail(events, AfterText(events, text))
      else if numeric.Some? then Above(events, numeric.value) else []
  }

  function Tail(events: seq<Event>, i: nat): seq<Event> {
    if i <= |events| then events[i..] else []
  }

  class RuntimeEventJsonlStore {
    var events: seq<Event>

    constructor (events: seq<Event>)
      ensures this.events == events
    {
      this.events := events;
    }

    method Append(e: Event)
      modifies this
      ensures events == old(events) + [e]
    {
      events := events + [e];
    }

    method Replace(snapshot: seq<Event>)
      modifies this
      ensures events == snapshot
    {
      events := snapshot;
    }

    /** The events with an id above a number. */
    method Filter(n: int) returns (r: seq<Event>)
      ensures r == Above(events, n)
    {
      r := [];
      for i := 0 to |events|
        invariant r == Above(events[..i], n)
      {
        assert events[..i + 1][..i] == events[..i];
        if NumericId(events[i].eventId) > n {
          r := r + [events[i]];
        }
      }
      assert events[..|events|] == events;
    }

    /** `list`: a text cursor is looked up from the end, then tried as a number. */
    method List(since: Option<EventId>) returns (r: seq<Event>)
      ensures r == Listed(events, since)
    {
      if since.None? {
        return events;
      }
      if since.value.IntId? {
        r := Filter(since.value.number);
        return;
      }
      var index := |events|;
      assert events[..index] == events;
      while index > 0
        invariant 0 <= index <= |events|
        invariant AfterText(events, since.value.text) == AfterText(events[..index], since.value.text)
      {
        assert events[..index][..index - 1] == events[..index - 1];
        if IdText(events[index - 1].eventId) == since.value.text {
          return events[index..];
        }
        index := index - 1;
      }
      if since.value.numeric.None? {
        return [];
      }
      r := Filter(since.value.numeric.value);
    }
  }

  // ---------------------------------------------------------------- ids that grow

  /** Every id text parses as the `numeric` beside it, and numbers print as texts that parse back. */
  ghost predicate Coherent(parse: string -> Option<int>, id: EventId) {
    match id
    case IntId(n) => parse(Decimal(n)) == Some(n)
    case TextId(text, numeric) => parse(text) == numeric
  }

  /** Strictly increasing numeric ids. */
  ghost predicate Increasing(parse: string -> Option<int>, events: seq<Event>) {
    && (forall e <- events :: Coherent(parse, e.eventId) && parse(IdText(e.eventId)).Some?)
    && Climbing(events)
  }

  ghost predicate Climbing(events: seq<Event>) {
    forall i, j | 0 <= i < j < |events| :: NumericId(events[i].eventId) < NumericId(events[j].eventId)
  }

  /** The number a cursor stands for, if it has one. */
  function CursorNumber(id: EventId): Option<int> {
    match id
    case IntId(n) => Some(n)
    case TextId(_, numeric) => numeric
  }

  lemma {:induction false} AboveNone(events: seq<Event>, n: int)
    requires forall i | 0 <= i < |events| :: NumericId(events[i].eventId) <= n
    ensures Above(events, n) == []
  {
    if events != [] { AboveNone(events[..|events| - 1], n); }
  }

  lemma {:induction false} AboveConcat(a: seq<Event>, b: seq<Event>, n: int)
    ensures Above(a + b, n) == Above(a, n) + Above(b, n)
  {
    if b == [] {
      assert a + b == a;
    } else {
      assert (a + b)[..|a + b| - 1] == a + b[..|b| - 1];
      AboveConcat(a, b[..|b| - 1], n);
    }
  }

  lemma {:induction false} AboveAll(events: seq<Event>, n: int)
    requires forall i | 0 <= i < |events| :: NumericId(events[i].eventId) > n
    ensures Above(events, n) == events
  {
    if events != [] {
      AboveAll(events[..|events| - 1], n);
      assert events == events[..|events| - 1] + [events[|events| - 1]];
    }
  }

  /** From the id of the event at `i` on, exactly the events after it are listed. */
  lemma AboveAt(events: seq<Event>, i: nat)
    requires Climbing(events) && i < |events|
    ensures Above(events, NumericId(events[i].eventId)) == events[i + 1..]
  {
    var a, b := events[..i + 1], events[i + 1..];
    var n := NumericId(events[i].eventId);
    AboutAt(events, i, a, b);
    hide NumericId, Above, Climbing;
    AboveConcat(a, b, n);
    AboveNone(a, n);
    AboveAll(b, n);
  }

  lemma AboutAt(events: seq<Event>, i: nat, a: seq<Event>, b: seq<Event>)
    requires Climbing(events) && i < |events| && a == events[..i + 1] && b == events[i + 1..]
    ensures events == a + b
    ensures forall k | 0 <= k < |a| :: NumericId(a[k].eventId) <= NumericId(events[i].eventId)
    ensures forall k | 0 <= k < |b| :: NumericId(b[k].eventId) > NumericId(events[i].eventId)
  {
    hide NumericId;
    assert forall k | 0 <= k < |b| :: b[k] == events[i + 1 + k];
  }

  lemma {:induction false} TextAt(parse: string -> Option<int>, events: seq<Event>, text: string)
    requires Increasing(parse, events)
    ensures var k := AfterText(events, text);
      && k <= |events|
      && (k > 0 ==> parse(text) == Some(NumericId(events[k - 1].eventId)))
      && (k == 0 ==> forall e <- events :: IdText(e.eventId) != text)
  {
    if events != [] {
      var init, last := events[..|events| - 1], events[|events| - 1];
      assert events == init + [last];
      LastParses(parse, events);
      hide Increasing, IdText, NumericId;
      TextAt(parse, init, text);
    }
  }

  lemma LastParses(parse: string -> Option<int>, events: seq<Event>)
    requires Increasing(parse, events) && events != []
    ensures var last := events[|events| - 1];
      Increasing(parse, events[..|events| - 1]) && parse(IdText(last.eventId)) == Some(NumericId(last.eventId))
  {
    var init, last := events[..|events| - 1], events[|events| - 1];
    assert last in events && Coherent(parse, last.eventId);
    assert forall e <- init :: e in events;
  }

  /** On increasing ids a cursor lists the events above its number, however it is written; one that is no
      number lists nothing. */
  lemma ListedIsAbove(parse: string -> Option<int>, events: seq<Event>, since: EventId)
    requires Increasing(parse, events) && Coherent(parse, since)
    ensures Listed(events, Some(since)) ==
      match CursorNumber(since) case Some(n) => Above(events, n) case None => []
  {
    assert Climbing(events);
    hide Increasing, Climbing, AfterText, Above, NumericId, Tail;
    if since.TextId? {
      TextAt(parse, events, since.text);
      var k := AfterText(events, since.text);
      if k > 0 {
        hide Listed;
        AboveAt(events, k - 1);
        TextListed(events, since);
      }
    }
  }

  lemma TextListed(events: seq<Event>, since: EventId)
    requires since.TextId? && 0 < AfterText(events, since.text) <= |events|
    ensures Listed(events, Some(since)) == events[AfterText(events, since.text)..]
  {
    hide AfterText;
  }

  /** The file as read at some moment, and everything after the start cursor in it. */
  ghost function Wanted(snapshot: seq<Event>, since: Option<EventId>): seq<Event> {
    Listed(snapshot, since)
  }

  /** On increasing ids the events above a number are a suffix. */
  lemma {:induction false} AboveIsSuffix(events: seq<Event>, n: int) returns (k: nat)
    requires Climbing(events)
    ensures SplitsAt(events, n, k) && Above(events, n) == events[k..]
  {
    if events == [] {
      k := 0;
    } else {
      var init, last := events[..|events| - 1], events[|events| - 1];
      LastAbove(events, n);
      hide NumericId, Above, Climbing, SplitsAt;
      if NumericId(last.eventId) <= n {
        k := |events|;
      } else {
        k := AboveIsSuffix(init, n);
        SplitsOn(events, n, k);
      }
    }
  }

  /** What the last event decides. */
  lemma LastAbove(events: seq<Event>, n: int)
    requires Climbing(events) && events != []
    ensures Climbing(events[..|events| - 1])
    ensures var last := events[|events| - 1];
      if NumericId(last.eventId) <= n then Above(events, n) == [] && SplitsAt(events, n, |events|)
      else Above(events, n) == Above(events[..|events| - 1], n) + [last]
  {
    hide NumericId;
    if NumericId(events[|events| - 1].eventId) <= n { AboveNone(events, n); }
  }

  lemma SplitsOn(events: seq<Event>, n: int, k: nat)
    requires events != [] && NumericId(events[|events| - 1].eventId) > n && SplitsAt(events[..|events| - 1], n, k)
    ensures SplitsAt(events, n, k) && events[k..] == events[..|events| - 1][k..] + [events[|events| - 1]]
  {
    hide NumericId;
  }

  ghost predicate SplitsAt(events: seq<Event>, n: int, k: nat) {
    && k <= |events|
    && (forall i | 0 <= i < k :: NumericId(events[i].eventId) <= n)
    && (forall i | k <= i < |events| :: NumericId(events[i].eventId) > n)
  }

  lemma PrefixIncreasing(parse: string -> Option<int>, a: seq<Event>, b: seq<Event>)
    requires a <= b && Increasing(parse, b)
    ensures Increasing(parse, a)
  {
    forall e <- a ensures e in b {
      var i :| 0 <= i < |a| && a[i] == e;
      assert b[i] == e;
    }
  }

  /** A cursor's number splits the events at `k`. */
  ghost predicate StartsAt(events: seq<Event>, since: Option<EventId>, k: nat) {
    && k <= |events|
    && (since.None? ==> k == 0)
    && (since.Some? && CursorNumber(since.value).None? ==> k == |events|)
    && (since.Some? && CursorNumber(since.value).Some? ==> SplitsAt(events, CursorNumber(since.value).value, k))
  }

  /** Whatever the cursor, what it lists is a suffix, and it starts at the same place in every later
      snapshot that it starts inside an earlier one. */
  lemma WantedIsSuffix(parse: string -> Option<int>, events: seq<Event>, since: Option<EventId>) returns (k: nat)
    requires Increasing(parse, events) && (since.Some? ==> Coherent(parse, since.value))
    ensures StartsAt(events, since, k) && Wanted(events, since) == events[k..]
  {
    if since.None? {
      k := 0;
    } else {
      ListedIsAbove(parse, events, since.value);
      if CursorNumber(since.value).Some? {
        k := AboveIsSuffix(events, CursorNumber(since.value).value);
      } else {
        k := |events|;
      }
    }
  }

  /** Resuming from the id of a yielded event lists exactly what was not yielded yet, also when the file
      has grown since. */
  lemma ResumesAfter(parse: string -> Option<int>, earlier: seq<Event>, grown: seq<Event>, since: Option<EventId>,
      j: nat)
    requires earlier <= grown && Increasing(parse, grown) && (since.Some? ==> Coherent(parse, since.value))
    requires j < |Wanted(earlier, since)|
    ensures Wanted(earlier, since)[j] in grown
    ensures |Wanted(grown, since)| > j && Wanted(grown, since)[..j + 1] == Wanted(earlier, since)[..j + 1]
    ensures Listed(grown, Some(Wanted(earlier, since)[j].eventId)) == Wanted(grown, since)[j + 1..]
  {
    hide Listed, Wanted, Increasing, Coherent;
    var i := Located(parse, earlier, grown, since, j);
    CursorAt(parse, grown, i);
  }

  /** Where a yielded event lies in the grown file. */
  lemma Located(parse: string -> Option<int>, earlier: seq<Event>, grown: seq<Event>, since: Option<EventId>, j: nat)
    returns (i: nat)
    requires earlier <= grown && Increasing(parse, grown) && (since.Some? ==> Coherent(parse, since.value))
    requires j < |Wanted(earlier, since)|
    ensures i < |grown| && grown[i] == Wanted(earlier, since)[j] && grown[i] in grown
    ensures |Wanted(grown, since)| > j && Wanted(grown, since)[..j + 1] == Wanted(earlier, since)[..j + 1]
    ensures Wanted(grown, since)[j + 1..] == grown[i + 1..]
  {
    PrefixIncreasing(parse, earlier, grown);
    hide Listed, Wanted, Increasing, Coherent, StartsAt;
    var k := WantedIsSuffix(parse, earlier, since);
    var m := WantedIsSuffix(parse, grown, since);
    StartsInside(earlier, since, k);
    ShorterTail(earlier, k);
    SameStart(earlier, grown, since, k, m);
    i := k + j;
    ShiftedTails(earlier, grown, Wanted(earlier, since), Wanted(grown, since), k, j, i);
  }

  lemma StartsInside(events: seq<Event>, since: Option<EventId>, k: nat)
    requires StartsAt(events, since, k)
    ensures k <= |events|
  {
  }

  lemma ShorterTail<T>(a: seq<T>, k: nat)
    requires k <= |a|
    ensures |a[k..]| == |a| - k
  {
  }

  lemma ShiftedTails<T>(a: seq<T>, b: seq<T>, x: seq<T>, y: seq<T>, k: nat, j: nat, i: nat)
    requires a <= b && k <= |a| && x == a[k..] && y == b[k..] && j < |x| && i == k + j
    ensures i < |b| && b[i] == x[j] && b[i] in b
    ensures |y| > j && y[..j + 1] == x[..j + 1] && y[j + 1..] == b[i + 1..]
  {
  }

  lemma SameStart(a: seq<Event>, b: seq<Event>, since: Option<EventId>, k: nat, m: nat)
    requires a <= b && k < |a| && StartsAt(a, since, k) && StartsAt(b, since, m)
    ensures k == m
  {
    hide NumericId;
    assert b[k] == a[k];
    assert m < |a| ==> b[m] == a[m];
  }

  lemma CursorAt(parse: string -> Option<int>, events: seq<Event>, i: nat)
    requires Increasing(parse, events) && i < |events|
    ensures Listed(events, Some(events[i].eventId)) == events[i + 1..]
  {
    assert events[i] in events;
    ListedIsAbove(parse, events, events[i].eventId);
    AboveAt(events, i);
    hide Listed, Above;
    assert CursorNumber(events[i].eventId) == Some(NumericId(events[i].eventId));
  }

  // ---------------------------------------------------------------- the polling loop

  /** One turn of the polling loop: what the file holds when it is read, and the clock. */
  datatype Poll = Poll(snapshot: seq<Event>, now: Time)

  datatype Yielded = Heartbeat | Item(event: Event)

  datatype Ending = StillOpen | Terminal | Idle | Refused

  function Items(out: seq<Yielded>): seq<Event> {
    if out == [] then []
    else Items(out[..|out| - 1]) + (if out[|out| - 1].Item? then [out[|out| - 1].event] else [])
  }

  lemma {:induction false} ItemsPrefix(out: seq<Yielded>, i: nat)
    requires i <= |out|
    ensures Items(out[..i]) <= Items(out)
    decreases |out|
  {
    if i < |out| {
      assert out[..|out| - 1][..i] == out[..i];
      ItemsPrefix(out[..|out| - 1], i);
    } else {
      assert out[..i] == out;
    }
  }

  /** The file only grows, and its ids increase. */
  ghost predicate Growing(parse: string -> Option<int>, polls: seq<Poll>) {
    && (forall i, j | 0 <= i <= j < |polls| :: polls[i].snapshot <= polls[j].snapshot)
    && (forall i | 0 <= i < |polls| :: Increasing(parse, polls[i].snapshot))
  }

  ghost predicate HasTerminal(events: seq<Event>, isTerminal: Event -> bool) {
    exists e <- events :: isTerminal(e)
  }

  function Wrap(events: seq<Event>): seq<Yielded> {
    if events == [] then [] else Wrap(events[..|events| - 1]) + [Item(events[|events| - 1])]
  }

  // What the turns before `n` amount to, read off the schedule alone.

  /** The turn finds something that the one before did not. */
  ghost predicate News(polls: seq<Poll>, since: Option<EventId>, i: nat)
    requires i < |polls|
  {
    Wanted(polls[i].snapshot, since) != if i == 0 then [] else Wanted(polls[i - 1].snapshot, since)
  }

  /** The clock of the last turn before `n` that found news, or the start. */
  ghost function QuietFrom(polls: seq<Poll>, since: Option<EventId>, started: Time, n: nat): Time
    requires n <= |polls|
  {
    if n == 0 then started
    else if News(polls, since, n - 1) then polls[n - 1].now
    else QuietFrom(polls, since, started, n - 1)
  }

  /** Nothing new for as long as the timeout, which has to be given. */
  ghost predicate GivesUp(polls: seq<Poll>, since: Option<EventId>, idleTimeout: Option<Time>, started: Time, i: nat)
    requires i < |polls|
  {
    && idleTimeout.Some? && !News(polls, since, i)
    && polls[i].now - QuietFrom(polls, since, started, i) >= idleTimeout.value
  }

  /** A heartbeat is due: nothing new, no reason to give up, and nothing yielded for a whole interval. */
  ghost predicate Beats(
    polls: seq<Poll>, since: Option<EventId>, heartbeat: Time, idleTimeout: Option<Time>, started: Time, i: nat)
    requires i < |polls|
    decreases i, 1
  {
    && !News(polls, since, i) && !GivesUp(polls, since, idleTimeout, started, i)
    && polls[i].now - SilentFrom(polls, since, heartbeat, idleTimeout, started, i) >= heartbeat
  }

  /** The clock of the last turn before `n` that yielded anything, or the start. */
  ghost function SilentFrom(
    polls: seq<Poll>, since: Option<EventId>, heartbeat: Time, idleTimeout: Option<Time>, started: Time, n: nat): Time
    requires n <= |polls|
    decreases n, 0
  {
    if n == 0 then started
    else if News(polls, since, n - 1) || Beats(polls, since, heartbeat, idleTimeout, started, n - 1)
    then polls[n - 1].now
    else SilentFrom(polls, since, heartbeat, idleTimeout, started, n - 1)
  }

  /** What the first `n` turns yield: the news of each, or a heartbeat when one is due. */
  ghost function Output(
    polls: seq<Poll>, since: Option<EventId>, heartbeat: Time, idleTimeout: Option<Time>, started: Time, n: nat):
    seq<Yielded>
    requires n <= |polls|
  {
    if n == 0 then []
    else
      var i := n - 1;
      var seen := if i == 0 then [] else Wanted(polls[i - 1].snapshot, since);
      Output(polls, since, heartbeat, idleTimeout, started, i)
      + (if News(polls, since, i) && |seen| <= |Wanted(polls[i].snapshot, since)|
         then Wrap(Wanted(polls[i].snapshot, since)[|seen|..])
         else if Beats(polls, since, heartbeat, idleTimeout, started, i) then [Heartbeat] else [])
  }

  lemma {:induction false} QuietFromMeans(polls: seq<Poll>, since: Option<EventId>, started: Time, n: nat)
    requires n <= |polls|
    ensures (forall k: nat | k < n :: !News(polls, since, k)) ==> QuietFrom(polls, since, started, n) == started
    ensures forall j: nat | j < n && News(polls, since, j) && (forall k | j < k < n :: !News(polls, since, k)) ::
      QuietFrom(polls, since, started, n) == polls[j].now
  {
    hide News;
    if n > 0 { QuietFromMeans(polls, since, started, n - 1); }
  }

  ghost predicate Yields(
    polls: seq<Poll>, since: Option<EventId>, heartbeat: Time, idleTimeout: Option<Time>, started: Time, i: nat)
    requires i < |polls|
  {
    News(polls, since, i) || Beats(polls, since, heartbeat, idleTimeout, started, i)
  }

  lemma SilentOneMore(
    polls: seq<Poll>, since: Option<EventId>, heartbeat: Time, idleTimeout: Option<Time>, started: Time, n: nat)
    requires n < |polls|
    ensures SilentFrom(polls, since, heartbeat, idleTimeout, started, n + 1) ==
      if Yields(polls, since, heartbeat, idleTimeout, started, n) then polls[n].now
      else SilentFrom(polls, since, heartbeat, idleTimeout, started, n)
  {
    hide News, Beats;
  }

  lemma {:induction false} SilentFromMeans(
    polls: seq<Poll>, since: Option<EventId>, heartbeat: Time, idleTimeout: Option<Time>, started: Time, n: nat)
    requires n <= |polls|
    ensures (forall k: nat | k < n :: !Yields(polls, since, heartbeat, idleTimeout, started, k)) ==>
      SilentFrom(polls, since, heartbeat, idleTimeout, started, n) == started
    ensures forall j: nat | j < n && Yields(polls, since, heartbeat, idleTimeout, started, j)
                          && (forall k | j < k < n :: !Yields(polls, since, heartbeat, idleTimeout, started, k)) ::
      SilentFrom(polls, since, heartbeat, idleTimeout, started, n) == polls[j].now
  {
    hide Yields, SilentFrom;
    NoTurns(polls, since, heartbeat, idleTimeout, started);
    if n > 0 {
      SilentFromMeans(polls, since, heartbeat, idleTimeout, started, n - 1);
      SilentOneMore(polls, since, heartbeat, idleTimeout, started, n - 1);
    }
  }

  /** Between a heartbeat and whatever was yielded last before it lies at least one interval. */
  lemma BeatsApart(
    polls: seq<Poll>, since: Option<EventId>, heartbeat: Time, idleTimeout: Option<Time>, started: Time, j: nat, n: nat)
    requires j < n < |polls| && Beats(polls, since, heartbeat, idleTimeout, started, n)
    requires Yields(polls, since, heartbeat, idleTimeout, started, j)
    requires forall k | j < k < n :: !Yields(polls, since, heartbeat, idleTimeout, started, k)
    ensures polls[n].now - polls[j].now >= heartbeat
  {
    hide Yields, News, GivesUp;
    SilentFromMeans(polls, since, heartbeat, idleTimeout, started, n);
  }

  lemma {:induction false} WrapConcat(a: seq<Event>, b: seq<Event>)
    ensures Wrap(a + b) == Wrap(a) + Wrap(b)
  {
    if b == [] {
      assert a + b == a;
    } else {
      assert (a + b)[..|a + b| - 1] == a + b[..|b| - 1];
      WrapConcat(a, b[..|b| - 1]);
    }
  }

  lemma NothingWrapped()
    ensures Wrap([]) == []
  {
  }

  lemma WrapOne(before: seq<Yielded>, events: seq<Event>, i: nat)
    requires i < |events|
    ensures before + Wrap(events[..i]) + [Item(events[i])] == before + Wrap(events[..i + 1])
  {
    assert events[..i + 1][..i] == events[..i];
  }

  lemma WrapJoin(before: seq<Yielded>, events: seq<Event>, i: nat, rest: seq<Event>)
    requires i <= |events| && rest == events[i..]
    ensures before + Wrap(events[..i]) + Wrap(rest) == before + Wrap(events)
  {
    assert events == events[..i] + rest;
    WrapConcat(events[..i], rest);
  }

  /** Yields a batch event by event; at a terminal event, the rest of what this snapshot holds. */
  method YieldBatch(snapshot: seq<Event>, batch: seq<Event>, before: seq<Yielded>,
      start: Option<EventId>, isTerminal: Event -> bool,
                    ghost parse: string -> Option<int>, ghost since: Option<EventId>, ghost done: nat)
    returns (out: seq<Yielded>, lastId: Option<EventId>, ended: bool)
    requires Increasing(parse, snapshot) && (since.Some? ==> Coherent(parse, since.value))
    requires done <= |Wanted(snapshot, since)| && batch == Wanted(snapshot, since)[done..]
    requires Items(before) == Wanted(snapshot, since)[..done]
    ensures out == before + Wrap(batch) && Items(out) == Wanted(snapshot, since)
    ensures ended <==> HasTerminal(batch, isTerminal)
    ensures !ended ==> lastId == if batch == [] then start else Some(batch[|batch| - 1].eventId)
  {
    hide Increasing, Listed, Wrap, Wanted, Items;
    ghost var wanted := Wanted(snapshot, since);
    NothingWrapped();
    out, lastId, ended := before, start, false;
    for j := 0 to |batch|
      invariant out == before + Wrap(batch[..j]) && Items(out) == wanted[..done + j]
      invariant !ended && forall e <- batch[..j] :: !isTerminal(e)
      invariant lastId == if j == 0 then start else Some(batch[j - 1].eventId)
    {
      assert batch[..j + 1] == batch[..j] + [batch[j]] && batch[j] == wanted[done + j];
      WrapOne(before, batch, j);
      lastId := Some(batch[j].eventId);
      out := YieldOne(out, batch[j]);
      assert wanted[..done + j] + [wanted[done + j]] == wanted[..done + j + 1];
      if isTerminal(batch[j]) {
        ResumesAfter(parse, snapshot, snapshot, since, done + j);
        var store := new RuntimeEventJsonlStore(snapshot);
        var trailing := store.List(lastId);
        out := YieldTrailing(trailing, out, wanted, done + j + 1);
        WrapJoin(before, batch, j + 1, trailing);
        ended := true;
        assert batch[j] in batch;
        return;
      }
    }
    assert batch[..|batch|] == batch && wanted[..|wanted|] == wanted;
  }

  /** The listing after the terminal event. */
  method YieldTrailing(trailing: seq<Event>, before: seq<Yielded>, ghost wanted: seq<Event>, ghost done: nat)
    returns (out: seq<Yielded>)
    requires done <= |wanted| && trailing == wanted[done..] && Items(before) == wanted[..done]
    ensures out == before + Wrap(trailing) && Items(out) == wanted
  {
    hide Wrap, Items;
    NothingWrapped();
    out := before;
    for i := 0 to |trailing|
      invariant out == before + Wrap(trailing[..i]) && Items(out) == wanted[..done + i]
    {
      WrapOne(before, trailing, i);
      assert trailing[i] == wanted[done + i];
      out := YieldOne(out, trailing[i]);
      assert wanted[..done + i] + [wanted[done + i]] == wanted[..done + i + 1];
    }
    assert wanted[..|wanted|] == wanted && trailing[..|trailing|] == trailing;
  }

  method YieldOne(before: seq<Yielded>, e: Event) returns (out: seq<Yielded>)
    ensures out == before + [Item(e)] && Items(out) == Items(before) + [e]
  {
    out := before + [Item(e)];
    assert out[..|out| - 1] == before;
  }

  /** `stream_runtime_event_jsonl` over any polling schedule: after every turn, what was yielded is exactly
      the events after the start cursor in the last snapshot read, in order, without gap or repeat, with a
      heartbeat at every quiet turn that is due for one. The stream ends at the first snapshot that holds a
      terminal event, with all of it yielded, or at the first turn that has waited out a given timeout. */
  method StreamJsonl(
    polls: seq<Poll>, since: Option<EventId>, heartbeat: Time, idleTimeout: Option<Time>, started: Time,
    isTerminal: Event -> bool, ghost parse: string -> Option<int>)
    returns (out: seq<Yielded>, turns: nat, ending: Ending)
    requires Growing(parse, polls) && (since.Some? ==> Coherent(parse, since.value))
    ensures ending.Refused? <==> heartbeat <= 0.0
    ensures turns <= |polls| && (ending.StillOpen? ==> turns == |polls|) && (ending.Refused? ==> turns == 0)
    ensures ending.Terminal? || ending.Idle? ==> turns > 0
    ensures out == Output(polls, since, heartbeat, idleTimeout, started, turns)
    ensures turns > 0 ==> (ending.Idle? <==> GivesUp(polls, since, idleTimeout, started, turns - 1))
    ensures forall i | 0 <= i < turns - 1 :: !GivesUp(polls, since, idleTimeout, started, i)
    ensures Items(out) == if turns == 0 then [] else Wanted(polls[turns - 1].snapshot, since)
    ensures forall i | 0 <= i < turns - 1 :: !HasTerminal(Wanted(polls[i].snapshot, since), isTerminal)
    ensures turns > 0 ==> (ending.Terminal? <==> HasTerminal(Wanted(polls[turns - 1].snapshot, since), isTerminal))
  {
    hide Increasing, Listed, Wanted, Growing, HasTerminal, Items, Coherent, Wrap, Output, News, QuietFrom, SilentFrom;
    hide Beats, GivesUp;
    out, turns, ending := [], 0, StillOpen;
    NoTurns(polls, since, heartbeat, idleTimeout, started);
    if heartbeat <= 0.0 {
      ending := Refused;
      NoItems();
      return;
    }
    var lastId := since;
    var lastEmit, idleStarted := started, started;
    ghost var seen: seq<Event> := [];
    assert Items(out) == [] by { NoItems(); }
    while turns < |polls|
      invariant turns <= |polls| && ending.StillOpen? && Items(out) == seen
      invariant out == Output(polls, since, heartbeat, idleTimeout, started, turns)
      invariant idleStarted == QuietFrom(polls, since, started, turns)
      invariant lastEmit == SilentFrom(polls, since, heartbeat, idleTimeout, started, turns)
      invariant forall i | 0 <= i < turns :: !GivesUp(polls, since, idleTimeout, started, i)
      invariant seen == if turns == 0 then [] else Wanted(polls[turns - 1].snapshot, since)
      invariant lastId == if seen == [] then since else Some(seen[|seen| - 1].eventId)
      invariant forall i | 0 <= i < turns :: !HasTerminal(Wanted(polls[i].snapshot, since), isTerminal)
    {
      var poll := polls[turns];
      var store := new RuntimeEventJsonlStore(poll.snapshot);
      var batch := store.List(lastId);
      NextBatch(parse, polls, turns, since, seen);
      TerminalInBatch(polls, turns, since, seen, isTerminal);
      OneTurn(polls, since, heartbeat, idleTimeout, started, turns, seen, batch);
      ghost var wanted := Wanted(poll.snapshot, since);
      turns := turns + 1;
      if batch != [] {
        idleStarted, lastEmit := poll.now, poll.now;
        var ended;
        out, lastId, ended := YieldBatch(poll.snapshot, batch, out, lastId, isTerminal, parse, since, |seen|);
        if ended {
          ending := Terminal;
          return;
        }
      } else {
        if idleTimeout.Some? && poll.now - idleStarted >= idleTimeout.value {
          ending := Idle;
          return;
        }
        if poll.now - lastEmit >= heartbeat {
          lastEmit := poll.now;
          out := YieldHeartbeat(out);
        }
      }
      seen := wanted;
    }
  }

  lemma NoTurns(
    polls: seq<Poll>, since: Option<EventId>, heartbeat: Time, idleTimeout: Option<Time>, started: Time)
    ensures Output(polls, since, heartbeat, idleTimeout, started, 0) == []
    ensures QuietFrom(polls, since, started, 0) == started
    ensures SilentFrom(polls, since, heartbeat, idleTimeout, started, 0) == started
  {
  }

  /** What one turn decides, and what it leaves for the next. */
  lemma OneTurn(
    polls: seq<Poll>, since: Option<EventId>, heartbeat: Time, idleTimeout: Option<Time>, started: Time, i: nat,
    seen: seq<Event>, batch: seq<Event>)
    requires i < |polls| && seen == (if i == 0 then [] else Wanted(polls[i - 1].snapshot, since))
    requires seen <= Wanted(polls[i].snapshot, since) && batch == Wanted(polls[i].snapshot, since)[|seen|..]
    ensures var idle := idleTimeout.Some? && polls[i].now - QuietFrom(polls, since, started, i) >= idleTimeout.value;
      var due := polls[i].now - SilentFrom(polls, since, heartbeat, idleTimeout, started, i) >= heartbeat;
      && (GivesUp(polls, since, idleTimeout, started, i) <==> batch == [] && idle)
      && QuietFrom(polls, since, started, i + 1) ==
           (if batch != [] then polls[i].now else QuietFrom(polls, since, started, i))
      && SilentFrom(polls, since, heartbeat, idleTimeout, started, i + 1) ==
           (if batch != [] || (!idle && due) then polls[i].now
            else SilentFrom(polls, since, heartbeat, idleTimeout, started, i))
      && Output(polls, since, heartbeat, idleTimeout, started, i + 1) ==
           Output(polls, since, heartbeat, idleTimeout, started, i)
           + (if batch != [] then Wrap(batch) else if !idle && due then [Heartbeat] else [])
  {
    var wanted := Wanted(polls[i].snapshot, since);
    assert wanted == seen + batch;
    hide Wanted, Wrap;
  }

  method YieldHeartbeat(before: seq<Yielded>) returns (out: seq<Yielded>)
    ensures out == before + [Heartbeat] && Items(out) == Items(before)
  {
    out := before + [Heartbeat];
    assert out[..|out| - 1] == before;
  }

  lemma NoItems()
    ensures Items([]) == []
  {
  }

  /** A snapshot holds a terminal event exactly when its new part does, as long as none was seen. */
  lemma TerminalInBatch(polls: seq<Poll>, i: nat, since: Option<EventId>, seen: seq<Event>, isTerminal: Event -> bool)
    requires i < |polls| && seen <= Wanted(polls[i].snapshot, since)
    ensures !HasTerminal(seen, isTerminal) ==>
      (HasTerminal(Wanted(polls[i].snapshot, since), isTerminal)
       <==> HasTerminal(Wanted(polls[i].snapshot, since)[|seen|..], isTerminal))
    ensures !HasTerminal([], isTerminal)
  {
    var wanted := Wanted(polls[i].snapshot, since);
    hide Wanted;
    assert wanted == seen + wanted[|seen|..];
  }

  lemma NothingWanted(snapshot: seq<Event>, since: Option<EventId>)
    ensures Listed(snapshot, since) == Wanted(snapshot, since)[0..]
  {
    hide Listed;
  }

  /** From one snapshot to the next: what was yielded is a prefix of what is wanted now, and the cursor
      lists the rest. */
  lemma NextBatch(parse: string -> Option<int>, polls: seq<Poll>, i: nat, since: Option<EventId>, seen: seq<Event>)
    requires Growing(parse, polls) && i < |polls| && (since.Some? ==> Coherent(parse, since.value))
    requires seen == if i == 0 then [] else Wanted(polls[i - 1].snapshot, since)
    ensures Increasing(parse, polls[i].snapshot)
    ensures var wanted := Wanted(polls[i].snapshot, since);
      && seen <= wanted
      && Listed(polls[i].snapshot, if seen == [] then since else Some(seen[|seen| - 1].eventId)) == wanted[|seen|..]
  {
    hide Increasing, Wanted, Listed, Coherent;
    if seen == [] {
      NothingWanted(polls[i].snapshot, since);
    } else {
      assert polls[i - 1].snapshot <= polls[i].snapshot;
      ResumesAfter(parse, polls[i - 1].snapshot, polls[i].snapshot, since, |seen| - 1);
      assert seen[..|seen| - 1 + 1] == seen;
    }
  }
}
