/** Histories of one state along a sequence of events: each field is that of the last event that sets it, and a
    start time is the first one. */
module EventHistory {
  import opened RuntimeTypes

  // ---------------------------------------------------------------- the last event that says something

  /** Which events set a field, what they set it to, and what the first event about it leaves otherwise. */
  datatype Rule<!T> = Rule(sets: Event -> bool, value: Event -> T, initial: Event -> T)

  /** `final` is what the last event that sets it says, or `initial` when none does. */
  ghost predicate LastWins<T>(events: seq<Event>, rule: Rule<T>, initial: T, final: T) {
    && ((forall e <- events :: !rule.sets(e)) ==> final == initial)
    && (forall k | 0 <= k < |events| && rule.sets(events[k])
                   && (forall j | k < j < |events| :: !rule.sets(events[j])) ::
          final == rule.value(events[k]))
  }

  lemma OneMoreSays<T>(events: seq<Event>, e: Event, rule: Rule<T>, initial: T, before: T)
    requires LastWins(events, rule, initial, before)
    ensures LastWins(events + [e], rule, initial, if rule.sets(e) then rule.value(e) else before)
  {
    var all := events + [e];
    assert all[|events|] == e;
    if !rule.sets(e) {
      if forall x <- all :: !rule.sets(x) {
        assert forall x <- events :: x in all;
      }
      forall k | 0 <= k < |all| && rule.sets(all[k]) && (forall j | k < j < |all| :: !rule.sets(all[j]))
        ensures before == rule.value(all[k])
      {
        assert all[k] == events[k];
        assert forall j | k < j < |events| :: all[j] == events[j];
      }
    } else {
      assert e in all;
    }
  }

  lemma NothingSaid<T>(events: seq<Event>, rule: Rule<T>, initial: T)
    requires forall e <- events :: !rule.sets(e)
    ensures LastWins(events, rule, initial, initial)
  {
  }

  // ---------------------------------------------------------------- one state along the events about it

  /** The state made by the events it is about, in order. */
  ghost function Along<S(!new)>(events: seq<Event>, about: Event -> bool, after: (Option<S>, Event) --> S): Option<S>
    requires forall s: Option<S>, e: Event | about(e) :: after.requires(s, e)
  {
    if events == [] then None
    else
      var last, before := events[|events| - 1], Along(events[..|events| - 1], about, after);
      if about(last) then Some(after(before, last)) else before
  }

  ghost predicate First(events: seq<Event>, about: Event -> bool, k: int) {
    0 <= k < |events| && about(events[k]) && forall j | 0 <= j < k :: !about(events[j])
  }

  lemma {:induction false} AlongExists<S(!new)>(
    events: seq<Event>, about: Event -> bool, after: (Option<S>, Event) --> S)
    requires forall s: Option<S>, e: Event | about(e) :: after.requires(s, e)
    ensures Along(events, about, after).Some? <==> exists e :: e in events && about(e)
  {
    if events != [] {
      assert events == events[..|events| - 1] + [events[|events| - 1]];
      AlongExists(events[..|events| - 1], about, after);
    }
  }

  /** The first event of a longer sequence: the same one, or the new one when there was none. */
  lemma FirstOf(init: seq<Event>, last: Event, about: Event -> bool, k: int)
    requires First(init + [last], about, k)
    ensures (exists e :: e in init && about(e)) ==> First(init, about, k) && (init + [last])[k] == init[k]
    ensures !(exists e :: e in init && about(e)) ==> about(last) && (init + [last])[k] == last
  {
    forall j | 0 <= j < |init| ensures (init + [last])[j] == init[j] {}
    if e :| e in init && about(e) {
      var i :| 0 <= i < |init| && init[i] == e;
      assert (init + [last])[i] == e;
    }
  }

  /** The field is filled in by the first event about it and kept by the rule after that. */
  ghost predicate Follows<T>(events: seq<Event>, about: Event -> bool, rule: Rule<T>, field: T) {
    forall k | First(events, about, k) :: LastWins(events, rule, rule.initial(events[k]), field)
  }

  /** A step of the state does to one field what its rule says. */
  ghost predicate Obeys<S(!new), T>(about: Event -> bool, after: (Option<S>, Event) --> S, get: S -> T, rule: Rule<T>) {
    && (forall s: Option<S>, e: Event | about(e) :: after.requires(s, e))
    && (forall e: Event | rule.sets(e) :: about(e))
    && (forall e: Event | about(e) ::
          get(after(None, e)) == if rule.sets(e) then rule.value(e) else rule.initial(e))
    && (forall s: S, e: Event | about(e) ::
          get(after(Some(s), e)) == if rule.sets(e) then rule.value(e) else get(s))
  }

  lemma {:induction false} FieldHistory<S(!new), T>(
    events: seq<Event>, about: Event -> bool, after: (Option<S>, Event) --> S, get: S -> T, rule: Rule<T>)
    requires Obeys(about, after, get, rule)
    ensures var s := Along(events, about, after); s.Some? ==> Follows(events, about, rule, get(s.value))
  {
    if events != [] {
      hide Obeys, Follows, Along;
      var init, last := events[..|events| - 1], events[|events| - 1];
      assert events == init + [last];
      FieldHistory(init, about, after, get, rule);
      AlongStep(events, about, after, get, rule);
      var before, s := Along(init, about, after), Along(events, about, after);
      if about(last) {
        FieldSays(init, last, about, rule, if before.Some? then Some(get(before.value)) else None);
      } else if s.Some? {
        FieldStays(init, last, about, rule, get(s.value));
      }
    }
  }

  lemma AlongStep<S(!new), T>(
    events: seq<Event>, about: Event -> bool, after: (Option<S>, Event) --> S, get: S -> T, rule: Rule<T>)
    requires Obeys(about, after, get, rule) && events != []
    ensures forall e: Event | rule.sets(e) :: about(e)
    ensures var init, last := events[..|events| - 1], events[|events| - 1];
      var before, s := Along(init, about, after), Along(events, about, after);
      && (before.Some? <==> exists e :: e in init && about(e))
      && (!about(last) ==> s == before)
      && (about(last) ==>
            s.Some? && get(s.value) ==
              if rule.sets(last) then rule.value(last)
              else if before.Some? then get(before.value) else rule.initial(last))
  {
    AlongExists(events[..|events| - 1], about, after);
  }

  /** An event that is not about it changes nothing. */
  lemma FieldStays<T>(init: seq<Event>, last: Event, about: Event -> bool, rule: Rule<T>, field: T)
    requires !about(last) && !rule.sets(last) && exists e :: e in init && about(e)
    requires Follows(init, about, rule, field)
    ensures Follows(init + [last], about, rule, field)
  {
    hide LastWins;
    forall k | First(init + [last], about, k)
      ensures LastWins(init + [last], rule, rule.initial((init + [last])[k]), field)
    {
      FirstOf(init, last, about, k);
      OneMoreSays(init, last, rule, rule.initial(init[k]), field);
    }
  }

  /** An event that is about it sets the field, leaves it as it was, or fills it in. */
  lemma FieldSays<T>(init: seq<Event>, last: Event, about: Event -> bool, rule: Rule<T>, before: Option<T>)
    requires about(last) && forall e: Event | rule.sets(e) :: about(e)
    requires before.Some? <==> exists e :: e in init && about(e)
    requires before.Some? ==> Follows(init, about, rule, before.value)
    ensures Follows(
      init + [last], about, rule,
      if rule.sets(last) then rule.value(last) else if before.Some? then before.value else rule.initial(last))
  {
    hide LastWins;
    var now := if rule.sets(last) then rule.value(last) else if before.Some? then before.value else rule.initial(last);
    forall k | First(init + [last], about, k)
      ensures LastWins(init + [last], rule, rule.initial((init + [last])[k]), now)
    {
      FirstOf(init, last, about, k);
      if before.Some? {
        OneMoreSays(init, last, rule, rule.initial(init[k]), before.value);
      } else {
        NothingSaid(init, rule, rule.initial(last));
        OneMoreSays(init, last, rule, rule.initial(last), rule.initial(last));
      }
    }
  }

  // ---------------------------------------------------------------- start times

  /** The time of the first start that is not at the zero of the clock; zero when all of them are. */
  ghost predicate FirstStart(events: seq<Event>, starts: Event -> bool, field: Option<Time>) {
    && ((forall e <- events :: !starts(e)) ==> field == None)
    && ((exists e :: e in events && starts(e)) && AtZero(events, starts) ==> field == Some(0.0))
    && (forall k | 0 <= k < |events| && StartsAfterZero(events, starts, k) ::
          field == Some(events[k].timestamp))
  }

  /** The first start that is not at zero. */
  predicate StartsAfterZero(events: seq<Event>, starts: Event -> bool, k: nat)
    requires k < |events|
  {
    starts(events[k]) && events[k].timestamp != 0.0 && AtZero(events[..k], starts)
  }

  predicate AtZero(events: seq<Event>, starts: Event -> bool) {
    forall e <- events | starts(e) :: e.timestamp == 0.0
  }

  lemma {:induction false} FirstLater(events: seq<Event>, starts: Event -> bool)
    requires !AtZero(events, starts)
    ensures exists k :: 0 <= k < |events| && StartsAfterZero(events, starts, k)
  {
    var init, last := events[..|events| - 1], events[|events| - 1];
    assert events == init + [last];
    if AtZero(init, starts) {
      assert events[..|events| - 1] == init && StartsAfterZero(events, starts, |events| - 1);
    } else {
      FirstLater(init, starts);
      var k :| 0 <= k < |init| && StartsAfterZero(init, starts, k);
      assert events[..k] == init[..k] && StartsAfterZero(events, starts, k);
    }
  }

  lemma OneMoreStart(events: seq<Event>, e: Event, starts: Event -> bool, before: Option<Time>)
    requires FirstStart(events, starts, before)
    ensures FirstStart(events + [e], starts, if starts(e) then OrTime(before, e.timestamp) else before)
  {
    var all := events + [e];
    if !AtZero(events, starts) { FirstLater(events, starts); }
    forall k | 0 <= k < |all| ensures k < |events| ==> all[k] == events[k] && all[..k] == events[..k] {}
    assert all[..|events|] == events && all[|events|] == e;
    assert AtZero(all, starts) <==> AtZero(events, starts) && (starts(e) ==> e.timestamp == 0.0);
    assert (exists x :: x in all && starts(x)) <==> starts(e) || exists x :: x in events && starts(x);
    forall k | 0 <= k < |events| && StartsAfterZero(all, starts, k) ensures before == Some(events[k].timestamp) {
      assert StartsAfterZero(events, starts, k);
    }
  }

  /** A step of the state starts the clock as `started_at or timestamp` does. */
  ghost predicate StartsClock<S(!new)>(
    about: Event -> bool, after: (Option<S>, Event) --> S, get: S -> Option<Time>, starts: Event -> bool)
  {
    && (forall s: Option<S>, e: Event | about(e) :: after.requires(s, e))
    && (forall e: Event | starts(e) :: about(e))
    && (forall e: Event | about(e) :: get(after(None, e)) == if starts(e) then Some(e.timestamp) else None)
    && (forall s: S, e: Event | about(e) ::
          get(after(Some(s), e)) == if starts(e) then OrTime(get(s), e.timestamp) else get(s))
  }

  lemma {:induction false} StartHistory<S(!new)>(
    events: seq<Event>, about: Event -> bool, after: (Option<S>, Event) --> S, get: S -> Option<Time>,
    starts: Event -> bool)
    requires StartsClock(about, after, get, starts)
    ensures var s := Along(events, about, after);
      FirstStart(events, starts, if s.Some? then get(s.value) else None)
  {
    hide FirstStart;
    if events == [] {
      assert FirstStart([], starts, None) by { NoStart(starts); }
    } else {
      var init, last := events[..|events| - 1], events[|events| - 1];
      assert events == init + [last];
      StartHistory(init, about, after, get, starts);
      var s := Along(init, about, after);
      OneMoreStart(init, last, starts, if s.Some? then get(s.value) else None);
    }
  }

  lemma NoStart(starts: Event -> bool)
    ensures FirstStart([], starts, None)
  {
  }
}
