/**
 Whole runs of the scheduler: firing turns, rebuilds and syncs in any order, with a clock that
 does not run backwards. A turn is one pass of the firing loop; a sync may land between turns.
 */
module SchedRuns {
  import opened Basics
  import opened FireHeap
  import opened Scheduler

  /** What the scheduler holds, with the heap as the bag of items in it, and what it has run. */
  datatype State = State(
    entries: seq<Entry>, lastFired: map<string, int>, queue: multiset<Item>, dispatched: seq<Item>, clock: int)

  datatype Step =
    | Turn(now: int, x: Item)
    | Rebuild(now: int)
    | Sync(entries: seq<Entry>, now: int)
    | Restart(now: int)

  predicate Enabled(s: State, step: Step) {
    s.clock <= step.now && (step.Turn? ==> step.x in s.queue && Due(step.x, step.now))
  }

  ghost function Next(s: State, plan: Plan, step: Step): State {
    match step
    case Turn(now, x) =>
      s.(queue := s.queue - multiset{x} + AsBag(Refill(plan, s.entries, x, now)),
         lastFired := Marked(s.lastFired, s.entries, x),
         dispatched := s.dispatched + (if OutcomeOf(s.entries, x, now) == Fired then [x] else []),
         clock := now)
    case Rebuild(now) => s.(queue := Fresh(plan, s.entries, now) + Carried(s.queue, now), clock := now)
    case Sync(entries, now) =>
      s.(entries := entries, lastFired := SyncHistory(s.lastFired, entries, now), clock := now)
    case Restart(now) =>
      var c := CatchAll(Caught(multiset{}, s.lastFired), plan, s.entries, now);
      s.(queue := c.queue, lastFired := c.lastFired, clock := now)
  }

  predicate DistinctIds(entries: seq<Entry>) {
    forall i, j :: 0 <= i < j < |entries| ==> entries[i].id != entries[j].id
  }

  ghost predicate Took(s: State, plan: Plan, step: Step, t: State) {
    Enabled(s, step) && t == Next(s, plan, step)
  }

  ghost predicate Run(ss: seq<State>, plan: Plan, steps: seq<Step>) {
    |ss| == |steps| + 1 && forall i :: 0 <= i < |steps| ==> Took(ss[i], plan, steps[i], ss[i + 1])
  }

  predicate Clashes(x: Item, e: Entry, plan: Plan, now: int) {
    x.base < now && e.enabled && e.id == x.id && ItemFor(plan, e, now).Some?
  }

  /** An overdue item that a rebuild would carry beside a fresh item for the same entry. */
  ghost predicate Overlaps(s: State, plan: Plan, now: int) {
    exists x, e :: x in s.queue && e in s.entries && Clashes(x, e, plan, now)
  }

  // ---------------------------------------------------------------- what every step keeps

  ghost predicate OnePerEntry(queue: multiset<Item>) {
    && (forall x :: queue[x] <= 1)
    && (forall x, y :: x in queue && y in queue && x.id == y.id ==> x == y)
  }

  /** Queued and dispatched bases are whole seconds; no item is due before its base, and nothing was
      dispatched before it. */
  ghost predicate Timely(s: State) {
    && (forall x :: x in s.queue ==> x.base <= x.at && Whole(x.base))
    && (forall d :: d in s.dispatched ==> d.base <= s.clock && Whole(d.base))
  }

  /** Every queued base is later than every base of that entry already dispatched. */
  ghost predicate Ahead(s: State) {
    forall d, x :: d in s.dispatched && x in s.queue && d.id == x.id ==> d.base < x.base
  }

  /** The recorded fire is no earlier than any base of that entry already dispatched. */
  ghost predicate Recorded(s: State) {
    forall d :: d in s.dispatched && d.id in s.lastFired ==> d.base <= s.lastFired[d.id] * SECOND
  }

  /** The bases dispatched for one entry strictly increase, so no (entry, base) pair, and with it no
      job id, is dispatched twice. */
  ghost predicate Increasing(dispatched: seq<Item>) {
    forall i, j :: 0 <= i < j < |dispatched| && dispatched[i].id == dispatched[j].id ==>
      dispatched[i].base < dispatched[j].base
  }

  ghost predicate Inv(s: State) {
    && DistinctIds(s.entries) && OnePerEntry(s.queue) && Timely(s) && Ahead(s) && Recorded(s)
    && Increasing(s.dispatched)
  }

  // ---------------------------------------------------------------- a firing turn

  /** A turn swaps an entry's one item for its next. */
  lemma TurnQueue(queue: multiset<Item>, x: Item, y: Option<Item>)
    requires OnePerEntry(queue) && x in queue && (y.Some? ==> y.value.id == x.id)
    ensures var q := queue - multiset{x} + AsBag(y);
            && OnePerEntry(q)
            && forall z :: z in q ==> (z in queue && z.id != x.id) || (y.Some? && z == y.value)
  {
    var q := queue - multiset{x} + AsBag(y);
    forall z ensures q[z] == if z == x then AsBag(y)[z] else queue[z] + AsBag(y)[z] {
      assert q[z] == (queue - multiset{x})[z] + AsBag(y)[z];
    }
  }

  lemma TurnAhead(s: State, t: State, now: int, x: Item, y: Option<Item>)
    requires Timely(s) && Ahead(s) && x in s.queue && Due(x, now) && s.clock <= now
    requires y.Some? ==> y.value.id == x.id && now < y.value.base <= y.value.at && Whole(y.value.base)
    requires forall z :: z in t.queue ==> (z in s.queue && z.id != x.id) || (y.Some? && z == y.value)
    requires t.dispatched == s.dispatched || t.dispatched == s.dispatched + [x]
    requires t.clock == now
    ensures Timely(t) && Ahead(t)
  {
    assert forall d :: d in t.dispatched ==> d in s.dispatched || d == x;
  }

  lemma TurnIncreasing(s: State, log: seq<Item>, x: Item)
    requires Ahead(s) && Increasing(s.dispatched) && x in s.queue
    requires log == s.dispatched || log == s.dispatched + [x]
    ensures Increasing(log)
  {
    forall i, j | 0 <= i < j < |log| && log[i].id == log[j].id ensures log[i].base < log[j].base {
      assert s.dispatched[i] in s.dispatched;
    }
  }

  lemma TurnRecorded(s: State, t: State, x: Item)
    requires Timely(s) && Ahead(s) && Recorded(s) && x in s.queue
    requires t.dispatched == s.dispatched || t.dispatched == s.dispatched + [x]
    requires t.lastFired == s.lastFired[x.id := Unix(x.base)]
             || (t.lastFired == s.lastFired && t.dispatched == s.dispatched)
    ensures Recorded(t)
  {
    assert forall d :: d in t.dispatched ==> d in s.dispatched || d == x;
  }

  lemma TurnKeepsInv(s: State, plan: Plan, now: int, x: Item)
    requires Lawful(plan) && Inv(s) && Enabled(s, Turn(now, x))
    ensures Inv(Next(s, plan, Turn(now, x)))
  {
    hide Refill, TooLate, Lookup, OnePerEntry, Timely, Ahead, Recorded, Increasing;
    var t := Next(s, plan, Turn(now, x));
    var y := Refill(plan, s.entries, x, now);
    TurnQueue(s.queue, x, y);
    assert t.dispatched == s.dispatched || t.dispatched == s.dispatched + [x];
    TurnAhead(s, t, now, x, y);
    TurnIncreasing(s, t.dispatched, x);
    TurnRecorded(s, t, x);
  }

  // ---------------------------------------------------------------- a rebuild

  lemma {:induction false} FreshFacts(plan: Plan, entries: seq<Entry>, now: int, x: Item)
    requires Lawful(plan) && DistinctIds(entries)
    ensures x in Fresh(plan, entries, now) ==>
              && now < x.base <= x.at && Whole(x.base)
              && exists e :: e in entries && e.enabled && e.id == x.id && ItemFor(plan, e, now) == Some(x)
    ensures (exists e :: e in entries && e.enabled && ItemFor(plan, e, now) == Some(x)) ==>
            x in Fresh(plan, entries, now)
  {
    if entries != [] {
      var front, e := entries[..|entries| - 1], entries[|entries| - 1];
      FreshFacts(plan, front, now, x);
      assert e in entries;
      assert forall f :: f in front ==> f in entries;
      assert forall f :: f in entries ==> f in front || f == e;
    }
  }

  lemma {:induction false} FreshIsOnePerEntry(plan: Plan, entries: seq<Entry>, now: int)
    requires Lawful(plan) && DistinctIds(entries)
    ensures OnePerEntry(Fresh(plan, entries, now))
  {
    if entries != [] {
      var front, e := entries[..|entries| - 1], entries[|entries| - 1];
      FreshIsOnePerEntry(plan, front, now);
      var earlier := Fresh(plan, front, now);
      forall y | y in earlier ensures y.id != e.id {
        FreshFacts(plan, front, now, y);
      }
    }
  }

  /** Two bags with one item per entry join into one exactly when no entry is in both. */
  lemma JoinIsOnePerEntry(a: multiset<Item>, b: multiset<Item>)
    requires OnePerEntry(a) && OnePerEntry(b)
    ensures OnePerEntry(a + b) <==> forall x, y :: x in a && y in b ==> x.id != y.id
  {
    assert forall x :: (a + b)[x] == a[x] + b[x];
    if x, y :| x in a && y in b && x.id == y.id {
      assert x in a + b && y in a + b;
      assert x == y ==> (a + b)[x] == 2;
    }
  }

  lemma CarriedIsOnePerEntry(queue: multiset<Item>, now: int)
    requires OnePerEntry(queue)
    ensures OnePerEntry(Carried(queue, now))
    ensures forall x :: x in Carried(queue, now) <==> x in queue && x.base < now
  {
    hide Carried;
    assert forall x :: Carried(queue, now)[x] == if x.base < now then queue[x] else 0;
  }

  /** Rebuild leaves at most one item per entry if and only if no overdue item belongs to an enabled
      entry that also has a next fire. */
  lemma RebuildKeepsOneIff(s: State, plan: Plan, now: int)
    requires Lawful(plan) && DistinctIds(s.entries) && OnePerEntry(s.queue)
    ensures OnePerEntry(Next(s, plan, Rebuild(now)).queue) <==> !Overlaps(s, plan, now)
  {
    hide Carried, OnePerEntry, Fresh, DistinctIds;
    var anew, kept := Fresh(plan, s.entries, now), Carried(s.queue, now);
    FreshIsOnePerEntry(plan, s.entries, now);
    CarriedIsOnePerEntry(s.queue, now);
    JoinIsOnePerEntry(anew, kept);
    forall x
      ensures x in anew ==>
                exists e :: e in s.entries && e.enabled && e.id == x.id && ItemFor(plan, e, now) == Some(x)
    {
      FreshFacts(plan, s.entries, now, x);
    }
    if x, e :| x in s.queue && e in s.entries && Clashes(x, e, plan, now) {
      FreshFacts(plan, s.entries, now, ItemFor(plan, e, now).value);
    }
  }

  lemma RebuiltItems(s: State, plan: Plan, now: int, x: Item)
    requires Lawful(plan) && DistinctIds(s.entries) && x in Next(s, plan, Rebuild(now)).queue
    ensures (x in s.queue && x.base < now) || (now < x.base <= x.at && Whole(x.base))
  {
    hide Carried, Fresh, ItemFor, DistinctIds;
    FreshFacts(plan, s.entries, now, x);
    assert Carried(s.queue, now)[x] == if x.base < now then s.queue[x] else 0;
  }

  lemma RebuildKeepsInv(s: State, plan: Plan, now: int)
    requires Lawful(plan) && Inv(s) && Enabled(s, Rebuild(now)) && !Overlaps(s, plan, now)
    ensures Inv(Next(s, plan, Rebuild(now)))
  {
    hide Overlaps, Carried, OnePerEntry, DistinctIds, Fresh, Increasing;
    var t := Next(s, plan, Rebuild(now));
    RebuildKeepsOneIff(s, plan, now);
    forall x | x in t.queue ensures (x in s.queue && x.base < now) || (now < x.base <= x.at && Whole(x.base)) {
      RebuiltItems(s, plan, now, x);
    }
  }

  // ---------------------------------------------------------------- a sync

  lemma WholeBelow(d: int, now: int)
    requires Whole(d) && d <= now
    ensures d <= Unix(now) * SECOND
  {
  }

  lemma SyncKeepsInv(s: State, plan: Plan, entries: seq<Entry>, now: int)
    requires Inv(s) && Enabled(s, Sync(entries, now)) && DistinctIds(entries)
    ensures Inv(Next(s, plan, Sync(entries, now)))
  {
    hide Unix;
    forall d | d in s.dispatched ensures d.base <= Unix(now) * SECOND {
      WholeBelow(d.base, now);
    }
  }

  // ---------------------------------------------------------------- a restart

  /** The walk's last fire lies inside the window. */
  lemma {:induction false} WalkInside(plan: Plan, e: Entry, t: int, now: int, limit: nat)
    requires Lawful(plan)
    ensures var last := LastOf(Walk(plan, e, t, now, limit)); last.Some? ==> t < last.value <= now && Whole(last.value)
    decreases limit
  {
    var next := plan.next(e, t);
    if limit > 0 && next.Some? && t < next.value <= now {
      WalkInside(plan, e, next.value, now, limit - 1);
    }
  }

  /** What the start-up walk may leave: for each entry at most one item, for a fire later than the one
      recorded; and a record that did not go back. */
  ghost predicate CaughtUp(c: Caught, lastFired: map<string, int>, now: int) {
    && OnePerEntry(c.queue)
    && (forall x :: x in c.queue ==>
          x.id in lastFired && lastFired[x.id] * SECOND < x.base <= now <= x.at && Whole(x.base))
    && (forall id :: id in lastFired ==> id in c.lastFired && lastFired[id] <= c.lastFired[id])
    && (forall id :: id in c.lastFired && id !in lastFired ==> c.lastFired[id] == Unix(now))
  }

  /** It only touches entries it has walked over. */
  ghost predicate Untouched(c: Caught, lastFired: map<string, int>, id: string) {
    && (id in c.lastFired <==> id in lastFired)
    && (id in lastFired ==> c.lastFired[id] == lastFired[id])
    && (forall x :: x in c.queue ==> x.id != id)
  }

  lemma AddOne(queue: multiset<Item>, x: Item)
    requires OnePerEntry(queue) && forall y :: y in queue ==> y.id != x.id
    ensures OnePerEntry(queue + multiset{x})
  {
    JoinIsOnePerEntry(queue, multiset{x});
  }

  lemma CatchOneKeeps(c: Caught, lastFired: map<string, int>, plan: Plan, e: Entry, now: int)
    requires Lawful(plan) && CaughtUp(c, lastFired, now) && Untouched(c, lastFired, e.id)
    ensures CaughtUp(CatchOne(c, plan, e, now), lastFired, now)
  {
    hide Walk, OnePerEntry;
    if e.id in c.lastFired {
      WalkInside(plan, e, c.lastFired[e.id] * SECOND, now, MAX_SCAN);
      var missed := LastOf(Walk(plan, e, c.lastFired[e.id] * SECOND, now, MAX_SCAN));
      if missed.Some? {
        AddOne(c.queue, Item(e.id, missed.value, now + plan.jitter(e.id, MISFIRE_JITTER_S)));
      }
    }
  }

  lemma CatchOneTouches(c: Caught, lastFired: map<string, int>, plan: Plan, e: Entry, now: int, id: string)
    requires id != e.id && Untouched(c, lastFired, id)
    ensures Untouched(CatchOne(c, plan, e, now), lastFired, id)
  {
    hide Walk;
  }

  lemma {:induction false} CatchAllKeeps(lastFired: map<string, int>, plan: Plan, entries: seq<Entry>, now: int)
    requires Lawful(plan) && DistinctIds(entries)
    ensures var c := CatchAll(Caught(multiset{}, lastFired), plan, entries, now);
            && CaughtUp(c, lastFired, now)
            && forall id :: (forall e :: e in entries ==> e.id != id) ==> Untouched(c, lastFired, id)
  {
    if entries != [] {
      var front, e := entries[..|entries| - 1], entries[|entries| - 1];
      CatchAllKeeps(lastFired, plan, front, now);
      assert forall f :: f in front ==> f in entries && f.id != e.id;
      assert e in entries;
      var c := CatchAll(Caught(multiset{}, lastFired), plan, front, now);
      CatchOneKeeps(c, lastFired, plan, e, now);
      forall id | id != e.id && Untouched(c, lastFired, id)
        ensures Untouched(CatchOne(c, plan, e, now), lastFired, id)
      {
        CatchOneTouches(c, lastFired, plan, e, now, id);
      }
      hide CatchOne, CaughtUp, Untouched;
    }
  }

  // ---------------------------------------------------------------- what start-up makes of missed fires

  /** The latest fire of e since the recorded one. */
  function Missed(plan: Plan, lastFired: map<string, int>, e: Entry, now: int): Option<int> {
    if e.enabled && e.id in lastFired then LastOf(Walk(plan, e, lastFired[e.id] * SECOND, now, MAX_SCAN)) else None
  }

  /** e missed the fire at m, and its grace has not run out. */
  predicate InGrace(e: Entry, m: int, now: int) { e.graceS > 0 && now - m <= e.graceS * SECOND }

  /** x is the run owed to e: its latest missed fire, within the grace, to be made up for after a jitter. */
  predicate OwedRun(plan: Plan, lastFired: map<string, int>, e: Entry, now: int, x: Item) {
    && Missed(plan, lastFired, e, now) == Some(x.base) && InGrace(e, x.base, now)
    && x.id == e.id && x.at == now + plan.jitter(e.id, MISFIRE_JITTER_S)
  }

  /** What is recorded of e then: a fire outside the grace as dealt with, a first sight as fired now, and
      anything else as before. */
  predicate RecordsFor(c: Caught, plan: Plan, lastFired: map<string, int>, e: Entry, now: int) {
    var m := Missed(plan, lastFired, e, now);
    if e.id !in lastFired then (if e.enabled then e.id in c.lastFired && c.lastFired[e.id] == Unix(now)
                                else e.id !in c.lastFired)
    else
      && e.id in c.lastFired
      && c.lastFired[e.id] == if m.Some? && !InGrace(e, m.value, now) then Unix(m.value) else lastFired[e.id]
  }

  ghost predicate RunsOwed(c: Caught, plan: Plan, lastFired: map<string, int>, entries: seq<Entry>, now: int) {
    && (forall x :: x in c.queue <==> exists e :: e in entries && OwedRun(plan, lastFired, e, now, x))
    && (forall e :: e in entries ==> RecordsFor(c, plan, lastFired, e, now))
  }

  /** t has c's record of every other id. */
  ghost predicate SameOthers(c: Caught, t: Caught, id: string) {
    && (forall k :: k != id ==> (k in t.lastFired <==> k in c.lastFired))
    && (forall k :: k != id && k in t.lastFired ==> t.lastFired[k] == c.lastFired[k])
  }

  lemma CatchOneIs(c: Caught, plan: Plan, lastFired: map<string, int>, e: Entry, now: int)
    requires Untouched(c, lastFired, e.id)
    ensures var t := CatchOne(c, plan, e, now);
            && (forall x :: x in t.queue <==> x in c.queue || OwedRun(plan, lastFired, e, now, x))
            && RecordsFor(t, plan, lastFired, e, now) && SameOthers(c, t, e.id)
  {
    hide Walk;
  }

  lemma OneMoreOwed(c: Caught, t: Caught, plan: Plan, lastFired: map<string, int>, front: seq<Entry>, e: Entry,
      now: int)
    requires RunsOwed(c, plan, lastFired, front, now) && forall f :: f in front ==> f.id != e.id
    requires forall x :: x in t.queue <==> x in c.queue || OwedRun(plan, lastFired, e, now, x)
    requires RecordsFor(t, plan, lastFired, e, now) && SameOthers(c, t, e.id)
    ensures RunsOwed(t, plan, lastFired, front + [e], now)
  {
    hide OwedRun, Missed;
    var entries := front + [e];
    assert forall f :: f in entries <==> f in front || f == e;
    assert e in entries;
    forall f | f in front ensures RecordsFor(t, plan, lastFired, f, now) {
      assert RecordsFor(c, plan, lastFired, f, now);
    }
  }

  /** At start-up exactly the entries whose latest missed fire is within a positive grace are queued, each for
      that fire; one missed by more is written off, and the others keep their record. */
  lemma {:induction false} StartUpOwesExactly(lastFired: map<string, int>, plan: Plan, entries: seq<Entry>, now: int)
    requires Lawful(plan) && DistinctIds(entries)
    ensures RunsOwed(CatchAll(Caught(multiset{}, lastFired), plan, entries, now), plan, lastFired, entries, now)
  {
    if entries != [] {
      hide RunsOwed, OwedRun, RecordsFor, CatchOne, Lawful, CaughtUp, Untouched, SameOthers;
      var front, e := entries[..|entries| - 1], entries[|entries| - 1];
      StartUpOwesExactly(lastFired, plan, front, now);
      CatchAllKeeps(lastFired, plan, front, now);
      var c := CatchAll(Caught(multiset{}, lastFired), plan, front, now);
      CatchOneIs(c, plan, lastFired, e, now);
      assert entries == front + [e];
      OneMoreOwed(c, CatchOne(c, plan, e, now), plan, lastFired, front, e, now);
    }
  }

  lemma RestartOwesExactly(s: State, plan: Plan, now: int)
    requires Lawful(plan) && DistinctIds(s.entries)
    ensures var t := Next(s, plan, Restart(now));
            RunsOwed(Caught(t.queue, t.lastFired), plan, s.lastFired, s.entries, now) && OnePerEntry(t.queue)
  {
    hide CatchAll, DistinctIds, RunsOwed, OnePerEntry;
    StartUpOwesExactly(s.lastFired, plan, s.entries, now);
    CatchAllKeeps(s.lastFired, plan, s.entries, now);
  }

  /** A sync changes nothing that is owed to an entry that stays, and an entry it brings is owed nothing from
      before it; the history of one it drops is dropped. */
  lemma SyncKeepsWhatIsOwed(s: State, plan: Plan, entries: seq<Entry>, t: int, e: Entry, now: int)
    requires Lawful(plan) && e in entries && t <= now
    ensures var h := Next(s, plan, Sync(entries, t)).lastFired;
            && (e.id in s.lastFired ==> Missed(plan, h, e, now) == Missed(plan, s.lastFired, e, now))
            && (e.id !in s.lastFired && Missed(plan, h, e, now).Some? ==>
                  Missed(plan, h, e, now).value > Unix(t) * SECOND)
            && forall id :: id in h <==> exists f :: f in entries && f.id == id
  {
    var h := Next(s, plan, Sync(entries, t)).lastFired;
    assert e.id in h;
    WalkInside(plan, e, h[e.id] * SECOND, now, MAX_SCAN);
    hide Walk;
  }

  lemma RestartKeepsInv(s: State, plan: Plan, now: int)
    requires Lawful(plan) && Inv(s) && Enabled(s, Restart(now))
    ensures Inv(Next(s, plan, Restart(now)))
  {
    CatchAllKeeps(s.lastFired, plan, s.entries, now);
    hide CatchAll, Unix, OnePerEntry, DistinctIds, Increasing;
    forall d | d in s.dispatched ensures d.base <= Unix(now) * SECOND {
      WholeBelow(d.base, now);
    }
  }

  // ---------------------------------------------------------------- every run

  /** Over firing turns, syncs, rebuilds and restarts in any order: as long as the entry ids of every
      document differ and no rebuild finds an overdue item beside a fresh one, each entry has at most
      one queued item, its dispatched bases strictly increase, and no job id is dispatched twice. */
  lemma {:induction false} JobIdsNeverRepeat(ss: seq<State>, plan: Plan, steps: seq<Step>, j: nat)
    requires Lawful(plan) && Run(ss, plan, steps) && j < |ss| && Inv(ss[0])
    requires forall i :: 0 <= i < j && steps[i].Rebuild? ==> !Overlaps(ss[i], plan, steps[i].now)
    requires forall i :: 0 <= i < j && steps[i].Sync? ==> DistinctIds(steps[i].entries)
    ensures Inv(ss[j])
  {
    hide Inv, Overlaps, DistinctIds, Next;
    if j > 0 {
      JobIdsNeverRepeat(ss, plan, steps, j - 1);
      var s, step := ss[j - 1], steps[j - 1];
      assert Took(s, plan, step, ss[j]);
      match step
      case Turn(now, x) => TurnKeepsInv(s, plan, now, x);
      case Rebuild(now) => RebuildKeepsInv(s, plan, now);
      case Sync(entries, now) => SyncKeepsInv(s, plan, entries, now);
      case Restart(now) => RestartKeepsInv(s, plan, now);
    }
  }

  // ---------------------------------------------------------------- exactly when a fire is lost or doubled

  /** A queued fire whose own time has not passed survives a rebuild if and only if that time is not this
      very instant and the schedule, asked now, still names it: rebuild carries what is before now and
      recomputes what is after it. */
  lemma RebuildKeepsOwedFireIff(s: State, plan: Plan, now: int, e: Entry, t0: int, x: Item)
    requires Lawful(plan) && DistinctIds(s.entries)
    requires e in s.entries && e.enabled && t0 <= now <= x.base && ItemFor(plan, e, t0) == Some(x)
    ensures x in Next(s, plan, Rebuild(now)).queue <==> now < x.base && plan.next(e, now) == Some(x.base)
  {
    hide Carried, Fresh;
    FreshFacts(plan, s.entries, now, x);
    assert Carried(s.queue, now)[x] == 0;
  }

  /** On a schedule with fixed fires it still names it until its time comes. */
  lemma RebuildKeepsFixedFireIff(s: State, plan: Plan, now: int, e: Entry, t0: int, x: Item)
    requires Lawful(plan) && Earliest(plan) && DistinctIds(s.entries)
    requires e in s.entries && e.enabled && t0 <= now <= x.base && ItemFor(plan, e, t0) == Some(x)
    ensures x in Next(s, plan, Rebuild(now)).queue <==> x.base != now
  {
    hide Next;
    RebuildKeepsOwedFireIff(s, plan, now, e, t0, x);
    NextStays(plan, e, t0, now, x);
  }

  /** An "@every" entry: its next fire is a delay, in seconds, after the second it is asked in. */
  ghost predicate Every(plan: Plan, e: Entry, delay: nat) {
    delay > 0 && forall t :: plan.next(e, t) == Some((Unix(t) + delay) * SECOND)
  }

  /** Its queued fire survives a rebuild only within the second it was computed in. */
  lemma RebuildKeepsEveryFireIff(s: State, plan: Plan, now: int, e: Entry, t0: int, x: Item, delay: nat)
    requires Lawful(plan) && Every(plan, e, delay) && DistinctIds(s.entries)
    requires e in s.entries && e.enabled && t0 <= now <= x.base && ItemFor(plan, e, t0) == Some(x)
    ensures x in Next(s, plan, Rebuild(now)).queue <==> Unix(now) == Unix(t0)
  {
    hide Next, DistinctIds;
    RebuildKeepsOwedFireIff(s, plan, now, e, t0, x);
    assert plan.next(e, now) == Some((Unix(now) + delay) * SECOND) && x.base == (Unix(t0) + delay) * SECOND;
  }

  /** When the queue was last rebuilt before step j of a run that starts with a rebuild. */
  function LastRebuild(steps: seq<Step>, j: nat): int
    requires 0 < j <= |steps|
  {
    if j == 1 || steps[j - 1].Rebuild? then steps[j - 1].now else LastRebuild(steps, j - 1)
  }

  /** The same document again: every accepted sync is followed by a rebuild. */
  predicate Resyncs(step: Step, entries: seq<Entry>) {
    step.Sync? ==> step.entries == entries
  }

  /** So "@every" entries synced more often than their delay never fire: from an empty queue, as long as
      every step comes within the delay of the last rebuild, no turn is ever taken. */
  lemma {:induction false} RebuildsStarveEvery(ss: seq<State>, plan: Plan, steps: seq<Step>, delay: nat, j: nat)
    requires Lawful(plan) && Run(ss, plan, steps) && 0 < j < |ss| && DistinctIds(ss[0].entries)
    requires ss[0].queue == multiset{} && steps[0].Rebuild?
    requires forall e :: e in ss[0].entries ==> Every(plan, e, delay)
    requires forall i :: 0 <= i < j ==> !steps[i].Restart? && Resyncs(steps[i], ss[0].entries)
    requires forall i :: 0 < i < j ==> Unix(steps[i].now) < Unix(LastRebuild(steps, i)) + delay
    ensures !steps[j - 1].Turn? && ss[j].dispatched == ss[0].dispatched && ss[j].entries == ss[0].entries
    ensures forall x :: x in ss[j].queue ==> x.base <= x.at && Unix(x.base) == Unix(LastRebuild(steps, j)) + delay
  {
    hide Lawful, DistinctIds, Next;
    var s, step := ss[j - 1], steps[j - 1];
    assert Took(s, plan, step, ss[j]);
    if j > 1 {
      RebuildsStarveEvery(ss, plan, steps, delay, j - 1);
    }
    forall x | x in s.queue ensures step.now < x.base <= x.at {
      NotYet(step.now, x.base);
    }
    assert !step.Turn?;
    if step.Rebuild? {
      RebuildEvery(s, plan, step.now, delay);
    } else {
      SyncLeavesQueue(s, plan, step);
    }
  }

  lemma SyncLeavesQueue(s: State, plan: Plan, step: Step)
    requires step.Sync?
    ensures var t := Next(s, plan, step);
            t.queue == s.queue && t.dispatched == s.dispatched && t.entries == step.entries
  {
    hide SyncHistory;
  }

  lemma NotYet(t: int, u: int)
    requires Unix(t) < Unix(u)
    ensures t < u
  {
  }

  lemma RebuildEvery(s: State, plan: Plan, now: int, delay: nat)
    requires Lawful(plan) && DistinctIds(s.entries) && (forall e :: e in s.entries ==> Every(plan, e, delay))
    requires forall x :: x in s.queue ==> now < x.base
    ensures var t := Next(s, plan, Rebuild(now));
            && t.dispatched == s.dispatched && t.entries == s.entries
            && forall x :: x in t.queue ==> x.base <= x.at && Unix(x.base) == Unix(now) + delay
  {
    hide Fresh, Carried, DistinctIds;
    forall x | x in Next(s, plan, Rebuild(now)).queue ensures x.base <= x.at && Unix(x.base) == Unix(now) + delay {
      FreshFacts(plan, s.entries, now, x);
      assert Carried(s.queue, now)[x] == 0;
      var e :| e in s.entries && e.enabled && e.id == x.id && ItemFor(plan, e, now) == Some(x);
      assert x.base == (Unix(now) + delay) * SECOND;
    }
  }

  /** Beside an entry's next fire y, firing another item of that entry queues y a second time if and only
      if the schedule, asked then, still names y. */
  lemma TurnDoublesIff(s: State, plan: Plan, now: int, c: Item, e: Entry, t0: int, y: Item)
    requires c in s.queue && c != y && s.queue[y] == 1
    requires Lookup(s.entries, c.id) == Some(e) && ItemFor(plan, e, t0) == Some(y)
    ensures Next(s, plan, Turn(now, c)).queue[y] == 2 <==> plan.next(e, now) == Some(y.base)
  {
    hide Lookup, TooLate;
    var z := Refill(plan, s.entries, c, now);
    assert Next(s, plan, Turn(now, c)).queue[y] == 1 + AsBag(z)[y];
  }

  /** On a schedule with fixed fires: if and only if y's own time is still to come. */
  lemma TurnDoublesFixedIff(s: State, plan: Plan, now: int, c: Item, e: Entry, t0: int, y: Item)
    requires Lawful(plan) && Earliest(plan) && c in s.queue && c != y && s.queue[y] == 1
    requires Lookup(s.entries, c.id) == Some(e) && t0 <= now && ItemFor(plan, e, t0) == Some(y)
    ensures Next(s, plan, Turn(now, c)).queue[y] == 2 <==> now < y.base
  {
    hide Next, Lookup;
    TurnDoublesIff(s, plan, now, c, e, t0, y);
    NextStays(plan, e, t0, now, y);
  }

  /** On a schedule with fixed fires an entry's next fire stays its next fire exactly until its time. */
  lemma NextStays(plan: Plan, e: Entry, t: int, u: int, x: Item)
    requires Lawful(plan) && Earliest(plan) && t <= u && ItemFor(plan, e, t) == Some(x)
    ensures plan.next(e, u) == Some(x.base) <==> u < x.base
    ensures ItemFor(plan, e, u) == Some(x) <==> u < x.base
  {
    assert plan.next(e, t).Some?;
  }

  /** Twice queued, an entry's fire is dispatched twice under one job id, and the entry's next fire is
      twice queued again. */
  lemma TwinsDispatchTwice(s: State, plan: Plan, now: int, e: Entry, y: Item)
    requires s.queue[y] == 2 && s.clock <= now && Due(y, now) && !TooLate(e, y, now)
    requires Lookup(s.entries, y.id) == Some(e)
    ensures var t := Next(s, plan, Turn(now, y)); var u := Next(t, plan, Turn(now, y));
            && Enabled(s, Turn(now, y)) && Enabled(t, Turn(now, y))
            && u.dispatched == s.dispatched + [y, y]
            && forall z :: ItemFor(plan, e, now) == Some(z) && z !in s.queue ==> u.queue[z] == 2
  {
    hide Lookup, TooLate, ItemFor;
    var t := Next(s, plan, Turn(now, y));
    assert t.queue[y] >= 1;
  }

  /** What start-up leaves for a single enabled entry that missed a fire within its grace: the catch-up
      item c, found at t0, and the entry's next fire y after now, when the heap is rebuilt. */
  ghost predicate CatchesUp(s: State, plan: Plan, e: Entry, c: Item, y: Item, t0: int, now: int) {
    && Lawful(plan) && s.entries == [e] && e.enabled && s.clock <= t0 <= now
    && CatchAll(Caught(multiset{}, s.lastFired), plan, [e], t0).queue == multiset{c}
    && c.id == e.id && c.base < now && ItemFor(plan, e, now) == Some(y)
  }

  lemma StartUp(s: State, plan: Plan, e: Entry, c: Item, y: Item, t0: int, now: int) returns (r: State, u: State)
    requires CatchesUp(s, plan, e, c, y, t0, now)
    ensures Took(s, plan, Restart(t0), r) && Took(r, plan, Rebuild(now), u)
    ensures u.queue == multiset{c, y} && c != y && now < y.base <= y.at && y.id == c.id == e.id
    ensures u.entries == [e] && u.dispatched == r.dispatched == s.dispatched && u.clock == now
    ensures u.lastFired == r.lastFired && Lookup(u.entries, e.id) == Some(e)
  {
    hide CatchAll, Carried;
    r := Next(s, plan, Restart(t0));
    u := Next(r, plan, Rebuild(now));
    assert [e][..0] == [] && Fresh(plan, [e], now) == Fresh(plan, [], now) + multiset{y};
    assert forall x :: Carried(multiset{c}, now)[x] == multiset{c}[x];
    assert Carried(multiset{c}, now) == multiset{c};
  }

  /** What a turn dispatches: its item, unless that is too late. */
  function Shot(e: Entry, x: Item, now: int): seq<Item> { if TooLate(e, x, now) then [] else [x] }

  /** A fire is dispatched if it comes within the slack of its due time, or within a positive grace of its own
      time, and is skipped otherwise; either way it is recorded. */
  lemma TurnDispatchesIff(s: State, plan: Plan, now: int, x: Item, e: Entry)
    requires Lookup(s.entries, x.id) == Some(e)
    ensures var t := Next(s, plan, Turn(now, x));
            && t.dispatched == (if now - x.at <= FIRE_SLACK || InGrace(e, x.base, now) then s.dispatched + [x]
                                else s.dispatched)
            && t.lastFired == s.lastFired[x.id := Unix(x.base)]
  {
    hide Lookup, ItemFor;
  }

  /** An item of an entry that has been disabled is dropped: not run, not recorded and not queued again. */
  lemma DisabledNeverFires(s: State, plan: Plan, now: int, x: Item, e: Entry)
    requires DistinctIds(s.entries) && e in s.entries && e.id == x.id && !e.enabled
    ensures Next(s, plan, Turn(now, x)) == s.(queue := s.queue - multiset{x}, clock := now)
  {
    LookupIsNone(s.entries, e);
  }

  lemma {:induction false} LookupIsNone(entries: seq<Entry>, e: Entry)
    requires DistinctIds(entries) && e in entries && !e.enabled
    ensures Lookup(entries, e.id).None?
  {
    if entries[0] != e {
      assert entries == [entries[0]] + entries[1..];
      LookupIsNone(entries[1..], e);
    }
  }

  /** On a schedule with fixed fires a turn passes over a fire of its entry, between the one it takes and the
      one it queues, if and only if the fire after the one it takes has come too. */
  lemma TurnPassesOverIff(s: State, plan: Plan, now: int, x: Item, e: Entry, next: int)
    requires Earliest(plan) && Lookup(s.entries, x.id) == Some(e) && x.base <= now
    requires plan.next(e, x.base) == Some(next) && x.base < next
    ensures (exists f :: FiresIn(plan, e, x.base, now, f)) <==> next <= now
    ensures next > now ==>
              Refill(plan, s.entries, x, now) == Some(Item(e.id, next, next + plan.jitter(e.id, e.jitterS)))
  {
    hide Lookup;
    if next <= now {
      FiresNow(plan, e, x.base, now, x.base);
    } else {
      NoLaterFire(plan, e, x.base, now, x.base);
      assert plan.next(e, now) == Some(next);
    }
  }

  lemma TurnOf(s: State, plan: Plan, now: int, x: Item, e: Entry)
    requires Lookup(s.entries, x.id) == Some(e)
    ensures var t := Next(s, plan, Turn(now, x));
            && t.dispatched == s.dispatched + Shot(e, x, now) && t.entries == s.entries && t.clock == now
            && t.lastFired == s.lastFired[x.id := Unix(x.base)]
            && t.queue == s.queue - multiset{x} + AsBag(ItemFor(plan, e, now))
  {
    hide Lookup, TooLate, ItemFor;
  }

  /** Whenever the catch-up fires while the schedule still names y as the entry's next fire, y is handled
      twice: dispatched twice under one job id, unless it is too late by then. */
  lemma CatchUpDoublesTheNextFire(s: State, plan: Plan, e: Entry, c: Item, y: Item, t0: int, now: int, t1: int, t2: int)
      returns (r: State, u: State, v: State, w: State, x: State)
    requires CatchesUp(s, plan, e, c, y, t0, now) && now <= t1 <= t2 && Due(c, t1) && Due(y, t2)
    requires plan.next(e, t1) == Some(y.base)
    ensures Took(s, plan, Restart(t0), r) && Took(r, plan, Rebuild(now), u) && Took(u, plan, Turn(t1, c), v)
    ensures Took(v, plan, Turn(t2, y), w) && Took(w, plan, Turn(t2, y), x)
    ensures x.dispatched == s.dispatched + Shot(e, c, t1) + Shot(e, y, t2) + Shot(e, y, t2)
  {
    hide Next, Lookup, Shot, ItemFor, Lawful, CatchAll;
    r, u := StartUp(s, plan, e, c, y, t0, now);
    TurnDoublesIff(u, plan, t1, c, e, now, y);
    TurnOf(u, plan, t1, c, e);
    v := Next(u, plan, Turn(t1, c));
    TurnOf(v, plan, t2, y, e);
    w := Next(v, plan, Turn(t2, y));
    assert w.queue[y] >= 1;
    TurnOf(w, plan, t2, y, e);
    x := Next(w, plan, Turn(t2, y));
  }

  /** A turn leaves the record no earlier than any dispatched base if and only if its entry is gone, or
      no later base of the entry has been dispatched before it. */
  lemma TurnKeepsRecordIff(s: State, plan: Plan, now: int, x: Item)
    requires Recorded(s) && Whole(x.base)
    ensures Recorded(Next(s, plan, Turn(now, x))) <==>
            Lookup(s.entries, x.id).None? || forall d :: d in s.dispatched && d.id == x.id ==> d.base <= x.base
  {
    hide Lookup, TooLate, Refill;
    var t := Next(s, plan, Turn(now, x));
    assert forall d :: d in s.dispatched ==> d in t.dispatched;
    assert forall d :: d in t.dispatched ==> d in s.dispatched || d == x;
  }

  /** The start-up pair in the order it is fired: the item due first comes first, and of two due together
      either may. */
  datatype Pair = Pair(first: Item, second: Item)

  predicate InTurn(p: Pair, c: Item, y: Item) {
    (p == Pair(c, y) || p == Pair(y, c)) && p.first.at <= p.second.at
  }

  /** Both fired, the first at t1 and the second at t2, neither before it is due. */
  lemma FireThePair(s: State, plan: Plan, e: Entry, c: Item, y: Item, t0: int, now: int, p: Pair, t1: int, t2: int)
      returns (r: State, u: State, v: State, w: State)
    requires CatchesUp(s, plan, e, c, y, t0, now) && InTurn(p, c, y)
    requires now <= t1 <= t2 && Due(p.first, t1) && Due(p.second, t2)
    ensures Took(s, plan, Restart(t0), r) && Took(r, plan, Rebuild(now), u)
    ensures Took(u, plan, Turn(t1, p.first), v) && Took(v, plan, Turn(t2, p.second), w)
    ensures r.lastFired == u.lastFired && c != y
    ensures w.dispatched == s.dispatched + Shot(e, p.first, t1) + Shot(e, p.second, t2)
    ensures w.lastFired == u.lastFired[e.id := Unix(p.first.base)][e.id := Unix(p.second.base)]
    ensures v.queue == multiset{p.second} + AsBag(ItemFor(plan, e, t1))
    ensures w.queue == AsBag(ItemFor(plan, e, t1)) + AsBag(ItemFor(plan, e, t2))
  {
    hide Next, Lookup, Shot, ItemFor, Lawful, CatchAll;
    r, u := StartUp(s, plan, e, c, y, t0, now);
    assert multiset{p.first, p.second} == multiset{c, y};
    v, w := FireTwo(u, plan, e, p.first, p.second, t1, t2);
  }

  /** Two items of one entry, fired in turn. */
  lemma FireTwo(u: State, plan: Plan, e: Entry, x: Item, y: Item, t1: int, t2: int) returns (v: State, w: State)
    requires u.queue == multiset{x, y} && Lookup(u.entries, x.id) == Some(e) && y.id == x.id
    requires u.clock <= t1 <= t2 && Due(x, t1) && Due(y, t2)
    ensures Took(u, plan, Turn(t1, x), v) && Took(v, plan, Turn(t2, y), w)
    ensures w.dispatched == u.dispatched + Shot(e, x, t1) + Shot(e, y, t2)
    ensures w.lastFired == u.lastFired[x.id := Unix(x.base)][x.id := Unix(y.base)]
    ensures v.queue == multiset{y} + AsBag(ItemFor(plan, e, t1))
    ensures w.queue == AsBag(ItemFor(plan, e, t1)) + AsBag(ItemFor(plan, e, t2))
  {
    hide Next, Lookup, Shot, ItemFor, AsBag;
    TurnOf(u, plan, t1, x, e);
    v := Next(u, plan, Turn(t1, x));
    TakeOne(x, y, AsBag(ItemFor(plan, e, t1)));
    TurnOf(v, plan, t2, y, e);
    w := Next(v, plan, Turn(t2, y));
  }

  lemma TakeOne(x: Item, y: Item, z: multiset<Item>)
    ensures multiset{x, y} - multiset{x} == multiset{y} && multiset{y} + z - multiset{y} == z
  {
  }

  /** After both have fired, the recorded fire has gone back to before one already dispatched if and only
      if the next fire came first and was dispatched. */
  lemma CatchUpMovesTheRecordBackIff(s: State, plan: Plan, e: Entry, c: Item, y: Item, t0: int, now: int,
                                     p: Pair, t1: int, t2: int)
      returns (r: State, u: State, v: State, w: State)
    requires CatchesUp(s, plan, e, c, y, t0, now) && InTurn(p, c, y) && Timely(s) && Recorded(s)
    requires now <= t1 <= t2 && Due(p.first, t1) && Due(p.second, t2)
    ensures Took(s, plan, Restart(t0), r) && Took(r, plan, Rebuild(now), u)
    ensures Took(u, plan, Turn(t1, p.first), v) && Took(v, plan, Turn(t2, p.second), w)
    ensures e.id in w.lastFired && w.lastFired[e.id] * SECOND == p.second.base
    ensures !Recorded(w) <==> p.first == y && !TooLate(e, y, t1)
  {
    hide Next, CatchAll, Lookup, DistinctIds, Fresh, TooLate;
    r, u, v, w := FireThePair(s, plan, e, c, y, t0, now, p, t1, t2);
    PairBases(s, plan, e, c, y, t0, now);
    RestartTouchesOne(s, plan, e, t0);
    hide CatchesUp;
    var one, two := Shot(e, p.first, t1), Shot(e, p.second, t2);
    assert forall d :: d in w.dispatched <==> d in s.dispatched || d in one || d in two;
    assert y in Shot(e, y, t1) <==> !TooLate(e, y, t1);
  }

  lemma PairBases(s: State, plan: Plan, e: Entry, c: Item, y: Item, t0: int, now: int)
    requires CatchesUp(s, plan, e, c, y, t0, now) && Recorded(s)
    ensures Whole(c.base) && Whole(y.base) && c.base < now < y.base && c.id == y.id == e.id && s.clock <= now
    ensures forall d :: d in s.dispatched && d.id == e.id ==> d.base < c.base
  {
    hide CatchAll;
    CatchAllKeeps(s.lastFired, plan, [e], t0);
    assert c in CatchAll(Caught(multiset{}, s.lastFired), plan, [e], t0).queue;
  }

  /** Start-up with one entry leaves the record of every other as it was. */
  lemma RestartTouchesOne(s: State, plan: Plan, e: Entry, now: int)
    requires Lawful(plan) && s.entries == [e]
    ensures forall id :: id != e.id && id in Next(s, plan, Restart(now)).lastFired ==>
              id in s.lastFired && Next(s, plan, Restart(now)).lastFired[id] == s.lastFired[id]
  {
    hide CatchAll;
    CatchAllKeeps(s.lastFired, plan, [e], now);
    var c := CatchAll(Caught(multiset{}, s.lastFired), plan, [e], now);
    forall id | id != e.id ensures Untouched(c, s.lastFired, id) {
      assert forall f :: f in [e] ==> f.id != id;
    }
    assert forall id :: Untouched(c, s.lastFired, id) ==>
      (id in c.lastFired ==> id in s.lastFired && c.lastFired[id] == s.lastFired[id]);
  }

  /** What the pair leaves queued. When the first fires, y is queued twice if and only if the first is the
      catch-up and the schedule still names y. Otherwise let z be the fire the first of the pair queues:
      after both have fired z is queued twice if and only if the schedule still names z when the second
      fires. */
  lemma PairDoublesIff(s: State, plan: Plan, e: Entry, c: Item, y: Item, t0: int, now: int,
                       p: Pair, t1: int, t2: int, z: Item)
      returns (r: State, u: State, v: State, w: State)
    requires CatchesUp(s, plan, e, c, y, t0, now) && InTurn(p, c, y)
    requires now <= t1 <= t2 && Due(p.first, t1) && Due(p.second, t2) && ItemFor(plan, e, t1) == Some(z)
    ensures Took(s, plan, Restart(t0), r) && Took(r, plan, Rebuild(now), u)
    ensures Took(u, plan, Turn(t1, p.first), v) && Took(v, plan, Turn(t2, p.second), w)
    ensures v.queue[y] == 2 <==> p.first == c && plan.next(e, t1) == Some(y.base)
    ensures v.queue[y] != 2 ==> (w.queue[z] == 2 <==> plan.next(e, t2) == Some(z.base))
  {
    hide Next, CatchAll, Lookup, Fresh, Shot;
    r, u, v, w := FireThePair(s, plan, e, c, y, t0, now, p, t1, t2);
    assert w.queue[z] == 1 + AsBag(ItemFor(plan, e, t2))[z];
  }
}
