/**
 The scheduler: the misfire policy, the firing loop that refills the heap it drains, and the
 rebuild that recomputes it. Cron is an abstract next-fire function.
 */
module Scheduler {
  import opened Basics
  import opened FireHeap

  const FIRE_SLACK := 60 * SECOND
  const MAX_SCAN := 20000
  const MISFIRE_JITTER_S := 60

  /** A time as the state file keeps it, in whole seconds. */
  function Unix(t: int): int { t / SECOND }

  datatype Entry = Entry(id: string, cron: string, jitterS: int, graceS: int, enabled: bool)

  /** What the scheduler is told from outside: the next fire of an entry after a time, if its cron
      parses and has one, and this agent's fixed offset for an entry. */
  datatype Plan = Plan(next: (Entry, int) -> Option<int>, jitter: (string, int) -> nat)

  predicate Whole(t: int) { Unix(t) * SECOND == t }

  /** The next fire is strictly later, and falls on a whole second. */
  ghost predicate Lawful(plan: Plan) {
    forall e: Entry, t: int :: plan.next(e, t).Some? ==> t < plan.next(e, t).value && Whole(plan.next(e, t).value)
  }

  /** It is the earliest one: no other fire of the entry lies before it, and it stays the next fire
      until its time comes. */
  ghost predicate Earliest(plan: Plan) {
    forall e: Entry, t: int, u: int {:trigger plan.next(e, t), plan.next(e, u)} :: plan.next(e, t).Some? ==>
      && (t <= u < plan.next(e, t).value ==> plan.next(e, u) == plan.next(e, t))
      && (plan.next(e, u).Some? && t < plan.next(e, u).value ==> plan.next(e, t).value <= plan.next(e, u).value)
  }

  // ---------------------------------------------------------------- misfire policy

  datatype Misfire = Nothing | CatchUp | Skip

  function DecideMisfire(missedAt: Option<int>, now: int, graceS: int): (r: Misfire)
    ensures r == CatchUp <==> missedAt.Some? && graceS > 0 && now - missedAt.value <= graceS * SECOND
    ensures r == Nothing <==> missedAt.None?
  {
    if missedAt.None? then Nothing
    else if graceS <= 0 then Skip
    else if now - missedAt.value <= graceS * SECOND then CatchUp
    else Skip
  }

  predicate TooLate(e: Entry, x: Item, now: int) {
    now - x.at > FIRE_SLACK && DecideMisfire(Some(x.base), now, e.graceS) == Skip
  }

  /** A fire of e later than since and no later than now. */
  ghost predicate FiresIn(plan: Plan, e: Entry, since: int, now: int, t: int) {
    since < t <= now && exists u :: since <= u < t && plan.next(e, u) == Some(t)
  }

  /** The fires after t and no later than now, walked one at a time, at most limit of them. */
  function Walk(plan: Plan, e: Entry, t: int, now: int, limit: nat): (r: seq<int>)
    decreases limit
  {
    var next := plan.next(e, t);
    if limit == 0 || next.None? || next.value <= t || next.value > now then []
    else [next.value] + Walk(plan, e, next.value, now, limit - 1)
  }

  function LastOf(s: seq<int>): Option<int> {
    if s == [] then None else Some(s[|s| - 1])
  }

  lemma NoLaterFire(plan: Plan, e: Entry, since: int, now: int, t: int)
    requires Earliest(plan) && plan.next(e, t).Some? && plan.next(e, t).value > now
    ensures forall f :: FiresIn(plan, e, since, now, f) ==> f <= t
  {
  }

  lemma FiresNow(plan: Plan, e: Entry, since: int, now: int, t: int)
    requires since <= t && plan.next(e, t).Some? && t < plan.next(e, t).value <= now
    ensures FiresIn(plan, e, since, now, plan.next(e, t).value)
  {
  }

  /** lastMissed: the latest fire in the window. When the walk is cut short neither by its limit nor
      by a schedule that names no further fire, no fire of the window is later. */
  method LastMissed(plan: Plan, e: Entry, since: int, now: int, limit: nat) returns (last: Option<int>, count: nat)
    requires Lawful(plan)
    ensures var w := Walk(plan, e, since, now, limit); count == |w| && last == LastOf(w)
    ensures last.Some? ==> FiresIn(plan, e, since, now, last.value)
    ensures var t := if last.Some? then last.value else since;
            count < limit && Earliest(plan) && plan.next(e, t).Some? ==>
              forall f :: FiresIn(plan, e, since, now, f) ==> f <= t
  {
    hide Earliest, FiresIn;
    last, count := None, 0;
    var t := since;
    ghost var seen: seq<int> := [];
    while count < limit
      invariant count == |seen| <= limit && last == LastOf(seen)
      invariant Walk(plan, e, since, now, limit) == seen + Walk(plan, e, t, now, limit - count)
      invariant t == if last.Some? then last.value else since
      invariant last.Some? ==> FiresIn(plan, e, since, now, last.value)
      invariant since <= t
    {
      var next := plan.next(e, t);
      if next.None? || next.value <= t || next.value > now {
        if next.Some? && Earliest(plan) {
          NoLaterFire(plan, e, since, now, t);
        }
        return;
      }
      FiresNow(plan, e, since, now, t);
      seen := seen + [next.value];
      last, count, t := next, count + 1, next.value;
    }
  }

  // ---------------------------------------------------------------- lookups

  /** The first entry with this id, if it is enabled. */
  function Lookup(entries: seq<Entry>, id: string): (r: Option<Entry>)
    ensures r.Some? ==> r.value in entries && r.value.id == id && r.value.enabled
  {
    if entries == [] then None
    else if entries[0].id == id then (if entries[0].enabled then Some(entries[0]) else None)
    else Lookup(entries[1..], id)
  }

  method FindEntry(entries: seq<Entry>, id: string) returns (r: Option<Entry>)
    ensures r == Lookup(entries, id)
  {
    var i := 0;
    while i < |entries|
      invariant 0 <= i <= |entries| && Lookup(entries, id) == Lookup(entries[i..], id)
    {
      if entries[i].id == id {
        return if entries[i].enabled then Some(entries[i]) else None;
      }
      i := i + 1;
    }
    return None;
  }

  /** itemFor: the next fire of an entry after now. */
  function ItemFor(plan: Plan, e: Entry, now: int): (r: Option<Item>)
    ensures Lawful(plan) && r.Some? ==> r.value.id == e.id && now < r.value.base <= r.value.at && Whole(r.value.base)
  {
    var base := plan.next(e, now);
    if base.None? then None else Some(Item(e.id, base.value, base.value + plan.jitter(e.id, e.jitterS)))
  }

  // ---------------------------------------------------------------- what one turn decides

  datatype Outcome = Gone | Late | Fired

  function OutcomeOf(entries: seq<Entry>, x: Item, now: int): (r: Outcome) {
    var e := Lookup(entries, x.id);
    if e.None? then Gone else if TooLate(e.value, x, now) then Late else Fired
  }

  /** The item a turn pushes after handling x. */
  function Refill(plan: Plan, entries: seq<Entry>, x: Item, now: int): (r: Option<Item>)
    ensures Lawful(plan) && r.Some? ==> r.value.id == x.id && now < r.value.base <= r.value.at && Whole(r.value.base)
  {
    var e := Lookup(entries, x.id);
    if e.None? then None else ItemFor(plan, e.value, now)
  }

  function Marked(lastFired: map<string, int>, entries: seq<Entry>, x: Item): map<string, int> {
    if Lookup(entries, x.id).None? then lastFired else lastFired[x.id := Unix(x.base)]
  }

  /** The fire history after handling several items in turn. */
  function MarkedAll(lastFired: map<string, int>, entries: seq<Entry>, xs: seq<Item>): map<string, int> {
    if xs == [] then lastFired
    else Marked(MarkedAll(lastFired, entries, xs[..|xs| - 1]), entries, xs[|xs| - 1])
  }

  lemma MarkedSnoc(lastFired: map<string, int>, entries: seq<Entry>, xs: seq<Item>, x: Item)
    ensures MarkedAll(lastFired, entries, xs + [x]) == Marked(MarkedAll(lastFired, entries, xs), entries, x)
  {
    assert (xs + [x])[..|xs + [x]| - 1] == xs;
  }

  function AsBag(x: Option<Item>): multiset<Item> {
    if x.Some? then multiset{x.value} else multiset{}
  }

  function Select(s: seq<Item>, entries: seq<Entry>, now: int, what: Outcome): (r: seq<Item>) {
    if s == [] then []
    else
      var x := s[|s| - 1];
      Select(s[..|s| - 1], entries, now, what) + if OutcomeOf(entries, x, now) == what then [x] else []
  }

  lemma SelectSnoc(s: seq<Item>, x: Item, entries: seq<Entry>, now: int, what: Outcome)
    ensures Select(s + [x], entries, now, what) ==
            Select(s, entries, now, what) + if OutcomeOf(entries, x, now) == what then [x] else []
  {
    assert (s + [x])[..|s + [x]| - 1] == s;
  }

  // ---------------------------------------------------------------- counting queued items

  /** What a count looks for: items due by a time, or items of one entry. */
  datatype Key = DueBy(now: int) | OfEntry(id: string)

  predicate Matches(k: Key, x: Item) {
    match k
    case DueBy(now) => x.at <= now
    case OfEntry(id) => x.id == id
  }

  function Count(s: seq<Item>, k: Key): (n: nat) {
    if s == [] then 0 else Count(s[..|s| - 1], k) + One(Matches(k, s[|s| - 1]))
  }

  lemma {:induction false} CountConcat(a: seq<Item>, b: seq<Item>, k: Key)
    ensures Count(a + b, k) == Count(a, k) + Count(b, k)
  {
    if b == [] {
      assert a + b == a;
    } else {
      assert (a + b)[..|a + b| - 1] == a + b[..|b| - 1];
      CountConcat(a, b[..|b| - 1], k);
    }
  }

  /** Removing the element at i. */
  lemma RemoveAt(s: seq<Item>, i: nat, k: Key)
    requires i < |s|
    ensures multiset(s[..i] + s[i + 1..]) == multiset(s) - multiset{s[i]}
    ensures Count(s, k) == Count(s[..i] + s[i + 1..], k) + One(Matches(k, s[i]))
  {
    assert s == s[..i] + [s[i]] + s[i + 1..];
    CountConcat(s[..i], s[i + 1..], k);
    CountConcat(s[..i] + [s[i]], s[i + 1..], k);
    CountConcat(s[..i], [s[i]], k);
    assert Count([s[i]], k) == One(Matches(k, s[i]));
  }

  /** Counting does not depend on the order the heap keeps its slice in. */
  lemma {:induction false} CountPermuted(a: seq<Item>, b: seq<Item>, k: Key)
    requires multiset(a) == multiset(b)
    ensures Count(a, k) == Count(b, k)
    decreases |a|
  {
    if a == [] {
      assert |b| == |multiset(b)| == |multiset(a)| == 0;
    } else {
      var n := |a| - 1;
      assert a[n] in multiset(a) && a[n] in b;
      var i :| 0 <= i < |b| && b[i] == a[n];
      RemoveAt(a, n, k);
      RemoveAt(b, i, k);
      assert a[..n] + a[n + 1..] == a[..n];
      hide Count;
      CountPermuted(a[..n], b[..i] + b[i + 1..], k);
    }
  }

  /** Taking x out and putting y in changes a count by exactly what the key says of the two. */
  lemma CountTurn(a: seq<Item>, b: seq<Item>, x: Item, y: Option<Item>, k: Key)
    requires x in a && multiset(b) == multiset(a) - multiset{x} + AsBag(y)
    ensures Count(b, k) == Count(a, k) - One(Matches(k, x)) + One(y.Some? && Matches(k, y.value))
  {
    var ys := if y.Some? then [y.value] else [];
    assert multiset(b + [x]) == multiset(a + ys);
    CountPermuted(b + [x], a + ys, k);
    CountConcat(b, [x], k);
    CountConcat(a, ys, k);
    assert Count([x], k) == One(Matches(k, x));
    assert y.Some? ==> Count(ys, k) == One(Matches(k, y.value));
  }

  /** A turn puts back at most one item, of the entry it took one from. */
  lemma NoEntryGrows(a: seq<Item>, b: seq<Item>, x: Item, y: Option<Item>)
    requires x in a && multiset(b) == multiset(a) - multiset{x} + AsBag(y)
    requires y.Some? ==> y.value.id == x.id
    ensures forall id: string {:trigger OfEntry(id)} :: Count(b, OfEntry(id)) <= Count(a, OfEntry(id))
  {
    forall id: string ensures Count(b, OfEntry(id)) <= Count(a, OfEntry(id)) {
      CountTurn(a, b, x, y, OfEntry(id));
    }
  }

  // ---------------------------------------------------------------- what the firing loop keeps

  predicate Due(x: Item, now: int) { x.at <= now }

  predicate InOrder(s: seq<Item>) {
    forall i, j :: 0 <= i <= j < |s| ==> s[i].at <= s[j].at
  }

  /** The items taken so far, in order, were due; the items put in are not; nothing else changed;
      and no item still queued is due before the last one taken. */
  ghost predicate Progress(start: seq<Item>, items: seq<Item>, popped: seq<Item>, pushed: multiset<Item>, now: int) {
    && multiset(items) + multiset(popped) == multiset(start) + pushed
    && (forall y :: y in pushed ==> !Due(y, now))
    && (forall x :: x in popped ==> Due(x, now))
    && InOrder(popped)
    && (popped != [] ==> forall y :: y in items ==> popped[|popped| - 1].at <= y.at)
  }

  lemma BagTurn(b: multiset<Item>, a: multiset<Item>, p: multiset<Item>, s: multiset<Item>, q: multiset<Item>,
                x: multiset<Item>, y: multiset<Item>)
    requires a == b - x + y && x <= b && b + p == s + q
    ensures a + (p + x) == s + (q + y)
  {
    forall z: Item ensures (a + (p + x))[z] == (s + (q + y))[z] {
      assert (b + p)[z] == (s + q)[z];
    }
  }

  lemma ProgressTurn(start: seq<Item>, before: seq<Item>, after: seq<Item>, popped: seq<Item>, pushed: multiset<Item>,
                     x: Item, y: Option<Item>, now: int)
    requires Progress(start, before, popped, pushed, now)
    requires x in before && Due(x, now) && forall z :: z in before ==> x.at <= z.at
    requires y.Some? ==> !Due(y.value, now)
    requires multiset(after) == multiset(before) - multiset{x} + AsBag(y)
    ensures Progress(start, after, popped + [x], pushed + AsBag(y), now)
  {
    assert multiset(popped + [x]) == multiset(popped) + multiset{x};
    BagTurn(multiset(before), multiset(after), multiset(popped), multiset(start), pushed, multiset{x}, AsBag(y));
    forall z | z in after ensures x.at <= z.at {
      assert z in multiset(after);
      assert z in multiset(before) || (y.Some? && z == y.value);
    }
    forall z | z in pushed + AsBag(y) ensures !Due(z, now) {
      assert z in pushed || (y.Some? && z == y.value);
    }
  }

  lemma ProgressStart(start: seq<Item>, now: int)
    ensures Progress(start, start, [], multiset{}, now)
  {
  }

  lemma ProgressDone(start: seq<Item>, items: seq<Item>, popped: seq<Item>, pushed: multiset<Item>, now: int)
    requires Progress(start, items, popped, pushed, now)
    requires forall x :: x in items ==> !Due(x, now)
    ensures InOrder(popped)
    ensures forall x :: multiset(popped)[x] == if Due(x, now) then multiset(start)[x] else 0
  {
    forall x ensures multiset(popped)[x] == if Due(x, now) then multiset(start)[x] else 0 {
      var lhs, rhs := multiset(items) + multiset(popped), multiset(start) + pushed;
      assert lhs[x] == multiset(items)[x] + multiset(popped)[x] && rhs[x] == multiset(start)[x] + pushed[x];
      assert (x in multiset(items) <==> x in items) && (x in multiset(popped) <==> x in popped);
    }
  }

  // ---------------------------------------------------------------- rebuild, catch-up and sync

  /** The items rebuild computes afresh, one per enabled entry that has a next fire. */
  function Fresh(plan: Plan, entries: seq<Entry>, now: int): (r: multiset<Item>) {
    if entries == [] then multiset{}
    else
      Fresh(plan, entries[..|entries| - 1], now)
      + (var e := entries[|entries| - 1]; if e.enabled then AsBag(ItemFor(plan, e, now)) else multiset{})
  }

  /** The items rebuild keeps from the old heap: those whose own time has passed. */
  function Kept(items: seq<Item>, now: int): (r: seq<Item>) {
    if items == [] then []
    else
      var x := items[|items| - 1];
      Kept(items[..|items| - 1], now) + if x.base < now then [x] else []
  }

  /** The same as a bag. */
  ghost function Carried(queue: multiset<Item>, now: int): (r: multiset<Item>)
    ensures forall x :: r[x] == if x.base < now then queue[x] else 0
    decreases |queue|
  {
    if queue == multiset{} then multiset{}
    else
      var x :| x in queue;
      var rest := Carried(queue - multiset{x}, now);
      if x.base < now then rest + multiset{x} else rest
  }

  ghost predicate IsCarried(carried: multiset<Item>, queue: multiset<Item>, now: int) {
    forall x :: carried[x] == if x.base < now then queue[x] else 0
  }

  lemma {:induction false} KeptIsCarried(items: seq<Item>, now: int)
    ensures IsCarried(multiset(Kept(items, now)), multiset(items), now)
  {
    if items != [] {
      var front, x := items[..|items| - 1], items[|items| - 1];
      KeptIsCarried(front, now);
      assert items == front + [x];
    }
  }

  lemma CarriedIsUnique(carried: multiset<Item>, queue: multiset<Item>, now: int)
    requires IsCarried(carried, queue, now)
    ensures carried == Carried(queue, now)
  {
    hide Carried;
    forall x ensures carried[x] == Carried(queue, now)[x] {
    }
  }

  /** Fire history kept for entries that stay; an entry seen for the first time counts as fired now. */
  function SyncHistory(lastFired: map<string, int>, entries: seq<Entry>, now: int): map<string, int> {
    map id | id in (set e | e in entries :: e.id) :: if id in lastFired then lastFired[id] else Unix(now)
  }

  /** What the walk over the entries at start-up leaves: catch-up items and the fire history. */
  datatype Caught = Caught(queue: multiset<Item>, lastFired: map<string, int>)

  function CatchOne(c: Caught, plan: Plan, e: Entry, now: int): (r: Caught) {
    if !e.enabled then c
    else if e.id !in c.lastFired then c.(lastFired := c.lastFired[e.id := Unix(now)])
    else
      var missed := LastOf(Walk(plan, e, c.lastFired[e.id] * SECOND, now, MAX_SCAN));
      match DecideMisfire(missed, now, e.graceS)
      case Nothing => c
      case CatchUp =>
        c.(queue := c.queue + multiset{Item(e.id, missed.value, now + plan.jitter(e.id, MISFIRE_JITTER_S))})
      case Skip => c.(lastFired := c.lastFired[e.id := Unix(missed.value)])
  }

  function CatchAll(c: Caught, plan: Plan, entries: seq<Entry>, now: int): (r: Caught) {
    if entries == [] then c
    else CatchOne(CatchAll(c, plan, entries[..|entries| - 1], now), plan, entries[|entries| - 1], now)
  }

  method Overdue(items: seq<Item>, now: int) returns (carried: seq<Item>)
    ensures multiset(carried) == Carried(multiset(items), now)
  {
    hide Carried, IsCarried;
    carried := [];
    for i := 0 to |items|
      invariant carried == Kept(items[..i], now)
    {
      assert items[..i + 1][..i] == items[..i];
      if items[i].base < now {
        carried := carried + [items[i]];
      }
    }
    assert items[..|items|] == items;
    KeptIsCarried(items, now);
    CarriedIsUnique(multiset(carried), multiset(items), now);
  }

  method FreshItems(plan: Plan, entries: seq<Entry>, now: int) returns (next: seq<Item>)
    ensures multiset(next) == Fresh(plan, entries, now)
  {
    hide ItemFor;
    next := [];
    for i := 0 to |entries|
      invariant multiset(next) == Fresh(plan, entries[..i], now)
    {
      assert entries[..i + 1][..i] == entries[..i];
      var it := ItemFor(plan, entries[i], now);
      if entries[i].enabled && it.Some? {
        next := next + [it.value];
      }
    }
    assert entries[..|entries|] == entries;
  }

  // ---------------------------------------------------------------- the scheduler object

  class Scheduler {
    var entries: seq<Entry>
    var lastFired: map<string, int>
    const pq: Heap
    ghost var dispatched: seq<Item>
    ghost var skipped: seq<Item>

    /** The queue as a bag, and the fire history. */
    ghost function Now(): Caught
      reads this, pq
    {
      Caught(multiset(pq.items), lastFired)
    }

    constructor (entries: seq<Entry>, lastFired: map<string, int>)
      ensures this.entries == entries && this.lastFired == lastFired && fresh(pq) && pq.items == []
      ensures dispatched == [] && skipped == []
    {
      this.entries, this.lastFired := entries, lastFired;
      pq := new Heap();
      dispatched, skipped := [], [];
    }

    /** dispatch or skipLate: record the fire, and run it unless it is too late. */
    method Handle(x: Item, now: int) returns (e: Option<Entry>)
      modifies this
      ensures e == Lookup(entries, x.id) && entries == old(entries)
      ensures lastFired == Marked(old(lastFired), entries, x)
      ensures dispatched == old(dispatched) + (if OutcomeOf(entries, x, now) == Fired then [x] else [])
      ensures skipped == old(skipped) + (if OutcomeOf(entries, x, now) == Late then [x] else [])
    {
      hide Lookup, TooLate;
      e := FindEntry(entries, x.id);
      if e.None? {
        return;
      }
      lastFired := lastFired[x.id := Unix(x.base)];
      if TooLate(e.value, x, now) {
        skipped := skipped + [x];
      } else {
        dispatched := dispatched + [x];
      }
    }

    /** One turn of the firing loop, on an item that is due: handle it, then queue its entry's next
        fire. */
    method FireOne(plan: Plan, now: int) returns (x: Item)
      requires IsHeap(pq.items) && pq.items != []
      modifies this, pq
      ensures IsHeap(pq.items) && entries == old(entries)
      ensures x in old(pq.items) && forall y :: y in old(pq.items) ==> x.at <= y.at
      ensures multiset(pq.items) == multiset(old(pq.items)) - multiset{x} + AsBag(Refill(plan, entries, x, now))
      ensures lastFired == Marked(old(lastFired), entries, x)
      ensures dispatched == old(dispatched) + (if OutcomeOf(entries, x, now) == Fired then [x] else [])
      ensures skipped == old(skipped) + (if OutcomeOf(entries, x, now) == Late then [x] else [])
    {
      hide Lookup, OutcomeOf, ItemFor, IsHeap, Marked;
      x := pq.Pop();
      var e := Handle(x, now);
      if e.None? {
        return;
      }
      var next := ItemFor(plan, e.value, now);
      if next.Some? {
        pq.Push(next.value);
      }
    }

    /** fireDue. It ends although every turn may push, because what it pushes is never due yet. It
        takes exactly the items that were due, each once, in the order they were due; dispatches
        those not too late and skips the rest; leaves nothing due; and no entry ends with more
        queued items than it had. */
    method FireDue(plan: Plan, now: int) returns (ghost popped: seq<Item>)
      requires Lawful(plan) && IsHeap(pq.items)
      modifies this, pq
      ensures IsHeap(pq.items) && entries == old(entries)
      ensures forall x :: x in pq.items ==> !Due(x, now)
      ensures forall x :: multiset(popped)[x] == if Due(x, now) then multiset(old(pq.items))[x] else 0
      ensures InOrder(popped)
      ensures lastFired == MarkedAll(old(lastFired), entries, popped)
      ensures dispatched == old(dispatched) + Select(popped, entries, now, Fired)
      ensures skipped == old(skipped) + Select(popped, entries, now, Late)
      ensures forall id: string {:trigger OfEntry(id)} ::
              Count(pq.items, OfEntry(id)) <= Count(old(pq.items), OfEntry(id))
    {
      hide Count, IsHeap, Refill, OutcomeOf, Marked, Progress;
      popped := [];
      ghost var start := pq.items;
      ghost var pushed: multiset<Item> := multiset{};
      ProgressStart(start, now);
      while pq.items != [] && pq.items[0].at <= now
        invariant IsHeap(pq.items) && entries == old(entries)
        invariant Progress(start, pq.items, popped, pushed, now)
        invariant lastFired == MarkedAll(old(lastFired), entries, popped)
        invariant dispatched == old(dispatched) + Select(popped, entries, now, Fired)
        invariant skipped == old(skipped) + Select(popped, entries, now, Late)
        invariant forall id: string {:trigger OfEntry(id)} :: Count(pq.items, OfEntry(id)) <= Count(start, OfEntry(id))
        decreases Count(pq.items, DueBy(now))
      {
        hide Select, MarkedAll;
        ghost var before := pq.items;
        RootIsFirst(before);
        var x := FireOne(plan, now);
        ghost var y := Refill(plan, entries, x, now);
        ProgressTurn(start, before, pq.items, popped, pushed, x, y, now);
        CountTurn(before, pq.items, x, y, DueBy(now));
        NoEntryGrows(before, pq.items, x, y);
        MarkedSnoc(old(lastFired), entries, popped, x);
        SelectSnoc(popped, x, entries, now, Fired);
        SelectSnoc(popped, x, entries, now, Late);
        popped, pushed := popped + [x], pushed + AsBag(y);
      }
      if pq.items != [] {
        RootIsFirst(pq.items);
      }
      ProgressDone(start, pq.items, popped, pushed, now);
    }

    /** rebuild: the heap becomes every enabled entry's next fire, and whatever is overdue. */
    method Rebuild(plan: Plan, now: int)
      modifies pq
      ensures IsHeap(pq.items)
      ensures multiset(pq.items) == Fresh(plan, entries, now) + Carried(multiset(old(pq.items)), now)
    {
      hide Carried, Fresh, IsHeap;
      var carried := Overdue(pq.items, now);
      var next := FreshItems(plan, entries, now);
      pq.items := next + carried;
      pq.Init();
    }

    /** catchUp: queue the most recent missed fire of each entry if it is inside its grace window, and
        otherwise record it as dealt with. */
    method CatchUp(plan: Plan, now: int)
      requires Lawful(plan) && IsHeap(pq.items)
      modifies this, pq
      ensures IsHeap(pq.items) && entries == old(entries) && dispatched == old(dispatched) && skipped == old(skipped)
      ensures Now() == CatchAll(old(Now()), plan, entries, now)
    {
      hide CatchOne, IsHeap;
      for i := 0 to |entries|
        invariant IsHeap(pq.items) && entries == old(entries) && dispatched == old(dispatched) &&
                  skipped == old(skipped)
        invariant Now() == CatchAll(old(Now()), plan, entries[..i], now)
      {
        assert entries[..i + 1][..i] == entries[..i];
        CatchUpEntry(plan, entries[i], now);
      }
      assert entries[..|entries|] == entries;
    }

    method CatchUpEntry(plan: Plan, e: Entry, now: int)
      requires Lawful(plan) && IsHeap(pq.items)
      modifies this, pq
      ensures IsHeap(pq.items) && entries == old(entries) && dispatched == old(dispatched) && skipped == old(skipped)
      ensures Now() == CatchOne(old(Now()), plan, e, now)
    {
      hide Walk, IsHeap;
      if !e.enabled {
        return;
      }
      if e.id !in lastFired {
        lastFired := lastFired[e.id := Unix(now)];
        return;
      }
      var missed, count := LastMissed(plan, e, lastFired[e.id] * SECOND, now, MAX_SCAN);
      match DecideMisfire(missed, now, e.graceS)
      case CatchUp => pq.Push(Item(e.id, missed.value, now + plan.jitter(e.id, MISFIRE_JITTER_S)));
      case Skip => lastFired := lastFired[e.id := Unix(missed.value)];
      case Nothing =>
    }

    /** Sync, for a document whose entries all parse: replaces the entries and rebuilds the history. */
    method Sync(doc: seq<Entry>, now: int)
      modifies this
      ensures entries == doc && lastFired == SyncHistory(old(lastFired), doc, now)
      ensures dispatched == old(dispatched) && skipped == old(skipped)
    {
      var history: map<string, int> := map[];
      for i := 0 to |doc|
        invariant history == SyncHistory(lastFired, doc[..i], now) && lastFired == old(lastFired)
        invariant dispatched == old(dispatched) && skipped == old(skipped)
      {
        var e := doc[i];
        assert doc[..i + 1] == doc[..i] + [e];
        history := history[e.id := if e.id in lastFired then lastFired[e.id] else Unix(now)];
      }
      assert doc[..|doc|] == doc;
      entries, lastFired := doc, history;
    }
  }
}
