/**
 The scheduler's min-heap of pending fires, ordered by the time each one is due, with the
 sift-up and sift-down loops of Go's container/heap.
 */
module FireHeap {

  /** One pending run: base is the schedule's own fire time, at is base plus this agent's jitter. */
  datatype Item = Item(id: string, base: int, at: int)

  function Parent(i: nat): nat
    requires i > 0
  {
    (i - 1) / 2
  }

  /** Every item is due no earlier than its parent. */
  predicate IsHeap(s: seq<Item>) {
    forall i {:trigger s[i]} :: 0 < i < |s| ==> s[Parent(i)].at <= s[i].at
  }

  function Swapped(s: seq<Item>, i: nat, j: nat): (r: seq<Item>)
    requires i < |s| && j < |s|
    ensures |r| == |s| && multiset(r) == multiset(s)
  {
    s[i := s[j]][j := s[i]]
  }

  /** The root is due first. */
  lemma {:induction false} RootIsMin(s: seq<Item>, k: nat)
    requires IsHeap(s) && k < |s|
    ensures s[0].at <= s[k].at
  {
    if k > 0 {
      RootIsMin(s, Parent(k));
    }
  }

  /** In order everywhere except possibly between j and its parent; j's children already fit below
      j's parent. */
  predicate HeapExceptUp(s: seq<Item>, j: nat) {
    && (forall i {:trigger s[i]} :: 0 < i < |s| && i != j ==> s[Parent(i)].at <= s[i].at)
    && (forall i {:trigger s[i]} :: 0 < i < |s| && j > 0 && Parent(i) == j ==> j < |s| && s[Parent(j)].at <= s[i].at)
  }

  /** In order from lo on, except possibly between i and its children. */
  predicate HeapExceptDown(s: seq<Item>, lo: nat, i: nat) {
    && (forall k {:trigger s[k]} :: 0 < k < |s| && lo <= Parent(k) != i ==> s[Parent(k)].at <= s[k].at)
    && (forall k {:trigger s[k]} :: 0 < k < |s| && Parent(k) == i && i > 0 && lo <= Parent(i) ==>
          s[Parent(i)].at <= s[k].at)
  }

  predicate HeapFrom(s: seq<Item>, lo: nat) {
    forall k {:trigger s[k]} :: 0 < k < |s| && lo <= Parent(k) ==> s[Parent(k)].at <= s[k].at
  }

  /** The earlier of i's children, if it has any. */
  function Child(s: seq<Item>, i: nat): (j: nat)
    requires 2 * i + 1 < |s|
    ensures 0 < j < |s| && Parent(j) == i
    ensures forall k :: 0 < k < |s| && Parent(k) == i ==> s[j].at <= s[k].at
  {
    var left := 2 * i + 1;
    assert forall k :: 0 < k < |s| && Parent(k) == i ==> k == left || k == left + 1;
    if left + 1 < |s| && s[left + 1].at < s[left].at then left + 1 else left
  }

  lemma DownDone(s: seq<Item>, lo: nat, i: nat)
    requires HeapExceptDown(s, lo, i)
    requires 2 * i + 1 < |s| ==> s[Child(s, i)].at >= s[i].at
    ensures HeapFrom(s, lo)
  {
  }

  lemma UpSwap(s: seq<Item>, j: nat)
    requires 0 < j < |s| && HeapExceptUp(s, j) && s[j].at < s[Parent(j)].at
    ensures HeapExceptUp(Swapped(s, j, Parent(j)), Parent(j))
  {
    var i := Parent(j);
    var t := Swapped(s, j, i);
    forall k | 0 < k < |t| && k != i ensures t[Parent(k)].at <= t[k].at {
      assert s[k] == s[k] && s[i] == s[i];
    }
    forall k | 0 < k < |t| && i > 0 && Parent(k) == i ensures t[Parent(i)].at <= t[k].at {
      assert s[Parent(k)].at <= s[k].at || k == j;
      assert s[Parent(i)].at <= s[i].at;
    }
  }

  lemma DownSwap(s: seq<Item>, lo: nat, i: nat, j: nat)
    requires j < |s| && 0 < j && Parent(j) == i && lo <= i && HeapExceptDown(s, lo, i) && s[j].at < s[i].at
    requires forall k :: 0 < k < |s| && Parent(k) == i ==> s[j].at <= s[k].at
    ensures HeapExceptDown(Swapped(s, i, j), lo, j)
  {
    var t := Swapped(s, i, j);
    forall k | 0 < k < |t| && lo <= Parent(k) != j ensures t[Parent(k)].at <= t[k].at {
      assert s[k] == s[k];
      if k == i {
        assert s[Parent(i)].at <= s[j].at;
      }
    }
    forall k | 0 < k < |t| && Parent(k) == j && lo <= Parent(j) ensures t[Parent(j)].at <= t[k].at {
      assert s[Parent(k)].at <= s[k].at;
    }
  }

  /** The slice after pop has swapped the root to the end and cut it off. */
  function Beheaded(s: seq<Item>): (t: seq<Item>)
    requires s != []
  {
    Swapped(s, 0, |s| - 1)[..|s| - 1]
  }

  lemma BeheadedKeepsRest(s: seq<Item>)
    requires s != []
    ensures multiset(Beheaded(s)) == multiset(s) - multiset{s[0]}
  {
    var moved := Swapped(s, 0, |s| - 1);
    assert moved == Beheaded(s) + [s[0]];
  }

  lemma BeheadedIsAlmostHeap(s: seq<Item>)
    requires IsHeap(s) && s != []
    ensures HeapExceptDown(Beheaded(s), 0, 0)
  {
    var t := Beheaded(s);
    assert forall k :: 0 < k < |t| ==> t[k] == s[k];
  }

  lemma RootIsFirst(s: seq<Item>)
    requires IsHeap(s) && s != []
    ensures forall y :: y in s ==> s[0].at <= y.at
  {
    forall k | 0 <= k < |s| ensures s[0].at <= s[k].at {
      RootIsMin(s, k);
    }
  }

  class Heap {
    var items: seq<Item>

    constructor ()
      ensures items == []
    {
      items := [];
    }

    /** container/heap's up. */
    method Up(start: nat)
      requires start < |items| && HeapExceptUp(items, start)
      modifies this
      ensures IsHeap(items) && multiset(items) == multiset(old(items))
    {
      var j: nat := start;
      while j > 0 && items[j].at < items[Parent(j)].at
        invariant j < |items| == |old(items)| && HeapExceptUp(items, j)
        invariant multiset(items) == multiset(old(items))
      {
        UpSwap(items, j);
        items := Swapped(items, j, Parent(j));
        j := Parent(j);
      }
    }

    /** container/heap's down, from i over the whole slice. */
    method Down(start: nat, ghost lo: nat)
      requires lo <= start && HeapExceptDown(items, lo, start)
      modifies this
      ensures |items| == |old(items)| && multiset(items) == multiset(old(items))
      ensures HeapFrom(items, lo)
    {
      var i: nat := start;
      while 2 * i + 1 < |items|
        invariant lo <= i && |items| == |old(items)| && HeapExceptDown(items, lo, i)
        invariant multiset(items) == multiset(old(items))
        decreases |items| - i
      {
        hide HeapExceptDown, HeapFrom;
        var j := Child(items, i);
        if items[j].at >= items[i].at {
          DownDone(items, lo, i);
          return;
        }
        DownSwap(items, lo, i, j);
        items := Swapped(items, i, j);
        i := j;
      }
      DownDone(items, lo, i);
    }

    method Push(x: Item)
      requires IsHeap(items)
      modifies this
      ensures IsHeap(items) && multiset(items) == multiset(old(items)) + multiset{x}
    {
      items := items + [x];
      Up(|items| - 1);
    }

    /** Takes the item due first. */
    method Pop() returns (x: Item)
      requires IsHeap(items) && items != []
      modifies this
      ensures IsHeap(items) && multiset(items) == multiset(old(items)) - multiset{x}
      ensures x in old(items) && forall y :: y in old(items) ==> x.at <= y.at
    {
      x := items[0];
      RootIsFirst(items);
      BeheadedKeepsRest(items);
      BeheadedIsAlmostHeap(items);
      items := Beheaded(items);
      Down(0, 0);
    }

    /** Heapify, as rebuild does after filling the slice. */
    method Init()
      modifies this
      ensures IsHeap(items) && multiset(items) == multiset(old(items))
    {
      var i := |items| / 2;
      while i > 0
        invariant 0 <= i <= |items| == |old(items)|
        invariant multiset(items) == multiset(old(items))
        invariant HeapFrom(items, i)
      {
        i := i - 1;
        Down(i, i);
      }
    }
  }
}
