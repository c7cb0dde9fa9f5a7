/** The doubly linked list of listeners. `attached` remembers every item ever attached, in order, and `gone` those
    detached since; the list itself must hold the rest. Items of event listeners have no streams. */
module ListenerList {

  class Item {
    const parent: Listeners
    const listener: nat
    var prev: Item?
    var next: Item?
    var streams: map<nat, nat>
    var detached: bool

    constructor (parent: Listeners, prev: Item?, listener: nat)
      ensures this.parent == parent && this.prev == prev && next == null && this.listener == listener
      ensures streams == map[] && !detached
    {
      this.parent, this.prev, this.listener := parent, prev, listener;
      next, streams, detached := null, map[], false;
    }

    /** Takes the item out of its list; a second call changes nothing. */
    method Detach()
      requires parent.Valid() && this in parent.attached
      modifies parent, parent.attached
      ensures parent.Valid() && detached && parent.attached == old(parent.attached)
      ensures parent.gone == old(parent.gone) + {this}
      ensures !old(detached) ==> prev == null && next == null && streams == map[]
      ensures old(detached) ==>
        && parent.head == old(parent.head) && parent.tail == old(parent.tail) && parent.gone == old(parent.gone)
        && forall i | i in parent.attached ::
             i.prev == old(i.prev) && i.next == old(i.next) && i.streams == old(i.streams) && i.detached == old(i.detached)
    {
      if !detached {
        Remove();
      } else {
        assert parent.gone + {this} == parent.gone;
      }
    }

    /** The work of the first call. */
    method Remove()
      requires parent.Valid() && this in parent.attached && !detached
      modifies parent`head, parent`tail, parent`gone, parent`items
      modifies parent.attached`prev, parent.attached`next, this`streams, this`detached
      ensures parent.Valid() && detached && parent.gone == old(parent.gone) + {this}
      ensures prev == null && next == null && streams == map[]
    {
      hide Linked, Chain, First, Last, Cut, Listing, Distinct, Inside;
      ghost var s, k := parent.items, parent.Position(this);
      ListLess(parent.attached, parent.gone, s, k);
      Mark();
      streams := map[];
      Unlink(s, k);
      parent.items := Cut(s, k);
    }

    method Mark()
      requires parent.Marked()
      modifies parent`gone, this`detached
      ensures parent.Marked() && detached && parent.gone == old(parent.gone) + {this}
    {
      detached := true;
      parent.gone := parent.gone + {this};
    }

    /** The pointer part of Detach, for the item at place `k` of the chain `s`. */
    method Unlink(ghost s: seq<Item>, ghost k: nat)
      requires s == parent.items && Chain(s) && Distinct(s) && Inside(s, parent.attached) && k < |s| && s[k] == this
      requires parent.head == First(s) && parent.tail == Last(s)
      modifies parent`head, parent`tail, parent.attached`prev, parent.attached`next
      ensures Chain(Cut(s, k)) && parent.head == First(Cut(s, k)) && parent.tail == Last(Cut(s, k))
      ensures prev == null && next == null
    {
      Neighbours(s, k);
      if prev == null { parent.head := next; } else { prev.next := next; }
      if next == null { parent.tail := prev; } else { next.prev := prev; }
      prev, next := null, null;
      parent.Unlinked(k);
    }
  }

  class Listeners {
    var head: Item?
    var tail: Item?
    ghost var attached: seq<Item>
    ghost var gone: set<Item>
    ghost var items: seq<Item>

    constructor ()
      ensures Valid() && attached == [] && gone == {}
    {
      head, tail, attached, gone, items := null, null, [], {}, [];
    }

    /** The list holds what was attached and not detached, in the order in which it was attached. */
    ghost predicate Valid()
      reads this, attached
    {
      Listing(attached, gone, items) && Marked() && head == First(items) && tail == Last(items) && Chain(items)
    }

    /** Exactly the items in `gone` are marked as detached. */
    ghost predicate Marked()
      reads this`attached, this`gone, attached`detached
    {
      forall i | i in attached :: i.parent == this && (i.detached <==> i in gone)
    }

    ghost function Position(i: Item): (k: nat)
      requires Valid() && i in attached && i !in gone
      reads this, attached
      ensures k < |items| && items[k] == i
    {
      KeptHas(attached, gone, i);
      var k :| 0 <= k < |items| && items[k] == i;
      k
    }

    /** Passing the neighbours of an item to each other takes it out of the chain. */
    twostate lemma Unlinked(k: nat)
      requires items == old(items) && k < |items| && old(Chain(items))
      requires forall j | 0 <= j < |items| && j != k ::
        && items[j].prev == (if j == k + 1 then old(items[k].prev) else old(items[j].prev))
        && items[j].next == (if j + 1 == k then old(items[k].next) else old(items[j].next))
      ensures Chain(Cut(items, k))
    {
      var t := Cut(items, k);
      forall j | 0 <= j < |t| ensures Linked(t, j) {
        var i := if j < k then j else j + 1;
        assert t[j] == items[i] && old(Linked(items, i)) && old(Linked(items, k));
      }
    }

    twostate lemma Appended(new i: Item)
      requires items == old(items) && old(Chain(items)) && i.next == null && i.prev == Last(items)
      requires forall j | 0 <= j < |items| :: items[j].prev == old(items[j].prev)
      requires forall j | 0 <= j < |items| - 1 :: items[j].next == old(items[j].next)
      requires items != [] ==> items[|items| - 1].next == i
      ensures Chain(items + [i])
    {
      forall j | 0 <= j <= |items| ensures Linked(items + [i], j) {
        assert j < |items| ==> old(Linked(items, j));
      }
    }

    /** Adds a listener at the end. */
    method Attach(listener: nat) returns (item: Item)
      requires Valid()
      modifies this, attached
      ensures Valid() && fresh(item) && item.listener == listener && !item.detached
      ensures attached == old(attached) + [item] && gone == old(gone) && items == old(items) + [item]
    {
      hide Linked, Chain, Listing;
      ghost var s := items;
      ListFacts(attached, gone, s);
      if s != [] { Neighbours(s, |s| - 1); }
      item := new Item(this, tail, listener);
      if head == null { head := item; }
      if tail != null { tail.next := item; }
      tail := item;
      assert item !in gone && item !in attached;
      ListMore(attached, gone, s, item);
      Appended(item);
      attached, items := attached + [item], items + [item];
    }

    /** The listeners an event is delivered to. */
    method Snapshot() returns (listeners: seq<nat>)
      requires Valid()
      ensures |listeners| == |items| && forall k | 0 <= k < |listeners| :: listeners[k] == items[k].listener
    {
      listeners := [];
      var item := head;
      ghost var s := items;
      while item != null
        invariant |listeners| <= |s| && item == (if |listeners| == |s| then null else s[|listeners|])
        invariant forall k | 0 <= k < |listeners| :: listeners[k] == s[k].listener
        decreases |s| - |listeners|
      {
        assert Linked(s, |listeners|);
        listeners := listeners + [item.listener];
        item := item.next;
      }
    }

    /** What lies `n` steps from the tail along `prev`. */
    ghost function Back(at: Item?, n: nat): Item?
      reads this, attached
      decreases n
    {
      if n == 0 || at == null || at !in attached then at else Back(at.prev, n - 1)
    }

    /** Read backward from the tail, the list is the same items in reverse, and then ends. */
    lemma {:induction false} ReadsBackward(n: nat)
      requires Valid() && n <= |items|
      ensures Back(tail, n) == (if n == |items| then null else items[|items| - 1 - n])
    {
      if n > 0 {
        ReadsBackward(n - 1);
        BackStep(tail, n - 1);
        assert Linked(items, |items| - n);
      }
    }

    lemma {:induction false} BackStep(at: Item?, n: nat)
      ensures var i := Back(at, n); Back(at, n + 1) == if i == null || i !in attached then i else i.prev
      decreases n
    {
      if n > 0 && at != null && at in attached { BackStep(at.prev, n - 1); }
    }
  }

  // ---------------------------------------------------------------- chains

  ghost function First(s: seq<Item>): Item? {
    if s == [] then null else s[0]
  }

  ghost function Last(s: seq<Item>): Item? {
    if s == [] then null else s[|s| - 1]
  }

  /** `s` without its item at place `k`. */
  ghost function Cut(s: seq<Item>, k: nat): seq<Item>
    requires k < |s|
  {
    s[..k] + s[k + 1..]
  }

  ghost predicate Linked(s: seq<Item>, k: nat)
    requires k < |s|
    reads s`prev, s`next
  {
    && s[k].prev == (if k == 0 then null else s[k - 1])
    && s[k].next == (if k + 1 == |s| then null else s[k + 1])
  }

  ghost predicate Chain(s: seq<Item>)
    reads s`prev, s`next
  {
    forall k {:trigger Linked(s, k)} | 0 <= k < |s| :: Linked(s, k)
  }

  lemma Neighbours(s: seq<Item>, k: nat)
    requires Chain(s) && Distinct(s) && k < |s|
    ensures s[k].prev == (if k == 0 then null else s[k - 1])
    ensures s[k].next == (if k + 1 == |s| then null else s[k + 1])
    ensures forall j | 0 <= j < |s| && j != k :: s[j] != s[k]
  {
    assert Linked(s, k);
  }

  // ---------------------------------------------------------------- sequences of items

  ghost predicate Distinct(s: seq<Item>) {
    forall i, j | 0 <= i < j < |s| :: s[i] != s[j]
  }

  ghost predicate Inside(s: seq<Item>, all: seq<Item>) {
    forall k | 0 <= k < |s| :: s[k] in all
  }

  lemma CutInside(s: seq<Item>, k: nat, all: seq<Item>)
    requires Inside(s, all) && k < |s|
    ensures Inside(Cut(s, k), all)
  {
    var t := Cut(s, k);
    forall j | 0 <= j < |t| ensures t[j] in all {
      assert t[j] == s[if j < k then j else j + 1];
    }
  }

  /** `s` without the items of `gone`, in the same order. */
  ghost function Kept(s: seq<Item>, gone: set<Item>): (r: seq<Item>)
    ensures |r| <= |s|
  {
    if s == [] then []
    else
      var r := Kept(s[..|s| - 1], gone);
      if s[|s| - 1] in gone then r else r + [s[|s| - 1]]
  }

  lemma {:induction false} KeptHas(s: seq<Item>, gone: set<Item>, i: Item)
    ensures i in Kept(s, gone) <==> i in s && i !in gone
  {
    if s != [] {
      KeptHas(s[..|s| - 1], gone, i);
      assert s == s[..|s| - 1] + [s[|s| - 1]];
    }
  }

  lemma KeptMore(s: seq<Item>, gone: set<Item>, i: Item)
    requires i !in gone
    ensures Kept(s + [i], gone) == Kept(s, gone) + [i]
  {
    assert (s + [i])[..|s|] == s;
  }

  lemma {:induction false} KeptDistinct(s: seq<Item>, gone: set<Item>)
    requires Distinct(s)
    ensures Distinct(Kept(s, gone))
  {
    if s != [] {
      var n := |s| - 1;
      KeptDistinct(s[..n], gone);
      KeptHas(s[..n], gone, s[n]);
    }
  }

  /** `items` are the items of `attached` that are not gone. */
  ghost predicate Listing(attached: seq<Item>, gone: set<Item>, items: seq<Item>) {
    items == Kept(attached, gone) && Distinct(attached) && Distinct(items) && Inside(items, attached)
  }

  lemma ListFacts(attached: seq<Item>, gone: set<Item>, items: seq<Item>)
    requires Listing(attached, gone, items)
    ensures Distinct(items) && Inside(items, attached)
  {
  }

  /** One more detached item leaves the list without it. */
  lemma ListLess(attached: seq<Item>, gone: set<Item>, items: seq<Item>, k: nat)
    requires Listing(attached, gone, items) && k < |items|
    ensures Listing(attached, gone + {items[k]}, Cut(items, k))
    ensures Distinct(items) && Inside(items, attached)
  {
    hide Kept, Distinct, Cut, Without;
    var i := items[k];
    KeptHas(attached, gone, i);
    KeptLess(attached, gone, i);
    WithoutAt(items, k);
    CutInside(items, k, attached);
    KeptDistinct(attached, gone + {i});
  }

  /** One more attached item ends the list. */
  lemma ListMore(attached: seq<Item>, gone: set<Item>, items: seq<Item>, i: Item)
    requires Listing(attached, gone, items) && i !in gone && i !in attached
    ensures Listing(attached + [i], gone, items + [i])
  {
    KeptMore(attached, gone, i);
    hide Kept;
  }

  /** `s` without the first occurrence of `i`. */
  ghost function Without(s: seq<Item>, i: Item): seq<Item> {
    if s == [] then [] else if s[|s| - 1] == i then s[..|s| - 1] else Without(s[..|s| - 1], i) + [s[|s| - 1]]
  }

  lemma {:induction false} KeptLess(s: seq<Item>, gone: set<Item>, i: Item)
    requires Distinct(s)
    ensures Kept(s, gone + {i}) == if i in s && i !in gone then Without(Kept(s, gone), i) else Kept(s, gone)
  {
    if s != [] {
      var n := |s| - 1;
      assert s == s[..n] + [s[n]];
      KeptLess(s[..n], gone, i);
    }
  }

  lemma {:induction false} WithoutAt(s: seq<Item>, k: nat)
    requires Distinct(s) && k < |s|
    ensures Without(s, s[k]) == Cut(s, k)
  {
    if k < |s| - 1 { WithoutAt(s[..|s| - 1], k); }
  }
}
