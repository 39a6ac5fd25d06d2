/**
 The intrusive doubly linked list of flist.h, on the heap.

 A list with head h and entries e is the ring [h] + e: every node points to the
 next one and back, and the last one closes the ring.  Each operation is proved
 to turn the ring of the old sequence into the ring of the new one; its
 `modifies` clause names the few nodes it writes, so every other list is left
 alone.  Ghost parameters name the sequence and the position.
 */
module FList {

  class Node {
    var next: Node?
    var prev: Node?

    /** INIT_FLIST_HEAD */
    constructor ()
      ensures Ring([this])
    {
      next, prev := this, this;
    }
  }

  function After(i: nat, n: nat): (r: nat)
    requires i < n
    ensures r < n
  {
    if i + 1 < n then i + 1 else 0
  }

  ghost predicate Linked(a: Node, b: Node)
    reads a, b
  {
    a.next == b && b.prev == a
  }

  ghost predicate Distinct(s: seq<Node>) {
    forall i, j :: 0 <= i < j < |s| ==> s[i] != s[j]
  }

  ghost predicate Ring(s: seq<Node>)
    reads s
  {
    && s != [] && Distinct(s)
    && forall i :: 0 <= i < |s| ==> Linked(s[i], s[After(i, |s|)])
  }

  /** Reinitialise a node as an empty list. */
  method Init(n: Node)
    modifies n
    ensures Ring([n])
  {
    n.next := n;
    n.prev := n;
  }

  /** `flist_empty` */
  method Empty(head: Node, ghost s: seq<Node>) returns (empty: bool)
    requires Ring(s) && s[0] == head
    ensures empty <==> s == [head]
  {
    assert Linked(s[0], s[After(0, |s|)]);
    empty := head.next == head;
  }

  // ---------------------------------------------------------------- insertion

  ghost function Inserted(s: seq<Node>, k: nat, mid: seq<Node>): seq<Node>
    requires k < |s|
  {
    s[..k + 1] + mid + s[k + 1..]
  }

  lemma InsertedDistinct(s: seq<Node>, k: nat, mid: seq<Node>)
    requires k < |s| && Distinct(s) && Distinct(mid)
    requires forall i, j :: 0 <= i < |s| && 0 <= j < |mid| ==> s[i] != mid[j]
    ensures Distinct(Inserted(s, k, mid))
  {
  }

  /** `__flist_add`: insert between two known consecutive entries. */
  method AddBetween(n: Node, prev: Node, next: Node, ghost s: seq<Node>, ghost k: nat)
    requires Ring(s) && k < |s| && prev == s[k] && next == s[After(k, |s|)] && n !in s
    modifies n, prev, next
    ensures Ring(Inserted(s, k, [n]))
  {
    next.prev := n;
    n.next := next;
    n.prev := prev;
    prev.next := n;
    ghost var r := Inserted(s, k, [n]);
    InsertedDistinct(s, k, [n]);
    forall i | 0 <= i < |r| ensures Linked(r[i], r[After(i, |r|)]) {
      if i < k { assert Linked(s[i], s[After(i, |s|)]); }
      else if i > k + 1 { assert Linked(s[i - 1], s[After(i - 1, |s|)]); }
    }
  }

  /** `flist_add`: after the head, as on a stack. */
  method Add(n: Node, head: Node, ghost s: seq<Node>)
    requires Ring(s) && s[0] == head && n !in s
    modifies n, head, head.next
    ensures Ring([head, n] + s[1..])
  {
    assert Linked(s[0], s[After(0, |s|)]);
    AddBetween(n, head, head.next, s, 0);
    assert Inserted(s, 0, [n]) == [head, n] + s[1..];
  }

  /** `flist_add_tail`: before the head, as on a queue. */
  method AddTail(n: Node, head: Node, ghost s: seq<Node>)
    requires Ring(s) && s[0] == head && n !in s
    modifies n, head, head.prev
    ensures Ring(s + [n])
  {
    ghost var last := |s| - 1;
    assert Linked(s[last], s[After(last, |s|)]);
    AddBetween(n, head.prev, head, s, last);
    assert Inserted(s, last, [n]) == s + [n];
  }

  // ------------------------------------------------------------------ removal

  ghost function Removed(s: seq<Node>, k: nat): seq<Node>
    requires k < |s|
  {
    s[..k] + s[k + 1..]
  }

  /** `__flist_del`: make the neighbours of s[k] point to each other. */
  method DelBetween(prev: Node, next: Node, ghost s: seq<Node>, ghost k: nat)
    requires Ring(s) && 0 < k < |s| && prev == s[k - 1] && next == s[After(k, |s|)]
    modifies prev, next
    ensures Ring(Removed(s, k))
  {
    next.prev := prev;
    prev.next := next;
    ghost var r := Removed(s, k);
    assert Distinct(r);
    forall i | 0 <= i < |r| ensures Linked(r[i], r[After(i, |r|)]) {
      if i < k - 1 { assert Linked(s[i], s[After(i, |s|)]); }
      else if i >= k { assert Linked(s[i + 1], s[After(i + 1, |s|)]); }
    }
  }

  /** `flist_del`: the entry's own pointers are cleared. */
  method Del(entry: Node, ghost s: seq<Node>, ghost k: nat)
    requires Ring(s) && 0 < k < |s| && entry == s[k]
    modifies entry, entry.prev, entry.next
    ensures Ring(Removed(s, k)) && entry !in Removed(s, k)
    ensures entry.next == null && entry.prev == null
  {
    assert Linked(s[k - 1], s[After(k - 1, |s|)]) && Linked(s[k], s[After(k, |s|)]);
    DelBetween(entry.prev, entry.next, s, k);
    entry.next := null;
    entry.prev := null;
  }

  /** `flist_del_init`: the entry becomes an empty list of its own. */
  method DelInit(entry: Node, ghost s: seq<Node>, ghost k: nat)
    requires Ring(s) && 0 < k < |s| && entry == s[k]
    modifies entry, entry.prev, entry.next
    ensures Ring(Removed(s, k)) && entry !in Removed(s, k) && Ring([entry])
  {
    assert Linked(s[k - 1], s[After(k - 1, |s|)]) && Linked(s[k], s[After(k, |s|)]);
    DelBetween(entry.prev, entry.next, s, k);
    Init(entry);
  }

  /** `flist_del_init` of an entry that is on no list leaves it so. */
  method DelInitAgain(entry: Node)
    requires Ring([entry])
    modifies entry
    ensures Ring([entry])
  {
    assert Linked([entry][0], [entry][After(0, 1)]);
    var prev, next := entry.prev, entry.next;
    next.prev := prev;
    prev.next := next;
    Init(entry);
  }

  // ------------------------------------------------------------------ splicing

  /** `__flist_splice`: put the entries of the ring l between two consecutive
      entries of the ring s.  The head of l keeps its now dangling pointers. */
  method SpliceBetween(list: Node, prev: Node, next: Node, ghost l: seq<Node>, ghost s: seq<Node>, ghost k: nat)
    requires Ring(l) && Ring(s) && |l| > 1 && l[0] == list
    requires forall i, j :: 0 <= i < |s| && 0 <= j < |l| ==> s[i] != l[j]
    requires k < |s| && prev == s[k] && next == s[After(k, |s|)]
    modifies list.next, list.prev, prev, next
    ensures Ring(Inserted(s, k, l[1..]))
    ensures list.next == l[1] && list.prev == l[|l| - 1]
  {
    assert Linked(l[0], l[After(0, |l|)]) && Linked(l[|l| - 1], l[After(|l| - 1, |l|)]);
    var first, last := list.next, list.prev;
    assert forall i :: 1 <= i < |l| - 1 ==> Linked(l[i], l[i + 1]) by {
      forall i | 1 <= i < |l| - 1 ensures Linked(l[i], l[i + 1]) { assert Linked(l[i], l[After(i, |l|)]); }
    }
    first.prev := prev;
    prev.next := first;
    last.next := next;
    next.prev := last;
    ghost var m := l[1..];
    InsertedDistinct(s, k, m);
    SplicedLinks(l, s, k);
  }

  /** The links of the spliced ring, from the links inside both parts and the two
      links at the seams. */
  lemma SplicedLinks(l: seq<Node>, s: seq<Node>, k: nat)
    requires |l| > 1 && k < |s|
    requires forall i :: 1 <= i < |l| - 1 ==> Linked(l[i], l[i + 1])
    requires forall i :: 0 <= i < |s| && i != k ==> Linked(s[i], s[After(i, |s|)])
    requires Linked(s[k], l[1]) && Linked(l[|l| - 1], s[After(k, |s|)])
    ensures forall i :: 0 <= i < |Inserted(s, k, l[1..])| ==>
      var r := Inserted(s, k, l[1..]); Linked(r[i], r[After(i, |r|)])
  {
    var r := Inserted(s, k, l[1..]);
    var n := |l| - 1;
    forall i | 0 <= i < |r| ensures Linked(r[i], r[After(i, |r|)]) {
      if i < k { assert Linked(s[i], s[After(i, |s|)]); }
      else if i == k { assert r[i] == s[k] && r[i + 1] == l[1]; }
      else if i < k + n { assert r[i] == l[i - k] && r[i + 1] == l[i - k + 1]; }
      else if i == k + n { assert r[i] == l[n]; }
      else { assert Linked(s[i - n], s[After(i - n, |s|)]); }
    }
  }

  ghost predicate Apart(l: seq<Node>, s: seq<Node>) {
    forall i, j :: 0 <= i < |s| && 0 <= j < |l| ==> s[i] != l[j]
  }

  /** `flist_splice`: all entries of list after the head. */
  method Splice(list: Node, head: Node, ghost l: seq<Node>, ghost s: seq<Node>)
    requires Ring(l) && Ring(s) && Apart(l, s) && l[0] == list && s[0] == head
    modifies list.next, list.prev, head, head.next
    ensures Ring([head] + l[1..] + s[1..])
    ensures list.next == old(list.next) && list.prev == old(list.prev)
  {
    var empty := Empty(list, l);
    assert Linked(s[0], s[After(0, |s|)]);
    assert Linked(l[0], l[After(0, |l|)]) && Linked(l[|l| - 1], l[After(|l| - 1, |l|)]);
    if !empty { SpliceBetween(list, head, head.next, l, s, 0); }
    assert [head] + l[1..] + s[1..] == Inserted(s, 0, l[1..]);
    assert empty ==> Inserted(s, 0, l[1..]) == s;
  }

  /** `flist_splice_tail`: all entries of list before the head. */
  method SpliceTail(list: Node, head: Node, ghost l: seq<Node>, ghost s: seq<Node>)
    requires Ring(l) && Ring(s) && Apart(l, s) && l[0] == list && s[0] == head
    modifies list.next, list.prev, head, head.prev
    ensures Ring(s + l[1..])
    ensures list.next == old(list.next) && list.prev == old(list.prev)
  {
    var empty := Empty(list, l);
    ghost var last := |s| - 1;
    assert Linked(s[last], s[After(last, |s|)]);
    assert Linked(l[0], l[After(0, |l|)]) && Linked(l[|l| - 1], l[After(|l| - 1, |l|)]);
    if !empty { SpliceBetween(list, head.prev, head, l, s, last); }
    assert s + l[1..] == Inserted(s, last, l[1..]);
    assert empty ==> s + l[1..] == s;
  }

  /** `flist_splice_init`: and the source list is left empty. */
  method SpliceInit(list: Node, head: Node, ghost l: seq<Node>, ghost s: seq<Node>)
    requires Ring(l) && Ring(s) && Apart(l, s) && l[0] == list && s[0] == head
    modifies list, list.next, list.prev, head, head.next
    ensures Ring([head] + l[1..] + s[1..]) && Ring([list])
  {
    var empty := Empty(list, l);
    Splice(list, head, l, s);
    if !empty { Init(list); }
  }

  /** `flist_splice_tail_init` */
  method SpliceTailInit(list: Node, head: Node, ghost l: seq<Node>, ghost s: seq<Node>)
    requires Ring(l) && Ring(s) && Apart(l, s) && l[0] == list && s[0] == head
    modifies list, list.next, list.prev, head, head.prev
    ensures Ring(s + l[1..]) && Ring([list])
  {
    var empty := Empty(list, l);
    SpliceTail(list, head, l, s);
    if !empty { Init(list); }
  }

  // ----------------------------------------------------------------- traversal

  /** `flist_for_each` visits exactly the entries, in order. */
  method Entries(head: Node, ghost s: seq<Node>) returns (r: seq<Node>)
    requires Ring(s) && s[0] == head
    ensures r == s[1..]
  {
    r := [];
    assert Linked(s[0], s[After(0, |s|)]);
    var pos: Node? := head.next;
    while pos != head
      invariant |r| < |s| && r == s[1..|r| + 1] && pos == s[After(|r|, |s|)]
      decreases |s| - |r|
    {
      ghost var at := |r| + 1;
      assert Linked(s[at], s[After(at, |s|)]);
      r := r + [pos];
      pos := pos.next;
    }
  }

  /** A head belongs to one ring only. */
  lemma RingUnique(s: seq<Node>, t: seq<Node>)
    requires Ring(s) && Ring(t) && s[0] == t[0]
    ensures s == t
  {
    if |s| <= |t| { ShorterRing(s, t); } else { ShorterRing(t, s); }
  }

  lemma ShorterRing(s: seq<Node>, t: seq<Node>)
    requires Ring(s) && Ring(t) && s[0] == t[0] && |s| <= |t|
    ensures s == t
  {
    SameFrom(s, t);
    assert Linked(s[|s| - 1], s[After(|s| - 1, |s|)]) && Linked(t[|s| - 1], t[After(|s| - 1, |t|)]);
  }

  lemma SameFrom(s: seq<Node>, t: seq<Node>)
    requires Ring(s) && Ring(t) && s[0] == t[0] && |s| <= |t|
    ensures forall k :: 0 <= k < |s| ==> s[k] == t[k]
  {
    var n := 1;
    while n < |s|
      invariant 1 <= n <= |s|
      invariant forall k :: 0 <= k < n ==> s[k] == t[k]
    {
      assert Linked(s[n - 1], s[After(n - 1, |s|)]) && Linked(t[n - 1], t[After(n - 1, |t|)]);
      n := n + 1;
    }
  }
}
