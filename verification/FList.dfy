/**
 The intrusive circular doubly linked list (fio/flist.h) on a heap of nodes.
 A list is a head node together with the sequence of its entries; every
 operation is specified on that sequence and touches only the nodes its
 `modifies` clause names.
 */
module FList {
  import opened Common

  class Node {
    var next: Node?
    var prev: Node?

    constructor ()
      ensures next == null && prev == null
    {
      next, prev := null, null;
    }
  }

  // What follows, and what precedes, the i-th entry; -1 and |s| stand for the head.
  function At(head: Node, s: seq<Node>, i: int): Node {
    if 0 <= i < |s| then s[i] else head
  }

  // head and s form a ring: next and prev are mutually inverse around it.
  ghost predicate IsList(head: Node, s: seq<Node>)
    reads head, s
  {
    && head !in s && NoDup(s)
    && head.next == At(head, s, 0) && head.prev == At(head, s, |s| - 1)
    && (forall i {:trigger s[i].next} :: 0 <= i < |s| ==> s[i].next == At(head, s, i + 1))
    && (forall i {:trigger s[i].prev} :: 0 <= i < |s| ==> s[i].prev == At(head, s, i - 1))
  }

  /** INIT_FLIST_HEAD */
  method Init(head: Node)
    modifies head
    ensures IsList(head, [])
  {
    head.next, head.prev := head, head;
  }

  /** flist_empty */
  method Empty(head: Node, ghost s: seq<Node>) returns (b: bool)
    requires IsList(head, s)
    ensures b <==> s == []
  {
    b := head.next == head;
  }

  /** __flist_add */
  method Link(entry: Node, prev: Node, next: Node)
    requires entry != prev && entry != next
    modifies entry, prev, next
    ensures entry.next == next && entry.prev == prev && prev.next == entry && next.prev == entry
    ensures prev != next ==> prev.prev == old(prev.prev) && next.next == old(next.next)
  {
    next.prev := entry;
    entry.next := next;
    entry.prev := prev;
    prev.next := entry;
  }

  /** flist_add: the entry becomes the first. */
  method Add(entry: Node, head: Node, ghost s: seq<Node>)
    requires IsList(head, s) && entry != head && entry !in s
    modifies entry, head, head.next
    ensures IsList(head, [entry] + s)
  {
    Link(entry, head, head.next);
  }

  /** flist_add_tail: the entry becomes the last. */
  method AddTail(entry: Node, head: Node, ghost s: seq<Node>)
    requires IsList(head, s) && entry != head && entry !in s
    modifies entry, head, head.prev
    ensures IsList(head, s + [entry])
  {
    Link(entry, head.prev, head);
  }

  /** __flist_del */
  method Unlink(prev: Node, next: Node)
    modifies prev, next
    ensures prev.next == next && next.prev == prev
    ensures prev != next ==> prev.prev == old(prev.prev) && next.next == old(next.next)
  {
    next.prev := prev;
    prev.next := next;
  }

  // s without its i-th entry.
  ghost function Without(s: seq<Node>, i: nat): (r: seq<Node>)
    requires i < |s|
    ensures |r| == |s| - 1 && forall k {:trigger r[k]} :: 0 <= k < |r| ==> r[k] == if k < i then s[k] else s[k + 1]
  {
    s[..i] + s[i + 1..]
  }

  // The ring of s with a link that passes over the i-th entry.
  ghost predicate Bridged(head: Node, s: seq<Node>, i: int)
    reads head, s
  {
    && head !in s && NoDup(s)
    && head.next == At(head, s, if i == 0 then 1 else 0)
    && head.prev == At(head, s, if i == |s| - 1 then |s| - 2 else |s| - 1)
    && (forall k {:trigger s[k].next} :: 0 <= k < |s| && k != i ==>
          s[k].next == At(head, s, if k + 1 == i then k + 2 else k + 1))
    && (forall k {:trigger s[k].prev} :: 0 <= k < |s| && k != i ==>
          s[k].prev == At(head, s, if k - 1 == i then k - 2 else k - 1))
  }

  lemma AtWithout(head: Node, s: seq<Node>, i: nat, k: int)
    requires i < |s| && -1 <= k <= |s| - 1
    ensures At(head, Without(s, i), k) == At(head, s, if k < i then k else k + 1)
  {
  }

  lemma BridgedAt(head: Node, s: seq<Node>, i: nat, k: nat)
    requires i < |s| && Bridged(head, s, i) && k < |s| - 1
    ensures Without(s, i)[k].next == At(head, Without(s, i), k + 1)
    ensures Without(s, i)[k].prev == At(head, Without(s, i), k - 1)
  {
    var m := if k < i then k else k + 1;
    assert Without(s, i)[k] == s[m];
    AtWithout(head, s, i, k + 1);
    AtWithout(head, s, i, k - 1);
  }

  lemma WithoutNoDup(head: Node, s: seq<Node>, i: nat)
    requires i < |s| && NoDup(s) && head !in s
    ensures NoDup(Without(s, i)) && head !in Without(s, i)
  {
  }

  lemma BridgedIsList(head: Node, s: seq<Node>, i: nat)
    requires i < |s| && Bridged(head, s, i)
    ensures IsList(head, Without(s, i))
  {
    WithoutNoDup(head, s, i);
    AtWithout(head, s, i, 0);
    AtWithout(head, s, i, |s| - 2);
    forall k {:trigger Without(s, i)[k].next} | 0 <= k < |s| - 1
      ensures Without(s, i)[k].next == At(head, Without(s, i), k + 1)
    {
      BridgedAt(head, s, i, k);
    }
    forall k {:trigger Without(s, i)[k].prev} | 0 <= k < |s| - 1
      ensures Without(s, i)[k].prev == At(head, Without(s, i), k - 1)
    {
      BridgedAt(head, s, i, k);
    }
  }

  /** flist_del_init of the i-th entry. */
  method DelInit(entry: Node, ghost head: Node, ghost s: seq<Node>, ghost i: nat)
    requires IsList(head, s) && i < |s| && s[i] == entry
    modifies entry, entry.prev, entry.next
    ensures IsList(head, Without(s, i)) && IsList(entry, [])
  {
    assert entry.prev == At(head, s, i - 1) && entry.next == At(head, s, i + 1);
    Unlink(entry.prev, entry.next);
    Init(entry);
    BridgedIsList(head, s, i);
  }

  /** flist_del: as flist_del_init, but the entry is left without neighbours. */
  method Del(entry: Node, ghost head: Node, ghost s: seq<Node>, ghost i: nat)
    requires IsList(head, s) && i < |s| && s[i] == entry
    modifies entry, entry.prev, entry.next
    ensures IsList(head, Without(s, i)) && entry.next == null && entry.prev == null
  {
    assert entry.prev == At(head, s, i - 1) && entry.next == At(head, s, i + 1);
    Unlink(entry.prev, entry.next);
    assert Bridged(head, s, i);
    entry.next, entry.prev := null, null;
    BridgedIsList(head, s, i);
  }

  // Two lists that share no node.
  ghost predicate Apart(list: Node, u: seq<Node>, head: Node, s: seq<Node>) {
    && list != head && list !in s && head !in u
    && forall i, j :: 0 <= i < |u| && 0 <= j < |s| ==> u[i] != s[j]
  }

  /** __flist_splice */
  method LinkAll(list: Node, prev: Node, next: Node, ghost u: seq<Node>)
    requires IsList(list, u) && u != [] && prev != list && next != list && prev !in u && next !in u
    modifies prev, next, list.next, list.prev
    ensures u[0].prev == prev && prev.next == u[0] && u[|u| - 1].next == next && next.prev == u[|u| - 1]
    ensures forall k :: 0 <= k < |u| - 1 ==> u[k].next == u[k + 1] && u[k + 1].prev == u[k]
    ensures prev != next ==> prev.prev == old(prev.prev) && next.next == old(next.next)
  {
    var first, last := list.next, list.prev;
    assert first == u[0] && last == u[|u| - 1];
    first.prev := prev;
    prev.next := first;
    last.next := next;
    next.prev := last;
  }

  /** flist_splice_init: the entries of `list` go in front; `list` becomes empty. */
  method SpliceInit(list: Node, head: Node, ghost u: seq<Node>, ghost s: seq<Node>)
    requires IsList(list, u) && IsList(head, s) && Apart(list, u, head, s)
    modifies list, head, list.next, list.prev, head.next
    ensures IsList(head, u + s) && IsList(list, [])
  {
    if list.next != list {
      LinkAll(list, head, head.next, u);
      Init(list);
    }
  }

  /** flist_splice_tail_init: the entries of `list` go behind; `list` becomes empty. */
  method SpliceTailInit(list: Node, head: Node, ghost u: seq<Node>, ghost s: seq<Node>)
    requires IsList(list, u) && IsList(head, s) && Apart(list, u, head, s)
    modifies list, head, list.next, list.prev, head.prev
    ensures IsList(head, s + u) && IsList(list, [])
  {
    if list.next != list {
      LinkAll(list, head.prev, head, u);
      Init(list);
    }
  }

  /** flist_for_each: the visited nodes are the entries, in order. */
  method ForEach(head: Node, ghost s: seq<Node>) returns (visited: seq<Node>)
    requires IsList(head, s)
    ensures visited == s
  {
    visited := [];
    var pos := head.next;
    while pos != head
      invariant |visited| <= |s| && visited == s[..|visited|]
      invariant pos == At(head, s, |visited|)
      decreases |s| - |visited|
    {
      assert pos == s[|visited|];
      visited := visited + [pos];
      pos := pos.next;
    }
  }

  // Deleting the first entry.
  method DeleteFirst(entry: Node, head: Node, ghost s: seq<Node>)
    requires IsList(head, s) && s != [] && entry == s[0]
    modifies head, s
    ensures IsList(head, s[1..])
  {
    assert entry.prev == head && entry.next == At(head, s, 1);
    DelInit(entry, head, s, 0);
    assert Without(s, 0) == s[1..];
  }

  /** flist_for_each_safe with every entry deleted as it is visited. */
  method DeleteAll(head: Node, ghost s: seq<Node>) returns (visited: seq<Node>)
    requires IsList(head, s)
    modifies head, s
    ensures visited == s && IsList(head, [])
  {
    visited := [];
    var pos := head.next;
    var n := pos.next;
    ghost var rest := s;
    while pos != head
      invariant |visited| <= |s| && visited == s[..|visited|] && rest == s[|visited|..]
      invariant IsList(head, rest)
      invariant pos == At(head, rest, 0) && n == pos.next
      decreases |rest|
    {
      assert rest == [pos] + rest[1..] && n == At(head, rest, 1);
      visited := visited + [pos];
      DeleteFirst(pos, head, rest);
      rest := rest[1..];
      pos := n;
      n := pos.next;
    }
  }
}
