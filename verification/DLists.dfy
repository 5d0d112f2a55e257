/**
 The intrusive, circular, doubly linked list that the sender keeps its events in and the threaded
 receiver its pending callbacks.

 In the source the links (`DLIST_ENTRY`) are embedded in the record and `containingRecord` goes back
 from the links to the record. Here an entry carries its record in `value`.
 */
module DLists {

  class DListEntry<T> {
    var flink: DListEntry<T>
    var blink: DListEntry<T>
    var value: T

    constructor (v: T)
      ensures value == v && flink == this && blink == this
    {
      value := v;
      flink := this;
      blink := this;
    }
  }

  /** Where the links of the entry at position `i` lead; the head closes the ring. */
  ghost function Next<T>(head: DListEntry<T>, nodes: seq<DListEntry<T>>, i: nat): DListEntry<T> {
    if i + 1 < |nodes| then nodes[i + 1] else head
  }

  ghost function Prev<T>(head: DListEntry<T>, nodes: seq<DListEntry<T>>, i: nat): DListEntry<T> {
    if 0 < i <= |nodes| then nodes[i - 1] else head
  }

  ghost predicate Distinct<T>(head: DListEntry<T>, nodes: seq<DListEntry<T>>) {
    && (forall i :: 0 <= i < |nodes| ==> nodes[i] != head)
    && (forall i, j :: 0 <= i < j < |nodes| ==> nodes[i] != nodes[j])
  }

  /** The links of `nodes` and the head form one ring, in both directions. */
  ghost predicate Linked<T>(head: DListEntry<T>, nodes: seq<DListEntry<T>>)
    reads head, nodes
  {
    && head.flink == (if nodes == [] then head else nodes[0])
    && head.blink == Prev(head, nodes, |nodes|)
    && (forall i {:trigger nodes[i].flink} :: 0 <= i < |nodes| ==> nodes[i].flink == Next(head, nodes, i))
    && (forall i {:trigger nodes[i].blink} :: 0 <= i < |nodes| ==> nodes[i].blink == Prev(head, nodes, i))
  }

  /** Once the neighbours of `o[i]` are linked to each other, the other entries form the ring. */
  lemma LinkedWithout<T>(head: DListEntry<T>, o: seq<DListEntry<T>>, i: nat)
    requires Distinct(head, o) && i < |o|
    requires head.flink == if i == 0 then Next(head, o, 0) else o[0]
    requires head.blink == if i == |o| - 1 then Prev(head, o, i) else o[|o| - 1]
    requires forall k {:trigger o[k].flink} :: 0 <= k < |o| && k != i ==>
               o[k].flink == if k + 1 == i then Next(head, o, i) else Next(head, o, k)
    requires forall k {:trigger o[k].blink} :: 0 <= k < |o| && k != i ==>
               o[k].blink == if k == i + 1 then Prev(head, o, i) else Prev(head, o, k)
    ensures Distinct(head, o[..i] + o[i + 1..]) && Linked(head, o[..i] + o[i + 1..])
  {
    var n := o[..i] + o[i + 1..];
    assert forall k :: 0 <= k < |n| ==> n[k] == o[if k < i then k else k + 1];
  }

  lemma HeadAndRest<T>(s: seq<T>)
    ensures s != [] ==> s == [s[0]] + (s[..0] + s[1..])
  {
  }

  class DList<T> {
    const head: DListEntry<T>
    ghost var nodes: seq<DListEntry<T>>
    ghost var Contents: seq<T>

    ghost predicate Valid()
      reads this, head, nodes
    {
      && Distinct(head, nodes) && Linked(head, nodes)
      && |Contents| == |nodes|
      && forall i :: 0 <= i < |nodes| ==> nodes[i].value == Contents[i]
    }

    /** DList_InitializeListHead. `v` only fills the head's unused record. */
    constructor (v: T)
      ensures Valid() && fresh(head) && nodes == [] && Contents == []
    {
      head := new DListEntry(v);
      nodes := [];
      Contents := [];
    }

    /** DList_InsertTailList */
    method InsertTail(entry: DListEntry<T>)
      requires Valid() && entry != head && entry !in nodes
      modifies this, head`flink, head`blink, nodes`flink, nodes`blink, entry`flink, entry`blink
      ensures Valid() && nodes == old(nodes) + [entry]
      ensures Contents == old(Contents) + [old(entry.value)]
    {
      var last := head.blink;
      entry.flink := head;
      entry.blink := last;
      last.flink := entry;
      head.blink := entry;
      nodes := nodes + [entry];
      Contents := Contents + [entry.value];
    }

    /** DList_RemoveEntryList: the neighbours are linked to each other; the entry's own links stay. */
    method RemoveEntry(entry: DListEntry<T>, ghost i: nat)
      requires Valid() && i < |nodes| && nodes[i] == entry
      modifies this, head`flink, head`blink, nodes`flink, nodes`blink
      ensures Valid()
      ensures nodes == old(nodes)[..i] + old(nodes)[i + 1..]
      ensures Contents == old(Contents)[..i] + old(Contents)[i + 1..]
    {
      var f, b := entry.flink, entry.blink;
      b.flink := f;
      f.blink := b;
      LinkedWithout(head, nodes, i);
      nodes := nodes[..i] + nodes[i + 1..];
      Contents := Contents[..i] + Contents[i + 1..];
    }

    /** An assignment to the record that embeds the entry at position `i`. */
    method SetValue(entry: DListEntry<T>, v: T, ghost i: nat)
      requires Valid() && i < |nodes| && nodes[i] == entry
      modifies this`Contents, entry`value
      ensures Valid() && Contents == old(Contents)[i := v]
    {
      entry.value := v;
      Contents := Contents[i := v];
    }

    /** DList_RemoveHeadList: the first entry, or the head itself when the list is empty. */
    method RemoveHead() returns (entry: DListEntry<T>)
      requires Valid()
      modifies this, head`flink, head`blink, nodes`flink, nodes`blink
      ensures Valid()
      ensures old(nodes) == [] ==> entry == head && nodes == [] && Contents == []
      ensures old(nodes) != [] ==>
        && entry != head && old(nodes) == [entry] + nodes && old(Contents) == [entry.value] + Contents
        && entry !in nodes
    {
      entry := head.flink;
      if entry != head {
        HeadAndRest(nodes);
        HeadAndRest(Contents);
        RemoveEntry(entry, 0);
      }
    }
  }
}
