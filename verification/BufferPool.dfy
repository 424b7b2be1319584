/** The packet buffers: two linked lists through the nodes of one array. The
    packet driver takes free buffers and hands filled ones over from an
    interrupt; the protocol code takes those and gives them back. */
module BufferPool {
  import opened Protocol

  const BUFFER_MAX_SIZE := 1504

  datatype BufferState = BufferFree | BufferPending | BufferReady | BufferUser

  predicate Zeroed(s: seq<Byte>) {
    forall i :: 0 <= i < |s| ==> s[i] == 0
  }

  // A frame in a buffer that was zeroed before.
  function Padded(frame: seq<Byte>): (b: seq<Byte>)
    requires |frame| <= BUFFER_MAX_SIZE
  {
    frame + seq(BUFFER_MAX_SIZE - |frame|, _ => 0)
  }

  class Buffer {
    var state: BufferState
    var bytes: Word16
    var next: Buffer?
    const data: array<Byte>

    constructor ()
      ensures state == BufferFree && bytes == 0 && next == null
      ensures fresh(data) && data.Length == BUFFER_MAX_SIZE && Zeroed(data[..])
    {
      state, bytes, next := BufferFree, 0, null;
      data := new Byte[BUFFER_MAX_SIZE](_ => 0);
    }
  }

  ghost predicate Distinct(s: seq<Buffer>) {
    forall i, j :: 0 <= i < j < |s| ==> s[i] != s[j]
  }

  // From `head`, the `next` fields run through exactly `list` and end.
  ghost predicate Chain(head: Buffer?, list: seq<Buffer>, all: set<Buffer>)
    requires forall b <- list :: b in all
    reads all
  {
    && Distinct(list)
    && head == (if list == [] then null else list[0])
    && forall i {:trigger list[i].next} :: 0 <= i < |list| ==> list[i].next == (if i + 1 < |list| then list[i + 1] else null)
  }

  class Pool {
    const nodes: seq<Buffer>
    var freeList: Buffer?
    var readyList: Buffer?
    ghost var free: seq<Buffer>
    ghost var ready: seq<Buffer>

    ghost function All(): set<Buffer> {
      set b <- nodes
    }

    ghost function Arrays(): set<array<Byte>> {
      set b <- nodes :: b.data
    }

    // Every node is in one of four states; the free and the ready ones are
    // exactly those on the list of that name, and the lists do not share nodes
    // or run in circles. A free buffer is empty and zeroed.
    ghost predicate Valid()
      reads this, nodes, Arrays()
    {
      && Distinct(nodes)
      && (forall i, j :: 0 <= i < j < |nodes| ==> nodes[i].data != nodes[j].data)
      && (forall b <- nodes :: b.data.Length == BUFFER_MAX_SIZE)
      && (forall b <- free :: b in nodes)
      && (forall b <- ready :: b in nodes)
      && Chain(freeList, free, All())
      && Chain(readyList, ready, All())
      && (forall b <- nodes :: b.state == BufferFree <==> b in free)
      && (forall b <- nodes :: b.state == BufferReady <==> b in ready)
      && (forall b <- nodes :: b.state == BufferPending || b.state == BufferUser ==> b.next == null)
      && (forall b <- nodes :: b.state == BufferFree ==> b.bytes == 0 && Zeroed(b.data[..]))
    }

    // All buffers are free, the first on top.
    constructor (count: nat)
      requires count >= 1
      ensures Valid() && fresh(nodes) && fresh(Arrays())
      ensures |nodes| == count && free == nodes && ready == []
    {
      var all: seq<Buffer> := [];
      for i := 0 to count
        invariant |all| == i && Distinct(all) && fresh(all)
        invariant forall b <- all :: b.state == BufferFree && b.bytes == 0 && b.next == null
        invariant forall b <- all :: fresh(b.data) && b.data.Length == BUFFER_MAX_SIZE && Zeroed(b.data[..])
        invariant forall j, k :: 0 <= j < k < |all| ==> all[j].data != all[k].data
      {
        var b := new Buffer();
        all := all + [b];
      }
      nodes := all;
      freeList, readyList := all[0], null;
      free, ready := all, [];
      new;
      LinkAll(nodes);
    }

    static method LinkAll(all: seq<Buffer>)
      requires all != [] && Distinct(all) && forall b <- all :: b.next == null
      modifies all
      ensures Chain(all[0], all, set b <- all)
      ensures forall b <- all :: b.state == old(b.state) && b.bytes == old(b.bytes)
    {
      for i := 0 to |all| - 1
        invariant forall b <- all :: b.state == old(b.state) && b.bytes == old(b.bytes)
        invariant forall k :: 0 <= k < i ==> all[k].next == all[k + 1]
        invariant forall k :: i <= k < |all| ==> all[k].next == null
      {
        all[i].next := all[i + 1];
      }
    }

    // buffer_acquire: the top of the free list becomes pending.
    method Acquire(bytes: Word16) returns (node: Buffer?)
      requires Valid()
      modifies this`freeList, this`free, nodes
      ensures Valid()
      ensures node == null <==> old(free) == [] || bytes > BUFFER_MAX_SIZE
      ensures node == null ==> free == old(free)
      ensures node != null ==>
                old(free) == [node] + free && node.state == BufferPending && node.bytes == bytes
                && node in nodes && Zeroed(node.data[..]) && node !in ready
      ensures forall b <- nodes :: b != node ==> b.state == old(b.state) && b.bytes == old(b.bytes)
    {
      hide Zeroed;
      if freeList == null || bytes > BUFFER_MAX_SIZE {
        return null;
      }
      node := freeList;
      assert free[0].next == node.next;
      freeList := freeList.next;
      node.bytes := bytes;
      node.state := BufferPending;
      node.next := null;
      free := free[1..];
    }

    // buffer_mark_ready: the filled buffer goes on top of the ready list.
    method MarkReady(node: Buffer)
      requires Valid() && node in nodes && node.state == BufferPending
      modifies this`readyList, this`ready, node
      ensures Valid()
      ensures ready == [node] + old(ready) && node.state == BufferReady && node.bytes == old(node.bytes)
    {
      node.state := BufferReady;
      node.next := readyList;
      readyList := node;
      ready := [node] + ready;
    }

    // buffer_get_ready: the buffer that became ready last.
    method GetReady() returns (node: Buffer?)
      requires Valid()
      modifies this`readyList, this`ready, nodes
      ensures Valid()
      ensures node == null <==> old(ready) == []
      ensures node == null ==> ready == []
      ensures node != null ==>
                old(ready) == [node] + ready && node.state == BufferUser && node.bytes == old(node.bytes)
                && node in nodes && node !in ready && old(node.state) == BufferReady
      ensures forall b <- nodes :: b != node ==> b.state == old(b.state) && b.bytes == old(b.bytes)
    {
      node := null;
      if readyList != null {
        node := readyList;
        assert ready[0].next == node.next;
        readyList := readyList.next;
        node.state := BufferUser;
        node.next := null;
        ready := ready[1..];
      }
    }

    // The packet driver fills the buffer it was given.
    method DriverWrites(node: Buffer, frame: seq<Byte>)
      requires Valid() && node in nodes && node.state == BufferPending
      requires |frame| <= BUFFER_MAX_SIZE && Zeroed(node.data[..])
      modifies node.data
      ensures Valid() && node.data[..] == Padded(frame)
      ensures forall b <- nodes :: b != node ==> b.data[..] == old(b.data[..])
    {
      CopyInto(node.data, frame);
    }

    static method CopyInto(data: array<Byte>, frame: seq<Byte>)
      requires data.Length == BUFFER_MAX_SIZE && |frame| <= BUFFER_MAX_SIZE && Zeroed(data[..])
      modifies data
      ensures data[..] == Padded(frame)
    {
      for i := 0 to |frame|
        invariant data[..i] == frame[..i]
        invariant forall k :: |frame| <= k < data.Length ==> data[k] == 0
      {
        data[i] := frame[i];
      }
    }

    static method Clear(data: array<Byte>)
      modifies data
      ensures Zeroed(data[..])
    {
      for i := 0 to data.Length
        invariant forall k :: 0 <= k < i ==> data[k] == 0
      {
        data[i] := 0;
      }
    }

    // buffer_release: zeroed, and back on top of the free list.
    method Release(node: Buffer)
      requires Valid() && node in nodes && node.state == BufferUser
      modifies this`freeList, this`free, node, node.data
      ensures Valid()
      ensures free == [node] + old(free) && node.state == BufferFree
      ensures forall b <- nodes :: b != node ==> b.data[..] == old(b.data[..])
    {
      Clear(node.data);
      node.state := BufferFree;
      node.bytes := 0;
      node.next := freeList;
      freeList := node;
      free := [node] + free;
    }

    ghost function InState(st: BufferState): set<Buffer>
      reads nodes
    {
      set b <- nodes | b.state == st
    }

    lemma ReadyHead()
      requires Valid()
      ensures readyList == null <==> ready == []
    {
    }

    lemma ReadyAreNodes()
      requires Valid()
      ensures forall b <- ready :: b in nodes && b.data in Arrays()
    {
    }

    lemma ListsAreStates()
      requires Valid()
      ensures InState(BufferFree) == Elements(free) && InState(BufferReady) == Elements(ready)
    {
      hide Chain, Zeroed, Distinct;
    }

    lemma StatesCover()
      ensures Elements(nodes) == InState(BufferFree) + InState(BufferPending) + InState(BufferReady) + InState(BufferUser)
    {
    }

    // The four states split the pool, and two of them are the lists.
    lemma StatesPartitionPool()
      requires Valid()
      ensures |InState(BufferFree)| == |free| && |InState(BufferReady)| == |ready|
      ensures |InState(BufferFree)| + |InState(BufferPending)| + |InState(BufferReady)| + |InState(BufferUser)| == |nodes|
    {
      ListsAreStates();
      assert Distinct(nodes) && Distinct(free) && Distinct(ready);
      hide Distinct, Chain, Zeroed;
      DistinctCount(free);
      DistinctCount(ready);
      DistinctCount(nodes);
      StatesCover();
      SumOfParts(InState(BufferFree), InState(BufferPending), InState(BufferReady), InState(BufferUser));
    }
  }

  lemma SumOfParts<T>(a: set<T>, b: set<T>, c: set<T>, d: set<T>)
    requires a !! b !! c !! d
    ensures |a + b + c + d| == |a| + |b| + |c| + |d|
  {
  }

  ghost function Elements(s: seq<Buffer>): set<Buffer> {
    set b <- s
  }

  lemma {:induction false} DistinctCount(s: seq<Buffer>)
    requires Distinct(s)
    ensures |Elements(s)| == |s|
  {
    if s != [] {
      DistinctCount(s[1..]);
      assert Elements(s) == {s[0]} + Elements(s[1..]);
    }
  }
}
