// The earlier arena and list of `src/shared/std.h`. Here the arena is a
// doubly linked chain of chunks, and every chunk keeps a `lastChunk`
// pointer to the newest chunk, so an allocation through any chunk of the
// chain lands in the newest one. The chain is the sequence `nodes` (chunk i
// has `prevChunk` i - 1 and `nextChunk` i + 1); `lastChunk` is stored as an
// index. Addresses are not modelled: an allocation is identified by the
// index of its chunk and its offset within that chunk.

module StdArena {

  /** DEFAULT_ARENA_SIZE: 16 MiB. */
  const DefaultArenaSize: nat := 16 * 1024 * 1024

  datatype Node = Node(capacity: nat, used: nat, last: nat)

  /** Bytes handed out over all chunks. */
  function Used(ns: seq<Node>): nat
  {
    if ns == [] then 0 else Used(ns[..|ns| - 1]) + ns[|ns| - 1].used
  }

  /** Changing only the `used` of the newest chunk changes the total by the same amount. */
  lemma {:induction false} UsedOfNewest(ns: seq<Node>, ms: seq<Node>)
    requires ns != [] && |ms| == |ns| && ms[..|ms| - 1] == ns[..|ns| - 1]
    ensures Used(ms) + ns[|ns| - 1].used == Used(ns) + ms[|ms| - 1].used
  {
  }

  /** Repointing `last` does not change what has been handed out. */
  lemma {:induction false} UsedIgnoresLinks(ns: seq<Node>, ms: seq<Node>)
    requires |ns| == |ms|
    requires forall i :: 0 <= i < |ns| ==> ns[i].used == ms[i].used
    ensures Used(ns) == Used(ms)
  {
    if ns != [] {
      UsedIgnoresLinks(ns[..|ns| - 1], ms[..|ms| - 1]);
    }
  }

  class ChunkedArena {
    var nodes: seq<Node>

    /** A non-empty chain, each chunk within its capacity, every `lastChunk` at the newest chunk. */
    ghost predicate Valid()
      reads this
    {
      nodes != [] &&
      (forall i :: 0 <= i < |nodes| ==> nodes[i].used <= nodes[i].capacity) &&
      (forall i :: 0 <= i < |nodes| ==> nodes[i].last == |nodes| - 1)
    }

    /** Room left in the newest chunk. */
    function Room(): nat
      reads this
      requires Valid()
    {
      nodes[|nodes| - 1].capacity - nodes[|nodes| - 1].used
    }

    /** `Arena::create`: one zeroed chunk of `chunkSize` bytes that is its own last chunk. */
    constructor Create(chunkSize: nat)
      ensures Valid() && nodes == [Node(chunkSize, 0, 0)]
    {
      nodes := [Node(chunkSize, 0, 0)];
    }

    /**
     * `Arena::enlarge`: links a new empty chunk after the newest one, then
     * walks the `prevChunk` links back from it, pointing every chunk's
     * `lastChunk` at the new chunk.
     */
    method Enlarge(chunkSize: nat)
      requires Valid()
      modifies this
      ensures Valid()
      ensures |nodes| == |old(nodes)| + 1
      ensures nodes[|nodes| - 1] == Node(chunkSize, 0, |old(nodes)|)
      ensures forall i :: 0 <= i < |old(nodes)| ==>
        nodes[i].capacity == old(nodes)[i].capacity && nodes[i].used == old(nodes)[i].used
    {
      var n := |nodes|;
      nodes := nodes + [Node(chunkSize, 0, n)];
      var current := n;
      while current > 0
        invariant 0 <= current <= n && |nodes| == n + 1
        invariant nodes[n] == Node(chunkSize, 0, n)
        invariant forall i :: 0 <= i < n ==>
          nodes[i].capacity == old(nodes)[i].capacity && nodes[i].used == old(nodes)[i].used
        invariant forall i :: current <= i <= n ==> nodes[i].last == n
      {
        current := current - 1;
        nodes := nodes[current := nodes[current].(last := n)];
      }
    }

    /**
     * `Arena::allocate` called through chunk `via`: when the chunk that
     * `via` names as last has less room than `size`, a chunk of
     * max(DEFAULT_ARENA_SIZE, size) bytes is linked first; the bytes are
     * then taken from the (new) last chunk, whose `used` grows by `size`.
     * The "[Impossible]" abort after enlarging cannot be reached.
     */
    method Allocate(via: nat, size: nat) returns (chunk: nat, offset: nat)
      requires Valid() && via < |nodes|
      modifies this
      ensures Valid()
      ensures Used(nodes) == Used(old(nodes)) + size
      ensures chunk == |nodes| - 1
      ensures old(Room()) >= size ==>
        chunk == |old(nodes)| - 1 && offset == old(nodes)[chunk].used &&
        nodes == old(nodes)[chunk := old(nodes)[chunk].(used := offset + size)]
      ensures old(Room()) < size ==>
        chunk == |old(nodes)| && offset == 0 &&
        nodes[chunk] == Node(if size > DefaultArenaSize then size else DefaultArenaSize, size, chunk)
    {
      var last := nodes[via].last;
      ghost var before := nodes;
      if nodes[last].capacity - nodes[last].used < size {
        Enlarge(if size > DefaultArenaSize then size else DefaultArenaSize);
      }
      last := nodes[last].last;
      if nodes[last].capacity - nodes[last].used < size {
        assert false;
      }
      ghost var linked := nodes;
      UsedIgnoresLinks(before, linked[..|before|]);
      assert linked[..|linked| - 1] == linked[..|before|] || |linked| == |before|;
      chunk := last;
      offset := nodes[last].used;
      nodes := nodes[last := nodes[last].(used := offset + size)];
      UsedOfNewest(linked, nodes);
      if |linked| == |before| + 1 {
        assert linked[..|linked| - 1] == linked[..|before|];
      }
    }

    /**
     * `FreeArena`: walks `prevChunk` back from any chunk to the first (the
     * one without a `prevChunk`), then frees the chunks one by one along
     * `nextChunk`, oldest first.
     */
    method Free(via: nat)
      requires Valid() && via < |nodes|
      modifies this
      ensures nodes == []
    {
      var first := via;
      while first > 0
        invariant 0 <= first <= via < |nodes|
      {
        first := first - 1;
      }
      nodes := nodes[first..];
      while nodes != []
        invariant nodes == old(nodes)[|old(nodes)| - |nodes|..]
        decreases |nodes|
      {
        nodes := nodes[1..];
      }
    }
  }

  /**
   * `c_str`: `length + 1` arena bytes holding the string and a NUL that the
   * function writes itself.
   */
  method CStr(arena: ChunkedArena, s: string) returns (r: string)
    requires arena.Valid()
    modifies arena
    ensures arena.Valid()
    ensures |r| == |s| + 1 && r[..|s|] == s && r[|s|] == '\0'
    ensures Used(arena.nodes) == Used(old(arena.nodes)) + |s| + 1
  {
    var chunk, offset := arena.Allocate(0, |s| + 1);
    r := s + ['\0'];
    assert r[..|s|] == s;
  }

  /** `String::concat`: `a` then `b` in `a.length + b.length + 1` fresh arena bytes. */
  method Concat(arena: ChunkedArena, a: string, b: string) returns (r: string)
    requires arena.Valid()
    modifies arena
    ensures arena.Valid()
    ensures r == a + b
    ensures Used(arena.nodes) == Used(old(arena.nodes)) + |a| + |b| + 1
  {
    var chunk, offset := arena.Allocate(0, |a| + |b| + 1);
    r := a + b;
  }

  /**
   * `List<T>` of std.h: the chain of elements is `items`, and `length` is
   * the field that is supposed to count them.
   */
  class StdList<T> {
    var items: seq<T>
    var length: nat

    ghost predicate Valid()
      reads this
    {
      length == |items|
    }

    /** `List::create`: no elements, length 0. */
    constructor Create()
      ensures Valid() && items == []
    {
      items := [];
      length := 0;
    }

    /**
     * `List::push` as written: walks to the last element, links a new
     * element (of `nodeSize` arena bytes) after it, and leaves `length` as it was.
     */
    method PushAsWritten(arena: ChunkedArena, nodeSize: nat, e: T)
      requires arena.Valid()
      modifies this, arena
      ensures arena.Valid() && Used(arena.nodes) == Used(old(arena.nodes)) + nodeSize
      ensures items == old(items) + [e] && length == old(length)
    {
      var tail := 0;
      while tail + 1 < |items|
        invariant items == [] || tail < |items|
      {
        tail := tail + 1;
      }
      assert items == [] || tail == |items| - 1;
      var chunk, offset := arena.Allocate(0, nodeSize);
      items := items + [e];
    }

    /** `List::push` as evidently intended: the element is linked at the tail and counted. */
    method Push(arena: ChunkedArena, nodeSize: nat, e: T)
      requires arena.Valid() && Valid()
      modifies this, arena
      ensures arena.Valid() && Used(arena.nodes) == Used(old(arena.nodes)) + nodeSize
      ensures Valid() && items == old(items) + [e]
    {
      PushAsWritten(arena, nodeSize, e);
      length := length + 1;
    }

    /** `List::pop`: its body is commented out, so it changes nothing. */
    method Pop()
      ensures items == old(items) && length == old(length)
    {
    }
  }

  /**
   * Pushing one element onto a new list with the push as written leaves a
   * list that holds one element but reports length 0.
   */
  method PushAsWrittenMiscounts() returns (length: nat, count: nat)
    ensures length == 0 && count == 1
  {
    var arena := new ChunkedArena.Create(DefaultArenaSize);
    var list := new StdList<int>.Create();
    list.PushAsWritten(arena, 16, 7);
    length := list.length;
    count := |list.items|;
  }

  /** With the corrected push, every push is counted. */
  method PushCounts() returns (length: nat, count: nat)
    ensures length == 2 && count == 2
  {
    var arena := new ChunkedArena.Create(DefaultArenaSize);
    var list := new StdList<int>.Create();
    list.Push(arena, 16, 7);
    list.Push(arena, 16, 8);
    length := list.length;
    count := |list.items|;
  }
}
