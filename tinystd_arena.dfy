// TinyStd's bump allocator (`ts::Arena`): a chain of chunks, each with a
// capacity and a count of bytes handed out. Allocation bumps the last chunk,
// appending a new chunk when it is too full; an arena made over a caller's
// buffer (a "stack arena") cannot grow and panics instead. `free` and
// `clearAndReinit` also appear, unchanged, in `src/shared/std.cpp`.
// Addresses are not modelled: an allocation is identified by its chunk and
// its offset within that chunk.

module TinyArena {
  import opened Wrappers

  /** DEFAULT_ARENA_SIZE: 16 MiB. */
  const DefaultArenaSize: nat := 16 * 1024 * 1024

  /** sizeof(ArenaChunk) on a 64-bit target: a pointer and two size_t. */
  const ChunkHeaderSize: nat := 24

  datatype Chunk = Chunk(capacity: nat, used: nat)

  /** Bytes handed out over all chunks. */
  function TotalUsed(cs: seq<Chunk>): nat
  {
    if cs == [] then 0 else TotalUsed(cs[..|cs| - 1]) + cs[|cs| - 1].used
  }

  /** Bumping the last chunk by `n` bytes adds `n` to the total. */
  lemma {:induction false} TotalUsedBumpLast(cs: seq<Chunk>, n: nat)
    requires cs != []
    ensures TotalUsed(cs[|cs| - 1 := cs[|cs| - 1].(used := cs[|cs| - 1].used + n)]) == TotalUsed(cs) + n
  {
    var bumped := cs[|cs| - 1 := cs[|cs| - 1].(used := cs[|cs| - 1].used + n)];
    assert bumped[..|bumped| - 1] == cs[..|cs| - 1];
  }

  /** Appending a chunk that already holds `c.used` bytes adds them to the total. */
  lemma {:induction false} TotalUsedAppend(cs: seq<Chunk>, c: Chunk)
    ensures TotalUsed(cs + [c]) == TotalUsed(cs) + c.used
  {
    assert (cs + [c])[..|cs + [c]| - 1] == cs;
  }

  /**
   * `Arena::createFromBuffer`: the check it makes on the buffer. None is the
   * panic for a buffer no larger than a chunk header; otherwise the chunk's
   * capacity is what remains after the header.
   */
  function BufferCapacity(bufferSize: nat): (r: Option<nat>)
    ensures r.None? <==> bufferSize <= ChunkHeaderSize
    ensures r.Some? ==> r.value + ChunkHeaderSize == bufferSize
  {
    if bufferSize <= ChunkHeaderSize then None else Some(bufferSize - ChunkHeaderSize)
  }

  class Arena {
    var chunks: seq<Chunk>
    var isStackArena: bool
    var initialized: bool

    /** Every chunk's `used` is within its capacity; an initialised arena has a first chunk. */
    ghost predicate Valid()
      reads this
    {
      (forall i :: 0 <= i < |chunks| ==> chunks[i].used <= chunks[i].capacity) &&
      (initialized ==> chunks != []) &&
      (!initialized ==> chunks == [] && !isStackArena)
    }

    /** Room left in the last chunk. */
    function Room(): nat
      reads this
      requires Valid() && chunks != []
    {
      chunks[|chunks| - 1].capacity - chunks[|chunks| - 1].used
    }

    /** `Arena::create`: one empty chunk of `chunkSize` bytes on the heap. */
    constructor Create(chunkSize: nat)
      ensures Valid() && chunks == [Chunk(chunkSize, 0)] && !isStackArena && initialized
    {
      chunks := [Chunk(chunkSize, 0)];
      isStackArena := false;
      initialized := true;
    }

    /** `Arena::createFromBuffer` once the buffer passed the size check. */
    constructor FromBuffer(capacity: nat)
      ensures Valid() && chunks == [Chunk(capacity, 0)] && isStackArena && initialized
    {
      chunks := [Chunk(capacity, 0)];
      isStackArena := true;
      initialized := true;
    }

    /**
     * `Arena::enlarge`: panics (ok false, nothing changed) for an
     * uninitialised or a stack arena; otherwise appends an empty chunk.
     */
    method Enlarge(chunkSize: nat) returns (ok: bool)
      requires Valid()
      modifies this
      ensures Valid()
      ensures ok <==> old(initialized) && !old(isStackArena)
      ensures ok ==> chunks == old(chunks) + [Chunk(chunkSize, 0)]
      ensures !ok ==> chunks == old(chunks)
      ensures isStackArena == old(isStackArena) && initialized == old(initialized)
    {
      if !initialized || isStackArena {
        return false;
      }
      chunks := chunks + [Chunk(chunkSize, 0)];
      return true;
    }

    /**
     * `Arena::allocate<T>(elementCount)` with `size = elementCount *
     * sizeof(T)`. Panics (ok false, nothing changed) when the arena is not
     * initialised, or when a stack arena's last chunk has too little room.
     * Otherwise the bytes come from the last chunk, after appending a chunk
     * of max(DEFAULT_ARENA_SIZE, size) bytes when it was too full, and the
     * total handed out grows by exactly `size`.
     */
    method Allocate(size: nat) returns (ok: bool, chunk: nat, offset: nat)
      requires Valid()
      modifies this
      ensures Valid()
      ensures ok <==> old(initialized) && (!old(isStackArena) || old(Room()) >= size)
      ensures !ok ==> chunks == old(chunks)
      ensures ok ==> TotalUsed(chunks) == TotalUsed(old(chunks)) + size
      ensures ok && old(Room()) >= size ==>
        chunk == |old(chunks)| - 1 && offset == old(chunks)[chunk].used &&
        chunks == old(chunks)[chunk := Chunk(old(chunks)[chunk].capacity, offset + size)]
      ensures ok && old(Room()) < size ==>
        chunk == |old(chunks)| && offset == 0 &&
        chunks == old(chunks) + [Chunk(if size > DefaultArenaSize then size else DefaultArenaSize, size)]
      ensures isStackArena == old(isStackArena) && initialized == old(initialized)
    {
      if !initialized {
        return false, 0, 0;
      }
      if Room() < size {
        if isStackArena {
          return false, 0, 0;
        }
        var grown := Enlarge(if size > DefaultArenaSize then size else DefaultArenaSize);
      }
      chunk := |chunks| - 1;
      offset := chunks[chunk].used;
      TotalUsedBumpLast(chunks, size);
      ghost var before := chunks;
      chunks := chunks[chunk := Chunk(chunks[chunk].capacity, offset + size)];
      if chunk == |old(chunks)| {
        assert before == old(chunks) + [before[chunk]];
        TotalUsedAppend(old(chunks), before[chunk]);
      }
      ok := true;
    }

    /** `Arena::free`: every chunk released, and the arena marked uninitialised. */
    method Free()
      modifies this
      ensures Valid() && chunks == [] && !isStackArena && !initialized
    {
      chunks := [];
      isStackArena := false;
      initialized := false;
    }

    /**
     * `Arena::clearAndReinit`: an uninitialised arena is created afresh with
     * the default size; otherwise only the first chunk is kept, emptied.
     */
    method ClearAndReinit()
      requires Valid()
      modifies this
      ensures Valid() && initialized && chunks != [] && TotalUsed(chunks) == 0
      ensures old(initialized) ==>
        chunks == [Chunk(old(chunks)[0].capacity, 0)] && isStackArena == old(isStackArena)
      ensures !old(initialized) ==> chunks == [Chunk(DefaultArenaSize, 0)] && !isStackArena
    {
      if !initialized {
        chunks := [Chunk(DefaultArenaSize, 0)];
        isStackArena := false;
        initialized := true;
      } else {
        chunks := [Chunk(chunks[0].capacity, 0)];
      }
      assert TotalUsed(chunks) == TotalUsed(chunks[..0]) + 0;
    }
  }

  /**
   * `String::concat`: allocates `a.length + b.length + 1` bytes and copies
   * `a` then `b` into them. A panicking allocation aborts the process (ok false).
   */
  method Concat(arena: Arena, a: string, b: string) returns (ok: bool, r: string)
    requires arena.Valid()
    modifies arena
    ensures arena.Valid()
    ensures ok ==> r == a + b && |r| == |a| + |b|
    ensures ok ==> TotalUsed(arena.chunks) == TotalUsed(old(arena.chunks)) + |a| + |b| + 1
    ensures !ok ==> arena.chunks == old(arena.chunks)
  {
    var granted, chunk, offset := arena.Allocate(|a| + |b| + 1);
    if !granted {
      return false, [];
    }
    return true, a + b;
  }

  /**
   * `String::c_str`: a clone of `s` into `length + 1` fresh arena bytes.
   * Arena memory starts zeroed (`calloc`, or the `memset` of a reset or of
   * a buffer arena), so the byte after the copy is the terminating NUL.
   */
  method CStr(arena: Arena, s: string) returns (ok: bool, r: string)
    requires arena.Valid()
    modifies arena
    ensures arena.Valid()
    ensures ok ==> |r| == |s| + 1 && r[..|s|] == s && r[|s|] == '\0'
    ensures ok ==> TotalUsed(arena.chunks) == TotalUsed(old(arena.chunks)) + |s| + 1
    ensures !ok ==> arena.chunks == old(arena.chunks)
  {
    var granted, chunk, offset := arena.Allocate(|s| + 1);
    if !granted {
      return false, [];
    }
    r := s + ['\0'];
    assert r[..|s|] == s;
    return true, r;
  }
}
