/** `Buffer`: a list of byte chunks that stands for one flat byte string. */
module Buffers {
  import opened Common

  datatype Stage = Empty | Full | Receiving | Sending

  /** The abstract buffer: the flat bytes with the maximum size and the stage. */
  datatype View = View(bytes: Bytes, max: nat, stage: Stage)

  class Buffer {
    var chunks: seq<Bytes>
    var bufferMaxSize: nat
    var bufferSize: nat
    var stage: Stage

    function Flat(): Bytes
      reads this
    {
      Flatten(chunks)
    }

    function State(): View
      reads this
    {
      View(Flat(), bufferMaxSize, stage)
    }

    /** The size field is the length of the bytes held, empty chunks or not. */
    ghost predicate Valid()
      reads this
    {
      bufferSize == |Flat()|
    }

    constructor ()
      ensures Valid() && State() == View([], 0, Empty) && chunks == []
    {
      chunks, bufferMaxSize, bufferSize, stage := [], 0, 0, Empty;
    }

    method SetMaxSize(n: nat)
      modifies this`bufferMaxSize
      ensures State() == old(State()).(max := n)
    {
      bufferMaxSize := n;
    }

    method SetStage(s: Stage)
      modifies this`stage
      ensures State() == old(State()).(stage := s)
    {
      stage := s;
    }

    method PushFront(bytes: Bytes)
      requires Valid()
      modifies this`chunks, this`bufferSize
      ensures Valid() && State() == old(State()).(bytes := bytes + old(Flat()))
      ensures chunks == [bytes] + old(chunks)
    {
      bufferSize := bufferSize + |bytes|;
      chunks := [bytes] + chunks;
      assert chunks[1..] == old(chunks);
    }

    method PushBack(bytes: Bytes)
      requires Valid()
      modifies this`chunks, this`bufferSize
      ensures Valid() && State() == old(State()).(bytes := old(Flat()) + bytes)
      ensures chunks == old(chunks) + [bytes]
    {
      FlattenAppend(chunks, [bytes]);
      assert Flatten([bytes]) == bytes + Flatten([]) == bytes;
      bufferSize := bufferSize + |bytes|;
      chunks := chunks + [bytes];
    }

    /** The first chunk, which may be empty; nothing (an exception in the source) without bytes. */
    method PopChunk() returns (r: Option<Bytes>)
      requires Valid()
      modifies this`chunks, this`bufferSize
      ensures Valid()
      ensures r.None? <==> old(Flat()) == []
      ensures r.None? ==> State() == old(State()) && chunks == old(chunks)
      ensures r.Some? ==> old(chunks) != [] && r.value == old(chunks)[0] && chunks == old(chunks)[1..]
      ensures r.Some? ==> old(State()) == State().(bytes := r.value + Flat())
    {
      if bufferSize == 0 {
        return None;
      }
      var bytes := chunks[0];
      chunks := chunks[1..];
      bufferSize := bufferSize - |bytes|;
      r := Some(bytes);
    }

    /** Exactly the first n bytes, however they are cut into chunks; nothing (an exception in the
        source) when there are fewer. */
    method Pop(n: nat) returns (r: Option<Bytes>)
      requires Valid()
      modifies this`chunks, this`bufferSize
      ensures Valid()
      ensures r.None? <==> n > |old(Flat())|
      ensures r.None? ==> State() == old(State()) && chunks == old(chunks)
      ensures r.Some? ==> r.value == old(Flat())[..n] && State() == old(State()).(bytes := old(Flat())[n..])
    {
      if n > bufferSize {
        return None;
      }
      var returned := new Byte[n];
      var left := n;
      ghost var flat := Flat();
      while left > 0
        invariant 0 <= left <= n && fresh(returned) && returned.Length == n
        invariant left <= |Flat()| && flat == returned[..n - left] + Flat()
        invariant bufferMaxSize == old(bufferMaxSize) && stage == old(stage) && bufferSize == old(bufferSize)
        modifies this`chunks, returned
        decreases left, |chunks|
      {
        ghost var done, rest := returned[..n - left], Flat();
        var taken := TakeFront(returned, n - left, left);
        MovesOver(flat, done, rest, taken);
        left := left - taken;
      }
      assert returned[..n] == returned[..];
      SplitsAt(flat, returned[..], Flat());
      bufferSize := bufferSize - n;
      r := Some(returned[..]);
    }

    /** Bytes move from the front of what is left to the end of what is done. */
    static lemma MovesOver(flat: Bytes, done: Bytes, rest: Bytes, taken: nat)
      requires flat == done + rest && taken <= |rest|
      ensures flat == (done + rest[..taken]) + rest[taken..]
    {
      assert rest == rest[..taken] + rest[taken..];
    }

    static lemma SplitsAt(flat: Bytes, front: Bytes, back: Bytes)
      requires flat == front + back
      ensures flat[..|front|] == front && flat[|front|..] == back
    {
    }

    /** One round of `pop`: uses up the front chunk, or its first `left` bytes when it is longer. */
    method TakeFront(target: array<Byte>, at: nat, left: nat) returns (taken: nat)
      requires 0 < left <= |Flat()| && at + left <= target.Length
      modifies this`chunks, target
      ensures taken <= left && (taken == left || |chunks| < |old(chunks)|)
      ensures taken == 0 ==> |chunks| < |old(chunks)|
      ensures target[..at + taken] == old(target[..at]) + old(Flat())[..taken]
      ensures Flat() == old(Flat())[taken..]
    {
      var front := chunks[0];
      ghost var before, tail := target[..at], Flatten(chunks[1..]);
      assert Flat() == front + tail;
      if |front| <= left {
        taken := |front|;
        CopyInto(target, at, front, taken);
        chunks := chunks[1..];
        assert front + tail == front[..taken] + tail;
      } else {
        taken := left;
        CopyInto(target, at, front, taken);
        chunks := [front[taken..]] + chunks[1..];
        assert chunks[1..] == old(chunks)[1..];
        assert (front + tail)[taken..] == front[taken..] + tail;
      }
      assert (front + tail)[..taken] == front[..taken];
      assert target[..at + taken] == target[..at] + target[at..at + taken];
    }

    /** The copying loops of `pop`: the first `count` bytes of `source`, from position `at` on. */
    static method CopyInto(target: array<Byte>, at: nat, source: Bytes, count: nat)
      requires at + count <= target.Length && count <= |source|
      modifies target
      ensures target[..at] == old(target[..at])
      ensures target[at..at + count] == source[..count]
      ensures target[at + count..] == old(target[at + count..])
    {
      var i := 0;
      while i < count
        invariant 0 <= i <= count
        invariant target[..at] == old(target[..at])
        invariant forall k :: 0 <= k < i ==> target[at + k] == source[k]
        invariant target[at + count..] == old(target[at + count..])
      {
        target[at + i] := source[i];
        i := i + 1;
      }
    }

    method PopAll() returns (bytes: Bytes)
      requires Valid()
      modifies this`chunks, this`bufferSize
      ensures Valid() && bytes == old(Flat()) && State() == old(State()).(bytes := [])
    {
      var r := Pop(bufferSize);
      bytes := r.value;
    }
  }
}
