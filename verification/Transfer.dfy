/** Contents in chunks: what an upload appends to a part, and what a download writes to
    the caller's buffer. */
module Transfer {
  import opened Base

  /** The bytes of the first `n` chunks. */
  function Prefix(chunks: seq<Bytes>, n: nat): Bytes
    requires n <= |chunks|
  {
    if n == 0 then [] else Prefix(chunks, n - 1) + chunks[n - 1]
  }

  function Flatten(chunks: seq<Bytes>): Bytes {
    Prefix(chunks, |chunks|)
  }

  lemma {:induction false} PrefixGrows(chunks: seq<Bytes>, m: nat, n: nat)
    requires m <= n <= |chunks|
    ensures Prefix(chunks, m) <= Prefix(chunks, n)
    decreases n
  {
    if m < n {
      PrefixGrows(chunks, m, n - 1);
    }
  }

  // Uploading

  /** How many chunks the content-length loop reads: it stops at the first prefix that
      reaches the length, or runs out of chunks. */
  ghost predicate StopsAfter(chunks: seq<Bytes>, contentLength: nat, n: nat) {
    && n <= |chunks|
    && (forall m :: 0 <= m < n ==> |Prefix(chunks, m)| < contentLength)
    && (n < |chunks| ==> |Prefix(chunks, n)| >= contentLength)
  }

  /** A body of exactly the announced length is taken whole, whatever its chunks. */
  lemma ExactBodyIsTaken(chunks: seq<Bytes>, contentLength: nat, n: nat)
    requires StopsAfter(chunks, contentLength, n) && |Flatten(chunks)| == contentLength
    ensures Prefix(chunks, n) == Flatten(chunks)
  {
    PrefixGrows(chunks, n, |chunks|);
  }

  // Downloading into a buffer

  /** The conversion of an integer to C++'s 32-bit `int`. */
  function ToInt32(n: int): int {
    var m := n % 0x1_0000_0000;
    if m < 0x8000_0000 then m else m - 0x1_0000_0000
  }

  /** `index += chunk.size()`: added as a 64-bit unsigned number, stored as an `int`. */
  function AddSize(index: int, size: nat): int {
    ToInt32((index % 0x1_0000_0000_0000_0000 + size) % 0x1_0000_0000_0000_0000)
  }

  /** The value of `index` when chunk `i` arrives. */
  function IndexAt(chunks: seq<Bytes>, i: nat): int
    requires i <= |chunks|
  {
    if i == 0 then 0 else AddSize(IndexAt(chunks, i - 1), |chunks[i - 1]|)
  }

  lemma AddSizeWraps(offset: nat, size: nat)
    ensures AddSize(ToInt32(offset), size) == ToInt32(offset + size)
  {
    var index := ToInt32(offset);
    Drop64(index % 0x1_0000_0000_0000_0000 + size);
    Move64(index, size);
    SameInt32(offset + size, index + size, Turns(offset));
  }

  /** How often a conversion to `int` has wrapped. */
  function Turns(n: int): (k: int)
    ensures n == ToInt32(n) + k * 0x1_0000_0000
  {
    n / 0x1_0000_0000 + (if n % 0x1_0000_0000 < 0x8000_0000 then 0 else 1)
  }

  /** A detour through 64 bits does not show in 32. */
  lemma Drop64(n: int)
    ensures ToInt32(n % 0x1_0000_0000_0000_0000) == ToInt32(n)
  {
    var k := n / 0x1_0000_0000_0000_0000;
    SameInt32(n, n % 0x1_0000_0000_0000_0000, k * 0x1_0000_0000);
  }

  lemma Move64(index: int, size: nat)
    ensures ToInt32(index % 0x1_0000_0000_0000_0000 + size) == ToInt32(index + size)
  {
    var k := index / 0x1_0000_0000_0000_0000;
    SameInt32(index + size, index % 0x1_0000_0000_0000_0000 + size, k * 0x1_0000_0000);
  }

  lemma SameInt32(a: int, b: int, k: int)
    requires a == b + k * 0x1_0000_0000
    ensures ToInt32(a) == ToInt32(b)
  {
  }

  lemma ToInt32Exact(n: nat)
    ensures ToInt32(n) == n <==> n < 0x8000_0000
  {
  }

  lemma {:induction false} IndexIsWrappedOffset(chunks: seq<Bytes>, i: nat)
    requires i <= |chunks|
    ensures IndexAt(chunks, i) == ToInt32(|Prefix(chunks, i)|)
  {
    if i > 0 {
      IndexIsWrappedOffset(chunks, i - 1);
      AddSizeWraps(|Prefix(chunks, i - 1)|, |chunks[i - 1]|);
    }
  }

  /** A chunk is written where it belongs exactly when it starts below 2 GiB. */
  lemma IndexIsOffsetExactly(chunks: seq<Bytes>, i: nat)
    requires i <= |chunks|
    ensures IndexAt(chunks, i) == |Prefix(chunks, i)| <==> |Prefix(chunks, i)| < 0x8000_0000
  {
    IndexIsWrappedOffset(chunks, i);
    ToInt32Exact(|Prefix(chunks, i)|);
  }

  /** Each of the first `n` chunks that has bytes starts where a 32-bit index can reach. */
  ghost predicate WithinReach(chunks: seq<Bytes>, n: nat)
    requires n <= |chunks|
  {
    n == 0 || (WithinReach(chunks, n - 1) && (chunks[n - 1] == [] || |Prefix(chunks, n - 1)| < 0x8000_0000))
  }

  lemma {:induction false} OutOfReach(chunks: seq<Bytes>, m: nat, n: nat)
    requires m <= n <= |chunks| && WithinReach(chunks, n)
    ensures WithinReach(chunks, m)
    decreases n
  {
    if m < n {
      OutOfReach(chunks, m, n - 1);
    }
  }

  /** Objects of up to 2 GiB are always within reach. */
  lemma {:induction false} SmallIsWithinReach(chunks: seq<Bytes>, n: nat)
    requires n <= |chunks| && |Flatten(chunks)| <= 0x8000_0000
    ensures WithinReach(chunks, n)
  {
    if n > 0 {
      SmallIsWithinReach(chunks, n - 1);
      PrefixGrows(chunks, n, |chunks|);
    }
  }

  /** A buffer with some of its bytes replaced, from an index on. */
  function Overwritten(buffer: Bytes, index: nat, data: Bytes): Bytes
    requires index + |data| <= |buffer|
  {
    buffer[..index] + data + buffer[index + |data|..]
  }

  /** The buffer after `n` chunks were copied to where `index` says, right or wrong; nothing
      once a copy has left the buffer, from where on the effect is undefined. */
  function Copied(chunks: seq<Bytes>, n: nat, original: Bytes): Option<Bytes>
    requires n <= |chunks|
  {
    if n == 0 then
      Some(original)
    else
      match Copied(chunks, n - 1, original)
      case None => None
      case Some(buffer) => CopyChunk(buffer, IndexAt(chunks, n - 1), chunks[n - 1])
  }

  function CopyChunk(buffer: Bytes, index: int, data: Bytes): Option<Bytes> {
    if data == [] then Some(buffer)
    else if 0 <= index && index + |data| <= |buffer| then Some(Overwritten(buffer, index, data))
    else None
  }

  /** The buffer that is meant: the contents, and what was there behind them. */
  function Filled(data: Bytes, original: Bytes): Bytes
    requires |data| <= |original|
  {
    data + original[|data|..]
  }

  lemma FilledMore(filled: Bytes, data: Bytes, original: Bytes)
    requires |filled| + |data| <= |original|
    ensures Overwritten(Filled(filled, original), |filled|, data) == Filled(filled + data, original)
    ensures data == [] ==> filled + data == filled
  {
    var before := Filled(filled, original);
    assert before[..|filled|] == filled;
    assert before[|filled| + |data|..] == original[|filled| + |data|..];
  }

  /** Chunks within reach end up in order at the front of the buffer, which is unchanged
      behind them. */
  lemma {:induction false} CopiedInPlace(chunks: seq<Bytes>, n: nat, original: Bytes)
    requires n <= |chunks| && WithinReach(chunks, n) && |Prefix(chunks, n)| <= |original|
    ensures Copied(chunks, n, original) == Some(Filled(Prefix(chunks, n), original))
  {
    if n == 0 {
      assert Filled([], original) == original;
    } else {
      CopiedInPlace(chunks, n - 1, original);
      FilledMore(Prefix(chunks, n - 1), chunks[n - 1], original);
      IndexIsOffsetExactly(chunks, n - 1);
    }
  }

  /** A single chunk that is out of reach leaves the buffer, unless it starts at 4 GiB or
      beyond, which takes a chunk of more than 2 GiB before it. */
  lemma {:induction false} CopiedOutside(chunks: seq<Bytes>, n: nat, original: Bytes)
    requires n <= |chunks| && !WithinReach(chunks, n)
    requires forall i :: 0 <= i < n ==> |chunks[i]| <= 0x8000_0000
    ensures Copied(chunks, n, original) == None
  {
    if WithinReach(chunks, n - 1) {
      ReachedOffset(chunks, n - 1);
      IndexIsWrappedOffset(chunks, n - 1);
    } else {
      CopiedOutside(chunks, n - 1, original);
    }
  }

  lemma {:induction false} ReachedOffset(chunks: seq<Bytes>, n: nat)
    requires n <= |chunks| && WithinReach(chunks, n)
    requires forall i :: 0 <= i < n ==> |chunks[i]| <= 0x8000_0000
    ensures |Prefix(chunks, n)| < 0x1_0000_0000
  {
    if n > 0 {
      ReachedOffset(chunks, n - 1);
    }
  }

  /** With chunks of at most 2 GiB, a download into a buffer that can hold the object is
      right exactly when every non-empty chunk starts below 2 GiB, and otherwise undefined. */
  lemma CopiedExactly(chunks: seq<Bytes>, original: Bytes)
    requires |Flatten(chunks)| <= |original|
    requires forall i :: 0 <= i < |chunks| ==> |chunks[i]| <= 0x8000_0000
    ensures Copied(chunks, |chunks|, original)
         == if WithinReach(chunks, |chunks|) then Some(Filled(Flatten(chunks), original)) else None
  {
    if WithinReach(chunks, |chunks|) {
      CopiedInPlace(chunks, |chunks|, original);
    } else {
      CopiedOutside(chunks, |chunks|, original);
    }
  }

  /** The chunk callback of `get_object` into a buffer that can hold the object. It gives up
      at a copy that would leave the buffer. */
  method ReadIntoBuffer(chunks: seq<Bytes>, buffer: array<Byte>) returns (defined: bool)
    requires |Flatten(chunks)| <= buffer.Length
    modifies buffer
    ensures match Copied(chunks, |chunks|, old(buffer[..]))
            case Some(copied) => defined && buffer[..] == copied
            case None => !defined
    ensures WithinReach(chunks, |chunks|) ==> defined && buffer[..] == Filled(Flatten(chunks), old(buffer[..]))
  {
    var index: int := 0;
    ghost var original: Bytes := buffer[..];
    for i := 0 to |chunks|
      invariant index == IndexAt(chunks, i)
      invariant Copied(chunks, i, original) == Some(buffer[..])
    {
      var chunk := chunks[i];
      if chunk != [] {
        if index < 0 || index + |chunk| > buffer.Length {
          LostForGood(chunks, i + 1, |chunks|, original);
          if WithinReach(chunks, |chunks|) {
            CopiedInPlace(chunks, |chunks|, original);
          }
          return false;
        }
        CopyAt(buffer, index, chunk);
      }
      index := AddSize(index, |chunk|);
    }
    defined := true;
    if WithinReach(chunks, |chunks|) {
      CopiedInPlace(chunks, |chunks|, original);
    }
  }

  lemma {:induction false} LostForGood(chunks: seq<Bytes>, m: nat, n: nat, original: Bytes)
    requires m <= n <= |chunks| && Copied(chunks, m, original) == None
    ensures Copied(chunks, n, original) == None
    decreases n
  {
    if m < n {
      LostForGood(chunks, m, n - 1, original);
    }
  }

  /** `memcpy` to an index of the buffer. */
  method CopyAt(buffer: array<Byte>, index: nat, data: Bytes)
    requires index + |data| <= buffer.Length
    modifies buffer
    ensures buffer[..] == Overwritten(old(buffer[..]), index, data)
  {
    for k := 0 to |data|
      invariant buffer[..index] == old(buffer[..index])
      invariant buffer[index..index + k] == data[..k]
      invariant buffer[index + k..] == old(buffer[index + k..])
    {
      buffer[index + k] := data[k];
    }
    assert buffer[..] == buffer[..index] + buffer[index..index + |data|] + buffer[index + |data|..];
  }

  // Downloads that go astray

  /** An object of 2 GiB and one byte, in two chunks: the second copy leaves the buffer. */
  lemma TwoGigabytesAndOne(first: Bytes, x: Byte, original: Bytes)
    requires |first| == 0x8000_0000 && |original| > |first|
    ensures Flatten([first, [x]]) == first + [x]
    ensures IndexAt([first, [x]], 1) == -0x8000_0000
    ensures Copied([first, [x]], 2, original) == None
  {
    var chunks := [first, [x]];
    assert Prefix(chunks, 1) == [] + first == first;
    assert Prefix(chunks, 2) == first + [x];
    IndexIsWrappedOffset(chunks, 1);
    CopiedOutside(chunks, 2, original);
  }

  /** After a chunk of 4 GiB the next one overwrites the front of the buffer. */
  lemma FourGigabytesAndOne(first: Bytes, x: Byte, original: Bytes)
    requires |first| == 0x1_0000_0000 && |original| > |first|
    ensures Flatten([first, [x]]) == first + [x]
    ensures Copied([first, [x]], 2, original) == Some([x] + first[1..] + original[|first|..])
  {
    var chunks := [first, [x]];
    assert Prefix(chunks, 1) == [] + first == first;
    assert Prefix(chunks, 2) == first + [x];
    IndexIsWrappedOffset(chunks, 1);
    CopiedInPlace(chunks, 1, original);
    FrontOverwritten(first, x, original);
  }

  lemma FrontOverwritten(first: Bytes, x: Byte, original: Bytes)
    requires 0 < |first| <= |original|
    ensures CopyChunk(Filled(first, original), 0, [x]) == Some([x] + first[1..] + original[|first|..])
  {
    assert Overwritten(Filled(first, original), 0, [x]) == [x] + first[1..] + original[|first|..];
  }
}
