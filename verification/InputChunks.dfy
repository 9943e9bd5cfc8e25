/** How a node's task takes the next chunk of inputs from the end of its list: up to the chunk size
    and the byte limit, putting back an input that does not fit. */
module InputChunks {
  import opened JobTypes

  const MAX_INPUT_SIZE_BYTES: nat := 200_000_000
  const MAX_CHUNK_SIZE_BYTES: nat := 2_000_000

  class InputList {
    var items: seq<Input>

    constructor (items: seq<Input>)
      ensures this.items == items
    {
      this.items := items;
    }
  }

  /** Pickled size of the first `k` inputs to be popped. */
  function ChunkBytes(pending: seq<Input>, k: nat): nat
    requires k <= |pending|
  {
    if k == 0 then 0 else ChunkBytes(pending, k - 1) + |pending[k - 1].pkl|
  }

  /** The loop ends with a chunk of `count` inputs, or fails at the input after `count` others. */
  datatype Stop = Chunk(count: nat) | TooBig(count: nat)

  function ChunkStop(pending: seq<Input>, size: nat, taken: nat): (stop: Stop)
    requires taken <= |pending|
    ensures taken <= stop.count <= |pending|
    ensures stop.TooBig? ==> stop.count < |pending|
    decreases |pending| - taken
  {
    if taken == |pending| || taken >= size then Chunk(taken)
    else if |pending[taken].pkl| > MAX_INPUT_SIZE_BYTES then TooBig(taken)
    else if taken > 0 && ChunkBytes(pending, taken) + |pending[taken].pkl| > MAX_CHUNK_SIZE_BYTES then Chunk(taken)
    else ChunkStop(pending, size, taken + 1)
  }

  /** A chunk is as long as it may be and keeps both limits; a list that is not empty always gives
      at least one input; the loop fails only at an input over the input limit. */
  lemma {:induction false} ChunkIsLargest(pending: seq<Input>, size: nat, taken: nat)
    requires taken <= |pending| && (taken <= 1 || ChunkBytes(pending, taken) <= MAX_CHUNK_SIZE_BYTES) && taken <= size
    ensures var stop := ChunkStop(pending, size, taken);
            var k := stop.count;
            && k <= size && (k <= 1 || ChunkBytes(pending, k) <= MAX_CHUNK_SIZE_BYTES)
            && (forall j :: taken <= j < k ==> |pending[j].pkl| <= MAX_INPUT_SIZE_BYTES)
            && (stop.TooBig? ==> |pending[k].pkl| > MAX_INPUT_SIZE_BYTES)
            && (stop.Chunk? && k < |pending| && k < size ==> k > 0 && ChunkBytes(pending, k + 1) > MAX_CHUNK_SIZE_BYTES)
    decreases |pending| - taken
  {
    if taken < |pending| && taken < size && |pending[taken].pkl| <= MAX_INPUT_SIZE_BYTES
       && !(taken > 0 && ChunkBytes(pending, taken) + |pending[taken].pkl| > MAX_CHUNK_SIZE_BYTES) {
      ChunkIsLargest(pending, size, taken + 1);
    }
  }

  lemma {:induction false} ChunkBytesAreTotal(pending: seq<Input>, k: nat)
    requires k <= |pending|
    ensures ChunkBytes(pending, k) == TotalBytes(pending[..k])
  {
    if k > 0 {
      ChunkBytesAreTotal(pending, k - 1);
      TotalBytesAppend(pending[..k - 1], pending[k - 1]);
      assert pending[..k] == pending[..k - 1] + [pending[k - 1]];
    }
  }

  /** Inputs that can go in one chunk: `size` at most, no more than 2 MB unless it is a single one, and none
      over 200 MB. */
  predicate FitsChunk(chunk: seq<Input>, size: nat) {
    && |chunk| <= size && (|chunk| <= 1 || TotalBytes(chunk) <= 2_000_000)
    && (forall k :: 0 <= k < |chunk| ==> |chunk[k].pkl| <= 200_000_000)
  }

  /** The next chunk of what is pending: it fits, and the input after it does not go beside it. */
  predicate IsNextChunk(pending: seq<Input>, chunk: seq<Input>, left: seq<Input>, size: nat) {
    && pending == chunk + left && FitsChunk(chunk, size)
    && (left != [] && |chunk| < size ==>
          chunk != [] && |left[0].pkl| <= 200_000_000 && TotalBytes(chunk) + |left[0].pkl| > 2_000_000)
  }

  /** The loop comes upon an input over 200 MB while the chunk is still short. */
  predicate MeetsTooBig(pending: seq<Input>, size: nat, k: nat) {
    k < |pending| && k < size && FitsChunk(pending[..k], size) && |pending[k].pkl| > 200_000_000
  }

  lemma StopFits(pending: seq<Input>, size: nat)
    ensures FitsChunk(pending[..ChunkStop(pending, size, 0).count], size)
  {
    ChunkIsLargest(pending, size, 0);
    ChunkBytesAreTotal(pending, ChunkStop(pending, size, 0).count);
  }

  lemma StopIsNextChunk(pending: seq<Input>, size: nat, chunk: seq<Input>, left: seq<Input>)
    requires pending == chunk + left && ChunkStop(pending, size, 0) == Chunk(|chunk|)
    ensures IsNextChunk(pending, chunk, left, size)
  {
    var k := |chunk|;
    assert pending[..k] == chunk;
    StopFits(pending, size);
    if left != [] && k < size {
      ChunkIsLargest(pending, size, 0);
      StopsInside(pending, size, 0);
      ChunkBytesAreTotal(pending, k);
      assert pending[k] == left[0];
    }
  }

  lemma StopIsTooBig(pending: seq<Input>, size: nat, k: nat)
    requires k <= |pending| && ChunkStop(pending, size, 0) == TooBig(k)
    ensures MeetsTooBig(pending, size, k)
  {
    StopFits(pending, size);
    ChunkIsLargest(pending, size, 0);
    StopsInside(pending, size, 0);
  }

  lemma {:induction false} StopsInside(pending: seq<Input>, size: nat, taken: nat)
    requires taken <= |pending|
    ensures var stop := ChunkStop(pending, size, taken);
            && (stop.TooBig? ==> stop.count < size)
            && (stop.Chunk? && stop.count < |pending| && stop.count < size ==> |pending[stop.count].pkl| <= 200_000_000)
    decreases |pending| - taken
  {
    if taken < |pending| && taken < size && |pending[taken].pkl| <= MAX_INPUT_SIZE_BYTES
       && !(taken > 0 && ChunkBytes(pending, taken) + |pending[taken].pkl| > MAX_CHUNK_SIZE_BYTES) {
      StopsInside(pending, size, taken + 1);
    }
  }

  lemma Shift(a: seq<Input>, x: Input, b: seq<Input>)
    ensures a + ([x] + b) == (a + [x]) + b
    ensures |a + ([x] + b)| > |a| && (a + ([x] + b))[|a|] == x
  {
  }

  lemma MoveLast(pending: seq<Input>, chunk: seq<Input>, items: seq<Input>)
    requires items != [] && pending == chunk + Reverse(items)
    ensures var n := |items| - 1;
            && |chunk| < |pending| && pending[|chunk|] == items[n]
            && pending == (chunk + [items[n]]) + Reverse(items[..n])
  {
    var n := |items| - 1;
    PutBack(items);
    ReverseAppend(items[..n], items[n]);
    Shift(chunk, items[n], Reverse(items[..n]));
  }

  lemma PutBack(items: seq<Input>)
    requires items != []
    ensures items[..|items| - 1] + [items[|items| - 1]] == items
  {
  }

  lemma ChunkTaken(pending: seq<Input>, chunk: seq<Input>, items: seq<Input>)
    requires pending == chunk + Reverse(items)
    ensures chunk == pending[..|chunk|] && Reverse(items) == pending[|chunk|..]
  {
  }

  /** `pending` is what was on the list, `left` what is still. */
  ghost predicate ChunkAnswer(pending: seq<Input>, size: nat, chunk: seq<Input>, left: seq<Input>, tooBig: Option<nat>) {
    && (tooBig.None? ==> IsNextChunk(pending, chunk, left, size))
    && (tooBig.Some? ==> exists k: nat :: MeetsTooBig(pending, size, k) && pending[k].index == tooBig.value)
  }

  lemma StopIsAnswer(pending: seq<Input>, size: nat, chunk: seq<Input>, left: seq<Input>, tooBig: Option<nat>)
    requires var stop := ChunkStop(pending, size, 0);
             if stop.TooBig? then tooBig == Some(pending[stop.count].index)
             else tooBig.None? && chunk == pending[..stop.count] && left == pending[stop.count..]
    ensures ChunkAnswer(pending, size, chunk, left, tooBig)
  {
    var stop := ChunkStop(pending, size, 0);
    if stop.TooBig? {
      StopIsTooBig(pending, size, stop.count);
    } else {
      StopIsNextChunk(pending, size, chunk, left);
    }
  }

  /** Takes the next chunk off the list, or reports the position of an input that is too big. */
  method NextChunk(list: InputList, size: nat) returns (chunk: seq<Input>, tooBig: Option<nat>)
    modifies list
    ensures ChunkAnswer(Reverse(old(list.items)), size, chunk, Reverse(list.items), tooBig)
  {
    ghost var pending := Reverse(list.items);
    chunk, tooBig := PopInputs(list, size);
    StopIsAnswer(pending, size, chunk, Reverse(list.items), tooBig);
  }

  /** The loop itself, to where ChunkStop says that it stops. */
  method PopInputs(list: InputList, size: nat) returns (chunk: seq<Input>, tooBig: Option<nat>)
    modifies list
    ensures var pending := Reverse(old(list.items));
            var stop := ChunkStop(pending, size, 0);
            if stop.TooBig? then tooBig == Some(pending[stop.count].index)
            else tooBig.None? && chunk == pending[..stop.count] && Reverse(list.items) == pending[stop.count..]
  {
    ghost var pending := Reverse(list.items);
    var bytes: nat, full := 0, false;
    chunk := [];
    while list.items != [] && |chunk| < size && !full
      invariant pending == chunk + Reverse(list.items)
      invariant |chunk| <= |pending| && bytes == ChunkBytes(pending, |chunk|)
      invariant ChunkStop(pending, size, 0) == if full then Chunk(|chunk|) else ChunkStop(pending, size, |chunk|)
      decreases |list.items|, !full
    {
      MoveLast(pending, chunk, list.items);
      PutBack(list.items);
      var n := |list.items| - 1;
      var input := list.items[n];
      list.items := list.items[..n];
      if |input.pkl| > MAX_INPUT_SIZE_BYTES {
        return chunk, Some(input.index);
      }
      if chunk != [] && bytes + |input.pkl| > MAX_CHUNK_SIZE_BYTES {
        list.items := list.items + [input];
        full := true;
      } else {
        chunk := chunk + [input];
        bytes := bytes + |input.pkl|;
      }
    }
    ChunkTaken(pending, chunk, list.items);
    tooBig := None;
  }
}
