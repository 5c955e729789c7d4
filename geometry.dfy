/** Geometry helpers shared by every map component: splitting a flat pixel
    array into x,y pairs, clamping a value into an interval, the Manhattan
    distance and the inclusive box test. */
module Geometry {

  /** A point or a vector in map or screen space. */
  datatype Vec = Vec(x: real, y: real)

  const ZeroVector: Vec := Vec(0.0, 0.0)

  function Min(a: real, b: real): real { if a <= b then a else b }
  function Max(a: real, b: real): real { if a >= b then a else b }

  function Abs(a: real): (r: real)
    ensures r >= 0.0 && (r == a || r == -a)
  {
    if a < 0.0 then -a else a
  }

  // ---------------------------------------------------------------------
  // pairWise / pairWiseArray
  // ---------------------------------------------------------------------

  /** The slice `arr.slice(i, i + 2)`: JavaScript clamps the end to the length,
      so the last slice of an odd-length array holds a single element. */
  function SliceTwo<T>(arr: seq<T>, i: nat): (r: seq<T>)
    requires i < |arr|
    ensures 1 <= |r| <= 2 && r[0] == arr[i]
    ensures |r| == 2 <==> i + 1 < |arr|
    ensures |r| == 2 ==> r[1] == arr[i + 1]
  {
    if i + 2 <= |arr| then arr[i..i + 2] else arr[i..]
  }

  /** Everything the generator `pairWise` yields, in order: `pairWiseArray`. */
  function PairWiseArray<T>(arr: seq<T>): (r: seq<seq<T>>)
    ensures forall k :: 0 <= k < |r| ==> 1 <= |r[k]| <= 2
    decreases |arr|
  {
    if |arr| == 0 then []
    else if |arr| == 1 then [arr]
    else [arr[..2]] + PairWiseArray(arr[2..])
  }

  /** The generator `pairWise`: a loop stepping `i` by two and yielding each
      slice; the yielded values are collected in `chunks`. */
  method PairWise<T>(arr: seq<T>) returns (chunks: seq<seq<T>>)
    ensures chunks == PairWiseArray(arr)
  {
    chunks := [];
    var i := 0;
    while i < |arr|
      invariant 0 <= i <= |arr| + 1
      invariant i % 2 == 0
      invariant i <= |arr| ==> chunks + PairWiseArray(arr[i..]) == PairWiseArray(arr)
      invariant i > |arr| ==> chunks == PairWiseArray(arr)
      decreases |arr| + 1 - i
    {
      var slice := SliceTwo(arr, i);
      if i + 2 <= |arr| {
        assert arr[i..][..2] == slice && arr[i..][2..] == arr[i + 2..];
        assert PairWiseArray(arr[i..]) == [slice] + PairWiseArray(arr[i + 2..]);
      } else {
        assert PairWiseArray(arr[i..]) == [slice];
      }
      chunks := chunks + [slice];
      i := i + 2;
    }
    if i == |arr| {
      assert arr[i..] == [];
    }
  }

  /** Concatenation of chunks (the inverse of `PairWiseArray`). */
  function Flatten<T>(chunks: seq<seq<T>>): seq<T>
  {
    if chunks == [] then [] else chunks[0] + Flatten(chunks[1..])
  }

  /** Number of chunks: n/2 for even n, ceil(n/2) for odd n. */
  lemma {:induction false} PairWiseLength<T>(arr: seq<T>)
    ensures |PairWiseArray(arr)| == (|arr| + 1) / 2
    decreases |arr|
  {
    if |arr| >= 2 {
      PairWiseLength(arr[2..]);
    }
  }

  /** Chunk k is the slice starting at 2k: a full pair `(arr[2k], arr[2k+1])`
      unless it is the single trailing element of an odd-length array. */
  lemma {:induction false} PairWiseAt<T>(arr: seq<T>, k: nat)
    requires k < (|arr| + 1) / 2
    ensures |PairWiseArray(arr)| == (|arr| + 1) / 2
    ensures PairWiseArray(arr)[k] == SliceTwo(arr, 2 * k)
    decreases |arr|
  {
    PairWiseLength(arr);
    if |arr| >= 2 && k > 0 {
      PairWiseAt(arr[2..], k - 1);
      assert PairWiseArray(arr)[k] == PairWiseArray(arr[2..])[k - 1];
      assert SliceTwo(arr[2..], 2 * (k - 1)) == SliceTwo(arr, 2 * k);
    }
  }

  /** For an even-length array there are n/2 chunks and chunk i is exactly
      the pair `[arr[2i], arr[2i+1]]`. */
  lemma EvenPairs<T>(arr: seq<T>, i: nat)
    requires |arr| % 2 == 0 && i < |arr| / 2
    ensures |PairWiseArray(arr)| == |arr| / 2
    ensures PairWiseArray(arr)[i] == [arr[2 * i], arr[2 * i + 1]]
  {
    PairWiseAt(arr, i);
  }

  /** For an odd-length array there are ceil(n/2) chunks and the last one
      holds a single element, whatever the `[T, T]` cast claims. */
  lemma OddLastChunk<T>(arr: seq<T>)
    requires |arr| % 2 == 1
    ensures |PairWiseArray(arr)| == |arr| / 2 + 1
    ensures PairWiseArray(arr)[|arr| / 2] == [arr[|arr| - 1]]
  {
    PairWiseAt(arr, |arr| / 2);
  }

  /** Flattening the chunks gives back the array (for every length). */
  lemma {:induction false} FlattenPairWise<T>(arr: seq<T>)
    ensures Flatten(PairWiseArray(arr)) == arr
    decreases |arr|
  {
    if |arr| >= 2 {
      FlattenPairWise(arr[2..]);
      var c := PairWiseArray(arr);
      assert c[1..] == PairWiseArray(arr[2..]);
      assert arr == arr[..2] + arr[2..];
    } else if |arr| == 1 {
      assert Flatten(PairWiseArray(arr)) == arr + Flatten([]);
    }
  }

  // ---------------------------------------------------------------------
  // bound
  // ---------------------------------------------------------------------

  /** `bound(value, min, max) = Math.min(max, Math.max(min, value))`. */
  function Bound(value: real, lo: real, hi: real): (r: real)
    ensures lo <= hi ==> lo <= r <= hi
    ensures lo <= value <= hi ==> r == value
    ensures lo > hi ==> r == hi
    ensures value < lo <= hi ==> r == lo
    ensures lo <= hi < value ==> r == hi
  {
    Min(hi, Max(lo, value))
  }

  /** Clamping twice is clamping once. */
  lemma BoundIdempotent(value: real, lo: real, hi: real)
    ensures Bound(Bound(value, lo, hi), lo, hi) == Bound(value, lo, hi)
  {
  }

  // ---------------------------------------------------------------------
  // manhatten / inside (helpers of the same file that the model assumes)
  // ---------------------------------------------------------------------

  /** `manhatten(a, b) = |ax - bx| + |ay - by|`. */
  function Manhattan(a: Vec, b: Vec): (r: real)
    ensures r >= 0.0
    ensures r == 0.0 <==> a == b
  {
    Abs(a.x - b.x) + Abs(a.y - b.y)
  }

  /** An axis-aligned box `{x: [x0, x1], y: [y0, y1]}`. */
  datatype Box = Box(x0: real, x1: real, y0: real, y1: real)

  /** `inside(p, box)`: the inclusive box test. */
  predicate Inside(p: Vec, box: Box)
  {
    box.x0 <= p.x <= box.x1 && box.y0 <= p.y <= box.y1
  }
}
