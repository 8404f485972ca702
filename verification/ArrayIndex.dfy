/** Array indices and offsets: column-major, any number of dimensions, each with its own first index. */
module ArrayIndex {
  import opened Options

  /** A dimension: its length and its first index. */
  datatype Dim = Dim(len: int, off: int)

  predicate Sized(dims: seq<Dim>) {
    forall d :: 0 <= d < |dims| ==> dims[d].len > 0
  }

  /** The number of elements. */
  function Count(dims: seq<Dim>): int {
    if dims == [] then 1 else dims[0].len * Count(dims[1..])
  }

  /** The limits of an index, as `getlimits` gives them. */
  function Lower(dim: Dim): int {
    dim.off
  }

  function Upper(dim: Dim): int {
    dim.off + dim.len - 1
  }

  predicate Within(dims: seq<Dim>, index: seq<int>) {
    |index| == |dims| && forall d :: 0 <= d < |dims| ==> Lower(dims[d]) <= index[d] <= Upper(dims[d])
  }

  /** Column-major: the first index runs fastest. */
  function Offset(dims: seq<Dim>, index: seq<int>): int
    requires |index| == |dims|
  {
    if dims == [] then 0 else index[0] - dims[0].off + dims[0].len * Offset(dims[1..], index[1..])
  }

  function Indices(dims: seq<Dim>, offset: int): (index: seq<int>)
    requires Sized(dims)
    ensures |index| == |dims|
  {
    if dims == [] then []
    else [offset % dims[0].len + dims[0].off] + Indices(Rest(dims), offset / dims[0].len)
  }

  function Rest(dims: seq<Dim>): (rest: seq<Dim>)
    requires dims != []
    ensures Sized(dims) ==> Sized(rest)
  {
    dims[1..]
  }

  lemma {:induction false} CountPositive(dims: seq<Dim>)
    requires Sized(dims)
    ensures Count(dims) > 0
  {
    if dims != [] {
      CountPositive(Rest(dims));
    }
  }

  lemma DivBelow(x: int, a: int, b: int)
    requires a > 0 && 0 <= x < a * b
    ensures 0 <= x / a < b
  {
    Times(a, b, x / a);
  }

  lemma Times(a: int, p: int, q: int)
    requires a > 0
    ensures p <= q ==> a * p <= a * q
  {
  }

  /** Decoding inverts encoding's range: every offset of an element has indices within the limits, and they
      give this offset again. */
  lemma {:induction false} OffsetOfIndices(dims: seq<Dim>, offset: int)
    requires Sized(dims) && 0 <= offset < Count(dims)
    ensures Within(dims, Indices(dims, offset)) && Offset(dims, Indices(dims, offset)) == offset
    decreases dims
  {
    if dims != [] {
      var n := dims[0].len;
      var r, q := offset % n, offset / n;
      DivBelow(offset, n, Count(Rest(dims)));
      OffsetOfIndices(Rest(dims), q);
      WithinMore(dims, r, Indices(Rest(dims), q));
    }
  }

  /** One more index in front. */
  lemma WithinMore(dims: seq<Dim>, r: int, rest: seq<int>)
    requires dims != [] && 0 <= r < dims[0].len && Within(Rest(dims), rest)
    ensures var index := [r + dims[0].off] + rest;
            Within(dims, index) && Offset(dims, index) == r + dims[0].len * Offset(Rest(dims), rest)
  {
    var index := [r + dims[0].off] + rest;
    assert index[1..] == rest;
    forall d | 0 <= d < |dims| ensures Lower(dims[d]) <= index[d] <= Upper(dims[d]) {
      if d > 0 { assert index[d] == rest[d - 1] && dims[d] == Rest(dims)[d - 1]; }
    }
  }

  /** Indices within the limits have an offset within the array, and no others have the same one. */
  lemma {:induction false} IndicesOfOffset(dims: seq<Dim>, index: seq<int>)
    requires Sized(dims) && Within(dims, index)
    ensures 0 <= Offset(dims, index) < Count(dims) && Indices(dims, Offset(dims, index)) == index
    decreases dims
  {
    if dims != [] {
      var i, n, rest := index[0] - dims[0].off, dims[0].len, Offset(dims[1..], index[1..]);
      IndicesOfOffset(Rest(dims), index[1..]);
      Flat(i, n, rest, Count(dims[1..]));
      assert [index[0]] + index[1..] == index;
    }
  }

  lemma Flat(i: int, n: int, rest: int, count: int)
    requires 0 <= i < n && 0 <= rest < count
    ensures 0 <= i + n * rest < n * count && (i + n * rest) % n == i && (i + n * rest) / n == rest
  {
    assert n * rest + n == n * (rest + 1) <= n * count;
    DivIs(i, n, rest);
  }

  lemma DivIs(i: int, n: int, k: int)
    requires 0 <= i < n
    ensures (i + n * k) / n == k && (i + n * k) % n == i
  {
    var x := i + n * k;
    var q := x / n;
    assert x == n * q + x % n;
    Times(n, k + 1, q);
    Times(n, q + 1, k);
  }

  // ---- The first index runs fastest.

  /** One step of the first index is one element. */
  lemma FirstIsFastest(dims: seq<Dim>, index: seq<int>)
    requires |index| == |dims| > 0
    ensures Offset(dims, index[0 := index[0] + 1]) == Offset(dims, index) + 1
    ensures index == seq(|dims|, d requires 0 <= d < |dims| => dims[d].off) ==> Offset(dims, index) == 0
  {
    assert index[0 := index[0] + 1][1..] == index[1..];
    if index == seq(|dims|, d requires 0 <= d < |dims| => dims[d].off) { FirstElement(dims, index); }
  }

  lemma {:induction false} FirstElement(dims: seq<Dim>, index: seq<int>)
    requires |index| == |dims| && forall d :: 0 <= d < |dims| ==> index[d] == dims[d].off
    ensures Offset(dims, index) == 0
    decreases dims
  {
    if dims != [] { FirstElement(dims[1..], index[1..]); }
  }

  /** One step of a later index skips as many elements as all dimensions before it have together. */
  lemma {:induction false} StepOfIndex(dims: seq<Dim>, index: seq<int>, d: nat)
    requires |index| == |dims| && d < |dims|
    ensures Offset(dims, index[d := index[d] + 1]) == Offset(dims, index) + Count(dims[..d])
    decreases dims
  {
    var more := index[d := index[d] + 1];
    if d == 0 {
      assert more[1..] == index[1..] && dims[..0] == [];
    } else {
      assert more[1..] == index[1..][d - 1 := index[1..][d - 1] + 1];
      assert dims[..d][1..] == dims[1..][..d - 1];
      StepOfIndex(dims[1..], index[1..], d - 1);
      Spread(dims[0].len, Offset(dims[1..], index[1..]), Count(dims[1..][..d - 1]));
    }
  }

  lemma Spread(n: int, a: int, b: int)
    ensures n * (a + b) == n * a + n * b
  {
  }

  // ---- The operations.

  /** The offset for the indices on the stack, the last one on top. An index out of its limits, or one that
      is missing, is an error. In direct mode the offset itself is on the stack, which ends that mode; it is
      taken as it is. */
  method GetOffset(dims: seq<Dim>, stack: seq<int>, direct: bool) returns (offset: Option<int>, direct': bool)
    requires Sized(dims)
    ensures !direct ==> (offset.Some? <==> |stack| >= |dims| && Within(dims, stack[|stack| - |dims|..]))
    ensures !direct && offset.Some? ==> offset.value == Offset(dims, stack[|stack| - |dims|..])
    ensures direct ==> offset == if stack == [] then None else Some(stack[|stack| - 1])
    ensures direct' <==> direct && offset == None
  {
    if direct {
      return if |stack| == 0 then None else Some(stack[|stack| - 1]), |stack| == 0;
    }
    direct' := false;
    var dim, top, sum := |dims|, |stack|, 0;
    while dim > 0
      invariant 0 <= dim <= |dims| && top == |stack| - |dims| + dim
      invariant dim < |dims| ==> top >= 0
      invariant top >= 0 ==> Within(dims[dim..], stack[top..]) && sum == Offset(dims[dim..], stack[top..]) >= 0
    {
      dim := dim - 1;
      var len, off := dims[dim].len, dims[dim].off;
      if sum > 0 {
        sum := sum * len;
      }
      if top <= 0 {
        return None, false;
      }
      top := top - 1;
      var index := stack[top];
      ghost var before := stack[top + 1..];
      assert dims[dim..][1..] == dims[dim + 1..] && stack[top..][1..] == before;
      if index < off || index > off + len - 1 {
        if |stack| >= |dims| { OneOutside(dims, stack, dim); }
        return None, false;
      }
      sum := sum + index - off;
      OneMoreWithin(dims, stack, dim, top);
    }
    return Some(sum), false;
  }

  lemma OneOutside(dims: seq<Dim>, stack: seq<int>, dim: nat)
    requires |stack| >= |dims| > dim
    requires var index := stack[|stack| - |dims| + dim]; index < Lower(dims[dim]) || index > Upper(dims[dim])
    ensures !Within(dims, stack[|stack| - |dims|..])
  {
    assert stack[|stack| - |dims|..][dim] == stack[|stack| - |dims| + dim];
  }

  lemma OneMoreWithin(dims: seq<Dim>, stack: seq<int>, dim: nat, top: nat)
    requires dim < |dims| && top < |stack| && |stack| - top == |dims| - dim
    requires Within(dims[dim + 1..], stack[top + 1..]) && Lower(dims[dim]) <= stack[top] <= Upper(dims[dim])
    ensures Within(dims[dim..], stack[top..])
  {
    forall d | 0 <= d < |dims| - dim ensures Lower(dims[dim..][d]) <= stack[top..][d] <= Upper(dims[dim..][d]) {
      if d > 0 {
        assert dims[dim..][d] == dims[dim + 1..][d - 1] && stack[top..][d] == stack[top + 1..][d - 1];
      }
    }
  }

  /** The indices that a query prints for an offset. */
  method PrintIndices(dims: seq<Dim>, offset: int) returns (index: seq<int>)
    requires Sized(dims) && offset >= 0
    ensures index == Indices(dims, offset)
  {
    index := [];
    var temp := offset;
    assert dims[0..] == dims;
    for d := 0 to |dims|
      invariant Sized(dims[d..]) && temp >= 0
      invariant index + Indices(dims[d..], temp) == Indices(dims, offset)
    {
      assert Rest(dims[d..]) == dims[d + 1..];
      index := index + [temp % dims[d].len + dims[d].off];
      temp := temp / dims[d].len;
    }
  }

  /** The limits of the n-th index; there is none for n beyond the dimensions. */
  method GetLimits(dims: seq<Dim>, n: nat) returns (limits: Option<(int, int)>)
    ensures limits == if n >= |dims| then None else Some((Lower(dims[n]), Upper(dims[n])))
    ensures limits.Some? ==>
              forall index :: Within(dims, index) ==> n < |index| && limits.value.0 <= index[n] <= limits.value.1
  {
    if n >= |dims| {
      return None;
    }
    return Some((dims[n].off, dims[n].off + dims[n].len - 1));
  }

  /** The limits are reached: there are elements with the least and with the greatest n-th index. */
  lemma LimitsAreReached(dims: seq<Dim>, n: nat) returns (first: seq<int>, last: seq<int>)
    requires Sized(dims) && n < |dims|
    ensures Within(dims, first) && first[n] == Lower(dims[n])
    ensures Within(dims, last) && last[n] == Upper(dims[n])
    ensures Offset(dims, first) == 0
  {
    first := Indices(dims, 0);
    CountPositive(dims);
    OffsetOfIndices(dims, 0);
    FirstIndex(dims, n);
    last := first[n := Upper(dims[n])];
  }

  lemma {:induction false} FirstIndex(dims: seq<Dim>, n: nat)
    requires Sized(dims) && n < |dims|
    ensures Indices(dims, 0)[n] == Lower(dims[n])
    decreases |dims|
  {
    if n > 0 { FirstIndex(Rest(dims), n - 1); }
  }
}
