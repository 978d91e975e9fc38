/** internal/domain/index.go: overflow-checked row-major (mixed-radix) arithmetic. */
module Index {
  import opened Basics

  datatype ProductError = NoDimensions | EmptyDimension | Overflow | CellLimit(limit: int)

  datatype IndexError = LengthsDiffer | OutsideCube

  // The mathematics the loops are measured against.

  function Product(sizes: seq<int>): int {
    if sizes == [] then 1 else sizes[0] * Product(sizes[1..])
  }

  predicate Positive(sizes: seq<int>) {
    forall i :: 0 <= i < |sizes| ==> sizes[i] >= 1
  }

  predicate InCube(coords: seq<int>, sizes: seq<int>) {
    |coords| == |sizes| && forall i :: 0 <= i < |sizes| ==> 0 <= coords[i] < sizes[i]
  }

  /** Row-major position of a coordinate tuple: the last dimension varies fastest. */
  function Flatten(coords: seq<int>, sizes: seq<int>): int
    requires |coords| == |sizes|
  {
    if sizes == [] then 0 else coords[0] * Product(sizes[1..]) + Flatten(coords[1..], sizes[1..])
  }

  function Unflatten(index: int, sizes: seq<int>): (coords: seq<int>)
    requires Positive(sizes)
    ensures |coords| == |sizes|
    decreases |sizes|
  {
    if sizes == [] then [] else
      PositiveProduct(sizes[1..]);
      [index / Product(sizes[1..])] + Unflatten(index % Product(sizes[1..]), sizes[1..])
  }

  function StridesOf(sizes: seq<int>): (strides: seq<int>)
    ensures |strides| == |sizes|
  {
    seq(|sizes|, i requires 0 <= i < |sizes| => Product(sizes[i + 1..]))
  }

  /** The exact product of a prefix fits both bounds and every size in it is at least one. */
  predicate Fits(sizes: seq<int>, limit: int) {
    Positive(sizes) && Product(sizes) <= MAX_INT64 && (sizes != [] ==> Product(sizes) <= limit)
  }

  // Products.

  lemma {:induction false} PositiveProduct(sizes: seq<int>)
    requires Positive(sizes)
    ensures Product(sizes) >= 1
  {
    if sizes != [] {
      PositiveProduct(sizes[1..]);
      MulAtLeast(sizes[0], Product(sizes[1..]));
    }
  }

  lemma MulAtLeast(a: int, b: int)
    requires a >= 1 && b >= 1
    ensures a * b >= a && a * b >= b
  {
    MulMono(1, a, b);
    MulMono(1, b, a);
  }

  lemma MulMono(a: int, b: int, c: int)
    requires a <= b && c >= 0
    ensures a * c <= b * c
  {
  }

  lemma MulDist(a: int, b: int, c: int)
    ensures (a + b) * c == a * c + b * c
    ensures (a - b) * c == a * c - b * c
  {
  }

  lemma DivMod(n: int, d: int)
    requires d > 0
    ensures n == (n / d) * d + n % d && 0 <= n % d < d
  {
  }

  /** A size of `size` cells per step: the quotient reaches `size` exactly when the index reaches the end. */
  lemma QuotientReaches(index: int, size: int, stride: int)
    requires stride >= 1
    ensures index / stride >= size <==> index >= size * stride
  {
    DivMod(index, stride);
    var q := index / stride;
    if q >= size {
      MulMono(size, q, stride);
    } else {
      MulMono(q + 1, size, stride);
      MulDist(q, 1, stride);
    }
  }

  lemma QuotientUnique(q: int, r: int, q': int, r': int, d: int)
    requires 0 <= r < d && 0 <= r' < d && q * d + r == q' * d + r'
    ensures q == q' && r == r'
  {
    if q < q' {
      MulMono(q + 1, q', d);
      MulDist(q, 1, d);
    } else if q > q' {
      MulMono(q' + 1, q, d);
      MulDist(q', 1, d);
    }
  }

  lemma {:induction false} ProductOfConcat(a: seq<int>, b: seq<int>)
    ensures Product(a + b) == Product(a) * Product(b)
  {
    if a == [] {
      assert a + b == b;
    } else {
      assert (a + b)[1..] == a[1..] + b;
      ProductOfConcat(a[1..], b);
      MulAssoc(a[0], Product(a[1..]), Product(b));
    }
  }

  lemma MulAssoc(a: int, b: int, c: int)
    ensures a * (b * c) == (a * b) * c
  {
  }

  lemma ProductOfPrefix(sizes: seq<int>, k: nat)
    requires k < |sizes|
    ensures Product(sizes[..k + 1]) == Product(sizes[..k]) * sizes[k]
  {
    assert sizes[..k + 1] == sizes[..k] + [sizes[k]];
    ProductOfConcat(sizes[..k], [sizes[k]]);
    assert Product([sizes[k]]) == sizes[k] * Product([]);
  }

  lemma ProductSplit(sizes: seq<int>, k: nat)
    requires k <= |sizes| && Positive(sizes)
    ensures 1 <= Product(sizes[..k]) <= Product(sizes)
    ensures 1 <= Product(sizes[k..]) <= Product(sizes)
  {
    assert sizes == sizes[..k] + sizes[k..];
    ProductOfConcat(sizes[..k], sizes[k..]);
    PositiveProduct(sizes[..k]);
    PositiveProduct(sizes[k..]);
    MulAtLeast(Product(sizes[..k]), Product(sizes[k..]));
  }

  // CheckedProduct.

  /** Succeeds exactly on a non-empty list of positive sizes whose exact product is within both bounds. Otherwise
      the error is that of the first size at which a prefix stops fitting. No int64 step overflows: the
      assertion before the multiplication is the exact bound. */
  method CheckedProduct(sizes: seq<int>, limit: int) returns (r: Result<int, ProductError>)
    ensures r.Ok? <==> sizes != [] && Fits(sizes, limit)
    ensures r.Ok? ==> r.value == Product(sizes) && 1 <= r.value <= MAX_INT64
    ensures r.Err? && r.error.NoDimensions? <==> sizes == []
    ensures r.Err? ==> SizeError(sizes, limit, r.error)
  {
    if |sizes| == 0 {
      return Err(NoDimensions);
    }
    var product := 1;
    for i := 0 to |sizes|
      invariant Fits(sizes[..i], limit) && product == Product(sizes[..i])
      invariant product >= 1
    {
      var size := sizes[i];
      ProductOfPrefix(sizes, i);
      if size < 1 {
        PrefixMustFit(sizes, i, limit);
        assert FailsAt(sizes, i, limit, EmptyDimension);
        return Err(EmptyDimension);
      }
      DivideBound(product, size);
      if product > MAX_INT64 / size {
        PrefixMustFit(sizes, i, limit);
        assert FailsAt(sizes, i, limit, Overflow);
        return Err(Overflow);
      }
      assert 0 <= product * size <= MAX_INT64;
      MulAtLeast(product, size);
      product := product * size;
      if product > limit {
        PrefixMustFit(sizes, i, limit);
        assert FailsAt(sizes, i, limit, CellLimit(limit));
        return Err(CellLimit(limit));
      }
      assert Positive(sizes[..i + 1]);
    }
    assert sizes[..|sizes|] == sizes;
    return Ok(product);
  }

  /** What makes the size at `k` the one that is refused, and with which error. */
  predicate FailsAt(sizes: seq<int>, k: nat, limit: int, error: ProductError)
    requires k < |sizes|
  {
    match error
    case NoDimensions => false
    case EmptyDimension => sizes[k] < 1
    case Overflow => sizes[k] >= 1 && Product(sizes[..k + 1]) > MAX_INT64
    case CellLimit(l) => l == limit && sizes[k] >= 1 && limit < Product(sizes[..k + 1]) <= MAX_INT64
  }

  lemma DivideBound(product: int, size: int)
    requires product >= 1 && size >= 1
    ensures product > MAX_INT64 / size <==> product * size > MAX_INT64
  {
    QuotientReaches(MAX_INT64, product, size);
  }

  /** Fitting is inherited by prefixes, so a prefix that does not fit refuses the whole list. */
  lemma PrefixMustFit(sizes: seq<int>, k: nat, limit: int)
    requires k < |sizes|
    ensures Fits(sizes, limit) ==> Fits(sizes[..k + 1], limit)
  {
    if Fits(sizes, limit) {
      ProductSplit(sizes, k + 1);
    }
  }

  /** The error CheckedProduct answers. */
  ghost predicate SizeError(sizes: seq<int>, limit: int, error: ProductError) {
    if sizes == [] then error.NoDimensions?
    else exists k :: 0 <= k < |sizes| && Fits(sizes[..k], limit) && FailsAt(sizes, k, limit, error)
  }

  /** There is one such error. */
  lemma SizeErrorUnique(sizes: seq<int>, limit: int, e: ProductError, f: ProductError)
    requires SizeError(sizes, limit, e) && SizeError(sizes, limit, f)
    ensures e == f
  {
    if sizes != [] {
      var k :| 0 <= k < |sizes| && Fits(sizes[..k], limit) && FailsAt(sizes, k, limit, e);
      var l :| 0 <= l < |sizes| && Fits(sizes[..l], limit) && FailsAt(sizes, l, limit, f);
      if k < l {
        FailsBefore(sizes, limit, k, l, e);
      } else if l < k {
        FailsBefore(sizes, limit, l, k, f);
      }
    }
  }

  /** A prefix that goes beyond a failing size does not fit. */
  lemma FailsBefore(sizes: seq<int>, limit: int, k: nat, l: nat, e: ProductError)
    requires k < l <= |sizes| && FailsAt(sizes, k, limit, e)
    ensures !Fits(sizes[..l], limit)
  {
    var prefix := sizes[..l];
    assert prefix[..k + 1] == sizes[..k + 1] && prefix[k] == sizes[k] && sizes[..k + 1][k] == sizes[k];
    PrefixMustFit(prefix, k, limit);
  }

  // Strides.

  lemma ProductStep(sizes: seq<int>, i: nat)
    requires i < |sizes|
    ensures Product(sizes[i..]) == sizes[i] * Product(sizes[i + 1..])
  {
    assert sizes[i..][1..] == sizes[i + 1..];
  }

  lemma MulCommutes(a: int, b: int)
    ensures a * b == b * a
  {
  }

  lemma StrideStep(sizes: seq<int>, i: nat)
    requires i < |sizes| && Positive(sizes)
    ensures Product(sizes[i + 1..]) * sizes[i] == Product(sizes[i..])
    ensures 1 <= Product(sizes[i..]) <= Product(sizes)
  {
    ProductStep(sizes, i);
    MulCommutes(Product(sizes[i + 1..]), sizes[i]);
    ProductSplit(sizes, i);
  }

  /** On sizes whose product fits an int64 no stride wraps, and each is the product of the sizes after it. */
  method Strides(sizes: seq<int>) returns (strides: array<int>)
    ensures fresh(strides) && strides.Length == |sizes|
    ensures Positive(sizes) && Product(sizes) <= MAX_INT64 ==> strides[..] == StridesOf(sizes)
  {
    strides := new int[|sizes|];
    var stride := 1;
    ghost var fits := Positive(sizes) && Product(sizes) <= MAX_INT64;
    for i := |sizes| downto 0
      invariant fits ==> stride == Product(sizes[i..])
      invariant fits ==> forall k :: i <= k < |sizes| ==> strides[k] == Product(sizes[k + 1..])
    {
      strides[i] := stride;
      if fits {
        StrideStep(sizes, i);
      }
      stride := Wrap64(stride * sizes[i]);
    }
  }

  // Flatten and Unflatten are inverse, and Flatten is an order isomorphism onto 0..Product-1.

  lemma DivModOf(q: int, d: int, r: int)
    requires 0 <= r < d
    ensures (q * d + r) / d == q && (q * d + r) % d == r
  {
    DivMod(q * d + r, d);
    QuotientUnique(q, r, (q * d + r) / d, (q * d + r) % d, d);
  }

  /** One digit in front of a smaller number: c * p + f stays below s * p. */
  lemma DigitBound(c: int, s: int, p: int, f: int)
    requires 0 <= c < s && 0 <= f < p
    ensures 0 <= c * p + f < s * p
  {
    MulMono(0, c, p);
    MulMono(c + 1, s, p);
    MulDist(c, 1, p);
  }

  lemma DigitOrder(c: int, d: int, p: int, f: int, g: int)
    requires 0 <= f < p && 0 <= g < p && c < d
    ensures c * p + f < d * p + g
  {
    MulMono(c + 1, d, p);
    MulDist(c, 1, p);
  }

  lemma {:induction false} FlattenInRange(coords: seq<int>, sizes: seq<int>)
    requires InCube(coords, sizes)
    ensures Positive(sizes) && 0 <= Flatten(coords, sizes) < Product(sizes)
  {
    if sizes != [] {
      FlattenInRange(coords[1..], sizes[1..]);
      DigitBound(coords[0], sizes[0], Product(sizes[1..]), Flatten(coords[1..], sizes[1..]));
    }
  }

  lemma {:induction false} UnflattenOfFlatten(coords: seq<int>, sizes: seq<int>)
    requires InCube(coords, sizes) && Positive(sizes)
    ensures Unflatten(Flatten(coords, sizes), sizes) == coords
  {
    if sizes != [] {
      FlattenInRange(coords[1..], sizes[1..]);
      DivModOf(coords[0], Product(sizes[1..]), Flatten(coords[1..], sizes[1..]));
      UnflattenOfFlatten(coords[1..], sizes[1..]);
    }
  }

  lemma {:induction false} FlattenOfUnflatten(index: int, sizes: seq<int>)
    requires Positive(sizes) && 0 <= index < Product(sizes)
    ensures InCube(Unflatten(index, sizes), sizes)
    ensures Flatten(Unflatten(index, sizes), sizes) == index
  {
    if sizes != [] {
      var p := Product(sizes[1..]);
      PositiveProduct(sizes[1..]);
      DivMod(index, p);
      QuotientReaches(index, sizes[0], p);
      QuotientReaches(index, 0, p);
      FlattenOfUnflatten(index % p, sizes[1..]);
      assert Unflatten(index, sizes)[1..] == Unflatten(index % p, sizes[1..]);
    }
  }

  /** The order in which a loop over 0..Product-1 visits the tuples: the first difference decides. */
  predicate Before(c: seq<int>, d: seq<int>)
    requires |c| == |d|
  {
    c != [] && (c[0] < d[0] || (c[0] == d[0] && Before(c[1..], d[1..])))
  }

  lemma {:induction false} FlattenIsRowMajor(c: seq<int>, d: seq<int>, sizes: seq<int>)
    requires InCube(c, sizes) && InCube(d, sizes)
    ensures Flatten(c, sizes) < Flatten(d, sizes) <==> Before(c, d)
  {
    if sizes != [] {
      var p := Product(sizes[1..]);
      FlattenInRange(c[1..], sizes[1..]);
      FlattenInRange(d[1..], sizes[1..]);
      var f, g := Flatten(c[1..], sizes[1..]), Flatten(d[1..], sizes[1..]);
      FlattenIsRowMajor(c[1..], d[1..], sizes[1..]);
      if c[0] < d[0] {
        DigitOrder(c[0], d[0], p, f, g);
      } else if c[0] > d[0] {
        DigitOrder(d[0], c[0], p, g, f);
      }
    }
  }

  /** Changing one coordinate moves the position by that dimension's stride. */
  lemma {:induction false} FlattenOfUpdate(coords: seq<int>, sizes: seq<int>, j: nat, v: int)
    requires |coords| == |sizes| && j < |sizes|
    ensures Flatten(coords[j := v], sizes) == Flatten(coords, sizes) + (v - coords[j]) * StridesOf(sizes)[j]
  {
    var updated := coords[j := v];
    if j == 0 {
      assert updated[1..] == coords[1..];
      var p := Product(sizes[1..]);
      MulDist(v, coords[0], p);
    } else {
      assert updated[1..] == coords[1..][j - 1 := v];
      FlattenOfUpdate(coords[1..], sizes[1..], j - 1, v);
      assert sizes[1..][j..] == sizes[j + 1..];
    }
  }

  /** One digit of the decomposition. */
  lemma UnflattenStep(remaining: int, sizes: seq<int>, i: nat)
    requires i < |sizes| && Positive(sizes)
    ensures StridesOf(sizes)[i] == Product(sizes[i + 1..]) >= 1
    ensures Unflatten(remaining, sizes[i..])
            == [remaining / StridesOf(sizes)[i]] + Unflatten(remaining % StridesOf(sizes)[i], sizes[i + 1..])
    ensures remaining / StridesOf(sizes)[i] >= sizes[i] <==> remaining >= Product(sizes[i..])
    ensures 0 <= remaining % StridesOf(sizes)[i] < Product(sizes[i + 1..])
  {
    ProductSplit(sizes, i + 1);
    assert sizes[i..][1..] == sizes[i + 1..];
    QuotientReaches(remaining, sizes[i], Product(sizes[i + 1..]));
    DivMod(remaining, Product(sizes[i + 1..]));
  }

  /** The same digit, read off the whole decomposition. */
  lemma NextDigit(coords: seq<int>, remaining: int, sizes: seq<int>, i: nat, stride: int)
    requires i < |sizes| == |coords| && Positive(sizes) && stride == StridesOf(sizes)[i]
    requires coords == coords[..i] + Unflatten(remaining, sizes[i..])
    ensures stride >= 1 && coords[i] == remaining / stride
    ensures coords == coords[..i + 1] + Unflatten(remaining % stride, sizes[i + 1..])
    ensures remaining >= 0 ==> remaining / stride >= 0
    ensures remaining / stride >= sizes[i] <==> remaining >= Product(sizes[i..])
    ensures 0 <= remaining % stride < Product(sizes[i + 1..])
  {
    UnflattenStep(remaining, sizes, i);
    QuotientReaches(remaining, 0, stride);
    assert coords[..i + 1] == coords[..i] + [coords[i]];
  }

  /** The first `i` digits are done. Outside the cube the first test fails. */
  ghost predicate Decomposing(index: int, sizes: seq<int>, i: nat, done: seq<int>, remaining: int)
    requires Positive(sizes) && i <= |sizes|
  {
    && Unflatten(index, sizes) == done + Unflatten(remaining, sizes[i..])
    && if i == 0 then remaining == index else 0 <= remaining < Product(sizes[i..]) && 0 <= index < Product(sizes)
  }

  lemma DecomposeTests(index: int, sizes: seq<int>, i: nat, done: seq<int>, remaining: int, stride: int)
    requires Positive(sizes) && i < |sizes|
    requires Decomposing(index, sizes, i, done, remaining) && stride == StridesOf(sizes)[i]
    ensures stride >= 1
    ensures remaining >= 0 && remaining / stride < sizes[i] <==> 0 <= index < Product(sizes)
  {
    assert sizes[0..] == sizes;
    UnflattenStep(remaining, sizes, i);
  }

  lemma Regroup(done: seq<int>, digit: int, rest: seq<int>)
    ensures done + ([digit] + rest) == done + [digit] + rest
  {
  }

  lemma DecomposeStep(index: int, sizes: seq<int>, i: nat, done: seq<int>, remaining: int, stride: int)
    requires Positive(sizes) && i < |sizes| && Decomposing(index, sizes, i, done, remaining)
    requires stride == StridesOf(sizes)[i] >= 1
    requires 0 <= index < Product(sizes)
    ensures Decomposing(index, sizes, i + 1, done + [remaining / stride], remaining % stride)
  {
    UnflattenStep(remaining, sizes, i);
    Regroup(done, remaining / stride, Unflatten(remaining % stride, sizes[i + 1..]));
  }

  /** With row-major strides: success exactly inside the cube, with the coordinates that Flatten inverts. (With no
      dimension at all there is no coordinate to reject, and every index succeeds.) */
  method Coordinates(index: int, sizes: seq<int>, strides: seq<int>) returns (r: Result<seq<int>, IndexError>)
    ensures |sizes| != |strides| <==> r == Err(LengthsDiffer)
    ensures Positive(sizes) && strides == StridesOf(sizes) && sizes != [] ==> (r.Ok? <==> 0 <= index < Product(sizes))
    ensures Positive(sizes) && strides == StridesOf(sizes) && r.Ok? ==> r.value == Unflatten(index, sizes)
    ensures r.Ok? ==> |r.value| == |sizes|
    ensures sizes == strides == [] ==> r == Ok([])
  {
    if |sizes| != |strides| {
      return Err(LengthsDiffer);
    }
    var coords := new int[|sizes|];
    var remaining := index;
    ghost var rowMajor := Positive(sizes) && strides == StridesOf(sizes);
    assert sizes[0..] == sizes;
    for i := 0 to |sizes|
      invariant rowMajor ==> Decomposing(index, sizes, i, coords[..i], remaining)
    {
      if rowMajor {
        DecomposeTests(index, sizes, i, coords[..i], remaining, strides[i]);
        if 0 <= index < Product(sizes) {
          DecomposeStep(index, sizes, i, coords[..i], remaining, strides[i]);
        }
      }
      if remaining < 0 || strides[i] < 1 {
        return Err(OutsideCube);
      }
      ghost var done := coords[..i];
      coords[i] := remaining / strides[i];
      if coords[i] >= sizes[i] {
        return Err(OutsideCube);
      }
      remaining := remaining % strides[i];
      assert coords[..i + 1] == done + [coords[i]];
    }
    assert sizes[|sizes|..] == [];
    return Ok(coords[..]);
  }

  /** With row-major strides of a cube that fits an int64: success exactly on a tuple inside the cube, with its
      position. */
  method CellIndex(coords: seq<int>, sizes: seq<int>, strides: seq<int>) returns (r: Result<int, IndexError>)
    ensures |coords| == |sizes| == |strides| || (r.Err? && r.error.LengthsDiffer?)
    ensures |coords| == |sizes| == |strides| ==> (r.Ok? <==> InCube(coords, sizes)) && (r.Err? ==> r.error.OutsideCube?)
    ensures r.Ok? && strides == StridesOf(sizes) && Product(sizes) <= MAX_INT64 ==> r.value == Flatten(coords, sizes)
  {
    if |coords| != |sizes| || |sizes| != |strides| {
      return Err(LengthsDiffer);
    }
    var index := 0;
    ghost var fits := InCube(coords, sizes) && strides == StridesOf(sizes) && Product(sizes) <= MAX_INT64;
    if fits {
      FlattenInRange(coords, sizes);
    }
    for i := 0 to |coords|
      invariant forall k :: 0 <= k < i ==> 0 <= coords[k] < sizes[k]
      invariant fits ==> index >= 0 && index + Flatten(coords[i..], sizes[i..]) == Flatten(coords, sizes)
    {
      if coords[i] < 0 || coords[i] >= sizes[i] {
        return Err(OutsideCube);
      }
      if fits {
        FlattenInRange(coords[i + 1..], sizes[i + 1..]);
        assert coords[i..][1..] == coords[i + 1..] && sizes[i..][1..] == sizes[i + 1..];
        MulMono(0, coords[i], strides[i]);
      }
      index := Wrap64(index + Wrap64(coords[i] * strides[i]));
    }
    return Ok(index);
  }
}
