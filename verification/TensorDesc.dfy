/** Tensor descriptors: strides, the recognition of formats, and four-dimensional formats. */
module TensorDesc {
  const TENSOR_DIM_MAX := 8

  datatype Status = SUCCESS | INVALID_PARAMETER

  datatype Format = NORMAL | NHWC | NcHWc4 | NcHWc32 | CUSTOMIZED
  {
    /** The number of channels packed together. */
    function Packed(): nat {
      if this == NcHWc4 then 4 else if this == NcHWc32 then 32 else 1
    }

    predicate IsVectC() {
      NcHWc4? || NcHWc32?
    }
  }

  // Mixed-radix addressing.

  function Product(dims: seq<nat>): nat {
    if dims == [] then 1 else dims[0] * Product(dims[1..])
  }

  /** Strides of a tensor stored without gaps, last dimension fastest. */
  function NormalStrides(dims: seq<nat>): (strides: seq<nat>)
    ensures |strides| == |dims|
  {
    if dims == [] then [] else [Product(dims[1..])] + NormalStrides(dims[1..])
  }

  function Offset(index: seq<nat>, strides: seq<nat>): nat
    requires |index| == |strides|
  {
    if index == [] then 0 else index[0] * strides[0] + Offset(index[1..], strides[1..])
  }

  predicate InBounds(index: seq<nat>, dims: seq<nat>) {
    |index| == |dims| && forall i :: 0 <= i < |dims| ==> index[i] < dims[i]
  }

  predicate Positive(dims: seq<nat>) {
    forall i :: 0 <= i < |dims| ==> dims[i] > 0
  }

  /** The index stored at an offset. */
  function Digits(x: nat, dims: seq<nat>): (index: seq<nat>)
    requires Positive(dims)
    ensures |index| == |dims|
  {
    if dims == [] then []
    else
      ProductPositive(dims[1..]);
      [x / Product(dims[1..])] + Digits(x % Product(dims[1..]), dims[1..])
  }

  lemma {:induction false} ProductPositive(dims: seq<nat>)
    requires Positive(dims)
    ensures Product(dims) > 0
  {
    if dims != [] {
      ProductPositive(dims[1..]);
      MulPositive(dims[0], Product(dims[1..]));
    }
  }

  lemma MulPositive(a: nat, b: nat)
    requires a > 0 && b > 0
    ensures a * b > 0
  {
  }

  lemma {:induction false} NormalStrideAt(dims: seq<nat>, i: nat)
    requires i < |dims|
    ensures NormalStrides(dims)[i] == Product(dims[i + 1..])
  {
    if i > 0 {
      NormalStrideAt(dims[1..], i - 1);
      assert dims[1..][i..] == dims[i + 1..];
    }
  }

  lemma ProductStep(dims: seq<nat>, i: nat)
    requires i < |dims|
    ensures Product(dims[i..]) == dims[i] * Product(dims[i + 1..])
  {
    assert dims[i..][0] == dims[i] && dims[i..][1..] == dims[i + 1..];
  }

  lemma BelowProduct(i: nat, n: nat, p: nat, r: nat)
    requires i < n && r < p
    ensures i * p + r < n * p
  {
    assert i * p + p == (i + 1) * p;
    assert (i + 1) * p <= n * p;
  }

  lemma MulMonotone(a: int, b: int, p: nat)
    ensures a <= b ==> a * p <= b * p
  {
  }

  lemma DivUnique(i: nat, p: nat, r: nat)
    requires r < p
    ensures (i * p + r) / p == i && (i * p + r) % p == r
  {
    var x := i * p + r;
    assert x == x / p * p + x % p;
    MulMonotone(x / p + 1, i, p);
    MulMonotone(i + 1, x / p, p);
  }

  lemma DivBelow(x: nat, n: nat, p: nat)
    requires p > 0 && x < n * p
    ensures x / p < n
  {
    MulMonotone(n, x / p, p);
  }

  /** Addresses stay inside the tensor, and the index can be read off an address again. */
  lemma {:induction false} OffsetDigits(index: seq<nat>, dims: seq<nat>)
    requires InBounds(index, dims) && Positive(dims)
    ensures Offset(index, NormalStrides(dims)) < Product(dims)
    ensures Digits(Offset(index, NormalStrides(dims)), dims) == index
  {
    if dims != [] {
      var p := Product(dims[1..]);
      OffsetDigits(index[1..], dims[1..]);
      var r := Offset(index[1..], NormalStrides(dims[1..]));
      assert NormalStrides(dims)[1..] == NormalStrides(dims[1..]);
      BelowProduct(index[0], dims[0], p, r);
      DivUnique(index[0], p, r);
      assert index == [index[0]] + index[1..];
    }
  }

  lemma InBoundsCons(i: nat, n: nat, index: seq<nat>, dims: seq<nat>)
    requires i < n && InBounds(index, dims)
    ensures InBounds([i] + index, [n] + dims)
  {
  }

  lemma DivMod(x: nat, p: nat)
    requires p > 0
    ensures x / p * p + x % p == x && 0 <= x % p < p
  {
  }

  lemma Place(x: nat, n: nat, p: nat) returns (q: nat, r: nat)
    requires p > 0 && x < n * p
    ensures q == x / p && r == x % p && q < n && r < p && q * p + r == x
  {
    DivMod(x, p);
    DivBelow(x, n, p);
    q, r := x / p, x % p;
  }

  /** Every address inside the tensor is the address of an index. */
  lemma {:induction false} DigitsOffset(x: nat, dims: seq<nat>)
    requires Positive(dims) && x < Product(dims)
    ensures InBounds(Digits(x, dims), dims) && Offset(Digits(x, dims), NormalStrides(dims)) == x
  {
    if dims != [] {
      var p := Product(dims[1..]);
      ProductPositive(dims[1..]);
      var q, r := Place(x, dims[0], p);
      DigitsOffset(r, dims[1..]);
      DigitsCons(q, Digits(r, dims[1..]), dims);
      assert Digits(x, dims) == [q] + Digits(r, dims[1..]);
    }
  }

  lemma DigitsCons(i: nat, rest: seq<nat>, dims: seq<nat>)
    requires dims != [] && i < dims[0] && InBounds(rest, dims[1..])
    ensures InBounds([i] + rest, dims)
    ensures Offset([i] + rest, NormalStrides(dims)) == i * Product(dims[1..]) + Offset(rest, NormalStrides(dims[1..]))
  {
    InBoundsCons(i, dims[0], rest, dims[1..]);
    assert [dims[0]] + dims[1..] == dims;
    assert ([i] + rest)[1..] == rest && NormalStrides(dims)[1..] == NormalStrides(dims[1..]);
  }

  // Four-dimensional formats.

  /** The dimensions in the order in which they are stored. */
  function Stored(f: Format, n: nat, c: nat, h: nat, w: nat): seq<nat>
  {
    match f
    case NHWC => [n, h, w, c]
    case NcHWc4 => [n, c / 4, h, w, 4]
    case NcHWc32 => [n, c / 32, h, w, 32]
    case _ => [n, c, h, w]
  }

  /** The dimensions and strides that the descriptor holds. */
  function Dims4d(f: Format, n: nat, c: nat, h: nat, w: nat): seq<nat> {
    if f.IsVectC() then [n, c / f.Packed(), h, w, f.Packed()] else [n, c, h, w]
  }

  function Strides4d(f: Format, n: nat, c: nat, h: nat, w: nat): seq<nat> {
    if f == NHWC then [h * w * c, 1, w * c, c]
    else if f.IsVectC() then [c * h * w, h * w * f.Packed(), w * f.Packed(), f.Packed(), 1]
    else [c * h * w, h * w, w, 1]
  }

  /** The dimensions that setting leaves: of channels that do not fill their packs, an unfinished fifth one. */
  function Left4d(f: Format, n: nat, c: nat, h: nat, w: nat): seq<nat> {
    if Accepted(f, c) then Dims4d(f, n, c, h, w) else [n, c, h, w, 0]
  }

  predicate Accepted(f: Format, c: nat) {
    f != CUSTOMIZED && c % f.Packed() == 0
  }

  /** A logical element: batch, channel, row and column. */
  datatype Element = Element(n: nat, c: nat, h: nat, w: nat)

  predicate Inside(e: Element, n: nat, c: nat, h: nat, w: nat) {
    e.n < n && e.c < c && e.h < h && e.w < w
  }

  /** The element's index in the descriptor's own dimensions. */
  function Index4d(f: Format, e: Element): seq<nat> {
    if f.IsVectC() then [e.n, e.c / f.Packed(), e.h, e.w, e.c % f.Packed()] else [e.n, e.c, e.h, e.w]
  }

  /** Where an element is stored, by the descriptor's strides. */
  function AddressOf(f: Format, n: nat, c: nat, h: nat, w: nat, e: Element): nat {
    Offset(Index4d(f, e), Strides4d(f, n, c, h, w))
  }

  /** The element's index in the stored order. */
  function StoredIndex(f: Format, e: Element): seq<nat> {
    if f == NHWC then [e.n, e.h, e.w, e.c] else Index4d(f, e)
  }

  function ElementOf(f: Format, index: seq<nat>): Element
    requires |index| == if f.IsVectC() then 5 else 4
  {
    match f
    case NHWC => Element(index[0], index[3], index[1], index[2])
    case NcHWc4 => Element(index[0], index[1] * 4 + index[4], index[2], index[3])
    case NcHWc32 => Element(index[0], index[1] * 32 + index[4], index[2], index[3])
    case _ => Element(index[0], index[1], index[2], index[3])
  }

  /** The element stored at an address. */
  function ElementAt(f: Format, n: nat, c: nat, h: nat, w: nat, x: nat): Element
    requires Positive(Stored(f, n, c, h, w))
  {
    ElementOf(f, Digits(x, Stored(f, n, c, h, w)))
  }

  lemma Offset4(a: nat, b: nat, c: nat, d: nat, p: nat, q: nat, r: nat, s: nat)
    ensures Offset([a, b, c, d], [p, q, r, s]) == a * p + b * q + c * r + d * s
  {
    assert [a, b, c, d][1..] == [b, c, d] && [b, c, d][1..] == [c, d] && [c, d][1..] == [d] && [d][1..] == [];
    assert [p, q, r, s][1..] == [q, r, s] && [q, r, s][1..] == [r, s] && [r, s][1..] == [s] && [s][1..] == [];
    assert Offset([d], [s]) == d * s;
    assert Offset([c, d], [r, s]) == c * r + d * s;
    assert Offset([b, c, d], [q, r, s]) == b * q + (c * r + d * s);
  }

  lemma Normal4(a: nat, b: nat, c: nat, d: nat)
    ensures NormalStrides([a, b, c, d]) == [b * c * d, c * d, d, 1]
    ensures Product([a, b, c, d]) == a * b * c * d
  {
    assert [a, b, c, d][1..] == [b, c, d] && [b, c, d][1..] == [c, d] && [c, d][1..] == [d] && [d][1..] == [];
    assert Product([d]) == d;
    assert Product([c, d]) == c * d;
    assert Product([b, c, d]) == b * (c * d) == b * c * d;
    assert Product([a, b, c, d]) == a * (b * c * d) == a * b * c * d;
    assert NormalStrides([d]) == [1];
    assert NormalStrides([c, d]) == [d, 1];
    assert NormalStrides([b, c, d]) == [c * d, d, 1];
  }

  lemma Normal5(n: nat, g: nat, h: nat, w: nat, k: nat)
    ensures NormalStrides([n, g, h, w, k]) == [g * (h * w * k), h * w * k, w * k, k, 1]
    ensures Product([n, g, h, w, k]) == n * (g * (h * w * k))
  {
    assert [n, g, h, w, k][1..] == [g, h, w, k] && [g, h, w, k][1..] == [h, w, k];
    Normal4(g, h, w, k);
    assert Product([g, h, w, k]) == g * Product([h, w, k]);
    assert [h, w, k][1..] == [w, k] && [w, k][1..] == [k] && [k][1..] == [];
    assert Product([k]) == k;
    assert Product([w, k]) == w * k;
    assert Product([h, w, k]) == h * (w * k) == h * w * k;
    assert h * w * k == Product([h, w, k]);
  }

  lemma Rotate(h: nat, w: nat, c: nat)
    ensures h * w * c == c * h * w
  {
    assert h * w * c == c * (h * w);
  }

  lemma Factor(n: nat, c: nat, h: nat, w: nat)
    ensures n * c * h * w == n * (c * h * w)
  {
    assert n * c * h == n * (c * h);
  }

  lemma Regroup(g: nat, k: nat, h: nat, w: nat)
    ensures g * k * h * w == g * (h * w * k)
  {
    assert g * k * h * w == g * (k * h * w);
    assert k * h * w == h * w * k;
  }

  /** Moving a stride of one to the end moves its index with it. */
  lemma ChannelsLast(e: Element, p: nat, q: nat, c: nat)
    ensures Offset([e.n, e.c, e.h, e.w], [p, 1, q, c]) == Offset([e.n, e.h, e.w, e.c], [p, q, c, 1])
  {
    Offset4(e.n, e.c, e.h, e.w, p, 1, q, c);
    Offset4(e.n, e.h, e.w, e.c, p, q, c, 1);
  }

  lemma PackedInOrder(f: Format, n: nat, c: nat, h: nat, w: nat)
    requires f.IsVectC() && Accepted(f, c)
    ensures Strides4d(f, n, c, h, w) == NormalStrides(Stored(f, n, c, h, w))
  {
    var k := f.Packed();
    assert c == c / k * k;
    Normal5(n, c / k, h, w, k);
    Regroup(c / k, k, h, w);
  }

  /** The strides address the stored order without gaps. */
  lemma AddressIsStored(f: Format, n: nat, c: nat, h: nat, w: nat, e: Element)
    requires Accepted(f, c)
    ensures AddressOf(f, n, c, h, w, e) == Offset(StoredIndex(f, e), NormalStrides(Stored(f, n, c, h, w)))
  {
    if f == NHWC {
      Normal4(n, h, w, c);
      ChannelsLast(e, h * w * c, w * c, c);
    } else if f.IsVectC() {
      PackedInOrder(f, n, c, h, w);
    } else {
      Normal4(n, c, h, w);
    }
  }

  lemma StoredSize(f: Format, n: nat, c: nat, h: nat, w: nat)
    requires Accepted(f, c)
    ensures Product(Stored(f, n, c, h, w)) == n * c * h * w
  {
    Factor(n, c, h, w);
    if f == NHWC {
      Normal4(n, h, w, c);
      Factor(n, h, w, c);
      Rotate(h, w, c);
    } else if f.IsVectC() {
      PackedSize(f, n, c, h, w);
    } else {
      Normal4(n, c, h, w);
    }
  }

  lemma PackedSize(f: Format, n: nat, c: nat, h: nat, w: nat)
    requires Accepted(f, c) && f.IsVectC()
    ensures Product(Stored(f, n, c, h, w)) == n * (c * h * w)
  {
    var k := f.Packed();
    assert c == c / k * k;
    Normal5(n, c / k, h, w, k);
    Regroup(c / k, k, h, w);
  }

  lemma StoredInBounds(f: Format, n: nat, c: nat, h: nat, w: nat, e: Element)
    requires Accepted(f, c) && Inside(e, n, c, h, w)
    ensures InBounds(StoredIndex(f, e), Stored(f, n, c, h, w)) && ElementOf(f, StoredIndex(f, e)) == e
  {
    if f.IsVectC() {
      var k := f.Packed();
      assert c == c / k * k;
      DivBelow(e.c, c / k, k);
      assert e.c == e.c / k * k + e.c % k;
    }
  }

  lemma ElementInside(f: Format, n: nat, c: nat, h: nat, w: nat, index: seq<nat>)
    requires Accepted(f, c) && InBounds(index, Stored(f, n, c, h, w))
    ensures Inside(ElementOf(f, index), n, c, h, w) && StoredIndex(f, ElementOf(f, index)) == index
  {
    if f.IsVectC() {
      var k := f.Packed();
      assert index[1] < c / k && index[4] < k && index[0] < n && index[2] < h && index[3] < w;
      assert c == c / k * k;
      BelowProduct(index[1], c / k, k, index[4]);
      DivUnique(index[1], k, index[4]);
    } else {
      assert index[0] < n && index[1] < Stored(f, n, c, h, w)[1] && index[2] < Stored(f, n, c, h, w)[2];
      assert index[3] < Stored(f, n, c, h, w)[3];
    }
  }

  lemma StoredPositive(f: Format, n: nat, c: nat, h: nat, w: nat)
    requires Accepted(f, c) && n > 0 && c > 0 && h > 0 && w > 0
    ensures Positive(Stored(f, n, c, h, w))
  {
  }

  /** Different elements have different addresses inside the tensor: the element is found again at its address. */
  lemma AddressFindsElement(f: Format, n: nat, c: nat, h: nat, w: nat, e: Element)
    requires Accepted(f, c) && n > 0 && c > 0 && h > 0 && w > 0 && Inside(e, n, c, h, w)
    ensures AddressOf(f, n, c, h, w, e) < n * c * h * w
    ensures Positive(Stored(f, n, c, h, w)) && ElementAt(f, n, c, h, w, AddressOf(f, n, c, h, w, e)) == e
  {
    StoredPositive(f, n, c, h, w);
    AddressIsStored(f, n, c, h, w, e);
    StoredSize(f, n, c, h, w);
    StoredInBounds(f, n, c, h, w, e);
    OffsetDigits(StoredIndex(f, e), Stored(f, n, c, h, w));
  }

  // The addresses in numbers.

  lemma Horner4(a: nat, b: nat, c: nat, d: nat, p: nat, q: nat, r: nat)
    ensures ((a * p + b) * q + c) * r + d == a * (p * q * r) + b * (q * r) + c * r + d
  {
    assert (a * p + b) * q == a * p * q + b * q;
    assert (a * p * q + b * q + c) * r == a * p * q * r + b * q * r + c * r;
    assert a * p * q * r == a * (p * q * r) by {
      assert a * p * q == a * (p * q);
    }
  }

  lemma Offset5(a: nat, b: nat, c: nat, d: nat, e: nat, p: nat, q: nat, r: nat, s: nat, t: nat)
    ensures Offset([a, b, c, d, e], [p, q, r, s, t]) == a * p + b * q + c * r + d * s + e * t
  {
    assert [a, b, c, d, e][1..] == [b, c, d, e] && [p, q, r, s, t][1..] == [q, r, s, t];
    Offset4(b, c, d, e, q, r, s, t);
  }

  lemma PackedAddress(e: Element, c: nat, h: nat, w: nat, k: nat)
    requires k > 0 && c % k == 0
    ensures Offset([e.n, e.c / k, e.h, e.w, e.c % k], [c * h * w, h * w * k, w * k, k, 1])
         == (((e.n * (c / k) + e.c / k) * h + e.h) * w + e.w) * k + e.c % k
  {
    var groups, g, r := c / k, e.c / k, e.c % k;
    Offset5(e.n, g, e.h, e.w, r, c * h * w, h * w * k, w * k, k, 1);
    var inner := (e.n * groups + g) * h + e.h;
    Horner4(e.n, g, e.h, e.w, groups, h, w);
    assert (inner * w + e.w) * k == inner * w * k + e.w * k;
    PackedTerms(e.n, g, e.h, groups, h, w, k);
    assert groups * k == c;
  }

  lemma PackedTerms(n: nat, g: nat, y: nat, groups: nat, h: nat, w: nat, k: nat)
    ensures ((n * groups + g) * h + y) * w * k == n * (groups * k * h * w) + g * (h * w * k) + y * (w * k)
  {
    Horner4(n, g, y, 0, groups, h, w);
    var a, b := n * (groups * h * w), g * (h * w);
    assert ((n * groups + g) * h + y) * w == a + b + y * w;
    assert (a + b + y * w) * k == a * k + b * k + y * w * k;
    assert a * k == n * (groups * h * w * k) && groups * h * w * k == groups * k * h * w by {
      Regroup(groups, k, h, w);
      assert groups * h * w * k == groups * (h * w * k);
    }
    assert b * k == g * (h * w * k) && y * w * k == y * (w * k);
  }

  lemma NormalAddress(e: Element, c: nat, h: nat, w: nat)
    ensures Offset([e.n, e.c, e.h, e.w], [c * h * w, h * w, w, 1]) == ((e.n * c + e.c) * h + e.h) * w + e.w
  {
    Offset4(e.n, e.c, e.h, e.w, c * h * w, h * w, w, 1);
    Horner4(e.n, e.c, e.h, e.w, c, h, w);
  }

  lemma NhwcAddress(e: Element, c: nat, h: nat, w: nat)
    ensures Offset([e.n, e.c, e.h, e.w], [h * w * c, 1, w * c, c]) == ((e.n * h + e.h) * w + e.w) * c + e.c
  {
    Offset4(e.n, e.c, e.h, e.w, h * w * c, 1, w * c, c);
    Horner4(e.n, e.h, e.w, e.c, h, w, c);
  }

  /** Where each format stores an element: batch first, then the dimensions in the order of the format's name. */
  lemma AddressInNumbers(f: Format, n: nat, c: nat, h: nat, w: nat, e: Element)
    requires Accepted(f, c)
    ensures f == NORMAL ==> AddressOf(f, n, c, h, w, e) == ((e.n * c + e.c) * h + e.h) * w + e.w
    ensures f == NHWC ==> AddressOf(f, n, c, h, w, e) == ((e.n * h + e.h) * w + e.w) * c + e.c
    ensures f == NcHWc4 ==>
              AddressOf(f, n, c, h, w, e) == (((e.n * (c / 4) + e.c / 4) * h + e.h) * w + e.w) * 4 + e.c % 4
    ensures f == NcHWc32 ==>
              AddressOf(f, n, c, h, w, e) == (((e.n * (c / 32) + e.c / 32) * h + e.h) * w + e.w) * 32 + e.c % 32
  {
    match f
    case NORMAL => NormalAddress(e, c, h, w);
    case NHWC => NhwcAddress(e, c, h, w);
    case NcHWc4 => PackedAddress(e, c, h, w, 4);
    case NcHWc32 => PackedAddress(e, c, h, w, 32);
    case _ =>
  }

  /** Every address inside the tensor stores an element. */
  lemma EveryAddressIsUsed(f: Format, n: nat, c: nat, h: nat, w: nat, x: nat)
    requires Accepted(f, c) && n > 0 && c > 0 && h > 0 && w > 0 && x < n * c * h * w
    ensures Positive(Stored(f, n, c, h, w)) && Inside(ElementAt(f, n, c, h, w, x), n, c, h, w)
    ensures AddressOf(f, n, c, h, w, ElementAt(f, n, c, h, w, x)) == x
  {
    StoredPositive(f, n, c, h, w);
    StoredSize(f, n, c, h, w);
    DigitsOffset(x, Stored(f, n, c, h, w));
    ElementInside(f, n, c, h, w, Digits(x, Stored(f, n, c, h, w)));
    AddressIsStored(f, n, c, h, w, ElementAt(f, n, c, h, w, x));
  }

  // The descriptor.

  type DataType = nat

  class TensorDesc {
    const dims: array<int>
    const strides: array<int>
    var size: int
    var nDims: nat
    var dataType: DataType
    var tensorFormat: Format

    ghost predicate Valid()
      reads this
    {
      dims.Length == TENSOR_DIM_MAX && strides.Length == TENSOR_DIM_MAX && dims != strides && nDims <= TENSOR_DIM_MAX
    }

    constructor ()
      ensures Valid() && fresh(dims) && fresh(strides)
    {
      dims := new int[TENSOR_DIM_MAX](i => 0);
      strides := new int[TENSOR_DIM_MAX](i => 0);
      size, nDims, dataType, tensorFormat := 0, 0, 0, NORMAL;
    }

    /** The dimensions and strides in use. */
    ghost function Dims(): seq<int>
      requires Valid()
      reads this, dims
    {
      dims[..nDims]
    }

    ghost function Strides(): seq<int>
      requires Valid()
      reads this, strides
    {
      strides[..nDims]
    }

    /** Copies to the front of an array and clears the rest. */
    method Fill(a: array<int>, values: seq<int>)
      requires a.Length == TENSOR_DIM_MAX && |values| <= TENSOR_DIM_MAX
      modifies a
      ensures a[..|values|] == values && a[|values|..] == seq(TENSOR_DIM_MAX - |values|, i => 0)
      ensures forall k :: 0 <= k < TENSOR_DIM_MAX ==> a[k] == if k < |values| then values[k] else 0
    {
      for k := 0 to TENSOR_DIM_MAX
        invariant forall j :: 0 <= j < k ==> a[j] == if j < |values| then values[j] else 0
      {
        a[k] := if k < |values| then values[k] else 0;
      }
    }

    method SetNormal(dataType: DataType, dim: seq<nat>) returns (status: Status)
      requires Valid()
      modifies this, dims, strides
      ensures Valid() && (status == SUCCESS <==> 1 <= |dim| <= 8)
      ensures status == SUCCESS ==>
                && nDims == |dim| && Dims() == dim && Strides() == NormalStrides(dim) && size == Product(dim)
                && this.dataType == dataType && tensorFormat == NORMAL
      ensures status != SUCCESS ==>
                nDims == old(nDims) && size == old(size) && tensorFormat == old(tensorFormat)
                && dims[..] == old(dims[..]) && strides[..] == old(strides[..])
    {
      if |dim| > TENSOR_DIM_MAX || |dim| == 0 {
        return INVALID_PARAMETER;
      }
      nDims, this.dataType, tensorFormat := |dim|, dataType, NORMAL;
      Fill(dims, dim);
      Fill(strides, []);
      size := FillStrides(strides, dim);
      status := SUCCESS;
    }

    method FillStrides(a: array<int>, dim: seq<nat>) returns (total: nat)
      requires |dim| <= a.Length
      modifies a
      ensures a[..|dim|] == NormalStrides(dim) && total == Product(dim)
    {
      total := 1;
      var i := |dim|;
      while i > 0
        invariant 0 <= i <= |dim| && total == Product(dim[i..])
        invariant forall j :: i <= j < |dim| ==> a[j] == NormalStrides(dim)[j]
      {
        i := i - 1;
        NormalStrideAt(dim, i);
        ProductStep(dim, i);
        a[i] := total;
        total := total * dim[i];
      }
      assert dim[0..] == dim;
    }

    /** Recognises the strides of a tensor without gaps, and those of channels stored last. */
    method Set(dataType: DataType, dim: seq<nat>, stride: seq<int>) returns (status: Status)
      requires Valid() && |stride| == |dim|
      modifies this, dims, strides
      ensures Valid() && (status == SUCCESS <==> 1 <= |dim| <= 8)
      ensures status == SUCCESS ==>
                && nDims == |dim| && Dims() == dim && Strides() == stride && size == Product(dim)
                && this.dataType == dataType
                && (tensorFormat == NORMAL <==> stride == NormalStrides(dim))
                && (tensorFormat == NHWC <==>
                      stride != NormalStrides(dim) && |dim| == 4
                      && stride == Strides4d(NHWC, dim[0], dim[1], dim[2], dim[3]))
                && (tensorFormat.NORMAL? || tensorFormat.NHWC? || tensorFormat.CUSTOMIZED?)
      ensures status != SUCCESS ==>
                nDims == old(nDims) && size == old(size) && tensorFormat == old(tensorFormat)
                && dims[..] == old(dims[..]) && strides[..] == old(strides[..])
    {
      if |dim| > TENSOR_DIM_MAX || |dim| == 0 {
        return INVALID_PARAMETER;
      }
      nDims, this.dataType := |dim|, dataType;
      Fill(dims, dim);
      Fill(strides, stride);
      var isNormal;
      isNormal, size := CheckNormal(dim, stride);
      tensorFormat := if isNormal then NORMAL else CUSTOMIZED;
      if |dim| == 4 && !isNormal {
        if stride[1] == 1 && stride[3] == dim[1] && stride[2] == dim[1] * dim[3]
           && stride[0] == dim[1] * dim[3] * dim[2] {
          tensorFormat := NHWC;
        }
        NhwcStrides(dim, stride);
      }
      status := SUCCESS;
    }

    method CheckNormal(dim: seq<nat>, stride: seq<int>) returns (isNormal: bool, total: nat)
      requires |stride| == |dim|
      ensures isNormal <==> stride == NormalStrides(dim)
      ensures total == Product(dim)
    {
      total, isNormal := 1, true;
      var i := |dim|;
      while i > 0
        invariant 0 <= i <= |dim| && total == Product(dim[i..])
        invariant isNormal <==> forall j :: i <= j < |dim| ==> stride[j] == NormalStrides(dim)[j]
      {
        i := i - 1;
        NormalStrideAt(dim, i);
        ProductStep(dim, i);
        isNormal := isNormal && stride[i] == total;
        total := total * dim[i];
      }
      assert dim[0..] == dim;
    }

    method Set4d(dataType: DataType, f: Format, n: nat, c: nat, h: nat, w: nat) returns (status: Status)
      requires Valid()
      modifies this, dims, strides
      ensures Valid() && (status == SUCCESS <==> Accepted(f, c))
      ensures status == SUCCESS <==>
                f == NORMAL || f == NHWC || (f == NcHWc4 && c % 4 == 0) || (f == NcHWc32 && c % 32 == 0)
      ensures f == CUSTOMIZED ==>
                nDims == old(nDims) && size == old(size) && tensorFormat == old(tensorFormat)
                && dims[..] == old(dims[..]) && strides[..] == old(strides[..])
      ensures f != CUSTOMIZED ==>
                && nDims == |Left4d(f, n, c, h, w)| && Dims() == Left4d(f, n, c, h, w)
                && Strides() == (if Accepted(f, c) then Strides4d(f, n, c, h, w) else [0, 0, 0, 0, 0])
                && size == n * c * h * w && this.dataType == dataType && tensorFormat == f
    {
      if f == CUSTOMIZED {
        return INVALID_PARAMETER;
      }
      nDims := 4;
      Fill(dims, [n, c, h, w]);
      Fill(strides, []);
      size, this.dataType, tensorFormat := n * c * h * w, dataType, f;
      if f == NORMAL {
        strides[0], strides[1], strides[2], strides[3] := c * h * w, h * w, w, 1;
      } else if f == NHWC {
        strides[0], strides[1], strides[2], strides[3] := h * w * c, 1, w * c, c;
      } else {
        ghost var dims0, strides0 := dims[..], strides[..];
        assert dims0[..5] == [n, c, h, w, 0] && strides0[..5] == [0, 0, 0, 0, 0];
        status := Pack(f.Packed(), c, h, w);
        assert status != SUCCESS ==> Dims() == dims0[..5] && Strides() == strides0[..5];
        return;
      }
      status := SUCCESS;
    }

    /** Both packed formats take the channels of a pack as a fifth dimension. */
    method Pack(k: nat, c: nat, h: nat, w: nat) returns (status: Status)
      requires Valid() && k > 0
      modifies `nDims, dims, strides
      ensures Valid() && nDims == 5 && (status == SUCCESS <==> c % k == 0)
      ensures status == SUCCESS ==>
                && Dims() == [old(dims[0]), c / k, old(dims[2]), old(dims[3]), k]
                && Strides() == [c * h * w, h * w * k, w * k, k, 1]
      ensures status != SUCCESS ==> dims[..] == old(dims[..]) && strides[..] == old(strides[..])
    {
      nDims := 5;
      if c % k != 0 {
        return INVALID_PARAMETER;
      }
      dims[1], dims[4] := c / k, k;
      strides[0], strides[1], strides[2], strides[3], strides[4] := c * h * w, h * w * k, w * k, k, 1;
      status := SUCCESS;
    }

    method Get4d() returns (status: Status, dataType: DataType, f: Format, n: int, c: int, h: int, w: int)
      requires Valid()
      ensures status == SUCCESS <==> nDims == 4 || (nDims == 5 && tensorFormat.IsVectC())
      ensures status == SUCCESS ==>
                && dataType == this.dataType && f == tensorFormat
                && Some4d(n, c, h, w) == Read4d(tensorFormat, Dims())
    {
      dataType, f, n, c, h, w := this.dataType, tensorFormat, 0, 0, 0, 0;
      if nDims == 4 {
        n, c, h, w := dims[0], dims[1], dims[2], dims[3];
      } else if nDims == 5 && tensorFormat.IsVectC() {
        n, c, h, w := dims[0], dims[1] * dims[4], dims[2], dims[3];
      } else {
        return INVALID_PARAMETER, dataType, f, n, c, h, w;
      }
      status := SUCCESS;
    }
  }

  datatype Sizes = None4d | Some4d(n: int, c: int, h: int, w: int)

  /** The four sizes that a descriptor's dimensions stand for. */
  function Read4d(f: Format, dims: seq<int>): Sizes {
    if |dims| == 4 then Some4d(dims[0], dims[1], dims[2], dims[3])
    else if |dims| == 5 && f.IsVectC() then Some4d(dims[0], dims[1] * dims[4], dims[2], dims[3])
    else None4d
  }

  /**
    Reading a descriptor gives back the sizes it was set with if and only if they were accepted; after a rejection
    it reads no channels.
   */
  lemma GetUndoesSet(f: Format, n: nat, c: nat, h: nat, w: nat)
    requires f != CUSTOMIZED
    ensures Read4d(f, Left4d(f, n, c, h, w)) == Some4d(n, if Accepted(f, c) then c else 0, h, w)
    ensures Read4d(f, Left4d(f, n, c, h, w)) == Some4d(n, c, h, w) <==> Accepted(f, c)
  {
    if f.IsVectC() {
      assert c == c / f.Packed() * f.Packed() + c % f.Packed();
    }
  }

  lemma NhwcStrides(dim: seq<nat>, stride: seq<int>)
    requires |dim| == 4 && |stride| == 4
    ensures stride == Strides4d(NHWC, dim[0], dim[1], dim[2], dim[3]) <==>
              stride[1] == 1 && stride[3] == dim[1] && stride[2] == dim[1] * dim[3]
              && stride[0] == dim[1] * dim[3] * dim[2]
  {
    var c, h, w := dim[1], dim[2], dim[3];
    assert w * c == c * w;
    assert h * w * c == h * (w * c) && c * w * h == h * (c * w);
  }

  /** Strides of a four-dimensional format mean one format only, except for the one-element rows of a batch. */
  lemma FormatsAreTold(n: nat, c: nat, h: nat, w: nat)
    ensures Strides4d(NORMAL, n, c, h, w) == NormalStrides([n, c, h, w])
    ensures Strides4d(NHWC, n, c, h, w) == NormalStrides([n, c, h, w]) <==> c == 1 && h == 1 && w == 1
  {
    Normal4(n, c, h, w);
    if h * w == 1 {
      FactorsOfOne(h, w);
    }
  }

  lemma FactorsOfOne(h: nat, w: nat)
    requires h * w == 1
    ensures h == 1 && w == 1
  {
    if h > 1 {
      MulMonotone(2, h, w);
    }
  }
}
