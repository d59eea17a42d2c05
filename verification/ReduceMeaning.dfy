/**
  What a reduction computes, in plain numbers: element widths, ranges and byte order written out per
  dtype, and the three operations by the numbers they travel under (0 sum, 1 maximum, 2 minimum) as
  cmd/jaccld/transport.go and internal/reduce/reduce.go have them.
 */
module ReduceMeaning {
  import opened Bytes
  import opened Reduce

  // ---- Elements ----

  /** Every dtype of the model with its element width in bytes. */
  const Widths: set<(DType, nat)> :=
    { (Bool, 1), (Int8, 1), (Uint8, 1), (Int16, 2), (Uint16, 2), (Float16, 2), (BFloat16, 2),
      (Int32, 4), (Uint32, 4), (Int64, 8), (Uint64, 8) }

  lemma ElementWidths(dt: DType, w: nat)
    ensures Size(dt) == w <==> (dt, w) in Widths
  {
  }

  /** Half-precision floats have a width and no kernel. */
  lemma SupportedTypes(dt: DType)
    ensures Supported(dt) <==> dt in {Bool, Int8, Int16, Int32, Int64, Uint8, Uint16, Uint32, Uint64}
  {
  }

  lemma PowersOf256()
    ensures Pow256(1) == 0x100 && Pow256(2) == 0x1_0000 && Pow256(4) == 0x1_0000_0000
    ensures Pow256(8) == 0x1_0000_0000_0000_0000
  {
    assert Pow256(2) == 256 * Pow256(1);
    assert Pow256(4) == 256 * Pow256(3) && Pow256(3) == 256 * Pow256(2);
    assert Pow256(8) == 256 * Pow256(7) && Pow256(7) == 256 * Pow256(6);
    assert Pow256(6) == 256 * Pow256(5) && Pow256(5) == 256 * Pow256(4);
  }

  /** The numbers each integer dtype can denote. */
  lemma ElementRanges(x: int)
    ensures InRange(Int8, x) <==> -0x80 <= x < 0x80
    ensures InRange(Int16, x) <==> -0x8000 <= x < 0x8000
    ensures InRange(Int32, x) <==> -0x8000_0000 <= x < 0x8000_0000
    ensures InRange(Int64, x) <==> -0x8000_0000_0000_0000 <= x < 0x8000_0000_0000_0000
    ensures InRange(Uint8, x) <==> 0 <= x < 0x100
    ensures InRange(Uint16, x) <==> 0 <= x < 0x1_0000
    ensures InRange(Uint32, x) <==> 0 <= x < 0x1_0000_0000
    ensures InRange(Uint64, x) <==> 0 <= x < 0x1_0000_0000_0000_0000
  {
    hide Pow256;
    PowersOf256();
  }

  /** Elements are little-endian. */
  lemma LittleEndian(a: byte, b: byte, c: byte, d: byte)
    ensures Value([a]) == a
    ensures Value([a, b]) == a + 0x100 * b
    ensures Value([a, b, c, d]) == a + 0x100 * b + 0x1_0000 * c + 0x100_0000 * d
  {
    LastByte(a);
    PairValue(a, b);
    PairValue(c, d);
    PairsValue([a, b], [c, d]);
    assert [a, b] + [c, d] == [a, b, c, d];
  }

  lemma LastByte(a: byte)
    ensures Value([a]) == a
  {
    assert Value([a][1..]) == 0;
  }

  lemma PairValue(a: byte, b: byte)
    ensures Value([a, b]) == a + 0x100 * b
  {
    assert [a, b][1..] == [b];
    LastByte(b);
  }

  /** An element is its low part plus its high part moved up. */
  lemma {:induction false} PairsValue(lo: seq<byte>, hi: seq<byte>)
    ensures Value(lo + hi) == Value(lo) + Pow256(|lo|) * Value(hi)
  {
    if lo == [] {
      assert lo + hi == hi;
    } else {
      assert (lo + hi)[0] == lo[0] && (lo + hi)[1..] == lo[1..] + hi;
      PairsValue(lo[1..], hi);
      MovesUp(Pow256(|lo| - 1), Value(hi));
    }
  }

  lemma MovesUp(p: nat, v: nat)
    ensures 256 * (p * v) == (256 * p) * v
  {
  }

  /** The sixty-four bit elements, as two halves of thirty-two. */
  lemma LittleEndianWide(a: byte, b: byte, c: byte, d: byte, e: byte, f: byte, g: byte, h: byte)
    ensures Value([a, b, c, d, e, f, g, h])
         == a + 0x100 * b + 0x1_0000 * c + 0x100_0000 * d
            + 0x1_0000_0000 * (e + 0x100 * f + 0x1_0000 * g + 0x100_0000 * h)
  {
    hide Value, Pow256;
    LittleEndian(a, b, c, d);
    LittleEndian(e, f, g, h);
    PowersOf256();
    PairsValue([a, b, c, d], [e, f, g, h]);
    assert [a, b, c, d] + [e, f, g, h] == [a, b, c, d, e, f, g, h];
  }

  /** Signed elements are two's complement: the top bit says whether 2^(8*size) is taken off. */
  lemma TwosComplement(dt: DType, e: seq<byte>)
    requires e != []
    ensures Num(dt, e)
         == Value(e) - if dt in {Int8, Int16, Int32, Int64} && e[|e| - 1] >= 0x80 then Pow256(|e|) else 0
  {
    hide Value, Pow256;
    var front, top := e[..|e| - 1], e[|e| - 1];
    assert e == front + [top];
    PairsValue(front, [top]);
    LastByte(top);
    ValueBound(front);
    PowNext(|front|);
    TopByte(top, Pow256(|front|), Value(front));
  }

  lemma PowNext(k: nat)
    ensures Pow256(k + 1) == 256 * Pow256(k)
  {
  }

  lemma TopByte(top: byte, p: nat, low: nat)
    requires low < p
    ensures 2 * (low + p * top) >= 256 * p <==> top >= 0x80
  {
    if top >= 0x80 {
      assert p * top >= p * 0x80;
    } else {
      assert p * top <= p * 0x7f;
    }
  }

  /** Element j of a buffer is the w bytes from w*j on. */
  lemma ElementAt(b: seq<byte>, w: nat, j: nat)
    requires (j + 1) * w <= |b|
    ensures Off(j, w) + w <= |b| && 0 <= j * w <= j * w + w <= |b| && Nth(b, w, j) == b[j * w..j * w + w]
  {
    OffIsProduct(j, w);
    assert (j + 1) * w == j * w + w;
  }

  /** The w bytes of an element of the result depend on those bytes of the operands and on no others. */
  lemma ElementsAreLocal(op: Op, dt: DType, w: nat, m: nat, dst: seq<byte>, src: seq<byte>,
                         dst': seq<byte>, src': seq<byte>, j: nat)
    requires (dt, w) in Widths && Supported(dt) && j < m
    requires |dst| == |src| == |dst'| == |src'| == Off(m, Size(dt))
    requires (j + 1) * w <= |dst| && 0 <= j * w <= j * w + w
    requires dst[j * w..j * w + w] == dst'[j * w..j * w + w] && src[j * w..j * w + w] == src'[j * w..j * w + w]
    ensures Kernel(op, dt, m, dst, src)[j * w..j * w + w] == Kernel(op, dt, m, dst', src')[j * w..j * w + w]
  {
    ElementWidths(dt, w);
    hide *;
    KernelElement(op, dt, m, dst, src, j);
    KernelElement(op, dt, m, dst', src', j);
    ElementAt(dst, w, j);
    ElementAt(src, w, j);
    ElementAt(dst', w, j);
    ElementAt(src', w, j);
    ElementAt(Kernel(op, dt, m, dst, src), w, j);
    ElementAt(Kernel(op, dt, m, dst', src'), w, j);
  }

  // ---- Operations ----

  /** e denotes the ranks' sum, wrapped into the dtype. */
  ghost predicate IsSum(dt: DType, col: seq<seq<byte>>, e: seq<byte>) {
    InRange(dt, Num(dt, e)) && Congruent(Num(dt, e), SumOfNums(dt, col, |col|), Pow256(|e|))
  }

  ghost predicate IsMaximum(dt: DType, col: seq<seq<byte>>, e: seq<byte>) {
    e in col && forall r :: 0 <= r < |col| ==> Num(dt, col[r]) <= Num(dt, e)
  }

  ghost predicate IsMinimum(dt: DType, col: seq<seq<byte>>, e: seq<byte>) {
    e in col && forall r :: 0 <= r < |col| ==> Num(dt, e) <= Num(dt, col[r])
  }

  ghost predicate SomeTrue(col: seq<seq<byte>>) { exists r :: 0 <= r < |col| && col[r] != [0] }

  ghost predicate EveryTrue(col: seq<seq<byte>>) { forall r :: 0 <= r < |col| ==> col[r] != [0] }

  /** e is the ranks' elements col reduced by wire operation op. */
  ghost predicate ElementReduced(op: int, dt: DType, col: seq<seq<byte>>, e: seq<byte>) {
    if dt.Bool? then
      && (|col| > 1 ==> e == [0] || e == [1])
      && (op == 0 || op == 1 ==> (e != [0] <==> SomeTrue(col)))
      && (op == 2 ==> (e != [0] <==> EveryTrue(col)))
    else
      && (op == 0 ==> IsSum(dt, col, e))
      && (op == 1 ==> IsMaximum(dt, col, e))
      && (op == 2 ==> IsMinimum(dt, col, e))
  }

  /** dest is m elements, each reduced over all ranks. */
  ghost predicate IsReduction(op: int, dt: DType, srcs: seq<seq<byte>>, m: nat, dest: seq<byte>) {
    && op in {0, 1, 2} && Inputs(dt, srcs, m) && |dest| == Off(m, Size(dt))
    && forall j: nat :: j < m ==> ElementIs(op, dt, srcs, m, dest, j)
  }

  ghost predicate ElementIs(op: int, dt: DType, srcs: seq<seq<byte>>, m: nat, dest: seq<byte>, j: nat)
    requires Inputs(dt, srcs, m) && j < m && |dest| == Off(m, Size(dt))
  {
    OffBounds(j, m, Size(dt));
    ElementReduced(op, dt, Column(dt, srcs, m, j), Nth(dest, Size(dt), j))
  }

  /** The wire number of an operation. */
  predicate Wire(n: int, op: Op) { (n == 0 && op.Sum?) || (n == 1 && op.Max?) || (n == 2 && op.Min?) }

  lemma SumElement(dt: DType, col: seq<seq<byte>>)
    requires Supported(dt) && !dt.Bool? && col != [] && AllOfLength(col, Size(dt))
    ensures IsSum(dt, col, FoldElements(Sum, dt, col, |col|))
  {
    hide Size, Num, InRange, Congruent, Pow256;
    SumDenotes(dt, col, |col|);
  }

  lemma ExtremeElement(op: Op, dt: DType, col: seq<seq<byte>>)
    requires Supported(dt) && !dt.Bool? && !op.Sum? && col != [] && AllOfLength(col, Size(dt))
    ensures op.Max? ==> IsMaximum(dt, col, FoldElements(op, dt, col, |col|))
    ensures op.Min? ==> IsMinimum(dt, col, FoldElements(op, dt, col, |col|))
  {
    hide Size, Num;
    ExtremeMeans(op, dt, col, |col|);
  }

  lemma BoolElement(op: Op, col: seq<seq<byte>>)
    requires col != [] && AllOfLength(col, 1)
    ensures var e := FoldElements(op, Bool, col, |col|);
            && (|col| > 1 ==> e == [0] || e == [1])
            && if op.Min? then e != [0] <==> EveryTrue(col) else e != [0] <==> SomeTrue(col)
  {
    BoolMeans(op, col, |col|);
    hide FoldElements;
    var e := FoldElements(op, Bool, col, |col|);
    assert e == [e[0]] && forall r :: 0 <= r < |col| ==> col[r] == [col[r][0]];
  }

  lemma FoldedElement(n: int, op: Op, dt: DType, col: seq<seq<byte>>)
    requires Wire(n, op) && Supported(dt) && col != [] && AllOfLength(col, Size(dt))
    ensures ElementReduced(n, dt, col, FoldElements(op, dt, col, |col|))
  {
    hide IsSum, IsMaximum, IsMinimum, SomeTrue, EveryTrue, FoldElements;
    if dt.Bool? {
      BoolElement(op, col);
    } else if op.Sum? {
      SumElement(dt, col);
    } else {
      ExtremeElement(op, dt, col);
    }
  }

  /** The reference reduction is, element by element, what its wire number says. */
  lemma ReferenceMeans(n: int, op: Op, dt: DType, srcs: seq<seq<byte>>, m: nat)
    requires Wire(n, op) && Inputs(dt, srcs, m) && srcs != []
    ensures IsReduction(n, dt, srcs, m, Reference(op, dt, srcs, m, |srcs|))
  {
    hide Size, Off, Reference, ElementReduced, Column, Nth;
    var dest := Reference(op, dt, srcs, m, |srcs|);
    forall j: nat | j < m
      ensures ElementIs(n, dt, srcs, m, dest, j)
    {
      OffBounds(j, m, Size(dt));
      ReferenceElement(op, dt, srcs, m, j, |srcs|);
      FoldedElement(n, op, dt, Column(dt, srcs, m, j));
    }
  }

  /** So is one application of a kernel: each element of dst combined with the one of src. */
  lemma KernelMeans(n: int, op: Op, dt: DType, m: nat, dst: seq<byte>, src: seq<byte>)
    requires Wire(n, op) && Supported(dt) && |dst| == |src| == Off(m, Size(dt))
    ensures IsReduction(n, dt, [dst, src], m, Kernel(op, dt, m, dst, src))
  {
    hide Size, Off, Kernel, IsReduction;
    ReferenceMeans(n, op, dt, [dst, src], m);
    assert Reference(op, dt, [dst, src], m, 1) == dst;
  }
}
