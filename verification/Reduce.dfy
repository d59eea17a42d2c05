/**
  Element-wise reductions over byte buffers (internal/reduce/reduce.go) for the bool and
  integer dtypes. Elements are little-endian, as on the hosts the backend supports;
  integer sums wrap modulo 2^(8*size).

  Main result: folding the ranks' buffers from any rank's own value gives the same
  bytes as folding them in rank order, and each element of that reference is the
  wrapped sum, the maximum, the minimum, or the bool or/and over all ranks.
 */
module Reduce {
  import opened Bytes
  import opened Options

  datatype Op = Sum | Max | Min

  datatype DType =
    | Bool | Int8 | Int16 | Int32 | Int64 | Uint8 | Uint16 | Uint32 | Uint64
    | Float16 | BFloat16

  datatype ReduceError = NotMultiple | ShortDestination | UnsupportedType

  /** Element size in bytes. */
  function Size(dt: DType): (w: nat)
    ensures w in {1, 2, 4, 8}
  {
    match dt
    case Bool => 1
    case Int8 => 1
    case Uint8 => 1
    case Int16 => 2
    case Uint16 => 2
    case Float16 => 2
    case BFloat16 => 2
    case Int32 => 4
    case Uint32 => 4
    case Int64 => 8
    case Uint64 => 8
  }

  predicate Supported(dt: DType) { !dt.Float16? && !dt.BFloat16? }

  predicate Signed(dt: DType) { dt.Int8? || dt.Int16? || dt.Int32? || dt.Int64? }

  // ---- Little-endian integers ----

  function Value(bs: seq<byte>): nat {
    if bs == [] then 0 else bs[0] + 256 * Value(bs[1..])
  }

  function Digits(v: nat, w: nat): (bs: seq<byte>)
    ensures |bs| == w
  {
    if w == 0 then [] else [v % 256] + Digits(v / 256, w - 1)
  }

  lemma {:induction false} ValueBound(bs: seq<byte>)
    ensures Value(bs) < Pow256(|bs|)
  {
    if bs != [] {
      ValueBound(bs[1..]);
    }
  }

  lemma {:induction false} DigitsOfValue(bs: seq<byte>)
    ensures Digits(Value(bs), |bs|) == bs
  {
    if bs != [] {
      DigitsOfValue(bs[1..]);
      assert Value(bs) % 256 == bs[0] && Value(bs) / 256 == Value(bs[1..]);
    }
  }

  lemma {:induction false} ValueOfDigits(v: nat, w: nat)
    requires v < Pow256(w)
    ensures Value(Digits(v, w)) == v
  {
    if w > 0 {
      ValueOfDigits(v / 256, w - 1);
    }
  }

  lemma ValueInjective(a: seq<byte>, b: seq<byte>)
    requires |a| == |b| && Value(a) == Value(b)
    ensures a == b
  {
    DigitsOfValue(a);
    DigitsOfValue(b);
  }

  /** The number an element denotes. */
  function Num(dt: DType, e: seq<byte>): int {
    if Signed(dt) && 2 * Value(e) >= Pow256(|e|) then Value(e) - Pow256(|e|) else Value(e)
  }

  lemma NumInjective(dt: DType, a: seq<byte>, b: seq<byte>)
    requires |a| == |b| && Num(dt, a) == Num(dt, b)
    ensures a == b
  {
    ValueBound(a);
    ValueBound(b);
    ValueInjective(a, b);
  }

  // ---- One element ----

  /** Reduce a sum of two values below m into 0..m. */
  function Wrap(x: nat, m: nat): nat {
    if x >= m then x - m else x
  }

  function Truth(b: byte): bool { b != 0 }

  function FromTruth(t: bool): byte { if t then 1 else 0 }

  /** The body of applyOrdered and applyBool for one element. */
  function Combine(op: Op, dt: DType, a: seq<byte>, b: seq<byte>): (c: seq<byte>)
    requires |a| == |b| == Size(dt) && Supported(dt)
    ensures |c| == Size(dt)
  {
    if dt.Bool? then
      [FromTruth(if op.Min? then Truth(a[0]) && Truth(b[0]) else Truth(a[0]) || Truth(b[0]))]
    else
      match op
      case Sum => Digits(Wrap(Value(a) + Value(b), Pow256(|a|)), |a|)
      case Max => if Num(dt, b) > Num(dt, a) then b else a
      case Min => if Num(dt, b) < Num(dt, a) then b else a
  }

  lemma SumValue(dt: DType, a: seq<byte>, b: seq<byte>)
    requires |a| == |b| == Size(dt) && Supported(dt) && !dt.Bool?
    ensures Value(Combine(Sum, dt, a, b)) == Wrap(Value(a) + Value(b), Pow256(|a|)) < Pow256(|a|)
  {
    ValueBound(a);
    ValueBound(b);
    ValueOfDigits(Wrap(Value(a) + Value(b), Pow256(|a|)), |a|);
  }

  lemma CombineCommutes(op: Op, dt: DType, a: seq<byte>, b: seq<byte>)
    requires |a| == |b| == Size(dt) && Supported(dt)
    ensures Combine(op, dt, a, b) == Combine(op, dt, b, a)
  {
    if !dt.Bool? && !op.Sum? && Num(dt, a) == Num(dt, b) {
      NumInjective(dt, a, b);
    }
  }

  lemma CombineAssociates(op: Op, dt: DType, a: seq<byte>, b: seq<byte>, c: seq<byte>)
    requires |a| == |b| == |c| == Size(dt) && Supported(dt)
    ensures Combine(op, dt, Combine(op, dt, a, b), c) == Combine(op, dt, a, Combine(op, dt, b, c))
  {
    if !dt.Bool? && op.Sum? {
      SumAssociates(dt, a, b, c);
    }
  }

  lemma SumAssociates(dt: DType, a: seq<byte>, b: seq<byte>, c: seq<byte>)
    requires |a| == |b| == |c| == Size(dt) && Supported(dt) && !dt.Bool?
    ensures Combine(Sum, dt, Combine(Sum, dt, a, b), c) == Combine(Sum, dt, a, Combine(Sum, dt, b, c))
  {
    hide Pow256, Value, Combine, Size, Supported;
    var ab, bc := Combine(Sum, dt, a, b), Combine(Sum, dt, b, c);
    SumValue(dt, a, b);
    SumValue(dt, b, c);
    SumValue(dt, ab, c);
    SumValue(dt, a, bc);
    ValueBound(a);
    ValueBound(b);
    ValueBound(c);
    ValueInjective(Combine(Sum, dt, ab, c), Combine(Sum, dt, a, bc));
  }

  // ---- Whole buffers ----

  /** The j-th element of a buffer of w-byte elements. */
  function Nth(b: seq<byte>, w: nat, j: nat): (e: seq<byte>)
    requires Off(j, w) + w <= |b|
    ensures |e| == w
  {
    b[Off(j, w)..Off(j, w) + w]
  }

  /** The element-wise combinations of two buffers of m elements. */
  function Combined(op: Op, dt: DType, m: nat, dst: seq<byte>, src: seq<byte>): (es: seq<seq<byte>>)
    requires |dst| == |src| == Off(m, Size(dt)) && Supported(dt)
    ensures |es| == m && AllOfLength(es, Size(dt))
  {
    seq(m, j requires 0 <= j < m =>
      OffBounds(j, m, Size(dt));
      Combine(op, dt, Nth(dst, Size(dt), j), Nth(src, Size(dt), j)))
  }

  /** dst with every element combined with the matching element of src. */
  function Kernel(op: Op, dt: DType, m: nat, dst: seq<byte>, src: seq<byte>): (r: seq<byte>)
    requires |dst| == |src| == Off(m, Size(dt)) && Supported(dt)
    ensures |r| == |dst|
  {
    JoinLength(Combined(op, dt, m, dst, src), Size(dt));
    Join(Combined(op, dt, m, dst, src))
  }

  /** Element j of the result depends on element j of the operands only. */
  lemma KernelElement(op: Op, dt: DType, m: nat, dst: seq<byte>, src: seq<byte>, j: nat)
    requires |dst| == |src| == Off(m, Size(dt)) && Supported(dt) && j < m
    ensures Off(j, Size(dt)) + Size(dt) <= |src|
    ensures Nth(Kernel(op, dt, m, dst, src), Size(dt), j)
         == Combine(op, dt, Nth(dst, Size(dt), j), Nth(src, Size(dt), j))
  {
    hide Combine, Size, Nth;
    OffBounds(j, m, Size(dt));
    JoinAt(Combined(op, dt, m, dst, src), Size(dt), j);
    NthIs(Kernel(op, dt, m, dst, src), Size(dt), j);
  }

  lemma NthIs(b: seq<byte>, w: nat, j: nat)
    requires Off(j, w) + w <= |b|
    ensures Nth(b, w, j) == b[Off(j, w)..Off(j, w) + w]
  {
  }

  lemma KernelCommutes(op: Op, dt: DType, m: nat, a: seq<byte>, b: seq<byte>)
    requires |a| == |b| == Off(m, Size(dt)) && Supported(dt)
    ensures Kernel(op, dt, m, a, b) == Kernel(op, dt, m, b, a)
  {
    hide Combine, Size, Nth;
    forall j | 0 <= j < m
      ensures Combined(op, dt, m, a, b)[j] == Combined(op, dt, m, b, a)[j]
    {
      OffBounds(j, m, Size(dt));
      CombineCommutes(op, dt, Nth(a, Size(dt), j), Nth(b, Size(dt), j));
    }
    assert Combined(op, dt, m, a, b) == Combined(op, dt, m, b, a);
  }

  lemma KernelAssociates(op: Op, dt: DType, m: nat, a: seq<byte>, b: seq<byte>, c: seq<byte>)
    requires |a| == |b| == |c| == Off(m, Size(dt)) && Supported(dt)
    ensures Kernel(op, dt, m, Kernel(op, dt, m, a, b), c) == Kernel(op, dt, m, a, Kernel(op, dt, m, b, c))
  {
    hide Combine, Size, Nth;
    var ab, bc := Kernel(op, dt, m, a, b), Kernel(op, dt, m, b, c);
    forall j | 0 <= j < m
      ensures Combined(op, dt, m, ab, c)[j] == Combined(op, dt, m, a, bc)[j]
    {
      var w := Size(dt);
      OffBounds(j, m, w);
      KernelElement(op, dt, m, a, b, j);
      KernelElement(op, dt, m, b, c, j);
      CombineAssociates(op, dt, Nth(a, w, j), Nth(b, w, j), Nth(c, w, j));
    }
    assert Combined(op, dt, m, ab, c) == Combined(op, dt, m, a, bc);
  }

  lemma KernelSwaps(op: Op, dt: DType, m: nat, a: seq<byte>, b: seq<byte>, c: seq<byte>)
    requires |a| == |b| == |c| == Off(m, Size(dt)) && Supported(dt)
    ensures Kernel(op, dt, m, Kernel(op, dt, m, a, b), c) == Kernel(op, dt, m, Kernel(op, dt, m, a, c), b)
  {
    hide Kernel, Size;
    KernelAssociates(op, dt, m, a, b, c);
    KernelCommutes(op, dt, m, b, c);
    KernelAssociates(op, dt, m, a, c, b);
  }

  /** The destination once the first k elements have been combined in place. */
  ghost function Progress(op: Op, dt: DType, m: nat, was: seq<byte>, off: nat, src: seq<byte>, k: nat): (now: seq<byte>)
    requires |src| == Off(m, Size(dt)) && off + |src| <= |was| && Supported(dt) && k <= m
    ensures |now| == |was|
  {
    var es := Combined(op, dt, m, was[off..off + |src|], src)[..k];
    JoinLength(es, Size(dt));
    OffMonotone(k, m, Size(dt));
    Splice(was, off, Join(es))
  }

  lemma ProgressStep(op: Op, dt: DType, m: nat, was: seq<byte>, off: nat, src: seq<byte>, k: nat)
    requires |src| == Off(m, Size(dt)) && off + |src| <= |was| && Supported(dt) && k < m
    ensures var w, at := Size(dt), Off(k, Size(dt));
            var now := Progress(op, dt, m, was, off, src, k);
            && at + w <= |src|
            && Progress(op, dt, m, was, off, src, k + 1)
               == Splice(now, off + at, Combine(op, dt, now[off + at..off + at + w], src[at..at + w]))
  {
    hide Combine, Size, Off, Join, Splice, Supported;
    var w, at := Size(dt), Off(k, Size(dt));
    var dst := was[off..off + |src|];
    var es := Combined(op, dt, m, dst, src);
    var now := Progress(op, dt, m, was, off, src, k);
    OffBounds(k, m, w);
    JoinLength(es[..k], w);
    JoinSnoc(es, k);
    SpliceElsewhere(was, off, Join(es[..k]), off + at, off + at + w);
    SliceOfSlice(was, off, off + |src|, at, at + w);
    SpliceTwice(was, off, Join(es[..k]), es[k]);
  }

  lemma SpliceTwice(was: seq<byte>, off: nat, a: seq<byte>, b: seq<byte>)
    requires off + |a| + |b| <= |was|
    ensures Splice(Splice(was, off, a), off + |a|, b) == Splice(was, off, a + b)
  {
    var l, r := Splice(Splice(was, off, a), off + |a|, b), Splice(was, off, a + b);
    assert l == was[..off] + a + b + was[off + |a| + |b|..];
    assert r == was[..off] + a + b + was[off + |a| + |b|..];
  }

  lemma WholeCount(len: nat, w: nat)
    requires w > 0 && len % w == 0
    ensures len == Off(len / w, w)
  {
    OffIsProduct(len / w, w);
  }

  /**
    reduce.apply: checks the sizes, then combines src into mem[off..off+|src|] in place.
    room is the length of the destination slice.
   */
  method Apply(op: Op, dt: DType, mem: array<byte>, off: nat, room: nat, src: seq<byte>)
    returns (err: Option<ReduceError>)
    requires off + room <= mem.Length
    modifies mem
    ensures err == None <==> |src| % Size(dt) == 0 && |src| <= room && Supported(dt)
    ensures err == Some(NotMultiple) <==> |src| % Size(dt) != 0
    ensures err == Some(ShortDestination) <==> |src| % Size(dt) == 0 && room < |src|
    ensures err == None ==>
              && |src| == Off(|src| / Size(dt), Size(dt))
              && mem[..] == Splice(old(mem[..]), off,
                                   Kernel(op, dt, |src| / Size(dt), old(mem[..])[off..off + |src|], src))
    ensures err != None ==> mem[..] == old(mem[..])
  {
    var w := Size(dt);
    if |src| % w != 0 { return Some(NotMultiple); }
    if room < |src| { return Some(ShortDestination); }
    if !Supported(dt) { return Some(UnsupportedType); }
    var m := |src| / w;
    WholeCount(|src|, w);
    ApplyElements(op, dt, m, mem, off, src);
    return None;
  }

  lemma ProgressEnds(op: Op, dt: DType, m: nat, was: seq<byte>, off: nat, src: seq<byte>)
    requires |src| == Off(m, Size(dt)) && off + |src| <= |was| && Supported(dt)
    ensures Progress(op, dt, m, was, off, src, 0) == was
    ensures Progress(op, dt, m, was, off, src, m) == Splice(was, off, Kernel(op, dt, m, was[off..off + |src|], src))
  {
    hide Size, Off, Combine, Combined;
    var es := Combined(op, dt, m, was[off..off + |src|], src);
    assert es[..m] == es;
  }

  /** applyOrdered and applyBool: one element at a time. */
  method ApplyElements(op: Op, dt: DType, m: nat, mem: array<byte>, off: nat, src: seq<byte>)
    requires |src| == Off(m, Size(dt)) && off + |src| <= mem.Length && Supported(dt)
    modifies mem
    ensures mem[..] == Splice(old(mem[..]), off, Kernel(op, dt, m, old(mem[..])[off..off + |src|], src))
  {
    hide Size, Off, Combine, Combined, Progress, Kernel, Splice;
    var w := Size(dt);
    ghost var was := mem[..];
    ProgressEnds(op, dt, m, was, off, src);
    for k := 0 to m
      invariant mem[..] == Progress(op, dt, m, was, off, src, k)
    {
      ProgressStep(op, dt, m, was, off, src, k);
      var at := off + Off(k, w);
      Store(mem, at, Combine(op, dt, mem[..][at..at + w], src[at - off..at - off + w]));
    }
  }

  method Store(mem: array<byte>, at: nat, data: seq<byte>)
    requires at + |data| <= mem.Length
    modifies mem
    ensures mem[..] == Splice(old(mem[..]), at, data)
  {
    ghost var was := mem[..];
    for i := 0 to |data|
      invariant forall j :: 0 <= j < mem.Length ==> mem[j] == if at <= j < at + i then data[j - at] else was[j]
    {
      mem[at + i] := data[i];
    }
    ghost var now := Splice(was, at, data);
    forall j | 0 <= j < mem.Length
      ensures mem[j] == now[j]
    {
      if at <= j < at + |data| {
        assert now[j] == now[at..at + |data|][j - at];
      }
    }
  }

  // ---- All ranks ----

  /** Buffers of m whole elements, one per rank. */
  predicate Inputs(dt: DType, inputs: seq<seq<byte>>, m: nat) {
    Supported(dt) && AllOfLength(inputs, Off(m, Size(dt)))
  }

  /** acc combined with inputs 0..k in rank order, leaving out rank skip. */
  function FoldSkipping(op: Op, dt: DType, inputs: seq<seq<byte>>, m: nat, acc: seq<byte>, skip: nat, k: nat)
    : (r: seq<byte>)
    requires Inputs(dt, inputs, m) && |acc| == Off(m, Size(dt)) && k <= |inputs|
    ensures |r| == Off(m, Size(dt))
  {
    if k == 0 then acc
    else
      var rest := FoldSkipping(op, dt, inputs, m, acc, skip, k - 1);
      if k - 1 == skip then rest else Kernel(op, dt, m, rest, inputs[k - 1])
  }

  /** What rank r computes: its own buffer, then every other rank's in rank order. */
  function RankResult(op: Op, dt: DType, inputs: seq<seq<byte>>, m: nat, r: nat): seq<byte>
    requires Inputs(dt, inputs, m) && r < |inputs|
  {
    FoldSkipping(op, dt, inputs, m, inputs[r], r, |inputs|)
  }

  /** The reduction in rank order starting from rank 0. */
  function Reference(op: Op, dt: DType, inputs: seq<seq<byte>>, m: nat, k: nat): (r: seq<byte>)
    requires Inputs(dt, inputs, m) && 0 < k <= |inputs|
    ensures |r| == Off(m, Size(dt))
  {
    if k == 1 then inputs[0] else Kernel(op, dt, m, Reference(op, dt, inputs, m, k - 1), inputs[k - 1])
  }

  lemma {:induction false} FoldPullsOut(op: Op, dt: DType, inputs: seq<seq<byte>>, m: nat, x: seq<byte>, skip: nat,
                                        k: nat)
    requires Inputs(dt, inputs, m) && |x| == Off(m, Size(dt)) && 0 < k <= |inputs| && k <= skip
    ensures FoldSkipping(op, dt, inputs, m, x, skip, k) == Kernel(op, dt, m, Reference(op, dt, inputs, m, k), x)
    decreases k
  {
    if k == 1 {
      assert FoldSkipping(op, dt, inputs, m, x, skip, 0) == x;
      KernelCommutes(op, dt, m, x, inputs[0]);
    } else {
      FoldPullsOut(op, dt, inputs, m, x, skip, k - 1);
      KernelSwaps(op, dt, m, Reference(op, dt, inputs, m, k - 1), x, inputs[k - 1]);
    }
  }

  lemma {:induction false} FoldReachesReference(op: Op, dt: DType, inputs: seq<seq<byte>>, m: nat, r: nat, k: nat)
    requires Inputs(dt, inputs, m) && r < k <= |inputs|
    ensures FoldSkipping(op, dt, inputs, m, inputs[r], r, k) == Reference(op, dt, inputs, m, k)
    decreases k
  {
    hide Kernel, Size, Off;
    if k == r + 1 {
      if r > 0 {
        FoldPullsOut(op, dt, inputs, m, inputs[r], r, r);
      }
    } else {
      FoldReachesReference(op, dt, inputs, m, r, k - 1);
    }
  }

  /** Every rank computes the reference, although each starts from its own value. */
  lemma AllRanksAgree(op: Op, dt: DType, inputs: seq<seq<byte>>, m: nat, r: nat)
    requires Inputs(dt, inputs, m) && r < |inputs|
    ensures RankResult(op, dt, inputs, m, r) == Reference(op, dt, inputs, m, |inputs|)
  {
    FoldReachesReference(op, dt, inputs, m, r, |inputs|);
  }

  // ---- What the reference means, element by element ----

  /** The ranks' j-th elements. */
  function Column(dt: DType, inputs: seq<seq<byte>>, m: nat, j: nat): (col: seq<seq<byte>>)
    requires Inputs(dt, inputs, m) && j < m
    ensures |col| == |inputs| && AllOfLength(col, Size(dt))
  {
    OffBounds(j, m, Size(dt));
    seq(|inputs|, r requires 0 <= r < |inputs| => Nth(inputs[r], Size(dt), j))
  }

  function FoldElements(op: Op, dt: DType, col: seq<seq<byte>>, k: nat): (e: seq<byte>)
    requires Supported(dt) && AllOfLength(col, Size(dt)) && 0 < k <= |col|
    ensures |e| == Size(dt)
  {
    if k == 1 then col[0] else Combine(op, dt, FoldElements(op, dt, col, k - 1), col[k - 1])
  }

  /** Element j of the reference is the fold of the ranks' j-th elements. */
  lemma {:induction false} ReferenceElement(op: Op, dt: DType, inputs: seq<seq<byte>>, m: nat, j: nat, k: nat)
    requires Inputs(dt, inputs, m) && j < m && 0 < k <= |inputs|
    ensures Off(j, Size(dt)) + Size(dt) <= Off(m, Size(dt))
    ensures Nth(Reference(op, dt, inputs, m, k), Size(dt), j) == FoldElements(op, dt, Column(dt, inputs, m, j), k)
  {
    hide Combine, Kernel, Size, Nth;
    OffBounds(j, m, Size(dt));
    if k > 1 {
      ReferenceElement(op, dt, inputs, m, j, k - 1);
      KernelElement(op, dt, m, Reference(op, dt, inputs, m, k - 1), inputs[k - 1], j);
    }
  }

  function SumOfValues(col: seq<seq<byte>>, k: nat): nat
    requires k <= |col|
  {
    if k == 0 then 0 else SumOfValues(col, k - 1) + Value(col[k - 1])
  }

  /** x modulo m, by repeated subtraction. */
  function Residue(x: nat, m: nat): (r: nat)
    requires m > 0
    ensures r < m && r <= x
  {
    if x < m then x else Residue(x - m, m)
  }

  lemma ResidueOfSmall(x: nat, m: nat)
    requires x < m
    ensures Residue(x, m) == x
  {
  }

  lemma {:induction false} ResidueIsMod(x: nat, m: nat)
    requires m > 0
    ensures exists q: nat :: x == q * m + Residue(x, m)
  {
    if x < m {
      assert x == 0 * m + Residue(x, m);
    } else {
      ResidueIsMod(x - m, m);
      var q: nat :| x - m == q * m + Residue(x - m, m);
      assert x == (q + 1) * m + Residue(x, m);
    }
  }

  lemma {:induction false} WrapIsResidue(s: nat, y: nat, m: nat)
    requires m > 0 && y < m
    ensures Wrap(Residue(s, m) + y, m) == Residue(s + y, m)
    decreases s
  {
    if s >= m {
      WrapIsResidue(s - m, y, m);
    }
  }

  /** Sums of integers wrap modulo 2^(8*size). */
  lemma {:induction false} SumMeans(dt: DType, col: seq<seq<byte>>, k: nat)
    requires Supported(dt) && !dt.Bool? && AllOfLength(col, Size(dt)) && 0 < k <= |col|
    ensures Pow256(Size(dt)) > 0
    ensures Value(FoldElements(Sum, dt, col, k)) == Residue(SumOfValues(col, k), Pow256(Size(dt)))
  {
    hide *;
    var mod := Pow256(Size(dt));
    ColumnAt(dt, col, k);
    ValueBound(col[k - 1]);
    if k == 1 {
      ResidueOfSmall(Value(col[0]), mod);
    } else {
      SumMeans(dt, col, k - 1);
      SumValue(dt, FoldElements(Sum, dt, col, k - 1), col[k - 1]);
      WrapIsResidue(SumOfValues(col, k - 1), Value(col[k - 1]), mod);
    }
  }

  /** One unfolding of the fold and of the sum. */
  lemma ColumnAt(dt: DType, col: seq<seq<byte>>, k: nat)
    requires Supported(dt) && AllOfLength(col, Size(dt)) && 0 < k <= |col|
    ensures |col[k - 1]| == Size(dt) && (k == 1 ==> SumOfValues(col, k) == Value(col[0]))
    ensures SumOfValues(col, k) == SumOfValues(col, k - 1) + Value(col[k - 1])
    ensures FoldElements(Sum, dt, col, k)
         == if k == 1 then col[0] else Combine(Sum, dt, FoldElements(Sum, dt, col, k - 1), col[k - 1])
  {
    hide Combine, Value, Size;
  }

  function Times(k: int, m: int): int { k * m }

  /** x and y differ by a multiple of m. */
  ghost predicate Congruent(x: int, y: int, m: int) { exists k: int :: x == y + Times(k, m) }

  /** The numbers an element of dt can denote: two's complement for the signed types. */
  predicate InRange(dt: DType, x: int) {
    if Signed(dt) then 0 <= 2 * x + Pow256(Size(dt)) && 2 * x < Pow256(Size(dt)) else 0 <= x < Pow256(Size(dt))
  }

  function SumOfNums(dt: DType, col: seq<seq<byte>>, k: nat): int
    requires k <= |col|
  {
    if k == 0 then 0 else SumOfNums(dt, col, k - 1) + Num(dt, col[k - 1])
  }

  lemma NumInRange(dt: DType, e: seq<byte>)
    requires |e| == Size(dt)
    ensures InRange(dt, Num(dt, e))
  {
    ValueBound(e);
  }

  /** One addition of denoted numbers is right up to a multiple of the modulus. */
  lemma NumOfSum(dt: DType, a: seq<byte>, b: seq<byte>)
    requires |a| == |b| == Size(dt) && Supported(dt) && !dt.Bool?
    ensures Congruent(Num(dt, Combine(Sum, dt, a, b)), Num(dt, a) + Num(dt, b), Pow256(Size(dt)))
  {
    hide Combine, Value, Pow256, Size;
    var c, m := Combine(Sum, dt, a, b), Pow256(Size(dt));
    SumValue(dt, a, b);
    var over := Value(a) + Value(b) >= m;
    TimesOfBits(Wraps(dt, a), Wraps(dt, b), Wraps(dt, c), over, m);
    var k := Bit(Wraps(dt, c)) + Bit(over) - Bit(Wraps(dt, a)) - Bit(Wraps(dt, b));
    assert Num(dt, c) == Num(dt, a) + Num(dt, b) + Times(-k, m);
  }

  /** The denoted number lies one modulus below the unsigned value. */
  predicate Wraps(dt: DType, e: seq<byte>) { Signed(dt) && 2 * Value(e) >= Pow256(|e|) }

  function Bit(b: bool): int { if b then 1 else 0 }

  lemma TimesOfBits(a: bool, b: bool, c: bool, d: bool, m: int)
    ensures Times(-(Bit(c) + Bit(d) - Bit(a) - Bit(b)), m)
         == (if a then m else 0) + (if b then m else 0) - (if c then m else 0) - (if d then m else 0)
  {
  }

  lemma CongruentAdds(x: int, y: int, u: int, v: int, m: int)
    requires Congruent(x, y + u, m) && Congruent(y, v, m)
    ensures Congruent(x, v + u, m)
  {
    var j: int :| x == y + u + Times(j, m);
    var k: int :| y == v + Times(k, m);
    assert x == v + u + Times(j + k, m);
  }

  /** The sum denotes the wrapped two's-complement or unsigned sum: in range, and off by a multiple of 2^(8*size). */
  lemma {:induction false} SumDenotes(dt: DType, col: seq<seq<byte>>, k: nat)
    requires Supported(dt) && !dt.Bool? && AllOfLength(col, Size(dt)) && 0 < k <= |col|
    ensures InRange(dt, Num(dt, FoldElements(Sum, dt, col, k)))
    ensures Congruent(Num(dt, FoldElements(Sum, dt, col, k)), SumOfNums(dt, col, k), Pow256(Size(dt)))
  {
    hide Combine, Num, Pow256, InRange, Size, Supported;
    NumInRange(dt, FoldElements(Sum, dt, col, k));
    if k == 1 {
      assert SumOfNums(dt, col, 0) == 0;
      assert Num(dt, col[0]) == Num(dt, col[0]) + Times(0, Pow256(Size(dt)));
    } else {
      SumDenotes(dt, col, k - 1);
      var rest := FoldElements(Sum, dt, col, k - 1);
      NumOfSum(dt, rest, col[k - 1]);
      CongruentAdds(Num(dt, FoldElements(Sum, dt, col, k)), Num(dt, rest), Num(dt, col[k - 1]),
        SumOfNums(dt, col, k - 1), Pow256(Size(dt)));
    }
  }

  /** The maximum is one of the ranks' elements and none is above it; the minimum likewise. */
  lemma {:induction false} ExtremeMeans(op: Op, dt: DType, col: seq<seq<byte>>, k: nat)
    requires Supported(dt) && !dt.Bool? && !op.Sum? && AllOfLength(col, Size(dt)) && 0 < k <= |col|
    ensures var best := FoldElements(op, dt, col, k);
            && (exists r :: 0 <= r < k && best == col[r])
            && (forall r :: 0 <= r < k ==>
                  if op.Max? then Num(dt, col[r]) <= Num(dt, best) else Num(dt, best) <= Num(dt, col[r]))
  {
    if k == 1 {
      assert FoldElements(op, dt, col, k) == col[0];
    } else {
      ExtremeMeans(op, dt, col, k - 1);
    }
  }

  /** Bool sum and max are "some rank is true" and min is "every rank is true"; any combination is 0 or 1. */
  lemma {:induction false} BoolMeans(op: Op, col: seq<seq<byte>>, k: nat)
    requires AllOfLength(col, 1) && 0 < k <= |col|
    ensures var b := FoldElements(op, Bool, col, k)[0];
            && (k > 1 ==> b <= 1)
            && (op.Min? ==> (Truth(b) <==> forall r :: 0 <= r < k ==> Truth(col[r][0])))
            && (!op.Min? ==> (Truth(b) <==> exists r :: 0 <= r < k && Truth(col[r][0])))
  {
    if k > 1 {
      BoolMeans(op, col, k - 1);
    }
  }
}
