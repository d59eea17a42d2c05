/** Bytes, and the slice copies the transports use. */
module Bytes {
  type byte = x: int | 0 <= x < 256

  /** 256^k: how many values k bytes have. */
  function Pow256(k: nat): (p: nat)
    ensures p > 0
  {
    if k == 0 then 1 else 256 * Pow256(k - 1)
  }

  function Least(a: nat, b: nat): nat { if a <= b then a else b }

  function Zeros(n: nat): (s: seq<byte>)
    ensures |s| == n && forall i :: 0 <= i < n ==> s[i] == 0
  {
    seq(n, _ => 0)
  }

  /** The effect of copy(zeroed[:n], v): truncate or pad with zeros. */
  function Fit(v: seq<byte>, n: nat): (s: seq<byte>)
    ensures |s| == n
  {
    if |v| >= n then v[..n] else v + Zeros(n - |v|)
  }

  /** mem with data written at offset off. */
  function Splice(mem: seq<byte>, off: nat, data: seq<byte>): (m: seq<byte>)
    requires off + |data| <= |mem|
    ensures |m| == |mem|
    ensures m[off..off + |data|] == data
    ensures forall i :: 0 <= i < |mem| && !(off <= i < off + |data|) ==> m[i] == mem[i]
  {
    mem[..off] + data + mem[off + |data|..]
  }

  /** mem holds data at offset at. */
  ghost predicate HasAt(mem: seq<byte>, at: int, data: seq<byte>) {
    0 <= at && at + |data| <= |mem| && mem[at..at + |data|] == data
  }

  /** i*e by repeated addition, so that block offsets stay linear for the prover. */
  function Off(i: nat, e: nat): nat {
    if i == 0 then 0 else Off(i - 1, e) + e
  }

  lemma {:induction false} OffIsProduct(i: nat, e: nat)
    ensures Off(i, e) == i * e
  {
    if i > 0 {
      OffIsProduct(i - 1, e);
      assert i * e == (i - 1) * e + e;
    }
  }

  lemma {:induction false} OffBounds(i: nat, n: nat, e: nat)
    requires i < n
    ensures Off(i, e) + e == Off(i + 1, e) <= Off(n, e)
  {
    if i + 1 < n {
      OffBounds(i, n - 1, e);
    }
  }

  lemma {:induction false} OffMonotone(i: nat, n: nat, e: nat)
    requires i <= n
    ensures Off(i, e) <= Off(n, e)
  {
    if i < n {
      OffMonotone(i, n - 1, e);
    }
  }

  /** Concatenation of blocks in order. */
  function Join(bs: seq<seq<byte>>): seq<byte> {
    if bs == [] then [] else Join(bs[..|bs| - 1]) + bs[|bs| - 1]
  }

  predicate AllOfLength(bs: seq<seq<byte>>, e: nat) {
    forall i :: 0 <= i < |bs| ==> |bs[i]| == e
  }

  lemma {:induction false} JoinLength(bs: seq<seq<byte>>, e: nat)
    requires AllOfLength(bs, e)
    ensures |Join(bs)| == Off(|bs|, e)
  {
    if bs != [] {
      JoinLength(bs[..|bs| - 1], e);
    }
  }

  lemma SliceOfAppend(a: seq<byte>, b: seq<byte>, lo: nat, hi: nat)
    requires lo <= hi <= |a|
    ensures (a + b)[lo..hi] == a[lo..hi]
  {
  }

  /** Block i of equally long blocks sits at offset i*e. */
  lemma {:induction false} JoinAt(bs: seq<seq<byte>>, e: nat, i: nat)
    requires AllOfLength(bs, e) && i < |bs|
    ensures Off(i, e) + e <= |Join(bs)|
    ensures Join(bs)[Off(i, e)..Off(i, e) + e] == bs[i]
    decreases |bs|
  {
    var last := |bs| - 1;
    var front := bs[..last];
    JoinLength(bs, e);
    JoinLength(front, e);
    OffBounds(i, |bs|, e);
    if i < last {
      JoinAt(front, e, i);
      SliceOfAppend(Join(front), bs[last], Off(i, e), Off(i, e) + e);
    } else {
      assert (Join(front) + bs[last])[|Join(front)|..] == bs[last];
    }
  }

  lemma JoinSnoc(bs: seq<seq<byte>>, k: nat)
    requires k < |bs|
    ensures Join(bs[..k + 1]) == Join(bs[..k]) + bs[k]
  {
    assert bs[..k + 1][..k] == bs[..k];
  }

  lemma SliceOfSlice(s: seq<byte>, a: nat, b: nat, c: nat, d: nat)
    requires a <= b <= |s| && c <= d <= b - a
    ensures s[a..b][c..d] == s[a + c..a + d]
  {
    var t := s[a..b];
    forall i | 0 <= i < d - c
      ensures t[c..d][i] == s[a + c..a + d][i]
    {
      assert t[c..d][i] == t[c + i] == s[a + (c + i)];
    }
  }

  /** A write leaves any disjoint slice as it was. */
  lemma SpliceElsewhere(mem: seq<byte>, off: nat, data: seq<byte>, lo: nat, hi: nat)
    requires off + |data| <= |mem| && lo <= hi <= |mem| && (hi <= off || off + |data| <= lo)
    ensures Splice(mem, off, data)[lo..hi] == mem[lo..hi]
  {
  }

  /** A write that continues a slice extends it by what was written. */
  lemma SpliceExtends(mem: seq<byte>, lo: nat, off: nat, data: seq<byte>)
    requires lo <= off && off + |data| <= |mem|
    ensures Splice(mem, off, data)[lo..off + |data|] == mem[lo..off] + data
  {
    var now := Splice(mem, off, data);
    assert now[lo..off + |data|] == now[lo..off] + now[off..off + |data|];
  }

  lemma {:induction false} JoinAppend(a: seq<seq<byte>>, b: seq<seq<byte>>)
    ensures Join(a + b) == Join(a) + Join(b)
    decreases |b|
  {
    if b == [] {
      assert a + b == a;
    } else {
      var front := b[..|b| - 1];
      assert (a + b)[..|a + b| - 1] == a + front;
      JoinAppend(a, front);
    }
  }

  lemma JoinHead(bs: seq<seq<byte>>)
    requires bs != []
    ensures Join(bs) == bs[0] + Join(bs[1..])
  {
    JoinAppend([bs[0]], bs[1..]);
    assert [bs[0]] + bs[1..] == bs;
    assert Join([bs[0]]) == Join([]) + bs[0];
  }
}
