/** Exact dot products over sequences: the value every accumulation loop of
    the kernels is proved to compute. */
module Sums {

  /** `a[0]*b[0] + ... + a[n-1]*b[n-1]`, summed from the left as the scalar loops do. */
  function Dot(a: seq<int>, b: seq<int>): int
    requires |a| == |b|
    decreases |a|
  {
    if |a| == 0 then 0 else Dot(a[..|a| - 1], b[..|b| - 1]) + a[|a| - 1] * b[|b| - 1]
  }

  /** One more term on the right. */
  lemma DotSnoc(a: seq<int>, b: seq<int>, x: int, y: int)
    requires |a| == |b|
    ensures Dot(a + [x], b + [y]) == Dot(a, b) + x * y
  {
    assert (a + [x])[..|a|] == a;
    assert (b + [y])[..|b|] == b;
  }

  /** A dot product splits at any index into the sum of its two halves. */
  lemma {:induction false} DotSplit(a: seq<int>, b: seq<int>, k: nat)
    requires |a| == |b| && k <= |a|
    ensures Dot(a, b) == Dot(a[..k], b[..k]) + Dot(a[k..], b[k..])
    decreases |a|
  {
    if k == |a| {
      assert a[..k] == a && b[..k] == b;
      assert a[k..] == [] && b[k..] == [];
    } else {
      var n := |a| - 1;
      var a', b' := a[..n], b[..n];
      var ta, tb := a[k..], b[k..];
      DotSplit(a', b', k);
      assert a'[..k] == a[..k] && b'[..k] == b[..k];
      assert a'[k..] == ta[..|ta| - 1] && b'[k..] == tb[..|tb| - 1];
      assert ta[|ta| - 1] == a[n] && tb[|tb| - 1] == b[n];
      assert Dot(ta, tb) == Dot(ta[..|ta| - 1], tb[..|tb| - 1]) + a[n] * b[n];
    }
  }

  /** Extending both prefixes by one element adds one product. */
  lemma DotPrefixStep(a: seq<int>, b: seq<int>, k: nat)
    requires |a| == |b| && k < |a|
    ensures Dot(a[..k + 1], b[..k + 1]) == Dot(a[..k], b[..k]) + a[k] * b[k]
  {
    assert a[..k + 1][..k] == a[..k] && b[..k + 1][..k] == b[..k];
  }
}
