/** The in-place radix-2 transform of fingerprint/fft.go, over exact complex arithmetic.
    `root(L)` stands for the pair (cos, sin) of -2*pi/L the source computes per stage. */
module Fft {
  import opened Complexes

  function Pow2(m: nat): (r: nat)
    ensures r >= 1
  {
    if m == 0 then 1 else 2 * Pow2(m - 1)
  }

  /** What the transform needs of its twiddle factors: each stage's root squares to the
      stage below's, and the first stage's is minus one. */
  ghost predicate Roots(root: nat -> Complex, m: nat) {
    && (m >= 1 ==> root(2) == MINUS_ONE)
    && forall l: nat :: 2 <= l <= m ==> SquaresDown(root, l)
  }

  ghost predicate SquaresDown(root: nat -> Complex, l: nat) {
    l >= 1 && Mul(root(Pow2(l)), root(Pow2(l))) == root(Pow2(l - 1))
  }

  // ---------------------------------------------------------------------------
  // Reference: the discrete Fourier transform
  // ---------------------------------------------------------------------------

  /** The first `upTo` terms of bin k of the transform of x: the sum of x[j] * w^(j*k). */
  ghost function DftSum(x: seq<Complex>, w: Complex, k: nat, upTo: nat): Complex
    requires upTo <= |x|
  {
    if upTo == 0 then ZERO
    else Add(DftSum(x, w, k, upTo - 1), Mul(x[upTo - 1], Pow(w, (upTo - 1) * k)))
  }

  ghost function Dft(x: seq<Complex>, w: Complex): seq<Complex> {
    seq(|x|, k requires 0 <= k => DftSum(x, w, k, |x|))
  }

  /** The polynomial with coefficients x at z, by Horner's rule. */
  ghost function Eval(x: seq<Complex>, z: Complex): Complex {
    if x == [] then ZERO else Add(x[0], Mul(z, Eval(x[1..], z)))
  }

  lemma {:induction false} EvalSnoc(x: seq<Complex>, c: Complex, z: Complex)
    ensures Eval(x + [c], z) == Add(Eval(x, z), Mul(c, Pow(z, |x|)))
  {
    if x == [] {
      assert [c][1..] == [];
    } else {
      var t := x[1..];
      EvalSnoc(t, c, z);
      assert (x + [c])[1..] == t + [c];
      SnocStep(x[0], z, Eval(t, z), c, Pow(z, |t|));
    }
  }

  lemma SnocStep(a: Complex, z: Complex, e: Complex, c: Complex, p: Complex)
    ensures Add(a, Mul(z, Add(e, Mul(c, p)))) == Add(Add(a, Mul(z, e)), Mul(c, Mul(p, z)))
  {
    hide Mul;
    MulDistributes(z, e, Mul(c, p));
    MulCommutes(z, Mul(c, p));
    MulAssociates(c, p, z);
  }

  lemma {:induction false} PowOfPow(w: Complex, k: nat, j: nat)
    ensures Pow(Pow(w, k), j) == Pow(w, j * k)
  {
    hide Mul;
    if j > 0 {
      PowOfPow(w, k, j - 1);
      PowAdds(w, (j - 1) * k, k);
      assert (j - 1) * k + k == j * k;
    }
  }

  /** Each bin is the signal's polynomial at a power of the root. */
  lemma {:induction false} DftIsEval(x: seq<Complex>, w: Complex, k: nat, upTo: nat)
    requires upTo <= |x|
    ensures DftSum(x, w, k, upTo) == Eval(x[..upTo], Pow(w, k))
  {
    hide Mul;
    if upTo > 0 {
      DftIsEval(x, w, k, upTo - 1);
      assert x[..upTo] == x[..upTo - 1] + [x[upTo - 1]];
      EvalSnoc(x[..upTo - 1], x[upTo - 1], Pow(w, k));
      PowOfPow(w, k, upTo - 1);
    }
  }

  // ---------------------------------------------------------------------------
  // Decimation in time
  // ---------------------------------------------------------------------------

  ghost function Evens(x: seq<Complex>): seq<Complex>
    requires |x| % 2 == 0
  {
    seq(|x| / 2, j requires 0 <= j < |x| / 2 => x[2 * j])
  }

  ghost function Odds(x: seq<Complex>): seq<Complex>
    requires |x| % 2 == 0
  {
    seq(|x| / 2, j requires 0 <= j < |x| / 2 => x[2 * j + 1])
  }

  lemma {:induction false} EvalSplits(x: seq<Complex>, z: Complex)
    requires |x| % 2 == 0
    ensures Eval(x, z) == Add(Eval(Evens(x), Mul(z, z)), Mul(z, Eval(Odds(x), Mul(z, z))))
  {
    hide Mul, Add;
    if x == [] {
      NothingSplits(z);
      assert Evens(x) == [] && Odds(x) == [];
    } else {
      var t := x[2..];
      EvalSplits(t, z);
      assert Evens(x)[0] == x[0] && Odds(x)[0] == x[1];
      assert Evens(x)[1..] == Evens(t);
      assert Odds(x)[1..] == Odds(t);
      assert x[1..][1..] == t;
      assert Eval(x[1..], z) == Add(x[1], Mul(z, Eval(t, z)));
      SplitStep(x[0], x[1], z, Eval(Evens(t), Mul(z, z)), Eval(Odds(t), Mul(z, z)), Eval(t, z));
    }
  }

  lemma NothingSplits(z: Complex)
    ensures Add(ZERO, Mul(z, ZERO)) == ZERO
  {}

  lemma SplitStep(a: Complex, b: Complex, z: Complex, e: Complex, o: Complex, t: Complex)
    requires t == Add(e, Mul(z, o))
    ensures Add(a, Mul(z, Add(b, Mul(z, t))))
         == Add(Add(a, Mul(Mul(z, z), e)), Mul(z, Add(b, Mul(Mul(z, z), o))))
  {
    hide Mul;
    MulDistributes(z, b, Mul(z, t));
    MulAssociates(z, z, t);
    MulDistributes(Mul(z, z), e, Mul(z, o));
    MulAssociates(Mul(z, z), z, o);
    MulAssociates(z, Mul(z, z), o);
    MulCommutes(Mul(z, z), z);
    MulDistributes(z, b, Mul(Mul(z, z), o));
  }

  /** Halfway round, a stage's root is minus one. */
  lemma {:induction false} RootHalfway(root: nat -> Complex, m: nat)
    requires m >= 1 && Roots(root, m)
    ensures Pow(root(Pow2(m)), Pow2(m - 1)) == MINUS_ONE
  {
    hide Mul;
    if m == 1 {
      assert Pow2(0) == 1 && Pow2(1) == 2;
      PowOne(root(2));
    } else {
      var w := root(Pow2(m));
      RootHalfway(root, m - 1);
      assert SquaresDown(root, m);
      PowOfSquare(w, Pow2(m - 2));
    }
  }

  /** Bin k of a combined pair of half-length transforms: both halves of a butterfly. */
  ghost function Bin(w: Complex, e: seq<Complex>, o: seq<Complex>, k: nat): Complex
    requires |e| == |o| && k < 2 * |e|
  {
    if k < |e| then Add(e[k], Mul(o[k], Pow(w, k)))
    else Sub(e[k - |e|], Mul(o[k - |e|], Pow(w, k - |e|)))
  }

  ghost function Combine(w: Complex, e: seq<Complex>, o: seq<Complex>): (r: seq<Complex>)
    requires |e| == |o|
    ensures |r| == 2 * |e|
  {
    seq(2 * |e|, k requires 0 <= k < 2 * |e| => Bin(w, e, o, k))
  }

  lemma EvenLength(m: nat)
    requires m >= 1
    ensures Pow2(m) % 2 == 0 && Pow2(m) / 2 == Pow2(m - 1)
  {}

  /** The bin of a transform is the butterfly of the same bin of its halves' transforms. */
  lemma BinIsButterfly(root: nat -> Complex, m: nat, x: seq<Complex>, k: nat)
    requires m >= 1 && |x| == Pow2(m) && Roots(root, m) && k < |x| && |x| % 2 == 0
    ensures Dft(x, root(Pow2(m)))[k]
         == Bin(root(Pow2(m)), Dft(Evens(x), root(Pow2(m - 1))), Dft(Odds(x), root(Pow2(m - 1))), k)
  {
    hide Mul;
    var h := Pow2(m - 1);
    var w, v := root(Pow2(m)), root(h);
    var q := if k < h then k else k - h;
    var z, y := Pow(w, k), Pow(w, q);
    FullBin(x, w, k);
    FullBin(Evens(x), v, q);
    FullBin(Odds(x), v, q);
    EvalSplits(x, z);
    assert Mul(y, y) == Pow(v, q) by {
      PowOfSquare(w, q);
      if m == 1 {
        assert q == 0;
        PowOfSquare(w, 0);
      } else {
        assert SquaresDown(root, m);
      }
    }
    MulCommutes(y, Eval(Odds(x), Pow(v, q)));
    if k >= h {
      PowAdds(w, q, h);
      RootHalfway(root, m);
      NegatedFactor(y, z, Eval(Evens(x), Pow(v, q)), Eval(Odds(x), Pow(v, q)));
    }
  }

  lemma FullBin(x: seq<Complex>, w: Complex, k: nat)
    requires k < |x|
    ensures Dft(x, w)[k] == Eval(x, Pow(w, k))
  {
    DftIsEval(x, w, k, |x|);
    assert x[..|x|] == x;
  }

  lemma NegatedFactor(y: Complex, z: Complex, e: Complex, o: Complex)
    requires z == Mul(y, MINUS_ONE)
    ensures Mul(z, z) == Mul(y, y)
    ensures Add(e, Mul(z, o)) == Sub(e, Mul(y, o))
  {
    assert z.re == -y.re && z.im == -y.im;
  }

  /** What the butterfly stages compute of a block in bit-reversed order. */
  ghost function Transform(root: nat -> Complex, s: seq<Complex>, m: nat): (r: seq<Complex>)
    requires |s| == Pow2(m)
    ensures |r| == |s|
    decreases m
  {
    if m == 0 then s
    else
      var h := Pow2(m - 1);
      Combine(root(Pow2(m)), Transform(root, s[..h], m - 1), Transform(root, s[h..], m - 1))
  }

  // ---------------------------------------------------------------------------
  // Bit reversal
  // ---------------------------------------------------------------------------

  /** The m low bits of i, reversed. */
  function Rev(m: nat, i: nat): (r: nat)
    ensures r < Pow2(m)
  {
    if m == 0 then 0 else (if i % 2 == 1 then Pow2(m - 1) else 0) + Rev(m - 1, i / 2)
  }

  lemma Pow2Base()
    ensures Pow2(0) == 1 && Pow2(1) == 2
  {}

  lemma Pow2Step(m: nat)
    requires m >= 1
    ensures Pow2(m) == 2 * Pow2(m - 1)
  {}

  lemma RevStep(m: nat, i: nat)
    requires m >= 1
    ensures Rev(m, i) == (if i % 2 == 1 then Pow2(m - 1) else 0) + Rev(m - 1, i / 2)
  {}

  /** The same number, read from the other end. */
  lemma {:induction false} RevFromTop(m: nat, p: nat)
    requires m >= 1 && p < Pow2(m - 1)
    ensures Rev(m, p) == 2 * Rev(m - 1, p)
    ensures Rev(m, Pow2(m - 1) + p) == 2 * Rev(m - 1, p) + 1
  {
    hide Rev, Pow2;
    Pow2Base();
    RevStep(m, p);
    RevStep(m, Pow2(m - 1) + p);
    if m >= 2 {
      Pow2Step(m - 1);
      RevStep(m - 1, p);
      RevFromTop(m - 1, p / 2);
    }
  }

  lemma {:induction false} RevInvolution(m: nat, i: nat)
    requires i < Pow2(m)
    ensures Rev(m, Rev(m, i)) == i
  {
    hide Rev, Pow2;
    Pow2Base();
    if m >= 1 {
      Pow2Step(m);
      RevStep(m, i);
      RevFromTop(m, Rev(m - 1, i / 2));
      RevInvolution(m - 1, i / 2);
    }
  }

  /** A signal in bit-reversed order. */
  ghost function Reversed(x: seq<Complex>, m: nat): (r: seq<Complex>)
    requires |x| == Pow2(m)
    ensures |r| == |x|
  {
    seq(|x|, p requires 0 <= p < |x| => x[Rev(m, p)])
  }

  lemma ReversedHalves(x: seq<Complex>, m: nat)
    requires m >= 1 && |x| == Pow2(m) && |x| % 2 == 0
    ensures Reversed(x, m)[..Pow2(m - 1)] == Reversed(Evens(x), m - 1)
    ensures Reversed(x, m)[Pow2(m - 1)..] == Reversed(Odds(x), m - 1)
  {
    hide Rev, Pow2;
    Pow2Step(m);
    var h := Pow2(m - 1);
    var r := Reversed(x, m);
    forall p | 0 <= p < h
      ensures r[..h][p] == Reversed(Evens(x), m - 1)[p]
      ensures r[h..][p] == Reversed(Odds(x), m - 1)[p]
    {
      RevFromTop(m, p);
    }
  }

  /** The stages over the bit-reversed signal compute its discrete Fourier transform. */
  lemma {:induction false} TransformIsDft(root: nat -> Complex, x: seq<Complex>, m: nat)
    requires |x| == Pow2(m) && Roots(root, m)
    ensures Transform(root, Reversed(x, m), m) == Dft(x, root(Pow2(m)))
    decreases m
  {
    if m == 0 {
      var w := root(1);
      FullBin(x, w, 0);
      assert Eval(x, Pow(w, 0)) == x[0];
      assert Reversed(x, 0)[0] == x[0];
    } else {
      EvenLength(m);
      ReversedHalves(x, m);
      TransformIsDft(root, Evens(x), m - 1);
      TransformIsDft(root, Odds(x), m - 1);
      forall k | 0 <= k < |x|
        ensures Transform(root, Reversed(x, m), m)[k] == Dft(x, root(Pow2(m)))[k]
      {
        BinIsButterfly(root, m, x, k);
      }
    }
  }

  // ---------------------------------------------------------------------------
  // What a block holds between stages
  // ---------------------------------------------------------------------------

  /** Where block b of length Pow2(l) begins. */
  function Offset(b: nat, l: nat): nat {
    b * Pow2(l)
  }

  lemma OffsetStep(b: nat, l: nat)
    ensures Offset(b + 1, l) == Offset(b, l) + Pow2(l)
    ensures Offset(0, l) == 0 && Offset(1, l) == Pow2(l)
  {}

  lemma OffsetHalves(b: nat, l: nat)
    requires l >= 1
    ensures Offset(b, l) == 2 * Offset(b, l - 1) == Offset(2 * b, l - 1)
  {}

  lemma {:induction false} OffsetMonotone(a: nat, b: nat, l: nat)
    requires a <= b
    ensures Offset(a, l) <= Offset(b, l)
    decreases b
  {
    hide Offset;
    if a < b {
      OffsetMonotone(a, b - 1, l);
      OffsetStep(b - 1, l);
    }
  }

  lemma {:induction false} OffsetAdds(a: nat, b: nat, l: nat)
    ensures Offset(a + b, l) == Offset(a, l) + Offset(b, l)
  {
    hide Offset;
    OffsetStep(0, l);
    if b > 0 {
      OffsetAdds(a, b - 1, l);
      OffsetStep(b - 1, l);
      OffsetStep(a + b - 1, l);
    }
  }

  lemma {:induction false} OffsetOfPow2(k: nat, l: nat)
    ensures Offset(Pow2(k), l) == Pow2(k + l)
  {
    hide Offset;
    if k == 0 {
      OffsetStep(0, l);
    } else {
      OffsetOfPow2(k - 1, l);
      OffsetAdds(Pow2(k - 1), Pow2(k - 1), l);
    }
  }

  lemma RevWhole(m: nat, b: nat)
    ensures Pow2(0) == 1 && Offset(b, 0) == b && Offset(0, m) == 0 && Rev(0, 0) == 0
  {}

  lemma {:induction false} RevSplits(m: nat, l: nat, b: nat, p: nat)
    requires l <= m && p < Pow2(l)
    ensures Rev(m, Offset(b, l) + p) == Offset(Rev(l, p), m - l) + Rev(m - l, b)
    decreases l
  {
    hide Rev, Pow2, Offset;
    if l == 0 {
      RevWhole(m, b);
    } else {
      OffsetHalves(b, l);
      Pow2Step(l);
      RevStep(m, Offset(b, l) + p);
      RevStep(l, p);
      RevSplits(m - 1, l - 1, b, p / 2);
      OffsetOfPow2(l - 1, m - l);
      OffsetAdds(Pow2(l - 1), Rev(l - 1, p / 2), m - l);
    }
  }

  /** The samples of x at start, start + step, start + 2 * step, ... with step Pow2(l). */
  ghost function Strided(x: seq<Complex>, start: nat, l: nat, count: nat): (r: seq<Complex>)
    requires start + Offset(count, l) < |x| + Pow2(l)
    ensures |r| == count
  {
    seq(count, j requires 0 <= j < count => Sample(x, start, l, count, j))
  }

  ghost function Sample(x: seq<Complex>, start: nat, l: nat, count: nat, j: nat): Complex
    requires j < count && start + Offset(count, l) < |x| + Pow2(l)
  {
    OffsetMonotone(j + 1, count, l);
    OffsetStep(j, l);
    x[start + Offset(j, l)]
  }

  lemma BlockBounds(m: nat, l: nat, b: nat)
    requires l <= m && b < Pow2(m - l)
    ensures Offset(b, l) + Pow2(l) <= Pow2(m)
  {
    hide Offset, Pow2;
    OffsetOfPow2(m - l, l);
    OffsetStep(b, l);
    OffsetMonotone(b + 1, Pow2(m - l), l);
  }

  ghost function Block(v: seq<Complex>, m: nat, l: nat, b: nat): (r: seq<Complex>)
    requires |v| == Pow2(m) && l <= m && b < Pow2(m - l)
    ensures |r| == Pow2(l)
  {
    BlockBounds(m, l, b);
    v[Offset(b, l)..Offset(b, l) + Pow2(l)]
  }

  /** Every Pow2(m - l)-th sample of x, beginning at the reversal of b. */
  ghost function Subsequence(x: seq<Complex>, m: nat, l: nat, b: nat): (r: seq<Complex>)
    requires |x| == Pow2(m) && l <= m
    ensures |r| == Pow2(l)
  {
    OffsetOfPow2(l, m - l);
    Strided(x, Rev(m - l, b), m - l, Pow2(l))
  }

  /** Once stage l is done, block b holds the transform of its own subsequence of the signal. */
  lemma BlockIsDftOfSubsequence(root: nat -> Complex, x: seq<Complex>, m: nat, l: nat, b: nat)
    requires |x| == Pow2(m) && Roots(root, m) && l <= m && b < Pow2(m - l)
    ensures Transform(root, Block(Reversed(x, m), m, l, b), l)
         == Dft(Subsequence(x, m, l, b), root(Pow2(l)))
  {
    hide Offset, Pow2, Rev, Dft, Transform;
    BlockBounds(m, l, b);
    OffsetOfPow2(l, m - l);
    var sub := Subsequence(x, m, l, b);
    var block := Block(Reversed(x, m), m, l, b);
    forall p | 0 <= p < Pow2(l) ensures block[p] == Reversed(sub, l)[p] {
      RevSplits(m, l, b, p);
    }
    assert block == Reversed(sub, l);
    assert Roots(root, l);
    TransformIsDft(root, sub, l);
  }

  // ---------------------------------------------------------------------------
  // The in-place algorithm
  // ---------------------------------------------------------------------------

  ghost function View(re: array<real>, im: array<real>): (v: seq<Complex>)
    requires re.Length == im.Length
    reads re, im
    ensures |v| == re.Length
  {
    seq(re.Length, i requires 0 <= i < re.Length reads re, im => Complex(re[i], im[i]))
  }

  /** j & bit != 0, for a power of two. */
  predicate HasBit(j: nat, bit: nat) {
    bit > 0 && j / bit % 2 == 1
  }

  /** j ^ bit, for a power of two. */
  function FlipBit(j: nat, bit: nat): nat
  {
    if HasBit(j, bit) && bit <= j then j - bit else j + bit
  }

  lemma TopBit(m: nat, q: nat)
    requires m >= 1
    ensures HasBit(Rev(m, q), Pow2(m - 1)) <==> q % 2 == 1
    ensures FlipBit(Rev(m, q), Pow2(m - 1)) == (if q % 2 == 1 then 0 else Pow2(m - 1)) + Rev(m - 1, q / 2)
  {
    hide Rev, Pow2;
    RevStep(m, q);
    BitOfSum(Pow2(m - 1), Rev(m - 1, q / 2));
  }

  lemma BitOfSum(bit: nat, low: nat)
    requires low < bit
    ensures (bit + low) / bit == 1 && low / bit == 0
  {}

  /** Whether position p has its final element once the indexes below i are done. */
  ghost predicate Settled(m: nat, p: nat, i: nat) {
    p < i || Rev(m, p) < i
  }

  lemma {:induction false} RevOfZero(m: nat)
    ensures Rev(m, 0) == 0
  {
    if m > 0 {
      RevOfZero(m - 1);
    }
  }

  /** Steps the reversed counter from the reversal of q to that of q + 1. */
  method NextReversed(n: nat, j0: nat, ghost m: nat, ghost q0: nat) returns (j: nat)
    requires n == Pow2(m) && q0 + 1 < n && j0 == Rev(m, q0)
    ensures j == Rev(m, q0 + 1)
  {
    hide Rev, Pow2, HasBit, FlipBit;
    j := j0;
    var bit := n / 2;
    Pow2Base();
    Pow2Step(m);
    ghost var t: nat, q: nat := m, q0;
    while HasBit(j, bit)
      invariant 1 <= t <= m && bit == Pow2(t - 1)
      invariant j == Rev(t, q)
      invariant q + 1 < Pow2(t) && Rev(m, q0 + 1) == Rev(t, q + 1)
      decreases t
    {
      TopBit(t, q);
      RevStep(t, q + 1);
      Pow2Step(t);
      j := FlipBit(j, bit);
      Pow2Base();
      if t >= 2 { Pow2Step(t - 1); }
      bit := bit / 2;
      t, q := t - 1, q / 2;
    }
    TopBit(t, q);
    RevStep(t, q + 1);
    j := FlipBit(j, bit);
  }

  /** v is x with each settled position's element already in place. */
  ghost predicate Swapped(v: seq<Complex>, x: seq<Complex>, m: nat, i: nat)
    requires |v| == |x| == Pow2(m)
  {
    forall p :: 0 <= p < |x| ==> v[p] == x[if Settled(m, p, i) then Rev(m, p) else p]
  }

  lemma RevInjective(m: nat, i: nat)
    requires i < Pow2(m)
    ensures forall p :: 0 <= p < Pow2(m) && Rev(m, p) == i ==> p == Rev(m, i)
  {
    forall p | 0 <= p < Pow2(m) && Rev(m, p) == i ensures p == Rev(m, i) {
      RevInvolution(m, p);
    }
  }

  ghost function Exchanged(v: seq<Complex>, i: nat, j: nat): (r: seq<Complex>)
    requires i < |v| && j < |v|
    ensures |r| == |v|
  {
    v[i := v[j]][j := v[i]]
  }

  /** Index i's exchange, made once per pair, settles i and its reversal. */
  lemma SwapSettles(v: seq<Complex>, x: seq<Complex>, m: nat, i: nat)
    requires |v| == |x| == Pow2(m) && i < |x| && Swapped(v, x, m, i)
    ensures Swapped(if i < Rev(m, i) then Exchanged(v, i, Rev(m, i)) else v, x, m, i + 1)
  {
    hide Rev, Pow2;
    RevInvolution(m, i);
    RevInjective(m, i);
  }

  method Swap(re: array<real>, im: array<real>, i: nat, j: nat)
    requires re != im && re.Length == im.Length && i < j < re.Length
    modifies re, im
    ensures View(re, im) == Exchanged(old(View(re, im)), i, j)
  {
    re[i], re[j] := re[j], re[i];
    im[i], im[j] := im[j], im[i];
  }

  method BitReverse(re: array<real>, im: array<real>, ghost m: nat)
    requires re != im && re.Length == im.Length == Pow2(m)
    modifies re, im
    ensures View(re, im) == Reversed(old(View(re, im)), m)
  {
    hide Rev, Pow2, Exchanged, Swapped, Reversed, View;
    var n := re.Length;
    ghost var x := View(re, im);
    var i, j := 1, 0;
    RevOfZero(m);
    SwapsBegin(x, m);
    while i < n
      invariant 1 <= i <= n
      invariant j == Rev(m, i - 1)
      invariant Swapped(View(re, im), x, m, i)
    {
      j := NextReversed(n, j, m, i - 1);
      SwapSettles(View(re, im), x, m, i);
      if i < j {
        Swap(re, im, i, j);
      }
      i := i + 1;
    }
    SwapsEnd(View(re, im), x, m);
  }

  lemma SwapsBegin(x: seq<Complex>, m: nat)
    requires |x| == Pow2(m)
    ensures Swapped(x, x, m, 1)
  {
    hide Rev, Pow2;
    RevOfZero(m);
    RevInjective(m, 0);
  }

  lemma SwapsEnd(v: seq<Complex>, x: seq<Complex>, m: nat)
    requires |v| == |x| == Pow2(m) && Swapped(v, x, m, |x|)
    ensures v == Reversed(x, m)
  {
    hide Rev, Pow2;
  }

  lemma MulParts(a: Complex, b: Complex)
    ensures Mul(a, b) == Complex(a.re * b.re - a.im * b.im, a.re * b.im + a.im * b.re)
  {}

  /** One butterfly: the pair at a and b becomes the sum and the difference of the element at
      a and the twisted element at b. */
  method Butterfly(re: array<real>, im: array<real>, a: nat, b: nat, c: Complex)
    requires re != im && re.Length == im.Length && a < b < re.Length
    modifies re, im
    ensures var v := old(View(re, im));
            View(re, im) == v[b := Sub(v[a], Mul(v[b], c))][a := Add(v[a], Mul(v[b], c))]
  {
    hide Mul;
    ghost var v := View(re, im);
    MulParts(v[b], c);
    var jr := re[b] * c.re - im[b] * c.im;
    var ji := re[b] * c.im + im[b] * c.re;
    assert Mul(v[b], c) == Complex(jr, ji);
    re[b] := re[a] - jr;
    im[b] := im[a] - ji;
    re[a] := re[a] + jr;
    im[a] := im[a] + ji;
  }

  lemma BinPair(w: Complex, e: seq<Complex>, o: seq<Complex>, k: nat)
    requires |e| == |o| && k < |e|
    ensures Bin(w, e, o, k) == Add(e[k], Mul(o[k], Pow(w, k)))
    ensures Bin(w, e, o, k + |e|) == Sub(e[k], Mul(o[k], Pow(w, k)))
  {}

  /** v is x with the first k butterflies of the block at i done. */
  ghost predicate Partial(v: seq<Complex>, x: seq<Complex>, w: Complex, i: nat, half: nat, k: nat)
    requires |v| == |x| && i + 2 * half <= |x| && k <= half
  {
    var e, o := x[i..i + half], x[i + half..i + 2 * half];
    forall p :: 0 <= p < |x| ==>
      v[p] == if i <= p < i + k || i + half <= p < i + half + k then Bin(w, e, o, p - i) else x[p]
  }

  lemma PartialStep(v: seq<Complex>, v': seq<Complex>, x: seq<Complex>, w: Complex, i: nat, half: nat, k: nat)
    requires |v| == |x| && i + 2 * half <= |x| && k < half && Partial(v, x, w, i, half, k)
    requires var t := Mul(v[i + k + half], Pow(w, k));
             v' == v[i + k + half := Sub(v[i + k], t)][i + k := Add(v[i + k], t)]
    ensures Partial(v', x, w, i, half, k + 1)
  {
    hide Mul, Bin;
    BinPair(w, x[i..i + half], x[i + half..i + 2 * half], k);
  }

  /** v' is v with the block at i combined from its halves of length h. */
  ghost predicate Combined(w: Complex, v: seq<Complex>, v': seq<Complex>, i: nat, h: nat) {
    && i + 2 * h <= |v|
    && v' == v[..i] + Combine(w, v[i..i + h], v[i + h..i + 2 * h]) + v[i + 2 * h..]
  }

  lemma PartialEnds(v: seq<Complex>, v': seq<Complex>, w: Complex, i: nat, half: nat)
    requires |v'| == |v| && i + 2 * half <= |v|
    ensures Partial(v, v, w, i, half, 0)
    ensures Partial(v', v, w, i, half, half) ==> Combined(w, v, v', i, half)
  {
    hide Bin;
  }

  /** The butterflies of one block, with the running power of the stage's root. */
  method Butterflies(re: array<real>, im: array<real>, i: nat, half: nat, w: Complex)
    requires re != im && re.Length == im.Length && i + 2 * half <= re.Length
    modifies re, im
    ensures Combined(w, old(View(re, im)), View(re, im), i, half)
  {
    hide Mul, Bin, Partial, View, Combined;
    ghost var x := View(re, im);
    var cr, ci := 1.0, 0.0;
    PartialEnds(x, x, w, i, half);
    for k := 0 to half
      invariant Complex(cr, ci) == Pow(w, k)
      invariant Partial(View(re, im), x, w, i, half, k)
    {
      ghost var v := View(re, im);
      Butterfly(re, im, i + k, i + k + half, Complex(cr, ci));
      PartialStep(v, View(re, im), x, w, i, half, k);
      MulParts(Pow(w, k), w);
      cr, ci := cr * w.re - ci * w.im, cr * w.im + ci * w.re;
    }
    PartialEnds(x, View(re, im), w, i, half);
  }

  /** Block b of stage l holds what the stages make of the same block of y. */
  ghost predicate BlockDone(root: nat -> Complex, v: seq<Complex>, y: seq<Complex>, l: nat, b: nat)
    requires |v| == |y|
  {
    var i := Offset(b, l);
    i + Pow2(l) <= |y| ==> v[i..i + Pow2(l)] == Transform(root, y[i..i + Pow2(l)], l)
  }

  ghost predicate DoneBelow(root: nat -> Complex, v: seq<Complex>, y: seq<Complex>, l: nat, b: nat)
    requires |v| == |y|
  {
    forall c: nat :: c < b ==> BlockDone(root, v, y, l, c)
  }

  ghost predicate DoneFrom(root: nat -> Complex, v: seq<Complex>, y: seq<Complex>, l: nat, b: nat)
    requires |v| == |y|
  {
    forall c: nat :: b <= c ==> BlockDone(root, v, y, l, c)
  }

  lemma CombinedParts(w: Complex, v: seq<Complex>, v': seq<Complex>, i: nat, h: nat)
    requires Combined(w, v, v', i, h)
    ensures |v'| == |v| && v'[i..i + 2 * h] == Combine(w, v[i..i + h], v[i + h..i + 2 * h])
    ensures forall k, n :: 0 <= k <= n <= |v| && (n <= i || i + 2 * h <= k) ==> v'[k..n] == v[k..n]
  {
    hide Combine;
  }

  lemma BlocksBelowKept(root: nat -> Complex, w: Complex, v: seq<Complex>, v': seq<Complex>, y: seq<Complex>, l: nat,
                        b: nat)
    requires l >= 1 && |v| == |v'| == |y| && Combined(w, v, v', Offset(b, l), Pow2(l - 1))
    requires DoneBelow(root, v, y, l, b)
    ensures DoneBelow(root, v', y, l, b)
  {
    hide Combined, Transform, Pow2, Offset;
    CombinedParts(w, v, v', Offset(b, l), Pow2(l - 1));
    forall c: nat | c < b ensures BlockDone(root, v', y, l, c) {
      OffsetStep(c, l);
      OffsetMonotone(c + 1, b, l);
      assert BlockDone(root, v, y, l, c);
    }
  }

  lemma HalfBlocksAboveKept(root: nat -> Complex, w: Complex, v: seq<Complex>, v': seq<Complex>, y: seq<Complex>,
                            l: nat, b: nat)
    requires |v| == |v'| == |y| && Combined(w, v, v', Offset(b, l + 1), Pow2(l))
    requires DoneFrom(root, v, y, l, 2 * b)
    ensures DoneFrom(root, v', y, l, 2 * (b + 1))
  {
    hide Combined, Transform, Pow2, Offset;
    CombinedParts(w, v, v', Offset(b, l + 1), Pow2(l));
    OffsetHalves(b, l + 1);
    OffsetStep(2 * b, l);
    OffsetStep(2 * b + 1, l);
    forall c: nat | 2 * (b + 1) <= c ensures BlockDone(root, v', y, l, c) {
      OffsetMonotone(2 * (b + 1), c, l);
      assert BlockDone(root, v, y, l, c);
    }
  }

  /** A block combined from halves that are done is done. */
  lemma BlockBecomesDone(root: nat -> Complex, v: seq<Complex>, v': seq<Complex>, y: seq<Complex>, l: nat, b: nat)
    requires |v| == |v'| == |y| && Combined(root(Pow2(l + 1)), v, v', Offset(b, l + 1), Pow2(l))
    requires BlockDone(root, v, y, l, 2 * b) && BlockDone(root, v, y, l, 2 * b + 1)
    ensures BlockDone(root, v', y, l + 1, b)
  {
    hide Combined, Combine, Pow2, Offset, Transform;
    Pow2Step(l + 1);
    var i, h := Offset(b, l + 1), Pow2(l);
    CombinedParts(root(Pow2(l + 1)), v, v', i, h);
    OffsetHalves(b, l + 1);
    OffsetStep(2 * b, l);
    if i + 2 * h <= |y| {
      var s := y[i..i + 2 * h];
      assert s[..h] == y[i..i + h] && s[h..] == y[i + h..i + 2 * h];
      TransformStep(root, s, l + 1);
    }
  }

  lemma TransformStep(root: nat -> Complex, s: seq<Complex>, m: nat)
    requires m >= 1 && |s| == Pow2(m) && Pow2(m - 1) <= |s| && |s[Pow2(m - 1)..]| == Pow2(m - 1)
    ensures Transform(root, s, m) == Combine(root(Pow2(m)), Transform(root, s[..Pow2(m - 1)], m - 1),
                                             Transform(root, s[Pow2(m - 1)..], m - 1))
  {}

  lemma StageStep(root: nat -> Complex, v: seq<Complex>, v': seq<Complex>, y: seq<Complex>, l: nat, b: nat)
    requires |v| == |v'| == |y| && Combined(root(Pow2(l + 1)), v, v', Offset(b, l + 1), Pow2(l))
    requires DoneBelow(root, v, y, l + 1, b) && DoneFrom(root, v, y, l, 2 * b)
    ensures DoneBelow(root, v', y, l + 1, b + 1) && DoneFrom(root, v', y, l, 2 * (b + 1))
  {
    hide BlockDone, Combined, Offset, Pow2;
    BlocksBelowKept(root, root(Pow2(l + 1)), v, v', y, l + 1, b);
    HalfBlocksAboveKept(root, root(Pow2(l + 1)), v, v', y, l, b);
    BlockBecomesDone(root, v, v', y, l, b);
  }

  /** One pass of the outer loop: every block of length Pow2(l + 1) from its two halves. */
  method Stage(re: array<real>, im: array<real>, root: nat -> Complex, length: nat,
               ghost m: nat, ghost l: nat, ghost y: seq<Complex>)
    requires re != im && re.Length == im.Length == |y| == Pow2(m)
    requires l < m && length == Pow2(l + 1)
    requires DoneFrom(root, View(re, im), y, l, 0)
    modifies re, im
    ensures DoneFrom(root, View(re, im), y, l + 1, 0)
  {
    hide Combine, Combined, Transform, Pow2, Offset, BlockDone, View;
    Pow2Step(l + 1);
    OffsetStep(0, l + 1);
    var n, w, half := re.Length, root(length), length / 2;
    var i := 0;
    ghost var b := 0;
    OffsetOfPow2(m - l - 1, l + 1);
    while i < n
      invariant i == Offset(b, l + 1) && b <= Pow2(m - l - 1)
      invariant DoneBelow(root, View(re, im), y, l + 1, b)
      invariant DoneFrom(root, View(re, im), y, l, 2 * b)
      decreases n - i
    {
      BlockBounds(m, l + 1, b);
      ghost var v := View(re, im);
      Butterflies(re, im, i, half, w);
      StageStep(root, v, View(re, im), y, l, b);
      OffsetStep(b, l + 1);
      i, b := i + length, b + 1;
    }
    StageEnds(root, View(re, im), y, l + 1, b);
  }

  lemma StageEnds(root: nat -> Complex, v: seq<Complex>, y: seq<Complex>, l: nat, b: nat)
    requires |v| == |y| && |y| <= Offset(b, l) && DoneBelow(root, v, y, l, b)
    ensures DoneFrom(root, v, y, l, 0)
  {
    hide Offset, Transform, Pow2;
    forall c: nat ensures BlockDone(root, v, y, l, c) {
      if c >= b {
        OffsetMonotone(b, c, l);
      }
    }
  }

  /** The whole transform: the discrete Fourier transform of the signal, in place. */
  method Fft(re: array<real>, im: array<real>, root: nat -> Complex, ghost m: nat)
    requires re != im && re.Length == im.Length == Pow2(m) && Roots(root, m)
    modifies re, im
    ensures View(re, im) == Dft(old(View(re, im)), root(re.Length))
  {
    hide Mul, Dft, Pow2, Reversed, Offset, Transform, View;
    var n := re.Length;
    ghost var x := View(re, im);
    BitReverse(re, im, m);
    ghost var y := View(re, im);
    ghost var l := 0;
    var length := 2;
    Pow2Base();
    SingletonsDone(root, y);
    while length <= n
      invariant l <= m && length == Pow2(l + 1)
      invariant DoneFrom(root, View(re, im), y, l, 0)
      decreases n + 1 - length
    {
      Pow2Monotone(l + 1, m);
      Pow2Step(l + 2);
      Stage(re, im, root, length, m, l, y);
      l, length := l + 1, 2 * length;
    }
    Pow2Monotone(l + 1, m);
    OffsetStep(0, m);
    assert BlockDone(root, View(re, im), y, m, 0);
    assert y[0..n] == y && View(re, im)[0..n] == View(re, im);
    TransformIsDft(root, x, m);
  }

  lemma SingletonsDone(root: nat -> Complex, y: seq<Complex>)
    ensures DoneFrom(root, y, y, 0, 0)
  {}

  lemma {:induction false} Pow2Monotone(a: nat, b: nat)
    ensures a <= b <==> Pow2(a) <= Pow2(b)
    decreases a + b
  {
    if a > 0 && b > 0 {
      Pow2Monotone(a - 1, b - 1);
    }
  }
}
