/** Exact complex arithmetic, standing in for the source's pairs of float64. */
module Complexes {

  datatype Complex = Complex(re: real, im: real)

  const ZERO := Complex(0.0, 0.0)
  const ONE := Complex(1.0, 0.0)
  const MINUS_ONE := Complex(-1.0, 0.0)

  function Add(a: Complex, b: Complex): Complex {
    Complex(a.re + b.re, a.im + b.im)
  }

  function Sub(a: Complex, b: Complex): Complex {
    Complex(a.re - b.re, a.im - b.im)
  }

  function Mul(a: Complex, b: Complex): Complex {
    Complex(a.re * b.re - a.im * b.im, a.re * b.im + a.im * b.re)
  }

  function Pow(w: Complex, k: nat): Complex {
    if k == 0 then ONE else Mul(Pow(w, k - 1), w)
  }

  lemma MulAssociates(a: Complex, b: Complex, c: Complex)
    ensures Mul(Mul(a, b), c) == Mul(a, Mul(b, c))
  {}

  lemma MulCommutes(a: Complex, b: Complex)
    ensures Mul(a, b) == Mul(b, a)
  {}

  lemma MulDistributes(a: Complex, b: Complex, c: Complex)
    ensures Mul(a, Add(b, c)) == Add(Mul(a, b), Mul(a, c))
  {}

  lemma PowOne(w: Complex)
    ensures Pow(w, 1) == w
  {
    assert Pow(w, 0) == ONE;
  }

  lemma {:induction false} PowAdds(w: Complex, j: nat, k: nat)
    ensures Pow(w, j + k) == Mul(Pow(w, j), Pow(w, k))
  {
    if k > 0 {
      PowAdds(w, j, k - 1);
      MulAssociates(Pow(w, j), Pow(w, k - 1), w);
    }
  }

  lemma {:induction false} PowOfSquare(w: Complex, k: nat)
    ensures Pow(Mul(w, w), k) == Pow(w, 2 * k) == Mul(Pow(w, k), Pow(w, k))
  {
    hide Mul;
    PowAdds(w, k, k);
    if k > 0 {
      PowOfSquare(w, k - 1);
      PowAdds(w, 2 * (k - 1), 2);
      PowOne(w);
      assert Pow(w, 2) == Mul(w, w);
    }
  }
}
