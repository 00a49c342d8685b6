// Complex arithmetic over exact reals, in the operation patterns of fftlib.c.
module Complexes {

  // One array slot of the transforms: ioptr[2k] and ioptr[2k+1].
  datatype Complex = C(re: real, im: real)

  const Zero := C(0.0, 0.0)
  const One := C(1.0, 0.0)

  function Add(a: Complex, b: Complex): Complex {
    C(a.re + b.re, a.im + b.im)
  }

  function Sub(a: Complex, b: Complex): Complex {
    C(a.re - b.re, a.im - b.im)
  }

  function Mul(a: Complex, b: Complex): Complex {
    C(a.re * b.re - a.im * b.im, a.re * b.im + a.im * b.re)
  }

  function Scale(k: real, a: Complex): Complex {
    C(k * a.re, k * a.im)
  }

  function Conj(a: Complex): Complex {
    C(a.re, -a.im)
  }

  lemma MulAssoc(a: Complex, b: Complex, c: Complex)
    ensures Mul(Mul(a, b), c) == Mul(a, Mul(b, c))
  {
  }

  lemma MulComm(a: Complex, b: Complex)
    ensures Mul(a, b) == Mul(b, a)
  {
  }

  lemma AddNegated(a: Complex, u: Complex, b: Complex)
    ensures Add(a, Mul(Sub(Zero, u), b)) == Sub(a, Mul(u, b))
  {
  }

  lemma MulAdd(a: Complex, b: Complex, c: Complex)
    ensures Mul(a, Add(b, c)) == Add(Mul(a, b), Mul(a, c))
  {
  }

  lemma MulSub(a: Complex, b: Complex, c: Complex)
    ensures Mul(a, Sub(b, c)) == Sub(Mul(a, b), Mul(a, c))
  {
  }

  lemma MulNegated(a: Complex, b: Complex)
    ensures Mul(Sub(Zero, a), b) == Sub(Zero, Mul(a, b))
  {
  }

  lemma ScaleTwice(j: real, k: real, a: Complex)
    ensures Scale(j, Scale(k, a)) == Scale(j * k, a)
  {
  }

  lemma MulScale(k: real, a: Complex, b: Complex)
    ensures Mul(a, Scale(k, b)) == Scale(k, Mul(a, b))
  {
  }
}
