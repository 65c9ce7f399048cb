/** Exact real arithmetic shared by the transform, the codec and the learners. */
module Reals {

  function Abs(x: real): real {
    if x < 0.0 then -x else x
  }

  /** A product, named so that a loop can be followed without its algebra. */
  function Times(a: real, b: real): real {
    a * b
  }

  lemma TimesPlus(a: real, b: real, c: real)
    ensures Times(a, b + c) == Times(a, b) + Times(a, c)
    ensures Times(b + c, a) == Times(b, a) + Times(c, a)
  {
  }

  lemma TimesAssociates(a: real, b: real, c: real)
    ensures Times(a, Times(b, c)) == Times(Times(a, b), c) == Times(b, Times(a, c))
  {
  }

  lemma TimesOrdered(a: real, b: real, c: real)
    requires a >= 0.0 && b <= c
    ensures Times(a, b) <= Times(a, c)
  {
  }

  lemma TimesCommutes(a: real, b: real)
    ensures Times(a, b) == Times(b, a) == a * b
  {
  }

  lemma TimesOfZero(a: real)
    ensures Times(a, 0.0) == 0.0 == Times(0.0, a)
  {
  }

  lemma TimesOfOne(a: real)
    ensures Times(1.0, a) == a
  {
  }

  lemma AbsTimes(a: real, b: real)
    ensures Abs(Times(a, b)) == Times(Abs(a), Abs(b))
  {
  }

  lemma ProductSign(a: real, b: real)
    requires a >= 0.0 && b >= 0.0
    ensures Times(a, b) >= 0.0
    ensures a > 0.0 && b > 0.0 ==> Times(a, b) > 0.0
  {
  }

  lemma SquareSign(a: real)
    ensures Times(a, a) >= 0.0
  {
    if a >= 0.0 {
      ProductSign(a, a);
    } else {
      ProductSign(-a, -a);
      assert Times(-a, -a) == Times(a, a);
    }
  }
}
