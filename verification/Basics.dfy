/** Options, and the little real arithmetic the audio model needs. */
module Basics {

  datatype Option<+T> = None | Some(value: T) {
    function GetOr(default: T): T {
      if Some? then value else default
    }
  }

  function Min(a: real, b: real): real { if a < b then a else b }

  function Max(a: real, b: real): real { if a < b then b else a }

  function Abs(a: real): real { if a < 0.0 then -a else a }

  // Named so that proofs which do not compute products can hide them.
  function Times(a: real, b: real): real { a * b }

  function Ratio(a: real, b: real): real
    requires b != 0.0
  {
    a / b
  }

  function Product(xs: seq<real>): real {
    if xs == [] then 1.0 else Times(xs[0], Product(xs[1..]))
  }

  lemma TimesOne(a: real)
    ensures Times(a, 1.0) == a == Times(1.0, a)
  {
  }

  lemma TimesCommutes(a: real, b: real)
    ensures Times(a, b) == Times(b, a)
  {
  }

  lemma TimesAssociates(a: real, b: real, c: real)
    ensures Times(a, Times(b, c)) == Times(Times(a, b), c)
  {
  }

  lemma TimesSwap(a: real, b: real, c: real)
    ensures Times(Times(a, b), c) == Times(Times(a, c), b)
  {
  }

  lemma TimesNonNegative(a: real, b: real)
    requires 0.0 <= a && 0.0 <= b
    ensures 0.0 <= Times(a, b)
  {
  }

  lemma TimesDistributes(a: real, b: real, c: real)
    ensures Times(a - b, c) == Times(a, c) - Times(b, c)
  {
  }

  lemma TimesPositive(a: real, b: real)
    requires 0.0 < a && 0.0 < b
    ensures 0.0 < Times(a, b)
  {
  }

  lemma TimesCancels(a: real, b: real, c: real)
    requires Times(a, c) == Times(b, c) && c != 0.0
    ensures a == b
  {
    assert a == Times(a, c) / c;
    assert b == Times(b, c) / c;
  }

  lemma TimesMonotone(a: real, b: real, c: real)
    requires a <= b && 0.0 <= c
    ensures Times(a, c) <= Times(b, c)
  {
    TimesNonNegative(b - a, c);
    TimesDistributes(b, a, c);
  }

  lemma TimesUnit(a: real, b: real)
    requires 0.0 <= a <= 1.0 && 0.0 <= b <= 1.0
    ensures 0.0 <= Times(a, b) <= 1.0
  {
    TimesNonNegative(a, b);
    TimesMonotone(a, 1.0, b);
    TimesOne(b);
  }

  lemma RatioTimes(a: real, b: real)
    requires b != 0.0
    ensures Times(Ratio(a, b), b) == a
  {
  }

  lemma RatioUnit(a: real, b: real)
    requires 0.0 <= a <= b && 0.0 < b
    ensures 0.0 <= Ratio(a, b) <= 1.0
  {
    RatioTimes(a, b);
    var q := Ratio(a, b);
    if q < 0.0 {
      TimesPositive(-q, b);
      TimesDistributes(0.0, q, b);
    }
    if q > 1.0 {
      TimesPositive(q - 1.0, b);
      TimesDistributes(q, 1.0, b);
    }
  }

  lemma RatioComplement(x: real, y: real, d: real)
    requires d > 0.0 && x + y == d
    ensures Ratio(x, d) == 1.0 - Ratio(y, d)
  {
    assert x == d - y;
    assert x / d == d / d - y / d;
  }

  lemma {:induction false} ProductAppend(xs: seq<real>, ys: seq<real>)
    ensures Product(xs + ys) == Times(Product(xs), Product(ys))
  {
    hide Times;
    if xs == [] {
      assert xs + ys == ys;
      TimesOne(Product(ys));
    } else {
      assert (xs + ys)[1..] == xs[1..] + ys;
      ProductAppend(xs[1..], ys);
      TimesAssociates(xs[0], Product(xs[1..]), Product(ys));
    }
  }

  lemma ProductCons(x: real, xs: seq<real>)
    ensures Product([x] + xs) == Times(x, Product(xs))
  {
    hide Times;
    assert ([x] + xs)[1..] == xs;
  }

  lemma ProductSnoc(xs: seq<real>, x: real)
    ensures Product(xs + [x]) == Times(Product(xs), x)
  {
    hide Times;
    ProductAppend(xs, [x]);
    ProductOne(x);
  }

  lemma ProductOne(x: real)
    ensures Product([x]) == x
  {
    hide Times;
    assert [x][1..] == [];
    TimesOne(x);
  }
}
