/** Splitting a speed into tempo factors that each lie within [0.5, 2.0]. */
module SpeedChain {
  import opened Basics

  const TEMPO_TOLERANCE := 0.001

  predicate UnitySpeed(speed: real) {
    Abs(speed - 1.0) < TEMPO_TOLERANCE
  }

  function Pow2(n: nat): real {
    if n == 0 then 1.0 else 2.0 * Pow2(n - 1)
  }

  // The factors for what remains of a speed.
  function Chain(r: real): seq<real>
    requires r > 0.0
    decreases if r > 2.0 then r.Floor else if r < 0.5 then InverseFloor(r) else 0
  {
    if r > 2.0 then [2.0] + Chain(r / 2.0)
    else if r < 0.5 then (InverseHalves(r); [0.5] + Chain(r * 2.0))
    else if Abs(r - 1.0) > TEMPO_TOLERANCE then [r]
    else []
  }

  // What the two loops bring a speed to.
  function Remaining(r: real): (left: real)
    requires r > 0.0
    ensures 0.5 <= left <= 2.0
    decreases if r > 2.0 then r.Floor else if r < 0.5 then InverseFloor(r) else 0
  {
    if r > 2.0 then Remaining(r / 2.0)
    else if r < 0.5 then (InverseHalves(r); Remaining(r * 2.0))
    else r
  }

  // It is emitted as a last factor of its own.
  predicate EndsInFactor(r: real)
    requires r > 0.0
  {
    Abs(Remaining(r) - 1.0) > TEMPO_TOLERANCE
  }

  // What the factors leave out of the speed, as computed and as printed.
  function Rest(r: real): real
    requires r > 0.0
  {
    if EndsInFactor(r) then 1.0 else Remaining(r)
  }

  function PrintedRest(r: real): real
    requires r > 0.0
  {
    PrintedStaysInRange(Remaining(r));
    if EndsInFactor(r) then Ratio(Remaining(r), Printed(Remaining(r))) else Remaining(r)
  }

  function InverseFloor(r: real): int
    requires r > 0.0
  {
    (1.0 / r).Floor
  }

  lemma InverseHalves(r: real)
    requires 0.0 < r < 0.5
    ensures InverseFloor(r) >= 2 && InverseFloor(r * 2.0) < InverseFloor(r)
  {
    assert 1.0 / r > 2.0;
    assert 1.0 / (r * 2.0) == (1.0 / r) / 2.0;
  }

  function TempoChain(speed: real): seq<real>
    requires speed > 0.0
  {
    if UnitySpeed(speed) then [] else Chain(speed)
  }

  // A value printed with four decimals: rounded half to even.
  function Printed(x: real): real {
    var scaled := x * 10000.0;
    var low := scaled.Floor;
    var frac := scaled - low as real;
    var n := if frac < 0.5 || (frac == 0.5 && low % 2 == 0) then low else low + 1;
    n as real / 10000.0
  }

  ghost predicate InTempoRange(x: real) { 0.5 <= x <= 2.0 }

  lemma PrintedStaysInRange(x: real)
    requires InTempoRange(x)
    ensures InTempoRange(Printed(x)) && Abs(Printed(x) - x) <= 0.00005
  {
    var scaled := x * 10000.0;
    assert 5000.0 <= scaled <= 20000.0;
    var low := scaled.Floor;
    assert 5000 <= low <= 20000;
    assert low == 20000 ==> scaled == 20000.0;
  }

  // The loops end for every positive speed and emit the chain.
  method BuildSpeedFilters(speed: real) returns (filters: seq<real>)
    requires speed > 0.0
    ensures filters == TempoChain(speed)
  {
    if UnitySpeed(speed) {
      return [];
    }
    filters := [];
    var remaining := speed;
    while remaining > 2.0
      invariant remaining > 0.0 && filters + Chain(remaining) == Chain(speed)
      decreases remaining.Floor
    {
      assert filters + ([2.0] + Chain(remaining / 2.0)) == (filters + [2.0]) + Chain(remaining / 2.0);
      filters := filters + [2.0];
      remaining := remaining / 2.0;
    }
    while remaining < 0.5
      invariant 0.0 < remaining <= 2.0 && filters + Chain(remaining) == Chain(speed)
      decreases InverseFloor(remaining)
    {
      InverseHalves(remaining);
      assert filters + ([0.5] + Chain(remaining * 2.0)) == (filters + [0.5]) + Chain(remaining * 2.0);
      filters := filters + [0.5];
      remaining := remaining * 2.0;
    }
    if Abs(remaining - 1.0) > TEMPO_TOLERANCE {
      filters := filters + [remaining];
    }
  }

  lemma ProductOfCons(x: real, xs: seq<real>, rest: real)
    ensures Times(Product([x] + xs), rest) == Times(x, Times(Product(xs), rest))
  {
    hide Times;
    ProductCons(x, xs);
    TimesAssociates(x, Product(xs), rest);
  }

  lemma TimesTwo(x: real)
    ensures Times(2.0, x) == 2.0 * x
  {
  }

  lemma TimesHalf(x: real)
    ensures Times(0.5, x) == x / 2.0
  {
  }

  // Factors times what is left out give the speed back, and what is left out is within
  // tolerance of one; it is one exactly when the loops end on a speed that is emitted or is one.
  lemma {:induction false} ChainProduct(r: real)
    requires r > 0.0
    ensures Times(Product(Chain(r)), Rest(r)) == r
    ensures Abs(Rest(r) - 1.0) <= TEMPO_TOLERANCE
    ensures Rest(r) == 1.0 <==> EndsInFactor(r) || Remaining(r) == 1.0
    ensures EndsInFactor(r) ==> Chain(r) != [] && Chain(r)[|Chain(r)| - 1] == Remaining(r)
    ensures !EndsInFactor(r) ==> forall x :: x in Chain(r) ==> x == 2.0 || x == 0.5
    decreases if r > 2.0 then r.Floor else if r < 0.5 then InverseFloor(r) else 0
  {
    hide Times;
    if r > 2.0 {
      ChainProduct(r / 2.0);
      ProductOfCons(2.0, Chain(r / 2.0), Rest(r));
      TimesTwo(r / 2.0);
    } else if r < 0.5 {
      InverseHalves(r);
      ChainProduct(r * 2.0);
      ProductOfCons(0.5, Chain(r * 2.0), Rest(r));
      TimesHalf(r * 2.0);
    } else if EndsInFactor(r) {
      ProductOne(r);
      TimesOne(r);
    } else {
      TimesOne(r);
    }
  }

  function PrintedAll(xs: seq<real>): (ys: seq<real>)
    ensures |ys| == |xs| && forall i :: 0 <= i < |ys| ==> ys[i] == Printed(xs[i])
  {
    seq(|xs|, i requires 0 <= i < |xs| => Printed(xs[i]))
  }

  lemma PrintedCons(x: real, xs: seq<real>)
    ensures PrintedAll([x] + xs) == [Printed(x)] + PrintedAll(xs)
  {
    hide Printed;
  }

  lemma PrintedExactly()
    ensures Printed(2.0) == 2.0 && Printed(0.5) == 0.5
  {
    assert (2.0 * 10000.0).Floor == 20000 && (0.5 * 10000.0).Floor == 5000;
  }

  lemma PrintedLast(x: real)
    requires InTempoRange(x)
    ensures Printed(x) >= 0.5 && Times(Printed(x), Ratio(x, Printed(x))) == x
    ensures Abs(Ratio(x, Printed(x)) - 1.0) <= TEMPO_TOLERANCE
  {
    PrintedStaysInRange(x);
    var p := Printed(x);
    hide Printed, Times, Ratio;
    RatioTimes(x, p);
    TimesCommutes(p, Ratio(x, p));
    NearOne(Ratio(x, p), p, x);
  }

  lemma NearOne(q: real, p: real, x: real)
    requires p >= 0.5 && Times(q, p) == x && Abs(p - x) <= 0.00005
    ensures Abs(q - 1.0) <= 0.0001
  {
    TimesDistributes(q, 1.0, p);
    TimesOne(p);
    assert Times(q - 1.0, p) == x - p;
    hide Times;
    if q - 1.0 > 0.0001 {
      TimesMonotone(0.0001, q - 1.0, p);
      SmallTimes(p);
    } else if q - 1.0 < -0.0001 {
      TimesMonotone(q - 1.0, -0.0001, p);
      SmallTimes(p);
    }
  }

  lemma SmallTimes(p: real)
    requires p >= 0.5
    ensures Times(0.0001, p) >= 0.00005 && Times(-0.0001, p) <= -0.00005
  {
  }

  // The factors the command carries also multiply up to the speed, within the same tolerance.
  lemma {:induction false} PrintedProduct(r: real)
    requires r > 0.0
    ensures Times(Product(PrintedAll(Chain(r))), PrintedRest(r)) == r
    ensures Abs(PrintedRest(r) - 1.0) <= TEMPO_TOLERANCE
    decreases if r > 2.0 then r.Floor else if r < 0.5 then InverseFloor(r) else 0
  {
    PrintedExactly();
    hide Times, Ratio, Printed;
    if r > 2.0 {
      PrintedProduct(r / 2.0);
      PrintedCons(2.0, Chain(r / 2.0));
      ProductOfCons(2.0, PrintedAll(Chain(r / 2.0)), PrintedRest(r));
      TimesTwo(r / 2.0);
    } else if r < 0.5 {
      InverseHalves(r);
      PrintedProduct(r * 2.0);
      PrintedCons(0.5, Chain(r * 2.0));
      ProductOfCons(0.5, PrintedAll(Chain(r * 2.0)), PrintedRest(r));
      TimesHalf(r * 2.0);
    } else if EndsInFactor(r) {
      PrintedLast(r);
      assert PrintedAll([r]) == [Printed(r)];
      ProductOne(Printed(r));
    } else {
      assert PrintedAll([]) == [];
      TimesOne(r);
    }
  }

  // Every factor is one that atempo accepts, also after printing.
  lemma {:induction false} ChainInRange(r: real)
    requires r > 0.0
    ensures forall x :: x in Chain(r) ==> InTempoRange(x) && InTempoRange(Printed(x))
    decreases if r > 2.0 then r.Floor else if r < 0.5 then InverseFloor(r) else 0
  {
    PrintedStaysInRange(2.0);
    PrintedStaysInRange(0.5);
    if r > 2.0 {
      ChainInRange(r / 2.0);
    } else if r < 0.5 {
      InverseHalves(r);
      ChainInRange(r * 2.0);
    } else {
      PrintedStaysInRange(r);
    }
  }

  // The length is logarithmic in the speed, or in its inverse when slowing down.
  lemma {:induction false} ChainLength(r: real)
    requires r > 0.0
    ensures Chain(r) != [] ==> Pow2(|Chain(r)| - 1) <= Max(r, 1.0 / r)
    decreases if r > 2.0 then r.Floor else if r < 0.5 then InverseFloor(r) else 0
  {
    if r > 2.0 {
      ChainLength(r / 2.0);
      assert 1.0 / (r / 2.0) < 1.0 < r / 2.0;
    } else if r < 0.5 {
      InverseHalves(r);
      ChainLength(r * 2.0);
      assert 1.0 / (r * 2.0) == (1.0 / r) / 2.0;
      assert 1.0 / r > 2.0;
    } else {
      assert r * (1.0 / r) == 1.0;
      InverseOfSmall(r);
    }
  }

  lemma InverseOfSmall(r: real)
    requires r > 0.0
    ensures Max(r, 1.0 / r) >= 1.0
  {
    if r < 1.0 {
      assert 1.0 / r > 1.0;
    }
  }

  // What holds of the chain for every positive speed.
  lemma TempoChainCorrect(speed: real)
    requires speed > 0.0
    ensures TempoChain(speed) == [] <==> Abs(speed - 1.0) <= 0.001
    ensures forall x :: x in TempoChain(speed) ==> 0.5 <= x <= 2.0 && 0.5 <= Printed(x) <= 2.0
    ensures Product(TempoChain(speed)) > 0.0 && Abs(Ratio(speed, Product(TempoChain(speed))) - 1.0) <= 0.001
    ensures var printed := Product(PrintedAll(TempoChain(speed)));
            printed > 0.0 && Abs(Ratio(speed, printed) - 1.0) <= 0.001
    ensures TempoChain(speed) != [] ==> Pow2(|TempoChain(speed)| - 1) <= Max(speed, 1.0 / speed)
    ensures 0.25 <= speed <= 4.0 ==> |TempoChain(speed)| <= 2
  {
    hide Times, Ratio, Chain, Rest, PrintedRest, Printed;
    ChainEmptyIff(speed);
    ChainInRange(speed);
    ChainLength(speed);
    PositiveProduct(TempoChain(speed));
    PositiveProduct(PrintedAll(TempoChain(speed)));
    if UnitySpeed(speed) {
      assert PrintedAll([]) == [];
      RatioOne(speed);
    } else {
      ChainProduct(speed);
      PrintedProduct(speed);
      LeftOut(speed, Product(Chain(speed)), Rest(speed));
      LeftOut(speed, Product(PrintedAll(Chain(speed))), PrintedRest(speed));
      AtMostTwo(speed);
    }
  }

  lemma ChainEmptyIff(speed: real)
    requires speed > 0.0
    ensures Chain(speed) == [] <==> Abs(speed - 1.0) <= 0.001
  {
  }

  lemma LeftOut(speed: real, product: real, rest: real)
    requires Times(product, rest) == speed && product > 0.0
    ensures Ratio(speed, product) == rest
  {
    hide Times, Ratio;
    RatioTimes(speed, product);
    TimesCommutes(product, rest);
    TimesCancels(Ratio(speed, product), rest, product);
  }

  lemma RatioOne(x: real)
    ensures Ratio(x, 1.0) == x
  {
  }

  lemma AtMostTwo(speed: real)
    requires 0.0 < speed
    ensures 0.25 <= speed <= 4.0 ==> |Chain(speed)| <= 2
  {
    if 2.0 < speed <= 4.0 {
      assert |Chain(speed / 2.0)| <= 1;
    } else if 0.25 <= speed < 0.5 {
      assert |Chain(speed * 2.0)| <= 1;
    }
  }

  lemma {:induction false} PositiveProduct(xs: seq<real>)
    requires forall x :: x in xs ==> InTempoRange(x)
    ensures Product(xs) > 0.0
  {
    hide Times;
    if xs != [] {
      var p := Product(xs[1..]);
      PositiveProduct(xs[1..]);
      assert InTempoRange(xs[0]);
      TimesPositive(xs[0], p);
    }
  }
}
