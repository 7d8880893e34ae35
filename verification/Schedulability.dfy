/**
What the integer admission test against 726663 / 2^20 guarantees about the real task set: how close
the truncated sum is to the exact utilisation, and up to how many tasks it implies the hyperbolic
rate-monotonic schedulability test, the product of (1 + proc_time / period) being at most 2.
*/
module Schedulability {
  import opened Words
  import opened Scheduler
  import opened Admission
  import opened Overlap
  import opened Runs

  const UNSHIFTED := 0x1000_0000_0000          // 2^44: shifting a smaller word by 20 drops nothing

  ghost function Load(t: Task): real {
    t.procTime as real / t.period as real
  }

  ghost function Loads(ts: seq<Task>): (xs: seq<real>)
    ensures |xs| == |ts| && forall i :: 0 <= i < |ts| ==> xs[i] == Load(ts[i])
  {
    seq(|ts|, i requires 0 <= i < |ts| => Load(ts[i]))
  }

  ghost function Sum(xs: seq<real>): real {
    if xs == [] then 0.0 else Sum(xs[..|xs| - 1]) + xs[|xs| - 1]
  }

  ghost function Factors(xs: seq<real>): real {
    if xs == [] then 1.0 else Factors(xs[..|xs| - 1]) * (1.0 + xs[|xs| - 1])
  }

  /** The exact utilisation of a task set. */
  ghost function TotalLoad(ts: seq<Task>): real {
    Sum(Loads(ts))
  }

  /** The product of (1 + proc_time / period) over a task set. */
  ghost function Product(ts: seq<Task>): real {
    Factors(Loads(ts))
  }

  ghost predicate Unshifted(ts: seq<Task>) {
    forall i :: 0 <= i < |ts| ==> ts[i].procTime < UNSHIFTED
  }

  // ---------------------------------------------------------------- one task

  /** The fixed-point value is the floor of the exact one if and only if the shift drops no bit. */
  lemma TruncationExact(procTime: Word64, period: Period)
    ensures var u := TruncUtil(procTime, period);
            u * period <= procTime * SHIFT < (u + 1) * period <==> procTime < UNSHIFTED
  {
    var u := TruncUtil(procTime, period);
    if procTime >= UNSHIFTED {
      var shifted := (procTime * SHIFT) % TWO_64;
      var high := procTime * SHIFT / TWO_64;
      assert procTime * SHIFT == high * TWO_64 + shifted;
      assert high >= 1;
      QuotientBounds(shifted, period);
      assert (u + 1) * period == u * period + period;
    }
  }

  lemma LoadBounds(t: Task)
    requires t.procTime < UNSHIFTED
    ensures var u := TruncUtil(t.procTime, t.period);
            u as real / SHIFT as real <= Load(t) < (u + 1) as real / SHIFT as real
  {
    var u := TruncUtil(t.procTime, t.period);
    TruncationExact(t.procTime, t.period);
    CrossMultiply(u, SHIFT, t.procTime, t.period);
    CrossMultiplyStrict(t.procTime, t.period, u + 1, SHIFT);
  }

  lemma CrossMultiply(a: nat, b: nat, c: nat, d: nat)
    requires b > 0 && d > 0 && a * d <= c * b
    ensures a as real / b as real <= c as real / d as real
  {
    var x, y := a as real / b as real, c as real / d as real;
    var bd := b as real * d as real;
    assert x * bd == a as real * d as real == (a * d) as real;
    assert y * bd == c as real * b as real == (c * b) as real;
    if x > y {
      assert x * bd > y * bd;
    }
  }

  lemma CrossMultiplyStrict(a: nat, b: nat, c: nat, d: nat)
    requires b > 0 && d > 0 && a * d < c * b
    ensures a as real / b as real < c as real / d as real
  {
    var x, y := a as real / b as real, c as real / d as real;
    var bd := b as real * d as real;
    assert x * bd == a as real * d as real == (a * d) as real;
    assert y * bd == c as real * b as real == (c * b) as real;
    if x >= y {
      assert x * bd >= y * bd;
    }
  }

  // ---------------------------------------------------------------- the task set

  lemma {:induction false} TotalLoadBounds(ts: seq<Task>)
    requires Unshifted(ts)
    ensures SumUtil(ts) as real / SHIFT as real <= TotalLoad(ts)
    ensures ts != [] ==> TotalLoad(ts) < (SumUtil(ts) + |ts|) as real / SHIFT as real
  {
    if ts != [] {
      var n := |ts| - 1;
      TotalLoadBounds(ts[..n]);
      LoadBounds(ts[n]);
      assert Loads(ts)[..n] == Loads(ts[..n]);
      var u, rest := TruncUtil(ts[n].procTime, ts[n].period), SumUtil(ts[..n]);
      assert (rest + u) as real / SHIFT as real == rest as real / SHIFT as real + u as real / SHIFT as real;
    }
  }

  /** The exact utilisation of n tasks the limit admits is below (726662 + n) / 2^20. */
  lemma AdmittedLoad(ts: seq<Task>)
    requires Unshifted(ts) && SumUtil(ts) < MAX_UTIL && ts != []
    ensures 0.0 <= TotalLoad(ts) < (726662 + |ts|) as real / 1048576.0
  {
    TotalLoadBounds(ts);
    assert (SumUtil(ts) + |ts|) as real <= (726662 + |ts|) as real;
  }

  /** The admitted flights as the tasks they are about to become. */
  ghost function Newcomers(fs: seq<Flight>): seq<Task> {
    if fs == [] then []
    else
      var f := fs[|fs| - 1];
      Newcomers(fs[..|fs| - 1]) + if f.Admitted? then [NewTask(0, f.pid, f.period, f.procTime)] else []
  }

  /** Everybody the admission test has let in: the listed tasks and those about to be listed. */
  ghost function LetIn(s: SplitState): seq<Task> {
    s.base.tasks + Newcomers(s.flights)
  }

  lemma {:induction false} LetInCounted(ts: seq<Task>, fs: seq<Flight>)
    ensures SumUtil(ts + Newcomers(fs)) == SumUtil(ts) + FlightSum(fs)
  {
    if fs == [] {
      assert ts + Newcomers(fs) == ts;
    } else {
      var f, before := fs[|fs| - 1], fs[..|fs| - 1];
      LetInCounted(ts, before);
      if f.Admitted? {
        var t := NewTask(0, f.pid, f.period, f.procTime);
        SumUtilAppend(ts + Newcomers(before), t);
        assert ts + Newcomers(fs) == ts + Newcomers(before) + [t];
      } else {
        assert ts + Newcomers(fs) == ts + Newcomers(before);
      }
    }
  }

  /**
  Two-sided accuracy. In every state reached without an overdrawing test the exact utilisation of the
  n tasks let in is below (726662 + n) / 2^20, and a newcomer is turned away for lack of capacity only
  if the exact total with it would be at least 726663 / 2^20.
  */
  lemma AdmissionAccuracy(s: SplitState, msecs: nat -> nat, period: Period, procTime: Word64)
    requires ReachableWithin(s, msecs) && Unshifted(LetIn(s))
    ensures LetIn(s) != [] ==> TotalLoad(LetIn(s)) < (726662 + |LetIn(s)|) as real / 1048576.0
    ensures procTime < UNSHIFTED && !Admissible(s.base.util, period, procTime) ==>
              TotalLoad(LetIn(s)) + procTime as real / period as real >= 726663.0 / 1048576.0
  {
    ReachableWithinAccounted(s, msecs);
    LetInCounted(s.base.tasks, s.flights);
    if LetIn(s) != [] {
      AdmittedLoad(LetIn(s));
    }
    if procTime < UNSHIFTED && !Admissible(s.base.util, period, procTime) {
      Rejection(s.base.util, LetIn(s), period, procTime);
    }
  }

  lemma Rejection(util: Word64, ts: seq<Task>, period: Period, procTime: Word64)
    requires util == SumUtil(ts) < MAX_UTIL && Unshifted(ts)
    requires procTime < UNSHIFTED && !Admissible(util, period, procTime)
    ensures TotalLoad(ts) + procTime as real / period as real >= 726663.0 / 1048576.0
  {
    var u := TruncUtil(procTime, period);
    TotalLoadBounds(ts);
    AdditionExact(util, period, procTime);
    LoadBounds(NewTask(0, 0, period, procTime));
    assert util + u >= MAX_UTIL;
    assert (util + u) as real / SHIFT as real >= MAX_UTIL as real / SHIFT as real;
  }

  // ---------------------------------------------------------------- powers and means

  ghost function Pow(x: real, n: nat): real {
    if n == 0 then 1.0 else x * Pow(x, n - 1)
  }

  lemma {:induction false} PowPositive(x: real, n: nat)
    requires x > 0.0
    ensures Pow(x, n) > 0.0
  {
    if n > 0 { PowPositive(x, n - 1); }
  }

  lemma {:induction false} PowAdd(x: real, m: nat, n: nat)
    ensures Pow(x, m + n) == Pow(x, m) * Pow(x, n)
  {
    if m > 0 {
      PowAdd(x, m - 1, n);
      assert Pow(x, m + n) == x * Pow(x, m - 1 + n);
    }
  }

  lemma {:induction false} PowTimes(x: real, y: real, z: real, n: nat)
    requires z == x * y
    ensures Pow(z, n) == Pow(x, n) * Pow(y, n)
  {
    if n > 0 {
      PowTimes(x, y, z, n - 1);
      var px, py := Pow(x, n - 1), Pow(y, n - 1);
      assert z * (px * py) == (x * px) * (y * py);
    }
  }

  lemma TimesMonotone(a: real, b: real, c: real, d: real)
    requires 0.0 <= a <= b && 0.0 <= c <= d
    ensures 0.0 <= a * c <= b * d
  {
    assert a * c <= b * c;
    assert b * c <= b * d;
  }

  lemma {:induction false} PowMonotone(x: real, y: real, n: nat)
    requires 0.0 <= x <= y
    ensures 0.0 <= Pow(x, n) <= Pow(y, n)
  {
    if n > 0 {
      PowMonotone(x, y, n - 1);
      TimesMonotone(x, y, Pow(x, n - 1), Pow(y, n - 1));
    }
  }

  lemma {:induction false} Bernoulli(t: real, n: nat)
    requires t >= -1.0
    ensures Pow(1.0 + t, n) >= 1.0 + n as real * t
  {
    if n > 0 {
      Bernoulli(t, n - 1);
      BernoulliStep(t, (n - 1) as real, Pow(1.0 + t, n - 1));
      assert (n - 1) as real + 1.0 == n as real;
    }
  }

  lemma NonNegativeTimes(a: real, b: real)
    requires a >= 0.0 && b >= 0.0
    ensures a * b >= 0.0
  {
  }

  lemma BernoulliStep(t: real, m: real, p: real)
    requires t >= -1.0 && m >= 0.0 && p >= 1.0 + m * t
    ensures (1.0 + t) * p >= 1.0 + (m + 1.0) * t
  {
    var q := m * t;
    NonNegativeTimes(1.0 + t, p - (1.0 + q));
    var square := t * t;
    assert square >= 0.0;
    NonNegativeTimes(m, square);
    assert (1.0 + t) * p == (1.0 + t) * (p - (1.0 + q)) + (1.0 + t) * (1.0 + q);
    assert (1.0 + t) * (1.0 + q) == 1.0 + t + q + t * q;
    assert t * q == m * square;
  }

  lemma ScaleMonotone(a: real, b: real, c: real)
    requires a >= 0.0 && b <= c
    ensures a * b <= a * c
  {
  }

  /** `b` is the mean of n values a and one value x; t says by which factor it differs from a. */
  lemma MeanShift(a: real, n: nat, x: real, b: real) returns (t: real)
    requires a > 0.0 && x > 0.0 && b * (n + 1) as real == a * n as real + x
    ensures t >= -1.0 && b == a * (1.0 + t)
    ensures a * (1.0 + (n + 1) as real * t) == x
  {
    var r := (n + 1) as real;
    assert r == n as real + 1.0;
    if b <= 0.0 {
      NonNegativeTimes(-b, r);
      NonNegativeTimes(a, n as real);
      assert false;
    }
    var u := b / a;
    assert u * a == b;
    if u < 0.0 {
      assert false;
    }
    t := u - 1.0;
    assert a * (r * t) == (a * u) * r - a * r;
    assert a * r == a * n as real + a;
  }

  /** The inductive step of the inequality of arithmetic and geometric means. */
  lemma MeanStep(p: real, a: real, n: nat, x: real, b: real)
    requires a > 0.0 && x > 0.0 && b * (n + 1) as real == a * n as real + x
    requires 0.0 <= p <= Pow(a, n)
    ensures 0.0 <= p * x <= Pow(b, n + 1)
  {
    var t := MeanShift(a, n, x, b);
    var u, bern := 1.0 + t, 1.0 + (n + 1) as real * t;
    var pa, pu := Pow(a, n), Pow(u, n + 1);
    PowTimes(a, u, b, n + 1);
    Bernoulli(t, n + 1);
    PowPositive(a, n + 1);
    TimesMonotone(p, pa, x, x);
    ScaleMonotone(a * pa, bern, pu);
    assert pa * x == (a * pa) * bern;
  }

  /** The mean of n factors 1 + load. */
  lemma MeanOf(n: nat, total: real) returns (a: real)
    requires n > 0
    ensures a * n as real == n as real + total
  {
    a := (n as real + total) / n as real;
  }

  /** Factors with mean b have a product of at most b to the power of their number. */
  lemma {:induction false} ProductMean(xs: seq<real>, b: real)
    requires xs != [] && b * |xs| as real == |xs| as real + Sum(xs)
    requires forall i :: 0 <= i < |xs| ==> xs[i] >= 0.0
    ensures Sum(xs) >= 0.0 && b >= 1.0
    ensures 1.0 <= Factors(xs) <= Pow(b, |xs|)
  {
    var n := |xs| - 1;
    var rest, x := xs[..n], 1.0 + xs[n];
    if n == 0 {
      assert b == x && Factors(rest) == 1.0;
      assert Pow(b, 1) == b * Pow(b, 0);
    } else {
      var a := MeanOf(n, Sum(rest));
      ProductMean(rest, a);
      MeanStep(Factors(rest), a, n, x, b);
      TimesMonotone(1.0, Factors(rest), 1.0, x);
      MeanAtLeastOne(b, |xs|, Sum(xs));
    }
  }

  lemma Negative(a: real, b: real)
    requires a < 0.0 && b > 0.0
    ensures a * b < 0.0
  {
  }

  lemma MeanAtLeastOne(b: real, n: nat, load: real)
    requires n > 0 && load >= 0.0 && b * n as real == n as real + load
    ensures b >= 1.0
  {
    var r := n as real;
    assert (b - 1.0) * r == load;
    if b < 1.0 {
      Negative(b - 1.0, r);
      assert false;
    }
  }

  /** Padding with m values c >= 1 keeps the bound and can only raise the product. */
  lemma {:induction false} PadMean(p: real, a: real, n: nat, c: real, m: nat, b: real)
    requires n > 0 && a > 0.0 && c >= 1.0 && b * (n + m) as real == a * n as real + c * m as real
    requires 0.0 <= p <= Pow(a, n)
    ensures p <= Pow(b, n + m)
    decreases m
  {
    if m == 0 {
      assert b == a by { Cancel(a, b, n as real); }
    } else {
      var a' := (a * n as real + c) / (n + 1) as real;
      assert a' * (n + 1) as real == a * n as real + c;
      NonNegativeTimes(a, n as real);
      MeanStep(p, a, n, c, a');
      TimesMonotone(p, p, 1.0, c);
      assert c * m as real == c + c * (m - 1) as real;
      PadMean(p * c, a', n + 1, c, m - 1, b);
    }
  }

  lemma Cancel(a: real, b: real, n: real)
    requires n > 0.0 && a * n == b * n
    ensures a == b
  {
    assert (a - b) * n == 0.0;
  }

  // ---------------------------------------------------------------- the constant

  lemma SquareBelow(x: real, n: nat, b: real, b': real)
    requires x > 0.0 && Pow(x, n) <= b && b * b <= b'
    ensures Pow(x, 2 * n) <= b'
  {
    PowPositive(x, n);
    PowAdd(x, n, n);
    TimesMonotone(Pow(x, n), b, Pow(x, n), b);
    assert n + n == 2 * n;
  }

  lemma SquareAbove(x: real, n: nat, b: real, b': real)
    requires 0.0 <= b <= Pow(x, n) && b' <= b * b
    ensures b' <= Pow(x, 2 * n)
  {
    PowAdd(x, n, n);
    TimesMonotone(b, Pow(x, n), b, Pow(x, n));
    assert n + n == 2 * n;
  }

  lemma ProductBelow(x: real, m: nat, n: nat, b: real, c: real, d: real)
    requires x > 0.0 && Pow(x, m) <= b && Pow(x, n) <= c && b * c <= d
    ensures Pow(x, m + n) <= d
  {
    PowPositive(x, m);
    PowPositive(x, n);
    PowAdd(x, m, n);
    TimesMonotone(Pow(x, m), b, Pow(x, n), c);
  }

  lemma ProductAbove(x: real, m: nat, n: nat, b: real, c: real, d: real)
    requires 0.0 <= b <= Pow(x, m) && 0.0 <= c <= Pow(x, n) && d <= b * c
    ensures d <= Pow(x, m + n)
  {
    PowAdd(x, m, n);
    TimesMonotone(b, Pow(x, m), c, Pow(x, n));
  }

  const PAD: real := 1.0 + 1.0 / 1048576.0                     // a task that truncates to nothing
  const WORST_MEAN: real := 1.0 + 727247.0 / 613416960.0      // 585 tasks sharing 726662 + 585 units of 2^-20

  lemma WorstMeanPowers()
    ensures Pow(WORST_MEAN, 1) <= 1.00118556715485
    ensures Pow(WORST_MEAN, 8) <= 1.00952398664087
    ensures Pow(WORST_MEAN, 64) <= 1.07878062807816
    ensures Pow(WORST_MEAN, 512) <= 1.83427781300113
  {
    assert Pow(WORST_MEAN, 1) == WORST_MEAN * Pow(WORST_MEAN, 0);
    SquareBelow(WORST_MEAN, 1, 1.00118556715485, 1.00237253987918);
    SquareBelow(WORST_MEAN, 2, 1.00237253987918, 1.00475070870384);
    SquareBelow(WORST_MEAN, 4, 1.00475070870384, 1.00952398664087);
    SquareBelow(WORST_MEAN, 8, 1.00952398664087, 1.01913867960328);
    SquareBelow(WORST_MEAN, 16, 1.01913867960328, 1.03864364826352);
    SquareBelow(WORST_MEAN, 32, 1.03864364826352, 1.07878062807816);
    SquareBelow(WORST_MEAN, 64, 1.07878062807816, 1.16376764351671);
    SquareBelow(WORST_MEAN, 128, 1.16376764351671, 1.35435512809644);
    SquareBelow(WORST_MEAN, 256, 1.35435512809644, 1.83427781300113);
  }

  lemma WorstMeanBelowTwo()
    ensures Pow(WORST_MEAN, 585) <= 2.0
  {
    var q := WORST_MEAN;
    WorstMeanPowers();
    ProductBelow(q, 512, 64, 1.83427781300113, 1.07878062807816, 1.97878337117920);
    ProductBelow(q, 576, 8, 1.97878337117920, 1.00952398664087, 1.99762927757149);
    ProductBelow(q, 584, 1, 1.99762927757149, 1.00118556715485, 2.0);
  }

  lemma MeanBelowTwo(n: nat, load: real, a: real, product: real)
    requires 0 < n <= 585 && 0.0 <= load < (726662 + n) as real / 1048576.0
    requires 0.0 <= a && a * n as real == n as real + load && 0.0 <= product <= Pow(a, n)
    ensures product <= 2.0
  {
    var b := PaddedMean(n, load, a);
    PadMean(product, a, n, PAD, 585 - n, b);
    PowMonotone(b, WORST_MEAN, 585);
    WorstMeanBelowTwo();
  }

  lemma LoadsBelowTwo(xs: seq<real>)
    requires 0 < |xs| <= 585 && forall i :: 0 <= i < |xs| ==> xs[i] >= 0.0
    requires Sum(xs) < (726662 + |xs|) as real / 1048576.0
    ensures Factors(xs) <= 2.0
  {
    var a := MeanOf(|xs|, Sum(xs));
    ProductMean(xs, a);
    MeanBelowTwo(|xs|, Sum(xs), a, Factors(xs));
  }

  lemma LoadNotNegative(t: Task)
    ensures Load(t) >= 0.0
  {
  }

  /** At most 585 tasks: the limit on the truncated sum implies the hyperbolic test. */
  lemma LimitImpliesTest(ts: seq<Task>)
    requires Unshifted(ts) && |ts| <= 585 && SumUtil(ts) < MAX_UTIL
    ensures Product(ts) <= 2.0
  {
    if ts != [] {
      AdmittedLoad(ts);
      forall i | 0 <= i < |ts| ensures Loads(ts)[i] >= 0.0 {
        LoadNotNegative(ts[i]);
      }
      LoadsBelowTwo(Loads(ts));
    }
  }

  /** So every task list of at most 585 that is reached without an overdrawing test passes it. */
  lemma HyperbolicHolds(s: SplitState, msecs: nat -> nat)
    requires ReachableWithin(s, msecs) && Unshifted(s.base.tasks) && |s.base.tasks| <= 585
    ensures Product(s.base.tasks) <= 2.0
  {
    ReachableWithinAccounted(s, msecs);
    LimitImpliesTest(s.base.tasks);
  }

  /** n loads within the admission bound, padded with 2^-20 each up to 585, average at most the worst mean. */
  lemma PaddedMean(n: nat, load: real, a: real) returns (b: real)
    requires 0 < n <= 585 && 0.0 <= load < (726662 + n) as real / 1048576.0
    requires a * n as real == n as real + load
    ensures b * 585.0 == a * n as real + PAD * (585 - n) as real
    ensures 0.0 <= b <= WORST_MEAN
  {
    var r := n as real;
    assert (585 - n) as real == 585.0 - r;
    assert (726662 + n) as real == 726662.0 + r;
    assert PAD * (585.0 - r) == 585.0 - r + 585.0 / 1048576.0 - r / 1048576.0;
    b := (r + load + PAD * (585.0 - r)) / 585.0;
  }

  // ---------------------------------------------------------------- the 586th task

  const LONG_PERIOD: Period := 0x100_0000_0000        // 2^40
  const MORE: Word64 := 1242 * SHIFT - 1              // truncates to 1241 units
  const LESS: Word64 := 1241 * SHIFT - 1              // truncates to 1240 units
  const MORE_FACTOR: real := 1.0 + 1302331391.0 / 1099511627776.0
  const LESS_FACTOR: real := 1.0 + 1301282815.0 / 1099511627776.0

  function Crowd(i: nat): Task
    requires i < TWO_32
  {
    NewTask(i, i, LONG_PERIOD, if i < 22 then MORE else LESS)
  }

  function CrowdUtil(n: nat): nat {
    if n <= 22 then 1241 * n else 1241 * 22 + 1240 * (n - 22)
  }

  /** `few` factors x, then factors y, n in all. */
  ghost function TwoPowers(x: real, y: real, few: nat, n: nat): real {
    if n == 0 then 1.0 else TwoPowers(x, y, few, n - 1) * if n <= few then x else y
  }

  lemma CrowdMember(i: nat)
    requires i < TWO_32
    ensures TruncUtil(Crowd(i).procTime, LONG_PERIOD) == if i < 22 then 1241 else 1240
    ensures 1.0 + Load(Crowd(i)) == if i < 22 then MORE_FACTOR else LESS_FACTOR
  {
  }

  lemma {:induction false} TwoPowersFirst(x: real, y: real, few: nat, n: nat)
    requires n <= few
    ensures TwoPowers(x, y, few, n) == Pow(x, n)
  {
    if n > 0 { TwoPowersFirst(x, y, few, n - 1); }
  }

  lemma {:induction false} TwoPowersRest(x: real, y: real, few: nat, n: nat)
    ensures TwoPowers(x, y, few, few + n) == Pow(x, few) * Pow(y, n)
  {
    if n == 0 {
      TwoPowersFirst(x, y, few, few);
    } else {
      TwoPowersRest(x, y, few, n - 1);
      Associate(Pow(x, few), Pow(y, n - 1), y);
      assert few + n - 1 == few + (n - 1);
    }
  }

  lemma Associate(a: real, b: real, c: real)
    ensures a * b * c == a * (c * b)
  {
  }

  ghost predicate IsCrowd(ts: seq<Task>) {
    |ts| <= TWO_32 && forall i :: 0 <= i < |ts| ==> ts[i] == Crowd(i)
  }

  lemma {:induction false} FactorsTwoPowers(xs: seq<real>, x: real, y: real, few: nat)
    requires forall i :: 0 <= i < |xs| ==> 1.0 + xs[i] == if i < few then x else y
    ensures Factors(xs) == TwoPowers(x, y, few, |xs|)
  {
    if xs != [] {
      FactorsTwoPowers(xs[..|xs| - 1], x, y, few);
      Substitute(Factors(xs[..|xs| - 1]), 1.0 + xs[|xs| - 1], if |xs| <= few then x else y);
    }
  }

  lemma Substitute(a: real, b: real, c: real)
    requires b == c
    ensures a * b == a * c
  {
  }

  lemma CrowdProduct(ts: seq<Task>)
    requires IsCrowd(ts)
    ensures Product(ts) == TwoPowers(MORE_FACTOR, LESS_FACTOR, 22, |ts|)
  {
    forall i | 0 <= i < |ts| ensures 1.0 + Loads(ts)[i] == if i < 22 then MORE_FACTOR else LESS_FACTOR {
      CrowdMember(i);
    }
    FactorsTwoPowers(Loads(ts), MORE_FACTOR, LESS_FACTOR, 22);
  }

  /** The registrations of the first n members of the crowd are all admitted. */
  lemma {:induction false} CrowdReachable(n: nat, msecs: nat -> nat) returns (s: State)
    requires n <= 586
    ensures Reachable(s, msecs) && Sound(s) && IsCrowd(s.tasks) && |s.tasks| == n && s.util == CrowdUtil(n)
    decreases n
  {
    if n == 0 {
      s := Boot(1);
      ReachableBoot(1, msecs);
    } else {
      s := CrowdReachable(n - 1, msecs);
      s := CrowdJoins(s, msecs);
    }
  }

  lemma CrowdUtilStep(n: nat)
    requires n < 586
    ensures CrowdUtil(n + 1) == CrowdUtil(n) + (if n < 22 then 1241 else 1240) < MAX_UTIL
  {
  }

  lemma CrowdIsNew(ts: seq<Task>)
    requires IsCrowd(ts) && |ts| < TWO_32
    ensures !HasAddr(ts, |ts|) && !HasPid(ts, |ts|) && IsCrowd(ts + [Crowd(|ts|)])
  {
  }

  lemma CrowdJoins(s: State, msecs: nat -> nat) returns (s': State)
    requires Reachable(s, msecs) && Sound(s) && IsCrowd(s.tasks) && |s.tasks| < 586 && s.util == CrowdUtil(|s.tasks|)
    ensures Reachable(s', msecs) && Sound(s') && IsCrowd(s'.tasks)
    ensures |s'.tasks| == |s.tasks| + 1 && s'.util == CrowdUtil(|s'.tasks|)
  {
    var i := |s.tasks|;
    CrowdMember(i);
    CrowdUtilStep(i);
    CrowdIsNew(s.tasks);
    s' := RegisterAdmitted(s, i, i, LONG_PERIOD, Crowd(i).procTime, msecs);
  }

  lemma MorePower()
    ensures Pow(MORE_FACTOR, 22) >= 1.02638485287592
  {
    var x := MORE_FACTOR;
    assert Pow(x, 1) == x * Pow(x, 0);
    SquareAbove(x, 1, 1.00118446350006, 1.00237032995390);
    SquareAbove(x, 2, 1.00237032995390, 1.00474627837189);
    SquareAbove(x, 4, 1.00474627837189, 1.00951508390216);
    SquareAbove(x, 8, 1.00951508390216, 1.01912070462598);
    ProductAbove(x, 16, 4, 1.01912070462598, 1.00474627837189, 1.02395773518469);
    ProductAbove(x, 20, 2, 1.02395773518469, 1.00237032995390, 1.02638485287592);
  }

  lemma LessPowers()
    ensures Pow(LESS_FACTOR, 4) >= 1.00474245010894
    ensures Pow(LESS_FACTOR, 16) >= 1.01910517258641
    ensures Pow(LESS_FACTOR, 32) >= 1.03857535279237
    ensures Pow(LESS_FACTOR, 512) >= 1.83234897271417
  {
    var x := LESS_FACTOR;
    assert Pow(x, 1) == x * Pow(x, 0);
    SquareAbove(x, 1, 1.00118350982575, 1.00236842034700);
    SquareAbove(x, 2, 1.00236842034700, 1.00474245010894);
    SquareAbove(x, 4, 1.00474245010894, 1.00950739105091);
    SquareAbove(x, 8, 1.00950739105091, 1.01910517258641);
    SquareAbove(x, 16, 1.01910517258641, 1.03857535279237);
    SquareAbove(x, 32, 1.03857535279237, 1.07863876342779);
    SquareAbove(x, 64, 1.07863876342779, 1.16346158196903);
    SquareAbove(x, 128, 1.16346158196903, 1.35364285271787);
    SquareAbove(x, 256, 1.35364285271787, 1.83234897271417);
  }

  lemma LessPower544()
    ensures Pow(LESS_FACTOR, 544) >= 1.90303248077535
  {
    LessPowers();
    ProductAbove(LESS_FACTOR, 512, 32, 1.83234897271417, 1.03857535279237, 1.90303248077535);
  }

  lemma LessPower560()
    ensures Pow(LESS_FACTOR, 560) >= 1.93939024475810
  {
    LessPowers();
    LessPower544();
    ProductAbove(LESS_FACTOR, 544, 16, 1.90303248077535, 1.01910517258641, 1.93939024475810);
  }

  lemma LessPower()
    ensures Pow(LESS_FACTOR, 564) >= 1.94858770623563
  {
    LessPowers();
    LessPower560();
    ProductAbove(LESS_FACTOR, 560, 4, 1.93939024475810, 1.00474245010894, 1.94858770623563);
  }

  lemma TwoPowersAbove(x: real, y: real, few: nat, n: nat, a: real, b: real)
    requires 0.0 <= a <= Pow(x, few) && 0.0 <= b <= Pow(y, n)
    ensures a * b <= TwoPowers(x, y, few, few + n)
  {
    var px, py := Pow(x, few), Pow(y, n);
    TimesMonotone(a, px, b, py);
    TwoPowersRest(x, y, few, n);
    assert TwoPowers(x, y, few, few + n) == px * py;
  }

  /** 586 admitted tasks whose product exceeds 2. */
  lemma CrowdExceedsTwo(msecs: nat -> nat) returns (s: State)
    ensures Reachable(s, msecs) && |s.tasks| == 586
    ensures forall i :: 0 <= i < 586 ==> s.tasks[i].procTime <= MORE
    ensures Product(s.tasks) > 2.0
  {
    s := CrowdReachable(586, msecs);
    CrowdProduct(s.tasks);
    MorePower();
    LessPower();
    TwoPowersAbove(MORE_FACTOR, LESS_FACTOR, 22, 564, 1.02638485287592, 1.94858770623563);
  }

  ghost predicate ProcTimesBelow(ts: seq<Task>, bound: nat) {
    forall i :: 0 <= i < |ts| ==> ts[i].procTime < bound
  }

  /**
  Every set of at most n tasks, all of `proc_time` below the bound, that is listed in a state reached
  without an overdrawing test, passes the hyperbolic test.
  */
  ghost predicate SafeUpTo(n: nat, bound: nat, msecs: nat -> nat) {
    forall s :: ReachableWithin(s, msecs) && |s.base.tasks| <= n && ProcTimesBelow(s.base.tasks, bound) ==>
      Product(s.base.tasks) <= 2.0
  }

  lemma SafeBelow(n: nat, bound: nat, msecs: nat -> nat)
    requires n <= 585 && bound <= UNSHIFTED
    ensures SafeUpTo(n, bound, msecs)
  {
    forall s | ReachableWithin(s, msecs) && |s.base.tasks| <= n && ProcTimesBelow(s.base.tasks, bound)
      ensures Product(s.base.tasks) <= 2.0
    {
      HyperbolicHolds(s, msecs);
    }
  }

  /**
  Main theorem: below 2^44 the admission constant implies the hyperbolic schedulability test for up
  to 585 tasks, and for 586 it does not.
  */
  lemma HyperbolicExactly(n: nat, msecs: nat -> nat)
    ensures SafeUpTo(n, UNSHIFTED, msecs) <==> n <= 585
  {
    if n <= 585 {
      SafeBelow(n, UNSHIFTED, msecs);
    } else {
      var s := CrowdExceedsTwo(msecs);
      WholeReachable(s, msecs);
      assert ProcTimesBelow(SplitState(s, []).base.tasks, UNSHIFTED);
    }
  }

  /**
  Both limits at once: for any bound on `proc_time` that admits the crowd above, the test is implied
  for up to n tasks if and only if n is at most 585 and the bound is at most 2^44.
  */
  lemma HyperbolicFrontier(n: nat, bound: nat, msecs: nat -> nat)
    requires n >= 1 && bound > MORE
    ensures SafeUpTo(n, bound, msecs) <==> n <= 585 && bound <= UNSHIFTED
  {
    if n <= 585 && bound <= UNSHIFTED {
      SafeBelow(n, bound, msecs);
    } else if bound > UNSHIFTED {
      var s := ShiftedOutLoad(msecs);
      WholeReachable(s, msecs);
      assert ProcTimesBelow(SplitState(s, []).base.tasks, bound);
    } else {
      var s := CrowdExceedsTwo(msecs);
      WholeReachable(s, msecs);
      assert ProcTimesBelow(SplitState(s, []).base.tasks, bound);
    }
  }

  /** Under a small enough bound no number of tasks matters: with `proc_time` below 1 every load is 0. */
  lemma ZeroLoadsAreSafe(n: nat, msecs: nat -> nat)
    ensures SafeUpTo(n, 1, msecs)
  {
    forall s | ReachableWithin(s, msecs) && |s.base.tasks| <= n && ProcTimesBelow(s.base.tasks, 1)
      ensures Product(s.base.tasks) <= 2.0
    {
      var ts := s.base.tasks;
      forall i | 0 <= i < |ts| ensures Loads(ts)[i] == 0.0 {
        assert ts[i].procTime == 0;
      }
      ZeroFactors(Loads(ts));
    }
  }

  lemma {:induction false} ZeroFactors(xs: seq<real>)
    requires forall i :: 0 <= i < |xs| ==> xs[i] == 0.0
    ensures Factors(xs) == 1.0
  {
    if xs != [] {
      ZeroFactors(xs[..|xs| - 1]);
    }
  }

  /** Beyond 2^44 the test is blind: one task is admitted on an empty system at any load whatever. */
  lemma ShiftedOutLoad(msecs: nat -> nat) returns (s: State)
    ensures Reachable(s, msecs) && |s.tasks| == 1 && s.tasks[0].procTime == UNSHIFTED
    ensures s.util == 0 && Product(s.tasks) > 17592186044416.0
  {
    ReachableBoot(1, msecs);
    s := RegisterAdmitted(Boot(1), 0, 0, 1, UNSHIFTED, msecs);
    assert Loads(s.tasks)[..0] == [] && Factors([]) == 1.0;
    assert Loads(s.tasks)[0] == UNSHIFTED as real;
  }
}
