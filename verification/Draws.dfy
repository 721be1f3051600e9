/**
  * Exact integer draws: the 128-bit high product, rejection sampling below a bound, and geometric levels.
  */
module Draws {

  const TWO_32: nat := 0x1_0000_0000
  const TWO_64: nat := 0x1_0000_0000_0000_0000
  const TWO_53: nat := 0x20_0000_0000_0000

  /** A value as 64 bits hold it. */
  function Wrapped(x: nat): nat {
    x % TWO_64
  }

  // ----- sets of consecutive integers -----

  predicate Between(x: nat, from: nat, count: nat) {
    from <= x < from + count
  }

  function Range(from: nat, count: nat): set<nat> {
    set x: nat | x < from + count && Between(x, from, count)
  }

  lemma {:induction false} RangeSize(from: nat, count: nat)
    ensures |Range(from, count)| == count
  {
    if count == 0 {
      assert Range(from, 0) == {};
    } else {
      RangeSize(from, count - 1);
      assert Range(from, count) == Range(from, count - 1) + {from + count - 1};
    }
  }

  // ----- products -----

  /** A product the solver does not look into. */
  function Mul(x: nat, y: nat): nat {
    x * y
  }

  lemma MulCommutes(x: nat, y: nat)
    ensures Mul(x, y) == Mul(y, x)
  {
  }

  lemma MulMonotone(x: nat, y: nat, z: nat)
    requires x <= y
    ensures Mul(x, z) <= Mul(y, z)
  {
  }

  lemma MulDistributes(x: nat, y: nat, z: nat)
    ensures Mul(x + y, z) == Mul(x, z) + Mul(y, z)
  {
  }

  lemma MulAssociates(x: nat, y: nat, z: nat)
    ensures Mul(Mul(x, y), z) == Mul(x, Mul(y, z))
  {
  }

  lemma Split(x: nat, w: nat)
    requires w > 0
    ensures x == Mul(x / w, w) + x % w && x % w < w
  {
  }

  // ----- the high product -----

  function Low(x: nat): nat {
    x % TWO_32
  }

  function High(x: nat): nat {
    x / TWO_32
  }

  /** The low half products, the carry out of the middle column, and the sum of the high column, each kept to 64 bits. */
  function Cross(a: nat, b: nat): nat {
    Wrapped(High(Wrapped(Mul(Low(a), Low(b)))) + Low(Wrapped(Mul(High(a), Low(b)))) + Wrapped(Mul(Low(a), High(b))))
  }

  /** High 64 bits of a product from four products of 32-bit halves. */
  function MulHigh(a: nat, b: nat): nat {
    Wrapped(Wrapped(Mul(High(a), High(b))) + High(Wrapped(Mul(High(a), Low(b)))) + High(Cross(a, b)))
  }

  lemma Halves(x: nat)
    ensures x == Mul(High(x), TWO_32) + Low(x) && Low(x) < TWO_32
    ensures x < TWO_64 ==> High(x) < TWO_32
  {
  }

  lemma NoWrap(x: nat)
    requires x < TWO_64
    ensures Wrapped(x) == x
  {
  }

  lemma HalfProduct(x: nat, y: nat)
    requires x < TWO_32 && y < TWO_32
    ensures Mul(x, y) <= (TWO_32 - 1) * (TWO_32 - 1)
  {
    hide Mul;
    MulMonotone(x, TWO_32 - 1, y);
    MulMonotone(y, TWO_32 - 1, TWO_32 - 1);
    MulCommutes(TWO_32 - 1, y);
    Unfold(TWO_32 - 1, TWO_32 - 1);
  }

  lemma Unfold(x: nat, y: nat)
    ensures Mul(x, y) == x * y
  {
  }

  lemma Quotient(x: nat, n: nat, q: nat, r: nat)
    requires x == Mul(q, n) + r && r < n
    ensures x / n == q && x % n == r
  {
    hide Mul;
    Split(x, n);
    if x / n != q {
      var low, high := if x / n < q then x / n else q, if x / n < q then q else x / n;
      MulMonotone(low + 1, high, n);
      MulDistributes(low, 1, n);
      Unfold(1, n);
    }
  }

  /** `x * w`, carried into the next place. */
  lemma Carry(x: nat, q: nat, r: nat, w: nat)
    requires x == Mul(q, w) + r
    ensures Mul(x, w) == Mul(q, Mul(w, w)) + Mul(r, w)
  {
    hide Mul;
    MulDistributes(Mul(q, w), r, w);
    MulAssociates(q, w, w);
  }

  lemma Expand(w: nat, aLo: nat, aHi: nat, bLo: nat, bHi: nat)
    ensures Mul(Mul(aHi, w) + aLo, Mul(bHi, w) + bLo)
         == Mul(Mul(aHi, bHi), Mul(w, w)) + Mul(Mul(aHi, bLo), w) + Mul(Mul(aLo, bHi), w) + Mul(aLo, bLo)
  {
    hide Mul;
    var x, y := Mul(aHi, w), Mul(bHi, w);
    MulDistributes(x, aLo, y + bLo);
    DistributesRight(x, y, bLo);
    DistributesRight(aLo, y, bLo);
    MulAssociates(aHi, w, bLo);
    MulCommutes(w, bLo);
    MulAssociates(aHi, bLo, w);
    MulAssociates(aLo, bHi, w);
    MulAssociates(aHi, w, y);
    MulCommutes(w, y);
    MulAssociates(bHi, w, w);
    MulAssociates(aHi, bHi, Mul(w, w));
  }

  lemma DistributesRight(x: nat, y: nat, z: nat)
    ensures Mul(x, y + z) == Mul(x, y) + Mul(x, z)
  {
  }

  /** The schoolbook sum of two two-digit numbers in base `w`, with the carries `q` and digits `r` of each column. */
  lemma Schoolbook(w: nat, aLo: nat, aHi: nat, bLo: nat, bHi: nat, q0: nat, r0: nat, q1: nat, r1: nat, q2: nat, r2: nat)
    requires Mul(aLo, bLo) == Mul(q0, w) + r0
    requires Mul(aHi, bLo) == Mul(q1, w) + r1
    requires q0 + r1 + Mul(aLo, bHi) == Mul(q2, w) + r2
    ensures Mul(Mul(aHi, w) + aLo, Mul(bHi, w) + bLo)
         == Mul(Mul(aHi, bHi) + q1 + q2, Mul(w, w)) + Mul(r2, w) + r0
  {
    hide Mul;
    var lh := Mul(aLo, bHi);
    Expand(w, aLo, aHi, bLo, bHi);
    Carry(Mul(aHi, bLo), q1, r1, w);
    Carry(q0 + r1 + lh, q2, r2, w);
    MulDistributes(q0 + r1, lh, w);
    MulDistributes(q0, r1, w);
    MulDistributes(Mul(aHi, bHi) + q1, q2, Mul(w, w));
    MulDistributes(Mul(aHi, bHi), q1, Mul(w, w));
  }

  /** No product or sum inside `mul_high_u64` reaches 2^64. */
  lemma NothingOverflows(a: nat, b: nat)
    requires a < TWO_64 && b < TWO_64
    ensures Mul(Low(a), Low(b)) < TWO_64 && Mul(High(a), Low(b)) < TWO_64
    ensures Mul(Low(a), High(b)) < TWO_64 && Mul(High(a), High(b)) < TWO_64
    ensures High(Mul(Low(a), Low(b))) + Low(Mul(High(a), Low(b))) + Mul(Low(a), High(b)) < TWO_64
  {
    hide Mul, Low, High;
    Halves(a);
    Halves(b);
    HalfProduct(Low(a), Low(b));
    HalfProduct(High(a), Low(b));
    HalfProduct(Low(a), High(b));
    HalfProduct(High(a), High(b));
    Halves(Mul(Low(a), Low(b)));
    Halves(Mul(High(a), Low(b)));
  }

  /** `mul_high_u64` is the exact high word of the product. */
  lemma MulHighIsExact(a: nat, b: nat)
    requires a < TWO_64 && b < TWO_64
    ensures MulHigh(a, b) == (a * b) / TWO_64 < TWO_64
  {
    hide Mul, Low, High, Wrapped;
    var ll, hl, lh, hh := Mul(Low(a), Low(b)), Mul(High(a), Low(b)), Mul(Low(a), High(b)), Mul(High(a), High(b));
    var cross := High(ll) + Low(hl) + lh;
    NothingOverflows(a, b);
    NoWrap(ll); NoWrap(hl); NoWrap(lh); NoWrap(hh); NoWrap(cross);
    Halves(a); Halves(b); Halves(ll); Halves(hl); Halves(cross);
    Schoolbook(TWO_32, Low(a), High(a), Low(b), High(b), High(ll), Low(ll), High(hl), Low(hl), High(cross), Low(cross));
    Unfold(a, b); Unfold(TWO_32, TWO_32); Unfold(Low(cross), TWO_32);
    var high := hh + High(hl) + High(cross);
    Quotient(a * b, TWO_64, high, Mul(Low(cross), TWO_32) + Low(ll));
    HighWordFits(a, b);
    NoWrap(high);
  }

  lemma HighWordFits(a: nat, b: nat)
    requires a < TWO_64 && b < TWO_64
    ensures (a * b) / TWO_64 < TWO_64
  {
    hide Mul;
    var x := a * b;
    Unfold(a, b);
    MulMonotone(a, TWO_64, b);
    MulCommutes(TWO_64, b);
    Split(x, TWO_64);
    if x / TWO_64 > b {
      MulMonotone(b + 1, x / TWO_64, TWO_64);
      MulDistributes(b, 1, TWO_64);
      Unfold(1, TWO_64);
    }
  }

  // ----- uniform integers below a bound -----

  /** Low and high word of the product of a raw word with the bound. */
  function LowWord(x: nat, bound: nat): nat {
    Mul(x, bound) % TWO_64
  }

  function Drawn(x: nat, bound: nat): nat {
    Mul(x, bound) / TWO_64
  }

  /** Plain rejection: the low word must reach 2^64 mod bound. */
  predicate Accepted(x: nat, bound: nat)
    requires bound > 0
  {
    LowWord(x, bound) >= TWO_64 % bound
  }

  lemma ThresholdIsRemainder(bound: nat)
    requires 0 < bound < TWO_64
    ensures Wrapped(TWO_64 - bound) % bound == TWO_64 % bound < bound
  {
    hide Mul;
    var rest := TWO_64 - bound;
    Split(rest, bound);
    MulDistributes(rest / bound, 1, bound);
    Unfold(1, bound);
    Quotient(TWO_64, bound, rest / bound + 1, rest % bound);
  }

  /** The least multiplier that takes `bound` to `least` or beyond. */
  function Ceiling(least: nat, bound: nat): nat
    requires bound > 0
  {
    if least % bound == 0 then least / bound else least / bound + 1
  }

  lemma CeilingIsLeast(x: nat, least: nat, bound: nat)
    requires bound > 0
    ensures Mul(x, bound) >= least <==> x >= Ceiling(least, bound)
  {
    hide Mul;
    var q, c := least / bound, Ceiling(least, bound);
    Split(least, bound);
    MulDistributes(q, 1, bound);
    Unfold(1, bound);
    if x >= c {
      MulMonotone(c, x, bound);
    } else {
      MulMonotone(x, q, bound);
      if x < q {
        MulMonotone(x + 1, q, bound);
        MulDistributes(x, 1, bound);
      }
    }
  }

  /** An accepted word drawn as `r` is one whose product lies in an interval of exactly `q` multiples of the bound. */
  lemma DrawnInterval(x: nat, bound: nat, r: nat)
    requires 0 < bound < TWO_64
    ensures var least, q := Mul(r, TWO_64) + TWO_64 % bound, TWO_64 / bound;
            Accepted(x, bound) && Drawn(x, bound) == r <==> Between(x, Ceiling(least, bound), q)
  {
    hide Mul, Ceiling;
    var t, q, p := TWO_64 % bound, TWO_64 / bound, Mul(x, bound);
    var least := Mul(r, TWO_64) + t;
    Split(TWO_64, bound);
    Split(p, TWO_64);
    if p >= least && p < least + Mul(q, bound) {
      Quotient(p, TWO_64, r, p - Mul(r, TWO_64));
    }
    CeilingIsLeast(x, least, bound);
    if x >= q {
      MulDistributes(x - q, q, bound);
      CeilingIsLeast(x - q, least, bound);
    } else {
      MulMonotone(x, q, bound);
      MulMonotone(x + 1, q, bound);
      MulDistributes(x, 1, bound);
      Unfold(1, bound);
    }
  }

  predicate DrawnAs(x: nat, bound: nat, r: nat)
    requires bound > 0
  {
    x < TWO_64 && Accepted(x, bound) && Drawn(x, bound) == r
  }

  lemma DrawnFits(x: nat, bound: nat, r: nat)
    requires 0 < bound < TWO_64 && r < bound && Drawn(x, bound) == r
    ensures x < TWO_64
  {
    hide Mul;
    Split(Mul(x, bound), TWO_64);
    MulMonotone(r + 1, bound, TWO_64);
    MulDistributes(r, 1, TWO_64);
    Unfold(1, TWO_64);
    MulCommutes(bound, TWO_64);
    if x >= TWO_64 {
      MulMonotone(TWO_64, x, bound);
    }
  }

  function WordsFor(bound: nat, r: nat): set<nat>
    requires bound > 0
  {
    set x: nat | x < TWO_64 && DrawnAs(x, bound, r)
  }

  /** Unbiased: every result has exactly `2^64 / bound` accepted words. */
  lemma EveryResultEquallyLikely(bound: nat, r: nat)
    requires 0 < bound < TWO_64 && r < bound
    ensures |WordsFor(bound, r)| == TWO_64 / bound
  {
    hide Mul, Ceiling, Accepted, Drawn;
    var first, q := Ceiling(Mul(r, TWO_64) + TWO_64 % bound, bound), TWO_64 / bound;
    forall x: nat
      ensures x in WordsFor(bound, r) <==> x in Range(first, q)
    {
      DrawnInterval(x, bound, r);
      if Drawn(x, bound) == r {
        DrawnFits(x, bound, r);
      }
    }
    assert WordsFor(bound, r) == Range(first, q);
    RangeSize(first, q);
  }

  lemma DrawnBelow(x: nat, bound: nat)
    requires x < TWO_64 && 0 < bound < TWO_64
    ensures Drawn(x, bound) < bound && MulHigh(x, bound) == Drawn(x, bound)
  {
    hide Mul, MulHigh;
    MulHighIsExact(x, bound);
    Unfold(x, bound);
    Split(Mul(x, bound), TWO_64);
    MulMonotone(x + 1, TWO_64, bound);
    MulDistributes(x, 1, bound);
    Unfold(1, bound);
    MulCommutes(TWO_64, bound);
    if Drawn(x, bound) >= bound {
      MulMonotone(bound, Drawn(x, bound), TWO_64);
    }
  }

  datatype Draw = Draw(value: nat, used: nat) | OutOfWords

  /** Draws from a stream of raw words; a first low word of at least `bound` is accepted without the division. */
  method UniformBelow(raw: seq<nat>, bound: nat) returns (d: Draw)
    requires 0 < bound < TWO_64 && forall i :: 0 <= i < |raw| ==> raw[i] < TWO_64
    ensures d.Draw? ==> && 0 < d.used <= |raw| && Accepted(raw[d.used - 1], bound)
                        && d.value == Drawn(raw[d.used - 1], bound) < bound
                        && forall i :: 0 <= i < d.used - 1 ==> !Accepted(raw[i], bound)
    ensures d.OutOfWords? ==> forall i :: 0 <= i < |raw| ==> !Accepted(raw[i], bound)
  {
    hide Mul, MulHigh, Drawn;
    if raw == [] {
      return OutOfWords;
    }
    ThresholdIsRemainder(bound);
    var i: nat := 0;
    var low := Wrapped(Mul(raw[0], bound));
    if low < bound {
      var threshold := Wrapped(TWO_64 - bound) % bound;
      while low < threshold
        invariant i < |raw| && low == LowWord(raw[i], bound)
        invariant forall j :: 0 <= j < i ==> !Accepted(raw[j], bound)
        decreases |raw| - i
      {
        i := i + 1;
        if i == |raw| {
          return OutOfWords;
        }
        low := Wrapped(Mul(raw[i], bound));
      }
    }
    DrawnBelow(raw[i], bound);
    return Draw(MulHigh(raw[i], bound), i + 1);
  }

  // ----- geometric levels -----

  function Pow(m: nat, l: nat): nat {
    if l == 0 then 1 else Mul(Pow(m, l - 1), m)
  }

  /** `v` of the 2^53 possible values reaches level `l`. */
  predicate Reaches(v: nat, m: nat, l: nat) {
    Mul(v, Pow(m, l)) <= TWO_53
  }

  lemma PowStep(m: nat, l: nat)
    requires m >= 1
    ensures Pow(m, l) >= 1 && Pow(m, l) <= Pow(m, l + 1)
  {
    hide Mul;
    if l > 0 {
      PowStep(m, l - 1);
    }
    MulCommutes(Pow(m, l), m);
    MulMonotone(1, m, Pow(m, l));
    Unfold(1, Pow(m, l));
  }

  lemma {:induction false} LowerIsReached(v: nat, m: nat, low: nat, high: nat)
    requires m >= 1 && low <= high && Reaches(v, m, high)
    ensures Reaches(v, m, low)
    decreases high
  {
    hide Mul, Pow;
    if low < high {
      PowStep(m, high - 1);
      MulMonotone(Pow(m, high - 1), Pow(m, high), v);
      MulCommutes(v, Pow(m, high - 1));
      MulCommutes(v, Pow(m, high));
      LowerIsReached(v, m, low, high - 1);
    }
  }

  lemma QuotientBound(v: nat, p: nat)
    requires v > 0
    ensures p <= TWO_53 / v <==> Mul(v, p) <= TWO_53
  {
    hide Mul;
    Split(TWO_53, v);
    MulCommutes(v, p);
    var q := TWO_53 / v;
    if p <= q {
      MulMonotone(p, q, v);
    } else {
      MulMonotone(q + 1, p, v);
      MulDistributes(q, 1, v);
      Unfold(1, v);
    }
  }

  /** The level of a value: the largest one it reaches, capped; no product overflows. */
  method LevelFor(v: nat, m: nat, maxLevel: nat) returns (level: nat)
    requires 1 <= v <= TWO_53 && 2 <= m <= 512
    ensures level <= maxLevel
    ensures forall l: nat | l <= maxLevel :: level >= l <==> Reaches(v, m, l)
  {
    hide Mul, Reaches;
    var bound := TWO_53 / v;
    var power: nat := 1;
    level := 0;
    ReachesZero(v, m);
    while level < maxLevel
      invariant level <= maxLevel && power == Pow(m, level) <= bound <= TWO_53
      invariant Reaches(v, m, level)
    {
      LevelProduct(power, m);
      var next := Wrapped(Mul(power, m));
      ReachesByQuotient(v, m, level + 1);
      if next > bound {
        break;
      }
      power := next;
      level := level + 1;
    }
    forall l: nat | l <= maxLevel
      ensures level >= l <==> Reaches(v, m, l)
    {
      if l <= level {
        LowerIsReached(v, m, l, level);
      } else if Reaches(v, m, l) {
        LowerIsReached(v, m, level + 1, l);
      }
    }
  }

  lemma LevelProduct(power: nat, m: nat)
    requires power <= TWO_53 && m <= 512
    ensures Mul(power, m) < TWO_64 && Wrapped(Mul(power, m)) == Mul(power, m)
  {
    hide Mul;
    MulMonotone(power, TWO_53, m);
    MulCommutes(TWO_53, m);
    MulMonotone(m, 512, TWO_53);
    Unfold(512, TWO_53);
  }

  lemma ReachesZero(v: nat, m: nat)
    requires 1 <= v <= TWO_53
    ensures Reaches(v, m, 0) && Pow(m, 0) == 1 <= TWO_53 / v <= TWO_53
  {
    hide Mul;
    Unfold(v, 1);
    QuotientBound(v, 1);
    Split(TWO_53, v);
    MulCommutes(TWO_53 / v, v);
    MulMonotone(1, v, TWO_53 / v);
    Unfold(1, TWO_53 / v);
  }

  lemma ReachesByQuotient(v: nat, m: nat, l: nat)
    requires v > 0
    ensures Reaches(v, m, l) <==> Pow(m, l) <= TWO_53 / v
  {
    QuotientBound(v, Pow(m, l));
  }

  function ValuesReaching(m: nat, l: nat): set<nat> {
    set v: nat | v <= TWO_53 && v >= 1 && Reaches(v, m, l)
  }

  /** Exactly geometric: `2^53 / M^l` of the 2^53 values reach level `l`. */
  lemma LevelsAreGeometric(m: nat, l: nat)
    requires m >= 1
    ensures Pow(m, l) >= 1 && |ValuesReaching(m, l)| == TWO_53 / Pow(m, l)
  {
    hide Mul, Pow;
    PowStep(m, l);
    var p := Pow(m, l);
    var q := TWO_53 / p;
    forall v: nat
      ensures v in ValuesReaching(m, l) <==> v in Range(1, q)
    {
      QuotientBound(p, v);
      MulCommutes(v, p);
      AtMostAll(p, q);
    }
    assert ValuesReaching(m, l) == Range(1, q);
    RangeSize(1, q);
  }

  lemma AtMostAll(p: nat, q: nat)
    requires p >= 1 && q == TWO_53 / p
    ensures q <= TWO_53
  {
    hide Mul;
    Split(TWO_53, p);
    MulCommutes(q, p);
    MulMonotone(1, p, q);
    Unfold(1, q);
  }
}
