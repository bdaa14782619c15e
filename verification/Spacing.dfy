/** Spacing of rebar groups and meshes: where the bars stand along a length. */
module Spacing {
  import opened Wrappers

  datatype Error = InvalidGeometry | ResourceLimit | Unsupported

  datatype Result = Distances(values: seq<real>) | Failed(error: Error)

  /** Lengths up to this count as none. */
  const NO_LENGTH: real := 0.0000001

  function Ceiling(x: real): int {
    -((-x).Floor)
  }

  /** Nearest whole number of a positive value, halves upwards. */
  function Rounded(x: real): int {
    (x + 0.5).Floor
  }

  /** The product with a whole number. */
  function Times(k: int, step: real): real {
    (k as real) * step
  }

  lemma TimesNext(k: int, step: real)
    ensures Times(k + 1, step) == Times(k, step) + step
    ensures Times(0, step) == 0.0
  {
  }

  /** The k-th of `n` equal parts of a length. */
  function Part(length: real, k: int, n: int): real
    requires n != 0
  {
    length * (k as real) / (n as real)
  }

  lemma PartNext(length: real, k: int, n: int)
    requires n > 0
    ensures Part(length, k + 1, n) == Part(length, k, n) + Part(length, 1, n)
    ensures Part(length, 0, n) == 0.0 && Part(length, n, n) == length
  {
    QuotientSum(length * (k as real), length, n as real);
    assert length * ((k + 1) as real) == length * (k as real) + length;
    assert length * (1 as real) == length;
  }

  lemma QuotientSum(a: real, b: real, n: real)
    requires n > 0.0
    ensures (a + b) / n == a / n + b / n
  {
  }

  // ----- The distances -----

  function EvenDistances(length: real, intervals: int): (r: seq<real>)
    requires intervals > 0
    ensures |r| == intervals + 1
  {
    seq(intervals + 1, (k: nat) => Part(length, k, intervals))
  }

  function Steps(from: real, step: real, count: nat): (r: seq<real>)
    ensures |r| == count
  {
    seq(count, (k: nat) => from + Times(k, step))
  }

  function StepsBefore(end: real, step: real, last: nat): (r: seq<real>)
    ensures |r| == last + 1
  {
    seq(last + 1, (k: nat) => end - Times(last - k, step))
  }

  function Sums(spacings: seq<real>): (r: seq<real>)
    ensures |r| == |spacings| + 1
  {
    if spacings == [] then [0.0]
    else
      var before := Sums(spacings[..|spacings| - 1]);
      before + [before[|before| - 1] + spacings[|spacings| - 1]]
  }

  predicate AllPositive(spacings: seq<real>) {
    forall k :: 0 <= k < |spacings| ==> spacings[k] > 0.0
  }

  function FixedCount(length: real, target: real): int
    requires target > 0.0
  {
    (length / target).Floor
  }

  /** Whole target spacings kept; the rest of the length is shared out. */
  function Fixed(length: real, target: real): nat
    requires target > 0.0
  {
    if FixedCount(length, target) >= 1 then FixedCount(length, target) - 1 else 0
  }

  function Remainder(length: real, target: real): real
    requires target > 0.0
  {
    length - Times(Fixed(length, target), target)
  }

  function MixedDistances(length: real, kind: nat, target: real): seq<real>
    requires target > 0.0 && 4 <= kind <= 7
  {
    var fixed, remainder := Fixed(length, target), Remainder(length, target);
    if kind == 4 then [0.0] + Steps(remainder, target, fixed + 1)
    else if kind == 5 then Steps(0.0, target, fixed + 1) + [length]
    else if kind == 6 then [0.0] + Steps(remainder / 2.0, target, fixed + 1) + [length]
    else Steps(0.0, target, fixed / 2 + 1) + StepsBefore(length, target, fixed - fixed / 2)
  }

  function Spaced(given: real, kind: nat, spacings: seq<real>, maximum: nat): Result {
    var length := if given < 0.0 then 0.0 else given;
    if spacings == [] then Failed(InvalidGeometry)
    else if kind == 2 then
      if spacings[0] <= 0.0 then Distances([])
      else if spacings[0] > maximum as real then Failed(ResourceLimit)
      else if Rounded(spacings[0]) <= 0 then Distances([])
      else if Rounded(spacings[0]) == 1 then Distances([0.0])
      else Distances(EvenDistances(length, Rounded(spacings[0]) - 1))
    else if kind == 1 then
      if |spacings| >= maximum then Failed(ResourceLimit)
      else if !AllPositive(spacings) then Failed(InvalidGeometry)
      else Distances(Sums(spacings))
    else
      var target := spacings[0];
      if target <= 0.0 then Failed(InvalidGeometry)
      else if length <= NO_LENGTH then Distances([0.0])
      else if kind == 3 then
        if Ceiling(length / target) + 1 > maximum then Failed(ResourceLimit)
        else Distances(EvenDistances(length, AtLeastOne(Ceiling(length / target))))
      else if kind < 4 || kind > 7 then Failed(Unsupported)
      else if FixedCount(length, target) + 2 > maximum then Failed(ResourceLimit)
      else Distances(MixedDistances(length, kind, target))
  }

  function AtLeastOne(n: int): nat {
    if n < 1 then 1 else n
  }

  // ----- The code -----

  method SpacingDistances(given: real, kind: nat, spacings: seq<real>, maximum: nat) returns (result: Result)
    ensures result == Spaced(given, kind, spacings, maximum)
  {
    hide Times, Part, Rounded, Ceiling, FixedCount;
    var length := if 0.0 < given then given else 0.0;
    if spacings == [] { return Failed(InvalidGeometry); }
    if kind == 2 {
      if spacings[0] <= 0.0 { return Distances([]); }
      if spacings[0] > maximum as real { return Failed(ResourceLimit); }
      var count := Rounded(spacings[0]);
      if count <= 0 { return Distances([]); }
      if count == 1 { return Distances([0.0]); }
      var even := PushEven(length, count - 1);
      return Distances(even);
    }
    if kind == 1 {
      if |spacings| >= maximum { return Failed(ResourceLimit); }
      var values := [0.0];
      for k := 0 to |spacings|
        invariant values == Sums(spacings[..k]) && AllPositive(spacings[..k])
      {
        if spacings[k] <= 0.0 { return Failed(InvalidGeometry); }
        assert spacings[..k + 1][..k] == spacings[..k];
        values := values + [values[|values| - 1] + spacings[k]];
      }
      assert spacings[..|spacings|] == spacings;
      return Distances(values);
    }
    var target := spacings[0];
    if target <= 0.0 { return Failed(InvalidGeometry); }
    if length <= NO_LENGTH { return Distances([0.0]); }
    if kind == 3 {
      var intervals := Ceiling(length / target);
      if intervals + 1 > maximum { return Failed(ResourceLimit); }
      var even := PushEven(length, AtLeastOne(intervals));
      return Distances(even);
    }
    if kind < 4 || kind > 7 { return Failed(Unsupported); }
    if FixedCount(length, target) + 2 > maximum { return Failed(ResourceLimit); }
    var mixed := PushMixed(length, kind, target);
    return Distances(mixed);
  }

  method PushEven(length: real, intervals: int) returns (values: seq<real>)
    requires intervals > 0
    ensures values == EvenDistances(length, intervals)
  {
    hide Part;
    values := [];
    for k := 0 to intervals + 1
      invariant |values| == k && forall j :: 0 <= j < k ==> values[j] == Part(length, j, intervals)
    {
      values := values + [Part(length, k, intervals)];
    }
  }

  method PushSteps(before: seq<real>, from: real, step: real, last: nat) returns (values: seq<real>)
    ensures values == before + Steps(from, step, last + 1)
  {
    hide Times;
    values := before;
    for k := 0 to last + 1
      invariant |values| == |before| + k && values[..|before|] == before
      invariant forall j :: 0 <= j < k ==> values[|before| + j] == from + Times(j, step)
    {
      values := values + [from + Times(k, step)];
    }
  }

  method PushMixed(length: real, kind: nat, target: real) returns (values: seq<real>)
    requires target > 0.0 && 4 <= kind <= 7
    ensures values == MixedDistances(length, kind, target)
  {
    hide Times, FixedCount, Steps, Fixed, Remainder, StepsBefore;
    var fixed, remainder := Fixed(length, target), Remainder(length, target);
    if kind == 4 {
      values := PushSteps([0.0], remainder, target, fixed);
    } else if kind == 5 {
      values := PushSteps([], 0.0, target, fixed);
      values := values + [length];
    } else if kind == 6 {
      values := PushSteps([0.0], remainder / 2.0, target, fixed);
      values := values + [length];
    } else {
      var left := fixed / 2;
      values := PushSteps([], 0.0, target, left);
      values := PushStepsBefore(values, length, target, fixed - left);
    }
  }

  method PushStepsBefore(before: seq<real>, end: real, step: real, last: nat) returns (values: seq<real>)
    ensures values == before + StepsBefore(end, step, last)
  {
    hide Times;
    values := before;
    var index: int := last;
    while index >= 0
      invariant -1 <= index <= last && |values| == |before| + last - index && values[..|before|] == before
      invariant forall i :: |before| <= i < |values| ==> values[i] == end - Times(last - (i - |before|), step)
    {
      values := values + [end - Times(index, step)];
      index := index - 1;
    }
    assert values == before + StepsBefore(end, step, last);
  }

  // ----- What the distances promise -----

  ghost predicate Increasing(values: seq<real>) {
    forall k :: 0 <= k < |values| - 1 ==> values[k] < values[k + 1]
  }

  /** From 0 to the length, strictly upwards. */
  ghost predicate Covers(values: seq<real>, length: real) {
    |values| >= 2 && values[0] == 0.0 && values[|values| - 1] == length && Increasing(values)
  }

  function Gap(values: seq<real>, k: nat): real
    requires k + 1 < |values|
  {
    values[k + 1] - values[k]
  }

  /** Every gap is the target, except the odd ones. */
  ghost predicate GapsAre(values: seq<real>, target: real, odd: set<nat>, size: real) {
    forall k: nat :: k + 1 < |values| ==> Gap(values, k) == if k in odd then size else target
  }

  lemma GapsAscend(values: seq<real>, target: real, odd: set<nat>, size: real)
    requires GapsAre(values, target, odd, size) && target > 0.0 && size > 0.0
    ensures Increasing(values)
  {
    forall k | 0 <= k < |values| - 1 ensures values[k] < values[k + 1] {
      assert Gap(values, k) > 0.0;
    }
  }

  lemma StepGaps(from: real, step: real, count: nat, k: nat)
    requires k + 1 < count
    ensures Gap(Steps(from, step, count), k) == step
  {
    TimesNext(k, step);
  }

  /** The remainder is positive, and lies between one and two targets when a target fits at all. */
  lemma RemainderBounds(length: real, target: real)
    requires length > 0.0 && target > 0.0
    ensures 0.0 < Remainder(length, target) < target + target
    ensures length >= target ==> target <= Remainder(length, target)
    ensures length < target ==>
              Fixed(length, target) == 0 && FixedCount(length, target) == 0 && Remainder(length, target) == length
    ensures FixedCount(length, target) >= 0
  {
    var quotient := length / target;
    var count := quotient.Floor;
    QuotientTimes(length, target, quotient);
    QuotientIsPositive(length, target);
    FloorProduct(quotient, count, target, length);
    TimesNext(count - 1, target);
    TimesNext(count, target);
    TimesNext(0, target);
    QuotientBelowOne(length, target);
  }

  lemma QuotientTimes(a: real, b: real, q: real)
    requires b > 0.0 && q == a / b
    ensures q * b == a
  {
  }

  lemma QuotientIsPositive(a: real, b: real)
    requires a > 0.0 && b > 0.0
    ensures a / b > 0.0
  {
  }

  lemma CompareToOne(q: real, b: real, p: real)
    requires b > 0.0 && p == q * b
    ensures q < 1.0 <==> p < b
  {
    if q < 1.0 { StrictProductOrder(q, 1.0, b); } else if q > 1.0 { StrictProductOrder(1.0, q, b); }
  }

  lemma QuotientBelowOne(a: real, b: real)
    requires b > 0.0
    ensures a / b < 1.0 <==> a < b
  {
    var q := a / b;
    QuotientTimes(a, b, q);
    CompareToOne(q, b, a);
  }

  lemma FloorProduct(q: real, n: int, b: real, p: real)
    requires b > 0.0 && n == q.Floor && p == q * b
    ensures Times(n, b) <= p < Times(n + 1, b)
  {
    assert (n as real) <= q < (n + 1) as real;
    TimesBelow(n, q, b, p);
    TimesAbove(q, n + 1, b, p);
  }

  lemma TimesBelow(n: int, q: real, b: real, p: real)
    requires b > 0.0 && (n as real) <= q && p == q * b
    ensures Times(n, b) <= p
  {
    ProductOrder(n as real, q, b);
  }

  lemma TimesAbove(q: real, n: int, b: real, p: real)
    requires b > 0.0 && q < n as real && p == q * b
    ensures p < Times(n, b)
  {
    StrictProductOrder(q, n as real, b);
  }

  lemma ProductOrder(a: real, c: real, b: real)
    requires a <= c && b > 0.0
    ensures a * b <= c * b
  {
  }

  lemma StrictProductOrder(a: real, c: real, b: real)
    requires a < c && b > 0.0
    ensures a * b < c * b
  {
  }

  // ----- Mixed spacings (4 to 7) -----

  lemma Ends(from: real, step: real, last: nat)
    ensures Steps(from, step, last + 1)[0] == from && Steps(from, step, last + 1)[last] == from + Times(last, step)
  {
    TimesNext(0, step);
  }

  /** Spacing type 4 puts the remainder first. */
  lemma RemainderFirst(length: real, target: real)
    requires length > 0.0 && target > 0.0
    ensures var values := MixedDistances(length, 4, target);
      Covers(values, length) && GapsAre(values, target, {0}, Remainder(length, target))
          && |values| == Fixed(length, target) + 2
  {
    hide Fixed, FixedCount, Times, Remainder;
    var fixed, remainder := Fixed(length, target), Remainder(length, target);
    var values, steps := MixedDistances(length, 4, target), Steps(remainder, target, fixed + 1);
    RemainderBounds(length, target);
    RemainderMeans(length, target);
    Ends(remainder, target, fixed);
    forall k: nat | k + 1 < |values| ensures Gap(values, k) == if k in {0} then remainder else target {
      if k > 0 { StepGaps(remainder, target, fixed + 1, k - 1); }
    }
    GapsAscend(values, target, {0}, remainder);
  }

  lemma RemainderMeans(length: real, target: real)
    requires target > 0.0
    ensures Remainder(length, target) + Times(Fixed(length, target), target) == length
  {
  }

  /** Spacing type 5 puts it last. */
  lemma RemainderLast(length: real, target: real)
    requires length > 0.0 && target > 0.0
    ensures var values := MixedDistances(length, 5, target);
      && Covers(values, length) && GapsAre(values, target, {Fixed(length, target)}, Remainder(length, target))
      && |values| == Fixed(length, target) + 2
  {
    hide Fixed, FixedCount, Times, Remainder;
    var fixed, remainder := Fixed(length, target), Remainder(length, target);
    var values, steps := MixedDistances(length, 5, target), Steps(0.0, target, fixed + 1);
    RemainderBounds(length, target);
    RemainderMeans(length, target);
    Ends(0.0, target, fixed);
    forall k: nat | k + 1 < |values| ensures Gap(values, k) == if k in {fixed} then remainder else target {
      if k < fixed { StepGaps(0.0, target, fixed + 1, k); }
    }
    GapsAscend(values, target, {fixed}, remainder);
  }

  /** Spacing type 6 splits it into two equal halves, one at each end. */
  lemma RemainderHalved(length: real, target: real)
    requires length > 0.0 && target > 0.0
    ensures var values := MixedDistances(length, 6, target);
      && Covers(values, length)
          && GapsAre(values, target, {0, Fixed(length, target) + 1}, Remainder(length, target) / 2.0)
      && |values| == Fixed(length, target) + 3
  {
    hide Fixed, FixedCount, Times, Remainder;
    var fixed, remainder := Fixed(length, target), Remainder(length, target);
    var half := remainder / 2.0;
    var values, steps := MixedDistances(length, 6, target), Steps(half, target, fixed + 1);
    RemainderBounds(length, target);
    RemainderMeans(length, target);
    Ends(half, target, fixed);
    forall k: nat | k + 1 < |values| ensures Gap(values, k) == if k in {0, fixed + 1} then half else target {
      if 0 < k <= fixed { StepGaps(half, target, fixed + 1, k - 1); }
    }
    GapsAscend(values, target, {0, fixed + 1}, half);
  }

  lemma BackwardGaps(end: real, step: real, last: nat, k: nat)
    requires k < last
    ensures Gap(StepsBefore(end, step, last), k) == step
  {
    TimesNext(last - k - 1, step);
  }

  lemma TimesSplit(a: nat, b: nat, step: real)
    ensures Times(a + b, step) == Times(a, step) + Times(b, step)
  {
  }

  /** Spacing type 7 puts it in the middle. */
  lemma RemainderMiddle(length: real, target: real)
    requires length > 0.0 && target > 0.0
    ensures var values := MixedDistances(length, 7, target);
      && Covers(values, length) && GapsAre(values, target, {Fixed(length, target) / 2}, Remainder(length, target))
      && |values| == Fixed(length, target) + 2
  {
    hide Fixed, FixedCount, Times, Remainder;
    var fixed, remainder := Fixed(length, target), Remainder(length, target);
    var left, right := fixed / 2, fixed - fixed / 2;
    var values, front, back :=
        MixedDistances(length, 7, target), Steps(0.0, target, left + 1), StepsBefore(length, target, right);
    RemainderBounds(length, target);
    RemainderMeans(length, target);
    Ends(0.0, target, left);
    TimesNext(0, target);
    TimesSplit(left, right, target);
    forall k: nat | k + 1 < |values| ensures Gap(values, k) == if k in {left} then remainder else target {
      if k < left {
        StepGaps(0.0, target, left + 1, k);
      } else if k > left {
        BackwardGaps(length, target, right, k - left - 1);
      }
    }
    GapsAscend(values, target, {left}, remainder);
  }

  // ----- Equal spacings (3) -----

  /** Spacing type 3 divides the length into equal gaps of at most the target. */
  lemma EqualGaps(length: real, target: real)
    requires length > 0.0 && target > 0.0
    ensures Ceiling(length / target) >= 1
    ensures var n := Ceiling(length / target);
      var values := EvenDistances(length, n);
      && Covers(values, length) && GapsAre(values, Part(length, 1, n), {}, 0.0) && 0.0 < Part(length, 1, n) <= target
  {
    var quotient := length / target;
    var n := Ceiling(quotient);
    QuotientIsPositive(length, target);
    assert (n as real) >= quotient;
    EqualGapsOf(length, n);
    PartBound(length, target, quotient, n);
  }

  lemma PartBound(length: real, target: real, quotient: real, n: int)
    requires length > 0.0 && target > 0.0 && quotient == length / target && 0.0 < quotient <= n as real
    ensures 0.0 < Part(length, 1, n) <= target
  {
    QuotientTimes(length, target, quotient);
    ProductOrder(quotient, n as real, target);
    QuotientOrder(length, target * (n as real), n as real);
    assert target * (n as real) / (n as real) == target by { ProductQuotient(target, n as real); }
    QuotientIsPositive(length, n as real);
    assert length * (1 as real) == length;
  }

  lemma ProductQuotient(a: real, b: real)
    requires b > 0.0
    ensures a * b / b == a
  {
  }

  lemma QuotientOrder(a: real, c: real, b: real)
    requires a <= c && b > 0.0
    ensures a / b <= c / b
  {
  }

  lemma EqualGapsOf(length: real, n: int)
    requires length > 0.0 && n >= 1
    ensures var values := EvenDistances(length, n);
            Covers(values, length) && GapsAre(values, Part(length, 1, n), {}, 0.0)
  {
    hide Part;
    var values := EvenDistances(length, n);
    PartNext(length, 0, n);
    PartPositive(length, n);
    forall k: nat | k + 1 < |values| ensures Gap(values, k) == Part(length, 1, n) { PartNext(length, k, n); }
    GapsAscend(values, Part(length, 1, n), {}, 1.0);
  }

  lemma PartPositive(length: real, n: int)
    requires length > 0.0 && n >= 1
    ensures Part(length, 1, n) > 0.0
  {
    assert length * (1 as real) == length;
    QuotientIsPositive(length, n as real);
  }

  // ----- A given number of bars (2) -----

  /** Spacing type 2 gives the nearest whole number of bars, halves upwards, in equal gaps over the length. */
  lemma CountedBars(length: real, spacings: seq<real>, maximum: nat)
    requires length > 0.0 && Spaced(length, 2, spacings, maximum).Distances?
    ensures spacings != []
    ensures var values := Spaced(length, 2, spacings, maximum).values;
      && (if spacings[0] <= 0.0 then values == []
          else (|values| as real) - 0.5 <= spacings[0] < (|values| as real) + 0.5)
      && (|values| == 1 ==> values == [0.0])
      && (|values| >= 2 ==> Covers(values, length) && EqualApart(values))
  {
    hide Part, Covers, EvenDistances;
    if spacings[0] > 0.0 && Rounded(spacings[0]) >= 2 {
      var n := Rounded(spacings[0]) - 1;
      EqualGapsOf(length, n);
      var values := EvenDistances(length, n);
      forall i: nat, j: nat | i + 1 < |values| && j + 1 < |values| ensures Gap(values, i) == Gap(values, j) {
        assert Gap(values, i) == Part(length, 1, n) && Gap(values, j) == Part(length, 1, n);
      }
    }
  }

  ghost predicate EqualApart(values: seq<real>) {
    forall i: nat, j: nat :: i + 1 < |values| && j + 1 < |values| ==> Gap(values, i) == Gap(values, j)
  }

  // ----- All of them -----

  /** Every success of types 3 to 7 runs strictly upwards from 0 to the length. */
  lemma SuccessCovers(length: real, kind: nat, spacings: seq<real>, maximum: nat)
    requires 3 <= kind <= 7 && length > NO_LENGTH && Spaced(length, kind, spacings, maximum).Distances?
    ensures Covers(Spaced(length, kind, spacings, maximum).values, length)
  {
    hide Ceiling, FixedCount, Fixed, Covers, EvenDistances, MixedDistances;
    var target := spacings[0];
    match kind
    case 3 => EqualGaps(length, target);
    case 4 => RemainderFirst(length, target);
    case 5 => RemainderLast(length, target);
    case 6 => RemainderHalved(length, target);
    case 7 => RemainderMiddle(length, target);
  }

  /** The two cases in which more bars come back than the limit allows. */
  predicate Oversteps(given: real, kind: nat, spacings: seq<real>, maximum: nat)
    requires spacings != []
  {
    || (kind != 1 && kind != 2 && given <= NO_LENGTH && maximum == 0)
    || (kind == 6 && NO_LENGTH < given < spacings[0] && maximum == 2)
  }

  /** Every success keeps to the limit, except one bar under a limit of none and three under a limit of two. */
  lemma SuccessFits(given: real, kind: nat, spacings: seq<real>, maximum: nat)
    requires Spaced(given, kind, spacings, maximum).Distances?
    ensures |Spaced(given, kind, spacings, maximum).values| <= maximum <==> !Oversteps(given, kind, spacings, maximum)
  {
    hide Ceiling, FixedCount, Covers, EvenDistances, MixedDistances, Rounded;
    var target := spacings[0];
    if kind == 2 {
      RoundedFits(target, maximum);
    } else if kind >= 3 && given > NO_LENGTH {
      RemainderBounds(given, target);
      match kind
      case 3 => EqualGaps(given, target);
      case 4 => RemainderFirst(given, target);
      case 5 => RemainderLast(given, target);
      case 6 => RemainderHalved(given, target); CountBelowTarget(given, target);
      case 7 => RemainderMiddle(given, target);
    }
  }

  /**
   Under the limits the program passes, which are at least one, type 6 below its target under
   a limit of two is the only overstep, and never by more than one bar.
   */
  lemma PositiveLimitFits(given: real, kind: nat, spacings: seq<real>, maximum: nat)
    requires maximum >= 1 && Spaced(given, kind, spacings, maximum).Distances?
    ensures var bars := |Spaced(given, kind, spacings, maximum).values|;
            && (bars <= maximum <==> !(kind == 6 && NO_LENGTH < given < spacings[0] && maximum == 2))
            && bars <= maximum + 1
  {
    hide Ceiling, FixedCount, Covers, EvenDistances, MixedDistances, Rounded;
    SuccessFits(given, kind, spacings, maximum);
    if kind == 6 && NO_LENGTH < given < spacings[0] {
      RemainderHalved(given, spacings[0]);
      CountBelowTarget(given, spacings[0]);
    }
  }

  lemma RoundedFits(x: real, maximum: nat)
    ensures x <= maximum as real ==> Rounded(x) <= maximum
  {
  }

  lemma CountBelowTarget(length: real, target: real)
    requires length > 0.0 && target > 0.0
    ensures length < target <==> FixedCount(length, target) == 0
  {
    RemainderBounds(length, target);
    QuotientBelowOne(length, target);
  }

  /** Half a spacing of type 6 under a limit of two gives three bars. */
  lemma ThreeBarsUnderTwo()
    ensures Spaced(1.0, 6, [2.0], 2) == Distances([0.0, 0.5, 1.0])
  {
    hide Times, Fixed, Remainder, FixedCount;
    RemainderBounds(1.0, 2.0);
    TimesNext(0, 2.0);
    assert Steps(0.5, 2.0, 1) == [0.5];
  }

  /** Called with a limit of none, which the program never passes, the function gives one bar for no length at all. */
  lemma OneBarUnderNone()
    ensures Spaced(0.0, 3, [2.0], 0) == Distances([0.0])
  {
  }
}
