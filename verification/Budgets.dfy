/** The budgets of geometry decoding: bytes retained and linked rows visited. */
module Budgets {
  import opened Wrappers

  /** The largest value of the machine's size type. */
  const SIZE_MAX: nat := 0xFFFF_FFFF_FFFF_FFFF

  const VECTOR_BYTES: nat := 24

  // ----- Arithmetic that refuses to wrap -----

  function CheckedProduct(a: nat, b: nat): (r: Option<nat>)
    ensures r.Some? <==> a * b <= SIZE_MAX || a == 0
    ensures r.Some? ==> r.value == a * b
  {
    if a != 0 && b > SIZE_MAX / a then
      ProductTooLarge(a, b);
      None
    else
      ProductFits(a, b);
      Some(a * b)
  }

  lemma ProductTooLarge(a: nat, b: nat)
    requires a != 0 && b > SIZE_MAX / a
    ensures a * b > SIZE_MAX
  {
    var quotient := SIZE_MAX / a;
    assert SIZE_MAX < (quotient + 1) * a;
    Monotone(quotient + 1, b, a);
  }

  lemma ProductFits(a: nat, b: nat)
    requires a == 0 || b <= SIZE_MAX / a
    ensures a * b <= SIZE_MAX
  {
    if a != 0 { Monotone(b, SIZE_MAX / a, a); }
  }

  lemma Monotone(b: nat, c: nat, a: nat)
    requires b <= c
    ensures b * a <= c * a
  {
    assert c * a == b * a + (c - b) * a;
  }

  function CheckedSum(a: nat, b: nat): (r: Option<nat>)
    requires a <= SIZE_MAX
    ensures r == if a + b <= SIZE_MAX then Some(a + b) else None
  {
    if b > SIZE_MAX - a then None else Some(a + b)
  }

  // ----- Retained bytes -----

  /** Curves of one size: how many, and the points of each. */
  datatype CurveSet = CurveSet(curves: nat, points: nat)

  class RetainedBudget {
    const limit: nat
    /** The fixed size of a retained curve. */
    const curveRecord: nat
    var used: nat

    predicate Valid()
      reads this
    {
      used <= limit <= SIZE_MAX && curveRecord <= SIZE_MAX
    }

    /** The requested bytes, or 64 times the payload when none are requested. */
    constructor (payloadBytes: nat, requestedBytes: nat, curveRecord: nat)
      requires payloadBytes <= SIZE_MAX && requestedBytes <= SIZE_MAX && curveRecord <= SIZE_MAX
      ensures Valid() && used == 0 && limit >= 1
      ensures requestedBytes != 0 ==> limit == requestedBytes
      ensures requestedBytes == 0 ==>
                limit == if payloadBytes == 0 then 1 else if payloadBytes * 64 <= SIZE_MAX then payloadBytes * 64
                    else SIZE_MAX
    {
      this.curveRecord := curveRecord;
      used := 0;
      if requestedBytes != 0 {
        limit := requestedBytes;
      } else if payloadBytes > SIZE_MAX / 64 {
        limit := SIZE_MAX;
      } else {
        limit := if payloadBytes * 64 > 1 then payloadBytes * 64 else 1;
      }
    }

    function Remaining(): nat
      requires Valid()
      reads this
    {
      limit - used
    }

    /** Bytes of one retained curve; none when they do not fit the size type. */
    function CurveBytes(points: nat): (bytes: Option<nat>)
      requires curveRecord <= SIZE_MAX
      ensures bytes == if curveRecord + points * VECTOR_BYTES <= SIZE_MAX then
          Some(curveRecord + points * VECTOR_BYTES) else None
    {
      var data := CheckedProduct(points, VECTOR_BYTES);
      if data.None? then None else CheckedSum(curveRecord, data.value)
    }

    method Consume(bytes: nat) returns (ok: bool)
      requires Valid()
      modifies this`used
      ensures Valid() && (ok <==> old(used) + bytes <= limit)
      ensures used == if ok then old(used) + bytes else old(used)
    {
      if bytes > Remaining() { return false; }
      used := used + bytes;
      return true;
    }

    method ConsumeCurve(points: nat) returns (ok: bool)
      requires Valid()
      modifies this`used
      ensures Valid() && (ok <==> old(used) + curveRecord + points * VECTOR_BYTES <= limit)
      ensures used == if ok then old(used) + curveRecord + points * VECTOR_BYTES else old(used)
    {
      var bytes := CurveBytes(points);
      if bytes.None? { return false; }
      ok := Consume(bytes.value);
    }

    method Exhaust()
      requires Valid()
      modifies this`used
      ensures Valid() && used == limit
    {
      used := limit;
    }

    function MaximumCurveCount(points: nat): nat
      requires Valid()
      reads this
    {
      var bytes := CurveBytes(points);
      if bytes.Some? && bytes.value != 0 then Quotient(Remaining(), bytes.value) else 0
    }

    /** That many curves of one size still fit, and not one more. */
    lemma MaximumFits(points: nat, each: nat)
      requires Valid() && curveRecord > 0 && each == curveRecord + points * VECTOR_BYTES
      ensures used + MaximumCurveCount(points) * each <= limit < used + MaximumCurveCount(points) * each + each
    {
      if each <= SIZE_MAX { DivisionBounds(Remaining(), each); }
    }

    /** What a list of curve sets retains, in exact arithmetic. */
    function SetsBytes(sets: seq<CurveSet>): nat {
      if sets == [] then 0
      else
        SetsBytes(sets[..|sets| - 1])
        + sets[|sets| - 1].curves * (curveRecord + sets[|sets| - 1].points * VECTOR_BYTES)
    }

    /** Every size fits the size type. */
    predicate SizesFit(sets: seq<CurveSet>) {
      forall k :: 0 <= k < |sets| ==> curveRecord + sets[k].points * VECTOR_BYTES <= SIZE_MAX
    }

    /** Checked arithmetic agrees with exact arithmetic: the sets are accepted just when they fit. */
    method CanConsumeCurveSets(sets: seq<CurveSet>) returns (ok: bool)
      requires Valid()
      ensures ok <==> SizesFit(sets) && used + SetsBytes(sets) <= limit
    {
      var total := 0;
      for k := 0 to |sets|
        invariant total == SetsBytes(sets[..k]) <= SIZE_MAX && SizesFit(sets[..k])
      {
        assert sets[..k + 1][..k] == sets[..k];
        SetsGrow(sets, k + 1);
        var each := CurveBytes(sets[k].points);
        if each.None? { return false; }
        var bytes := CheckedProduct(sets[k].curves, each.value);
        if bytes.None? { return false; }
        var next := CheckedSum(total, bytes.value);
        if next.None? { return false; }
        total := next.value;
      }
      assert sets[..|sets|] == sets;
      return total <= Remaining();
    }

    lemma {:induction false} SetsGrow(sets: seq<CurveSet>, k: nat)
      requires k <= |sets|
      ensures SetsBytes(sets[..k]) <= SetsBytes(sets)
      decreases |sets| - k
    {
      if k == |sets| {
        assert sets[..k] == sets;
      } else {
        assert sets[..k + 1][..k] == sets[..k];
        SetsGrow(sets, k + 1);
      }
    }
  }

  function Quotient(a: nat, b: nat): nat
    requires b > 0
  {
    a / b
  }

  lemma DivisionBounds(a: nat, b: nat)
    requires b > 0
    ensures Quotient(a, b) * b <= a < Quotient(a, b) * b + b
  {
  }

  // ----- Visited rows -----

  class VisitBudget {
    const limit: nat
    var used: nat

    predicate Valid()
      reads this
    {
      used <= limit
    }

    /** One visit for every linked row, and one for every four bytes of the decode budget. */
    constructor (rows: nat, decodeBytes: nat)
      requires rows <= SIZE_MAX
      ensures Valid() && used == 0
      ensures limit == if rows + decodeBytes / 4 <= SIZE_MAX then rows + decodeBytes / 4 else SIZE_MAX
    {
      var visits := decodeBytes / 4;
      limit := if visits > SIZE_MAX - rows then SIZE_MAX else rows + visits;
      used := 0;
    }

    method Consume() returns (ok: bool)
      requires Valid()
      modifies this`used
      ensures Valid() && (ok <==> old(used) < limit)
      ensures used == if ok then old(used) + 1 else old(used)
    {
      if used == limit { return false; }
      used := used + 1;
      return true;
    }
  }
}
