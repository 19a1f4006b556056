/** The fixed attribute table (`ATTRIBUTES` in js/main.js) and the
    single-attribute random walk that `TreeModel.randomize` performs on it. */
module Attributes {
  import opened Utilities

  datatype Name = Length | Divergence | Reduction | LineWidth | Branchings

  /** The order in which `for (name in ATTRIBUTES)` visits the table. */
  const AllNames: seq<Name> := [Length, Divergence, Reduction, LineWidth, Branchings]

  datatype AttributeSpec = AttributeSpec(initialValue: real, varyBy: real,
                                         min: Option<real>, max: Option<real>,
                                         round: bool)

  /** One row of `ATTRIBUTES`; a missing `round` is `false`. */
  function Spec(n: Name): (s: AttributeSpec)
    ensures s.varyBy >= 0.0
    ensures s.min.Some? <==> s.max.Some?
    ensures s.min.Some? ==> s.min.value <= s.initialValue <= s.max.value
    ensures s.min.Some? ==> IsInteger(20.0 * s.min.value) && IsInteger(20.0 * s.max.value)
    ensures s.round ==> s.min.Some? && IsInteger(s.min.value) && IsInteger(s.max.value)
  {
    match n
    case Length => AttributeSpec(65.0, 10.0, Some(25.0), Some(100.0), false)
    case Divergence => AttributeSpec(35.0, 30.0, Some(5.0), Some(70.0), false)
    case Reduction => AttributeSpec(0.625, 0.3, Some(0.5), Some(0.75), false)
    case LineWidth => AttributeSpec(6.0, 0.0, None, None, false)
    case Branchings => AttributeSpec(0.0, 2.0, Some(0.0), Some(8.0), true)
  }

  /** The five numbers of a tree's attributes object. */
  datatype Values = Values(length: real, divergence: real, reduction: real,
                           lineWidth: real, branchings: real)
  {
    function Get(n: Name): real {
      match n
      case Length => length
      case Divergence => divergence
      case Reduction => reduction
      case LineWidth => lineWidth
      case Branchings => branchings
    }

    /** `attributes[n] = v` on a copy. */
    function With(n: Name, v: real): (r: Values)
      ensures r.Get(n) == v
      ensures forall m :: m != n ==> r.Get(m) == Get(m)
    {
      match n
      case Length => this.(length := v)
      case Divergence => this.(divergence := v)
      case Reduction => this.(reduction := v)
      case LineWidth => this.(lineWidth := v)
      case Branchings => this.(branchings := v)
    }
  }

  /** Values are equal when every attribute is. */
  lemma ValuesByName(x: Values, y: Values)
    requires forall j :: 0 <= j < |AllNames| ==> x.Get(AllNames[j]) == y.Get(AllNames[j])
    ensures x == y
  {
    assert x.Get(AllNames[0]) == y.Get(AllNames[0]) && x.Get(AllNames[1]) == y.Get(AllNames[1]);
    assert x.Get(AllNames[2]) == y.Get(AllNames[2]) && x.Get(AllNames[3]) == y.Get(AllNames[3]);
    assert x.Get(AllNames[4]) == y.Get(AllNames[4]);
  }

  /** A JavaScript attributes object of a tree: the five named values and,
      when a positional restore wrote past the end of `attributeNamesArray`,
      the value stored under the property name "undefined". */
  datatype AttributeObject = AttributeObject(values: Values, strayValue: Option<real>)

  const InitialValues: Values :=
    Values(Spec(Length).initialValue, Spec(Divergence).initialValue, Spec(Reduction).initialValue,
           Spec(LineWidth).initialValue, Spec(Branchings).initialValue)

  /** The range a mutation keeps an attribute in: within its bounds when it
      has them, and integral when the table rounds it. */
  predicate InRange(n: Name, v: real) {
    (Spec(n).min.Some? ==> Spec(n).min.value <= v <= Spec(n).max.value) &&
    (Spec(n).round ==> IsInteger(v))
  }

  /** Every attribute in range, and `lineWidth` at the value its zero `varyBy`
      pins it to. */
  predicate Settled(vs: Values) {
    InRange(Length, vs.length) && InRange(Divergence, vs.divergence) &&
    InRange(Reduction, vs.reduction) && InRange(Branchings, vs.branchings) &&
    vs.lineWidth == Spec(LineWidth).initialValue
  }

  lemma InitialValuesSettled()
    ensures Settled(InitialValues)
  {
    IntegerIsInteger(0);
  }

  /** The two `Math.random()` draws of one `randomize` call: the first picks
      the attribute, the second the amount added to it. */
  datatype Roll = Roll(pick: real, step: real) {
    predicate Valid() {
      IsUnitDraw(pick) && IsUnitDraw(step)
    }
  }

  /** `Math.floor(Math.random() * count)`: an index below `count`. */
  function PickIndex(count: nat, pick: real): (i: nat)
    requires count > 0 && IsUnitDraw(pick)
    ensures i < count
  {
    ScaleBelow(pick, count as real);
    (pick * count as real).Floor
  }

  /** The attribute name a `randomize` call selects. */
  function Picked(names: seq<Name>, pick: real): Name
    requires |names| > 0 && IsUnitDraw(pick)
  {
    names[PickIndex(|names|, pick)]
  }

  /** `Utilities.random(-1 * varyBy, varyBy)`: the amount added. */
  function Step(n: Name, u: real): (d: real)
    requires IsUnitDraw(u)
    ensures -Spec(n).varyBy <= d <= Spec(n).varyBy
    ensures Spec(n).varyBy > 0.0 ==> d < Spec(n).varyBy
    ensures Spec(n).varyBy == 0.0 ==> d == 0.0
  {
    Random(-1.0 * Spec(n).varyBy, Spec(n).varyBy, u)
  }

  /** The new value of the selected attribute: add the step, clamp to the
      bounds, then round to an integer (`round: true`) or to twentieths.
      Whatever the old value was, the new one is in range. */
  function Mutate(n: Name, v: real, u: real): (r: real)
    requires IsUnitDraw(u)
    ensures InRange(n, r)
  {
    var s := Spec(n);
    var clamped := MinMax(v + Step(n, u), s.min, s.max);
    if s.round then
      IntegerIsInteger(Round(clamped));
      if s.min.Some? then
        RoundMonotone(s.min.value, clamped);
        RoundMonotone(clamped, s.max.value);
        RoundOfInteger(s.min.value.Floor);
        RoundOfInteger(s.max.value.Floor);
        Round(clamped) as real
      else Round(clamped) as real
    else
      if s.min.Some? then
        RoundToWithin(clamped, s.min.value, s.max.value);
        RoundTo(clamped, 2)
      else RoundTo(clamped, 2)
  }

  /** What `randomize` does to the values: only the picked attribute changes. */
  function Randomized(vs: Values, names: seq<Name>, roll: Roll): (r: Values)
    requires |names| > 0 && roll.Valid()
    ensures InRange(Picked(names, roll.pick), r.Get(Picked(names, roll.pick)))
    ensures forall m :: m != Picked(names, roll.pick) ==> r.Get(m) == vs.Get(m)
  {
    var n := Picked(names, roll.pick);
    vs.With(n, Mutate(n, vs.Get(n), roll.step))
  }

  /** A mutation from an in-range value moves it by at most `varyBy` plus
      the rounding: half a unit for a rounded attribute, 1/40 otherwise. */
  lemma {:induction false} MutateIsSmallStep(n: Name, v: real, u: real)
    requires IsUnitDraw(u) && InRange(n, v)
    ensures var slack := if Spec(n).round then 0.5 else 0.025;
            v - Spec(n).varyBy - slack <= Mutate(n, v, u) <= v + Spec(n).varyBy + slack
  {
    var s := Spec(n);
    var moved := v + Step(n, u);
    var clamped := MinMax(moved, s.min, s.max);
    assert v - s.varyBy <= clamped <= v + s.varyBy;
    if !s.round {
      RoundToTwentieths(clamped);
    }
  }

  /** `lineWidth` has `varyBy` 0 and no bounds: when it is picked, 6 stays 6. */
  lemma LineWidthIsFixed(u: real)
    requires IsUnitDraw(u)
    ensures Mutate(LineWidth, 6.0, u) == 6.0
  {
    assert Step(LineWidth, u) == 0.0;
    RoundOfInteger(120);
    assert 6.0 * 20.0 == 120.0;
  }

  /** A random walk step keeps settled values settled. */
  lemma {:induction false} RandomizedStaysSettled(vs: Values, names: seq<Name>, roll: Roll)
    requires |names| > 0 && roll.Valid() && Settled(vs)
    ensures Settled(Randomized(vs, names, roll))
  {
    var n := Picked(names, roll.pick);
    var r := Randomized(vs, names, roll);
    if n == LineWidth {
      LineWidthIsFixed(roll.step);
    }
    assert r.lineWidth == r.Get(LineWidth);
    assert r.length == r.Get(Length) && r.divergence == r.Get(Divergence);
    assert r.reduction == r.Get(Reduction) && r.branchings == r.Get(Branchings);
  }

  /** `parent.attributes[name] || initialValue` for one attribute: a missing
      baseline (the stand-in parent `{attributes: {}}`) or a baseline value of
      0, which is falsy, falls back to the table's initial value. */
  function Fallback(baseline: Option<Values>, n: Name): real {
    if baseline.Some? && baseline.value.Get(n) != 0.0 then baseline.value.Get(n)
    else Spec(n).initialValue
  }

  /** The values `initialize` writes before it calls `randomize`. */
  function Seeded(baseline: Option<Values>): (r: Values)
    ensures baseline.None? ==> r == InitialValues
    ensures baseline.Some? && Settled(baseline.value) ==> r == baseline.value
  {
    Values(Fallback(baseline, Length), Fallback(baseline, Divergence), Fallback(baseline, Reduction),
           Fallback(baseline, LineWidth), Fallback(baseline, Branchings))
  }

  /** The values `initialize` leaves: seeded from the baseline, then one
      `randomize` over the (already extended) name list. */
  function Initialized(baseline: Option<Values>, names: seq<Name>, roll: Roll): Values
    requires |names| > 0 && roll.Valid()
  {
    Randomized(Seeded(baseline), names, roll)
  }

  /** A child initialized from a settled parent is settled and differs from it
      in the picked attribute only. */
  lemma {:induction false} ChildOfSettledParent(p: Values, names: seq<Name>, roll: Roll)
    requires |names| > 0 && roll.Valid() && Settled(p)
    ensures Settled(Initialized(Some(p), names, roll))
    ensures forall m :: m != Picked(names, roll.pick) ==> Initialized(Some(p), names, roll).Get(m) == p.Get(m)
  {
    RandomizedStaysSettled(p, names, roll);
  }

  /** A fresh tree (no parent) starts from the table's initial values plus one
      step, so it is settled. */
  lemma {:induction false} OrphanIsSettled(names: seq<Name>, roll: Roll)
    requires |names| > 0 && roll.Valid()
    ensures Settled(Initialized(None, names, roll))
  {
    InitialValuesSettled();
    RandomizedStaysSettled(InitialValues, names, roll);
  }

  /** The `||` fallback is visible only for a baseline outside the table's
      range: a restored length of 0 is replaced by 65. */
  lemma ZeroLengthFallsBack(p: Values)
    requires p.length == 0.0
    ensures Seeded(Some(p)).length == 65.0
  {
  }

  // ---------------------------------------------------------------------
  // The name list `attributeNamesArray`: every `initialize` appends the five
  // names again, so the list is the table order repeated.

  predicate Cyclic(names: seq<Name>) {
    |names| % 5 == 0 && forall i :: 0 <= i < |names| ==> names[i] == AllNames[i % 5]
  }

  lemma {:induction false} CyclicExtend(names: seq<Name>)
    requires Cyclic(names)
    ensures Cyclic(names + AllNames)
  {
    var ext := names + AllNames;
    forall i | 0 <= i < |ext|
      ensures ext[i] == AllNames[i % 5]
    {
      if i >= |names| {
        assert (i - |names|) % 5 == i % 5 by {
          assert i == (i - |names|) + (|names| / 5) * 5;
        }
      }
    }
  }

  /** The number of times `n` occurs in `names`. */
  function Occurrences(names: seq<Name>, n: Name): nat {
    if names == [] then 0
    else Occurrences(names[..|names| - 1], n) + (if names[|names| - 1] == n then 1 else 0)
  }

  lemma {:induction false} OccurrencesAppend(a: seq<Name>, b: seq<Name>, n: Name)
    ensures Occurrences(a + b, n) == Occurrences(a, n) + Occurrences(b, n)
    decreases |b|
  {
    if b == [] {
      assert a + b == a;
    } else {
      var b' := b[..|b| - 1];
      assert (a + b)[..|a + b| - 1] == a + b';
      OccurrencesAppend(a, b', n);
    }
  }

  lemma OccursOnce(n: Name)
    ensures Occurrences(AllNames, n) == 1
  {
    var s4, s3, s2, s1 := AllNames[..4], AllNames[..3], AllNames[..2], AllNames[..1];
    assert s4[..3] == s3 && s3[..2] == s2 && s2[..1] == s1 && s1[..0] == [];
    assert Occurrences(s1, n) == (if n == Length then 1 else 0);
    assert Occurrences(s2, n) == Occurrences(s1, n) + (if n == Divergence then 1 else 0);
    assert Occurrences(s3, n) == Occurrences(s2, n) + (if n == Reduction then 1 else 0);
    assert Occurrences(s4, n) == Occurrences(s3, n) + (if n == LineWidth then 1 else 0);
    assert Occurrences(AllNames, n) == Occurrences(s4, n) + (if n == Branchings then 1 else 0);
  }

  /** However often `initialize` has run, every name fills exactly a fifth of
      `attributeNamesArray`: the pick is uniform over the five attributes. */
  lemma {:induction false} CyclicIsUniform(names: seq<Name>, n: Name)
    requires Cyclic(names)
    ensures Occurrences(names, n) * 5 == |names|
    decreases |names|
  {
    if names != [] {
      var front := names[..|names| - 5];
      assert Cyclic(front);
      assert names[|names| - 5..] == AllNames by {
        forall k | 0 <= k < 5 ensures names[|names| - 5 + k] == AllNames[k] {
          assert (|names| - 5 + k) % 5 == k by {
            assert |names| - 5 + k == ((|names| - 5) / 5) * 5 + k;
          }
        }
      }
      assert names == front + AllNames;
      CyclicIsUniform(front, n);
      OccurrencesAppend(front, AllNames, n);
      OccursOnce(n);
    }
  }
}
