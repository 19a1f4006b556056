/** `TreeModel` of js/main.js: one tree's attributes object, its
    `attributeNamesArray` and the parent it mutates from. */
module Models {
  import opened Utilities
  import opened Attributes
  import opened HashProtocol

  /** The baseline a parent offers: `null` stands for the stand-in parent
      `{attributes: {}}`, which has no values at all. */
  function BaselineOf(p: TreeModel?): Option<Values>
    reads p
  {
    if p == null then None else Some(p.attributes.values)
  }

  /** The attributes object after the positional `setAttributes(tokens)`:
      token `i` is parsed into the property `attributeNamesArray[i]`, and into
      the property "undefined" once `i` runs past the end of the list. */
  function Assigned(a: AttributeObject, names: seq<Name>, tokens: seq<string>,
                    parse: string -> real): AttributeObject
    decreases |tokens|
  {
    if tokens == [] then a
    else
      var i := |tokens| - 1;
      var before := Assigned(a, names, tokens[..i], parse);
      if i < |names| then before.(values := before.values.With(names[i], parse(tokens[i])))
      else before.(strayValue := Some(parse(tokens[i])))
  }

  /** Restoring five tokens over a cyclic name list writes the five
      attributes in table order and nothing else. */
  lemma {:induction false} AssignFive(a: AttributeObject, names: seq<Name>, tokens: seq<string>,
                                      parse: string -> real)
    requires Cyclic(names) && |names| >= 5 && |tokens| == 5
    ensures Assigned(a, names, tokens, parse) ==
            AttributeObject(Values(parse(tokens[0]), parse(tokens[1]), parse(tokens[2]),
                                   parse(tokens[3]), parse(tokens[4])), a.strayValue)
  {
    var t4, t3, t2, t1 := tokens[..4], tokens[..3], tokens[..2], tokens[..1];
    assert t4[..3] == t3 && t3[..2] == t2 && t2[..1] == t1 && t1[..0] == [];
    var a1 := Assigned(a, names, t1, parse);
    var a2 := Assigned(a, names, t2, parse);
    var a3 := Assigned(a, names, t3, parse);
    var a4 := Assigned(a, names, t4, parse);
    var a5 := Assigned(a, names, tokens, parse);
    assert Assigned(a, names, t1[..0], parse) == a;
    assert a1 == a.(values := a.values.With(names[0], parse(tokens[0])));
    assert a2 == a1.(values := a1.values.With(names[1], parse(tokens[1])));
    assert a3 == a2.(values := a2.values.With(names[2], parse(tokens[2])));
    assert a4 == a3.(values := a3.values.With(names[3], parse(tokens[3])));
    assert a5 == a4.(values := a4.values.With(names[4], parse(tokens[4])));
    assert names[0] == Length && names[1] == Divergence && names[2] == Reduction;
    assert names[3] == LineWidth && names[4] == Branchings;
    ValuesByName(a5.values, Values(parse(tokens[0]), parse(tokens[1]), parse(tokens[2]),
                                   parse(tokens[3]), parse(tokens[4])));
  }

  /** Restoring a tree from its own hash string is exact: what `readHash`
      writes back is what `getAttributesHash` encoded. */
  lemma {:induction false} RestoreOwnHash(a: AttributeObject, current: AttributeObject, names: seq<Name>,
                                          format: NumberFormat)
    requires Cyclic(names) && |names| >= 5
    requires a.strayValue.None? && current.strayValue.None?
    requires forall i :: 0 <= i < |Fields(a)| ==> Exact(format, Fields(a)[i])
    ensures Assigned(current, names, Split(TreeHash(a, format), ATTRIBUTE_DELIMITER), format.parse) == a
  {
    TreeHashRoundTrip(a, format);
    var tokens := Tokens(a, format);
    AssignFive(current, names, tokens, format.parse);
    assert Fields(a)[0] == a.values.length && Fields(a)[4] == a.values.branchings;
    assert format.parse(tokens[0]) == a.values.length;
    assert format.parse(tokens[1]) == a.values.divergence;
    assert format.parse(tokens[2]) == a.values.reduction;
    assert format.parse(tokens[3]) == a.values.lineWidth;
    assert format.parse(tokens[4]) == a.values.branchings;
  }

  lemma SeededByName(v: Values, baseline: Option<Values>)
    requires forall j :: 0 <= j < |AllNames| ==> v.Get(AllNames[j]) == Fallback(baseline, AllNames[j])
    ensures v == Seeded(baseline)
  {
    var s := Seeded(baseline);
    assert s.Get(Length) == Fallback(baseline, Length) && s.Get(Divergence) == Fallback(baseline, Divergence);
    assert s.Get(Reduction) == Fallback(baseline, Reduction) && s.Get(LineWidth) == Fallback(baseline, LineWidth);
    assert s.Get(Branchings) == Fallback(baseline, Branchings);
    ValuesByName(v, s);
  }

  class TreeModel {
    /** `self.attributes`. */
    var attributes: AttributeObject
    /** `attributeNamesArray`, private to the instance. */
    var names: seq<Name>
    /** The tree `initialize` seeds from; `null` is `{attributes: {}}`. */
    var parent: TreeModel?

    ghost predicate Valid()
      reads this
    {
      Cyclic(names) && |names| >= 5
    }

    /** `new TreeModel(parent)`: an empty attributes object, then one
        `initialize()` with no argument. */
    constructor (parent: TreeModel?, roll: Roll)
      requires roll.Valid()
      ensures Valid()
      ensures this.parent == parent && names == AllNames
      ensures attributes == AttributeObject(Initialized(BaselineOf(parent), AllNames, roll), None)
    {
      this.parent := parent;
      attributes := AttributeObject(InitialValues, None);
      names := [];
      new;
      Initialize(null, roll);
    }

    /** `initialize(parentTree)`: adopt the new parent if one is given, push the
        five names, seed every attribute from the parent (falling back to the
        initial value when the parent's is missing or 0), then `randomize`. */
    method Initialize(parentTree: TreeModel?, roll: Roll)
      requires Cyclic(names) && roll.Valid()
      modifies this
      ensures Valid()
      ensures parent == (if parentTree != null then parentTree else old(parent))
      ensures names == old(names) + AllNames
      ensures attributes ==
              AttributeObject(Initialized(old(BaselineOf(if parentTree != null then parentTree else parent)),
                                          names, roll),
                              old(attributes.strayValue))
    {
      if parentTree != null {
        parent := parentTree;
      }
      var baseline := BaselineOf(parent);
      ghost var stray := attributes.strayValue;
      for i := 0 to |AllNames|
        invariant names == old(names) + AllNames[..i]
        invariant attributes.strayValue == stray
        invariant parent == (if parentTree != null then parentTree else old(parent))
        invariant forall j :: 0 <= j < i ==> attributes.values.Get(AllNames[j]) == Fallback(baseline, AllNames[j])
      {
        var attributeName := AllNames[i];
        names := names + [attributeName];
        attributes := attributes.(values := attributes.values.With(attributeName, Fallback(baseline, attributeName)));
      }
      SeededByName(attributes.values, baseline);
      assert AllNames[..5] == AllNames;
      CyclicExtend(old(names));
      Randomize(roll);
    }

    /** `randomize()`: pick `attributeNamesArray[floor(pick * length)]`, add
        `Utilities.random(-varyBy, varyBy)`, clamp, round, store. */
    method Randomize(roll: Roll)
      requires Valid() && roll.Valid()
      modifies this
      ensures Valid()
      ensures names == old(names) && parent == old(parent)
      ensures attributes == old(attributes).(values := Randomized(old(attributes.values), names, roll))
    {
      var attributeToRandomize := names[PickIndex(|names|, roll.pick)];
      var attribute := Spec(attributeToRandomize);
      var varyBy := attribute.varyBy;
      var newValue := attributes.values.Get(attributeToRandomize) + Random(-1.0 * varyBy, varyBy, roll.step);
      newValue := MinMax(newValue, attribute.min, attribute.max);
      if attribute.round {
        newValue := Round(newValue) as real;
      } else {
        newValue := RoundTo(newValue, 2);
      }
      attributes := attributes.(values := attributes.values.With(attributeToRandomize, newValue));
    }

    /** `getAttributes()`: a copy, which callers cannot use to change the tree. */
    method GetAttributes() returns (copy: AttributeObject)
      ensures copy == attributes
    {
      copy := attributes;
    }

    /** `setAttributes(array)`: each token parsed into the property
        `attributeNamesArray[i]`. No mutation, no range check. */
    method SetAttributesOrdered(tokens: seq<string>, parse: string -> real)
      modifies this
      ensures names == old(names) && parent == old(parent)
      ensures attributes == Assigned(old(attributes), names, tokens, parse)
    {
      for i := 0 to |tokens|
        invariant names == old(names) && parent == old(parent)
        invariant attributes == Assigned(old(attributes), names, tokens[..i], parse)
      {
        assert tokens[..i + 1][..i] == tokens[..i];
        if i < |names| {
          attributes := attributes.(values := attributes.values.With(names[i], parse(tokens[i])));
        } else {
          attributes := attributes.(strayValue := Some(parse(tokens[i])));
        }
      }
      assert tokens[..|tokens|] == tokens;
    }

    /** `setAttributes(object)`: each given property parsed into the
        attribute of that name; the others keep their values. */
    method SetAttributesNamed(given: map<Name, string>, parse: string -> real)
      modifies this
      ensures names == old(names) && parent == old(parent)
      ensures attributes.strayValue == old(attributes.strayValue)
      ensures forall n :: attributes.values.Get(n) == if n in given then parse(given[n]) else old(attributes.values.Get(n))
    {
      var pending := given.Keys;
      while pending != {}
        invariant pending <= given.Keys
        invariant names == old(names) && parent == old(parent)
        invariant attributes.strayValue == old(attributes.strayValue)
        invariant forall n :: attributes.values.Get(n) ==
                    if n in given && n !in pending then parse(given[n]) else old(attributes.values.Get(n))
        decreases pending
      {
        var attributeName :| attributeName in pending;
        attributes := attributes.(values := attributes.values.With(attributeName, parse(given[attributeName])));
        pending := pending - {attributeName};
      }
    }
  }
}
