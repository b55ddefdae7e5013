/**
 * The unit tests of src/builder.rs, replayed as clients of the builder's contracts: each
 * method drives the chain as the Rust test does and asserts the result the test expects.
 */
module BuilderTests {
  import opened Wrappers
  import opened Conditions
  import Hazards
  import Builder

  const Prop1: Hazards.JsonPointer := "/properties/prop1"
  const Prop2: Hazards.JsonPointer := "/properties/prop2"

  /** A Rust integer literal, of the default type `i32`. */
  function Int32(x: int): Input
    requires -0x8000_0000 <= x < 0x8000_0000
  {
    IntIn(x, I32)
  }

  /** `Expr { value: x.into(), op }` on the pointer `p`. */
  function Compare(p: Hazards.JsonPointer, x: int, op: Operation): Hazards.Condition {
    Hazards.Condition(p, Condition.Expr(Expr.Expr(Value.Number(Int(x)), op)))
  }

  /** `hazard_helper` and `short_form`: risks deduplicated in first-use order, empty conditions. */
  method HazardHelper(catalogue: Hazards.Catalogue) {
    ghost var fire := Hazards.IdRisk(Hazards.FireHazard, catalogue);
    ghost var explosion := Hazards.IdRisk(Hazards.Explosion, catalogue);
    ghost var h1 := Hazards.Hazard(Hazards.Risk(Hazards.FireHazard, 1), []);
    ghost var h2 := Hazards.Hazard(Hazards.Risk(Hazards.FireHazard, 3), []);
    ghost var h3 := Hazards.Hazard(Hazards.Risk(Hazards.Explosion, 4), []);
    var b := new Builder.Builder(catalogue);
    var c1 := new Builder.ConditionBuilder();
    b.Hazard(Hazards.FireHazard, 1, c1);
    assert b.risks == [fire] && b.hazards == [h1];
    assert b.risks[0].id == Hazards.FireHazard;
    var c2 := new Builder.ConditionBuilder();
    b.Hazard(Hazards.FireHazard, 3, c2);
    assert b.risks == [fire] && b.hazards == [h1, h2];
    assert b.risks[0].id != Hazards.Explosion;
    var c3 := new Builder.ConditionBuilder();
    b.Hazard(Hazards.Explosion, 4, c3);
    assert b.risks == [fire, explosion] && b.hazards == [h1, h2, h3];
    var s := b.Build();
    assert s == Builder.Sifis([fire, explosion], [h1, h2, h3]);
  }

  /**
   * `Sifis::builder().hazard(FireHazard, 1, |cond| ...).build()` on a finished chain `c`:
   * the extension holds the fire entry once and one hazard with the chain's conditions.
   */
  method FireHazardOf(catalogue: Hazards.Catalogue, c: Builder.ConditionBuilder)
    returns (s: Builder.Sifis)
    requires c.Valid() && c.Complete()
    ensures s.risks == [Hazards.IdRisk(Hazards.FireHazard, catalogue)]
    ensures s.hazards == [Hazards.Hazard(Hazards.Risk(Hazards.FireHazard, 1), c.conditions)]
  {
    var b := new Builder.Builder(catalogue);
    b.Hazard(Hazards.FireHazard, 1, c);
    s := b.Build();
  }

  /** `condition_and`: `when(p1).eq(5).and(p2).gt(3)` is one group of two conditions. */
  method ConditionAnd(catalogue: Hazards.Catalogue) {
    ghost var a := Hazards.Condition(Prop1, Condition.Value(Value.Number(Int(5))));
    ghost var b := Compare(Prop2, 3, Gt);
    var c := new Builder.ConditionBuilder();
    c.When(Prop1);
    c.Eq(Int32(5));
    assert [] + [a] == [a];
    assert c.conditions == [[a]];
    c.And(Prop2);
    c.Gt(Int32(3));
    assert [a] + [b] == [a, b];
    assert c.conditions == [[a, b]];
    var s := FireHazardOf(catalogue, c);
    assert s == Builder.Sifis([Hazards.IdRisk(Hazards.FireHazard, catalogue)],
                              [Hazards.Hazard(Hazards.Risk(Hazards.FireHazard, 1), [[a, b]])]);
  }

  /** `condition_or`: `when(p1).eq(5).or(|c| c.when(p2).gt(3))` is two groups of one. */
  method ConditionOr(catalogue: Hazards.Catalogue) {
    ghost var a := Hazards.Condition(Prop1, Condition.Value(Value.Number(Int(5))));
    ghost var b := Compare(Prop2, 3, Gt);
    var c := new Builder.ConditionBuilder();
    c.When(Prop1);
    c.Eq(Int32(5));
    assert [] + [a] == [a];
    assert c.conditions == [[a]];
    c.BeginOr();
    c.When(Prop2);
    c.Gt(Int32(3));
    c.EndOr();
    assert [] + [b] == [b];
    assert c.conditions == [[a], [b]];
    var s := FireHazardOf(catalogue, c);
    assert s == Builder.Sifis([Hazards.IdRisk(Hazards.FireHazard, catalogue)],
                              [Hazards.Hazard(Hazards.Risk(Hazards.FireHazard, 1), [[a], [b]])]);
  }

  /** The chain of `condition_mixed`: two groups of two conditions, in the order given. */
  method MixedChain() returns (c: Builder.ConditionBuilder)
    ensures c.Valid() && c.Complete()
    ensures c.conditions == [
      [Compare(Prop1, 3, Ge), Compare(Prop1, 10, Lt)],
      [Compare(Prop2, 5, Gt), Compare(Prop2, 15, Le)]
    ]
  {
    ghost var a, b := Compare(Prop1, 3, Ge), Compare(Prop1, 10, Lt);
    ghost var d, e := Compare(Prop2, 5, Gt), Compare(Prop2, 15, Le);
    c := new Builder.ConditionBuilder();
    c.When(Prop1);
    c.Ge(Int32(3));
    assert [] + [a] == [a];
    assert c.conditions == [[a]];
    c.And(Prop1);
    c.Lt(Int32(10));
    assert [a] + [b] == [a, b];
    assert c.conditions == [[a, b]];
    c.BeginOr();
    c.When(Prop2);
    c.Gt(Int32(5));
    assert [] + [d] == [d];
    assert c.conditions == [[a, b], [d]];
    c.And(Prop2);
    c.Le(Int32(15));
    c.EndOr();
    assert [d] + [e] == [d, e];
  }

  /** `condition_mixed`: the fire hazard with the two groups of `MixedChain`. */
  method ConditionMixed(catalogue: Hazards.Catalogue) {
    var c := MixedChain();
    var s := FireHazardOf(catalogue, c);
    assert s == Builder.Sifis(
      [Hazards.IdRisk(Hazards.FireHazard, catalogue)],
      [Hazards.Hazard(Hazards.Risk(Hazards.FireHazard, 1),
                      [[Compare(Prop1, 3, Ge), Compare(Prop1, 10, Lt)],
                       [Compare(Prop2, 5, Gt), Compare(Prop2, 15, Le)]])]);
  }
}
