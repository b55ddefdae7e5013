/**
 * The hazard builder (src/builder.rs).
 *
 * `Builder` accumulates hazards and the deduplicated catalogue entries of their ids.
 * `ConditionBuilder` is the condition builder: in the source a chain of values of the types
 * `Condition<INIT, NESTED>` and `PartialCondition<NESTED>`, each owning the one mutable
 * condition set of the hazard being built. Here it is one object over that set; the typestate
 * (which of the two types, and the two const flags) is ghost state, and each call of the chain
 * requires the state in which the source's type offers it.
 */
module Builder {
  import opened Wrappers
  import Conditions
  import Hazards

  /** Which type of the source's chain the builder currently is. */
  datatype Typestate =
    | Uninitialized  // `Condition<false, NESTED>`: only `when`
    | Partial        // `PartialCondition<NESTED>`: only a comparison
    | Initialized    // `Condition<true, NESTED>`: `and`, and `or` when not nested

  /** The comparison that commits `value` to the current group: `eq` or one with an operation. */
  function MakeCondition(value: Conditions.Value, op: Option<Conditions.Operation>): (c: Conditions.Condition)
    ensures op.None? ==> c.Value? && c.value == value
    ensures op.Some? ==> c.Expr? && c.expr.value == value && c.expr.op == op.value
  {
    match op
    case None => Conditions.Condition.Value(value)
    case Some(o) => Conditions.Condition.Expr(Conditions.Expr.Expr(value, o))
  }

  class ConditionBuilder {
    /** The hazard's condition set: an OR of AND-groups, grown in place. */
    var conditions: seq<seq<Hazards.Condition>>
    /** `PartialCondition::outer_index`: the group the next comparison goes to. */
    var outerIndex: nat
    /** `PartialCondition::pointer`: the pointer text given to `when` or `and`. */
    var pointer: string

    ghost var state: Typestate
    /** The `NESTED` flag: inside the closure given to `or`. */
    ghost var nested: bool
    /** How many times `or` has been called. */
    ghost var ors: nat

    /**
     * The states the chain can reach from a fresh hazard. Every group but the current (last)
     * one is non-empty, and so is the last one once a comparison has completed it; there is
     * one group per `or` plus the first, which the first `when` creates.
     */
    ghost predicate Valid()
      reads this
    {
      && (forall i :: 0 <= i < |conditions| - 1 ==> conditions[i] != [])
      && (conditions == [] <==> state == Uninitialized && !nested)
      && (conditions == [] ==> ors == 0)
      && (conditions != [] ==> |conditions| == ors + 1)
      && (nested ==> ors > 0)
      && (state == Initialized ==> conditions[|conditions| - 1] != [])
      && (state == Uninitialized && nested ==> conditions[|conditions| - 1] == [])
      && (state == Partial ==> outerIndex == |conditions| - 1)
    }

    /** A state the closure given to `Builder::hazard` may return: `Condition<INIT, false>`. */
    ghost predicate Complete()
      reads this
    {
      state != Partial && !nested
    }

    /** `Condition(&mut hazard.conditions)`: a fresh chain over the new hazard's empty set. */
    constructor ()
      ensures Valid() && Complete()
      ensures conditions == [] && state == Uninitialized && !nested && ors == 0
    {
      conditions := [];
      outerIndex := 0;
      pointer := "";
      state := Uninitialized;
      nested := false;
      ors := 0;
    }

    /**
     * `add_condition`, shared by `when` and `and`: targets the last group, first creating an
     * empty one when the set is empty, and remembers the pointer text.
     */
    method AddCondition(pointer: string)
      requires Valid() && state != Partial
      modifies this
      ensures Valid() && state == Partial && nested == old(nested) && ors == old(ors)
      ensures this.pointer == pointer
      ensures old(conditions) == [] ==> conditions == [[]]
      ensures old(conditions) != [] ==> conditions == old(conditions)
      ensures outerIndex == |conditions| - 1
    {
      if |conditions| == 0 {
        conditions := conditions + [[]];
        outerIndex := 0;
      } else {
        outerIndex := |conditions| - 1;
      }
      this.pointer := pointer;
      state := Partial;
    }

    /** `when`: starts the first condition of a chain (or of the closure given to `or`). */
    method When(pointer: string)
      requires Valid() && state == Uninitialized
      modifies this
      ensures Valid() && state == Partial && nested == old(nested) && ors == old(ors)
      ensures this.pointer == pointer
      ensures old(conditions) == [] ==> conditions == [[]]
      ensures old(conditions) != [] ==> conditions == old(conditions)
      ensures outerIndex == |conditions| - 1
    {
      AddCondition(pointer);
    }

    /** `and`: starts one more condition of the current AND-group. */
    method And(pointer: string)
      requires Valid() && state == Initialized
      modifies this
      ensures Valid() && state == Partial && nested == old(nested) && ors == old(ors)
      ensures this.pointer == pointer
      ensures conditions == old(conditions) && outerIndex == |conditions| - 1
    {
      AddCondition(pointer);
    }

    /** The condition set once `(pointer, c)` is pushed onto the targeted group. */
    ghost function Committed(c: Conditions.Condition): seq<seq<Hazards.Condition>>
      reads this
      requires Valid() && state == Partial && Hazards.ValidPointer(pointer)
    {
      conditions[..outerIndex] + [conditions[outerIndex] + [Hazards.Condition(pointer, c)]]
    }

    /**
     * `op`: converts the pointer text and the value, then pushes the pair onto the targeted
     * group. The source panics on a malformed pointer or an unconvertible value; both are
     * preconditions here.
     */
    method Op(value: Conditions.Input, op: Option<Conditions.Operation>)
      requires Valid() && state == Partial
      requires Hazards.TryFromStr(pointer).Success?
      requires Conditions.TryInto(value).Success?
      modifies this
      ensures Valid() && state == Initialized && nested == old(nested) && ors == old(ors)
      ensures conditions == old(Committed(MakeCondition(Conditions.TryInto(value).value, op)))
      ensures |conditions| == |old(conditions)|
      ensures forall i :: 0 <= i < |conditions| - 1 ==> conditions[i] == old(conditions)[i]
    {
      var ptr := Hazards.TryFromStr(pointer).value;
      var v := Conditions.TryInto(value).value;
      var condition := MakeCondition(v, op);
      conditions := conditions[outerIndex := conditions[outerIndex] + [Hazards.Condition(ptr, condition)]];
      state := Initialized;
    }

    /** `eq`: commits `Condition::Value(value)`, an implicit equality. */
    method Eq(value: Conditions.Input)
      requires Valid() && state == Partial
      requires Hazards.TryFromStr(pointer).Success?
      requires Conditions.TryInto(value).Success?
      modifies this
      ensures Valid() && state == Initialized && nested == old(nested) && ors == old(ors)
      ensures conditions == old(Committed(Conditions.Condition.Value(Conditions.TryInto(value).value)))
    {
      Op(value, None);
    }

    /** `expr`: commits `Condition::Expr { value, op }`. */
    method Expr(value: Conditions.Input, op: Conditions.Operation)
      requires Valid() && state == Partial
      requires Hazards.TryFromStr(pointer).Success?
      requires Conditions.TryInto(value).Success?
      modifies this
      ensures Valid() && state == Initialized && nested == old(nested) && ors == old(ors)
      ensures conditions
           == old(Committed(Conditions.Condition.Expr(Conditions.Expr.Expr(Conditions.TryInto(value).value, op))))
    {
      Op(value, Some(op));
    }

    /** `ne`: commits `Expr { value, op: Ne }`. */
    method Ne(value: Conditions.Input)
      requires Valid() && state == Partial
      requires Hazards.TryFromStr(pointer).Success?
      requires Conditions.TryInto(value).Success?
      modifies this
      ensures Valid() && state == Initialized && nested == old(nested) && ors == old(ors)
      ensures conditions
           == old(Committed(Conditions.Condition.Expr(Conditions.Expr.Expr(Conditions.TryInto(value).value, Conditions.Ne))))
    {
      Expr(value, Conditions.Ne);
    }

    /** `lt`: commits `Expr { value, op: Lt }`. */
    method Lt(value: Conditions.Input)
      requires Valid() && state == Partial
      requires Hazards.TryFromStr(pointer).Success?
      requires Conditions.TryInto(value).Success?
      modifies this
      ensures Valid() && state == Initialized && nested == old(nested) && ors == old(ors)
      ensures conditions
           == old(Committed(Conditions.Condition.Expr(Conditions.Expr.Expr(Conditions.TryInto(value).value, Conditions.Lt))))
    {
      Expr(value, Conditions.Lt);
    }

    /** `le`: commits `Expr { value, op: Le }`. */
    method Le(value: Conditions.Input)
      requires Valid() && state == Partial
      requires Hazards.TryFromStr(pointer).Success?
      requires Conditions.TryInto(value).Success?
      modifies this
      ensures Valid() && state == Initialized && nested == old(nested) && ors == old(ors)
      ensures conditions
           == old(Committed(Conditions.Condition.Expr(Conditions.Expr.Expr(Conditions.TryInto(value).value, Conditions.Le))))
    {
      Expr(value, Conditions.Le);
    }

    /** `ge`: commits `Expr { value, op: Ge }`. */
    method Ge(value: Conditions.Input)
      requires Valid() && state == Partial
      requires Hazards.TryFromStr(pointer).Success?
      requires Conditions.TryInto(value).Success?
      modifies this
      ensures Valid() && state == Initialized && nested == old(nested) && ors == old(ors)
      ensures conditions
           == old(Committed(Conditions.Condition.Expr(Conditions.Expr.Expr(Conditions.TryInto(value).value, Conditions.Ge))))
    {
      Expr(value, Conditions.Ge);
    }

    /** `gt`: commits `Expr { value, op: Gt }`. */
    method Gt(value: Conditions.Input)
      requires Valid() && state == Partial
      requires Hazards.TryFromStr(pointer).Success?
      requires Conditions.TryInto(value).Success?
      modifies this
      ensures Valid() && state == Initialized && nested == old(nested) && ors == old(ors)
      ensures conditions
           == old(Committed(Conditions.Condition.Expr(Conditions.Expr.Expr(Conditions.TryInto(value).value, Conditions.Gt))))
    {
      Expr(value, Conditions.Gt);
    }

    /**
     * The first half of `or`: pushes a new empty group and hands the chain, nested and
     * uninitialized, to the closure. Only an initialized chain that is not nested has `or`,
     * and its set is not empty (the source's `debug_assert!`).
     */
    method BeginOr()
      requires Valid() && state == Initialized && !nested
      requires conditions != []
      modifies this
      ensures Valid() && state == Uninitialized && nested && ors == old(ors) + 1
      ensures conditions == old(conditions) + [[]]
    {
      conditions := conditions + [[]];
      state := Uninitialized;
      nested := true;
      ors := ors + 1;
    }

    /**
     * The second half of `or`: the closure must give back an initialized nested chain, so it
     * has committed at least one comparison to the new group; the chain goes on un-nested.
     */
    method EndOr()
      requires Valid() && state == Initialized && nested
      modifies this
      ensures Valid() && state == Initialized && !nested && ors == old(ors)
      ensures conditions == old(conditions)
    {
      nested := false;
    }
  }

  /** Every state the closure of `Builder::hazard` can return gives a set of non-empty groups. */
  lemma CompleteIsWellFormed(c: ConditionBuilder)
    requires c.Valid() && c.Complete()
    ensures Hazards.WellFormed(c.conditions)
    ensures c.conditions != [] ==> |c.conditions| == c.ors + 1
  {
  }

  // Deduplication of risks.

  /** The ids of a sequence of catalogue entries. */
  function RiskIds(risks: seq<Hazards.Detail>): (ids: seq<Hazards.Id>)
    ensures |ids| == |risks|
    ensures forall i :: 0 <= i < |risks| ==> ids[i] == risks[i].id
  {
    seq(|risks|, i requires 0 <= i < |risks| => risks[i].id)
  }

  /** The ids of a sequence of hazards. */
  function HazardIds(hazards: seq<Hazards.Hazard>): (ids: seq<Hazards.Id>)
    ensures |ids| == |hazards|
    ensures forall i :: 0 <= i < |hazards| ==> ids[i] == hazards[i].risk.id
  {
    seq(|hazards|, i requires 0 <= i < |hazards| => hazards[i].risk.id)
  }

  /** The distinct ids of `ids`, each where it is first used. */
  function FirstUses(ids: seq<Hazards.Id>): seq<Hazards.Id> {
    if ids == [] then []
    else
      var earlier := FirstUses(ids[..|ids| - 1]);
      if ids[|ids| - 1] in earlier then earlier else earlier + [ids[|ids| - 1]]
  }

  /** No id appears twice. */
  predicate Distinct(ids: seq<Hazards.Id>) {
    forall i, j :: 0 <= i < j < |ids| ==> ids[i] != ids[j]
  }

  /** The position of the first use of `x` in `ids`. */
  function FirstIndex(ids: seq<Hazards.Id>, x: Hazards.Id): (k: nat)
    requires x in ids
    ensures k < |ids| && ids[k] == x
    ensures forall j :: 0 <= j < k ==> ids[j] != x
  {
    if ids[0] == x then 0 else 1 + FirstIndex(ids[1..], x)
  }

  /** The first uses hold each id used, and nothing else. */
  lemma {:induction false} FirstUsesSameIds(ids: seq<Hazards.Id>)
    ensures forall x :: x in FirstUses(ids) <==> x in ids
  {
    if ids != [] {
      var init := ids[..|ids| - 1];
      FirstUsesSameIds(init);
      assert ids == init + [ids[|ids| - 1]];
    }
  }

  /** Using one more id adds it to the first uses exactly when it is new. */
  lemma FirstUsesAppend(ids: seq<Hazards.Id>, x: Hazards.Id)
    ensures FirstUses(ids + [x]) == if x in FirstUses(ids) then FirstUses(ids) else FirstUses(ids) + [x]
  {
  }

  /** The first uses never repeat an id. */
  lemma {:induction false} FirstUsesDistinct(ids: seq<Hazards.Id>)
    ensures Distinct(FirstUses(ids))
  {
    if ids != [] {
      FirstUsesDistinct(ids[..|ids| - 1]);
    }
  }

  lemma {:induction false} FirstIndexExtend(ids: seq<Hazards.Id>, x: Hazards.Id, y: Hazards.Id)
    requires y in ids
    ensures FirstIndex(ids + [x], y) == FirstIndex(ids, y)
  {
    if ids[0] != y {
      assert (ids + [x])[1..] == ids[1..] + [x];
      FirstIndexExtend(ids[1..], x, y);
    }
  }

  /** The first uses are in the order in which the ids are first used. */
  lemma {:induction false} FirstUsesOrdered(ids: seq<Hazards.Id>, i: nat, j: nat)
    requires i < j < |FirstUses(ids)|
    ensures FirstUses(ids)[i] in ids && FirstUses(ids)[j] in ids
    ensures FirstIndex(ids, FirstUses(ids)[i]) < FirstIndex(ids, FirstUses(ids)[j])
  {
    var init := ids[..|ids| - 1];
    var x := ids[|ids| - 1];
    var earlier := FirstUses(init);
    assert ids == init + [x];
    FirstUsesSameIds(init);
    var a, b := FirstUses(ids)[i], FirstUses(ids)[j];
    assert a == earlier[i];
    assert a in init;
    FirstIndexExtend(init, x, a);
    if j < |earlier| {
      assert b == earlier[j];
      FirstUsesOrdered(init, i, j);
      FirstIndexExtend(init, x, b);
    } else {
      assert b == x && x !in init;
      assert FirstIndex(ids, b) == |init|;
    }
  }

  /**
   * The linear search `risks.iter().find(|risk| risk.id() == id)`: the first entry with that id,
   * or none when no entry has it.
   */
  method Find(risks: seq<Hazards.Detail>, id: Hazards.Id) returns (r: Option<Hazards.Detail>)
    ensures r.None? <==> forall i :: 0 <= i < |risks| ==> risks[i].id != id
    ensures r.Some? ==> exists i :: 0 <= i < |risks| && risks[i] == r.value && r.value.id == id
                                    && forall j :: 0 <= j < i ==> risks[j].id != id
  {
    var k := 0;
    while k < |risks|
      invariant 0 <= k <= |risks|
      invariant forall j :: 0 <= j < k ==> risks[j].id != id
    {
      if risks[k].id == id {
        return Some(risks[k]);
      }
      k := k + 1;
    }
    return None;
  }

  /** The extension: the catalogue entries of the risks used, and the hazards. */
  datatype Sifis = Sifis(risks: seq<Hazards.Detail>, hazards: seq<Hazards.Hazard>)

  class Builder {
    var risks: seq<Hazards.Detail>
    var hazards: seq<Hazards.Hazard>
    /** The static catalogue of src/risk.rs that `Id::risk` reads. */
    const catalogue: Hazards.Catalogue

    /**
     * The risks are the catalogue entries of the hazards' ids, each once, in the order of first
     * use; every hazard's groups are non-empty.
     */
    ghost predicate Valid()
      reads this
    {
      && RiskIds(risks) == FirstUses(HazardIds(hazards))
      && (forall i :: 0 <= i < |risks| ==> risks[i] == Hazards.IdRisk(risks[i].id, catalogue))
      && (forall i :: 0 <= i < |hazards| ==> Hazards.WellFormed(hazards[i].conditions))
    }

    /** `Builder::default()`. */
    constructor (catalogue: Hazards.Catalogue)
      ensures Valid() && this.catalogue == catalogue
      ensures risks == [] && hazards == []
    {
      this.catalogue := catalogue;
      risks := [];
      hazards := [];
    }

    /**
     * `hazard(id, level, condition)`: `cond` is the chain the closure `condition` returns
     * after being given a fresh `ConditionBuilder`. Appends the hazard, and the catalogue
     * entry of `id` unless an entry with that id is already there.
     */
    method Hazard(id: Hazards.Id, level: Hazards.u8, cond: ConditionBuilder)
      requires Valid() && cond.Valid() && cond.Complete()
      modifies this
      ensures Valid()
      ensures hazards == old(hazards) + [Hazards.Hazard(Hazards.Risk(id, level), cond.conditions)]
      ensures (exists i :: 0 <= i < |old(risks)| && old(risks)[i].id == id) ==> risks == old(risks)
      ensures (forall i :: 0 <= i < |old(risks)| ==> old(risks)[i].id != id)
              ==> risks == old(risks) + [Hazards.IdRisk(id, catalogue)]
    {
      CompleteIsWellFormed(cond);
      var hazard := Hazards.Hazard(Hazards.Risk(id, level), cond.conditions);
      ghost var before := HazardIds(hazards);
      hazards := hazards + [hazard];
      assert HazardIds(hazards) == before + [id];
      FirstUsesAppend(before, id);

      var risk := Find(risks, id);
      if risk.None? {
        var d := Hazards.IdRisk(id, catalogue);
        assert id !in RiskIds(risks);
        assert RiskIds(risks + [d]) == RiskIds(risks) + [id];
        risks := risks + [d];
      } else {
        assert id in RiskIds(risks);
      }
    }

    /** `build`: the accumulated risks and hazards, unchanged and in order. */
    method Build() returns (s: Sifis)
      requires Valid()
      ensures s.risks == risks && s.hazards == hazards
      ensures Distinct(RiskIds(s.risks))
      ensures forall x :: x in RiskIds(s.risks) <==> x in HazardIds(s.hazards)
      ensures forall i :: 0 <= i < |s.hazards| ==> Hazards.WellFormed(s.hazards[i].conditions)
    {
      FirstUsesDistinct(HazardIds(hazards));
      FirstUsesSameIds(HazardIds(hazards));
      s := Sifis(risks, hazards);
    }
  }
}
