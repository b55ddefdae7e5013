/**
 * Hazard-related structures (src/hazard.rs): hazards, their risk and level, the
 * pointer-and-condition pairs that gate them, validated JSON pointers, hazard ids and
 * categories, and the lookup of an id's catalogue entry.
 */
module Hazards {
  import opened Wrappers
  import Conditions

  /** Rust's `u8`. */
  newtype u8 = x: int | 0 <= x < 0x100

  /** The ID of a hazard. */
  datatype Id =
    | AirPoisoning | Asphyxia | AudioVideoRecordAndStore | AudioVideoStream | Burn
    | ElectricEnergyConsumption | Explosion | FireHazard | GasConsumption
    | LogEnergyConsumption | LogUsageTime | PaySubscriptionFee | PowerOutage | PowerSurge
    | RecordIssuedCommands | RecordUserPreferences | Scald | SpendMoney | SpoiledFood
    | TakeDeviceScreenshots | TakePictures | UnauthorisedPhysicalAccess | WaterConsumption
    | WaterFlooding

  /** The category of a hazard. */
  datatype Category = Financial | Privacy | Safety

  /** The risk of a hazard: the id of the risk and its level. */
  datatype Risk = Risk(id: Id, level: u8)

  /**
   * The syntax of a JSON pointer, section 3 of RFC 6901: a sequence of reference tokens each
   * introduced by '/', where '~' only appears as the escape "~0" or "~1". So a non-empty
   * pointer starts with '/', and every '~' is followed by '0' or '1'.
   */
  predicate ValidPointer(s: string) {
    && (s == [] || s[0] == '/')
    && forall i :: 0 <= i < |s| && s[i] == '~' ==> i + 1 < |s| && (s[i + 1] == '0' || s[i + 1] == '1')
  }

  /** An opaque, validated JSON pointer: every value is well-formed. It dereferences to its text. */
  type JsonPointer = s: string | ValidPointer(s) witness ""

  /** The error of building a pointer from malformed text; it carries the original text. */
  datatype InvalidJsonPointer = InvalidJsonPointer(text: string)

  /**
   * `TryFrom<&str>` and `TryFrom<String>` for `JsonPointer`: succeeds exactly for well-formed
   * text, keeping the text; otherwise the error carries the text given.
   */
  function TryFromStr(s: string): (r: Result<JsonPointer, InvalidJsonPointer>)
    ensures r.Success? <==> ValidPointer(s)
    ensures r.Success? ==> r.value == s
    ensures r.Failure? ==> r.error.text == s
  {
    if ValidPointer(s) then Success(s) else Failure(InvalidJsonPointer(s))
  }

  /** A condition on the data that a pointer designates in the Thing Description. */
  datatype Condition = Condition(pointer: JsonPointer, condition: Conditions.Condition)

  /**
   * A hazard: its risk and the conditions under which it applies. The outer sequence is a
   * logical OR of groups, each group a logical AND of its conditions (see `Holds`).
   */
  datatype Hazard = Hazard(risk: Risk, conditions: seq<seq<Condition>>)

  /** Every AND-group is non-empty: the shape the condition builder produces. */
  ghost predicate WellFormed(conditions: seq<seq<Condition>>) {
    forall i :: 0 <= i < |conditions| ==> conditions[i] != []
  }

  /** The descriptive part of a catalogue entry of src/risk.rs. */
  datatype Entry = Entry(category: Category, name: string, description: string)

  /** The static table of src/risk.rs: the descriptive entry of each id. */
  type Catalogue = Id -> Entry

  /** `risk::Detail`: the catalogue entry of a hazard id. */
  datatype Detail = Detail(id: Id, category: Category, description: string, name: string)

  /**
   * `Id::risk`: total over `Id`, it returns the catalogue entry of `id`, whose `id()` is the
   * argument itself. The builder's deduplication of risks depends on that.
   */
  function IdRisk(id: Id, catalogue: Catalogue): (d: Detail)
    ensures d.id == id
    ensures d.category == catalogue(id).category
    ensures d.name == catalogue(id).name && d.description == catalogue(id).description
  {
    var e := catalogue(id);
    Detail(id, e.category, e.description, e.name)
  }

  // The meaning of `Hazard.conditions`, given which single conditions hold (`sat`).

  /** Every condition of an AND-group holds. */
  ghost predicate AllHold(group: seq<Condition>, sat: Condition -> bool) {
    forall j :: 0 <= j < |group| ==> sat(group[j])
  }

  /** Some AND-group of the set has all its conditions hold. */
  ghost predicate Holds(conditions: seq<seq<Condition>>, sat: Condition -> bool) {
    exists i :: 0 <= i < |conditions| && AllHold(conditions[i], sat)
  }

  /** The formula `c0 && c1 && ...` of an AND-group, written out left to right. */
  function EvalAnd(group: seq<Condition>, sat: Condition -> bool): bool {
    if group == [] then true else sat(group[0]) && EvalAnd(group[1..], sat)
  }

  /** The formula `(g0) || (g1) || ...` of a condition set, written out left to right. */
  function EvalOr(conditions: seq<seq<Condition>>, sat: Condition -> bool): bool {
    if conditions == [] then false
    else EvalAnd(conditions[0], sat) || EvalOr(conditions[1..], sat)
  }

  lemma {:induction false} EvalAndMeansAllHold(group: seq<Condition>, sat: Condition -> bool)
    ensures EvalAnd(group, sat) <==> AllHold(group, sat)
  {
    if group != [] {
      EvalAndMeansAllHold(group[1..], sat);
      assert forall j :: 1 <= j < |group| ==> group[j] == group[1..][j - 1];
    }
  }

  /** The written-out formula of a condition set is true exactly when some group holds. */
  lemma {:induction false} EvalOrMeansHolds(conditions: seq<seq<Condition>>, sat: Condition -> bool)
    ensures EvalOr(conditions, sat) <==> Holds(conditions, sat)
  {
    if conditions != [] {
      EvalAndMeansAllHold(conditions[0], sat);
      EvalOrMeansHolds(conditions[1..], sat);
      if Holds(conditions, sat) {
        var i :| 0 <= i < |conditions| && AllHold(conditions[i], sat);
        if i > 0 {
          assert conditions[1..][i - 1] == conditions[i];
        }
      }
      if Holds(conditions[1..], sat) {
        var i :| 0 <= i < |conditions[1..]| && AllHold(conditions[1..][i], sat);
        assert conditions[i + 1] == conditions[1..][i];
      }
    }
  }

  /** `[[A, B], [C], [D, E, F]]` means `(A && B) || C || (D && E && F)`. */
  lemma DocumentedExample(a: Condition, b: Condition, c: Condition, d: Condition, e: Condition,
                          f: Condition, sat: Condition -> bool)
    ensures Holds([[a, b], [c], [d, e, f]], sat)
        <==> (sat(a) && sat(b)) || sat(c) || (sat(d) && sat(e) && sat(f))
  {
    var cs := [[a, b], [c], [d, e, f]];
    if (sat(a) && sat(b)) || sat(c) || (sat(d) && sat(e) && sat(f)) {
      var i := if sat(a) && sat(b) then 0 else if sat(c) then 1 else 2;
      assert AllHold(cs[i], sat);
    }
    if Holds(cs, sat) {
      var i :| 0 <= i < |cs| && AllHold(cs[i], sat);
      assert i == 0 ==> sat(cs[0][0]) && sat(cs[0][1]);
      assert i == 1 ==> sat(cs[1][0]);
      assert i == 2 ==> sat(cs[2][0]) && sat(cs[2][1]) && sat(cs[2][2]);
    }
  }

  /** Appending a group adds one disjunct to the meaning. */
  lemma HoldsAppendGroup(conditions: seq<seq<Condition>>, group: seq<Condition>, sat: Condition -> bool)
    ensures Holds(conditions + [group], sat) <==> Holds(conditions, sat) || AllHold(group, sat)
  {
    var all := conditions + [group];
    if Holds(all, sat) {
      var i :| 0 <= i < |all| && AllHold(all[i], sat);
      if i < |conditions| {
        assert all[i] == conditions[i];
      }
    }
    if Holds(conditions, sat) {
      var i :| 0 <= i < |conditions| && AllHold(conditions[i], sat);
      assert all[i] == conditions[i];
    }
    if AllHold(group, sat) {
      assert all[|conditions|] == group;
    }
  }

  /** Appending a condition to the last group adds one conjunct to the last disjunct. */
  lemma HoldsExtendLast(conditions: seq<seq<Condition>>, c: Condition, sat: Condition -> bool)
    requires conditions != []
    ensures var n := |conditions| - 1;
      (Holds(conditions[n := conditions[n] + [c]], sat)
       <==> Holds(conditions[..n], sat) || (AllHold(conditions[n], sat) && sat(c)))
  {
    var n := |conditions| - 1;
    var last := conditions[n] + [c];
    assert conditions[n := last] == conditions[..n] + [last];
    HoldsAppendGroup(conditions[..n], last, sat);
    assert AllHold(last, sat) <==> AllHold(conditions[n], sat) && sat(c) by {
      if AllHold(conditions[n], sat) && sat(c) {
        forall j | 0 <= j < |last| ensures sat(last[j]) {
          if j < |conditions[n]| { assert last[j] == conditions[n][j]; }
        }
      }
      if AllHold(last, sat) {
        assert last[|conditions[n]|] == c;
        forall j | 0 <= j < |conditions[n]| ensures sat(conditions[n][j]) {
          assert last[j] == conditions[n][j];
        }
      }
    }
  }
}
