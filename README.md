# Hazard builder of the SIFIS-Home Thing Description extension, in Dafny

This project models the core of `sifis-ext`, a Rust crate that annotates a Web of Things
Thing Description with *hazards*: privacy, safety and financial risks, each with a level
and with the conditions on the device's data under which it applies. The model covers:

- the value and comparison model of `src/condition.rs` (module `Conditions`): JSON scalar
  values, the five comparison operations, a condition as a bare value (implicit equality) or
  an expression, and the conversions from Rust's native scalars, where a NaN or infinite
  float is refused;
- the hazard data model of `src/hazard.rs` (module `Hazards`): hazards, risks with a `u8`
  level, validated JSON pointers, the 24 hazard ids, the three categories, the lookup of an
  id's catalogue entry, and the meaning of a condition set as an OR of AND-groups;
- the fluent builder of `src/builder.rs` (module `Builder`): `Builder` accumulates hazards
  and adds each id's catalogue entry once, in first-use order; `ConditionBuilder` is the
  typestate condition builder (`Condition<INIT, NESTED>` and `PartialCondition<NESTED>`)
  that grows one hazard's condition set in place.

The source's typestate is compile-time only, so it is ghost state here (`state`, `nested`),
and each call requires the state in which the source's type offers it: `when` only
uninitialized, a comparison only after `when`/`and`, `and` only initialized, `or` only
initialized and not nested. The closure-taking calls are split: the closure given to
`Builder::hazard` is whatever the caller does with a fresh `ConditionBuilder` before handing
it to `Builder.Hazard`, and `or(f)` is `BeginOr`, the calls `f` makes, then `EndOr`, which
requires that `f` completed a comparison. `ConditionBuilder.Valid()` is the invariant of every
reachable state: all groups but the current one are non-empty, the current one too once a
comparison completed it, and there is one group per `or` plus the first. `Builder.Valid()`
says that the risks are the catalogue entries of the hazards' ids, each once, in first-use
order (`FirstUses`), and that every hazard's groups are non-empty.

`builder_tests.dfy` replays the crate's unit tests (`hazard_helper`, `condition_and`,
`condition_or`, `condition_mixed`) as verified clients of these contracts: each chain is
handed to `Builder.Hazard` and the built extension (risks and hazards) is asserted whole.

The source validates a pointer when a comparison commits it (`op`, src/builder.rs:464), not
when `when` or `and` receives it; the model follows the code.

## Model

| member | source | states |
|---|---|---|
| Conditions.FromBool | src/condition.rs:31-36 | a boolean becomes `Value::Bool` with the same flag |
| Conditions.FromString | src/condition.rs:38-50 | an owned or static string becomes `Value::String` with the same text |
| Conditions.FromNumber | src/condition.rs:52-57 | a JSON number becomes `Value::Number` unchanged |
| Conditions.FromInteger | src/condition.rs:59-72 | every integer type converts infallibly to a number equal to the same integer |
| Conditions.TryFromF64 | src/condition.rs:94-103 | the conversion fails with `InvalidFloat` exactly for NaN and the infinities; a finite float becomes a number of the same value |
| Conditions.TryFromF32 | src/condition.rs:85-92 | an `f32` has the same outcome as its exact widening to `f64`: fails exactly when not finite |
| Conditions.TryInto | src/condition.rs:31-103 | the conversion the builder applies to any supported native value fails exactly for a non-finite float, and keeps the kind (boolean, text, number) and the payload |
| Hazards.TryFromStr | src/hazard.rs:73-93 | building a `JsonPointer` succeeds exactly for text in the syntax of section 3 of RFC 6901 and keeps the text; on failure the error carries the original text |
| Hazards.IdRisk | src/hazard.rs:212-240 | `Id::risk` is total and returns the catalogue entry whose id is the argument |
| Hazards.EvalAndMeansAllHold | src/hazard.rs:16-19 | the written-out conjunction of a group is true exactly when every condition of the group holds |
| Hazards.EvalOrMeansHolds | src/hazard.rs:16-31 | the written-out formula (g0 or g1 or ...) of a condition set is true exactly when some AND-group holds entirely |
| Hazards.DocumentedExample | src/hazard.rs:21-29 | `[[A, B], [C], [D, E, F]]` means (A and B) or C or (D and E and F) |
| Hazards.HoldsAppendGroup | src/hazard.rs:16-31 | appending a group (what `or` does) adds exactly one disjunct to the meaning |
| Hazards.HoldsExtendLast | src/hazard.rs:16-31 | appending a condition to the last group (what a comparison after `and` does) adds exactly one conjunct to the last disjunct |
| Builder.MakeCondition | src/builder.rs:478-486 | `eq` builds `Condition::Value(v)`; the other comparisons build `Expr { value: v, op }` with their own operation |
| Builder.ConditionBuilder.constructor | src/builder.rs:147-151 | the closure of `hazard` starts uninitialized, not nested, over an empty condition set |
| Builder.ConditionBuilder.AddCondition | src/builder.rs:285-297 | on an empty set appends exactly one empty group and targets index 0; otherwise targets the last group and adds none; keeps the pointer text |
| Builder.ConditionBuilder.When | src/builder.rs:300-310 | only on an uninitialized chain; the same effect as `add_condition` |
| Builder.ConditionBuilder.And | src/builder.rs:312-319 | only on an initialized chain; targets the current last group and leaves the set unchanged |
| Builder.ConditionBuilder.Op | src/builder.rs:452-475 | appends exactly one `{pointer, condition}` at the end of the targeted group, every other group and every earlier item unchanged; a malformed pointer or an unconvertible value is excluded, as the source panics on them |
| Builder.ConditionBuilder.Eq | src/builder.rs:359-365 | commits `Condition::Value(v)` for the converted value `v` |
| Builder.ConditionBuilder.Expr | src/builder.rs:477-486 | commits `Expr { value: v, op }` for the converted value `v` |
| Builder.ConditionBuilder.Ne | src/builder.rs:376-382 | commits `Expr { value: v, op: Ne }` |
| Builder.ConditionBuilder.Lt | src/builder.rs:393-399 | commits `Expr { value: v, op: Lt }` |
| Builder.ConditionBuilder.Le | src/builder.rs:410-416 | commits `Expr { value: v, op: Le }` |
| Builder.ConditionBuilder.Ge | src/builder.rs:427-433 | commits `Expr { value: v, op: Ge }` |
| Builder.ConditionBuilder.Gt | src/builder.rs:444-450 | commits `Expr { value: v, op: Gt }` |
| Builder.ConditionBuilder.BeginOr | src/builder.rs:321-331 | only on an initialized, un-nested chain over a non-empty set; appends one empty group and hands over a nested, uninitialized chain that has no `or` |
| Builder.ConditionBuilder.EndOr | src/builder.rs:332-335 | the nested part must have completed a comparison in the new group; the set is unchanged and the chain is un-nested again |
| Builder.CompleteIsWellFormed | src/builder.rs:143-151 | every chain the closure of `hazard` can return has only non-empty groups, and after a `when` one group more than there were `or` calls |
| Builder.Find | src/builder.rs:154 | the linear search returns the first entry with the id, and nothing exactly when no entry has it |
| Builder.FirstUsesAppend | src/builder.rs:154-157 | the defining step of `FirstUses`, stated for `Hazard`'s proof: one more hazard adds its id to the risk ids exactly when it is not there yet |
| Builder.FirstUsesSameIds | src/builder.rs:154-157 | the risk ids are exactly the ids used by the hazards |
| Builder.FirstUsesDistinct | src/builder.rs:154-157 | the risk ids never repeat |
| Builder.FirstUsesOrdered | src/builder.rs:154-157 | the risk ids are in the order of their first use |
| Builder.Builder.constructor | src/builder.rs:105-109 | the default builder has no risks and no hazards |
| Builder.Builder.Hazard | src/builder.rs:143-160 | appends exactly one hazard with the given id, level and the closure's conditions; appends `id.risk()` exactly when no entry has that id yet; keeps risks distinct, in first-use order, and every hazard's groups non-empty |
| Builder.Builder.Build | src/builder.rs:165-168 | returns the accumulated risks and hazards unchanged and in order; the risk ids are distinct and are exactly the hazards' ids, and every group is non-empty |

## Left out

- The serde attributes and untagged enums (JSON wire format, field renames, the lowercase operation tokens): encoding is done by the serde libraries, whose code is not part of this model.
- The validator of the `jsonptr` crate is not part of this model; `ValidPointer` states the grammar of section 3 of RFC 6901 in its place.
- `serde_json::Number::from_f64` and floating point: a float is represented by its class (finite with its real value, infinite, NaN), and an `f32` stands for its exact widening to `f64`.
- `isize` and `usize` are taken to be 64 bits wide.
- A `serde_json::Number` integer lies in the range of `i64` or `u64`; `Conditions.Number.Int` admits any integer, and no property of the model depends on that bound.
- The text of the risk catalogue (src/risk.rs) is not transcribed: `Hazards.IdRisk` reads it from a `Catalogue` parameter (held by `Builder.Builder` as a constant), and only the entry's id is fixed by the model. The source's catalogue has no `BURN` or `SCALD` entries although `Id::risk` refers to them.
- The 24 shorthand methods generated by `impl_builder_hazard!` (`fire_hazard`, `explosion`, ...): each is `hazard` with a fixed id, so `Builder.Builder.Hazard` covers them.
- Closures, ownership and lifetimes: the closure of `hazard` is the caller's calls on a fresh `ConditionBuilder`, the closure of `or` the calls between `BeginOr` and `EndOr`; the exclusive `&mut` buffer is a field of one object, and the typestate ghost fields checked by preconditions.
- Builder.ConditionBuilder.Op: the panics on a malformed pointer or a non-finite float are preconditions, so the model says nothing about the aborted build.
- Hazards.EvalOrMeansHolds: what a consumer makes of a hazard with an empty condition set is not stated by the source; the formula of an empty set is the empty disjunction, false.
- `src/lib.rs` (the per-affordance variant of the extension and its `wot_td` plumbing) is not part of this model.
