# smlang semantic pass, modelled in Dafny

smlang's `statemachine!` macro first parses a list of transitions of the form
`*Start + Event(Payload) [guard] / action = Target`. `ParsedStateMachine::new`
then turns that list into a validated transition table. This project models
that step, its helper `add_transition`, the table records `EventMapping` and
`Transition`, and the event parser `Event::parse`. It proves what the
construction promises.

`new` works in three steps:

1. Internal transitions, meaning "stay in the current state", get their input state as destination.
2. Exactly one transition may carry the start marker `*`.
3. The table is built in two loops:
   - The first loop registers states, events and payload types, and seeds an empty event map for every state.
   - The second loop files each transition, in declaration order. A concrete transition goes into its (state, event) slot. A wildcard `_` is copied into every state that has no entry yet for its event.

The second loop rejects two things:

- a wildcard that adds nothing;
- a transition into a data-carrying state that has no action.

The model is layered like the source.

- **`Parser` (parser.dfy)** holds the imperative code as methods:
  - the in-place rewrite of the transition buffer;
  - the two loops, each returning at the first error;
  - the wildcard loop, which visits the states in an arbitrary order;
  - `add_transition`.

  Every method is proved equal to a function of `Table`.
- **`Table` (table.dfy)** states the same computation as functions over
  prefixes of the transition list, together with the first-pass lemmas.
- **`TableLemmas` (table_lemmas.dfy)** proves what the finished table means.
  It compares each slot with an independent per-slot definition,
  `Alternatives`, that reads the transition list directly. It also proves
  that every alternative into a data-carrying state names an action.
- **`Events` (event.dfy)** is the pure event parser over an abstract token stream, with its round trip.
- **`Data` (data.dfy)** is the payload-type registry.
- **`Scenarios` (scenarios.dfy)** works through the wildcard example of the test suite and the error cases.

## Model

| member | source | states |
|---|---|---|
| Events.Parse | macros/src/parser/event.rs:23-57 | `+` then an identifier are required, else `ExpectedPlus` / `ExpectedIdent`; with no parenthesis the payload is none and only `+ Name` is consumed; a parenthesised type is accepted exactly when its kind is Array, Path, Ptr, Reference, Slice or Tuple (then `Some` of it), otherwise `UnsupportedEventType`; an accepted payload always has a supported kind |
| Events.ParseTokens | macros/src/parser/event.rs:26-56 | every event with a supported payload kind, or none, is read back from its own tokens, leaving whatever follows untouched, except that an event without payload followed by a parenthesised group is not covered, because the parser reads that group as its payload (event.rs:30) |
| Events.TokensOfParse | macros/src/parser/event.rs:26-56 | conversely, an accepted input is exactly the event's tokens followed by the returned rest |
| Events.UnsupportedKindRefused | macros/src/parser/event.rs:36-48 | a payload of any kind outside the whitelist is refused whatever follows it |
| Data.DataDefinitions.TypeOf | macros/src/parser/mod.rs:202 | the looked-up payload type exists exactly when the name was declared with one |
| Data.Collect | macros/src/parser/mod.rs:156-164 | a declaration is accepted iff the name is new or was declared with the same type; on success only that name's entry is added, every earlier entry is kept; otherwise it fails naming the conflicting name |
| Table.ResolvedAll | macros/src/parser/mod.rs:116-125 | one transition per input transition; after the rewrite only wildcard transitions are internal; a concrete internal transition gets the input state's name and payload type with the flag cleared; every other transition is unchanged |
| Table.FirstStart | macros/src/parser/mod.rs:128 | finds the first start-marked transition at or after a position, or proves there is none |
| Table.FindStart | macros/src/parser/mod.rs:128-143 | `NoStartingState` iff no transition is start-marked; `MultipleStartingStates` iff two different transitions are (transitions are counted, not states); success iff exactly one is, and the start is that transition's input state |
| Table.CollectStep | macros/src/parser/mod.rs:151-180 | one first-pass iteration adds the concrete input state and the non-internal output state to the states and the table (with an empty event map), adds the event, records every declaration it made and keeps every earlier one; it can only fail with a conflicting definition |
| Table.CollectAll | macros/src/parser/mod.rs:151-180 | the first pass can only fail with a conflicting definition |
| Table.CollectAllStops | macros/src/parser/mod.rs:151-180 | the first conflicting declaration decides the outcome of the whole pass |
| Table.CollectAllStates | macros/src/parser/mod.rs:151-166 | the registered states are exactly the non-wildcard input states and the non-internal output states |
| Table.CollectAllSlots | macros/src/parser/mod.rs:172-179 | the table's keys are exactly the registered states, and every seeded event map is empty |
| Table.CollectAllEvents | macros/src/parser/mod.rs:168-170 | the registered events are exactly the events named by some transition |
| Table.CollectAllDeclared | macros/src/parser/mod.rs:156-170 | after a successful pass every declaration of every transition is the one recorded |
| Table.CollectAllLinkable | macros/src/parser/mod.rs:172-191 | every input-state lookup of the second pass finds its key, so the `unwrap`s never fail |
| Table.WithAlternative | macros/src/parser/mod.rs:68-93 | a vacant slot gets a new mapping with exactly the one alternative, an occupied one gets it appended at the end; no other slot and no other state changes |
| Table.Inserted | macros/src/parser/mod.rs:63-110 | `add_transition`'s outcome: refused, with the missing-action error, exactly when the destination has registered data and no action is given; otherwise the table keeps its states and other slots, the slot gains the event, and its alternatives are the old ones (none for a vacant slot) followed by this transition's guard, action and destination |
| Table.Synthesized | macros/src/parser/mod.rs:197-217 | the instantiated transition starts at the state with the state's registered payload type, copies event, guard and action, and resolves an internal destination to that state and its payload type |
| Table.Expansion | macros/src/parser/mod.rs:184-238 | a wildcard fails with "no effect" iff every registered state already has the event, fails with the missing-action error iff it has no action and some candidate's destination carries data, and otherwise gives every state lacking the event exactly one alternative and leaves every other slot alone |
| Table.LinkStep | macros/src/parser/mod.rs:182-242 | a second-pass step never adds or removes a state |
| Table.LinkAll | macros/src/parser/mod.rs:182-242 | the second pass keeps the table's set of states |
| Table.LinkAllStops | macros/src/parser/mod.rs:222-240 | the first error of the second pass decides its outcome |
| TableLemmas.LinkStepSlot | macros/src/parser/mod.rs:184-241 | one step keeps every registered slot equal to its reference value, in declaration order |
| TableLemmas.LinkAllSlots | macros/src/parser/mod.rs:182-242 | after the second pass every registered (state, event) slot is present exactly when the reference list `Alternatives` is non-empty, and holds that list in declaration order |
| TableLemmas.LinkStepDataHasAction | macros/src/parser/mod.rs:95-110 | a successful step keeps every alternative into a data-carrying state tied to an action |
| TableLemmas.LinkAllDataHasAction | macros/src/parser/mod.rs:95-110 | after a successful second pass no alternative leads to a data-carrying state without an action |
| TableLemmas.ResolvedKeepsInput | macros/src/parser/mod.rs:116-125 | the rewrite changes neither input states, nor events, nor which states a transition registers |
| TableLemmas.ResolvedIdempotent | macros/src/parser/mod.rs:116-125 | rewriting twice is rewriting once |
| TableLemmas.CompileStart | macros/src/parser/mod.rs:128-143 | construction fails without a start marker, fails with two start-marked transitions, and on success starts in the input state of the unique start-marked transition |
| TableLemmas.CompileStates | macros/src/parser/mod.rs:151-180 | the machine's states are the concrete input and non-internal output states, and they are exactly the table's keys |
| TableLemmas.CompileEvents | macros/src/parser/mod.rs:167-170 | the machine's events are exactly the events named |
| TableLemmas.CompileTable | macros/src/parser/mod.rs:182-242 | every slot of the built machine is its reference list, and every alternative into a data-carrying state names an action |
| TableLemmas.CompiledSlotsWellFormed | macros/src/parser/mod.rs:63-93 | keys are the registered states (never a wildcard), and every slot is a non-empty list filed under its own state and event |
| TableLemmas.CompiledSlot | macros/src/parser/mod.rs:182-242 | a registered state's slot for an event is present exactly when its reference list is non-empty, and equals it |
| Parser.AddTransition | macros/src/parser/mod.rs:63-110 | the table after the call is the one with the alternative inserted or appended; the call fails, with the missing-action error, exactly when the destination has registered data and no action is given; with the table this is exactly `Inserted` |
| Parser.ResolveInternalTransitions | macros/src/parser/mod.rs:116-125 | the buffer is rewritten in place, each element to its resolved form |
| Parser.CollectRegistries | macros/src/parser/mod.rs:145-180 | the first loop, returning at the first failed `collect`, computes `CollectAll` |
| Parser.ExpandWildcard | macros/src/parser/mod.rs:184-238 | the wildcard loop computes `Expansion` whatever order it visits the states in |
| Parser.ExpansionRefused | macros/src/parser/mod.rs:222-226 | a candidate whose instantiation lacks the action for its data makes the wildcard fail |
| Parser.ExpansionWithoutEffect | macros/src/parser/mod.rs:233-238 | a wildcard with no candidate fails with "no effect" |
| Parser.ExpansionAccepted | macros/src/parser/mod.rs:184-238 | with at least one candidate and none refused, every candidate's slot is filled |
| Parser.ExpandedOneMore | macros/src/parser/mod.rs:189-228 | visiting one more state leaves its slot untouched if it already has the event and otherwise adds exactly that one alternative |
| Parser.ExpandingOneMore | macros/src/parser/mod.rs:222-228 | visiting an accepted candidate keeps the wildcard loop's invariant and sets the added flag |
| Parser.ExpandingPast | macros/src/parser/mod.rs:193-195 | skipping a state that already has the event keeps the invariant and the flag |
| Parser.LinkTransitions | macros/src/parser/mod.rs:182-242 | the second loop, returning at the first error, computes `LinkAll` |
| Table.Compile | macros/src/parser/mod.rs:114-258 | a missing or repeated start marker is reported before anything else; then the first pass's error; when both succeed the result is `Ok` exactly when the second pass is, with the second pass's error otherwise; a built machine holds the found start, the first pass's registries, and a table with exactly one entry per registered state |
| Parser.New | macros/src/parser/mod.rs:114-258 | construction by the methods above gives exactly `Compile`, so every `TableLemmas` property holds of its result |
| Scenarios.WildcardExampleResolved | tests/test.rs:17-18 | the example has nothing to rewrite |
| Scenarios.WildcardExampleRegistries | tests/test.rs:17-18 | the example registers State1, State2 and Fault, none with data |
| Scenarios.WildcardExampleCompiles | tests/test.rs:14-20 | the example is accepted and starts in State1 |
| Scenarios.WildcardExampleAlternatives | tests/test.rs:17-18 | the reference lists of the example's Event1 slots |
| Scenarios.WildcardExampleSlot | macros/src/parser/mod.rs:182-242 | each of the example's Event1 slots holds its reference list |
| Scenarios.WildcardExampleState1 | tests/test.rs:27-28 | State1 on Event1 goes to State2 only, not overridden by the wildcard |
| Scenarios.WildcardExampleState2 | tests/test.rs:30-31 | State2 on Event1 goes to Fault |
| Scenarios.WildcardExampleFault | macros/src/parser/mod.rs:184-229 | Fault, registered as the wildcard's destination, also gets the wildcard's alternative |
| Scenarios.WildcardAfterInputState | tests/test.rs:14-32 | the whole example: start State1, State1 to State2, State2 and Fault to Fault |
| Scenarios.StartMarkerCountsTransitions | macros/src/parser/mod.rs:128-143 | two transitions out of the same start-marked state are rejected as multiple starting states |
| Scenarios.WildcardWithoutEffect | macros/src/parser/mod.rs:233-238 | a wildcard whose event every state already handles is rejected |
| Scenarios.DataNeedsAction | macros/src/parser/mod.rs:95-110 | a transition into a data-carrying state is rejected without an action and accepted with one |

Three predicates carry no contract of their own and are stated through the rows that use them: `Table.Resolved` (mod.rs:117-124) is the per-transition rewrite that `Table.ResolvedAll` describes; `Data.DataDefinitions.HasData` (mod.rs:96-98) is the registry membership test that `Data.DataDefinitions.TypeOf` and `Parser.AddTransition` are stated with; `Table.LacksActionForData` (mod.rs:95-108) is the refusal condition that `Table.Inserted` spells out.

## Left out

- Spans, `Ident` and `syn::Type`: identifiers are strings. A type is a kind plus a spelling. Errors are a datatype without a location.
- Diagnostic texts are left out: errors are datatype values. The registry's conflict error keeps only the name; its message wording belongs to macros/src/parser/data.rs.
- Data.Collect: macros/src/parser/data.rs is not part of this model. Its rule (new name recorded, identical redeclaration a no-op, different type refused) is the rule this model assumes for the registry, not code. Under this rule a typed and an untyped mention of the same name conflict: `*S1 + E / a = S2(T), S2 + E2 = S1` is refused with a conflicting definition of S2. mod.rs cannot settle this either way, since it only shows that the registry holds the typed names (mod.rs:96-98, 202). Table.CollectAllDeclared holds only because of this rule.
- macros/src/parser/input_state.rs, output_state.rs, transition.rs and state_machine.rs are not part of this model. The records keep only the fields the pass reads.
- `states` and `events` are sets of names. The source's maps from name to `Ident` add only spans.
- `AsyncIdent::to_token_stream` and its `Display` implementation (mod.rs:23-44) are code-emission helpers and are left out.
- The pass-through fields `name`, `states_attr`, `events_attr`, `temporary_context_type`, `custom_error` and `entry_exit_async` carry no logic and are left out.
- The generated runtime dispatcher, async guards and actions are left out. The test file is used only for the table its example builds.
- HashMap iteration order:
  - `Parser.ExpandWildcard` picks each next state arbitrarily, and its result is proved independent of the choice.
  - The order in which a failing wildcard meets its first refused state is not observable here, because errors carry no location.
- Events.Parse: a parenthesised type is one token. The Rust type grammar belongs to syn's front end.
  - Tokens left inside the parentheses after the type are refused at once. syn reports them once the enclosing parse ends.
- Parser.New: the transitions arrive as a sequence and are copied into a fresh array before the in-place rewrite. The source mutates its own vector.
