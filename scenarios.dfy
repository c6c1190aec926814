/**
 * Concrete transition lists and what construction makes of them: the
 * wildcard scenario of tests/test.rs and the error cases of the compiler.
 */
module Scenarios {
  import opened Types
  import opened Events
  import opened Data
  import opened Table
  import opened TableLemmas

  /** `from + ev = to`, with `*` before `from` when `start`; no guard, action or payload. */
  function Plain(from: string, start: bool, ev: string, to: string): StateTransition
  {
    StateTransition(InputState(from, start, false, None), Event(ev, None), None, None, OutputState(to, false, None))
  }

  /** `_ + ev = to`. */
  function Wild(ev: string, to: string): StateTransition
  {
    StateTransition(InputState("_", false, true, None), Event(ev, None), None, None, OutputState(to, false, None))
  }

  /** `*State1 + Event1 = State2, _ + Event1 = Fault` */
  function WildcardExample(): seq<StateTransition>
  {
    [Plain("State1", true, "Event1", "State2"), Wild("Event1", "Fault")]
  }

  /** The example has no internal transition to resolve. */
  lemma WildcardExampleResolved()
    ensures ResolvedAll(WildcardExample()) == WildcardExample()
  {
  }

  /** The first pass over the example registers State1, State2 and Fault, none with data. */
  lemma WildcardExampleRegistries()
    ensures CollectAll(WildcardExample()).Ok?
    ensures CollectAll(WildcardExample()).value.states == {"State1", "State2", "Fault"}
    ensures !CollectAll(WildcardExample()).value.stateData.HasData("State1")
    ensures !CollectAll(WildcardExample()).value.stateData.HasData("State2")
    ensures !CollectAll(WildcardExample()).value.stateData.HasData("Fault")
  {
    var ts := WildcardExample();
    var t1, t2 := ts[0], ts[1];
    assert ts[..1] == [t1];
    assert [t1][..0] == [];
    var reg1 := CollectStep(NoRegistries, t1).value;
    assert CollectAll([t1]) == Ok(reg1);
    var reg := CollectStep(reg1, t2).value;
    assert CollectAll(ts) == Ok(reg);
  }

  /** Construction of the example succeeds, starting in State1. */
  lemma WildcardExampleCompiles()
    ensures Compile(WildcardExample()).Ok?
    ensures Compile(WildcardExample()).value.startingState == "State1"
    ensures Compile(WildcardExample()).value.states == {"State1", "State2", "Fault"}
  {
    var ts := WildcardExample();
    var t1, t2 := ts[0], ts[1];
    WildcardExampleResolved();
    assert FirstStart(ts, 1) == None;
    assert FindStart(ts) == Ok("State1");
    WildcardExampleRegistries();
    var reg := CollectAll(ts).value;
    CollectAllSlots(ts);
    var sd := reg.stateData;
    assert ts[..1] == [t1];
    assert [t1][..0] == [];
    var tm1 := WithAlternative(reg.mapping, "State1", "Event1", Transition(None, None, "State2"));
    assert LinkAll([t1], reg.states, sd, reg.mapping) == Ok(tm1);
    assert "Event1" !in tm1["Fault"];
    assert Expansion(t2, reg.states, sd, tm1).Ok?;
  }

  /** The slots the reference definition gives for the example's event. */
  lemma WildcardExampleAlternatives()
    ensures Alternatives(WildcardExample(), "State1", "Event1") == [Transition(None, None, "State2")]
    ensures Alternatives(WildcardExample(), "State2", "Event1") == [Transition(None, None, "Fault")]
    ensures Alternatives(WildcardExample(), "Fault", "Event1") == [Transition(None, None, "Fault")]
  {
    var ts := WildcardExample();
    assert ts[..1] == [ts[0]];
    assert [ts[0]][..0] == [];
  }

  /** The slot the constructed example holds for `state` and Event1 is the reference one. */
  lemma WildcardExampleSlot(state: string)
    requires state in {"State1", "State2", "Fault"}
    ensures Compile(WildcardExample()).Ok?
    ensures state in Compile(WildcardExample()).value.statesEventsMapping
    ensures "Event1" in Compile(WildcardExample()).value.statesEventsMapping[state]
    ensures Compile(WildcardExample()).value.statesEventsMapping[state]["Event1"].transitions
         == Alternatives(WildcardExample(), state, "Event1")
  {
    WildcardExampleCompiles();
    WildcardExampleResolved();
    WildcardExampleAlternatives();
    CompiledSlot(WildcardExample(), state, "Event1");
  }

  /** State1 keeps its own alternative: the wildcard does not override it. */
  lemma WildcardExampleState1()
    ensures Compile(WildcardExample()).Ok?
    ensures "State1" in Compile(WildcardExample()).value.statesEventsMapping
    ensures "Event1" in Compile(WildcardExample()).value.statesEventsMapping["State1"]
    ensures Compile(WildcardExample()).value.statesEventsMapping["State1"]["Event1"].transitions == [Transition(None, None, "State2")]
  {
    WildcardExampleSlot("State1");
    WildcardExampleAlternatives();
  }

  /** State2 is routed to Fault by the wildcard. */
  lemma WildcardExampleState2()
    ensures Compile(WildcardExample()).Ok?
    ensures "State2" in Compile(WildcardExample()).value.statesEventsMapping
    ensures "Event1" in Compile(WildcardExample()).value.statesEventsMapping["State2"]
    ensures Compile(WildcardExample()).value.statesEventsMapping["State2"]["Event1"].transitions == [Transition(None, None, "Fault")]
  {
    WildcardExampleSlot("State2");
    WildcardExampleAlternatives();
  }

  /** Fault, the wildcard's own destination, is routed to itself. */
  lemma WildcardExampleFault()
    ensures Compile(WildcardExample()).Ok?
    ensures "Fault" in Compile(WildcardExample()).value.statesEventsMapping
    ensures "Event1" in Compile(WildcardExample()).value.statesEventsMapping["Fault"]
    ensures Compile(WildcardExample()).value.statesEventsMapping["Fault"]["Event1"].transitions == [Transition(None, None, "Fault")]
  {
    WildcardExampleSlot("Fault");
    WildcardExampleAlternatives();
  }

  /**
   * `*State1 + Event1 = State2, _ + Event1 = Fault`: the wildcard leaves the
   * slot State1 already filled alone and routes State2 and Fault to Fault.
   */
  lemma WildcardAfterInputState()
    ensures Compile(WildcardExample()).Ok?
    ensures Compile(WildcardExample()).value.startingState == "State1"
    ensures forall s :: s in {"State1", "State2", "Fault"} ==>
              s in Compile(WildcardExample()).value.statesEventsMapping &&
              "Event1" in Compile(WildcardExample()).value.statesEventsMapping[s]
    ensures Compile(WildcardExample()).value.statesEventsMapping["State1"]["Event1"].transitions == [Transition(None, None, "State2")]
    ensures Compile(WildcardExample()).value.statesEventsMapping["State2"]["Event1"].transitions == [Transition(None, None, "Fault")]
    ensures Compile(WildcardExample()).value.statesEventsMapping["Fault"]["Event1"].transitions == [Transition(None, None, "Fault")]
  {
    WildcardExampleCompiles();
    WildcardExampleState1();
    WildcardExampleState2();
    WildcardExampleFault();
  }

  /** The start marker is counted per transition: two transitions out of `*S1` are rejected. */
  lemma StartMarkerCountsTransitions()
    ensures Compile([Plain("S1", true, "E1", "S2"), Plain("S1", true, "E2", "S3")]) == Err(MultipleStartingStates)
  {
    var ts := [Plain("S1", true, "E1", "S2"), Plain("S1", true, "E2", "S3")];
    assert ts[0].inState.start && ts[1].inState.start;
    CompileStart(ts);
  }

  /** A wildcard whose event every state already handles is rejected. */
  lemma WildcardWithoutEffect()
    ensures Compile([Plain("S1", true, "E", "S1"), Wild("E", "S1")]) == Err(WildcardHasNoEffect)
  {
    var t1, t2 := Plain("S1", true, "E", "S1"), Wild("E", "S1");
    var ts := [t1, t2];
    assert ResolvedAll(ts) == ts;
    assert FirstStart(ts, 1) == None;
    assert [t1, t2][..1] == [t1];
    assert [t1][..0] == [];
    var reg1 := CollectStep(NoRegistries, t1).value;
    assert CollectAll([t1]) == Ok(reg1);
    var reg := CollectStep(reg1, t2).value;
    assert CollectAll(ts) == Ok(reg);
    assert reg.states == {"S1"};
    var tm1 := WithAlternative(reg.mapping, "S1", "E", Transition(None, None, "S1"));
    assert LinkAll([t1], reg.states, reg.stateData, reg.mapping) == Ok(tm1);
    assert "E" in tm1["S1"];
  }

  /** A transition into a data-carrying state is rejected without an action and accepted with one. */
  lemma DataNeedsAction(ty: Ty, action: AsyncIdent)
    ensures var bare := StateTransition(InputState("S1", true, false, None), Event("E", None), None, None,
                                        OutputState("S2", false, Some(ty)));
            && Compile([bare]) == Err(MissingActionForData)
            && Compile([bare.(action := Some(action))]).Ok?
  {
    var bare := StateTransition(InputState("S1", true, false, None), Event("E", None), None, None,
                                OutputState("S2", false, Some(ty)));
    var acted := bare.(action := Some(action));
    forall t | t in {bare, acted}
      ensures ResolvedAll([t]) == [t] && FirstStart([t], 1) == None
      ensures CollectAll([t]) == CollectStep(NoRegistries, t)
      ensures CollectStep(NoRegistries, t).Ok?
      ensures CollectStep(NoRegistries, t).value.stateData.HasData("S2")
    {
      assert [t][..0] == [];
    }
    var reg := CollectStep(NoRegistries, bare).value;
    assert LinkAll([bare], reg.states, reg.stateData, reg.mapping) == Inserted(bare, reg.stateData, reg.mapping);
    var reg' := CollectStep(NoRegistries, acted).value;
    assert LinkAll([acted], reg'.states, reg'.stateData, reg'.mapping) == Inserted(acted, reg'.stateData, reg'.mapping);
  }
}
