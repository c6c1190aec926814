/**
 * The transition-table compiler of macros/src/parser/mod.rs, stated as
 * functions: what `ParsedStateMachine::new` and `add_transition` compute.
 * The methods of module Parser carry out the same computation step by step
 * and are proved equal to these functions; the properties the compiler
 * promises are proved about them in module TableLemmas.
 *
 * The records a transition is made of (input_state.rs, output_state.rs and
 * transition.rs) are not part of this model; they are reduced here to the
 * fields the compiler reads.  Identifiers are their strings.
 */
module Table {
  import opened Types
  import opened Events
  import opened Data

  /** The state a transition starts from; `start` is the `*` marker, `wildcard` the `_` placeholder. */
  datatype InputState = InputState(ident: string, start: bool, wildcard: bool, dataType: Option<Ty>)

  /** The destination; `internalTransition` means "stay in the current state". */
  datatype OutputState = OutputState(ident: string, internalTransition: bool, dataType: Option<Ty>)

  /** One line of the transition list: `in + event [guard] / action = out`. */
  datatype StateTransition = StateTransition(
    inState: InputState,
    event: Event,
    guard: Option<GuardExpression>,
    action: Option<AsyncIdent>,
    outState: OutputState)

  /** State name, then event name, to the alternatives of that slot. */
  type TransitionMap = map<string, map<string, EventMapping>>

  /** The compiled machine (the fields that only pass configuration through are left out). */
  datatype ParsedStateMachine = ParsedStateMachine(
    states: set<string>,
    startingState: string,
    stateData: DataDefinitions,
    events: set<string>,
    eventData: DataDefinitions,
    statesEventsMapping: TransitionMap)

  // ---------------------------------------------------------------------------
  // Step 1: internal transitions of concrete states get their destination

  /** An internal transition from a concrete state goes to that state, with its payload type. */
  function Resolved(t: StateTransition): StateTransition
  {
    if t.outState.internalTransition && !t.inState.wildcard then
      t.(outState := OutputState(t.inState.ident, false, t.inState.dataType))
    else
      t
  }

  /**
   * The rewrite of the whole list: only wildcard transitions stay internal, a
   * concrete internal transition goes to its own input state with that
   * state's payload type, and every other transition is left as it was.
   */
  function ResolvedAll(ts: seq<StateTransition>): (rs: seq<StateTransition>)
    ensures |rs| == |ts|
    ensures forall i :: 0 <= i < |ts| && rs[i].outState.internalTransition ==> ts[i].inState.wildcard
    ensures forall i :: 0 <= i < |ts| && ts[i].outState.internalTransition && !ts[i].inState.wildcard ==>
              rs[i] == ts[i].(outState := OutputState(ts[i].inState.ident, false, ts[i].inState.dataType))
    ensures forall i :: 0 <= i < |ts| && !(ts[i].outState.internalTransition && !ts[i].inState.wildcard) ==>
              rs[i] == ts[i]
  {
    seq(|ts|, i requires 0 <= i < |ts| => Resolved(ts[i]))
  }

  // ---------------------------------------------------------------------------
  // Step 2: exactly one transition carries the start marker

  /** The index of the first start-marked transition at or after `from`, as `filter(..).next()` finds it. */
  function FirstStart(ts: seq<StateTransition>, from: nat): (r: Option<nat>)
    requires from <= |ts|
    ensures r.None? ==> forall j :: from <= j < |ts| ==> !ts[j].inState.start
    ensures r.Some? ==> from <= r.value < |ts| && ts[r.value].inState.start &&
                        forall j :: from <= j < r.value ==> !ts[j].inState.start
    decreases |ts| - from
  {
    if from == |ts| then None
    else if ts[from].inState.start then Some(from)
    else FirstStart(ts, from + 1)
  }

  /** The starting state: the input state of the one start-marked transition. */
  function FindStart(ts: seq<StateTransition>): (r: Result<string, CompileError>)
    ensures r == Err(NoStartingState) <==> forall i :: 0 <= i < |ts| ==> !ts[i].inState.start
    ensures r == Err(MultipleStartingStates) <==>
              exists i, j :: 0 <= i < j < |ts| && ts[i].inState.start && ts[j].inState.start
    ensures r.Ok? <==> exists i :: 0 <= i < |ts| && ts[i].inState.start && OnlyStart(ts, i)
    ensures r.Ok? ==> exists i :: 0 <= i < |ts| && ts[i].inState.start && r.value == ts[i].inState.ident
    ensures r.Ok? || r == Err(NoStartingState) || r == Err(MultipleStartingStates)
  {
    match FirstStart(ts, 0)
    case None => Err(NoStartingState)
    case Some(i) =>
      if FirstStart(ts, i + 1).Some? then
        var j := FirstStart(ts, i + 1).value;
        assert !OnlyStart(ts, i) by { assert ts[j].inState.start; }
        Err(MultipleStartingStates)
      else
        Ok(ts[i].inState.ident)
  }

  /** No transition other than the `i`-th carries the start marker. */
  predicate OnlyStart(ts: seq<StateTransition>, i: nat)
  {
    forall j :: 0 <= j < |ts| && j != i ==> !ts[j].inState.start
  }

  // ---------------------------------------------------------------------------
  // Step 3, first pass: registries of states and events, and empty slots

  /** What the first pass has gathered so far. */
  datatype Registries = Registries(
    states: set<string>,
    stateData: DataDefinitions,
    events: set<string>,
    eventData: DataDefinitions,
    mapping: TransitionMap)

  const NoRegistries := Registries({}, NoDefinitions, {}, NoDefinitions, map[])

  /** The transition makes `s` a state of the machine: as its concrete input or its non-internal output. */
  predicate RegistersState(t: StateTransition, s: string)
  {
    (!t.inState.wildcard && t.inState.ident == s) || (!t.outState.internalTransition && t.outState.ident == s)
  }

  /** Every declaration the transition makes agrees with the registries. */
  predicate DeclaredIn(t: StateTransition, reg: Registries)
  {
    && (!t.inState.wildcard ==> t.inState.ident in reg.stateData.declared &&
                                 reg.stateData.declared[t.inState.ident] == t.inState.dataType)
    && (!t.outState.internalTransition ==> t.outState.ident in reg.stateData.declared &&
                                            reg.stateData.declared[t.outState.ident] == t.outState.dataType)
    && t.event.ident in reg.eventData.declared && reg.eventData.declared[t.event.ident] == t.event.dataType
  }

  /** Every declaration `reg` holds is still held, unchanged, by `reg'`. */
  predicate Extends(reg: Registries, reg': Registries)
  {
    && (forall n :: n in reg.stateData.declared ==>
          n in reg'.stateData.declared && reg'.stateData.declared[n] == reg.stateData.declared[n])
    && (forall n :: n in reg.eventData.declared ==>
          n in reg'.eventData.declared && reg'.eventData.declared[n] == reg.eventData.declared[n])
  }

  /** One iteration of the first pass. */
  function CollectStep(reg: Registries, t: StateTransition): (r: Result<Registries, CompileError>)
    ensures r.Ok? ==> forall s :: s in r.value.states <==> s in reg.states || RegistersState(t, s)
    ensures r.Ok? ==> forall s :: s in r.value.mapping <==> s in reg.mapping || RegistersState(t, s)
    ensures r.Ok? ==> forall s :: s in r.value.mapping ==>
                        r.value.mapping[s] == if RegistersState(t, s) then map[] else reg.mapping[s]
    ensures r.Ok? ==> r.value.events == reg.events + {t.event.ident}
    ensures r.Ok? ==> DeclaredIn(t, r.value) && Extends(reg, r.value)
    ensures r.Err? ==> r.error.ConflictingDefinition?
  {
    var sd1 :- if t.inState.wildcard then Ok(reg.stateData)
               else Collect(reg.stateData, t.inState.ident, t.inState.dataType);
    var sd2 :- if t.outState.internalTransition then Ok(sd1)
               else Collect(sd1, t.outState.ident, t.outState.dataType);
    var ed :- Collect(reg.eventData, t.event.ident, t.event.dataType);
    var states1 := if t.inState.wildcard then reg.states else reg.states + {t.inState.ident};
    var states2 := if t.outState.internalTransition then states1 else states1 + {t.outState.ident};
    var m1 := if t.inState.wildcard then reg.mapping else reg.mapping[t.inState.ident := map[]];
    var m2 := if t.outState.internalTransition then m1 else m1[t.outState.ident := map[]];
    Ok(Registries(states2, sd2, reg.events + {t.event.ident}, ed, m2))
  }

  lemma DeclaredInExtends(t: StateTransition, reg: Registries, reg': Registries)
    requires DeclaredIn(t, reg) && Extends(reg, reg')
    ensures DeclaredIn(t, reg')
  {
  }

  /** The first pass over a transition list; only the registry can make it fail. */
  function CollectAll(ts: seq<StateTransition>): (r: Result<Registries, CompileError>)
    ensures r.Err? ==> r.error.ConflictingDefinition?
    decreases |ts|
  {
    if ts == [] then Ok(NoRegistries)
    else
      var reg :- CollectAll(ts[..|ts| - 1]);
      CollectStep(reg, ts[|ts| - 1])
  }

  /** The first pass stops at the first conflicting declaration: later transitions change nothing. */
  lemma {:induction false} CollectAllStops(ts: seq<StateTransition>, i: nat)
    requires i <= |ts|
    requires CollectAll(ts[..i]).Err?
    ensures CollectAll(ts) == CollectAll(ts[..i])
    decreases |ts|
  {
    if i < |ts| {
      assert ts[..|ts| - 1][..i] == ts[..i];
      CollectAllStops(ts[..|ts| - 1], i);
    } else {
      assert ts[..i] == ts;
    }
  }

  /** The states the first pass registers are the concrete inputs and the non-internal outputs, nothing else. */
  lemma {:induction false} CollectAllStates(ts: seq<StateTransition>)
    requires CollectAll(ts).Ok?
    ensures forall s :: s in CollectAll(ts).value.states <==> exists i :: 0 <= i < |ts| && RegistersState(ts[i], s)
    decreases |ts|
  {
    if ts != [] {
      var prefix := ts[..|ts| - 1];
      CollectAllStates(prefix);
      forall s ensures s in CollectAll(ts).value.states <==> exists i :: 0 <= i < |ts| && RegistersState(ts[i], s) {
        RegisteredByPrefixOrLast(ts, prefix, s);
      }
    }
  }

  /** A state is registered by a non-empty list exactly when its prefix or its last transition registers it. */
  lemma RegisteredByPrefixOrLast(ts: seq<StateTransition>, prefix: seq<StateTransition>, s: string)
    requires ts != [] && prefix == ts[..|ts| - 1]
    ensures (exists i :: 0 <= i < |ts| && RegistersState(ts[i], s)) <==>
            (exists i :: 0 <= i < |prefix| && RegistersState(prefix[i], s)) || RegistersState(ts[|ts| - 1], s)
  {
    if exists i :: 0 <= i < |ts| && RegistersState(ts[i], s) {
      var i :| 0 <= i < |ts| && RegistersState(ts[i], s);
      if i < |prefix| { assert RegistersState(prefix[i], s); }
    }
    if exists i :: 0 <= i < |prefix| && RegistersState(prefix[i], s) {
      var i :| 0 <= i < |prefix| && RegistersState(prefix[i], s);
      assert RegistersState(ts[i], s);
    }
  }

  /** The first pass seeds one empty event map per registered state, and no other. */
  lemma {:induction false} CollectAllSlots(ts: seq<StateTransition>)
    requires CollectAll(ts).Ok?
    ensures CollectAll(ts).value.mapping.Keys == CollectAll(ts).value.states
    ensures forall s :: s in CollectAll(ts).value.mapping ==> CollectAll(ts).value.mapping[s] == map[]
    decreases |ts|
  {
    if ts != [] {
      CollectAllSlots(ts[..|ts| - 1]);
    }
  }

  /** The events the first pass registers are exactly the events named. */
  lemma {:induction false} CollectAllEvents(ts: seq<StateTransition>)
    requires CollectAll(ts).Ok?
    ensures forall e :: e in CollectAll(ts).value.events <==> exists i :: 0 <= i < |ts| && ts[i].event.ident == e
    decreases |ts|
  {
    if ts != [] {
      var prefix := ts[..|ts| - 1];
      CollectAllEvents(prefix);
      forall e ensures e in CollectAll(ts).value.events <==> exists i :: 0 <= i < |ts| && ts[i].event.ident == e {
        NamedByPrefixOrLast(ts, prefix, e);
      }
    }
  }

  /** An event is named in a non-empty list exactly when its prefix or its last transition names it. */
  lemma NamedByPrefixOrLast(ts: seq<StateTransition>, prefix: seq<StateTransition>, e: string)
    requires ts != [] && prefix == ts[..|ts| - 1]
    ensures (exists i :: 0 <= i < |ts| && ts[i].event.ident == e) <==>
            (exists i :: 0 <= i < |prefix| && prefix[i].event.ident == e) || ts[|ts| - 1].event.ident == e
  {
    if exists i :: 0 <= i < |ts| && ts[i].event.ident == e {
      var i :| 0 <= i < |ts| && ts[i].event.ident == e;
      if i < |prefix| { assert prefix[i].event.ident == e; }
    }
  }

  /** When the first pass succeeds, every payload declaration it met is the one recorded. */
  lemma {:induction false} CollectAllDeclared(ts: seq<StateTransition>)
    requires CollectAll(ts).Ok?
    ensures forall i :: 0 <= i < |ts| ==> DeclaredIn(ts[i], CollectAll(ts).value)
    decreases |ts|
  {
    if ts != [] {
      var prefix, last := ts[..|ts| - 1], ts[|ts| - 1];
      CollectAllDeclared(prefix);
      var reg := CollectAll(prefix).value;
      var reg' := CollectAll(ts).value;
      assert reg' == CollectStep(reg, last).value;
      forall i | 0 <= i < |ts| ensures DeclaredIn(ts[i], reg') {
        if i < |prefix| {
          assert DeclaredIn(prefix[i], reg);
          DeclaredInExtends(ts[i], reg, reg');
        }
      }
    }
  }

  // ---------------------------------------------------------------------------
  // Step 3, second pass: linking transitions into their slots

  /** The alternative a concrete transition contributes to its slot. */
  function Alt(t: StateTransition): Transition
  {
    Transition(t.guard, t.action, t.outState.ident)
  }

  /** The table with `alt` added to slot (s, e): a new mapping if the slot was vacant, else appended. */
  function WithAlternative(tm: TransitionMap, s: string, e: string, alt: Transition): (r: TransitionMap)
    requires s in tm
    ensures r.Keys == tm.Keys
    ensures forall s' :: s' in tm && s' != s ==> r[s'] == tm[s']
    ensures r[s].Keys == tm[s].Keys + {e}
    ensures forall e' :: e' in tm[s] && e' != e ==> r[s][e'] == tm[s][e']
    ensures r[s][e].transitions == (if e in tm[s] then tm[s][e].transitions else []) + [alt]
    ensures e in tm[s] ==> r[s][e].inState == tm[s][e].inState && r[s][e].event == tm[s][e].event
    ensures e !in tm[s] ==> r[s][e].inState == s && r[s][e].event == e
  {
    var slot := if e in tm[s] then tm[s][e].(transitions := tm[s][e].transitions + [alt])
                else EventMapping(s, e, [alt]);
    tm[s := tm[s][e := slot]]
  }

  /** A transition to a state that carries data must name the action that produces the data. */
  predicate LacksActionForData(t: StateTransition, sd: DataDefinitions)
  {
    sd.HasData(t.outState.ident) && t.action.None?
  }

  /** What `add_transition` leaves behind when it returns `Ok`, or the error it returns. */
  function Inserted(t: StateTransition, sd: DataDefinitions, tm: TransitionMap): (r: Result<TransitionMap, CompileError>)
    requires t.inState.ident in tm
    ensures r.Err? <==> sd.HasData(t.outState.ident) && t.action.None?
    ensures r.Err? ==> r.error == MissingActionForData
    ensures r.Ok? ==> var s, e := t.inState.ident, t.event.ident;
                      && r.value.Keys == tm.Keys
                      && (forall s' :: s' in tm && s' != s ==> r.value[s'] == tm[s'])
                      && r.value[s].Keys == tm[s].Keys + {e}
                      && (forall e' :: e' in tm[s] && e' != e ==> r.value[s][e'] == tm[s][e'])
                      && r.value[s][e].transitions == (if e in tm[s] then tm[s][e].transitions else []) + [Alt(t)]
                      && Alt(t) == Transition(t.guard, t.action, t.outState.ident)
  {
    if LacksActionForData(t, sd) then Err(MissingActionForData)
    else Ok(WithAlternative(tm, t.inState.ident, t.event.ident, Alt(t)))
  }

  /** The destination of a wildcard transition instantiated at state `s`. */
  function WildcardOut(t: StateTransition, s: string): string
  {
    if t.outState.internalTransition then s else t.outState.ident
  }

  /** The transition a wildcard template stands for at the concrete state `s`. */
  function Synthesized(t: StateTransition, s: string, sd: DataDefinitions): (r: StateTransition)
    ensures r.inState == InputState(s, false, false, sd.TypeOf(s))
    ensures r.event == t.event && r.guard == t.guard && r.action == t.action
    ensures t.outState.internalTransition ==> r.outState.ident == s && r.outState.dataType == sd.TypeOf(s)
    ensures !t.outState.internalTransition ==> r.outState == t.outState
    ensures Alt(r) == Transition(t.guard, t.action, WildcardOut(t, s))
  {
    var inState := InputState(s, false, false, sd.TypeOf(s));
    var outState := if t.outState.internalTransition
                    then t.outState.(ident := inState.ident, dataType := inState.dataType)
                    else t.outState;
    StateTransition(inState, t.event, t.guard, t.action, outState)
  }

  /** The alternative a wildcard template contributes at state `s`. */
  function WildcardAlt(t: StateTransition, s: string): Transition
  {
    Transition(t.guard, t.action, WildcardOut(t, s))
  }

  /** The registered states that have no entry yet for the template's event. */
  function Candidates(t: StateTransition, states: set<string>, tm: TransitionMap): set<string>
    requires states <= tm.Keys
  {
    set s | s in states && t.event.ident !in tm[s]
  }

  /** The table after the template has been instantiated at every candidate in `within`. */
  function Expanded(t: StateTransition, within: set<string>, tm: TransitionMap): TransitionMap
  {
    map s | s in tm :: if s in within && t.event.ident !in tm[s]
                       then tm[s][t.event.ident := EventMapping(s, t.event.ident, [WildcardAlt(t, s)])]
                       else tm[s]
  }

  /** Expansion of a wildcard transition over the registered states. */
  function Expansion(t: StateTransition, states: set<string>, sd: DataDefinitions, tm: TransitionMap)
    : (r: Result<TransitionMap, CompileError>)
    requires states <= tm.Keys
    ensures r == Err(WildcardHasNoEffect) <==> forall s :: s in states ==> t.event.ident in tm[s]
    ensures r == Err(MissingActionForData) <==>
              t.action.None? && exists s :: s in states && t.event.ident !in tm[s] && sd.HasData(WildcardOut(t, s))
    ensures r.Ok? || r == Err(WildcardHasNoEffect) || r == Err(MissingActionForData)
    ensures r.Ok? ==> r.value.Keys == tm.Keys
    ensures r.Ok? ==> forall s :: s in tm ==>
              r.value[s] == if s in states && t.event.ident !in tm[s]
                            then tm[s][t.event.ident := EventMapping(s, t.event.ident, [WildcardAlt(t, s)])]
                            else tm[s]
  {
    var candidates := Candidates(t, states, tm);
    assert forall s :: s in states && t.event.ident !in tm[s] ==> s in candidates;
    if candidates == {} then Err(WildcardHasNoEffect)
    else if t.action.None? && exists s :: s in candidates && sd.HasData(WildcardOut(t, s)) then Err(MissingActionForData)
    else Ok(Expanded(t, states, tm))
  }

  /** One iteration of the second pass. */
  function LinkStep(t: StateTransition, states: set<string>, sd: DataDefinitions, tm: TransitionMap)
    : (r: Result<TransitionMap, CompileError>)
    requires states <= tm.Keys
    requires !t.inState.wildcard ==> t.inState.ident in tm
    ensures r.Ok? ==> r.value.Keys == tm.Keys
  {
    if t.inState.wildcard then Expansion(t, states, sd, tm) else Inserted(t, sd, tm)
  }

  /** The second pass can look up every slot it needs. */
  predicate Linkable(ts: seq<StateTransition>, states: set<string>, tm: TransitionMap)
  {
    states <= tm.Keys && forall i :: 0 <= i < |ts| && !ts[i].inState.wildcard ==> ts[i].inState.ident in tm
  }

  /** The second pass, in declaration order. */
  function LinkAll(ts: seq<StateTransition>, states: set<string>, sd: DataDefinitions, tm0: TransitionMap)
    : (r: Result<TransitionMap, CompileError>)
    requires Linkable(ts, states, tm0)
    ensures r.Ok? ==> r.value.Keys == tm0.Keys
    decreases |ts|
  {
    if ts == [] then Ok(tm0)
    else
      var tm :- LinkAll(ts[..|ts| - 1], states, sd, tm0);
      LinkStep(ts[|ts| - 1], states, sd, tm)
  }

  /** After a successful first pass, every slot the second pass looks up exists. */
  lemma CollectAllLinkable(ts: seq<StateTransition>)
    requires CollectAll(ts).Ok?
    ensures Linkable(ts, CollectAll(ts).value.states, CollectAll(ts).value.mapping)
  {
    var reg := CollectAll(ts).value;
    CollectAllStates(ts);
    CollectAllSlots(ts);
    forall i | 0 <= i < |ts| && !ts[i].inState.wildcard ensures ts[i].inState.ident in reg.mapping {
      assert RegistersState(ts[i], ts[i].inState.ident);
    }
  }

  /** The second pass stops at the first error: later transitions change nothing. */
  lemma {:induction false} LinkAllStops(ts: seq<StateTransition>, states: set<string>, sd: DataDefinitions,
                                         tm0: TransitionMap, i: nat)
    requires Linkable(ts, states, tm0)
    requires i <= |ts|
    requires LinkAll(ts[..i], states, sd, tm0).Err?
    ensures LinkAll(ts, states, sd, tm0) == LinkAll(ts[..i], states, sd, tm0)
    decreases |ts|
  {
    if i < |ts| {
      var prefix := ts[..|ts| - 1];
      assert prefix[..i] == ts[..i];
      assert Linkable(prefix, states, tm0) by {
        forall j | 0 <= j < |prefix| ensures prefix[j] == ts[j] { }
      }
      LinkAllStops(prefix, states, sd, tm0, i);
    } else {
      assert ts[..i] == ts;
    }
  }

  /** `ParsedStateMachine::new`: resolve internal transitions, check the start marker, then the two passes. */
  function Compile(ts: seq<StateTransition>): (r: Result<ParsedStateMachine, CompileError>)
    // the start marker is checked first, then the first pass, then the second
    ensures FindStart(ResolvedAll(ts)).Err? ==> r == Err(FindStart(ResolvedAll(ts)).error)
    ensures FindStart(ResolvedAll(ts)).Ok? && CollectAll(ResolvedAll(ts)).Err? ==>
              r == Err(CollectAll(ResolvedAll(ts)).error)
    ensures var rs := ResolvedAll(ts);
            FindStart(rs).Ok? && CollectAll(rs).Ok? &&
            Linkable(rs, CollectAll(rs).value.states, CollectAll(rs).value.mapping) ==>
              var reg := CollectAll(rs).value;
              var linked := LinkAll(rs, reg.states, reg.stateData, reg.mapping);
              && (r.Ok? <==> linked.Ok?)
              && (linked.Err? ==> r == Err(linked.error))
    // the built machine carries the start, the registries and the linked table
    ensures r.Ok? ==> var rs := ResolvedAll(ts);
                      && FindStart(rs) == Ok(r.value.startingState)
                      && CollectAll(rs).Ok?
                      && r.value.states == CollectAll(rs).value.states
                      && r.value.events == CollectAll(rs).value.events
                      && r.value.stateData == CollectAll(rs).value.stateData
                      && r.value.eventData == CollectAll(rs).value.eventData
                      && r.value.statesEventsMapping.Keys == r.value.states
  {
    var rs := ResolvedAll(ts);
    var start :- FindStart(rs);
    var reg :- CollectAll(rs);
    CollectAllSlots(rs);
    CollectAllLinkable(rs);
    var tm :- LinkAll(rs, reg.states, reg.stateData, reg.mapping);
    Ok(ParsedStateMachine(reg.states, start, reg.stateData, reg.events, reg.eventData, tm))
  }
}
