/**
 * What the compiled table means, proved about the functions of module Table.
 *
 * `Alternatives` is a reference definition, slot by slot, of what the second
 * pass builds: the alternatives of slot (s, e) are the concrete transitions
 * from s on e in declaration order, except that a wildcard transition on e
 * fills the slot when, and only when, no earlier transition has.
 */
module TableLemmas {
  import opened Types
  import opened Events
  import opened Data
  import opened Table

  /** The alternatives slot (s, e) receives from a transition list, in declaration order. */
  function Alternatives(ts: seq<StateTransition>, s: string, e: string): seq<Transition>
    decreases |ts|
  {
    if ts == [] then []
    else
      var prev := Alternatives(ts[..|ts| - 1], s, e);
      var t := ts[|ts| - 1];
      if t.event.ident != e then prev
      else if !t.inState.wildcard then (if t.inState.ident == s then prev + [Alt(t)] else prev)
      else if prev == [] then [WildcardAlt(t, s)]
      else prev
  }

  /** Slot (s, e) of the table is present exactly when it has alternatives, and holds them. */
  predicate SlotMatches(tm: TransitionMap, ts: seq<StateTransition>, s: string, e: string)
  {
    && s in tm
    && (e in tm[s] <==> Alternatives(ts, s, e) != [])
    && (e in tm[s] ==> tm[s][e] == EventMapping(s, e, Alternatives(ts, s, e)))
  }

  /** One step of the second pass keeps slot (s, e) in line with the reference definition. */
  lemma LinkStepSlot(ts: seq<StateTransition>, states: set<string>,
                     sd: DataDefinitions, tm: TransitionMap, s: string, e: string)
    requires ts != []
    requires states <= tm.Keys && (!ts[|ts| - 1].inState.wildcard ==> ts[|ts| - 1].inState.ident in tm)
    requires s in states
    requires SlotMatches(tm, ts[..|ts| - 1], s, e)
    requires LinkStep(ts[|ts| - 1], states, sd, tm).Ok?
    ensures SlotMatches(LinkStep(ts[|ts| - 1], states, sd, tm).value, ts, s, e)
  {
    var t := ts[|ts| - 1];
    var prev := Alternatives(ts[..|ts| - 1], s, e);
    var tm' := LinkStep(t, states, sd, tm).value;
    if t.inState.wildcard {
      if t.event.ident == e && prev == [] {
        assert tm'[s] == tm[s][e := EventMapping(s, e, [WildcardAlt(t, s)])];
      } else if t.event.ident == e {
        assert tm'[s] == tm[s];
      } else {
        assert (e in tm'[s] <==> e in tm[s]) && (e in tm[s] ==> tm'[s][e] == tm[s][e]);
      }
    } else {
      assert tm' == WithAlternative(tm, t.inState.ident, t.event.ident, Alt(t));
      if t.inState.ident == s && t.event.ident == e {
        assert tm'[s][e].transitions == prev + [Alt(t)];
      }
    }
  }

  /** Before any transition, every slot is vacant. */
  lemma EmptySlotsMatch(states: set<string>, tm0: TransitionMap)
    requires tm0.Keys == states
    requires forall s :: s in tm0 ==> tm0[s] == map[]
    ensures forall s, e :: s in states ==> SlotMatches(tm0, [], s, e)
  {
    forall s, e | s in states ensures SlotMatches(tm0, [], s, e) {
      assert Alternatives([], s, e) == [];
      assert tm0[s] == map[] && e !in tm0[s];
    }
  }

  /**
   * Starting from one empty event map per registered state, the second pass
   * builds exactly the slots `Alternatives` describes.
   */
  lemma {:induction false} LinkAllSlots(ts: seq<StateTransition>, states: set<string>,
                                        sd: DataDefinitions, tm0: TransitionMap)
    requires Linkable(ts, states, tm0)
    requires tm0.Keys == states
    requires forall s :: s in tm0 ==> tm0[s] == map[]
    requires LinkAll(ts, states, sd, tm0).Ok?
    ensures forall s, e :: s in states ==> SlotMatches(LinkAll(ts, states, sd, tm0).value, ts, s, e)
    decreases |ts|
  {
    if ts == [] {
      EmptySlotsMatch(states, tm0);
    } else {
      var prefix := ts[..|ts| - 1];
      assert Linkable(prefix, states, tm0);
      LinkAllSlots(prefix, states, sd, tm0);
      var tm := LinkAll(prefix, states, sd, tm0).value;
      var tm' := LinkStep(ts[|ts| - 1], states, sd, tm).value;
      assert LinkAll(ts, states, sd, tm0).value == tm';
      forall s, e | s in states ensures SlotMatches(tm', ts, s, e) {
        LinkStepSlot(ts, states, sd, tm, s, e);
      }
    }
  }

  /** An alternative that leads to a data-carrying state names an action. */
  predicate ProvidesData(alt: Transition, sd: DataDefinitions)
  {
    sd.HasData(alt.outState) ==> alt.action.Some?
  }

  /** Every alternative of the table that leads to a data-carrying state names an action. */
  predicate DataHasAction(tm: TransitionMap, sd: DataDefinitions)
  {
    forall s, e, k :: s in tm && e in tm[s] && 0 <= k < |tm[s][e].transitions| ==>
      ProvidesData(tm[s][e].transitions[k], sd)
  }

  /** Each step of the second pass keeps every data-carrying destination supplied by an action. */
  lemma LinkStepDataHasAction(t: StateTransition, states: set<string>, sd: DataDefinitions, tm: TransitionMap)
    requires states <= tm.Keys && (!t.inState.wildcard ==> t.inState.ident in tm)
    requires DataHasAction(tm, sd)
    requires LinkStep(t, states, sd, tm).Ok?
    ensures DataHasAction(LinkStep(t, states, sd, tm).value, sd)
  {
    var tm': TransitionMap := LinkStep(t, states, sd, tm).value;
    forall s, e, k | s in tm' && e in tm'[s] && 0 <= k < |tm'[s][e].transitions|
      ensures ProvidesData(tm'[s][e].transitions[k], sd)
    {
      if t.inState.wildcard {
        if s in states && t.event.ident !in tm[s] && e == t.event.ident {
          assert tm'[s][e].transitions == [WildcardAlt(t, s)];
        } else {
          assert tm'[s][e] == tm[s][e];
        }
      } else {
        var alt := Alt(t);
        assert tm' == WithAlternative(tm, t.inState.ident, t.event.ident, alt);
        if s == t.inState.ident && e == t.event.ident {
          var before := if e in tm[s] then tm[s][e].transitions else [];
          assert tm'[s][e].transitions == before + [alt];
          if k < |before| {
            assert tm'[s][e].transitions[k] == tm[s][e].transitions[k];
          } else {
            assert tm'[s][e].transitions[k] == alt;
          }
        } else {
          assert tm'[s][e] == tm[s][e];
        }
      }
    }
  }

  /** The whole second pass keeps every data-carrying destination supplied by an action. */
  lemma {:induction false} LinkAllDataHasAction(ts: seq<StateTransition>, states: set<string>,
                                                sd: DataDefinitions, tm0: TransitionMap)
    requires Linkable(ts, states, tm0)
    requires DataHasAction(tm0, sd)
    requires LinkAll(ts, states, sd, tm0).Ok?
    ensures DataHasAction(LinkAll(ts, states, sd, tm0).value, sd)
    decreases |ts|
  {
    if ts != [] {
      var prefix := ts[..|ts| - 1];
      assert Linkable(prefix, states, tm0);
      LinkAllDataHasAction(prefix, states, sd, tm0);
      LinkStepDataHasAction(ts[|ts| - 1], states, sd, LinkAll(prefix, states, sd, tm0).value);
    }
  }

  // ---------------------------------------------------------------------------
  // The compiled machine

  /** Resolving internal transitions changes neither the start markers nor the states registered. */
  lemma ResolvedKeepsInput(ts: seq<StateTransition>)
    ensures forall i :: 0 <= i < |ts| ==> ResolvedAll(ts)[i].inState == ts[i].inState
    ensures forall i :: 0 <= i < |ts| ==> ResolvedAll(ts)[i].event == ts[i].event
    ensures forall i, s :: 0 <= i < |ts| ==> (RegistersState(ResolvedAll(ts)[i], s) <==> RegistersState(ts[i], s))
  {
  }

  /** Resolution is idempotent: a second rewrite finds nothing left to do. */
  lemma ResolvedIdempotent(ts: seq<StateTransition>)
    ensures ResolvedAll(ResolvedAll(ts)) == ResolvedAll(ts)
  {
  }

  /**
   * Construction succeeds only with exactly one start-marked transition (transitions
   * are counted, not states), and that transition's input state is the starting state.
   */
  lemma CompileStart(ts: seq<StateTransition>)
    ensures (forall i :: 0 <= i < |ts| ==> !ts[i].inState.start) ==> Compile(ts) == Err(NoStartingState)
    ensures (exists i, j :: 0 <= i < j < |ts| && ts[i].inState.start && ts[j].inState.start) ==>
              Compile(ts) == Err(MultipleStartingStates)
    ensures Compile(ts).Ok? ==>
              exists i :: 0 <= i < |ts| && ts[i].inState.start && OnlyStart(ts, i) &&
                          Compile(ts).value.startingState == ts[i].inState.ident
  {
    var rs := ResolvedAll(ts);
    ResolvedKeepsInput(ts);
    if Compile(ts).Ok? {
      var start := FindStart(rs).value;
      assert Compile(ts).value.startingState == start;
      var i :| 0 <= i < |rs| && rs[i].inState.start && start == rs[i].inState.ident;
      var i' :| 0 <= i' < |rs| && rs[i'].inState.start && OnlyStart(rs, i');
      assert i == i';
      assert OnlyStart(ts, i);
    }
    if exists i, j :: 0 <= i < j < |ts| && ts[i].inState.start && ts[j].inState.start {
      var i, j :| 0 <= i < j < |ts| && ts[i].inState.start && ts[j].inState.start;
      assert rs[i].inState.start && rs[j].inState.start;
    }
  }

  /**
   * The states of a constructed machine are the concrete input states and the
   * non-internal output states, and the table has one entry per state.
   */
  lemma CompileStates(ts: seq<StateTransition>)
    requires Compile(ts).Ok?
    ensures var m := Compile(ts).value;
            && (forall s :: s in m.states <==>
                  exists i :: 0 <= i < |ts| && ((!ts[i].inState.wildcard && ts[i].inState.ident == s) ||
                                                (!ts[i].outState.internalTransition && ts[i].outState.ident == s)))
            && m.statesEventsMapping.Keys == m.states
  {
    var rs := ResolvedAll(ts);
    ResolvedKeepsInput(ts);
    CollectAllStates(rs);
    CollectAllSlots(rs);
    var m := Compile(ts).value;
    assert m.states == CollectAll(rs).value.states;
    forall s ensures s in m.states <==> exists i :: 0 <= i < |ts| && RegistersState(ts[i], s) {
      if s in m.states {
        var i :| 0 <= i < |rs| && RegistersState(rs[i], s);
        assert RegistersState(ts[i], s);
      }
      if exists i :: 0 <= i < |ts| && RegistersState(ts[i], s) {
        var i :| 0 <= i < |ts| && RegistersState(ts[i], s);
        assert RegistersState(rs[i], s);
      }
    }
  }

  /** The events of a constructed machine are exactly the events its transitions name. */
  lemma CompileEvents(ts: seq<StateTransition>)
    requires Compile(ts).Ok?
    ensures forall e :: e in Compile(ts).value.events <==> exists i :: 0 <= i < |ts| && ts[i].event.ident == e
  {
    var rs := ResolvedAll(ts);
    ResolvedKeepsInput(ts);
    CollectAllEvents(rs);
    var m := Compile(ts).value;
    assert m.events == CollectAll(rs).value.events;
    forall e ensures e in m.events <==> exists i :: 0 <= i < |ts| && ts[i].event.ident == e {
      if e in m.events {
        var i :| 0 <= i < |rs| && rs[i].event.ident == e;
        assert ts[i].event.ident == e;
      }
    }
  }

  /**
   * The table of a constructed machine: every slot holds, in declaration
   * order, the alternatives `Alternatives` describes, and every alternative
   * leading to a data-carrying state names an action.
   */
  lemma CompileTable(ts: seq<StateTransition>)
    requires Compile(ts).Ok?
    ensures var m := Compile(ts).value;
            && (forall s, e :: s in m.states ==> SlotMatches(m.statesEventsMapping, ResolvedAll(ts), s, e))
            && DataHasAction(m.statesEventsMapping, m.stateData)
  {
    var rs := ResolvedAll(ts);
    var reg := CollectAll(rs).value;
    CollectAllStates(rs);
    CollectAllSlots(rs);
    CollectAllLinkable(rs);
    LinkAllSlots(rs, reg.states, reg.stateData, reg.mapping);
    LinkAllDataHasAction(rs, reg.states, reg.stateData, reg.mapping);
  }

  /**
   * The invariants of the table: its keys are the registered states (so a
   * wildcard never becomes a key), and every slot is a non-empty list of
   * alternatives filed under its own state and event.
   */
  lemma CompiledSlotsWellFormed(ts: seq<StateTransition>)
    requires Compile(ts).Ok?
    ensures var m := Compile(ts).value;
            && m.statesEventsMapping.Keys == m.states
            && forall s, e :: s in m.statesEventsMapping && e in m.statesEventsMapping[s] ==>
                 && m.statesEventsMapping[s][e].inState == s
                 && m.statesEventsMapping[s][e].event == e
                 && |m.statesEventsMapping[s][e].transitions| > 0
  {
    CompileStates(ts);
    CompileTable(ts);
    var m := Compile(ts).value;
    forall s, e | s in m.statesEventsMapping && e in m.statesEventsMapping[s]
      ensures m.statesEventsMapping[s][e] == EventMapping(s, e, Alternatives(ResolvedAll(ts), s, e))
      ensures Alternatives(ResolvedAll(ts), s, e) != []
    {
      assert SlotMatches(m.statesEventsMapping, ResolvedAll(ts), s, e);
    }
  }

  /** A registered state's slot in a constructed machine holds what `Alternatives` gives, if anything. */
  lemma CompiledSlot(ts: seq<StateTransition>, s: string, e: string)
    requires Compile(ts).Ok?
    requires s in Compile(ts).value.states
    ensures var tm := Compile(ts).value.statesEventsMapping;
            && s in tm
            && (e in tm[s] <==> Alternatives(ResolvedAll(ts), s, e) != [])
            && (e in tm[s] ==> tm[s][e].transitions == Alternatives(ResolvedAll(ts), s, e))
  {
    CompileTable(ts);
    assert SlotMatches(Compile(ts).value.statesEventsMapping, ResolvedAll(ts), s, e);
  }
}
