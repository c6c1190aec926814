/**
 * `ParsedStateMachine::new` and `add_transition` (macros/src/parser/mod.rs)
 * as the source writes them: an in-place rewrite of the transition list,
 * then two loops over it that fill the registries and the transition table,
 * returning at the first error.  Each method is proved to compute the
 * corresponding function of module Table.
 */
module Parser {
  import opened Types
  import opened Events
  import opened Data
  import opened Table

  /**
   * `add_transition`: files the transition's alternative under its input
   * state and event (a new mapping when the slot is vacant, appended
   * otherwise), then refuses it when the destination carries data and no
   * action provides it.  The table is updated even when the check fails.
   */
  method AddTransition(t: StateTransition, tm: TransitionMap, sd: DataDefinitions)
    returns (tm': TransitionMap, res: Result<(), CompileError>)
    requires t.inState.ident in tm
    ensures tm' == WithAlternative(tm, t.inState.ident, t.event.ident, Alt(t))
    ensures res.Err? <==> sd.HasData(t.outState.ident) && t.action.None?
    ensures res.Err? ==> res.error == MissingActionForData
    ensures Inserted(t, sd, tm) == if res.Ok? then Ok(tm') else Err(res.error)
  {
    var p := tm[t.inState.ident];
    var e := t.event.ident;
    var alt := Transition(t.guard, t.action, t.outState.ident);
    if e !in p {
      p := p[e := EventMapping(t.inState.ident, e, [alt])];
    } else {
      var mapping := p[e];
      p := p[e := mapping.(transitions := mapping.transitions + [alt])];
    }
    tm' := tm[t.inState.ident := p];
    if sd.HasData(t.outState.ident) && t.action.None? {
      return tm', Err(MissingActionForData);
    }
    return tm', Ok(());
  }

  /** The loop over `sm.transitions.iter_mut()`: internal transitions of concrete states stay where they are. */
  method ResolveInternalTransitions(ts: array<StateTransition>)
    modifies ts
    ensures ts[..] == ResolvedAll(old(ts[..]))
  {
    for i := 0 to ts.Length
      invariant forall j :: 0 <= j < i ==> ts[j] == Resolved(old(ts[j]))
      invariant forall j :: i <= j < ts.Length ==> ts[j] == old(ts[j])
    {
      var t := ts[i];
      if t.outState.internalTransition && !t.inState.wildcard {
        ts[i] := t.(outState := t.outState.(ident := t.inState.ident, dataType := t.inState.dataType,
                                            internalTransition := false));
      }
    }
  }

  /** The first loop of `new`: registries of states and events, and one empty event map per state. */
  method CollectRegistries(ts: seq<StateTransition>) returns (r: Result<Registries, CompileError>)
    ensures r == CollectAll(ts)
  {
    var states: set<string> := {};
    var stateData := NoDefinitions;
    var events: set<string> := {};
    var eventData := NoDefinitions;
    var mapping: TransitionMap := map[];
    for i := 0 to |ts|
      invariant CollectAll(ts[..i]) == Ok(Registries(states, stateData, events, eventData, mapping))
    {
      var t := ts[i];
      assert ts[..i + 1][..i] == ts[..i];
      if !t.inState.wildcard {
        states := states + {t.inState.ident};
        var collected := Collect(stateData, t.inState.ident, t.inState.dataType);
        if collected.Err? {
          CollectAllStops(ts, i + 1);
          return Err(collected.error);
        }
        stateData := collected.value;
      }
      if !t.outState.internalTransition {
        states := states + {t.outState.ident};
        var collected := Collect(stateData, t.outState.ident, t.outState.dataType);
        if collected.Err? {
          CollectAllStops(ts, i + 1);
          return Err(collected.error);
        }
        stateData := collected.value;
      }
      events := events + {t.event.ident};
      var collected := Collect(eventData, t.event.ident, t.event.dataType);
      if collected.Err? {
        CollectAllStops(ts, i + 1);
        return Err(collected.error);
      }
      eventData := collected.value;
      if !t.inState.wildcard {
        mapping := mapping[t.inState.ident := map[]];
      }
      if !t.outState.internalTransition {
        mapping := mapping[t.outState.ident := map[]];
      }
    }
    assert ts[..|ts|] == ts;
    return Ok(Registries(states, stateData, events, eventData, mapping));
  }

  /**
   * The wildcard branch of the second loop: the template is instantiated at
   * every registered state that has no entry yet for its event, in whatever
   * order the states are visited, and the first missing action ends it.
   */
  method ExpandWildcard(t: StateTransition, states: set<string>, sd: DataDefinitions, tm: TransitionMap)
    returns (r: Result<TransitionMap, CompileError>)
    requires states <= tm.Keys
    ensures r == Expansion(t, states, sd, tm)
  {
    var e := t.event.ident;
    var cur := tm;
    var added := false;
    var todo := states;
    while todo != {}
      invariant todo <= states
      invariant ExpandingSoFar(t, sd, tm, states - todo, cur, added)
      decreases |todo|
    {
      var s :| s in todo;
      ExpandedOneMore(t, states - todo, s, tm);
      if e !in cur[s] {
        var tm', res := AddTransition(Synthesized(t, s, sd), cur, sd);
        if res.Err? {
          ExpansionRefused(t, states, sd, tm, s);
          return Err(res.error);
        }
        ExpandingOneMore(t, sd, tm, states, todo, s, cur, added, tm');
        cur := tm';
        added := true;
      } else {
        ExpandingPast(t, sd, tm, states, todo, s, cur, added);
      }
      todo := todo - {s};
    }
    assert states - todo == states;
    if !added {
      ExpansionWithoutEffect(t, states, sd, tm);
      return Err(WildcardHasNoEffect);
    }
    ExpansionAccepted(t, states, sd, tm);
    return Ok(cur);
  }

  /**
   * The loop invariant of the expansion after visiting the states `done`:
   * every candidate among them has its slot, some candidate was met exactly
   * when `added`, and none of them lacked an action for its data.
   */
  predicate ExpandingSoFar(t: StateTransition, sd: DataDefinitions, tm: TransitionMap,
                           done: set<string>, cur: TransitionMap, added: bool)
  {
    && done <= tm.Keys
    && cur == Expanded(t, done, tm)
    && (added <==> exists s :: s in done && t.event.ident !in tm[s])
    && forall s :: s in done && t.event.ident !in tm[s] ==> !(t.action.None? && sd.HasData(WildcardOut(t, s)))
  }

  /** Visiting a candidate whose instantiation is accepted. */
  lemma ExpandingOneMore(t: StateTransition, sd: DataDefinitions, tm: TransitionMap, states: set<string>,
                         todo: set<string>, s: string, cur: TransitionMap, added: bool, cur': TransitionMap)
    requires states <= tm.Keys && todo <= states && s in todo && t.event.ident !in tm[s]
    requires ExpandingSoFar(t, sd, tm, states - todo, cur, added)
    requires cur' == WithAlternative(cur, s, t.event.ident, Alt(Synthesized(t, s, sd)))
    requires !(t.action.None? && sd.HasData(WildcardOut(t, s)))
    ensures ExpandingSoFar(t, sd, tm, states - (todo - {s}), cur', true)
  {
    ExpandedOneMore(t, states - todo, s, tm);
    assert states - (todo - {s}) == (states - todo) + {s};
  }

  /** Visiting a state that already handles the event. */
  lemma ExpandingPast(t: StateTransition, sd: DataDefinitions, tm: TransitionMap, states: set<string>,
                      todo: set<string>, s: string, cur: TransitionMap, added: bool)
    requires states <= tm.Keys && todo <= states && s in todo && t.event.ident in tm[s]
    requires ExpandingSoFar(t, sd, tm, states - todo, cur, added)
    ensures ExpandingSoFar(t, sd, tm, states - (todo - {s}), cur, added)
  {
    ExpandedOneMore(t, states - todo, s, tm);
    assert states - (todo - {s}) == (states - todo) + {s};
  }

  /** A candidate state whose instantiation lacks the action for its data refuses the whole wildcard. */
  lemma ExpansionRefused(t: StateTransition, states: set<string>, sd: DataDefinitions, tm: TransitionMap, s: string)
    requires states <= tm.Keys
    requires s in states && t.event.ident !in tm[s]
    requires t.action.None? && sd.HasData(WildcardOut(t, s))
    ensures Expansion(t, states, sd, tm) == Err(MissingActionForData)
  {
  }

  /** A wildcard that finds no candidate has no effect. */
  lemma ExpansionWithoutEffect(t: StateTransition, states: set<string>, sd: DataDefinitions, tm: TransitionMap)
    requires states <= tm.Keys
    requires !exists s :: s in states && t.event.ident !in tm[s]
    ensures Expansion(t, states, sd, tm) == Err(WildcardHasNoEffect)
  {
  }

  /** With some candidate and every candidate acceptable, the wildcard fills every candidate's slot. */
  lemma ExpansionAccepted(t: StateTransition, states: set<string>, sd: DataDefinitions, tm: TransitionMap)
    requires states <= tm.Keys
    requires exists s :: s in states && t.event.ident !in tm[s]
    requires forall s :: s in states && t.event.ident !in tm[s] ==> !(t.action.None? && sd.HasData(WildcardOut(t, s)))
    ensures Expansion(t, states, sd, tm) == Ok(Expanded(t, states, tm))
  {
    var s :| s in states && t.event.ident !in tm[s];
    assert s in Candidates(t, states, tm);
  }

  /**
   * Visiting one more state `s`: its slot is still the original one, and the
   * template is instantiated there exactly when the event is missing.
   */
  lemma ExpandedOneMore(t: StateTransition, done: set<string>, s: string, tm: TransitionMap)
    requires s in tm && s !in done
    ensures s in Expanded(t, done, tm) && Expanded(t, done, tm)[s] == tm[s]
    ensures Expanded(t, done + {s}, tm) ==
              if t.event.ident in tm[s] then Expanded(t, done, tm)
              else WithAlternative(Expanded(t, done, tm), s, t.event.ident, WildcardAlt(t, s))
  {
  }

  /** The second loop of `new`: every transition, in declaration order, into the table. */
  method LinkTransitions(ts: seq<StateTransition>, states: set<string>, sd: DataDefinitions, tm0: TransitionMap)
    returns (r: Result<TransitionMap, CompileError>)
    requires Linkable(ts, states, tm0)
    ensures r == LinkAll(ts, states, sd, tm0)
  {
    var tm := tm0;
    for i := 0 to |ts|
      invariant Linkable(ts[..i], states, tm0)
      invariant LinkAll(ts[..i], states, sd, tm0) == Ok(tm)
      invariant tm.Keys == tm0.Keys
    {
      var t := ts[i];
      assert ts[..i + 1][..i] == ts[..i];
      assert Linkable(ts[..i + 1], states, tm0) by {
        forall j | 0 <= j < i + 1 ensures ts[..i + 1][j] == ts[j] { }
      }
      if t.inState.wildcard {
        var expanded := ExpandWildcard(t, states, sd, tm);
        if expanded.Err? {
          LinkAllStops(ts, states, sd, tm0, i + 1);
          return Err(expanded.error);
        }
        tm := expanded.value;
      } else {
        var tm', res := AddTransition(t, tm, sd);
        if res.Err? {
          LinkAllStops(ts, states, sd, tm0, i + 1);
          return Err(res.error);
        }
        tm := tm';
      }
    }
    assert ts[..|ts|] == ts;
    return Ok(tm);
  }

  /**
   * `ParsedStateMachine::new`: the transitions are copied into a buffer and
   * rewritten in place, then checked for a single start marker and run
   * through the two passes.
   */
  method New(transitions: seq<StateTransition>) returns (r: Result<ParsedStateMachine, CompileError>)
    ensures r == Compile(transitions)
  {
    var buffer := new StateTransition[|transitions|](i requires 0 <= i < |transitions| => transitions[i]);
    assert buffer[..] == transitions;
    ResolveInternalTransitions(buffer);
    var rs := buffer[..];
    var start :- FindStart(rs);
    var reg :- CollectRegistries(rs);
    CollectAllLinkable(rs);
    var tm :- LinkTransitions(rs, reg.states, reg.stateData, reg.mapping);
    return Ok(ParsedStateMachine(reg.states, start, reg.stateData, reg.events, reg.eventData, tm));
  }
}
