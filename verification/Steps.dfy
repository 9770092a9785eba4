/** What one call of an importing operation amounts to: a sequence of steps of a run. */
module Steps {
  import opened Batches
  import opened Tables
  import opened ChainIndex
  import opened Runs
  import opened Service

  /** A sequence of steps without a scan, as one call of an importing operation makes it. */
  ghost predicate AreSteps(rules: Rules, states: seq<Tables>, events: seq<Event>) {
    && |states| == |events| + 1
    && forall i :: 0 <= i < |events| ==> LocalStep(rules, states[i], events[i], states[i + 1])
  }

  ghost predicate Leads(rules: Rules, t: Tables, u: Tables) {
    exists states, events :: AreSteps(rules, states, events) && states[0] == t && states[|events|] == u
  }

  lemma NoStepLeads(rules: Rules, t: Tables)
    ensures Leads(rules, t, t)
  {
    assert AreSteps(rules, [t], []);
  }

  lemma StepLeads(rules: Rules, t: Tables, u: Tables, e: Event, v: Tables)
    requires Leads(rules, t, u) && LocalStep(rules, u, e, v)
    ensures Leads(rules, t, v)
  {
    var states, events :| AreSteps(rules, states, events) && states[0] == t && states[|events|] == u;
    var longer, more := states + [v], events + [e];
    forall i | 0 <= i < |more|
      ensures LocalStep(rules, longer[i], more[i], longer[i + 1])
    {
      if i < |events| {
        assert LocalStep(rules, states[i], events[i], states[i + 1]);
      }
    }
    assert AreSteps(rules, longer, more) && longer[0] == t && longer[|more|] == v;
  }

  lemma {:induction false} StepsKeep(
    rules: Rules, network: string, start: int, states: seq<Tables>, events: seq<Event>, n: nat, view: Chain)
    requires AreSteps(rules, states, events) && n <= |events|
    requires Consistent(rules, network, start, states[0], view)
    ensures Consistent(rules, network, start, states[n], view)
  {
    if n > 0 {
      StepsKeep(rules, network, start, states, events, n - 1, view);
      OtherStepKeeps(rules, network, start, states[n - 1], events[n - 1], states[n], view);
    }
  }

  /** Whatever such a call does, the index stays the index of the same view. */
  lemma LeadsKeeps(rules: Rules, network: string, start: int, t: Tables, u: Tables, view: Chain)
    requires Leads(rules, t, u) && Consistent(rules, network, start, t, view)
    ensures Consistent(rules, network, start, u, view)
  {
    var states, events :| AreSteps(rules, states, events) && states[0] == t && states[|events|] == u;
    StepsKeep(rules, network, start, states, events, |events|, view);
  }

  /** Imported records and batches are growth. */
  lemma ImportIsGrowth(rules: Rules, t: Tables, u: Tables)
    requires OnlyAdds(t, u) && Wellformed(rules, u)
    ensures LocalStep(rules, t, Grown, u)
  {
  }
}
