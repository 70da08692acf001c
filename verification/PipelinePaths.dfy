/** Further steps from a state on, by submissions of at least a given quantity. */
module PipelinePaths {
  import opened Orders
  import opened OrderPipeline
  import opened PipelineInvariant
  import opened PipelineTheorems
  import opened PipelineQuiescence

  // ------------------------------------------------------------ further steps

  predicate AtLeast(a: Action, least: int)
  {
    a.Submit? && a.order.value.state == CREATED ==> a.order.value.quantity >= least
  }

  /** Steps from one state to another whose CREATED submissions are of the least quantity or more. */
  ghost predicate Path(states: seq<System>, actions: seq<Action>, least: int, s: System, s': System)
  {
    && |states| == |actions| + 1
    && states[0] == s && states[|actions|] == s'
    && (forall k :: 0 <= k < |actions| ==> IsStep(states, actions, k))
    && (forall k :: 0 <= k < |actions| ==> AtLeast(actions[k], least))
  }

  ghost predicate Reaches(least: int, s: System, s': System)
  {
    exists states, actions :: Path(states, actions, least, s, s')
  }

  lemma ReachesSelf(least: int, s: System)
    ensures Reaches(least, s, s)
  {
    assert Path([s], [], least, s, s);
  }

  lemma PathStep(states: seq<System>, actions: seq<Action>, least: int, s: System, s': System, a: Action, s'': System)
    requires Path(states, actions, least, s, s') && AtLeast(a, least) && Enabled(s', a) && s'' == Next(s', a)
    ensures Path(states + [s''], actions + [a], least, s, s'')
  {
    var states', actions' := states + [s''], actions + [a];
    forall k | 0 <= k < |actions'| ensures IsStep(states', actions', k) {
      if k < |actions| { assert IsStep(states, actions, k); }
    }
  }

  lemma ReachesStep(least: int, s: System, s': System, a: Action, s'': System)
    requires Reaches(least, s, s') && AtLeast(a, least) && Enabled(s', a) && s'' == Next(s', a)
    ensures Reaches(least, s, s'')
  {
    var states, actions :| Path(states, actions, least, s, s');
    PathStep(states, actions, least, s, s', a, s'');
  }

  lemma PathFirstLive(states: seq<System>, actions: seq<Action>, least: int, s: System, s': System)
    requires Path(states, actions, least, s, s') && LiveInv(s)
    ensures LiveInv(states[0])
  {
  }

  lemma PathNextLive(states: seq<System>, actions: seq<Action>, least: int, s: System, s': System, k: nat)
    requires Path(states, actions, least, s, s') && k < |actions| && LiveInv(states[k])
    ensures LiveInv(states[k + 1])
  {
    assert IsStep(states, actions, k);
    StepLive(states[k], actions[k]);
  }

  lemma PathLive(states: seq<System>, actions: seq<Action>, least: int, s: System, s': System, k: nat)
    requires Path(states, actions, least, s, s') && LiveInv(s) && k <= |actions|
    ensures LiveInv(states[k])
  {
    PathFirstLive(states, actions, least, s, s');
    var n := 0;
    while n < k
      invariant n <= k && LiveInv(states[n])
    {
      PathNextLive(states, actions, least, s, s', n);
      n := n + 1;
    }
  }

  lemma ReachesLive(least: int, s: System, s': System)
    requires Reaches(least, s, s') && LiveInv(s)
    ensures LiveInv(s')
  {
    var states, actions :| Path(states, actions, least, s, s');
    PathLive(states, actions, least, s, s', |actions|);
  }

  lemma ReachesMore(least: int, less: int, s: System, s': System)
    requires Reaches(least, s, s') && less <= least
    ensures Reaches(less, s, s')
  {
    var states, actions :| Path(states, actions, least, s, s');
    assert Path(states, actions, less, s, s');
  }

  lemma PathJoin(states: seq<System>, actions: seq<Action>, more: seq<System>, moreActions: seq<Action>,
                 least: int, s: System, s': System, s'': System)
    requires Path(states, actions, least, s, s') && Path(more, moreActions, least, s', s'')
    ensures Path(states + more[1..], actions + moreActions, least, s, s'')
  {
    var all, allActions, n := states + more[1..], actions + moreActions, |actions|;
    assert forall k :: 0 <= k <= |moreActions| ==> all[n + k] == more[k];
    forall k | 0 <= k < |allActions| ensures IsStep(all, allActions, k) && AtLeast(allActions[k], least) {
      if k < n {
        assert IsStep(states, actions, k) && allActions[k] == actions[k];
      } else {
        assert IsStep(more, moreActions, k - n) && allActions[k] == moreActions[k - n];
      }
    }
  }

  lemma ReachesJoin(least: int, s: System, s': System, s'': System)
    requires Reaches(least, s, s') && Reaches(least, s', s'')
    ensures Reaches(least, s, s'')
  {
    var states, actions :| Path(states, actions, least, s, s');
    var more, moreActions :| Path(more, moreActions, least, s', s'');
    PathJoin(states, actions, more, moreActions, least, s, s', s'');
  }

  lemma ReachesInThree(least: int, s: System, t: System, t': System, d: System)
    requires least <= 0 && Reaches(least, s, t) && Reaches(least, t, t') && Reaches(0, t', d)
    ensures Reaches(least, s, d)
  {
    ReachesMore(0, least, t', d);
    ReachesJoin(least, s, t, t');
    ReachesJoin(least, s, t', d);
  }

  // ------------------------------------------------------------------ to rest

  lemma NoNewCreatedOn(s: System, s': System, s'': System)
    requires Grows(s, s') && Grows(s', s'') && NoNewCreated(s, s') && NoNewCreated(s', s'')
    ensures NoNewCreated(s, s'')
  {
    forall i | |s.orders| <= i < |s''.orders| ensures !IsCreated(s'', i) {
      if i < |s'.orders| { assert !IsCreated(s', i); }
    }
  }

  /** The services can always be run to rest. */
  lemma {:induction false} RunToRest(s: System) returns (r: System)
    requires LiveInv(s)
    ensures Reaches(0, s, r) && AtRest(r) && LiveInv(r) && Grows(s, r) && NoNewCreated(s, r)
    decreases Work(s)
  {
    ReachesSelf(0, s);
    if AtRest(s) {
      r := s;
    } else {
      var a :| Internal(a) && Enabled(s, a);
      var t := Next(s, a);
      StepUsesWork(s, a);
      StepGrows(s, a);
      OnlySubmitCreates(s, a);
      ReachesStep(0, s, s, a, t);
      r := RunToRest(t);
      ReachesJoin(0, s, t, r);
      GrowsOn(s, t, r);
      NoNewCreatedOn(s, t, r);
    }
  }
}
