/**
 What a subagent costs, and exactly which spawns are accepted, in every run.
 */
module SubagentCharges {
  import opened Wrappers
  import opened Subagents

  /** The tokens of the settled agents: what a completed one reported, and the whole reservation of any other. */
  function Billed(agents: seq<Agent>): nat {
    if agents == [] then 0
    else
      var last := agents[|agents| - 1];
      Billed(agents[..|agents| - 1])
        + (match last.stage
           case Settled(Completed(tokens)) => tokens
           case Settled(Failed) => last.reservation
           case Settled(Cancelled) => last.reservation
           case Settled(TimedOut) => last.reservation
           case _ => 0)
  }

  /** The reservations of the agents without a result. */
  function Held(agents: seq<Agent>): nat {
    if agents == [] then 0
    else
      var last := agents[|agents| - 1];
      Held(agents[..|agents| - 1]) + (if last.stage.Settled? then 0 else last.reservation)
  }

  lemma {:induction false} SumsAreBills(agents: seq<Agent>)
    ensures Sum(agents, Charge) == Billed(agents) && Sum(agents, Reserved) == Held(agents)
  {
    if agents == [] {
    } else {
      SumsAreBills(agents[..|agents| - 1]);
    }
  }

  /** In every run, the manager has consumed exactly the bills and reserved exactly what is held. */
  lemma ConsumedIsBilled(limits: Limits, steps: seq<Step>)
    ensures var pool := Run(limits, EmptyPool(limits), steps);
            pool.consumed == Billed(pool.agents) && pool.active == Held(pool.agents)
  {
    EveryRunIsBounded(limits, steps);
    SumsAreBills(Run(limits, EmptyPool(limits), steps).agents);
  }

  /** Settling charges what a completed agent reported, and the whole reservation of any other. */
  lemma SettlingCharges(limits: Limits, pool: Pool, i: nat)
    ensures Enabled(pool, Finalize(i)) ==>
              var after, agent := Apply(limits, pool, Finalize(i)), pool.agents[i];
              && after.active == pool.active - agent.reservation
              && after == pool.(agents := pool.agents[i := agent.(running := false, stage := Settled(agent.stage.outcome))],
                                active := after.active, consumed := after.consumed)
              && match agent.stage.outcome
                 case Completed(tokens) => after.consumed == pool.consumed + tokens
                 case Failed => after.consumed == pool.consumed + agent.reservation
                 case Cancelled => after.consumed == pool.consumed + agent.reservation
                 case TimedOut => after.consumed == pool.consumed + agent.reservation
  {
  }

  /** A worker's report, settled: within the reservation it is charged as reported, else in full. */
  lemma ReportsAreCharged(limits: Limits, pool: Pool, i: nat, report: Report)
    ensures Enabled(pool, Step.Report(i, report)) ==>
              var left := Apply(limits, pool, Step.Report(i, report));
              Enabled(left, Finalize(i)) &&
              var after, agent := Apply(limits, left, Finalize(i)), pool.agents[i];
              && after.slots == pool.slots + 1
              && match report
                 case Returned(tokens) =>
                   if tokens <= agent.reservation
                   then after.consumed == pool.consumed + tokens && after.agents[i].stage == Settled(Completed(tokens))
                   else after.consumed == pool.consumed + agent.reservation && after.agents[i].stage == Settled(Failed)
                 case Raised => after.consumed == pool.consumed + agent.reservation && after.agents[i].stage == Settled(Failed)
                 case Late => after.consumed == pool.consumed + agent.reservation && after.agents[i].stage == Settled(TimedOut)
                              && after.agents[i].cancelled
  {
  }

  /** An agent cancelled before its slot came never works: it leaves as cancelled, gives the slot back, and costs its reservation. */
  lemma CancelledNeverWorks(limits: Limits, pool: Pool, i: nat)
    ensures Enabled(pool, Begin(i)) && pool.agents[i].cancelled ==>
              var left := Apply(limits, pool, Begin(i));
              && left.slots == pool.slots + 1 && left.agents[i].stage == Leaving(Cancelled)
              && Enabled(left, Finalize(i)) && Apply(limits, left, Finalize(i)).consumed == pool.consumed + pool.agents[i].reservation
    ensures Enabled(pool, Begin(i)) && !pool.agents[i].cancelled ==>
              var working := Apply(limits, pool, Begin(i));
              working.agents[i].stage == Working && working.agents[i].running && working.slots == pool.slots
    ensures Enabled(pool, Interrupt(i)) ==>
              var left := Apply(limits, pool, Interrupt(i));
              left.agents[i].stage == Leaving(Cancelled) && left.agents[i].cancelled
  {
  }

  /** The agent a step is about, if it is about one that has been spawned. */
  function About(step: Step): Option<nat> {
    match step
    case Acquire(i) => Some(i)
    case Begin(i) => Some(i)
    case Report(i, _) => Some(i)
    case Interrupt(i) => Some(i)
    case Finalize(i) => Some(i)
    case LoseFinalize(i) => Some(i)
    case Spawn(_, _, _) => None
    case Cancel(_) => None
  }

  /** A step about one agent leaves all others alone, and of its own agent changes only flags and stage; short of settling,
      the accounts do not move, and only taking and leaving a slot moves the slots. */
  lemma StepsTouchOneAgent(limits: Limits, pool: Pool, step: Step, j: nat)
    ensures About(step).Some? && Enabled(pool, step) && j < |pool.agents| ==>
              var i, after := About(step).value, Apply(limits, pool, step);
              && |after.agents| == |pool.agents| && after.totalStarted == pool.totalStarted
              && (j != i ==> after.agents[j] == pool.agents[j])
              && after.agents[j] == pool.agents[j].(running := after.agents[j].running, cancelled := after.agents[j].cancelled,
                                                    stage := after.agents[j].stage)
              && (!step.Finalize? ==> after.active == pool.active && after.consumed == pool.consumed)
              && after.slots == pool.slots + (if Holds(pool.agents[i].stage) && !Holds(after.agents[i].stage) then 1 else 0)
                                - (if !Holds(pool.agents[i].stage) && Holds(after.agents[i].stage) then 1 else 0)
    ensures step.Acquire? && Enabled(pool, step) ==>
              Apply(limits, pool, step).agents[step.agent] == pool.agents[step.agent].(stage := Holding)
    ensures step.LoseFinalize? && Enabled(pool, step) ==>
              var agent := pool.agents[step.agent];
              Apply(limits, pool, step) == pool.(agents := pool.agents[step.agent := agent.(stage := Lost(agent.stage.outcome))])
  {
  }

  // ---------- Which spawns are accepted

  /** The parent is working or on its way out, of the same session, and not as deep as allowed. */
  ghost predicate MayParent(limits: Limits, agents: seq<Agent>, session: int, p: nat) {
    && p < |agents| && agents[p].running && !agents[p].stage.Settled? && agents[p].session == session
    && ParentsComeFirst(agents) && |Lineage(agents, p)| < limits.maxDepth
  }

  /** Everything a spawn needs, in terms of the agents alone. */
  ghost predicate Affordable(limits: Limits, agents: seq<Agent>, session: int, parent: Option<nat>, tokens: int) {
    && |agents| < limits.maxTotal && 1 <= tokens <= limits.maxTokensPerAgent
    && (match parent case None => limits.maxDepth >= 1 case Some(p) => MayParent(limits, agents, session, p))
    && Billed(agents) + Held(agents) + tokens <= limits.maxTotalTokens
  }

  /** In every run, a spawn is accepted exactly when it can be afforded; it then adds one queued child and its
      reservation, and otherwise it changes nothing. */
  lemma SpawnIffAffordable(limits: Limits, steps: seq<Step>, session: int, parent: Option<nat>, tokens: int)
    ensures var pool := Run(limits, EmptyPool(limits), steps);
            var after := Apply(limits, pool, Spawn(session, parent, tokens));
            && (SpawnCheck(limits, pool, session, parent, tokens).None? <==> Affordable(limits, pool.agents, session, parent, tokens))
            && (Affordable(limits, pool.agents, session, parent, tokens) ==>
                  && |after.agents| == |pool.agents| + 1 && after.agents[..|pool.agents|] == pool.agents
                  && after.active == pool.active + tokens && after.consumed == pool.consumed && after.slots == pool.slots
                  && var child := after.agents[|pool.agents|];
                     child.session == session && child.parent == parent && child.reservation == tokens
                     && child.stage == Queued && !child.running && !child.cancelled)
            && (!Affordable(limits, pool.agents, session, parent, tokens) ==> after == pool)
  {
    EveryRunIsBounded(limits, steps);
    ConsumedIsBilled(limits, steps);
    var pool := Run(limits, EmptyPool(limits), steps);
    assert forall i | 0 <= i < |pool.agents| :: AgentOk(limits, pool.agents, i);
    hide Run, Billed, Held;
    if parent.Some? && parent.value < |pool.agents| {
      LineageIsDepth(limits, pool.agents, parent.value);
    }
    hide Lineage;
  }

  /** A refused spawn is told something that is true. */
  lemma RefusalsAreTrue(limits: Limits, steps: seq<Step>, session: int, parent: Option<nat>, tokens: int)
    ensures var pool := Run(limits, EmptyPool(limits), steps);
            var agents := pool.agents;
            match SpawnCheck(limits, pool, session, parent, tokens)
            case None => true
            case Some(LifetimeLimit) => |agents| == limits.maxTotal
            case Some(AgentBudget) => tokens < 1 || tokens > limits.maxTokensPerAgent
            case Some(ParentNotRunning) =>
              parent.Some? && (parent.value >= |agents| || !agents[parent.value].running || agents[parent.value].stage.Settled?)
            case Some(ForeignParent) => parent.Some? && parent.value < |agents| && agents[parent.value].session != session
            case Some(DepthLimit) =>
              if parent.Some? then parent.value < |agents| && agents[parent.value].depth == limits.maxDepth else limits.maxDepth == 0
            case Some(AggregateBudget) => Billed(agents) + Held(agents) + tokens > limits.maxTotalTokens
            case Some(AuditFailed) => false
  {
    EveryRunIsBounded(limits, steps);
    ConsumedIsBilled(limits, steps);
    hide Run, Billed, Held;
  }
}
