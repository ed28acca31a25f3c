/**
 The subagent scheduler: token reservations, a parent tree, hierarchical cancel and a
 semaphore, under every interleaving of its atomic steps. An agent is known by its
 place in spawn order.
 */
module Subagents {
  import opened Wrappers

  datatype Limits = Limits(maxConcurrent: nat, maxTotal: nat, maxDepth: nat, maxTokensPerAgent: nat, maxTotalTokens: nat)

  datatype Outcome = Completed(tokens: nat) | Failed | Cancelled | TimedOut

  /** How a worker's run ends. */
  datatype Report = Returned(tokens: nat) | Raised | Late

  /** Queued for a slot; holding one; working in it; out of it with an outcome that is
      not yet settled; settled; or interrupted before it could settle. */
  datatype Stage = Queued | Holding | Working | Leaving(outcome: Outcome) | Settled(outcome: Outcome) | Lost(outcome: Outcome)

  datatype Agent = Agent(session: int, parent: Option<nat>, depth: nat, reservation: nat,
                         running: bool, cancelled: bool, stage: Stage)

  datatype Pool = Pool(agents: seq<Agent>, slots: nat, totalStarted: nat, consumed: nat, active: int)

  datatype SpawnError = LifetimeLimit | AgentBudget | ParentNotRunning | ForeignParent | DepthLimit | AggregateBudget
                      | AuditFailed

  datatype Step =
    | Spawn(session: int, parent: Option<nat>, tokens: int)
    | Acquire(agent: nat)
    | Begin(agent: nat)
    | Report(agent: nat, report: Report)
    | Interrupt(agent: nat)
    | Finalize(agent: nat)
    | LoseFinalize(agent: nat)
    | Cancel(root: nat)

  predicate Holds(stage: Stage) {
    stage.Holding? || stage.Working?
  }

  function Charge(agent: Agent): nat {
    match agent.stage
    case Settled(Completed(tokens)) => tokens
    case Settled(_) => agent.reservation
    case _ => 0
  }

  function Reserved(agent: Agent): nat {
    if agent.stage.Settled? then 0 else agent.reservation
  }

  function Sum(agents: seq<Agent>, f: Agent -> nat): nat {
    if agents == [] then 0 else Sum(agents[..|agents| - 1], f) + f(agents[|agents| - 1])
  }

  function Spent(agent: Agent): nat {
    if agent.stage.Settled? then agent.reservation else 0
  }

  function SlotOf(agent: Agent): nat {
    if Holds(agent.stage) then 1 else 0
  }

  // ---------- The steps

  function EmptyPool(limits: Limits): Pool {
    Pool([], limits.maxConcurrent, 0, 0, 0)
  }

  function SpawnCheck(limits: Limits, pool: Pool, session: int, parent: Option<nat>, tokens: int): Option<SpawnError> {
    if pool.totalStarted >= limits.maxTotal then Some(LifetimeLimit)
    else if !(1 <= tokens <= limits.maxTokensPerAgent) then Some(AgentBudget)
    else if parent.Some? && (parent.value >= |pool.agents| || !pool.agents[parent.value].running
                             || pool.agents[parent.value].stage.Settled?) then Some(ParentNotRunning)
    else if parent.Some? && pool.agents[parent.value].session != session then Some(ForeignParent)
    else if ChildDepth(pool, parent) > limits.maxDepth then Some(DepthLimit)
    else if pool.consumed + pool.active + tokens > limits.maxTotalTokens then Some(AggregateBudget)
    else None
  }

  function ChildDepth(pool: Pool, parent: Option<nat>): nat
    requires parent.Some? ==> parent.value < |pool.agents|
  {
    if parent.Some? then pool.agents[parent.value].depth + 1 else 1
  }

  function Outcomes(agent: Agent, report: Report): Outcome {
    match report
    case Returned(tokens) => if tokens > agent.reservation then Failed else Completed(tokens)
    case Raised => Failed
    case Late => TimedOut
  }

  /** Leaving the slot, if the agent holds one. */
  function Leave(pool: Pool, i: nat, outcome: Outcome, cancelled: bool): Pool
    requires i < |pool.agents|
  {
    var agent := pool.agents[i];
    pool.(agents := pool.agents[i := agent.(stage := Leaving(outcome), cancelled := cancelled)],
          slots := pool.slots + SlotOf(agent))
  }

  /** Whether the scheduler can take the step at all. */
  predicate Enabled(pool: Pool, step: Step) {
    match step
    case Spawn(_, _, _) => true
    case Acquire(i) => i < |pool.agents| && pool.agents[i].stage.Queued? && pool.slots > 0
    case Begin(i) => i < |pool.agents| && pool.agents[i].stage.Holding?
    case Report(i, _) => i < |pool.agents| && pool.agents[i].stage.Working?
    case Interrupt(i) => i < |pool.agents| && (pool.agents[i].stage.Queued? || Holds(pool.agents[i].stage))
    case Finalize(i) => i < |pool.agents| && pool.agents[i].stage.Leaving?
    case LoseFinalize(i) => i < |pool.agents| && pool.agents[i].stage.Leaving?
    case Cancel(root) => root < |pool.agents|
  }

  function Apply(limits: Limits, pool: Pool, step: Step): Pool
    requires Enabled(pool, step)
  {
    match step
    case Spawn(session, parent, tokens) =>
      if SpawnCheck(limits, pool, session, parent, tokens).Some? then pool
      else
        var agent := Agent(session, parent, ChildDepth(pool, parent), tokens, false, false, Queued);
        pool.(agents := pool.agents + [agent], totalStarted := pool.totalStarted + 1, active := pool.active + tokens)
    case Acquire(i) =>
      pool.(agents := pool.agents[i := pool.agents[i].(stage := Holding)], slots := pool.slots - 1)
    case Begin(i) =>
      var begun := pool.(agents := pool.agents[i := pool.agents[i].(running := true, stage := Working)]);
      if pool.agents[i].cancelled then Leave(begun, i, Cancelled, true) else begun
    case Report(i, report) =>
      Leave(pool, i, Outcomes(pool.agents[i], report), pool.agents[i].cancelled || report.Late?)
    case Interrupt(i) => Leave(pool, i, Cancelled, true)
    case Finalize(i) =>
      var agent := pool.agents[i];
      var settled := agent.(running := false, stage := Settled(agent.stage.outcome));
      pool.(agents := pool.agents[i := settled], active := pool.active - agent.reservation,
            consumed := pool.consumed + Charge(settled))
    case LoseFinalize(i) =>
      pool.(agents := pool.agents[i := pool.agents[i].(stage := Lost(pool.agents[i].stage.outcome))])
    case Cancel(root) =>
      if ParentsComeFirst(pool.agents) then pool.(agents := Marked(pool.agents, root)) else pool
  }

  // ---------- The parent tree

  predicate ParentsComeFirst(agents: seq<Agent>) {
    forall i | 0 <= i < |agents| :: agents[i].parent.Some? ==> agents[i].parent.value < i
  }

  /** An agent and its ancestors. */
  function Lineage(agents: seq<Agent>, i: nat): set<nat>
    requires ParentsComeFirst(agents) && i < |agents|
  {
    {i} + (if agents[i].parent.Some? then Lineage(agents, agents[i].parent.value) else {})
  }

  /** Requests cancellation of the root and every descendant that has no result. */
  function Marked(agents: seq<Agent>, root: nat): (r: seq<Agent>)
    requires ParentsComeFirst(agents)
    ensures |r| == |agents|
  {
    seq(|agents|, i requires 0 <= i < |agents| =>
      if root in Lineage(agents, i) && !agents[i].stage.Settled? then agents[i].(cancelled := true) else agents[i])
  }

  // ---------- What every run keeps

  ghost predicate AgentOk(limits: Limits, agents: seq<Agent>, i: nat)
    requires i < |agents|
  {
    var agent := agents[i];
    && 1 <= agent.reservation <= limits.maxTokensPerAgent
    && 1 <= agent.depth <= limits.maxDepth
    && (match agent.parent
        case None => agent.depth == 1
        case Some(p) => p < i && agent.depth == agents[p].depth + 1 && agents[p].session == agent.session)
    && (agent.stage.Settled? || agent.stage.Queued? || agent.stage.Holding? ==> !agent.running)
    && (agent.stage.Working? ==> agent.running)
    && (match agent.stage
        case Leaving(Completed(t)) => t <= agent.reservation
        case Settled(Completed(t)) => t <= agent.reservation
        case Lost(Completed(t)) => t <= agent.reservation
        case _ => true)
  }

  ghost predicate Sound(limits: Limits, pool: Pool) {
    && (forall i | 0 <= i < |pool.agents| :: AgentOk(limits, pool.agents, i))
    && pool.totalStarted == |pool.agents| <= limits.maxTotal
    && pool.active == Sum(pool.agents, Reserved)
    && pool.consumed == Sum(pool.agents, Charge)
    && pool.consumed + pool.active <= limits.maxTotalTokens
    && pool.slots + Sum(pool.agents, SlotOf) == limits.maxConcurrent
  }

  lemma {:induction false} SumUpdate(agents: seq<Agent>, i: nat, agent: Agent, f: Agent -> nat)
    requires i < |agents|
    ensures Sum(agents[i := agent], f) + f(agents[i]) == Sum(agents, f) + f(agent)
  {
    var updated, n := agents[i := agent], |agents| - 1;
    if i == n {
      assert updated[..n] == agents[..n];
    } else {
      SumUpdate(agents[..n], i, agent, f);
      assert updated[..n] == agents[..n][i := agent];
    }
  }

  lemma SumSnoc(agents: seq<Agent>, agent: Agent, f: Agent -> nat)
    ensures Sum(agents + [agent], f) == Sum(agents, f) + f(agent)
  {
    assert (agents + [agent])[..|agents|] == agents;
  }

  lemma {:induction false} SumSame(a: seq<Agent>, b: seq<Agent>, f: Agent -> nat)
    requires |a| == |b| && forall i | 0 <= i < |a| :: f(a[i]) == f(b[i])
    ensures Sum(a, f) == Sum(b, f)
  {
    if a == [] {
    } else {
      SumSame(a[..|a| - 1], b[..|b| - 1], f);
    }
  }

  lemma {:induction false} SumBelow(agents: seq<Agent>, f: Agent -> nat, g: Agent -> nat)
    requires forall i | 0 <= i < |agents| :: f(agents[i]) <= g(agents[i])
    ensures Sum(agents, f) <= Sum(agents, g)
  {
    if agents == [] {
    } else {
      SumBelow(agents[..|agents| - 1], f, g);
    }
  }

  lemma SumsUpdate(agents: seq<Agent>, i: nat, agent: Agent)
    requires i < |agents|
    ensures Sum(agents[i := agent], Reserved) + Reserved(agents[i]) == Sum(agents, Reserved) + Reserved(agent)
    ensures Sum(agents[i := agent], Charge) + Charge(agents[i]) == Sum(agents, Charge) + Charge(agent)
    ensures Sum(agents[i := agent], SlotOf) + SlotOf(agents[i]) == Sum(agents, SlotOf) + SlotOf(agent)
  {
    SumUpdate(agents, i, agent, Reserved);
    SumUpdate(agents, i, agent, Charge);
    SumUpdate(agents, i, agent, SlotOf);
  }

  /** One agent changes on its own account, and the totals follow. */
  lemma ChangeIsSound(limits: Limits, pool: Pool, i: nat, after: Pool)
    requires Sound(limits, pool) && i < |pool.agents| == |after.agents|
    requires after.agents == pool.agents[i := after.agents[i]] && AgentOk(limits, after.agents, i)
    requires var was, now := pool.agents[i], after.agents[i];
             && now.parent == was.parent && now.depth == was.depth && now.session == was.session
             && after.active + Reserved(was) == pool.active + Reserved(now)
             && after.consumed + Charge(was) == pool.consumed + Charge(now)
             && after.slots + SlotOf(now) == pool.slots + SlotOf(was)
             && Reserved(now) + Charge(now) <= Reserved(was) + Charge(was)
    requires after.totalStarted == pool.totalStarted
    ensures Sound(limits, after)
  {
    SumsUpdate(pool.agents, i, after.agents[i]);
    forall j | 0 <= j < |after.agents| ensures AgentOk(limits, after.agents, j) {
      assert AgentOk(limits, pool.agents, j);
    }
  }

  lemma SpawnIsSound(limits: Limits, pool: Pool, session: int, parent: Option<nat>, tokens: int)
    requires Sound(limits, pool)
    ensures Sound(limits, Apply(limits, pool, Spawn(session, parent, tokens)))
  {
    if SpawnCheck(limits, pool, session, parent, tokens).None? {
      var agent := Agent(session, parent, ChildDepth(pool, parent), tokens, false, false, Queued);
      SumSnoc(pool.agents, agent, Reserved);
      SumSnoc(pool.agents, agent, Charge);
      SumSnoc(pool.agents, agent, SlotOf);
      var agents := pool.agents + [agent];
      forall j | 0 <= j < |agents| ensures AgentOk(limits, agents, j) {
        if j < |pool.agents| {
          assert AgentOk(limits, pool.agents, j);
        }
      }
    }
  }

  lemma CancelIsSound(limits: Limits, pool: Pool, root: nat)
    requires Sound(limits, pool) && root < |pool.agents|
    ensures Sound(limits, Apply(limits, pool, Cancel(root)))
  {
    SoundParentsComeFirst(limits, pool.agents);
    var marked := Marked(pool.agents, root);
    MarkedAgents(limits, pool.agents, root);
    hide AgentOk, Marked, Lineage, Reserved, Charge, SlotOf;
    SumSame(pool.agents, marked, Reserved);
    SumSame(pool.agents, marked, Charge);
    SumSame(pool.agents, marked, SlotOf);
  }

  lemma SoundParentsComeFirst(limits: Limits, agents: seq<Agent>)
    requires forall i | 0 <= i < |agents| :: AgentOk(limits, agents, i)
    ensures ParentsComeFirst(agents)
  {
    forall i | 0 <= i < |agents| ensures agents[i].parent.Some? ==> agents[i].parent.value < i {
      assert AgentOk(limits, agents, i);
    }
  }

  lemma MarkedAgents(limits: Limits, agents: seq<Agent>, root: nat)
    requires ParentsComeFirst(agents) && forall i | 0 <= i < |agents| :: AgentOk(limits, agents, i)
    ensures var marked := Marked(agents, root);
            forall i | 0 <= i < |agents| ::
              && AgentOk(limits, marked, i) && Reserved(marked[i]) == Reserved(agents[i])
              && Charge(marked[i]) == Charge(agents[i]) && SlotOf(marked[i]) == SlotOf(agents[i])
  {
    var marked := Marked(agents, root);
    hide Lineage;
    forall i | 0 <= i < |agents|
      ensures && AgentOk(limits, marked, i) && Reserved(marked[i]) == Reserved(agents[i])
              && Charge(marked[i]) == Charge(agents[i]) && SlotOf(marked[i]) == SlotOf(agents[i])
    {
      assert AgentOk(limits, agents, i);
    }
  }

  /** An agent leaves its slot, if it has one, with an outcome within its reservation. */
  lemma LeaveIsSound(limits: Limits, pool: Pool, i: nat, outcome: Outcome, cancelled: bool)
    requires Sound(limits, pool) && i < |pool.agents|
    requires var stage := pool.agents[i].stage; stage.Queued? || Holds(stage)
    requires outcome.Completed? ==> outcome.tokens <= pool.agents[i].reservation
    ensures Sound(limits, Leave(pool, i, outcome, cancelled))
  {
    hide Sum, Sound;
    SoundAgent(limits, pool, i);
    ChangeIsSound(limits, pool, i, Leave(pool, i, outcome, cancelled));
  }

  lemma BeginIsSound(limits: Limits, pool: Pool, i: nat)
    requires Sound(limits, pool) && Enabled(pool, Begin(i))
    ensures Sound(limits, Apply(limits, pool, Begin(i)))
  {
    hide Sum, Sound;
    var begun := pool.(agents := pool.agents[i := pool.agents[i].(running := true, stage := Working)]);
    SoundAgent(limits, pool, i);
    ChangeIsSound(limits, pool, i, begun);
    if pool.agents[i].cancelled {
      LeaveIsSound(limits, begun, i, Cancelled, true);
    }
  }

  lemma OwnStepIsSound(limits: Limits, pool: Pool, step: Step)
    requires Sound(limits, pool) && Enabled(pool, step)
    requires step.Acquire? || step.Finalize? || step.LoseFinalize?
    ensures Sound(limits, Apply(limits, pool, step))
  {
    hide Sum, Sound;
    SoundAgent(limits, pool, step.agent);
    ChangeIsSound(limits, pool, step.agent, Apply(limits, pool, step));
  }

  /** Every step of every caller, worker and canceller keeps the pool sound. */
  lemma StepIsSound(limits: Limits, pool: Pool, step: Step)
    requires Sound(limits, pool) && Enabled(pool, step)
    ensures Sound(limits, Apply(limits, pool, step))
  {
    hide Sum, Sound, SpawnCheck, ParentsComeFirst, Leave, AgentOk;
    match step {
      case Spawn(session, parent, tokens) => SpawnIsSound(limits, pool, session, parent, tokens);
      case Cancel(root) => CancelIsSound(limits, pool, root);
      case Begin(i) => BeginIsSound(limits, pool, i);
      case Report(i, report) =>
        LeaveIsSound(limits, pool, i, Outcomes(pool.agents[i], report), pool.agents[i].cancelled || report.Late?);
      case Interrupt(i) => LeaveIsSound(limits, pool, i, Cancelled, true);
      case _ => OwnStepIsSound(limits, pool, step);
    }
  }

  lemma SoundAgent(limits: Limits, pool: Pool, i: nat)
    requires Sound(limits, pool) && i < |pool.agents|
    ensures AgentOk(limits, pool.agents, i)
  {
  }

  /** The pool after the steps that were enabled when their turn came. */
  function Run(limits: Limits, pool: Pool, steps: seq<Step>): Pool
    decreases |steps|
  {
    if steps == [] then pool
    else Run(limits, if Enabled(pool, steps[0]) then Apply(limits, pool, steps[0]) else pool, steps[1..])
  }

  lemma {:induction false} RunIsSound(limits: Limits, pool: Pool, steps: seq<Step>)
    requires Sound(limits, pool)
    ensures Sound(limits, Run(limits, pool, steps))
    decreases |steps|
  {
    if steps == [] {
    } else {
      if Enabled(pool, steps[0]) {
        StepIsSound(limits, pool, steps[0]);
        RunIsSound(limits, Apply(limits, pool, steps[0]), steps[1..]);
      } else {
        RunIsSound(limits, pool, steps[1..]);
      }
    }
  }

  /** The bounds a caller relies on, in every reachable state. */
  lemma EveryRunIsBounded(limits: Limits, steps: seq<Step>)
    ensures var pool := Run(limits, EmptyPool(limits), steps);
            && Sound(limits, pool)
            && pool.consumed + pool.active <= limits.maxTotalTokens
            && pool.active == Sum(pool.agents, Reserved)
            && pool.consumed <= Sum(pool.agents, Spent)
            && |pool.agents| <= limits.maxTotal
            && Sum(pool.agents, SlotOf) <= limits.maxConcurrent
            && forall i | 0 <= i < |pool.agents| :: pool.agents[i].depth <= limits.maxDepth
  {
    RunIsSound(limits, EmptyPool(limits), steps);
    var pool := Run(limits, EmptyPool(limits), steps);
    forall i | 0 <= i < |pool.agents|
      ensures pool.agents[i].depth <= limits.maxDepth && Charge(pool.agents[i]) <= Spent(pool.agents[i])
    {
      assert AgentOk(limits, pool.agents, i);
    }
    SumBelow(pool.agents, Charge, Spent);
  }

  lemma {:induction false} LineageIsDepth(limits: Limits, agents: seq<Agent>, i: nat)
    requires i < |agents| && forall j | 0 <= j < |agents| :: AgentOk(limits, agents, j)
    ensures ParentsComeFirst(agents)
    ensures |Lineage(agents, i)| == agents[i].depth && forall j | j in Lineage(agents, i) :: j <= i
  {
    forall j | 0 <= j < |agents| ensures agents[j].parent.Some? ==> agents[j].parent.value < j {
      assert AgentOk(limits, agents, j);
    }
    assert AgentOk(limits, agents, i);
    if agents[i].parent.Some? {
      LineageIsDepth(limits, agents, agents[i].parent.value);
    }
  }

  /** Cancel marks exactly the unsettled agents of the root's subtree, and changes nothing else. */
  lemma CancelMarksTheSubtree(limits: Limits, pool: Pool, root: nat, i: nat)
    requires Sound(limits, pool) && root < |pool.agents| && i < |pool.agents|
    ensures ParentsComeFirst(pool.agents)
    ensures var after := Apply(limits, pool, Cancel(root));
            && after == pool.(agents := after.agents) && |after.agents| == |pool.agents|
            && after.agents[i] == pool.agents[i].(cancelled := after.agents[i].cancelled)
            && (after.agents[i].cancelled
                <==> pool.agents[i].cancelled || (root in Lineage(pool.agents, i) && !pool.agents[i].stage.Settled?))
  {
    LineageIsDepth(limits, pool.agents, i);
  }

  // ---------- The manager

  class SubagentManager {
    const limits: Limits
    var agents: seq<Agent>
    var slots: nat
    var totalStarted: nat
    var consumed: nat
    var active: int

    ghost function State(): Pool
      reads this
    {
      Pool(agents, slots, totalStarted, consumed, active)
    }

    ghost predicate Valid()
      reads this
    {
      Sound(limits, State())
    }

    constructor (limits: Limits)
      ensures Valid() && this.limits == limits && State() == EmptyPool(limits)
    {
      this.limits := limits;
      agents, slots, totalStarted, consumed, active := [], limits.maxConcurrent, 0, 0, 0;
    }

    /** The limits, in the order they are checked, and the depth a child would have. */
    method CheckSpawn(session: int, parent: Option<nat>, tokens: int) returns (error: Option<SpawnError>, depth: nat)
      ensures error == SpawnCheck(limits, State(), session, parent, tokens)
      ensures error.None? ==> depth == ChildDepth(State(), parent)
    {
      depth := 1;
      if totalStarted >= limits.maxTotal {
        return Some(LifetimeLimit), depth;
      }
      if !(1 <= tokens <= limits.maxTokensPerAgent) {
        return Some(AgentBudget), depth;
      }
      if parent.Some? {
        if parent.value >= |agents| || !agents[parent.value].running || agents[parent.value].stage.Settled? {
          return Some(ParentNotRunning), depth;
        }
        if agents[parent.value].session != session {
          return Some(ForeignParent), depth;
        }
        depth := agents[parent.value].depth + 1;
      }
      if depth > limits.maxDepth {
        return Some(DepthLimit), depth;
      }
      if consumed + active + tokens > limits.maxTotalTokens {
        return Some(AggregateBudget), depth;
      }
      return None, depth;
    }

    /** `auditFails` says whether recording the spawn raises; it comes after the checks and before any change. */
    method Spawn(session: int, parent: Option<nat>, tokens: int, auditFails: bool) returns (r: Result<nat, SpawnError>)
      requires Valid()
      modifies this
      ensures Valid()
      ensures State() == if auditFails then old(State()) else Apply(limits, old(State()), Step.Spawn(session, parent, tokens))
      ensures r.Ok? ==> r.value == |old(agents)| == |agents| - 1 && old(agents) <= agents
      ensures r.Err? ==> State() == old(State())
                         && match SpawnCheck(limits, old(State()), session, parent, tokens)
                            case Some(e) => r.error == e
                            case None => auditFails && r.error == AuditFailed
      ensures auditFails ==> r.Err?
    {
      SpawnIsSound(limits, State(), session, parent, tokens);
      hide Sound, SpawnCheck, ChildDepth;
      var error, depth := CheckSpawn(session, parent, tokens);
      if error.Some? {
        return Err(error.value);
      }
      if auditFails {
        return Err(AuditFailed);
      }
      agents := agents + [Agent(session, parent, depth, tokens, false, false, Queued)];
      totalStarted := totalStarted + 1;
      active := active + tokens;
      return Ok(|agents| - 1);
    }

    /** `_execute`, up to the worker: the slot, then the running flag, then the cancellation check. */
    method AcquireSlot(i: nat)
      requires Valid() && Enabled(State(), Acquire(i))
      modifies this
      ensures Valid() && State() == Apply(limits, old(State()), Acquire(i))
    {
      StepIsSound(limits, State(), Acquire(i));
      slots := slots - 1;
      agents := agents[i := agents[i].(stage := Holding)];
    }

    method BeginWork(i: nat)
      requires Valid() && Enabled(State(), Begin(i))
      modifies this
      ensures Valid() && State() == Apply(limits, old(State()), Begin(i))
    {
      StepIsSound(limits, State(), Begin(i));
      agents := agents[i := agents[i].(running := true, stage := Working)];
      if agents[i].cancelled {
        ReleaseSlot(i, Cancelled, true);
      }
    }

    method EndWork(i: nat, report: Report)
      requires Valid() && Enabled(State(), Step.Report(i, report))
      modifies this
      ensures Valid() && State() == Apply(limits, old(State()), Step.Report(i, report))
    {
      StepIsSound(limits, State(), Step.Report(i, report));
      match report {
        case Returned(tokens) =>
          if tokens > agents[i].reservation {
            ReleaseSlot(i, Failed, agents[i].cancelled);
          } else {
            ReleaseSlot(i, Completed(tokens), agents[i].cancelled);
          }
        case Raised => ReleaseSlot(i, Failed, agents[i].cancelled);
        case Late => ReleaseSlot(i, TimedOut, true);
      }
    }

    /** A CancelledError before the outcome is known. */
    method InterruptWork(i: nat)
      requires Valid() && Enabled(State(), Interrupt(i))
      modifies this
      ensures Valid() && State() == Apply(limits, old(State()), Interrupt(i))
    {
      StepIsSound(limits, State(), Interrupt(i));
      ReleaseSlot(i, Cancelled, true);
    }

    method ReleaseSlot(i: nat, outcome: Outcome, cancelled: bool)
      requires i < |agents|
      modifies this`agents, this`slots
      ensures State() == Leave(old(State()), i, outcome, cancelled)
    {
      if Holds(agents[i].stage) {
        slots := slots + 1;
      }
      agents := agents[i := agents[i].(stage := Leaving(outcome), cancelled := cancelled)];
    }

    method FinalizeAgent(i: nat)
      requires Valid() && Enabled(State(), Finalize(i))
      modifies this
      ensures Valid() && State() == Apply(limits, old(State()), Finalize(i))
    {
      StepIsSound(limits, State(), Finalize(i));
      var outcome := agents[i].stage.outcome;
      agents := agents[i := agents[i].(running := false, stage := Settled(outcome))];
      active := active - agents[i].reservation;
      var charged := if outcome.Completed? then outcome.tokens else agents[i].reservation;
      consumed := consumed + charged;
    }

    method CancelTree(root: nat) returns (r: Result<(), ()>)
      requires Valid()
      modifies this`agents
      ensures Valid() && (r.Err? <==> root >= |old(agents)|)
      ensures State() == if root < |old(agents)| then Apply(limits, old(State()), Cancel(root)) else old(State())
    {
      if root >= |agents| {
        return Err(());
      }
      CancelIsSound(limits, State(), root);
      SoundParentsComeFirst(limits, agents);
      hide Sound, AgentOk;
      var targets := DescendantsIncluding(root);
      MarkAll(root, targets);
      return Ok(());
    }

    method MarkAll(root: nat, targets: set<nat>)
      requires ParentsComeFirst(agents)
      requires forall i | 0 <= i < |agents| :: i in targets <==> root in Lineage(agents, i)
      modifies this`agents
      ensures agents == Marked(old(agents), root)
    {
      for i := 0 to |agents|
        invariant |agents| == |old(agents)|
        invariant forall j | i <= j < |agents| :: agents[j] == old(agents)[j]
        invariant forall j | 0 <= j < i :: agents[j] == Marked(old(agents), root)[j]
      {
        if i in targets && !agents[i].stage.Settled? {
          agents := agents[i := agents[i].(cancelled := true)];
        }
      }
    }

    /** Grows the set until a whole pass adds nothing. */
    method DescendantsIncluding(root: nat) returns (targets: set<nat>)
      requires ParentsComeFirst(agents) && root < |agents|
      ensures forall i | 0 <= i < |agents| :: i in targets <==> root in Lineage(agents, i)
    {
      targets := {root};
      var changed := true;
      while changed
        invariant root in targets && InTree(agents, root, targets)
        invariant !changed ==> ClosedDownTo(agents, targets, |agents|)
        decreases |agents| - |targets|, changed
      {
        changed := false;
        ghost var before := targets;
        TreeIsFinite(agents, root, targets);
        for i := 0 to |agents|
          invariant root in targets && InTree(agents, root, targets)
          invariant if changed then |targets| > |before| else targets == before
          invariant !changed ==> ClosedDownTo(agents, targets, i)
        {
          if agents[i].parent.Some? && agents[i].parent.value in targets && i !in targets {
            targets := targets + {i};
            changed := true;
          }
        }
        TreeIsFinite(agents, root, targets);
      }
      forall i | 0 <= i < |agents| && root in Lineage(agents, i) ensures i in targets {
        ClosedHoldsTree(agents, root, targets, i);
      }
    }
  }

  ghost predicate InTree(agents: seq<Agent>, root: nat, targets: set<nat>)
    requires ParentsComeFirst(agents)
  {
    forall i | i in targets :: i < |agents| && root in Lineage(agents, i)
  }

  ghost predicate ClosedDownTo(agents: seq<Agent>, targets: set<nat>, n: nat)
    requires n <= |agents|
  {
    forall i | 0 <= i < n && agents[i].parent.Some? && agents[i].parent.value in targets :: i in targets
  }

  lemma {:induction false} ClosedHoldsTree(agents: seq<Agent>, root: nat, targets: set<nat>, i: nat)
    requires ParentsComeFirst(agents) && root in targets && i < |agents|
    requires ClosedDownTo(agents, targets, |agents|) && root in Lineage(agents, i)
    ensures i in targets
  {
    if i != root {
      ClosedHoldsTree(agents, root, targets, agents[i].parent.value);
    }
  }

  lemma TreeIsFinite(agents: seq<Agent>, root: nat, targets: set<nat>)
    requires ParentsComeFirst(agents) && InTree(agents, root, targets)
    ensures |targets| <= |agents|
  {
    BoundedSet(targets, |agents|);
  }

  lemma {:induction false} BoundedSet(s: set<nat>, n: nat)
    requires forall i | i in s :: i < n
    ensures |s| <= n
  {
    if n == 0 {
      assert s == {};
    } else {
      BoundedSet(s - {n - 1}, n - 1);
    }
  }
}
