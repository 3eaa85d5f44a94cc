/**
 * The compiled graph: starting at the entry node, run the current node,
 * merge its update into the state, ask the routing for the next node, and
 * repeat until `End`. `Run` states a whole run as a function; `Invoke` is
 * the step loop, proved to compute it. The lemmas show that every run ends,
 * whatever the critics answer, with at most four drafts.
 */
module Engine {
  import opened Wrappers
  import opened State
  import opened Nodes
  import opened Routing

  /**
   * Everything a run receives from outside: the language model's outcome at
   * each step, the search tool's answer at each step for each sub-query, and
   * `json.loads`.
   */
  datatype Oracles = Oracles(
    llm: nat -> Reply,
    search: nat -> Json -> SearchReply,
    decode: string -> Option<Json>)

  /** How a run stopped: at `End`, or because a node raised. */
  datatype Status = Completed | Crashed(at: Stage)

  /** One executed node and the state right after its update was merged. */
  datatype Visit = Visit(stage: Stage, after: AgentState)

  /** The visits of a run in order, its last state, and how it stopped. */
  datatype RunResult = RunResult(trace: seq<Visit>, final: AgentState, status: Status)

  /**
   * The input state a run starts from for one user query: the query as the
   * only message, in budget at the entry node with all four drafts still
   * allowed.
   */
  function InitialState(query: string): (s: AgentState)
    ensures s.messages == [Human(query)] && s.query == query
    ensures InBudget(RouterNode, s.revisionCount) && Slack(s.revisionCount) == 4
  {
    AgentState([Human(query)], query, [], [], "", "", 0, false, true)
  }

  /**
   * The node `stage` at step `k`. Only the synthesis node returns
   * `revision_count`, and only the redirect node returns messages.
   */
  function Apply(stage: Stage, s: AgentState, k: nat, o: Oracles): (r: NodeResult)
    requires stage != End
    ensures r.Returned? && stage == SynthesisNode ==> r.update.revisionCount == Some(s.revisionCount + 1)
    ensures r.Returned? && stage != SynthesisNode ==> r.update.revisionCount == None
    ensures r.Returned? && stage != RedirectNode ==> r.update.messages == []
    ensures r.Returned? && (stage == NeutralizerNode || stage == FactCheckerNode) ==> r.update.isValid.Some?
  {
    match stage
    case RouterNode => RouterUpdate(s, o.llm(k), o.decode)
    case PlannerNode => PlannerUpdate(s, o.llm(k), o.decode)
    case ResearcherNode => ResearcherUpdate(s, o.search(k))
    case SynthesisNode => SynthesisUpdate(s, o.llm(k))
    case NeutralizerNode => NeutralizerUpdate(s, o.llm(k))
    case FactCheckerNode => FactCheckerUpdate(s, o.llm(k))
    case RedirectNode => RedirectUpdate(s)
  }

  /**
   * A node table: what each node returns from a state at a step. The run
   * and its bounds are stated for any table that keeps the nodes' contract;
   * `Compiled` is the table of this graph.
   */
  type NodeStep = (Stage, AgentState, nat) -> NodeResult

  /** What the engine's proofs need from one node execution: `Apply`'s contract. */
  predicate KeepsContract(stage: Stage, s: AgentState, r: NodeResult) {
    stage != End && r.Returned? ==>
      && r.update.revisionCount == (if stage == SynthesisNode then Some(s.revisionCount + 1) else None)
      && (stage != RedirectNode ==> r.update.messages == [])
      && ((stage == NeutralizerNode || stage == FactCheckerNode) ==> r.update.isValid.Some?)
  }

  /** Every node of the table keeps the contract, in every state and at every step. */
  ghost predicate Conforms(step: NodeStep) {
    forall stage, s, k :: KeepsContract(stage, s, step(stage, s, k))
  }

  /** The graph's own node table over the given model, search tool and decoder; its nodes keep the contract. */
  function Compiled(o: Oracles): (step: NodeStep)
    ensures Conforms(step)
  {
    (stage: Stage, s: AgentState, k: nat) => if stage == End then Raised else Apply(stage, s, k, o)
  }

  /** Drafts that may still be written before the neutrality ceiling stops the run. */
  function Slack(revisionCount: int): nat {
    if revisionCount < 4 then 4 - revisionCount else 0
  }

  /**
   * The termination measure along the graph's edges: within one draft's
   * slack, every edge leads to a stage of lower rank.
   */
  function Rank(stage: Stage, revisionCount: int): nat {
    match stage
    case RouterNode => 6
    case PlannerNode => 5
    case ResearcherNode => 4
    case SynthesisNode => 3
    case NeutralizerNode => if revisionCount > 3 then 1 else 8
    case FactCheckerNode => 7
    case RedirectNode => 1
    case End => 0
  }

  /**
   * The run from `stage` in state `s` at step `k`. A completed run that
   * visited any node stopped because the routing after its last visit said
   * `End`.
   */
  function Run(step: NodeStep, stage: Stage, s: AgentState, k: nat): (r: RunResult)
    requires Conforms(step)
    ensures r.status == Completed && r.trace != [] ==>
      var last := r.trace[|r.trace| - 1].stage;
      last != End && Next(last, r.final) == End
    decreases Slack(s.revisionCount), Rank(stage, s.revisionCount)
  {
    if stage == End then RunResult([], s, Completed)
    else
      match step(stage, s, k)
      case Raised => RunResult([], s, Crashed(stage))
      case Returned(u) =>
        var s' := Merge(s, u);
        var rest := Run(step, Next(stage, s'), s', k + 1);
        RunResult([Visit(stage, s')] + rest.trace, rest.final, rest.status)
  }

  /** The compiled graph's `invoke`: the step loop over one state record. */
  method Invoke(input: AgentState, o: Oracles) returns (final: AgentState, status: Status)
    ensures final == Run(Compiled(o), RouterNode, input, 0).final
    ensures status == Run(Compiled(o), RouterNode, input, 0).status
  {
    var state, stage, k := input, RouterNode, 0;
    while stage != End
      invariant Run(Compiled(o), stage, state, k).final == Run(Compiled(o), RouterNode, input, 0).final
      invariant Run(Compiled(o), stage, state, k).status == Run(Compiled(o), RouterNode, input, 0).status
      decreases Slack(state.revisionCount), Rank(stage, state.revisionCount)
    {
      var result: NodeResult;
      if stage == ResearcherNode {
        var contextResults := CollectContext(state.plan, o.search(k));
        result := Returned(NoUpdate.(context := Some(contextResults)));
      } else {
        result := Apply(stage, state, k, o);
      }
      assert result == Compiled(o)(stage, state, k);
      RunStep(Compiled(o), stage, state, k);
      if result.Raised? {
        return state, Crashed(stage);
      }
      state := Merge(state, result.update);
      stage, k := Next(stage, state), k + 1;
    }
    return state, Completed;
  }

  /** One step of a run: a node that raises stops it, any other hands on to the next stage. */
  lemma RunStep(step: NodeStep, stage: Stage, s: AgentState, k: nat)
    requires Conforms(step)
    requires stage != End
    ensures step(stage, s, k).Raised? ==> Run(step, stage, s, k) == RunResult([], s, Crashed(stage))
    ensures step(stage, s, k).Returned? ==>
      var s' := Merge(s, step(stage, s, k).update);
      var rest := Run(step, Next(stage, s'), s', k + 1);
      && Run(step, stage, s, k).final == rest.final
      && Run(step, stage, s, k).status == rest.status
      && Slack(s'.revisionCount) <= Slack(s.revisionCount)
      && (Slack(s'.revisionCount) == Slack(s.revisionCount) ==>
            Rank(Next(stage, s'), s'.revisionCount) < Rank(stage, s.revisionCount))
  {
  }

  /** A node that returns is recorded as a visit, and the run goes on from the next stage. */
  lemma RunUnfold(step: NodeStep, stage: Stage, s: AgentState, k: nat)
    requires Conforms(step)
    requires stage != End && step(stage, s, k).Returned?
    ensures var s' := Merge(s, step(stage, s, k).update);
      var rest := Run(step, Next(stage, s'), s', k + 1);
      Run(step, stage, s, k) == RunResult([Visit(stage, s')] + rest.trace, rest.final, rest.status)
  {
  }

  /** How many visits of `trace` ran `stage`. */
  function Count(trace: seq<Visit>, stage: Stage): nat {
    if trace == [] then 0 else (if trace[0].stage == stage then 1 else 0) + Count(trace[1..], stage)
  }

  /**
   * `revision_count` is the number of drafts written so far: after every
   * visit it equals its start value plus the synthesis visits up to there.
   */
  lemma {:induction false} RevisionCountCountsDrafts(step: NodeStep, stage: Stage, s: AgentState, k: nat)
    requires Conforms(step)
    ensures var r := Run(step, stage, s, k);
      forall i :: 0 <= i < |r.trace| ==>
        r.trace[i].after.revisionCount == s.revisionCount + Count(r.trace[..i + 1], SynthesisNode)
    ensures var r := Run(step, stage, s, k);
      r.final.revisionCount == s.revisionCount + Count(r.trace, SynthesisNode)
    decreases Slack(s.revisionCount), Rank(stage, s.revisionCount)
  {
    if stage != End && step(stage, s, k).Returned? {
      var s' := Merge(s, step(stage, s, k).update);
      StepRevision(step, stage, s, k);
      var next := Next(stage, s');
      RevisionCountCountsDrafts(step, next, s', k + 1);
      var r, rest := Run(step, stage, s, k), Run(step, next, s', k + 1);
      assert r.trace == [Visit(stage, s')] + rest.trace && r.final == rest.final;
      assert r.trace[1..] == rest.trace;
      forall i | 0 <= i < |r.trace|
        ensures r.trace[i].after.revisionCount == s.revisionCount + Count(r.trace[..i + 1], SynthesisNode)
      {
        assert r.trace[..i + 1][0] == r.trace[0] && r.trace[..i + 1][1..] == rest.trace[..i];
        if i > 0 {
          assert r.trace[i] == rest.trace[i - 1];
        }
      }
    }
  }

  /** One step moves `revision_count` up by one at the synthesis node and leaves it alone elsewhere. */
  lemma StepRevision(step: NodeStep, stage: Stage, s: AgentState, k: nat)
    requires Conforms(step)
    requires stage != End && step(stage, s, k).Returned?
    ensures Merge(s, step(stage, s, k).update).revisionCount
      == if stage == SynthesisNode then s.revisionCount + 1 else s.revisionCount
  {
    var u := step(stage, s, k).update;
    if stage == SynthesisNode {
      assert Returns(u, RevisionCount) && Holds(Merge(s, u), u, RevisionCount);
    } else {
      assert !Returns(u, RevisionCount) && Agree(s, Merge(s, u), RevisionCount);
    }
  }

  /** `revision_count` never goes down along a run. */
  lemma {:induction false} RevisionCountNeverDecreases(step: NodeStep, stage: Stage, s: AgentState, k: nat)
    requires Conforms(step)
    ensures var r := Run(step, stage, s, k);
      forall i, j :: 0 <= i <= j < |r.trace| ==> r.trace[i].after.revisionCount <= r.trace[j].after.revisionCount
    ensures var r := Run(step, stage, s, k);
      forall i :: 0 <= i < |r.trace| ==> s.revisionCount <= r.trace[i].after.revisionCount <= r.final.revisionCount
    ensures s.revisionCount <= Run(step, stage, s, k).final.revisionCount
    decreases Slack(s.revisionCount), Rank(stage, s.revisionCount)
  {
    if stage != End && step(stage, s, k).Returned? {
      var u := step(stage, s, k).update;
      var s' := Merge(s, u);
      StepRevision(step, stage, s, k);
      var next := Next(stage, s');
      RevisionCountNeverDecreases(step, next, s', k + 1);
      var r, rest := Run(step, stage, s, k), Run(step, next, s', k + 1);
      assert r.trace == [Visit(stage, s')] + rest.trace;
      assert r.final == rest.final;
      forall i, j | 0 <= i <= j < |r.trace|
        ensures r.trace[i].after.revisionCount <= r.trace[j].after.revisionCount
      {
        if i > 0 {
          assert r.trace[i] == rest.trace[i - 1] && r.trace[j] == rest.trace[j - 1];
        } else if j > 0 {
          assert r.trace[j] == rest.trace[j - 1];
        }
      }
      forall i | 0 <= i < |r.trace|
        ensures s.revisionCount <= r.trace[i].after.revisionCount <= r.final.revisionCount
      {
        if i > 0 {
          assert r.trace[i] == rest.trace[i - 1];
        }
      }
    }
  }

  /** Where a stage may be entered without passing the neutrality ceiling of four drafts. */
  predicate InBudget(stage: Stage, revisionCount: int) {
    match stage
    case NeutralizerNode => revisionCount <= 4
    case RedirectNode => revisionCount <= 4
    case End => revisionCount <= 4
    case _ => revisionCount <= 3
  }

  /**
   * Within the budget, a run ends with at most four drafts, and the fact
   * checker only ever sees a count of three or less.
   */
  lemma {:induction false} StaysInBudget(step: NodeStep, stage: Stage, s: AgentState, k: nat)
    requires Conforms(step)
    requires InBudget(stage, s.revisionCount)
    ensures Run(step, stage, s, k).final.revisionCount <= 4
    ensures var r := Run(step, stage, s, k);
      forall i :: 0 <= i < |r.trace| && r.trace[i].stage == FactCheckerNode ==> r.trace[i].after.revisionCount <= 3
    decreases Slack(s.revisionCount), Rank(stage, s.revisionCount)
  {
    if stage != End && step(stage, s, k).Returned? {
      var u := step(stage, s, k).update;
      var s' := Merge(s, u);
      StepRevision(step, stage, s, k);
      var next := Next(stage, s');
      assert InBudget(next, s'.revisionCount);
      StaysInBudget(step, next, s', k + 1);
      var r, rest := Run(step, stage, s, k), Run(step, next, s', k + 1);
      assert r.trace == [Visit(stage, s')] + rest.trace;
      forall i | 0 <= i < |r.trace| && r.trace[i].stage == FactCheckerNode
        ensures r.trace[i].after.revisionCount <= 3
      {
        if i > 0 {
          assert r.trace[i] == rest.trace[i - 1];
        }
      }
    }
  }

  /** The most node executions a run from `stage` can take within the budget. */
  function MaxSteps(stage: Stage, revisionCount: int): int {
    var slack := Slack(revisionCount);
    match stage
    case RouterNode => 4 * slack + 1
    case PlannerNode => 4 * slack
    case ResearcherNode => 4 * slack - 1
    case SynthesisNode => 4 * slack - 2
    case NeutralizerNode => 4 * slack + 1
    case FactCheckerNode => 4 * slack
    case RedirectNode => 1
    case End => 0
  }

  /** Within the budget, a run takes at most `MaxSteps` node executions. */
  lemma {:induction false} StepBound(step: NodeStep, stage: Stage, s: AgentState, k: nat)
    requires Conforms(step)
    requires InBudget(stage, s.revisionCount)
    ensures |Run(step, stage, s, k).trace| <= MaxSteps(stage, s.revisionCount)
    decreases Slack(s.revisionCount), Rank(stage, s.revisionCount)
  {
    if stage != End && step(stage, s, k).Returned? {
      var u := step(stage, s, k).update;
      var s' := Merge(s, u);
      var next := Next(stage, s');
      StepBound(step, next, s', k + 1);
    }
  }

  /** The state after the classifier has run on a fresh query. */
  function Classified(query: string, o: Oracles): AgentState {
    InitialState(query).(isPolitical := !SaysNonPolitical(o.llm(0), o.decode))
  }

  /**
   * The first step of a fresh run: the classifier records the query and its
   * verdict, and the run goes on from the stage `route_initial` picks.
   */
  lemma FirstStep(query: string, o: Oracles)
    ensures var s' := Classified(query, o);
      var rest := Run(Compiled(o), RouteInitial(s'), s', 1);
      Run(Compiled(o), RouterNode, InitialState(query), 0)
        == RunResult([Visit(RouterNode, s')] + rest.trace, rest.final, rest.status)
  {
    var s := InitialState(query);
    var u := RouterUpdate(s, o.llm(0), o.decode).update;
    assert u == NoUpdate.(query := Some(query), isPolitical := Some(!SaysNonPolitical(o.llm(0), o.decode)));
    assert Compiled(o)(RouterNode, s, 0) == Returned(u);
    assert Merge(s, u) == Classified(query, o);
  }

  /**
   * Liveness for a fresh query: whatever the model and the search tool
   * answer, the run ends after at most 17 node executions, with at most four
   * drafts, and `revision_count` ends at four or less.
   */
  lemma FreshRunIsBounded(query: string, o: Oracles)
    ensures var r := Run(Compiled(o), RouterNode, InitialState(query), 0);
      && |r.trace| <= 17
      && Count(r.trace, SynthesisNode) <= 4
      && r.final.revisionCount <= 4
  {
    StepBound(Compiled(o), RouterNode, InitialState(query), 0);
    StaysInBudget(Compiled(o), RouterNode, InitialState(query), 0);
    RevisionCountCountsDrafts(Compiled(o), RouterNode, InitialState(query), 0);
  }

  /**
   * The fact checker is only reached with at most three drafts, so the
   * `revision_count > 4` branch of route_facts never decides anything: its
   * verdict alone picks the next stage.
   */
  lemma FactsCeilingUnreachable(query: string, o: Oracles)
    ensures var r := Run(Compiled(o), RouterNode, InitialState(query), 0);
      forall i :: 0 <= i < |r.trace| && r.trace[i].stage == FactCheckerNode ==>
        && r.trace[i].after.revisionCount <= 3
        && RouteFacts(r.trace[i].after) == (if r.trace[i].after.isValid then End else ResearcherNode)
  {
    StaysInBudget(Compiled(o), RouterNode, InitialState(query), 0);
  }

  /** Every visit of `trace` to the neutralizer rejected the draft. */
  predicate NeutralizerAlwaysRejects(trace: seq<Visit>) {
    forall i :: 0 <= i < |trace| && trace[i].stage == NeutralizerNode ==> !trace[i].after.isValid
  }

  lemma {:induction false} RejectedUntilCeiling(step: NodeStep, stage: Stage, s: AgentState, k: nat)
    requires Conforms(step)
    requires stage == PlannerNode || stage == ResearcherNode || stage == SynthesisNode || stage == NeutralizerNode
    requires InBudget(stage, s.revisionCount)
    requires Run(step, stage, s, k).status == Completed
    requires NeutralizerAlwaysRejects(Run(step, stage, s, k).trace)
    ensures Run(step, stage, s, k).final.revisionCount == 4
    ensures Count(Run(step, stage, s, k).trace, FactCheckerNode) == 0
    decreases Slack(s.revisionCount), Rank(stage, s.revisionCount)
  {
    assert step(stage, s, k).Returned?;
    var u := step(stage, s, k).update;
    var s' := Merge(s, u);
    StepRevision(step, stage, s, k);
    var next := Next(stage, s');
    var r, rest := Run(step, stage, s, k), Run(step, next, s', k + 1);
    assert r.trace == [Visit(stage, s')] + rest.trace && r.final == rest.final && r.status == rest.status;
    assert Count(r.trace, FactCheckerNode) == Count(rest.trace, FactCheckerNode) by {
      assert r.trace[1..] == rest.trace;
    }
    assert next == End || next == ResearcherNode || next == SynthesisNode || next == NeutralizerNode by {
      if stage == NeutralizerNode {
        assert r.trace[0] == Visit(stage, s');
      }
    }
    if next == End {
      assert rest.final == s';
    } else {
      assert NeutralizerAlwaysRejects(rest.trace) by {
        forall i | 0 <= i < |rest.trace| && rest.trace[i].stage == NeutralizerNode
          ensures !rest.trace[i].after.isValid
        {
          assert rest.trace[i] == r.trace[i + 1];
        }
      }
      RejectedUntilCeiling(step, next, s', k + 1);
    }
  }

  /**
   * If the classifier calls the query political and the neutralizer rejects
   * every draft, a completed run writes exactly four drafts and never
   * reaches the fact checker.
   */
  lemma AlwaysBiasedWritesFourDrafts(query: string, o: Oracles)
    requires !SaysNonPolitical(o.llm(0), o.decode)
    requires Run(Compiled(o), RouterNode, InitialState(query), 0).status == Completed
    requires NeutralizerAlwaysRejects(Run(Compiled(o), RouterNode, InitialState(query), 0).trace)
    ensures Count(Run(Compiled(o), RouterNode, InitialState(query), 0).trace, SynthesisNode) == 4
    ensures Count(Run(Compiled(o), RouterNode, InitialState(query), 0).trace, FactCheckerNode) == 0
  {
    FirstStep(query, o);
    var s' := Classified(query, o);
    var r, rest := Run(Compiled(o), RouterNode, InitialState(query), 0), Run(Compiled(o), PlannerNode, s', 1);
    assert r.trace[1..] == rest.trace;
    assert NeutralizerAlwaysRejects(rest.trace) by {
      forall i | 0 <= i < |rest.trace| && rest.trace[i].stage == NeutralizerNode
        ensures !rest.trace[i].after.isValid
      {
        assert rest.trace[i] == r.trace[i + 1];
      }
    }
    RejectedUntilCeiling(Compiled(o), PlannerNode, s', 1);
    RevisionCountCountsDrafts(Compiled(o), RouterNode, InitialState(query), 0);
  }

  /** What the interactive loop prints for a finished run. */
  datatype Response = Shown(text: string) | ErrorShown | NothingShown

  /**
   * The draft if it is non-empty, otherwise the last message; a run that
   * raised prints its error instead.
   */
  function FinalResponse(r: RunResult): (shown: Response)
    ensures r.status.Crashed? <==> shown == ErrorShown
    ensures r.status == Completed && r.final.draft != "" ==> shown == Shown(r.final.draft)
    ensures r.status == Completed && r.final.draft == "" && r.final.messages != [] ==> shown == Shown(Last(r.final.messages).content)
    ensures r.status == Completed && r.final.draft == "" && r.final.messages == [] ==> shown == NothingShown
  {
    if r.status.Crashed? then ErrorShown
    else if r.final.draft != "" then Shown(r.final.draft)
    else if r.final.messages != [] then Shown(Last(r.final.messages).content)
    else NothingShown
  }

  /**
   * A query the classifier calls non-political goes straight to the redirect
   * node and on to `End`: exactly one fixed AI message is appended, and it
   * is what the user is shown.
   */
  lemma RedirectEndsRun(query: string, o: Oracles)
    requires SaysNonPolitical(o.llm(0), o.decode)
    ensures var r := Run(Compiled(o), RouterNode, InitialState(query), 0);
      && r.status == Completed
      && |r.trace| == 2 && r.trace[0].stage == RouterNode && r.trace[1].stage == RedirectNode
      && r.final.messages == [Human(query), Ai(RedirectMessage)]
      && FinalResponse(r) == Shown(RedirectMessage)
  {
    FirstStep(query, o);
    var s' := Classified(query, o);
    var s'' := s'.(messages := [Human(query), Ai(RedirectMessage)]);
    var u := NoUpdate.(messages := [Ai(RedirectMessage)]);
    assert Compiled(o)(RedirectNode, s', 1) == Returned(u) by {
      assert Apply(RedirectNode, s', 1, o) == RedirectUpdate(s');
    }
    assert Merge(s', u) == s'';
    RunUnfold(Compiled(o), RedirectNode, s', 1);
    assert Run(Compiled(o), End, s'', 2) == RunResult([], s'', Completed);
  }

  /** Messages only ever grow, and only the redirect node adds any. */
  lemma {:induction false} MessagesOnlyAtRedirect(step: NodeStep, stage: Stage, s: AgentState, k: nat)
    requires Conforms(step)
    ensures s.messages <= Run(step, stage, s, k).final.messages
    ensures Count(Run(step, stage, s, k).trace, RedirectNode) == 0 ==> Run(step, stage, s, k).final.messages == s.messages
    decreases Slack(s.revisionCount), Rank(stage, s.revisionCount)
  {
    if stage != End && step(stage, s, k).Returned? {
      var u := step(stage, s, k).update;
      var s' := Merge(s, u);
      var next := Next(stage, s');
      MessagesOnlyAtRedirect(step, next, s', k + 1);
      var r, rest := Run(step, stage, s, k), Run(step, next, s', k + 1);
      assert r.trace[1..] == rest.trace;
    }
  }

  /**
   * A political run never reaches the redirect node, so when its last draft
   * is empty the user is shown their own query back.
   */
  lemma EmptyDraftEchoesQuery(query: string, o: Oracles)
    requires !SaysNonPolitical(o.llm(0), o.decode)
    requires Run(Compiled(o), RouterNode, InitialState(query), 0).status == Completed
    requires Run(Compiled(o), RouterNode, InitialState(query), 0).final.draft == ""
    ensures FinalResponse(Run(Compiled(o), RouterNode, InitialState(query), 0)) == Shown(query)
  {
    FirstStep(query, o);
    var s' := Classified(query, o);
    NeverRedirectsAfterRouter(Compiled(o), PlannerNode, s', 1);
    MessagesOnlyAtRedirect(Compiled(o), PlannerNode, s', 1);
  }

  /** Past the entry node, no run visits the redirect node. */
  lemma {:induction false} NeverRedirectsAfterRouter(step: NodeStep, stage: Stage, s: AgentState, k: nat)
    requires Conforms(step)
    requires stage != RouterNode && stage != RedirectNode
    ensures Count(Run(step, stage, s, k).trace, RedirectNode) == 0
    decreases Slack(s.revisionCount), Rank(stage, s.revisionCount)
  {
    if stage != End && step(stage, s, k).Returned? {
      var u := step(stage, s, k).update;
      var s' := Merge(s, u);
      var next := Next(stage, s');
      NeverRedirectsAfterRouter(step, next, s', k + 1);
      var r, rest := Run(step, stage, s, k), Run(step, next, s', k + 1);
      assert r.trace[1..] == rest.trace;
    }
  }

  /** Every visit of `trace` to the neutralizer accepted the draft. */
  predicate NeutralizerAlwaysAccepts(trace: seq<Visit>) {
    forall i :: 0 <= i < |trace| && trace[i].stage == NeutralizerNode ==> trace[i].after.isValid
  }

  /** Every visit of `trace` to the fact checker rejected the draft. */
  predicate FactCheckerAlwaysRejects(trace: seq<Visit>) {
    forall i :: 0 <= i < |trace| && trace[i].stage == FactCheckerNode ==> !trace[i].after.isValid
  }

  /** Fact checks still to come when every draft is neutral and every fact check fails. */
  function FactChecksLeft(stage: Stage, revisionCount: int): int {
    match stage
    case NeutralizerNode => 4 - revisionCount
    case FactCheckerNode => 4 - revisionCount
    case _ => 3 - revisionCount
  }

  /** The edge a step takes when every draft is neutral and every fact check fails. */
  lemma LoopEdge(step: NodeStep, stage: Stage, s: AgentState, k: nat)
    requires Conforms(step)
    requires stage == PlannerNode || stage == ResearcherNode || stage == SynthesisNode
      || stage == NeutralizerNode || stage == FactCheckerNode
    requires InBudget(stage, s.revisionCount)
    requires step(stage, s, k).Returned?
    requires stage == NeutralizerNode ==> Merge(s, step(stage, s, k).update).isValid
    requires stage == FactCheckerNode ==> !Merge(s, step(stage, s, k).update).isValid
    ensures var s' := Merge(s, step(stage, s, k).update);
      var next := Next(stage, s');
      && (next == End <==> stage == NeutralizerNode && s.revisionCount == 4)
      && (next != End ==>
            && InBudget(next, s'.revisionCount)
            && next != RouterNode && next != RedirectNode
            && FactChecksLeft(stage, s.revisionCount)
               == (if stage == FactCheckerNode then 1 else 0) + FactChecksLeft(next, s'.revisionCount))
  {
    StepRevision(step, stage, s, k);
  }

  lemma {:induction false} HallucinationLoop(step: NodeStep, stage: Stage, s: AgentState, k: nat)
    requires Conforms(step)
    requires stage == PlannerNode || stage == ResearcherNode || stage == SynthesisNode
      || stage == NeutralizerNode || stage == FactCheckerNode
    requires InBudget(stage, s.revisionCount)
    requires Run(step, stage, s, k).status == Completed
    requires NeutralizerAlwaysAccepts(Run(step, stage, s, k).trace)
    requires FactCheckerAlwaysRejects(Run(step, stage, s, k).trace)
    ensures Run(step, stage, s, k).final.revisionCount == 4
    ensures Run(step, stage, s, k).final.isValid
    ensures Count(Run(step, stage, s, k).trace, FactCheckerNode) == FactChecksLeft(stage, s.revisionCount)
    ensures var t := Run(step, stage, s, k).trace; |t| > 0 && t[|t| - 1].stage == NeutralizerNode
    decreases Slack(s.revisionCount), Rank(stage, s.revisionCount)
  {
    assert step(stage, s, k).Returned?;
    var s' := Merge(s, step(stage, s, k).update);
    var next := Next(stage, s');
    var r, rest := Run(step, stage, s, k), Run(step, next, s', k + 1);
    assert r.trace == [Visit(stage, s')] + rest.trace && r.final == rest.final && r.status == rest.status;
    assert r.trace[0] == Visit(stage, s');
    LoopEdge(step, stage, s, k);
    assert Count(r.trace, FactCheckerNode) == (if stage == FactCheckerNode then 1 else 0) + Count(rest.trace, FactCheckerNode) by {
      assert r.trace[1..] == rest.trace;
    }
    if next == End {
      assert rest.final == s' && rest.trace == [];
      StepRevision(step, stage, s, k);
    } else {
      assert NeutralizerAlwaysAccepts(rest.trace) && FactCheckerAlwaysRejects(rest.trace) by {
        assert forall i :: 0 <= i < |rest.trace| ==> rest.trace[i] == r.trace[i + 1];
      }
      HallucinationLoop(step, next, s', k + 1);
      assert r.trace[|r.trace| - 1] == rest.trace[|rest.trace| - 1];
    }
  }

  /**
   * If the classifier calls the query political, the neutralizer accepts
   * every draft and the fact checker rejects every one it sees, a completed
   * run writes four drafts, fact checks three of them, and stops at the
   * neutralizer's ceiling: the last draft is never fact-checked and the run
   * still ends with `is_valid` set.
   */
  lemma HallucinationsEndAtNeutralityCeiling(query: string, o: Oracles)
    requires !SaysNonPolitical(o.llm(0), o.decode)
    requires Run(Compiled(o), RouterNode, InitialState(query), 0).status == Completed
    requires NeutralizerAlwaysAccepts(Run(Compiled(o), RouterNode, InitialState(query), 0).trace)
    requires FactCheckerAlwaysRejects(Run(Compiled(o), RouterNode, InitialState(query), 0).trace)
    ensures Count(Run(Compiled(o), RouterNode, InitialState(query), 0).trace, SynthesisNode) == 4
    ensures Count(Run(Compiled(o), RouterNode, InitialState(query), 0).trace, FactCheckerNode) == 3
    ensures var t := Run(Compiled(o), RouterNode, InitialState(query), 0).trace; |t| > 0 && t[|t| - 1].stage == NeutralizerNode
    ensures Run(Compiled(o), RouterNode, InitialState(query), 0).final.isValid
  {
    FirstStep(query, o);
    var s' := Classified(query, o);
    var r, rest := Run(Compiled(o), RouterNode, InitialState(query), 0), Run(Compiled(o), PlannerNode, s', 1);
    assert r.trace[1..] == rest.trace;
    assert NeutralizerAlwaysAccepts(rest.trace) && FactCheckerAlwaysRejects(rest.trace) by {
      assert forall i :: 0 <= i < |rest.trace| ==> rest.trace[i] == r.trace[i + 1];
    }
    HallucinationLoop(Compiled(o), PlannerNode, s', 1);
    RevisionCountCountsDrafts(Compiled(o), RouterNode, InitialState(query), 0);
    assert r.trace[|r.trace| - 1] == rest.trace[|rest.trace| - 1];
  }

  /**
   * Unless the classifier's reply decodes to a JSON object whose
   * `is_political` is missing or falsy, the run treats the query as
   * political: it goes on to the planner and never reaches the redirect node.
   */
  lemma UnclearClassificationIsPolitical(query: string, o: Oracles)
    requires !SaysNonPolitical(o.llm(0), o.decode)
    ensures var r := Run(Compiled(o), RouterNode, InitialState(query), 0);
      && |r.trace| > 0 && r.trace[0].stage == RouterNode && r.trace[0].after.isPolitical
      && (|r.trace| > 1 ==> r.trace[1].stage == PlannerNode)
      && (|r.trace| == 1 ==> r.status == Crashed(PlannerNode))
      && Count(r.trace, RedirectNode) == 0
  {
    FirstStep(query, o);
    var s' := Classified(query, o);
    var r, rest := Run(Compiled(o), RouterNode, InitialState(query), 0), Run(Compiled(o), PlannerNode, s', 1);
    assert r.trace[1..] == rest.trace;
    NeverRedirectsAfterRouter(Compiled(o), PlannerNode, s', 1);
    StartsAt(Compiled(o), PlannerNode, s', 1);
  }

  /**
   * A run's first visit, if any, is to the stage it starts from; a run from
   * a node that visits nothing crashed at that node.
   */
  lemma StartsAt(step: NodeStep, stage: Stage, s: AgentState, k: nat)
    requires Conforms(step)
    ensures var t := Run(step, stage, s, k).trace; |t| > 0 ==> t[0].stage == stage
    ensures stage != End && Run(step, stage, s, k).trace == [] ==> Run(step, stage, s, k).status == Crashed(stage)
  {
  }
}
