/**
 * The graph's wiring: its seven nodes, the terminal marker `End`, the three
 * conditional routing functions and the fixed edges.
 */
module Routing {
  import opened State

  /** The nodes of the graph, and `End`, the marker that stops a run. */
  datatype Stage =
    | RouterNode
    | PlannerNode
    | ResearcherNode
    | SynthesisNode
    | NeutralizerNode
    | FactCheckerNode
    | RedirectNode
    | End

  /** route_initial: a political query goes to the planner, anything else to the redirect node. */
  function RouteInitial(s: AgentState): (r: Stage)
    ensures r == PlannerNode <==> s.isPolitical
    ensures r == RedirectNode <==> !s.isPolitical
  {
    if s.isPolitical then PlannerNode else RedirectNode
  }

  /**
   * route_neutrality: past three revisions the run ends whatever the
   * verdict; below that a rejected draft is rewritten and an accepted one is
   * fact-checked.
   */
  function RouteNeutrality(s: AgentState): (r: Stage)
    ensures s.revisionCount > 3 ==> r == End
    ensures s.revisionCount <= 3 ==> (r == SynthesisNode <==> !s.isValid)
    ensures s.revisionCount <= 3 ==> (r == FactCheckerNode <==> s.isValid)
  {
    if s.revisionCount > 3 then End
    else if !s.isValid then SynthesisNode
    else FactCheckerNode
  }

  /**
   * route_facts: past four revisions the run ends; below that a rejected
   * draft sends the run back to research and an accepted one ends it.
   */
  function RouteFacts(s: AgentState): (r: Stage)
    ensures s.revisionCount > 4 ==> r == End
    ensures s.revisionCount <= 4 ==> (r == ResearcherNode <==> !s.isValid)
    ensures s.revisionCount <= 4 ==> (r == End <==> s.isValid)
  {
    if s.revisionCount > 4 then End
    else if !s.isValid then ResearcherNode
    else End
  }

  /** The stage after `stage` has run and its update has been merged into `s`. */
  function Next(stage: Stage, s: AgentState): (r: Stage)
    requires stage != End
    ensures r != RouterNode
    ensures r == RedirectNode <==> stage == RouterNode && !s.isPolitical
    ensures r == PlannerNode <==> stage == RouterNode && s.isPolitical
  {
    match stage
    case RouterNode => RouteInitial(s)
    case PlannerNode => ResearcherNode
    case ResearcherNode => SynthesisNode
    case SynthesisNode => NeutralizerNode
    case NeutralizerNode => RouteNeutrality(s)
    case FactCheckerNode => RouteFacts(s)
    case RedirectNode => End
  }
}
