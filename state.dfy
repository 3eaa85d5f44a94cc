/**
 * The workflow's shared state (`AgentState`), the partial updates the nodes
 * return, and the graph engine's merge of an update into the state: the
 * `messages` channel is reduced with list concatenation, every other key is
 * overwritten when, and only when, the update carries it.
 */
module State {
  import opened Wrappers

  /** A conversation turn, reduced to its author and its text. */
  datatype Message = Human(content: string) | Ai(content: string)

  /** A value `json.loads` can produce; numbers are kept as reals. */
  datatype Json =
    | JNull
    | JBool(b: bool)
    | JNum(n: real)
    | JStr(s: string)
    | JList(items: seq<Json>)
    | JObject(fields: map<string, Json>)

  /** The decoded values Python treats as false: `None`, `False`, zero and the empty containers. */
  const Falsy: set<Json> := {JNull, JBool(false), JNum(0.0), JStr(""), JList([]), JObject(map[])}

  /** Python truthiness of a decoded JSON value: it is not one of the falsy values. */
  predicate Truthy(j: Json)
    ensures Truthy(j) <==> j !in Falsy
  {
    match j
    case JNull => false
    case JBool(b) => b
    case JNum(n) => n != 0.0
    case JStr(s) => s != ""
    case JList(items) => items != []
    case JObject(fields) => fields != map[]
  }

  /**
   * The full state. `plan` holds whatever list the planner decoded: the
   * planner checks only that the decoded value is a list.
   */
  datatype AgentState = AgentState(
    messages: seq<Message>,
    query: string,
    context: seq<string>,
    plan: seq<Json>,
    draft: string,
    critique: string,
    revisionCount: int,
    isPolitical: bool,
    isValid: bool)

  /**
   * A node's partial update: `None` is a key the node did not return. For
   * `messages`, an absent key and an empty list are the same to the reducer,
   * so the empty list stands for "absent".
   */
  datatype Update = Update(
    messages: seq<Message>,
    query: Option<string>,
    context: Option<seq<string>>,
    plan: Option<seq<Json>>,
    draft: Option<string>,
    critique: Option<string>,
    revisionCount: Option<int>,
    isPolitical: Option<bool>,
    isValid: Option<bool>)

  /** The update that returns no key at all. */
  const NoUpdate := Update([], None, None, None, None, None, None, None, None)

  /** The keys of the state dictionary. */
  datatype Key = Messages | Query | Context | Plan | Draft | Critique | RevisionCount | IsPolitical | IsValid

  /** The update returns key `k`. */
  predicate Returns(u: Update, k: Key) {
    match k
    case Messages => u.messages != []
    case Query => u.query.Some?
    case Context => u.context.Some?
    case Plan => u.plan.Some?
    case Draft => u.draft.Some?
    case Critique => u.critique.Some?
    case RevisionCount => u.revisionCount.Some?
    case IsPolitical => u.isPolitical.Some?
    case IsValid => u.isValid.Some?
  }

  /** The keys an update returns, as a set. */
  function Keys(u: Update): set<Key> {
    (if u.messages != [] then {Messages} else {})
    + (if u.query.Some? then {Query} else {})
    + (if u.context.Some? then {Context} else {})
    + (if u.plan.Some? then {Plan} else {})
    + (if u.draft.Some? then {Draft} else {})
    + (if u.critique.Some? then {Critique} else {})
    + (if u.revisionCount.Some? then {RevisionCount} else {})
    + (if u.isPolitical.Some? then {IsPolitical} else {})
    + (if u.isValid.Some? then {IsValid} else {})
  }

  /** `s` and `t` hold the same value under key `k`. */
  predicate Agree(s: AgentState, t: AgentState, k: Key) {
    match k
    case Messages => s.messages == t.messages
    case Query => s.query == t.query
    case Context => s.context == t.context
    case Plan => s.plan == t.plan
    case Draft => s.draft == t.draft
    case Critique => s.critique == t.critique
    case RevisionCount => s.revisionCount == t.revisionCount
    case IsPolitical => s.isPolitical == t.isPolitical
    case IsValid => s.isValid == t.isValid
  }

  /** `t` holds, under the overwritten key `k`, the value the update `u` returned for it. */
  predicate Holds(t: AgentState, u: Update, k: Key) {
    match k
    case Messages => true
    case Query => u.query == Some(t.query)
    case Context => u.context == Some(t.context)
    case Plan => u.plan == Some(t.plan)
    case Draft => u.draft == Some(t.draft)
    case Critique => u.critique == Some(t.critique)
    case RevisionCount => u.revisionCount == Some(t.revisionCount)
    case IsPolitical => u.isPolitical == Some(t.isPolitical)
    case IsValid => u.isValid == Some(t.isValid)
  }

  /**
   * The graph engine's merge of a node's update into the state: `messages`
   * grows by concatenation, every key the update returns takes the returned
   * value, and every other key keeps its value.
   */
  function Merge(s: AgentState, u: Update): (r: AgentState)
    ensures r.messages == s.messages + u.messages
    ensures forall k :: Returns(u, k) ==> Holds(r, u, k)
    ensures forall k :: !Returns(u, k) ==> Agree(s, r, k)
  {
    AgentState(
      s.messages + u.messages,
      u.query.GetOr(s.query),
      u.context.GetOr(s.context),
      u.plan.GetOr(s.plan),
      u.draft.GetOr(s.draft),
      u.critique.GetOr(s.critique),
      u.revisionCount.GetOr(s.revisionCount),
      u.isPolitical.GetOr(s.isPolitical),
      u.isValid.GetOr(s.isValid))
  }

  /** Merging an update that returns no key leaves the state as it was. */
  lemma MergeNothing(s: AgentState)
    ensures Merge(s, NoUpdate) == s
  {
  }

  /**
   * Re-merging an update that carries no messages changes nothing more; one
   * that carries messages appends them a second time and changes nothing else.
   */
  lemma MergeTwice(s: AgentState, u: Update)
    ensures u.messages == [] ==> Merge(Merge(s, u), u) == Merge(s, u)
    ensures Merge(Merge(s, u), u) == Merge(s, u).(messages := s.messages + u.messages + u.messages)
  {
  }
}
