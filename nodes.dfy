/**
 * The seven nodes of the workflow graph. Each reads the state and returns a
 * partial update, or raises. The language model and the search tool are
 * outside the model: a node receives the model's reply (or its failure) and
 * the search results as inputs, and JSON decoding is a given function that
 * may fail.
 */
module Nodes {
  import opened Wrappers
  import opened Text
  import opened State

  /** The outcome of one `llm.invoke` call: the reply's text, or the exception it raised. */
  datatype Reply = Completion(content: string) | Unavailable

  /** One element of a list the search tool returned: a dictionary (each value in its `str` form) or anything else. */
  datatype SearchItem = Record(fields: map<string, string>) | NotRecord

  /** The outcome of one search: it raised, it returned a list, or it returned something else (kept as its `str` form). */
  datatype SearchReply = SearchFailed | Results(items: seq<SearchItem>) | NotAList(text: string)

  /** A node returns its partial update, or raises and so aborts the run. */
  datatype NodeResult = Returned(update: Update) | Raised

  /** The one message the redirect node adds. */
  const RedirectMessage := "I am a specialized Political Intelligence Agent. I can only assist with political queries."

  function Last(m: seq<Message>): Message
    requires m != []
  {
    m[|m| - 1]
  }

  /**
   * The classifier sends the run away from the main pipeline only when the
   * model's reply decoded to a JSON object whose `is_political` entry is
   * missing or falsy.
   */
  predicate SaysNonPolitical(reply: Reply, decode: string -> Option<Json>) {
    && reply.Completion?
    && var decoded := decode(StripFences(reply.content));
    && decoded.Some?
    && decoded.value.JObject?
    && !("is_political" in decoded.value.fields && Truthy(decoded.value.fields["is_political"]))
  }

  /**
   * router_node: reads the last message (raising on an empty history),
   * classifies it, and records it as the query. A model failure, a reply
   * that does not decode, or a decoded value without `.get` all fail closed
   * to "political".
   */
  function RouterUpdate(s: AgentState, reply: Reply, decode: string -> Option<Json>): (r: NodeResult)
    ensures r.Raised? <==> s.messages == []
    ensures r.Returned? ==> Keys(r.update) == {Query, IsPolitical}
    ensures r.Returned? ==> r.update.query == Some(Last(s.messages).content)
    ensures r.Returned? ==> (r.update.isPolitical == Some(false) <==> SaysNonPolitical(reply, decode))
    ensures r.Returned? ==> r.update.isPolitical.Some?
  {
    if s.messages == [] then Raised
    else
      var political :=
        match reply
        case Unavailable => true
        case Completion(text) =>
          match decode(StripFences(text))
          case None => true
          case Some(JObject(fields)) => if "is_political" in fields then Truthy(fields["is_political"]) else false
          case Some(_) => true;
      Returned(NoUpdate.(query := Some(Last(s.messages).content), isPolitical := Some(political)))
  }

  /**
   * planner_node: the model call sits outside the `try`, so its failure
   * raises; a reply that does not decode to a list falls back to the
   * one-element plan holding the query.
   */
  function PlannerUpdate(s: AgentState, reply: Reply, decode: string -> Option<Json>): (r: NodeResult)
    ensures r.Raised? <==> reply.Unavailable?
    ensures r.Returned? ==> Keys(r.update) == {Plan}
    ensures r.Returned? ==> match decode(StripFences(reply.content))
                            case Some(JList(items)) => r.update.plan == Some(items)
                            case _ => r.update.plan == Some([JStr(s.query)])
  {
    match reply
    case Unavailable => Raised
    case Completion(text) =>
      var plan :=
        match decode(StripFences(text))
        case Some(JList(items)) => items
        case _ => [JStr(s.query)];
      Returned(NoUpdate.(plan := Some(plan)))
  }

  /** A dictionary entry, or `''` when the key is missing (`r.get(key, '')`). */
  function GetOrEmpty(fields: map<string, string>, key: string): string {
    if key in fields then fields[key] else ""
  }

  /** The context line for one dictionary result. */
  function SourceLine(fields: map<string, string>): string {
    "Source (" + GetOrEmpty(fields, "url") + "): " + GetOrEmpty(fields, "content")
  }

  /**
   * How many elements at the front of a result list are dictionaries. The
   * researcher formats exactly these: on the first other element `r.get`
   * raises, and the `except` ends that sub-query.
   */
  function LeadingRecords(items: seq<SearchItem>): (n: nat)
    ensures n <= |items|
    ensures forall i :: 0 <= i < n ==> items[i].Record?
    ensures n < |items| ==> items[n].NotRecord?
  {
    if items == [] || items[0].NotRecord? then 0 else 1 + LeadingRecords(items[1..])
  }

  /** One formatted line per dictionary, in order. */
  function Formatted(recs: seq<SearchItem>): (r: seq<string>)
    requires forall i :: 0 <= i < |recs| ==> recs[i].Record?
    ensures |r| == |recs|
    ensures forall i :: 0 <= i < |recs| ==> r[i] == SourceLine(recs[i].fields)
  {
    if recs == [] then [] else Formatted(recs[..|recs| - 1]) + [SourceLine(recs[|recs| - 1].fields)]
  }

  /**
   * The context lines one sub-query contributes: none when the search
   * raised, the `str` form of a non-list answer, and one line per dictionary
   * up to the first element that is not one.
   */
  function Entries(reply: SearchReply): (r: seq<string>)
    ensures reply.SearchFailed? ==> r == []
    ensures reply.NotAList? ==> r == [reply.text]
    ensures reply.Results? ==>
      && |r| <= |reply.items|
      && (forall i :: 0 <= i < |r| ==> reply.items[i].Record? && r[i] == SourceLine(reply.items[i].fields))
      && (|r| < |reply.items| ==> reply.items[|r|].NotRecord?)
  {
    match reply
    case SearchFailed => []
    case NotAList(text) => [text]
    case Results(items) => Formatted(items[..LeadingRecords(items)])
  }

  /**
   * The researcher's context: every sub-query's lines, in plan order. When
   * every search raises the context is empty; when every search answers
   * with something other than a list there is one line per sub-query, its
   * answer's `str` form.
   */
  function Gather(plan: seq<Json>, search: Json -> SearchReply): (r: seq<string>)
    ensures (forall i :: 0 <= i < |plan| ==> search(plan[i]).SearchFailed?) ==> r == []
    ensures (forall i :: 0 <= i < |plan| ==> search(plan[i]).NotAList?) ==>
      && |r| == |plan|
      && (forall i :: 0 <= i < |plan| ==> r[i] == search(plan[i]).text)
  {
    if plan == [] then [] else Entries(search(plan[0])) + Gather(plan[1..], search)
  }

  /** researcher_node's loops: one search per sub-query, each formatted result appended in turn. */
  method CollectContext(plan: seq<Json>, search: Json -> SearchReply) returns (contextResults: seq<string>)
    ensures contextResults == Gather(plan, search)
  {
    contextResults := [];
    for n := 0 to |plan|
      invariant contextResults == Gather(plan[..n], search)
    {
      GatherStep(plan, n, search);
      var results := search(plan[n]);
      match results {
        case SearchFailed =>
        case NotAList(text) =>
          contextResults := contextResults + [text];
        case Results(items) =>
          var lines := FormatResults(items);
          contextResults := contextResults + lines;
      }
    }
    assert plan[..|plan|] == plan;
  }

  /**
   * The inner loop over one list of results: a line per dictionary, until
   * the first element that is not one (where `r.get` raises).
   */
  method FormatResults(items: seq<SearchItem>) returns (lines: seq<string>)
    ensures lines == Entries(Results(items))
  {
    lines := [];
    var j := 0;
    while j < |items| && items[j].Record?
      invariant j <= |items|
      invariant forall i :: 0 <= i < j ==> items[i].Record?
      invariant lines == Formatted(items[..j])
    {
      FormattedStep(items, j);
      lines := lines + [SourceLine(items[j].fields)];
      j := j + 1;
    }
    assert j == LeadingRecords(items);
  }

  lemma GatherStep(plan: seq<Json>, n: nat, search: Json -> SearchReply)
    requires n < |plan|
    ensures Gather(plan[..n + 1], search) == Gather(plan[..n], search) + Entries(search(plan[n]))
  {
    assert plan[..n + 1] == plan[..n] + [plan[n]];
    GatherAppend(plan[..n], [plan[n]], search);
    assert Gather([plan[n]], search) == Entries(search(plan[n])) + Gather([], search);
  }

  lemma FormattedStep(items: seq<SearchItem>, j: nat)
    requires j < |items|
    requires forall i :: 0 <= i <= j ==> items[i].Record?
    ensures Formatted(items[..j + 1]) == Formatted(items[..j]) + [SourceLine(items[j].fields)]
  {
    assert items[..j + 1][..j] == items[..j];
  }

  /** researcher_node's update: the new context replaces the old one entirely. */
  function ResearcherUpdate(s: AgentState, search: Json -> SearchReply): (r: NodeResult)
    ensures r.Returned? && Keys(r.update) == {Context}
    ensures r.update.context == Some(Gather(s.plan, search))
  {
    Returned(NoUpdate.(context := Some(Gather(s.plan, search))))
  }

  /** The context of two plans run one after the other is the two contexts in order. */
  lemma {:induction false} GatherAppend(a: seq<Json>, b: seq<Json>, search: Json -> SearchReply)
    ensures Gather(a + b, search) == Gather(a, search) + Gather(b, search)
    decreases |a|
  {
    if a == [] {
      assert a + b == b;
    } else {
      assert (a + b)[0] == a[0] && (a + b)[1..] == a[1..] + b;
      GatherAppend(a[1..], b, search);
    }
  }

  /** A sub-query whose search raised contributes nothing; the others are unaffected. */
  lemma SkipsFailedSearch(a: seq<Json>, q: Json, b: seq<Json>, search: Json -> SearchReply)
    requires search(q) == SearchFailed
    ensures Gather(a + [q] + b, search) == Gather(a + b, search)
  {
    assert Gather(a + [q], search) == Gather(a, search) by {
      assert Gather([q], search) == [] by {
        assert [q][0] == q && [q][1..] == [];
      }
      GatherAppend(a, [q], search);
    }
    GatherAppend(a + [q], b, search);
    GatherAppend(a, b, search);
  }

  /**
   * synthesis_node: the draft is the model's reply and the revision count
   * goes up by one; a model failure raises.
   */
  function SynthesisUpdate(s: AgentState, reply: Reply): (r: NodeResult)
    ensures r.Raised? <==> reply.Unavailable?
    ensures r.Returned? ==> Keys(r.update) == {Draft, RevisionCount}
    ensures r.Returned? ==> r.update.draft == Some(reply.content)
    ensures r.Returned? ==> r.update.revisionCount == Some(s.revisionCount + 1)
  {
    match reply
    case Unavailable => Raised
    case Completion(text) => Returned(NoUpdate.(draft := Some(text), revisionCount := Some(s.revisionCount + 1)))
  }

  /**
   * neutralizer_node: a trimmed reply starting with "BIAS" rejects the draft
   * and becomes the critique; any other reply accepts it with the critique
   * "None".
   */
  function NeutralizerUpdate(s: AgentState, reply: Reply): (r: NodeResult)
    ensures r.Raised? <==> reply.Unavailable?
    ensures r.Returned? ==> Keys(r.update) == {Critique, IsValid}
    ensures r.Returned? ==> (r.update.isValid == Some(false) <==> "BIAS" <= Strip(reply.content))
    ensures r.Returned? ==> r.update.isValid.Some?
    ensures r.Returned? && r.update.isValid == Some(false) ==> r.update.critique == Some(Strip(reply.content))
    ensures r.Returned? && r.update.isValid == Some(true) ==> r.update.critique == Some("None")
  {
    match reply
    case Unavailable => Raised
    case Completion(text) =>
      var result := Strip(text);
      var biased := "BIAS" <= result;
      var critique := if biased then result else "None";
      VerdictKeys(critique, !biased);
      Returned(NoUpdate.(critique := Some(critique), isValid := Some(!biased)))
  }

  /** A critic's verdict with its critique returns exactly those two keys. */
  lemma VerdictKeys(critique: string, valid: bool)
    ensures Keys(NoUpdate.(critique := Some(critique), isValid := Some(valid))) == {Critique, IsValid}
  {
  }

  /**
   * fact_checker_node: a reply containing "HALLUCINATION" rejects the draft
   * and becomes the critique; any other reply accepts it and leaves the
   * critique alone.
   */
  function FactCheckerUpdate(s: AgentState, reply: Reply): (r: NodeResult)
    ensures r.Raised? <==> reply.Unavailable?
    ensures r.Returned? ==> r.update.isValid == Some(!Contains(Strip(reply.content), "HALLUCINATION"))
    ensures r.Returned? && r.update.isValid == Some(false) ==> Keys(r.update) == {Critique, IsValid}
    ensures r.Returned? && r.update.isValid == Some(false) ==> r.update.critique == Some(Strip(reply.content))
    ensures r.Returned? && r.update.isValid == Some(true) ==> Keys(r.update) == {IsValid}
  {
    match reply
    case Unavailable => Raised
    case Completion(text) =>
      var result := Strip(text);
      if Contains(result, "HALLUCINATION") then
        VerdictKeys(result, false);
        Returned(NoUpdate.(critique := Some(result), isValid := Some(false)))
      else
        assert Keys(NoUpdate.(isValid := Some(true))) == {IsValid};
        Returned(NoUpdate.(isValid := Some(true)))
  }

  /** A passing fact check changes `is_valid` and nothing else: critique, draft and context stay. */
  lemma PassingFactCheckKeepsState(s: AgentState, reply: Reply)
    requires FactCheckerUpdate(s, reply).Returned?
    requires FactCheckerUpdate(s, reply).update.isValid == Some(true)
    ensures Merge(s, FactCheckerUpdate(s, reply).update) == s.(isValid := true)
  {
  }

  /** The fact checker's verdict does not depend on the trimming: the marker word has no outer whitespace. */
  lemma FactVerdictIgnoresTrim(text: string)
    ensures Contains(Strip(text), "HALLUCINATION") <==> Contains(text, "HALLUCINATION")
  {
    StripKeepsWord(text, "HALLUCINATION");
  }

  /** redirect_node: one fixed AI message, and nothing else. */
  function RedirectUpdate(s: AgentState): (r: NodeResult)
    ensures r.Returned? && Keys(r.update) == {Messages}
    ensures r.update.messages == [Ai(RedirectMessage)]
  {
    Returned(NoUpdate.(messages := [Ai(RedirectMessage)]))
  }
}
