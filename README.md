# Political Intelligence Agent — workflow model

This project models the LangGraph workflow of the Political Intelligence
Agent (`agent.py`). A user query passes through seven nodes that share one
`AgentState` record:

- the router classifies the query as political or not;
- the planner splits it into search sub-queries;
- the researcher runs the searches;
- synthesis writes a draft;
- the neutralizer and the fact checker review the draft, and may send the run back;
- the redirect node answers queries that are not political.

Each node returns a partial update. The graph engine merges that update into
the state: `messages` grows by list concatenation, and every other key is
overwritten only when the update carries it. Then three routing functions and
the fixed edges choose the next node, until `END`.

The project has six modules:

- `Wrappers` holds `Option`.
- `Text` models the Python string operations the nodes use: `strip()` over
  the full `str.isspace` set, `startswith`, substring `in`, and
  `replace(pat, '')`. It also models the code-fence stripping done before
  JSON decoding.
- `State` holds the state record, the partial update, and the merge.
- `Nodes` holds the seven nodes. The language model's reply and the search
  tool's answers are inputs to the node functions. A model call that raises is
  `Unavailable`. JSON decoding is a given partial function. The researcher's
  loops are an imperative method proved equal to the function that specifies
  them.
- `Routing` holds `route_initial`, `route_neutrality`, `route_facts` and the
  fixed edges.
- `Engine` holds the compiled graph's run:
  - `Run` states a whole run as a function of a node table. `Compiled` is
    the graph's own table. The bounds are proved for every table whose
    nodes keep the contract `Apply` states.
  - `Invoke` is the step loop, proved equal to `Run`.
  - Lemmas prove that every run ends within 17 node executions and four
    drafts, whatever the model answers.
  - Lemmas cover how the two review loops end.
  - `FinalResponse` is what the interactive loop prints.

What the code does, read closely:

- **Fact-check loop ceiling.** `route_facts` ends the run above four
  revisions, with the comment "Give it one more chance" (agent.py:225). That
  check can never fire: the fact checker only ever sees a count of three or
  less (`Engine.FactsCeilingUnreachable`). A failed fact check therefore
  always sends the run back to the researcher. When every fact check fails, a
  completed run ends at the neutralizer's `> 3` ceiling (agent.py:216), and
  the fourth draft is never fact-checked (`Engine.Run`,
  `Engine.StaysInBudget`). When, in addition,
  the neutralizer accepts every draft, the run has four drafts and three fact
  checks, and it ends with `is_valid` true
  (`Engine.HallucinationsEndAtNeutralityCeiling`). Without that condition the
  count of fact checks and the final `is_valid` depend on the neutralizer's
  verdicts.
- **Partial search results.** Inside the researcher's `try`
  (agent.py:116-127), a list element that is not a dictionary makes `r.get`
  raise. Only the rest of that sub-query is skipped. The lines already
  appended for it stay in the context (`Nodes.Entries`).
- **Plan elements.** `plan` is annotated as a list of strings (agent.py:33),
  but the planner checks only that the decoded value is a list
  (agent.py:92). So `plan` holds any JSON values.
- **Failed model calls.** The planner, synthesis and critic calls to the model
  sit outside any `try` (agent.py:87, 156, 172, 196). A failure there aborts
  `invoke`, and the interactive loop prints the error instead (agent.py:317-318,
  `Response.ErrorShown`). Only the router catches the failure
  (agent.py:59-68), and it then treats the query as political.
- **Re-merging an update.** Merging the same update twice is idempotent for
  every key except `messages`. The `operator.add` reducer of `messages`
  (agent.py:5, 30) appends its messages a second time (`State.MergeTwice`).

## Model

| member | source | states |
|---|---|---|
| State.Truthy | agent.py:64 | a decoded value is truthy exactly when it is not one of Python's falsy values: `None`, `False`, zero, `""`, `[]`, `{}` |
| State.Merge | agent.py:29-38 | the merged `messages` are the old ones followed by the update's; every key the update returns takes the returned value; every other key keeps its old value |
| State.MergeNothing | agent.py:29-38 | merging an update that returns no key leaves the state unchanged |
| State.MergeTwice | agent.py:30 | re-merging the same update changes nothing when it carries no messages, and otherwise only appends its messages a second time |
| Text.TrimStart | agent.py:173 | the result is the suffix of the input left after a run of leading whitespace, and it does not start with whitespace |
| Text.TrimEnd | agent.py:173 | the result is the prefix of the input left before a run of trailing whitespace, and it does not end with whitespace |
| Text.Strip | agent.py:173 | the result is the window of the input left after cutting whitespace at both ends: everything cut is whitespace, and neither end of the result is whitespace |
| Text.Contains | agent.py:199 | the empty word occurs in every text, and a word that occurs is no longer than the text |
| Text.ContainsAt | agent.py:199 | substring `in` holds exactly when the word occurs at some index of the text |
| Text.StripKeepsWord | agent.py:197-199 | stripping does not change whether a word with non-space ends occurs in a text |
| Text.RemoveAll | agent.py:62 | `replace(pat, '')` never lengthens the text, and leaves a text without `pat` unchanged |
| Text.StripFences | agent.py:62 | the text handed to `json.loads` holds no three-backtick fence and has no whitespace at either end |
| Text.UnfencedOnlyTrimmed | agent.py:90 | a reply without backticks is only stripped before decoding |
| Text.FencedPayload | agent.py:62 | a payload without backticks, wrapped in a JSON code fence, comes out as the stripped payload |
| Nodes.RouterUpdate | agent.py:42-70 | raises exactly on an empty history; otherwise returns exactly `query` (the last message's content) and `is_political`, which is false exactly when the reply decodes to an object whose `is_political` is missing or falsy (a model failure or an undecodable reply gives political) |
| Nodes.PlannerUpdate | agent.py:72-99 | raises exactly when the model call fails; otherwise returns exactly `plan`: the decoded list when the stripped reply decodes to a list, and `[query]` in every other case |
| Nodes.LeadingRecords | agent.py:119-123 | the researcher formats the longest prefix of dictionaries: all before the returned index are dictionaries, and the element at it is not |
| Nodes.Formatted | agent.py:120-123 | one `Source (url): content` line per dictionary, in order, with missing keys read as `''` |
| Nodes.Entries | agent.py:116-127 | a raising search gives no line, a non-list answer gives its one `str` line, and a list gives one `Source` line per dictionary up to the first element that is not one |
| Nodes.Gather | agent.py:115-127 | when every search raises the context is empty; when every search answers with a non-list the context is those answers' `str` forms, one per sub-query, in plan order |
| Nodes.FormatResults | agent.py:120-123 | the inner loop yields exactly the lines `Entries` specifies for a list result |
| Nodes.CollectContext | agent.py:112-128 | the loop over the plan yields exactly `Gather(plan, search)` |
| Nodes.ResearcherUpdate | agent.py:101-131 | the node never raises and returns exactly `context`, the gathered lines for the current plan |
| Nodes.GatherAppend | agent.py:115-127 | the context of two plans run one after the other is the two contexts concatenated |
| Nodes.SkipsFailedSearch | agent.py:126-127 | a sub-query whose search raises contributes nothing, and the other sub-queries' lines are unaffected |
| Nodes.SynthesisUpdate | agent.py:133-157 | raises exactly when the model call fails; otherwise returns exactly `draft` (the reply) and `revision_count` one above the current count |
| Nodes.NeutralizerUpdate | agent.py:159-178 | raises exactly when the model call fails; otherwise returns exactly `critique` and `is_valid`; the draft is rejected exactly when the stripped reply starts with `BIAS`, which then becomes the critique; otherwise the critique is `None` |
| Nodes.FactCheckerUpdate | agent.py:180-202 | raises exactly when the model call fails; `is_valid` is false exactly when the stripped reply contains `HALLUCINATION`; a rejection also returns that reply as the critique, and an acceptance returns `is_valid` alone |
| Nodes.PassingFactCheckKeepsState | agent.py:202 | after an accepting fact check, the state differs from before only in `is_valid`, which is true |
| Nodes.FactVerdictIgnoresTrim | agent.py:197-199 | the fact checker's verdict is the same on the stripped and the raw reply |
| Nodes.RedirectUpdate | agent.py:204-206 | returns exactly one message, the fixed AI redirect text |
| Routing.RouteInitial | agent.py:210-213 | a political state goes to the planner, any other to the redirect node |
| Routing.RouteNeutrality | agent.py:215-222 | above three revisions the run ends; otherwise it goes to synthesis exactly when the draft was rejected, and to the fact checker exactly when it was accepted |
| Routing.RouteFacts | agent.py:224-232 | above four revisions the run ends; otherwise it goes back to the researcher exactly when the draft was rejected, and ends exactly when it was accepted |
| Routing.Next | agent.py:246-272 | no edge leads back to the entry node; the redirect node and the planner are entered only from the router, according to the classification |
| Engine.InitialState | agent.py:297-309 | a fresh run starts with the query as its only message, in budget at the entry node, with all four drafts still allowed |
| Engine.Run | agent.py:236-274 | a completed run that visited a node stopped because the routing after its last visit said `END` |
| Engine.Apply | agent.py:238-244 | only synthesis returns `revision_count`, one above the current count; only the redirect node returns messages; both critics always return `is_valid` |
| Engine.Compiled | agent.py:236-244 | the graph's own node table keeps the node contract at every stage, in every state and at every step |
| Engine.FirstStep | agent.py:246-248 | a fresh run first visits the router, which records the query and its verdict, and then goes on from the stage `route_initial` picks |
| Engine.Invoke | agent.py:274 | the compiled graph's step loop, with the researcher run through its imperative loops, ends in the final state and status of `Run` |
| Engine.RevisionCountCountsDrafts | agent.py:157 | after every visit, and at the end, `revision_count` is its start value plus the number of synthesis visits so far |
| Engine.RevisionCountNeverDecreases | agent.py:157 | `revision_count` never goes down along a run |
| Engine.StaysInBudget | agent.py:215-232 | from any in-budget point, a run ends with at most four drafts, and the fact checker only sees a count of at most three |
| Engine.StepBound | agent.py:236-272 | from any in-budget point, the number of node executions is bounded by a measure of the stage and the remaining drafts |
| Engine.FreshRunIsBounded | agent.py:299-309 | for every query and every model and search behaviour, a run executes at most 17 nodes, writes at most four drafts, and ends with `revision_count` at most four |
| Engine.FactsCeilingUnreachable | agent.py:224-226 | on every fact-checker visit the count is at most three, so `route_facts` is decided by the verdict alone |
| Engine.RejectedUntilCeiling | agent.py:215-222 | if the neutralizer rejects every draft, a completed run from the planning stages ends at four revisions without a fact check |
| Engine.AlwaysBiasedWritesFourDrafts | agent.py:215-222 | when the classifier says political and every draft is rejected as biased, a completed run writes exactly four drafts and never reaches the fact checker |
| Engine.HallucinationLoop | agent.py:224-232 | if every draft is neutral and every fact check fails, a completed run ends at four revisions, with `is_valid` true, at the neutralizer, after a computed number of fact checks |
| Engine.HallucinationsEndAtNeutralityCeiling | agent.py:215-232 | when the classifier says political, every draft is neutral and every fact check fails, a completed run has four drafts, three fact checks, its last visit at the neutralizer, and `is_valid` true at the end |
| Engine.UnclearClassificationIsPolitical | agent.py:59-70 | unless the reply decodes to an object with a missing or falsy `is_political`, the router records political, the run goes on to the planner (or crashes there) and never visits the redirect node |
| Engine.RedirectEndsRun | agent.py:204-213 | a non-political query visits exactly the router and the redirect node, completes, appends exactly the redirect message, and that message is what is printed |
| Engine.MessagesOnlyAtRedirect | agent.py:30 | the final messages extend the initial ones, and equal them when the redirect node was not visited |
| Engine.NeverRedirectsAfterRouter | agent.py:246-272 | a run that starts past the entry node never visits the redirect node |
| Engine.EmptyDraftEchoesQuery | agent.py:311-316 | when the classifier says political, a completed run that ends with an empty draft prints the user's own query back |
| Engine.FinalResponse | agent.py:311-318 | a crashed run prints its error; otherwise a non-empty draft is printed, else the last message, else nothing |

## Left out

- The language model (`ChatOllama`) and the Tavily search tool are not
  modelled. Their answers are inputs. The model's answer is indexed by step
  number: a reply text or a raised exception. A search answer is indexed by
  step number and sub-query: a list, a non-list value, or a raised exception.
- Because a search answer is a function of the step and the sub-query, two
  equal sub-queries in one researcher visit always get the same answer. A
  transient failure on one of them and a success on the other is not
  represented.
- `json.loads` is not modelled. It is an arbitrary partial function from text
  to JSON values. JSON numbers are reals, not Python floats.
- The prompt texts, and how the critique and the joined context are put into
  them, are left out. They only shape what the model is asked.
- Non-string dictionary values in search results, and non-list search
  results, are kept as their `str()` text. Python's `str()` rendering is left
  out.
- The in-place write `state['context'] = context_results` is left out. The
  engine's merge stores the same list under the same key.
- The `print` logging, the graph PNG rendering, `load_dotenv`, the `exit` and
  `quit` commands of the input loop, and `web_interface.py` are left out.
  `web_interface.py` is not part of this model.
- LangGraph's default recursion limit of 25 steps is not modelled. Every run
  ends within 17 node executions, so the limit never applies.
- `Text.Strip` works on Unicode code points with the `str.isspace` set. Other
  Unicode behaviour is left out.
