# Models of RAGFlow's filter push-down, canvas, DSL migration and MCP session

Five parts of RAGFlow 0.26.4, modelled in Dafny and proved correct, or proved to
differ from their own documentation exactly where they do.

**Metadata filters.** `MetaFilter` is the in-memory evaluator over an inverted index,
with its loop-carried `value`; `MetaOrder` and `MetaSettled` say exactly when the order
of its buckets matters, `MetaJudgement` what one bucket's verdict means, and `MetaStore`
builds the index. `EsFilter` is the
translator to Elasticsearch clauses and `EsQuery` says which documents a clause
selects. `Pushdown` and `PushdownTerms` give each compiled filter its meaning, `Agreement` compares whole
requests on text conditions, `PushdownValues` on values of any kind that the engine reads
as text, and `PushdownLimits` shows where they part. `Glob` is the wildcard language (and
LIKE), with its escape. `InfinityFilter` prints the SQL condition for Infinity,
`SqlText` and `SqlGrammar` are a lexer and a parser for it (NOT above AND above OR,
section 8.12 of SQL-92), and `InfinityMeaning` evaluates the parsed text in
three-valued logic; `InfinityText` spells the text itself. The parts of Python that are not modelled (`literal_eval`, `str`
of a value that is no text, ordering) are functions of an arbitrary `PyEnv`; case
folding is any idempotent character-wise fold that keeps blanks, shared by both sides.

**Canvas run loop.** `CanvasGraph` is the component graph, `CanvasRun` the loop as a
state machine over batches, with the components' behaviour an arbitrary oracle, and
`CanvasObject.Canvas` the same loop as an object updated in place, proved to do what
the state machine says. `CanvasSteps` tells what one step schedules and says, kind by
kind; `CanvasGrowth`, `CanvasTermination`, `CanvasReadiness`,
`CanvasLedger` and `CanvasOutcome` prove what every run keeps: the path, the length of
a run, what is invoked, the finish events, and the path left behind.

**Variable store.** `VariableNames` reads the expressions. `VariableStore` is the nested
get and set of variables over a heap in which every stored dictionary has an identity,
so that outputs can share one, and the object that updates it in place.
`VariableReadings` tells what each key reads, `VariableLaws` proves what one write does to every reading below a dictionary,
`VariableSharing` states the laws of the store, and `VariableAliases` treats assignment
between outputs and the output with the empty name.

**DSL migration.** `Json` is JSON with ordered keys, `DslMigration` the migration,
`DslPasses` its loops, `DslReferences` the variable pattern. `DslTexts`, `DslMeaning`,
`DslDrawing` and `DslDocument` say, without its passes, what the migrated document is;
`DslIdempotence` and `DslIsomorphism` are the other main results.

**MCP session.** `McpSession` interleaves callers, worker and close as atomic steps on an
event loop that works in passes, as asyncio does in the Python that `pyproject.toml:8`
asks for: what a step schedules runs in the next pass, and a loop told to stop ends with
the pass in which it is told. `McpCallers` says which callers are told what,
and `McpProgress` what can always still happen.

Where code and documentation disagree, the code is modelled:

- `common/metadata_es_filter.py:24-28` says a compiled filter mirrors the in-memory
  filter exactly. `Agreement.OneFilterExactIff` gives the exact condition.
- The comment at `common/metadata_es_filter.py:83-85` says that `not contains` agrees
  on multi-valued fields; `PushdownLimits.RoutedNotContainsDiffers` shows it does not,
  and that the routing check lets it through.
- `empty` also selects documents without the key in the search engine only, and an
  empty filter list selects nothing in memory and everything in the search engine.
- Of Infinity's operators only `contains` looks for a number as a number, so that
  `not contains` is not its negation there (`InfinityMeaning.ContainsNegatedIff`).
- The in-memory answer of a comparison can depend on the order of the buckets, because
  each bucket passes its rewritten value on: `> 5` over "abc" and "7" finds both in one
  order and one in the other (`MetaOrder.RangeDependsOnOrder`).
  `MetaOrder.OrdersAgreeIff` and `MetaSettled.SettledOrdersAgreeIff` give the exact
  conditions.
- Only the search trims a compared text and the members of a list, splits a text under
  `in`, and takes a number under `contains` for text. `PushdownValues` gives the exact
  conditions under which the answers agree all the same.
- A call cancelled by a close gets the cancellation as a result, because
  `CancelledError` is not an `Exception`, and its coroutine fails on a missing attribute.
  But the loop stops before its thread is told, so that the thread times out
  (`McpCallers.CancelledNeverTold`). An answer that arrives in the pass of the close is
  lost in the same way (`McpCallers.AnswerArrivesIff`).
- A dictionary assigned from one output to another is shared, and a write below one is
  read below the other, unless the dictionary is empty
  (`VariableAliases.AssignmentShares`).  A path through a dictionary that contains
  itself need not read back what was written to it (`VariableSharing.ReadBackIff`), and a
  dictionary written below itself is such a one (`VariableSharing.CircleExists`).
- A write to an output with an empty name is never read back; below it, a write is read
  back exactly when its first key reaches a dictionary output
  (`VariableAliases.EmptyNameReadBackIff`).
- Two components whose new ids collide are merged by the migration
  (`DslIsomorphism.CollisionMerges`), and a reference that names no component can become
  one that does (`DslIsomorphism.StrayBecomesLink`).
  `DslIsomorphism.MigrationIsIsomorphismIff` gives the exact condition.

## Model

| member | source | states |
|---|---|---|
| MetaFilter.FilterOut | ragflow-0.26.4/common/metadata_utils.py:39-119 | the bucket loop, with its dates, literals and rewritten `value`, collects what folding one bucket at a time collects |
| MetaFilter.Run | ragflow-0.26.4/common/metadata_utils.py:121-138 | the filter loop with its early exit computes the accumulated set, missing keys giving no documents |
| MetaFilter.VisitMeans | ragflow-0.26.4/common/metadata_utils.py:42-116 | on a text condition every bucket is judged by the original value, whatever bucket came before it |
| MetaFilter.CollectedMeans | ragflow-0.26.4/common/metadata_utils.py:39-119 | on a text condition a document is collected if and only if one of its values satisfies the operator's plain meaning |
| MetaFilter.OrderDoesNotMatter | ragflow-0.26.4/common/metadata_utils.py:39-119 | on a text condition over texts, indexes with the same buckets, in any order and number, give the same documents |
| MetaFilter.QuotedValueDependsOnOrder | ragflow-0.26.4/common/metadata_utils.py:67-80 | a quoted digit, which every literal bucket parses once more, is found in one order of two number buckets and not in the other |
| MetaOrder.SteadyOrdersAgree | ragflow-0.26.4/common/metadata_utils.py:45-62 | for an operator that is no comparison, and for a date as value, no order of the buckets changes the documents collected |
| MetaOrder.SteadyCollected | ragflow-0.26.4/common/metadata_utils.py:45-84 | there each bucket is judged by the value as given, wherever it stands |
| MetaJudgement.VerdictMeans | ragflow-0.26.4/common/metadata_utils.py:42-116 | for every operator and every value, a bucket matches exactly when its text stands in the operator's relation to the value: lower case, parsed literals, trimmed dates, members, prefixes and parts spelled out |
| MetaJudgement.SteadyMeans | ragflow-0.26.4/common/metadata_utils.py:81-104 | for an operator that is no comparison a document is collected if and only if one of its values is judged so |
| MetaJudgement.DateMeans | ragflow-0.26.4/common/metadata_utils.py:45-62 | a date as value collects exactly the documents with a date, trimmed, that stands in the operator's relation to it |
| MetaJudgement.NumbersCompare | ragflow-0.26.4/common/metadata_utils.py:67-113 | two texts that spell numbers compare as numbers |
| MetaOrder.ComparedCollected | ragflow-0.26.4/common/metadata_utils.py:42-80 | in a comparison, with any value, a bucket is judged by the value that the number of literal buckets before it, and the kind of the first bucket, have left; a date stays |
| MetaOrder.OrdersAgreeIff | ragflow-0.26.4/common/metadata_utils.py:42-117 | for any comparison and any value, over buckets that share no document, all orders agree if and only if every non-empty bucket judges alike upon each value it can meet |
| MetaSettled.SettledOrdersAgreeIff | ragflow-0.26.4/common/metadata_utils.py:42-117 | for a value that one parse settles, be it into a date, and documents in any number of buckets: all orders agree if and only if no bucket is a literal, or each document is found, or not found, whichever literal comes first and wherever the other buckets stand |
| MetaOrder.RangeDependsOnOrder | ragflow-0.26.4/common/metadata_utils.py:67-113 | a range with a number as text finds a word before the first number bucket and not after it |
| MetaStore.BuildIndex | ragflow-0.26.4/api/db/services/doc_metadata_service.py:782-798 | flattening the stored documents, lists value by value, nulls dropped and every value as text, gives an index that lists a document under a key and text if and only if a field of that key holds an item, or is a value, shown as that text |
| Glob.EscapeCons | ragflow-0.26.4/common/metadata_es_filter.py:576-578 | three replaces in sequence escape text character by character |
| Glob.ReadEscaped | ragflow-0.26.4/common/metadata_es_filter.py:576-578 | reading an escaped text back as a pattern gives its characters as literals, whatever follows |
| Glob.ContainsPattern | ragflow-0.26.4/common/metadata_es_filter.py:295-304 | `*` + escape(t) + `*` accepts s if and only if t occurs in s |
| Glob.EndPattern | ragflow-0.26.4/common/metadata_es_filter.py:310-312 | `*` + escape(t) accepts s if and only if s ends with t |
| EsQuery.MustMeans | ragflow-0.26.4/common/metadata_es_filter.py:124-135 | a bool clause selects a document exactly when all of its must and none of its must_not do |
| EsFilter.CsvOrList | ragflow-0.26.4/common/metadata_es_filter.py:472-504 | the membership loop yields the trimmed, lower-cased members, or the same refusal |
| EsFilter.PlanPushdown | ragflow-0.26.4/common/metadata_es_filter.py:329-346 | the loop translates every filter in order or stops at the first refusal |
| EsFilter.IsPushdownSupported | ragflow-0.26.4/common/metadata_es_filter.py:349-368 | accepts exactly the lists in which no filter is unknown, keyless, `≠` or `not in` |
| Pushdown.OneClause | ragflow-0.26.4/common/metadata_es_filter.py:116-135 | a translated filter contributes one clause, true of a document exactly when every must holds and no must_not does |
| Pushdown.QueryMeans | ragflow-0.26.4/common/metadata_es_filter.py:147-177 | for any filters a rendered plan selects the in-scope documents on which the filters hold as wholes, joined by the logic; no half of a filter can match |
| Pushdown.ProbeMeans | ragflow-0.26.4/common/metadata_es_filter.py:238-312 | the clause of a text operator finds the documents with a value that satisfies it (or, negated, fails it) |
| PushdownTerms.RefusedIff | ragflow-0.26.4/common/metadata_es_filter.py:194-236 | a filter is refused if and only if it has no key, an unknown operator, or a value that its operator's coercion cannot read |
| PushdownTerms.PlanRefusedIff | ragflow-0.26.4/common/metadata_es_filter.py:329-346 | a whole request is refused for its logic, or for the first filter that is refused, with that one's reason |
| PushdownTerms.RangeMeans | ragflow-0.26.4/common/metadata_es_filter.py:275-282 | on a document that has the key a range asks the engine about the trimmed value: the date as it is, the number it is the literal of, or else the text |
| PushdownTerms.EqualityMeans | ragflow-0.26.4/common/metadata_es_filter.py:264-273 | an equality, or its rejection on a document that has the key, asks for the date as it is, for a number on the analysed field, for a quoted text without its quotes, or for the text, each up to case |
| PushdownTerms.MembershipMeans | ragflow-0.26.4/common/metadata_es_filter.py:284-293 | a membership, or its rejection, asks for one of the members of the list, tuple, literal or comma-separated text, trimmed, in lower case, numbers on the analysed field |
| Agreement.FilterExact | ragflow-0.26.4/common/metadata_es_filter.py:194-312 | for every text filter and document the compiled filter equals the in-memory one except on documents with both a satisfying and a failing value, and `empty` also takes documents without the key |
| Agreement.AccumulateMeans | ragflow-0.26.4/common/metadata_utils.py:121-138 | the loop with its early exit is the plain intersection or union of the filters' hits |
| Agreement.MemoryMeans | ragflow-0.26.4/common/metadata_utils.py:30-138 | the in-memory evaluator returns the documents that satisfy the filters, over any index of them |
| Agreement.SearchMeans | ragflow-0.26.4/common/metadata_es_filter.py:147-177 | the search returns the in-scope documents on which the compiled filters hold |
| Agreement.SingleValuedExact | ragflow-0.26.4/common/metadata_es_filter.py:24-28 | on single-valued text metadata every operator but `empty`, in any list and either logic, gives exactly the in-memory result |
| Agreement.PositiveExact | ragflow-0.26.4/common/metadata_es_filter.py:264-312 | on any metadata, multi-valued too, the positive operators give exactly the in-memory result |
| Agreement.PushdownWithin | ragflow-0.26.4/common/metadata_es_filter.py:77-86 | on any metadata every list without `empty` gives a subset of the in-memory result |
| Agreement.PushdownExactIff | ragflow-0.26.4/common/metadata_es_filter.py:194-346 | whole requests, any filters and either logic, agree if and only if no document in scope is lost (mixed values under a negated filter decide) or gained (a key that `empty` asks about is missing and decides) |
| Agreement.PushdownExact | ragflow-0.26.4/common/metadata_es_filter.py:194-346 | in particular they agree where no document is mixed under a filter or lacks a key that `empty` asks about |
| Agreement.OneFilterExactIff | ragflow-0.26.4/common/metadata_es_filter.py:77-86 | for one filter that condition is necessary as well |
| PushdownLimits.MixedDocumentIsLost | ragflow-0.26.4/common/metadata_es_filter.py:77-86 | a document with a satisfying and a failing value under a negated filter is found in memory and lost in the search |
| PushdownLimits.RoutedNotContainsDiffers | ragflow-0.26.4/common/metadata_es_filter.py:83-86 | `not contains` passes the routing check and differs on every such two-valued document |
| PushdownLimits.ContainmentIsStrict | ragflow-0.26.4/common/metadata_es_filter.py:77-86 | for `≠` and `not in` a concrete store on which the search finds strictly less |
| PushdownLimits.NoFiltersAgreeIff | ragflow-0.26.4/common/metadata_es_filter.py:155-156 | without filters the search returns the whole scope and the evaluator nothing: they agree if and only if nothing is in scope |
| PushdownValues.FoundMeans | ragflow-0.26.4/common/metadata_es_filter.py:441-504 | a filter read as text finds a document by its value trimmed, split into members or shown as text |
| PushdownValues.KeptMeans | ragflow-0.26.4/common/metadata_utils.py:39-119 | the in-memory loop finds it by the value as given, over any index of the documents |
| PushdownValues.TextRequestExactIff | ragflow-0.26.4/common/metadata_es_filter.py:194-346 | whole requests of filters that the engine reads as text, any values, any mixture, either logic, agree if and only if the two give the same answer on every document in scope |
| PushdownValues.CommaTextExactIff | ragflow-0.26.4/common/metadata_es_filter.py:284-293 | one `in` filter with a comma-separated text agrees if and only if every document with a value that is part of the text has one that is a member, and the search never returns more; one `not in` filter, if and only if every document with values has a member exactly when all its values are parts |
| PushdownValues.EqualityExactIff | ragflow-0.26.4/common/metadata_es_filter.py:264-273 | `=` and `≠` with a text, trimmed or not, agree if and only if every document with values has the trimmed text exactly when, for `=`, it has the text as given and, for `≠`, it has no other |
| PushdownValues.ShownExactIff | ragflow-0.26.4/common/metadata_es_filter.py:295-304 | `contains` and `not contains` with a number find nothing in memory, and agree if and only if no value, or some value of each document that has one, holds the number as text |
| InfinityFilter.TranslateIn | ragflow-0.26.4/common/metadata_infinity_filter.py:126-143 | the sorting loop prints the members as two parenthesised OR groups inside parentheses |
| InfinityFilter.TranslateNotIn | ragflow-0.26.4/common/metadata_infinity_filter.py:145-162 | the sorting loop prints the negated members as AND groups joined by AND, unparenthesised |
| SqlText.LexWrite | ragflow-0.26.4/common/metadata_infinity_filter.py:104-204 | the emitted text splits back into the tokens it was printed from, quotes and embedded quotes included |
| SqlGrammar.ParseWritten | ragflow-0.26.4/common/metadata_infinity_filter.py:198-204 | parsing a printed condition with NOT above AND above OR gives the condition back |
| InfinityMeaning.InMeans | ragflow-0.26.4/common/metadata_infinity_filter.py:126-143 | the two groups together mean "some member", although the members were sorted by type |
| InfinityMeaning.NegatesExactly | ragflow-0.26.4/common/metadata_infinity_filter.py:104-162 | on the emitted texts, `≠` is the exact negation of `=`, and `not in` of `in`, in three-valued logic |
| InfinityMeaning.ContainsNegatedIff | ragflow-0.26.4/common/metadata_infinity_filter.py:164-178 | `not contains` negates `contains` on every row if and only if the value is not the literal of a number |
| InfinityMeaning.BuildMeans | ragflow-0.26.4/common/metadata_infinity_filter.py:191-204 | for every filter list and row the emitted text parses, and evaluates to the and/or of what the filters mean, operator by operator: the function asked, its comparison, its argument and its sign |
| InfinityText.FragmentWritten | ragflow-0.26.4/common/metadata_infinity_filter.py:55-188 | the text emitted for each operator, character by character |
| InfinityText.BuildText | ragflow-0.26.4/common/metadata_infinity_filter.py:191-204 | the whole text: the fragments in order, joined by the logic, in parentheses |
| InfinityText.RefusedIff | ragflow-0.26.4/common/metadata_infinity_filter.py:55-67 | a filter is refused if and only if its key is no identifier, its operator unknown, or its value one that the operator cannot read: null, a list or dictionary where a scalar is asked for, empty text, a membership that is empty or holds a null |
| InfinityMeaning.BuildNothing | ragflow-0.26.4/common/metadata_infinity_filter.py:199-200 | the text for no filters parses to a condition that every row meets |
| InfinityMeaning.LikePrefixAccepts | ragflow-0.26.4/common/metadata_infinity_filter.py:180-183 | the quoted literal reads back as its pattern, which accepts s if and only if s starts with t |
| InfinityMeaning.LikeSuffixAccepts | ragflow-0.26.4/common/metadata_infinity_filter.py:185-188 | the quoted literal reads back as its pattern, which accepts s if and only if s ends with t |
| CanvasGraph.SuccessorKnown | ragflow-0.26.4/agent/canvas.py:701-751 | the components a processed one can schedule are in the graph |
| CanvasRun.PostOnePath | ragflow-0.26.4/agent/canvas.py:642-751 | processing a position only appends to the path, and only legal successors of that position's component |
| CanvasRun.BatchGrows | ragflow-0.26.4/agent/canvas.py:625-751 | a batch keeps its surviving entries in place and appends only successors of its own entries |
| CanvasGrowth.ExecutedStays | ragflow-0.26.4/agent/canvas.py:560-593 | in every run up to suspension the executed prefix of the path never changes |
| CanvasGrowth.RunStages | ragflow-0.26.4/agent/canvas.py:701-756 | in every run up to suspension the path the run adds comes in batches, each entry past the first batch a legal successor of an entry in the batch just before, although pending entries are popped |
| CanvasSteps.AppendAllSqueezes | ragflow-0.26.4/agent/canvas.py:723-736 | appending collapses equal neighbours, at the seam too, and changes nothing else |
| CanvasSteps.PostOneSchedules | ragflow-0.26.4/agent/canvas.py:701-751 | the appended entries are exactly what the component's kind asks for (a choice what it chose, a group its start, an ended item what is behind its group, any other its downstream or the start of its group), in order, neighbours collapsed; on an error with a jump exactly the jump's targets |
| CanvasSteps.StartIsFirst | ragflow-0.26.4/agent/canvas.py:738-746 | a group starts with its first component in order that is an item of the group's kind |
| CanvasSteps.PostOneTells | ragflow-0.26.4/agent/canvas.py:642-721 | the error is set exactly when neither a jump nor a default handles it; waiting finishes leave only behind a message and exactly up to the first whose stream is not consumed; a finish is held back exactly while its content streams; and the events are exactly these |
| CanvasSteps.BatchAnnounces | ragflow-0.26.4/agent/canvas.py:560-593 | a batch announces all pending entries in order before anything else |
| CanvasSteps.TurnMeans | ragflow-0.26.4/agent/canvas.py:753-774 | a turn fails exactly when its batch leaves an error, is suspended exactly when without one a fill-up is pending with inputs unmet, and leaves the path accordingly |
| CanvasTermination.RunWalks | ragflow-0.26.4/agent/canvas.py:625-774 | a run still going after n turns has walked n steps along legal successors from its first batch |
| CanvasTermination.RunStops | ragflow-0.26.4/agent/canvas.py:625-774 | a run ends or suspends within as many turns as the longest walk from its first batch has components, whatever errors and choices occur |
| CanvasTermination.WalkIsShort | ragflow-0.26.4/agent/canvas.py:701-751 | on an acyclic graph a walk meets no component twice |
| CanvasTermination.AcyclicRunStops | ragflow-0.26.4/agent/canvas.py:625-774 | on an acyclic graph every run stops within as many turns as there are components |
| CanvasReadiness.PruneSelects | ragflow-0.26.4/agent/canvas.py:560-577 | a batch invokes a sub-sequence of its entries, each position once: exactly those whose references are executed or invoked before them |
| CanvasReadiness.RunFeeds | ragflow-0.26.4/agent/canvas.py:566-575 | in a run that is not resumed every invoked component but a begin or fill-up has what it refers to before it in the path, then and in every later state up to suspension |
| CanvasLedger.PostMoves | ragflow-0.26.4/agent/canvas.py:642-721 | at every step own finish events plus waiting entries grow by one per processed component that is no iteration or loop |
| CanvasLedger.RunBalances | ragflow-0.26.4/agent/canvas.py:623-721 | over every run, however it stops, finish events out plus entries waiting equal the invoked components, and late events leave in first-in-first-out order, each once |
| CanvasOutcome.RunCalls | ragflow-0.26.4/agent/canvas.py:536-593 | what a run invoked is its path from where it started, in order |
| CanvasOutcome.CleanEnd | ragflow-0.26.4/agent/canvas.py:775-776 | a clean end leaves the earlier path and then every component the run invoked, nothing pending |
| CanvasOutcome.ErrorEnd | ragflow-0.26.4/agent/canvas.py:753-775 | an error leaves exactly the path executed when some number of turns had completed, the failing batch cut off |
| CanvasOutcome.WaitingIsStablePartition | ragflow-0.26.4/agent/canvas.py:758-760 | the saved path holds the pending entries, fill-ups first, each class in its old order |
| CanvasOutcome.FirstBatchIsWhole | ragflow-0.26.4/agent/canvas.py:506-622 | the first batch of a run pops nothing: it is the saved path when resumed, and the begin otherwise |
| CanvasOutcome.SuspensionResumes | ragflow-0.26.4/agent/canvas.py:756-774 | suspension keeps all pending entries, and the next run's first batch invokes them all if and only if the first saved id carries the fill-up name |
| CanvasSteps.ResumesIff | ragflow-0.26.4/agent/canvas.py:506-506 | a run is resumed if and only if the first saved id contains the fill-up name in any case of its letters |
| CanvasOutcome.RunOfPath | ragflow-0.26.4/agent/canvas.py:455-775 | the event, prefix, batch and readiness results together, for a run from any saved path |
| CanvasObject.Canvas.RunBatch | ragflow-0.26.4/agent/canvas.py:560-593 | the loop that pops while it walks leaves the pruned path and invokes the rest |
| CanvasObject.Canvas.PostProcess | ragflow-0.26.4/agent/canvas.py:642-751 | the branches that update path, error, events and waiting entries do one step of the state machine |
| CanvasObject.Canvas.RunImpl | ragflow-0.26.4/agent/canvas.py:621-785 | the nested loops over the object's fields, whatever an earlier run left in them, end in the state of the state machine |
| CanvasObject.Canvas.RunAcyclic | ragflow-0.26.4/agent/canvas.py:621-785 | on an acyclic graph the loop needs no bound and does not stop short |
| VariableNames.ParseSpell | ragflow-0.26.4/agent/canvas.py:229-250 | an expression in any number of braces parses to the component, root and keys it spells |
| VariableReadings.NextKeyReads | ragflow-0.26.4/agent/canvas.py:252-279 | one more key reads one step below: an entry of a dictionary, an item of a list, from its end for a negative number, the attribute of any other value, and below text the value its JSON spells; nothing below null, no JSON, or out of range |
| VariableReadings.NameReads | ragflow-0.26.4/agent/canvas.py:229-250 | the first name reads the output; an unknown one reads as empty text, the empty one as all outputs |
| VariableReadings.FalsyIs | ragflow-0.26.4/agent/canvas.py:297-300 | what a write replaces by a new dictionary: null, false, zero, empty text, list or dictionary |
| VariableStore.PutIsOneEntry | ragflow-0.26.4/agent/canvas.py:304-314 | the in-place loop of a write changes one key of one dictionary, behind which it hangs a chain of new dictionaries |
| VariableStore.Store.PutLoop | ragflow-0.26.4/agent/canvas.py:304-314 | stepping from dictionary to dictionary, putting an empty one where there is none, updates the heap as that write does |
| VariableStore.Store.GetVariable | ragflow-0.26.4/agent/canvas.py:229-279 | the object's key by key reading loop gives the store's value, or the same failure |
| VariableStore.Store.SetVariable | ragflow-0.26.4/agent/canvas.py:281-314 | the object's write mutates the shared dictionary in place and reaches the store's new state; nothing changes when it fails |
| VariableLaws.ReadAfterPut | ragflow-0.26.4/agent/canvas.py:252-314 | after a write below a dictionary a reading that passes the touched key goes on inside what was written there, and every other reading is as before |
| VariableLaws.SeenAfterPut | ragflow-0.26.4/agent/canvas.py:252-314 | the same told on the heap before the write alone, although a reading inside the value may come upon the touched key again |
| VariableLaws.PutTwice | ragflow-0.26.4/agent/canvas.py:304-314 | a second write along a path that does not circle leaves the heap as if it were the only one |
| VariableSharing.SetSucceedsIff | ragflow-0.26.4/agent/canvas.py:281-302 | a write to a named output succeeds if and only if the component exists and the output is falsy, a dictionary, or replaced as a whole |
| VariableSharing.ReadAfterSet | ragflow-0.26.4/agent/canvas.py:229-314 | every reading of every output after a write, shared dictionaries included: inside what was written where it comes upon what was touched, else as before |
| VariableSharing.ReadBackIff | ragflow-0.26.4/agent/canvas.py:229-314 | a variable reads back every value written to it if and only if its path does not lead through the touched key and back to it |
| VariableSharing.SecondSetWinsIff | ragflow-0.26.4/agent/canvas.py:281-314 | of two writes only the second is left in the whole store, whatever the values, dictionaries made by the first write included, under the same condition and only under it |
| VariableSharing.CircleExists | ragflow-0.26.4/agent/canvas.py:304-314 | a dictionary written below itself leads in circles, and an empty list written on that path is read back as null |
| VariableSharing.SeenAfterSet | ragflow-0.26.4/agent/canvas.py:229-314 | every reading of every output after a write, told on the store before it |
| VariableSharing.FrameIff | ragflow-0.26.4/agent/canvas.py:252-314 | a write leaves another variable as it was if and only if, on the store before the write, that one does not come upon what will be touched, or reads what it would find there |
| VariableSharing.UnsharedFrameIff | ragflow-0.26.4/agent/canvas.py:252-314 | where only the written path leads to the touched dictionary: if and only if the paths part no later than at the touched key, or nothing was read there |
| VariableSharing.SetKeepsConsistent | ragflow-0.26.4/agent/canvas.py:281-314 | a write leaves no reference to a dictionary that does not exist |
| VariableSharing.GlobalsApart | ragflow-0.26.4/agent/canvas.py:281-285 | globals read back, and neither globals nor outputs are changed by a write to the other side |
| VariableAliases.AssignmentShares | ragflow-0.26.4/agent/component/variable_assigner.py:57-88 | after one output is set to the dictionary of another, a key written below the first is read below the other if and only if the dictionary was not empty |
| VariableAliases.EmptyNameIsNotReadBack | ragflow-0.26.4/agent/component/base.py:438-446 | a write to the empty output name is never read back, whatever the value |
| VariableAliases.EmptyNameReadBackIff | ragflow-0.26.4/agent/component/base.py:438-446 | below the empty name every value is read back if and only if the first key reaches a dictionary output along a path that does not circle; without such an output the reading there does not change |
| VariableAliases.EmptyKeyReadBackIff | ragflow-0.26.4/agent/component/base.py:438-446 | when the first key is empty too, every value is read back if and only if the reading, which begins in the copy of the outputs, comes upon the key that the write touches with the same keys left; never unless the empty name holds a dictionary |
| DslPasses.BuildIdMap | ragflow-0.26.4/agent/dsl_migration.py:53-61 | the loop over ids and prefixes, stopping at the first prefix that fits, builds the id map |
| DslPasses.NormalizeChunkerDsl | ragflow-0.26.4/agent/dsl_migration.py:35-164 | the passes over components, references, path, nodes, edges and texts in their order, each with its own loops and branches, compute the migration or its failure |
| DslPasses.RewriteComponent | ragflow-0.26.4/agent/dsl_migration.py:85-100 | writing back the name and mapping the two lists and the parent gives the new component |
| DslReferences.TextIsMapped | ragflow-0.26.4/agent/dsl_migration.py:63-71 | a text that is an id is renamed as a whole; in any other a reference keeps braces, blanks and name and gets its id mapped, and the text around it is untouched |
| DslReferences.PlainTextStays | ragflow-0.26.4/agent/dsl_migration.py:63-71 | text without braces holds no reference |
| DslReferences.ClassesAre | ragflow-0.26.4/agent/dsl_migration.py:32-32 | the characters that the pattern takes for braces, blanks, ids and names |
| DslTexts.NewIdMeans | ragflow-0.26.4/agent/dsl_migration.py:22-61 | exactly three old names before the colon are replaced |
| DslTexts.RewriteIsImage | ragflow-0.26.4/agent/dsl_migration.py:63-80 | at any depth of lists and dictionaries every text becomes its image: an id renamed as a whole, any other text taken apart from the left into references, whose ids are mapped, and characters, which stay |
| DslTexts.OneTree | ragflow-0.26.4/agent/dsl_migration.py:63-80 | a text or tree has one image only |
| DslMeaning.ComponentIsImage | ragflow-0.26.4/agent/dsl_migration.py:82-104 | a component keeps its keys; its operator is renamed, its links and parent are mapped, and all other texts in it, at any depth, replaced by their images |
| DslDrawing.NodeIsDrawn | ragflow-0.26.4/agent/dsl_migration.py:109-144 | a node's id and parent are mapped, its type, label and name renamed, its form replaced by its image; all else stays |
| DslDrawing.EdgeIsDrawn | ragflow-0.26.4/agent/dsl_migration.py:146-158 | an edge's ends are mapped, and in its id every old id is replaced by its new one, the longest first, occurrence by occurrence from the left; all else stays |
| DslDrawing.LongestFirstOrders | ragflow-0.26.4/agent/dsl_migration.py:146-158 | ids are ordered by length, longest first, ids of one length in their old order |
| DslDocument.MigrationMeans | ragflow-0.26.4/agent/dsl_migration.py:35-164 | of every document: it is left alone, or fails, exactly when stated; otherwise each component, with the last of colliding ones kept, path, node, edge, history, messages and reference is the image of the old one, and all else stays |
| DslIdempotence.NewIdIsCurrent | ragflow-0.26.4/agent/dsl_migration.py:22-61 | a new id is not renamed again |
| DslIdempotence.RewriteFixed | ragflow-0.26.4/agent/dsl_migration.py:63-80 | under an id map that changes nothing every tree and every text is a fixed point |
| DslIdempotence.MigrationIsIdempotent | ragflow-0.26.4/agent/dsl_migration.py:35-164 | on every document that migrates, colliding ids or not, migrating the result changes nothing and does not fail |
| DslIsomorphism.MigrationMaps | ragflow-0.26.4/agent/dsl_migration.py:35-164 | of any migrated document: the number of components is kept if and only if no two new ids collide, closed references stay closed, and path, nodes and edges are mapped entry by entry |
| DslIsomorphism.MigrationIsIsomorphismIff | ragflow-0.26.4/agent/dsl_migration.py:35-164 | the migrated document's components are the old ones in order under their new ids, with exactly the images of the old downstream, upstream and parent references, if and only if no two new ids collide and no reference outside the components becomes one that is not there already |
| DslIsomorphism.ClosedIsomorphicIff | ragflow-0.26.4/agent/dsl_migration.py:35-164 | where every reference names a component: if and only if no two new ids collide |
| DslIsomorphism.CollisionMerges | ragflow-0.26.4/agent/dsl_migration.py:53-104 | an old and a new name with the same rest of the id are merged into one component |
| DslIsomorphism.StrayBecomesLink | ragflow-0.26.4/agent/dsl_migration.py:93-96 | a reference to the new name of a component that still has the old one is no link before the migration and one afterwards |
| DslIsomorphism.CountIsKeptIff | ragflow-0.26.4/agent/dsl_migration.py:82-104 | the number of components is kept if and only if no two new ids collide |
| DslIsomorphism.NewComponentsAt | ragflow-0.26.4/agent/dsl_migration.py:82-104 | without collisions each component keeps its place under its new id |
| DslIsomorphism.TwoMapsAreOne | ragflow-0.26.4/agent/dsl_migration.py:85-100 | a known id that passes through the text rewriting and then the id map is renamed as if once |
| DslIsomorphism.LinksAreKept | ragflow-0.26.4/agent/dsl_migration.py:93-96 | without collisions the image of one component links to that of another if and only if the one links to the other, or lists a reference that names no component and becomes the other's new id |
| DslIsomorphism.ClosedStaysClosed | ragflow-0.26.4/agent/dsl_migration.py:93-96 | references that are all ids of components stay so, collisions or not |
| DslIsomorphism.ParentsAreKept | ragflow-0.26.4/agent/dsl_migration.py:98-100 | without collisions the image of one component is the parent of that of another if and only if the one is the other's parent, or the other's parent names no component and becomes the one's new id |
| DslIsomorphism.NodeImage | ragflow-0.26.4/agent/dsl_migration.py:113-122 | a node's id and parent are mapped, whatever the later passes do |
| DslIsomorphism.EdgeImage | ragflow-0.26.4/agent/dsl_migration.py:146-158 | an edge's source and target are mapped, whatever becomes of its id |
| DslIsomorphism.GraphImage | ragflow-0.26.4/agent/dsl_migration.py:109-158 | nodes and edges keep number and order, each replaced by its image |
| DslIsomorphism.PathImage | ragflow-0.26.4/agent/dsl_migration.py:106-107 | the path is mapped entry by entry |
| McpSession.StepKeepsInv | ragflow-0.26.4/common/mcp_tool_call_conn.py:128-281 | every step of caller, worker, close or loop keeps the order of the queue and the one fate of each request |
| McpSession.AtMostOneAnswerInOrder | ragflow-0.26.4/common/mcp_tool_call_conn.py:81-281 | in every interleaving, a worker cancelled while it connects, waits or works included, a request gets at most one answer, the worker answers in order of submission, and a closed session has an empty queue and no request without a fate |
| McpSession.ClosedForGood | ragflow-0.26.4/common/mcp_tool_call_conn.py:167-181 | after a close nothing is accepted, taken or cancelled again; only the request in flight can still be settled |
| McpSession.CloseCancelsQueued | ragflow-0.26.4/common/mcp_tool_call_conn.py:237-254 | a close gives a cancellation to exactly the requests still queued |
| McpCallers.StepKeepsCallers | ragflow-0.26.4/common/mcp_tool_call_conn.py:128-281 | every step keeps each caller in the pass it is due, with an outcome that comes from its own request |
| McpCallers.CancelledNeverTold | ragflow-0.26.4/common/mcp_tool_call_conn.py:166-265 | in every interleaving, no thread is told of the outcome of a cancelled request: unless the caller's own timer fired before, `tool_call` answers that it timed out and `get_tools` raises that it did |
| McpCallers.ToldIsTrue | ragflow-0.26.4/common/mcp_tool_call_conn.py:166-235 | in every interleaving, a thread is told of a result only if the worker answered its request with one, of a failure only if the worker reported one, and never of a missing attribute |
| McpCallers.AnswerArrivesIff | ragflow-0.26.4/common/mcp_tool_call_conn.py:161-265 | in every interleaving, by the time the loop has stopped the thread of a caller that waited for an answer was told if and only if the session was open and a pass of the loop ended before the close; and told of the server's result exactly when the server gave one, to a worker that had not failed, for a known task, unless the caller's timer fired after all |
| McpCallers.FailsIff | ragflow-0.26.4/common/mcp_tool_call_conn.py:94-127 | in every interleaving a worker fails its requests exactly when it could not connect or was restarted after an error of the transport |
| McpProgress.LoopCanStop | ragflow-0.26.4/common/mcp_tool_call_conn.py:237-262 | in every interleaving, wherever the loop has got to, a close stops it after steps of its own alone, whoever still waits |
| McpProgress.WorkerNoticesClose | ragflow-0.26.4/common/mcp_tool_call_conn.py:128-137 | the worker of a closed session can always come to its end without being cancelled and without taking another request |
| McpProgress.RequestCanBeAnswered | ragflow-0.26.4/common/mcp_tool_call_conn.py:128-165 | in every interleaving a request queued in an open session can still be answered, by the server if the worker is live and the task known, whatever the worker does now and however many requests come first |
| McpProgress.TimesOutIff | ragflow-0.26.4/common/mcp_tool_call_conn.py:173-181 | in every interleaving a call's coroutine ends with its timeout if and only if its timer fired before it ended, an answer already put in or not |
| McpProgress.CallsAreKept | ragflow-0.26.4/common/mcp_tool_call_conn.py:167-172 | in every interleaving the calls before the close, in order, are the requests, each with its task, and every later one is refused |
| McpProgress.CancelledAtWork | ragflow-0.26.4/common/mcp_tool_call_conn.py:129-165 | a request whose worker is cancelled at work is never answered, and that worker takes nothing until it is restarted |
| McpProgress.WorkerSteps | ragflow-0.26.4/common/mcp_tool_call_conn.py:128-165 | what a worker can do next, state by state |
| McpProgress.CallerSteps | ragflow-0.26.4/common/mcp_tool_call_conn.py:173-235 | what a caller can do next: its timer can fire until its coroutine ends, and it runs on in a later pass than it was woken in |
| McpCallers.RefusalArrivesIff | ragflow-0.26.4/common/mcp_tool_call_conn.py:166-265 | a caller whose coroutine finds the session closed, when its thread had still found it open, is told so if and only if that is in the pass of the close |
| McpCallers.AnswerBeforeCloseIsLost | ragflow-0.26.4/common/mcp_tool_call_conn.py:161-265 | a whole run in which a result put in just before a close is answered as a timeout |
| McpSession.Session.CallMcpServer | ragflow-0.26.4/common/mcp_tool_call_conn.py:167-172 | a call on an open session is queued under the next number, on a closed one refused |
| McpSession.Session.FinishTask | ragflow-0.26.4/common/mcp_tool_call_conn.py:140-165 | the worker puts one reply, the server's answer for a list or call of a worker that has not failed, a failure otherwise, into the queue of the request it took |
| McpSession.Session.ResumeCaller | ragflow-0.26.4/common/mcp_tool_call_conn.py:173-202 | a woken caller's coroutine ends with the result, the reported error, its timeout or the missing attribute |
| McpSession.Session.DrainQueue | ragflow-0.26.4/common/mcp_tool_call_conn.py:243-253 | the drain loop empties the queue, puts one cancellation into each result queue and wakes who waits there |
| McpSession.Session.CloseSession | ragflow-0.26.4/common/mcp_tool_call_conn.py:237-256 | a close marks the session closed in this pass and drains it; a second one does nothing |

## Left out

- Elasticsearch, Infinity, Redis and MySQL clients, `apply_meta_data_filter` and its LLM calls: input and output.
- `ast.literal_eval`, `str` of numbers, float formatting: arbitrary functions of the environment.
- Unicode: case folding is per character; `isdigit`, `strip()` and `\s` take the ASCII digits and blanks only, and the engine's case-insensitive match folds as `str.lower` does.
- Elasticsearch field paths: a metadata key with a dot, the 256-character `ignore_above` of keyword fields and tokenisation of the analysed field.
- Range operators, and values that the translator turns into numbers, in the comparison of the two evaluators: the engine's own ordering and numeric mapping are not described by the repository (`PushdownTerms` says what the engine is asked).
- `extract_doc_ids`: reads identifiers out of a response.
- Infinity's functions: `JSON_CONTAINS` and `JSON_EXTRACT_*` are any three-valued predicate of a row, and the JSON quoting inside an argument is not interpreted.
- List-typed index keys in `filter_out`: an index built by the repository has text keys only.
- CanvasGrowth.RunStages: speaks of runs up to suspension, since a suspended run replaces its path.
- Canvas graphs that refer to missing components: the source raises there, so `CanvasGraph.Proper` asks for known successors.
- Cancellation of a canvas task, text to speech, streamed message content, token usage, history and retrieval records.
- MetaOrder.OrdersAgreeIff: speaks of buckets that share no document; where they do, `MetaSettled.SettledOrdersAgreeIff` speaks of values that one parse settles, so that values parsed twice or more, such as a number in two pairs of quotes, over documents with several values are left out.
- Lists held in variables: other code may change them in place; no write of the variable store goes through one, so they are values.
- JSON text read from a variable gives a dictionary nothing else holds; storing it stores a new dictionary.
- VariableSharing.FrameIff: speaks of named outputs; `EmptyNameReads` reduces a reading below the empty name to one.
- DslDrawing.EdgeIsDrawn: says what sequential replacement makes of an edge's id, not when that is the id an edge between the new ends would get.
- Deep copying in the migration: the model's documents are values.
- Clocks: the timer of an MCP caller's coroutine fires at any time, and its thread is taken to wait until the loop has nothing more to tell it.
- The transports, and `close_multiple_mcp_toolcall_sessions`, which closes on another loop where the steps are not atomic.
- McpProgress.RequestCanBeAnswered: says that a request can be answered, not that it will be; it stays queued while the worker is gone.
