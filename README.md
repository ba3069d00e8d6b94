# Retrieval core of the RAG chatbot, in Dafny

This project models the retrieval core of the fastener chatbot's backend:

- **The windower** (`split_into_windows`). It cuts a text into windows of at most
  256 tokens, starting a new one every 200 tokens' worth of characters at 4
  characters per token. Each candidate chunk is shrunk from its tail while an
  external token counter puts it over budget.
- **The retriever** (`get_context_and_ifi`). It asks the similarity store for
  the top matches of every window. Scores are summed per document identifier
  (IFI file name), and the content last returned for each identifier is kept.
  The identifiers are stably sorted by accumulated score, highest first, and
  the first `top_n` are returned as (content, identifier) pairs. Blank text
  returns nothing, and any failure inside is raised again with the
  retriever's prefix.
- **The retrieval half of the chat service** (`agent_service`):
  - the guard that demands an attachment or a query;
  - the newline join of the attachment descriptions;
  - one retrieval per non-blank description and then for the query;
  - the first-seen-wins merge of their pairs by identifier, which gives the
    reply's `resources`.
- **The history formatter** (`render_histories`). It renders each exchange as
  a four-line entry, with entries separated by single newlines.

The sources are imperative, and the model follows them in two layers.

The source's loops are Dafny methods with loop invariants:

- `SplitIntoWindows` and `ShrinkChunk` are proved equal to the specification
  functions `Windows` and `Shrink`;
- `AddMatches` and `AggregateWindows` are proved to keep the dictionaries
  `Aggregated`: the key order, sums and last contents of all matches seen.
  `AggregateWindows` also follows `QueryAll`;
- `RetrieveAll` follows `Retrievals`, and it and `MergeInto` are proved equal
  to `Merge` of the pairs retrieved;
- `RenderHistories` is proved equal to `Render`.

The entry points are loop-free methods that call those loops:

- `GetContextAndIfi` is proved equal to `ContextAndIfi`;
- `RankDictionaries` is proved equal to `Rank`;
- `AgentService` is proved equal to `AgentReply`;
- `RetrieveOne` is proved equal to `Retrieval`.

The promised properties are proved as lemmas about the specification
functions.

Outside collaborators are parameters:

- the token counter is `tokens: string -> nat`;
- the embedder and the similarity store together are
  `store: (window, limit) -> Result<matches>`, where a `Failure` stands for
  any exception either raises;
- the attachment parser's output is the `descriptions` parameter.

Modules and files:

- `util.dfy` (`Util`): `Result`, `Distinct`, the Python-style `Join`, and
  sequence lemmas.
- `windower.dfy` (`Windower`): `split_into_windows`.
- `retriever.dfy` (`Retriever`): `get_context_and_ifi`.
- `agent.dfy` (`Agent`): `agent_service` up to the language model call.
- `formatter.dfy` (`Formatter`): `render_histories`.
- `scenarios.dfy` (`Scenarios`): the ranking on the store answers of the
  repository's retriever tests, and on a one-window example.

Three behaviours of the code are worth stating outright:

- The content kept per identifier is the LAST one the store returned for it
  (`similarity_retriever.py:53`), not the first.
- The service's guard is `not attachments and not query` (`server.py:50`). It
  tests the query with `not query`, not with `strip()`. A query of spaces
  therefore passes the guard and is then skipped as blank by the retrieval
  loop (`server.py:89`). When no attachment description is non-blank either,
  the reply has no documents.
- The comment at `server.py:98` says a duplicate's content is overwritten.
  The code keeps the first pair and drops the later one, and the model does
  the same (`MergeKeepsFirst`).

## Model

| member | source | states |
|---|---|---|
| Windower.CharsToRemove | src/modules/chatbot/lib/similarity_retriever.py:114-115 | the characters cut for an overage of `o` tokens are exactly `ceil(o * 4 * 0.8)`: `5k >= 16o` and `5k < 16o + 5` |
| Windower.Offset | src/modules/chatbot/lib/similarity_retriever.py:133 | after `k` advances of `step` characters the cursor stands at `k * step` |
| Windower.CandidateSpec | src/modules/chatbot/lib/similarity_retriever.py:100-103 | the candidate chunk is the text at the cursor, at most `ws * 4` characters, ending within the text |
| Windower.ShrinkSpec | src/modules/chatbot/lib/similarity_retriever.py:111-123 | the shrink loop returns a prefix of its chunk that is empty or within the token budget; a chunk already within budget is returned unchanged |
| Windower.ShrinkChunk | src/modules/chatbot/lib/similarity_retriever.py:106-123 | the counting-and-cutting loop, with its early give-up to "", computes exactly the shrink function; it terminates since the chunk shortens each round |
| Windower.SplitIntoWindows | src/modules/chatbot/lib/similarity_retriever.py:70-135 | the cursor loop computes exactly the window sequence; when the whole text is within budget the result is `[data]` after one count; the token counter is called at least once |
| Windower.WindowsFromAt | src/modules/chatbot/lib/similarity_retriever.py:97-133 | window `k` is the shrunk candidate at offset `k * stride * 4`, non-empty, and that offset lies inside the text |
| Windower.WindowsFromStop | src/modules/chatbot/lib/similarity_retriever.py:97-128 | the loop stops only when the cursor is past the end or the chunk at the cursor shrank to nothing |
| Windower.WindowShape | src/modules/chatbot/lib/similarity_retriever.py:100-133 | past the fast path every window is non-empty, within the token budget, at most `ws * 4` characters, and equal to the text's slice at offset `k * stride * 4` |
| Windower.WindowCount | src/modules/chatbot/lib/similarity_retriever.py:97-133 | there are at most `ceil(len(data) / (stride * 4))` windows |
| Windower.WindowsCharacterised | src/modules/chatbot/lib/similarity_retriever.py:97-133 | a sequence is the windower's result iff each element is the non-empty shrunk candidate at its offset and the sequence stops exactly where the cursor passes the end or a chunk empties; once a chunk empties, no window follows |
| Retriever.LastContent | src/modules/chatbot/lib/similarity_retriever.py:53 | the content kept for a seen identifier is that of the last match naming it |
| Retriever.TotalScoreAppend | src/modules/chatbot/lib/similarity_retriever.py:48-52 | accumulated scores add up across consecutive windows' answers |
| Retriever.InsertElements | src/modules/chatbot/lib/similarity_retriever.py:56 | one insertion step of the sort adds exactly the inserted item |
| Retriever.InsertSorted | src/modules/chatbot/lib/similarity_retriever.py:56 | one insertion step of the sort keeps the order non-increasing |
| Retriever.SortSpec | src/modules/chatbot/lib/similarity_retriever.py:56 | `sorted(..., reverse=True)` gives a permutation of the items in non-increasing score order; entries of equal score keep their input order, and distinct items stay distinct |
| Retriever.TiesPrefix | src/modules/chatbot/lib/similarity_retriever.py:57 | cutting the sorted list keeps a prefix of every run of equal scores |
| Retriever.ItemsSpec | src/modules/chatbot/lib/similarity_retriever.py:48-53 | the score dictionary's items are the identifiers seen, once each, each with its sum of scores |
| Retriever.RankedSpec | src/modules/chatbot/lib/similarity_retriever.py:56-57 | the ranking holds `min(top_n, #distinct identifiers)` entries with distinct identifiers, each seen and carrying its accumulated score, in non-increasing score order |
| Retriever.RankedTop | src/modules/chatbot/lib/similarity_retriever.py:56-57 | no identifier left out of the ranking scores higher than one kept |
| Retriever.RankedTies | src/modules/chatbot/lib/similarity_retriever.py:56-57 | among equal scores the ranking keeps the first-seen identifiers, in first-seen order |
| Retriever.RankSpec | src/modules/chatbot/lib/similarity_retriever.py:56-60 | the pairs follow the ranking, have distinct identifiers, and each carries the content last seen for its identifier |
| Retriever.RankedFirst | src/modules/chatbot/lib/similarity_retriever.py:56-60 | an identifier whose total beats every other's comes first, with its content, whenever `top_n > 0` |
| Retriever.IsBlank | src/modules/chatbot/lib/similarity_retriever.py:32 | a text is blank iff every character is one for which Python's `str.isspace()` holds |
| Retriever.StripBlank | src/modules/chatbot/lib/similarity_retriever.py:32 | `strip()` (leading, then trailing white space removed) leaves "" exactly when the text is blank |
| Retriever.QueryAll | src/modules/chatbot/lib/similarity_retriever.py:48-68 | the window-by-window queries succeed iff the store answers every window, with one answer per window in order; otherwise the first failure is the outcome |
| Retriever.ContextAndIfi | src/modules/chatbot/lib/similarity_retriever.py:16-68 | blank text gives `[]`; otherwise the call fails iff the store fails on some window, with the retriever's error prefix and no partial result |
| Retriever.OneWindowRetrieval | src/modules/chatbot/lib/similarity_retriever.py:90-92 | a non-blank text within the window budget is queried once, and its answer is ranked on its own |
| Retriever.AggregatedStep | src/modules/chatbot/lib/similarity_retriever.py:51-53 | folding one match into the two dictionaries keeps them equal to the sums, last contents and first-seen order of all matches so far |
| Retriever.AggregatedRanking | src/modules/chatbot/lib/similarity_retriever.py:56-60 | the dictionaries' items in insertion order are the specification's items, and every ranked identifier has a stored content |
| Retriever.AddMatches | src/modules/chatbot/lib/similarity_retriever.py:51-53 | the inner loop over one window's matches keeps the dictionaries aggregated |
| Retriever.RankDictionaries | src/modules/chatbot/lib/similarity_retriever.py:56-60 | sorting the dictionary's items, cutting and pairing with contents returns exactly the specified ranking |
| Retriever.AggregateWindows | src/modules/chatbot/lib/similarity_retriever.py:48-53 | the loop over windows fails iff some query fails, with the first failure's error, and then it has queried the windows up to that first failing one and no further; otherwise it queries every window in order and leaves the dictionaries aggregated over all answers |
| Retriever.GetContextAndIfi | src/modules/chatbot/lib/similarity_retriever.py:16-68 | the retriever returns exactly its specification; blank text calls neither the token counter nor the store; other text is counted at least once, the store is queried on a prefix of the windows, a successful call queried exactly the windows, in order, and a failed one queried them up to the first failing window and no further |
| Agent.Retrievals | src/modules/chatbot/service/server.py:88-93 | retrieval runs on the non-blank inputs only; the run fails only with the error of some non-blank input's retrieval, and succeeds only if every non-blank input's retrieval succeeds |
| Agent.RetrievalsSpec | src/modules/chatbot/service/server.py:88-93 | a successful run holds one result per non-blank input, in order, each that input's retrieval; a failed run fails with the error of the first non-blank input whose retrieval fails, every earlier one having succeeded |
| Agent.MergeIds | src/modules/chatbot/service/server.py:95-100 | the merged identifiers are the identifiers retrieved, each once, in order of first appearance |
| Agent.MergeKeepsFirst | src/modules/chatbot/service/server.py:95-100 | every merged pair is the first pair retrieved under its identifier; later duplicates are dropped |
| Agent.GuardSpec | src/modules/chatbot/service/server.py:49-56 | the missing-input error (raised, then returned as the error response) is the response iff there are no attachments and the query is empty |
| Agent.NotMissingInput | src/modules/chatbot/service/server.py:54-56 | no error raised by the retriever reads as the missing-input error |
| Agent.ReplySpec | src/modules/chatbot/service/server.py:78-115 | an accepted reply echoes the query and joins the descriptions with newlines; its resources are its documents' identifiers, none twice, exactly the identifiers retrieved, in order of first appearance; each document is the first retrieved under its identifier |
| Agent.NoDescriptions | src/modules/chatbot/service/server.py:78-80 | with no descriptions the file description is "" |
| Agent.NonBlankElements | src/modules/chatbot/service/server.py:88-90 | the inputs retrieval runs on are exactly the non-blank descriptions and query |
| Agent.NonBlankAppend | src/modules/chatbot/service/server.py:88-90 | the non-blank inputs of a concatenation are those of its parts, in order |
| Agent.AgentReply | src/modules/chatbot/service/server.py:37-123 | the service replies iff the guard passes and every retrieval succeeds; an error response past the guard carries the retrievals' error; a reply echoes the query |
| Agent.RetrieveOne | src/modules/chatbot/service/server.py:91-93 | each input is retrieved by the retriever with `top_n = 3`, as `ContextAndIfi` specifies |
| Agent.AgentService | src/modules/chatbot/service/server.py:37-123 | the service returns exactly its specification; a guarded-out request retrieves nothing; retrieval runs on a prefix of the non-blank inputs, descriptions then query: on all of them when the reply is accepted, and up to the first failing one and no further when a retrieval fails |
| Agent.RetrieveAll | src/modules/chatbot/service/server.py:86-105 | the loop over the descriptions and the query succeeds exactly when the retrievals do, fails with their error, and on success holds the first-seen merge of all retrieved pairs after retrieving exactly the non-blank inputs; on failure it has retrieved the non-blank inputs up to the first failing one and no further |
| Agent.MergeInto | src/modules/chatbot/service/server.py:95-100 | the set-guarded append loop extends the merged list by exactly the first-seen merge of the new pairs and keeps the set equal to the merged identifiers |
| Formatter.Entries | src/modules/chatbot/lib/display_formatter.py:7-15 | one entry per exchange, in order |
| Formatter.RenderHistories | src/modules/chatbot/lib/display_formatter.py:5-16 | the loop renders exactly the newline join of the entries; no exchanges render as "" |
| Formatter.EntryIsLines | src/modules/chatbot/lib/display_formatter.py:14 | an entry is its four lines (Q, FileDesc, Resources joined with ", ", Result) joined with newlines |
| Formatter.RenderSnoc | src/modules/chatbot/lib/display_formatter.py:16 | one more exchange appends one newline and its entry, with no trailing separator |
| Formatter.SplitNone | src/modules/chatbot/lib/display_formatter.py:16 | a text without a newline is one line |
| Formatter.SplitJoin | src/modules/chatbot/lib/display_formatter.py:16 | joining lines without newlines and splitting at newlines gives the lines back |
| Formatter.RenderIsLines | src/modules/chatbot/lib/display_formatter.py:14-16 | the rendered text is all entries' lines joined with newlines |
| Formatter.RenderedLines | src/modules/chatbot/lib/display_formatter.py:5-16 | when no field holds a newline, the text splits into exactly `4 * n` lines, the four lines of each entry in order |
| Formatter.AllLinesAt | src/modules/chatbot/lib/display_formatter.py:14-16 | line `4k + j` of the rendering is line `j` of entry `k` |
| Util.DistinctElements | src/modules/chatbot/lib/similarity_retriever.py:52 | the dictionary's keys are exactly the identifiers seen |
| Util.DistinctOrder | src/modules/chatbot/service/server.py:96-100 | the first-seen list has no repeats and keeps the order of first appearance |
| Util.JoinConcat | src/modules/chatbot/lib/display_formatter.py:16 | joining two non-empty runs of pieces puts one separator between them |
| Scenarios.OneWindow | tests/test_similarity_retriever.py:73-91 | one window's answer asked for four pairs gives its three, IFI_2 first with content2 |
| Scenarios.ThreeWindowTotals | tests/test_similarity_retriever.py:121-122 | over the three windows IFI_2 totals 0.95 + 0.92 + 0.88 = 2.75 and no other identifier more than 1.57 |
| Scenarios.ThreeWindows | tests/test_similarity_retriever.py:111-124 | over the three windows, with `top_n = 3`, three pairs come back and IFI_2 is first with content2 |
| Scenarios.TwoMatchesRank | src/modules/chatbot/lib/similarity_retriever.py:56-60 | an answer of (c1, D1, 0.9) and (c2, D2, 0.8) ranks to [(c1, D1), (c2, D2)] |
| Scenarios.SingleWindowAnswer | src/modules/chatbot/lib/similarity_retriever.py:31-64 | a non-blank text within budget, answered with those two matches, returns [(c1, D1), (c2, D2)] |

## Left out

- The token counter, the embedder and the similarity store are parameters. Their internals are remote services: the Gemini `count_tokens` call, `get_embedding_gemini`, the SQL query and pgvector's cosine similarity.
- Retriever.Score: similarity scores are mathematical reals, so floating-point rounding of the sums is not modelled. `ceil(overage * 4 * 0.8)` is modelled as the exact integer `(16 * overage + 4) / 5`.
- Windower.SplitIntoWindows: a failure of the token counter is not modelled; the counter is total.
- Windower.SplitIntoWindows: the ghost count of token-counter calls is stated exactly only for the fast path, and as at least one otherwise. The source only logs it.
- Windower.SplitIntoWindows: `ws` is a `nat`, so a negative window size is not modelled; the retriever always passes 256.
- Windower.SplitIntoWindows: `stride` must be positive. With `stride <= 0` the source's cursor does not move forward, and the retriever always passes 200.
- Retriever.ContextAndIfi: a negative `top_n` is not modelled (`nat`), since Python slicing with it would drop items from the end. The service always passes 3.
- Retriever.ContextAndIfi: a failure is any exception of the embedder or the store, with its message as the error text. The exception class and the logging are not modelled.
- Agent.AgentReply: parsing the request form as JSON and validating it with pydantic is not modelled; the request arrives as its fields.
- Agent.AgentReply: the answer of `ask_gemini` (the reply's `result` field) and the prompt it builds are not modelled. The reply carries the merged documents it would be asked about.
- Agent.AgentReply: failures of `attachments_parser` (server.py:75-77), of `ask_gemini` and of building `ChatbotResult` (server.py:116-118) are not modelled. The source turns each into the 500 response (server.py:121-123). `Ok` means only that the guard passed and every retrieval succeeded.
- Agent.AgentReply: `attachments_parser` and its file I/O are not modelled. Its output is the `descriptions` parameter, and whether attachments were sent is `hasAttachments`.
- Formatter.History: `result` is the text the answer object renders as. The answer object's own rendering is not modelled.
- Formatter.History: `resources` is a sequence, so the `None` resources that the source renders as empty cannot occur.
- Logging, the `async` keyword and the HTTP status code of the error response are not modelled. The error response is `ServerError(message)`.
- Scenarios: the repository's retriever tests patch a tokenizer and an embedder that the current code no longer calls. Only their store answers and expected rankings are modelled, not their window splitting.
