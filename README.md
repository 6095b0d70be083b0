# Expert Soft chatbot: retrieval and grounding core in Dafny

This project models the retrieval-augmented chatbot `ExpertSoftChatbotRAG`
(`chatbot_groq.py`). It answers a user question by grounding a generative
model in a small knowledge base of `{intent, examples, response}` records. The
model covers the following steps, in order:

- **Corpus flattening** (`Corpus`). The records become two aligned lists: the
  stripped example utterances and the intent label that owns each one.
- **Intent retrieval** (`Retrieval`, `ExpertSoftChatbotRAG.SearchTopIntents`).
  The nearest-neighbour answer of the vector index is a list of
  `(index, distance)` hits. It is filtered with a strict `distance < threshold`
  test, mapped through the label list and deduplicated.
- **Context assembly** (`ContextAssembly`). The records are walked in load
  order. Each record whose intent matched gives one `Intent: …\nResponse: …`
  block. The blocks are joined by a blank line.
- **Prompt shaping and the generation request** (`Generation`). A query asks
  for detail when its lower-cased text contains one of `explain`, `detail`,
  `describe`, `how` or `why`. Such a query gets a fixed directive at the end of
  its prompt. A missing or empty API key fails before any request is built.
- **Chat orchestration** (`Chatbot`). When nothing matched, chat returns the
  fixed fallback sentence and sends no request. Otherwise it assembles the
  context and, unless a record lacks a field that chat reads or the key is
  missing, sends exactly one grounded request.

Python's `str.strip`, `str.lower`, `in` and `str.join` are modelled in `PyStr`.
`PyStr` also defines `EndsWith`. The chatbot does not call it; it states where
the prompt's closing directive sits. The HTTP exchange is a function parameter
`post: Request -> Result<string, string>`. Each operation that can call it
returns an `Exchange`: the reply plus the sequence of requests it sent. This
makes "the generator is never invoked" a statement about that sequence.

Two behaviours of the code are easy to miss:

- No validation happens at load time. Flattening reads the intent with
  `item.get("intent", "")`, but `chat` reads `item["intent"]` for every record
  and `item["response"]` for every matched record. So a record without an
  intent breaks every chat that matched something, with a KeyError
  (`MissingIntentBreaksChat`). There is no separate data-format error at
  startup.
- `search_top_intents` returns `list(set)`, which has no defined order. The
  model returns the elements in an order chosen by `:|`. The only promises are
  no duplicates and the same elements as the matched set.

## Model

| member | source | states |
|---|---|---|
| `PyStr.StripSpec` | chatbot_groq.py:29 | `strip` removes only whitespace padding (Python's whitespace set) from both ends: the input is the result with whitespace before and after it |
| `PyStr.StripUnique` | chatbot_groq.py:29 | any trimmed core padded by whitespace on both sides strips to exactly that core, so the two properties above determine `strip` |
| `PyStr.Strip` | chatbot_groq.py:29 | the stripped utterance is never longer than the original and neither starts nor ends with whitespace |
| `PyStr.Contains` | chatbot_groq.py:57 | the executable substring test is true iff the needle occurs at some position of the text |
| `PyStr.Lower` | chatbot_groq.py:57 | lower-casing keeps the length, leaves no ASCII capital, turns each ASCII capital into its small letter and leaves every other character unchanged |
| `PyStr.JoinAt` | chatbot_groq.py:109 | `sep.join(parts)` holds every part, in order, at its offset, followed by the separator when another part comes after it |
| `PyStr.JoinLength` | chatbot_groq.py:109 | the joined string ends right after its last part, so nothing follows the last block |
| `PyStr.Join` | chatbot_groq.py:109 | with a non-empty separator, the joined string is empty iff there are no parts or a single empty one |
| `Corpus.PrepareExamplesIntents` | chatbot_groq.py:23-31 | the nested loop returns exactly the flattened utterance list and the flattened label list |
| `Corpus.FlatExamples` | chatbot_groq.py:23-31 | the utterance list has one entry per example string over all records |
| `Corpus.FlatIntents` | chatbot_groq.py:23-31 | the label list has one entry per example string over all records, so it is as long as the utterance list |
| `Corpus.FlattenAligned` | chatbot_groq.py:26-30 | example `e` of record `j` sits at the same position in both lists: stripped in one, with its record's label (`""` when the intent is missing) in the other |
| `Corpus.OwnerOf` | chatbot_groq.py:26-30 | every position of the flattened lists belongs to some example of some record |
| `Corpus.OwnerUnique` | chatbot_groq.py:26-30 | no position belongs to two different examples, so with `OwnerOf` every position has exactly one owner |
| `Corpus.FlattenConcat` | chatbot_groq.py:26-28 | records are visited in order: flattening a concatenation gives the concatenated flattenings |
| `Corpus.DeadRecord` | chatbot_groq.py:28 | a record with missing or empty `examples` adds no entry to either list |
| `Retrieval.Matched` | chatbot_groq.py:44-50 | an intent is matched iff some hit with `distance < threshold` maps to it, and there are never more matched intents than hits |
| `Retrieval.BoundaryHitIgnored` | chatbot_groq.py:46-48 | a hit at exactly the threshold distance, anywhere among the hits, never changes the matched set |
| `Retrieval.CloseHitMatched` | chatbot_groq.py:46-48 | a hit strictly within the threshold always puts its label in the matched set |
| `Retrieval.ThresholdMonotone` | chatbot_groq.py:41-48 | raising the threshold can only add intents |
| `Retrieval.NothingMatchedIff` | chatbot_groq.py:44-50 | the matched set is empty iff no hit is strictly within the threshold, which includes an empty search result (k = 0) |
| `Retrieval.ListOfSet` | chatbot_groq.py:50 | listing a set gives each element exactly once and nothing else |
| `Chatbot.ExpertSoftChatbotRAG.SearchTopIntents` | chatbot_groq.py:41-50 | the loop's list holds exactly the matched intents, without duplicates |
| `ContextAssembly.Block` | chatbot_groq.py:107 | the intent and the response can be read back from the block, after the `Intent: ` and `\nResponse: ` labels |
| `ContextAssembly.ContextParts` | chatbot_groq.py:104-107 | the walk yields at most one block per record, and any failure is a KeyError for `intent` or `response` |
| `ContextAssembly.ContextPartsOk` | chatbot_groq.py:104-107 | assembly succeeds iff every record has an intent and every matched record a response; a failure is `KeyError("response")` when every record has an intent, and `KeyError("intent")` when every matched record has a response |
| `ContextAssembly.ContextPartsConcat` | chatbot_groq.py:104-107 | walking `a + b` is walking `a` then `b`: blocks keep load order, records sharing an intent each keep their own block, and the first error wins |
| `ContextAssembly.MatchedRecordHasBlock` | chatbot_groq.py:105-107 | every matched record yields its `Intent/Response` block |
| `ContextAssembly.BlockFromMatchedRecord` | chatbot_groq.py:105-107 | every block comes from a matched record that has a response |
| `ContextAssembly.NoMatchNoContext` | chatbot_groq.py:104-109 | when every record has an intent, an empty matched set gives no blocks and the empty context |
| `ContextAssembly.Context` | chatbot_groq.py:104-109 | the context exists iff the walk succeeds, and it is empty iff no block was produced |
| `ContextAssembly.FailurePersists` | chatbot_groq.py:104-107 | once a prefix of the records fails, the whole walk fails with that error |
| `ContextAssembly.AssembleContext` | chatbot_groq.py:104-109 | the loop over the records, with its early exits on KeyError, returns exactly the specified context or error |
| `Generation.AnyOccurs` | chatbot_groq.py:57 | `any(word in text …)` is true iff some keyword occurs in the text |
| `Generation.NeedsDetail` | chatbot_groq.py:57 | the detail hint is true iff the lower-cased query contains one of the five keywords |
| `Generation.DetailExamples` | chatbot_groq.py:57 | "Can you explain how this works?" asks for detail; "hi" does not |
| `Generation.Prompt` | chatbot_groq.py:59-75 | the prompt is the fixed opening, the context verbatim, the `User Question:` label, the query verbatim and the `Your Response:` label, in that order; it has nothing else but the detail directive at the end, present iff the query asks for detail |
| `Generation.SystemInstructionNamesFallback` | chatbot_groq.py:87 | the system directive names the same sentence that chat returns as its fallback |
| `Generation.BuildRequest` | chatbot_groq.py:53-91 | building the request fails with MissingApiKey iff the key is absent or empty; otherwise the request carries the bearer key, the model, the system directive and the prompt |
| `Generation.AskGroq` | chatbot_groq.py:52-96 | without a key nothing is sent; with one, exactly one request is sent, and the reply is the stripped completion or the upstream error |
| `Chatbot.ExpertSoftChatbotRAG.constructor` | chatbot_groq.py:11-17 | the chatbot's utterance and label lists are the flattening of its records |
| `Chatbot.ExpertSoftChatbotRAG.Chat` | chatbot_groq.py:98-110 | on a chatbot built from its records, chat is `ChatTurn` on the intents matched through the flattened label list |
| `Chatbot.FallbackShortCircuit` | chatbot_groq.py:99-101 | when no hit is strictly within the threshold (including no hits at all), chat returns exactly the fallback sentence and sends no request |
| `Chatbot.ChatTurn` | chatbot_groq.py:98-110 | with nothing matched, chat replies with the fallback and sends nothing; otherwise it fails with the context's KeyError and sends nothing, or returns exactly the generator's exchange for the assembled context; so at most one request is sent, never without a key |
| `Chatbot.MatchedFromRecords` | chatbot_groq.py:46-48 | every matched intent is the label of a record that has examples |
| `Chatbot.GroundedRequest` | chatbot_groq.py:103-110 | with readable records and a key, a query that matched something sends exactly one request, whose prompt carries the non-empty context of the matched records |
| `Chatbot.MissingIntentBreaksChat` | chatbot_groq.py:104-106 | a record without an intent makes every chat that matched something fail before any request is sent |
| `Chatbot.GreetingScenario` | chatbot_groq.py:98-110 | the one-record "greeting" dataset: a hit at distance 0 matches `{"greeting"}`, and the request's prompt carries the context `Intent: greeting\nResponse: Welcome!` |

## Left out

- Sentence embedding (chatbot_groq.py:13, 35, 42) is an external model. The
  FAISS index, its construction and its k-NN search (chatbot_groq.py:33-39, 43)
  are external too. The search answer for a query enters the model as `hits`,
  so `top_k` is the length of `hits`. An empty corpus failing at index
  construction is not modelled.
- The index's contract is the precondition `HitsInRange`: every hit that
  passes the threshold names a row of the label list. Python's negative
  indexing of `intent_map` is therefore not modelled.
- Distances are `real`, not float32. The squared-Euclidean computation is not
  modelled.
- The HTTP POST, `raise_for_status` and the JSON reply parsing
  (chatbot_groq.py:93-96) are the `post` parameter. Any failure among them is
  one `Upstream` error.
- Reading `GROQ_API_KEY` from the environment and `.env`
  (chatbot_groq.py:6-8, 53) is modelled as the optional `apiKey` parameter.
- Loading the JSON dataset (chatbot_groq.py:19-21), the `print` logging and
  the interactive CLI loop (chatbot_groq.py:113-127) are I/O. Records are
  typed values: a JSON `null` or a non-string where a string is expected is
  not modelled.
- app.py (the Flask route and its empty-message check) and static/script.js
  (the browser page) are web glue outside the core.
- `PyStr.Lower` maps only ASCII letters. Python's full Unicode lower-casing is
  not modelled. This cannot change the detail hint: the only non-ASCII
  characters Python lowers to ASCII letters are U+0130 (to `i` plus a combining
  dot) and U+212A (to `k`). Neither can complete one of the five keywords.
- The prompt's instruction wording is a constant. The properties state where
  the opening, the context, the two labels, the query and the detail directive
  sit, not what the instructions ask of the generator.
