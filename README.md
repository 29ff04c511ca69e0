# Learned question/answer store of the chat service

This project models the core of a small web chat service in Dafny. The service answers a
message in this order: from a store of question/answer pairs it has learned, then from an
external language model, then from a fixed keyword table. It writes every exchange back into
the store.

The model covers:

- **The store** (`knowledge_base.py`, class `KnowledgeBase`): `similarity_score`, the Jaccard
  similarity of the lower-cased word sets of two texts; `extract_keywords`; `add_conversation`,
  which merges a message into the first record scoring above 0.7 or appends a new record
  `qa_{n+1}`, and adds 2 to the message counter; `get_learned_response`, the best record scoring
  above 0.6; `export_knowledge`, a stable sort of the records by use count, most used first;
  and `get_stats`.
- **Reply selection** (`main.py`): the `DEMO_RESPONSES` table, `get_demo_response`, and the
  `/api/chat` handler's choice of reply source and its write-back to the store.
- **`escapeHtml`** of the browser script (`script.js`).

Files and modules:

- `wrappers.dfy` (`Wrappers`): `Option`.
- `pystr.dfy` (`PyStr`): the Python string built-ins the core relies on, over ASCII:
  `isspace`, `lower`, `strip`, `split()`, the substring test `in`, and `str(int)`.
- `scoring.dfy` (`Scoring`): `similarity_score` and `extract_keywords`.
- `knowledge.dfy` (`Knowledge`): the records, the store's pure specification functions, their
  lemmas, and the class `KnowledgeBase`. The class holds the `learned_qa` dict as a sequence of
  (id, record) entries in insertion order, plus the `total_messages` counter.
- `chat.dfy` (`Chat`): the demo table, `get_demo_response` and the chat handler.
- `scenarios.dfy` (`ChatScenarios`): the demo table on concrete messages, and the same message
  sent twice.
- `escape.dfy` (`Html`): `escapeHtml` and a reference decoder.

Similarity is an exact `real` (`|A ∩ B| / |A ∪ B|`), so the thresholds 0.7 and 0.6 are compared
without rounding. A clock reading is a parameter `now`. The language-model collaborator is a
`Client` value: not configured, answers with a text, or fails.

## Model

| member | source | states |
|---|---|---|
| Scoring.SimilarityScore | knowledge_base.py:99-110 | the score lies in [0, 1] |
| Scoring.SimilarityExtremes | knowledge_base.py:101-110 | the score is 0 exactly when the two word sets share nothing (including either being empty), and 1 exactly when the word sets are equal and non-empty |
| Scoring.TokensEmpty | knowledge_base.py:101-105 | a text has no words exactly when every character is whitespace, which is the case that scores 0 |
| Scoring.SimilaritySymmetric | knowledge_base.py:99-110 | the score does not depend on the order of the two texts |
| Scoring.SimilaritySelf | knowledge_base.py:99-110 | a text with at least one word scores 1 against itself and against any case-changed copy; a text with no words scores 0 |
| Scoring.TokensIgnoreCase | knowledge_base.py:101-102 | texts equal after lower-casing have the same word set |
| Scoring.ExtractKeywords | knowledge_base.py:91-97 | at most 5 keywords, each longer than 3 characters, not a stop word, lower-case, and a word of the lower-cased text |
| Scoring.KeywordFilter | knowledge_base.py:96 | the comprehension keeps only keywords drawn from the words and never lengthens the list |
| Scoring.KeywordFilterExact | knowledge_base.py:96 | the comprehension keeps the words' order and keeps every occurrence of every keyword and nothing else |
| Scoring.KeywordsInOrder | knowledge_base.py:94-97 | the result is the first keywords of the text, in text order; exactly five of them when the text has more than five, and with at most five keywords all are kept with their repetitions |
| PyStr.SplitWords | knowledge_base.py:95 | `split()` yields non-empty words without whitespace, and no words exactly when the text is all whitespace |
| PyStr.SplitConcat | knowledge_base.py:95 | the words run together are exactly the text's non-whitespace characters, in order |
| PyStr.SplitAppend | knowledge_base.py:95 | no word straddles a whitespace character: before a whitespace character, the words of a concatenation are the words of each part |
| PyStr.SplitAtSpace | knowledge_base.py:95 | splitting at any whitespace character gives the words before it followed by the words after it, so the words are the maximal whitespace-free slices, in order |
| PyStr.SplitSingleWord | knowledge_base.py:95 | a non-empty text without whitespace is one word |
| PyStr.Strip | main.py:46 | `strip()` returns a slice of the text with no whitespace at either end |
| PyStr.ParseNatToString | knowledge_base.py:62 | the decimal rendering of a record number reads back as the same number |
| Knowledge.QaIdInjective | knowledge_base.py:62 | distinct record numbers give distinct ids `qa_n` |
| Knowledge.IdsDistinct | knowledge_base.py:62-63 | in a well-formed store no two entries share an id, so appending never overwrites a key |
| Knowledge.KeysCount | knowledge_base.py:115 | in a well-formed store, the number of dict keys equals the number of entries |
| Knowledge.FirstSimilar | knowledge_base.py:52-58 | the first entry, in insertion order, scoring above 0.7, with every earlier entry at or below it; none when no entry scores above 0.7 |
| Knowledge.FirstSimilarAt | knowledge_base.py:53-58 | an entry scoring above 0.7 after entries at or below 0.7 is the one the scan stops at; a scan passing every entry finds none |
| Knowledge.FindSimilar | knowledge_base.py:52-58 | the loop over the records, stopping at the first score above 0.7, returns exactly `FirstSimilar` |
| Knowledge.Learn | knowledge_base.py:46-73 | the new entries are well formed when the old ones are, and the store grows by at most one entry |
| Knowledge.LearnMerges | knowledge_base.py:52-58 | merge case: the first record above 0.7 gains one use and a new `last_updated`, keeps its id, and every other entry is unchanged; nothing is inserted |
| Knowledge.LearnInserts | knowledge_base.py:60-70 | insert case: exactly one entry is appended, under `qa_{n+1}`, with the verbatim question and response, count 1 and the extracted keywords; existing entries are untouched |
| Knowledge.TotalUsesUpdate | knowledge_base.py:55 | replacing one record changes the total use count by the difference of the two counts |
| Knowledge.LearnAddsOneUse | knowledge_base.py:55-67 | every call adds exactly one use to the store, whether it merges or inserts |
| Knowledge.LearnTwiceMerges | knowledge_base.py:52-70 | recording a message with a word twice: the second call merges into the very record the first call merged into or inserted, so the number of records does not grow |
| Knowledge.LearnBlankTwiceInserts | knowledge_base.py:52-70 | an empty or whitespace-only message scores 0 against everything, so each of two calls inserts a new record |
| Knowledge.BestIndex | knowledge_base.py:80-89 | the index the scan settles on is within the records |
| Knowledge.BestIndexStep | knowledge_base.py:84-87 | one more record becomes the best exactly when it scores strictly above the score to beat; otherwise the best is unchanged |
| Knowledge.BestIndexIsBest | knowledge_base.py:80-89 | none exactly when every record scores at most 0.6; otherwise the record found scores above 0.6, no record scores higher, and every earlier record scores strictly lower, so the earliest wins a tie |
| Knowledge.KnowledgeBase.constructor | knowledge_base.py:33-38 | the store starts empty with a zero message counter, and is valid |
| Knowledge.KnowledgeBase.AddConversation | knowledge_base.py:46-76 | the entries become `Learn(old entries, message, response, now)`, the message counter grows by 2, and validity is kept: ids `qa_1..qa_n` in order, every count at least 1, and the counter twice the total use count |
| Knowledge.KnowledgeBase.GetLearnedResponse | knowledge_base.py:78-89 | the running-best loop returns the record `BestIndexIsBest` describes, none exactly when no record scores above 0.6, and changes nothing |
| Knowledge.InsertByUses | knowledge_base.py:129 | inserting a row adds exactly that row to the multiset of rows |
| Knowledge.InsertByUsesSorted | knowledge_base.py:129 | inserting into rows sorted by descending use count keeps them sorted |
| Knowledge.InsertByUsesStable | knowledge_base.py:129 | the inserted row comes after every row with the same use count, and the other rows keep their order |
| Knowledge.SortByUses | knowledge_base.py:129 | the result is sorted by descending use count and is a permutation of the input |
| Knowledge.SortByUsesStable | knowledge_base.py:129 | the sort is stable: for every use count, the rows with that count keep their input order |
| Knowledge.KnowledgeBase.ExportKnowledge | knowledge_base.py:120-129 | one row per record, sorted by descending use count, a permutation of the records' rows, with equal use counts in insertion order |
| Knowledge.KnowledgeBase.GetStats | knowledge_base.py:112-118 | in a valid store: the number of keys, the message counter (twice the total use count), and a conversation count of 0 |
| Chat.FirstKeyIn | main.py:49-51 | the position of the first key, in table order, that occurs in the text; none when no key occurs |
| Chat.TableReply | main.py:49-54 | the reply of the first key found, else the fallback, so always one of the two |
| Chat.GetDemoResponse | main.py:44-54 | on the lower-cased, stripped message: the reply of the first key of `DEMO_RESPONSES`, in declaration order, that is a substring; the default reply when there is none; always a value of the table |
| Chat.LearnedCountPositive | main.py:73 | in a well-formed store, a record that the lookup finds has count at least 1, so the `count > 0` test always passes |
| Chat.HandleChat | main.py:61-106 | an empty message gives the 400 error "Empty message" and leaves the store unchanged; otherwise a learned match answers with source `learned` without consulting the collaborator; else a collaborator answer is used with source `openai`, and no client or a failing one falls back to the demo reply with source `demo`; the exchange is always recorded by `Learn`, the counter grows by 2, and `learned` is the record count afterwards |
| ChatScenarios.DemoWhatIsAi | main.py:33-51 | "What is AI?" gets the 'what is ai' reply |
| ChatScenarios.DemoHelloThere | main.py:33-51 | a message reading "hello there" gets the 'hello' reply, since 'hello' comes before 'hi' |
| ChatScenarios.DemoHelloBeforeHi | main.py:33-51 | "Hi, hello" gets the 'hello' reply: table order decides, not position in the message |
| ChatScenarios.DemoSubstringMatch | main.py:33-51 | "Which one?" gets the 'hi' reply: keys are matched as substrings, not as words |
| ChatScenarios.DemoHello | main.py:33-51 | "Hello" gets the 'hello' reply |
| ChatScenarios.AskTwice | main.py:61-106 | a message with a word, sent twice to an empty store with no client: first the demo reply with source `demo` and one record, then the same reply with source `learned`, still one record, now used twice |
| Html.EscapeHtml | script.js:72-81 | the output is at least as long as the input and contains no `<`, `>`, `"` or `'` |
| Html.Entity | script.js:73-79 | each of the five special characters maps to an entity starting with `&`; every other character is kept as it is |
| Html.EscapeHtmlAppend | script.js:80 | a single left-to-right pass: escaping a concatenation escapes each part, so other characters are copied unchanged and in order |
| Html.EscapeHtmlLength | script.js:73-80 | the output has the input's length exactly when the input has none of the five special characters, and is then the input itself |
| Html.UnescapeEscapeHtml | script.js:73-80 | decoding the five entities gives back the input, so no produced entity is escaped again |
| Html.AmpersandOnce | script.js:74-80 | `&` becomes exactly `&amp;`, and escaping `<` twice gives `&amp;lt;` |

## Left out

- File I/O (`load_knowledge`, `save_knowledge`, `ensure_data_dir`, knowledge_base.py:17-44) is not modelled. The store starts empty, as it does when there is no data file. A store loaded from a file with arbitrary ids or counts, and the silent reset on a parse failure, are not modelled. The invariant that the counter is twice the total use count holds only for a store that starts empty.
- Knowledge.KnowledgeBase.AddConversation: both `datetime.now()` readings become one input `now` per call. The source reads the clock separately for `created` and `last_updated`, so they may differ by a tick.
- Chat.HandleChat: the message is a string, so request bodies of other shapes are not modelled. A body that is not a JSON object fails at main.py:64-65, before the `try` at main.py:70, so the web framework's own error answers, not the handler. A falsy message that is not a string (`null`, `0`, `false`, `[]`, `{}`) takes the 400 branch at main.py:67-68, like the empty string.
- Chat.HandleChat: the handler's 500 answer (main.py:108-113) is not modelled. Only a truthy message that is not a string, or an exception from the store such as an I/O failure in `save_knowledge`, reaches it, and the model's message is a string and its store cannot raise.
- The language-model client (main.py:18-24, 78-92) is an input: `NoClient`, `Answers(text)` or `Fails`. The request's model, token limit and temperature, and the logging of errors, are not modelled.
- Flask routing, `jsonify`, the `/`, `/api/health`, `/api/stats` and `/api/knowledge` routes, and `serve.py` are web glue and are not modelled. `GetStats` and `ExportKnowledge` model what the last two routes return.
- The `conversation_history` buffer and the store's `conversations` list are never filled. The conversation count is therefore 0.
- The DOM and `fetch` code of `script.js` is not modelled; only `escapeHtml` is.
- Concurrent requests and their lost updates are not modelled. The model is sequential.
- PyStr: `lower`, `isspace`, `split()` and `strip()` cover ASCII only. Unicode case mapping and Unicode whitespace are not modelled.
- Scoring.SimilarityScore: the score is an exact rational, not a float, so rounding near 0.6 and 0.7 is not modelled.
- The `keywords` field is computed and stored but never read by lookup or merge, as in the source.
- A message of whitespace only is not empty, so the handler serves it. It scores 0 against every record, so each such message inserts a new record.
- Knowledge.KnowledgeBase.GetStats: the conversation count is 0 because the model never fills the list. The source reports the length of whatever list was loaded from the file.
