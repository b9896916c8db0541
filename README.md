# World Graph: the cache-or-generate pipeline, modelled in Dafny

World Graph answers "A + B = ?" queries. A request names two operands. The
pair is put in canonical order, and the answer store is asked for a row under
that key. A hit is returned as stored. On a miss, up to five stored facts
touching each operand become few-shot context. The context goes into a fixed
prompt, and a completion oracle is asked for the answer: once (`Simple`) or
`n - 1` times with a majority vote (`Sample(n)`). The answer is stored and
returned.

The model covers `src/main.rs`:

- `base.dfy` (`Base`): `Option`, `Result`, the error kinds and `u8`.
- `text.dfy` (`Text`): Rust's ordering of `String`s, and `str::trim` with `char::is_whitespace`.
- `seqs.dfy` (`Seqs`): the subsequence relation, used to state that order is kept.
- `pairs.dfy` (`Pairs`): `Pair` and `Pair::canonical`.
- `answers.dfy` (`Answers`): `Triple` and the answer store. The store is class `Store`, whose `rows` field is the table in insertion order. Its methods `InsertTriple`, `GetTriple`, `FindTriples` and `GetTriples` model the four SQL operations.
- `context.dfy` (`Examples`): `get_examples`. It covers `take(5)`, `Vec::dedup`, the rendering and the joining.
    - `DedupInPlace` compacts an array in place, the way `Vec::dedup` does.
    - Its result is specified by the function `Dedup`.
- `prompt.dfy` (`Prompting`): the template text `PROMPT` and `prompt`.
- `consensus.dfy` (`Consensus`): `completion` with `process_result`, and the `Strategy::Sample` vote.
    - `Tally` is the `for g in gens` loop that fills `counts`.
    - `MostFrequent` is `max_by_key` over the map, visiting the keys in an order the model leaves open.
- `orchestrator.dfy` (`Orchestrator`): class `AppState` holding the store, the strategy and the prompt narrative, with the methods `Conjure` and `Wander`.

The network, the database engine and the clock are not part of the model.

- The completion oracle is a parameter `oracle: (string, nat) -> Reply`. It gives the reply to the call with a given prompt and call number. `Simple` makes call 0. `Sample(n)` makes one call for each element of `1..n`.
- Storage I/O failures are a parameter `Faults`. It says which storage calls of a request fail: the lookup, the two context queries, the insert.

Two details of the code that the model keeps as written:

- Context lines are rendered `% a + b = c`, as `format!` at src/main.rs:380 writes them.
- The sampled strategy makes `n - 1` calls (`1..n`, src/main.rs:427); the model keeps this as written.

## Model

| member | source | states |
|---|---|---|
| Text.Less | src/main.rs:72 | Rust's `<` on strings is lexicographic order: `x` is a proper prefix of `y`, or `x` has the smaller character at the first position where they differ |
| Text.LessAsymmetric | src/main.rs:72 | two strings are never each less than the other under Rust's string ordering |
| Text.LessTotal | src/main.rs:72 | any two different strings are ordered one way or the other, so `canonical` always picks a greater operand |
| Text.TrimStart | src/main.rs:385-387 | the leading-trim result is a suffix of the input; everything cut off is whitespace; the result does not start with whitespace |
| Text.TrimEnd | src/main.rs:385-387 | the trailing-trim result is a prefix of the input; everything cut off is whitespace; the result does not end with whitespace |
| Text.WhitespaceIsWhiteSpace | src/main.rs:386 | the ranges of `char::is_whitespace` that `trim` strips hold exactly the 25 Unicode White_Space characters |
| Text.Trim | src/main.rs:385-387 | `trim` keeps one contiguous piece of the input, drops only whitespace on either side, and leaves no whitespace at either end |
| Text.TrimIdempotent | src/main.rs:385-387 | trimming twice is trimming once |
| Pairs.Canonical | src/main.rs:70-80 | the result holds the same two operands as the input, the greater one first; a pair already in order, equal operands included, is returned unchanged |
| Pairs.CanonicalOrderIndependent | src/main.rs:70-80 | `canonical(x, y) == canonical(y, x)` for all strings |
| Pairs.CanonicalIdempotent | src/main.rs:70-80 | a canonical pair is its own canonical form |
| Pairs.CanonicalSame | src/main.rs:77-79 | equal operands come back unchanged |
| Pairs.CanonicalIsCaseSensitive | src/main.rs:72 | the ordering is by code point: "Woman"+"King" stays as it is while "king"+"woman" is swapped, so the two requests use different keys |
| Answers.FirstMatch | src/main.rs:162-173 | the position found holds a row with key `(a, b)`, and no earlier row has that key; none is found exactly when no row has that key |
| Answers.FirstMatchAppend | src/main.rs:137-178 | an insert does not change which row an existing key finds; a key that was absent finds the new row; other keys are unaffected |
| Answers.Matching | src/main.rs:189-204 | the result holds exactly the rows that mention `x` in column a, b or c; each keeps its multiplicity, and insertion order is kept |
| Answers.Store.InsertTriple | src/main.rs:137-160 | appends exactly the row `(a, b, c)` without checking for its key; an I/O failure reports an error and leaves the table unchanged |
| Answers.Store.GetTriple | src/main.rs:162-178 | returns the first row under `(a, b)`; `NotFound` when there is none; a storage failure is an error |
| Answers.Store.FindTriples | src/main.rs:189-204 | returns every row mentioning `x`, in insertion order, or the storage error |
| Answers.Store.GetTriples | src/main.rs:180-187 | returns the whole table unfiltered, or the storage error |
| Examples.Take | src/main.rs:365-373 | `take(n)` gives the first `min(n, len)` elements |
| Examples.Dedup | src/main.rs:376 | `Vec::dedup` never lengthens a sequence and keeps its last element |
| Examples.DedupLength | src/main.rs:376 | `dedup` removes exactly one element for each position equal to its left neighbour; with `DedupSubsequence` and `DedupNoAdjacent` this pins the result to one element of each run of equal neighbours |
| Examples.DedupNoAdjacent | src/main.rs:376 | after `dedup` no two neighbours are equal |
| Examples.DedupSubsequence | src/main.rs:376 | `dedup` keeps the order of what it keeps |
| Examples.DedupMembers | src/main.rs:376 | `dedup` loses no value: the same values are present before and after |
| Examples.DedupKeeps | src/main.rs:376 | a sequence with no equal neighbours is left unchanged |
| Examples.DedupIdempotent | src/main.rs:376 | deduplicating twice is deduplicating once |
| Examples.DedupInPlace | src/main.rs:375-376 | the in-place pass over the merged vector leaves exactly `Dedup` of its old contents in the prefix it is truncated to |
| Examples.Line | src/main.rs:380 | a context line has length `|a| + |b| + |c| + 8`, starts with `"% "` and the operand `a`, and ends with the answer `c` |
| Examples.Join | src/main.rs:382 | joining no pieces gives `""` and one piece gives that piece; otherwise the result starts with the first piece and ends with the last |
| Examples.Lines | src/main.rs:378-381 | the i-th rendered line is `"% " + a + " + " + b + " = " + c` of the i-th fact |
| Examples.JoinSnoc | src/main.rs:382 | joining one more piece adds the separator and that piece at the end |
| Examples.Render | src/main.rs:378-382 | no facts render as `""`; otherwise the text starts with the line of the first fact and ends with the line of the last |
| Examples.RenderShape | src/main.rs:378-382 | zero facts render as the empty string and one fact as its line; each further fact adds `"\n"` and its line |
| Examples.ContextOf | src/main.rs:364-376 | the merged, deduplicated context has at most 10 facts, each a stored row touching one of the operands |
| Examples.ContextFacts | src/main.rs:364-383 | the context has at most 10 facts. They are found in order in the first 5 matches of `a` followed by the first 5 of `b`, and no value of those prefixes is lost. Each fact is a stored row touching an operand, and no two neighbours are equal |
| Examples.GetExamples | src/main.rs:364-383 | returns the rendered context of the current table; a failure of either lookup is the result |
| Prompting.Prompt | src/main.rs:290-362 | the prompt starts with the narrative of `PROMPT` (its text up to the `{examples}` slot, held in `Narrative`) followed by the examples, and ends with the cue `"% " + a + " + " + b + " ="` |
| Prompting.LineExtendsCue | src/main.rs:343-380 | every context line is the cue for its operands followed by a space and the stored answer, the pattern the oracle is asked to continue |
| Consensus.ProcessResult | src/main.rs:385-387 | the processed answer has no whitespace at either end, is no longer than the response, and is unchanged if already trimmed |
| Consensus.Completion | src/main.rs:403-417 | a reply becomes its trimmed response; a failed call becomes an `OracleFailure` |
| Consensus.Range | src/main.rs:427 | `lo..hi` has `max(hi - lo, 0)` elements, counting up from `lo` |
| Consensus.Samples | src/main.rs:427 | `Sample(n)` makes exactly `max(n - 1, 0)` calls, one for each of `1..n` |
| Consensus.Successes | src/main.rs:427-431 | failed calls are dropped: a value is kept exactly when some call returned it, it occurs as many times as calls returned it, and the kept values are in call order |
| Consensus.Tally | src/main.rs:433-437 | the keys of `counts` are exactly the distinct answers, and each maps to its number of occurrences |
| Consensus.MostFrequent | src/main.rs:439-442 | nothing is returned only for an empty map; otherwise a key whose count is at least every other count |
| Consensus.Vote | src/main.rs:426-447 | with no successful sample the answer is `"undefined"`; otherwise it is a successful sample occurring at least as often as any other |
| Consensus.ConsensusTrimmed | src/main.rs:416-446 | the vote's answer is trimmed |
| Consensus.SampleThreeCallsTwice | src/main.rs:427 | a configured count of 3 makes exactly two calls |
| Consensus.AllFailedIsUndefined | src/main.rs:443-446 | when every call fails, the only possible answer is `"undefined"` |
| Orchestrator.AnswerTrimmed | src/main.rs:425-447 | the answer of either strategy is trimmed |
| Orchestrator.AppendKeeps | src/main.rs:450 | appending a row keeps canonical keys, trimmed answers and unique keys when the row respects them; the row is found by its key afterwards |
| Orchestrator.AppendUnique | src/main.rs:450 | appending a row with a key absent from a table of unique keys keeps the keys unique |
| Orchestrator.AppState.constructor | src/main.rs:248-254 | the state holds the given store and strategy and the narrative of `PROMPT` |
| Orchestrator.AppState.Conjure | src/main.rs:419-458 | fails exactly when a context lookup fails, the `Simple` call fails or the insert fails, and then leaves the table unchanged. Otherwise it appends exactly one row: the canonical pair with an answer the strategy may produce for the compiled prompt. It returns that row |
| Orchestrator.AppState.Wander | src/main.rs:389-401 | a hit returns the stored row, `"undefined"` included, and changes nothing. A miss or failed lookup behaves as `Conjure` on the canonical pair. After success the key is a hit. Canonical keys, trimmed answers and, without a failed lookup, unique keys are preserved |
| Orchestrator.AppState.WanderTwice | src/main.rs:389-401 | a second request for the same canonical key, such as B + A after A + B, returns the same row when neither lookup fails |

## Left out

- HTTP routing, static files, CORS, tracing and `AppError`'s conversion into a response (src/main.rs:130-135, 256-282) are transport. The `explore` handler is one line of it; its query is `GetTriples`.
- Argument and environment parsing, logging set-up and `main` are configuration I/O. The strategy is a plain value in `AppState`.
- The SQLite pool and `sqlx` are replaced by a sequence of rows in insertion order. The SQL has no `ORDER BY`, so "first row" and "insertion order" rely on the order of SQLite's table scan.
- Storage I/O failures are given as the `Faults` input rather than arising from a connection.
- Error messages are reduced to error kinds; `anyhow` context strings and `info!`/`error!` logging are not modelled.
- The Ollama client is left out, with the model name, the `f32` temperature, the stop sequences `"\n"` and `"("` and the pass-through template. The model receives the replies as the `oracle` input, already cut at a stop sequence.
- `join_all` concurrency is left out: the sampled calls are processed as one sequence of outcomes. Concurrent requests racing on one key are not modelled either. In the model a duplicate key arises only after a failed lookup.
- Prompting.Prompt: TinyTemplate's parsing, its errors and its formatting of substituted values are not modelled. The narrative, the examples and the operands are concatenated as they are.
- Consensus.MostFrequent: the winner among equally frequent answers depends on `HashMap` iteration order. Only maximality is stated, never which tied answer wins.
- Strings are sequences of Unicode code points. Rust compares UTF-8 bytes, and the two orders agree.
