# Ollama greeting and benchmark scripts: a Dafny model

This project models the decision-making core of two scripts that drive a local
Ollama server.

`hi-ai.py` greets models one by one over a streaming generation request:
- It folds the line stream into a reply.
- It shows a one-shot resource report when the first token arrives.
- It diagnoses timeouts from the server's running-model list (`/api/ps`).
- It recognises out-of-memory errors.
- It unloads every running model between attempts.
- It maps each session outcome to what `greeting_for_model` reports.

`ollama-benchmark.py` runs a fixed four-prompt suite against each model. It then
prepares the data behind its HTML report: per-test latency and length tables,
per-model averages and totals, short chart labels, colour cycling and the
summary rows.

Everything the scripts receive over HTTP is an input to the model:
- A streaming body is a `Connection`. It either failed to connect, timed out
  before the response headers, came back with an HTTP error status and body,
  or opened as a sequence of lines. An opened body ends by closing, by a read
  timeout or by a transport failure.
- Each line is blank, malformed, or a decoded `Chunk` (error, response
  fragment, `done`).
- A poll of the running list is an `Option<seq<Entry>>`, where `None` means the
  request failed. The resource report and the timeout diagnosis each read
  their own poll.
- An unload request's result is a `Reply`. A benchmark request's result is an
  `Exchange`.

Module layout:
- `wrappers.dfy`: `Option`.
- `text.dfy`: Python's `strip`, `lower`, substring test, `"".join` and
  `sep.join`.
- `registry.dfy`: running entries and the first match by name or model.
- `oom.dfy`: `_is_oom_error`.
- `resources.dfy`: `show_model_resource_usage`.
- `diagnosis.dfy`: `diagnose_timeout`.
- `eviction.dfy`: `unload_model` and `unload_all_models`.
- `streaming.dfy`: `llama_local`, `llama_local_greeting` and
  `greeting_for_model`.
- `benchmark.dfy`: `get_available_models`, `ollama_generate` and
  `run_benchmark_for_model`.
- `report.dfy`: the data preparation of `_build_html_report`.

Where the code loops and appends, the model is a method with a loop.
- `FindRunning`, `ShowModelResourceUsage`, `DiagnoseTimeout`, `ReadStream`
  and the two drivers are proved equal to a specification function, and the
  properties are proved about that function.
- `UnloadAllModels`, `RunBenchmarkForModel`, `FillTables`, `AppendModel`,
  `Summarize` and `BuildSummaryRows` state their result directly: per position,
  or as a relation between each request and its result.

## Model

| member | source | states |
|---|---|---|
| Text.Strip | hi-ai.py:213 | `str.strip()`: the result is a slice `s[i..j]` of the input with only white space before `i` and after `j`, and no white space at either of its ends; it is empty exactly when the input is all white space |
| Text.JoinStartsWithFirst | hi-ai.py:171 | a join of several parts opens with the first part followed by the separator; a single part is returned unchanged |
| Text.ConcatSkipsEmpty | hi-ai.py:204-209 | appending only the non-empty fragments gives the same concatenation as appending all of them |
| Registry.FirstMatch | hi-ai.py:98-99 | the first running entry whose `name` or `model` equals the model; `None` exactly when no entry matches |
| Registry.FindRunning | hi-ai.py:98-112 | the scan that returns at the first matching entry finds exactly `FirstMatch` |
| Registry.FirstMatchIgnoresLater | hi-ai.py:141-156 | once a match is found, the entries after it never change the result (the `break`/`return`) |
| Oom.IsOomError | hi-ai.py:79-82 | true iff the lowered message contains "memory", "oom", "failed to load" or "alloc"; the other four keywords are implied by these |
| Oom.KeywordsReduce | hi-ai.py:12-16 | "out of memory", "not enough memory", "insufficient memory" and "cuda out of memory" each contain "memory", so they never decide the result on their own |
| Oom.OomIgnoresCase | hi-ai.py:81 | a message and its lowered form are classified alike |
| Resources.ResourceUsage | hi-ai.py:94-118 | a failed poll shows nothing; no match shows "unavailable"; size 0 shows "loaded"; otherwise the sizes, plus a spill of `size - size_vram` bytes iff `size_vram < 0.95·size` |
| Resources.ShowModelResourceUsage | hi-ai.py:94-118 | the loop that returns at the first match produces exactly `ResourceUsage` |
| Resources.UsageDecidedByFirstMatch | hi-ai.py:98-112 | running entries after the first match do not affect the report |
| Resources.HalfInDeviceMemory | hi-ai.py:103-109 | a model with 4 GB of 8 GB in device memory gets a spill note of 4 GB |
| Diagnosis.Phase | hi-ai.py:127-131 | the phase finding is "slow generation" iff a token had arrived, "stalled while loading" otherwise |
| Diagnosis.Listing | hi-ai.py:161-166 | every running model in list order, with name defaulting to "unknown" and size to 0 |
| Diagnosis.Diagnose | hi-ai.py:121-171 | one to three findings, with the phase first |
| Diagnosis.DiagnoseFindings | hi-ai.py:121-171 | the phase is first and only there. A failed poll adds "unreachable" and nothing else. When the target runs with positive size, the second finding is its size split with those sizes, followed by partial placement iff `size_vram < size`, and nothing more. "Not resident" appears iff the poll succeeded, the target is absent and no token arrived; it is then second, followed by the listing iff the list is non-empty. In every other case the phase is the only finding |
| Diagnosis.DiagnoseTimeout | hi-ai.py:121-171 | appending the findings step by step, with the `target_found` flag, produces exactly `Diagnose` |
| Diagnosis.SpillImpliesPartialVram | hi-ai.py:146-155 | whenever the resource report would note a spill, the diagnosis of the same list flags partial placement |
| Diagnosis.NinetySixPercentFlaggedOnlyHere | hi-ai.py:152-155 | the two thresholds differ: a model at 96% in device memory is flagged by the diagnosis but gets no spill note |
| Diagnosis.TextStartsWithPhase | hi-ai.py:125-171 | the diagnosis text joined with "；" always opens with the phase sentence |
| Eviction.UnloadModel | hi-ai.py:34-50 | true iff a response arrived whose status is not in 400–599; transport failures give false, never an exception |
| Eviction.UnloadAllModels | hi-ai.py:53-76 | a failed poll or an empty list makes no request. Otherwise there is exactly one request per entry with a non-empty name, in list order, each carrying that name and its own result. A failure does not stop the sweep |
| Streaming.ConsumeFacts | hi-ai.py:196-211 | the state of the stream fold: at most one resource report, made exactly when reporting is on and some fragment is non-empty, at the first line carrying one; `got_any_token` iff a non-empty fragment was kept; only non-empty fragments are kept |
| Streaming.Finish | hi-ai.py:213 | the reply is never empty: the stripped concatenation, or "(無回覆)" when that is all whitespace |
| Streaming.ReadStream | hi-ai.py:196-211 | the `iter_lines` loop ends in exactly the state `Consume` describes, and each report it shows is `ResourceUsage` for the polled list |
| Streaming.LlamaLocal | hi-ai.py:178-213 | the driver's result is `LlamaLocalOutcome`. Exactly one resource report is shown when the body opened, `show_resource` is set and some text arrived; otherwise none. Each report is `ResourceUsage` |
| Streaming.LlamaLocalGreeting | hi-ai.py:216-268 | the greeting driver's result is `GreetingOutcome`. Exactly one resource report is shown when the body opened and some text arrived; otherwise none. A timeout carries the diagnosis computed from the token flag |
| Streaming.ClassifyHttpError | hi-ai.py:258-268 | an HTTP error becomes an Ollama error with the OOM prefix iff its body is non-empty and matches an OOM keyword; otherwise it is re-raised unchanged |
| Streaming.StoppedStaysStopped | hi-ai.py:210-211 | once `done`, an error chunk or an undecodable line has stopped the loop, later lines change nothing |
| Streaming.PassingLinesCollectText | hi-ai.py:235-250 | over lines that do not stop the loop, the kept fragments are exactly the non-empty responses in order |
| Streaming.ReadingStopsAtDone | hi-ai.py:249-250 | the first `done` chunk ends reading and keeps its own fragment |
| Streaming.StreamCompletes | hi-ai.py:249-252 | both drivers reply with the stripped text of every fragment up to the first `done`, whatever follows and however the body ends |
| Streaming.ReplyIgnoresEmptyFragments | hi-ai.py:203-209 | skipping empty fragments does not change the reply |
| Streaming.ErrorChunkAborts | hi-ai.py:239-240 | an error chunk before `done` ends both drivers with its message, whatever text came before and whatever follows |
| Streaming.TimeoutDiagnosed | hi-ai.py:254-256 | a read timeout before `done` yields the diagnosis, with the token flag true iff some non-empty fragment had arrived |
| Streaming.PlainTimeoutUndiagnosed | hi-ai.py:181-211 | `llama_local` catches nothing, so the same timeout escapes undiagnosed |
| Streaming.BrokenStreamFails | hi-ai.py:196-211 | a transport failure before `done` ends both drivers with a connection error, after any report already shown |
| Streaming.AsWrittenNeverSlow | hi-ai.py:128-131 | with the library's delivery, every diagnosis says the model stalled while loading; "slow generation" never appears |
| Streaming.SlowGenerationLost | hi-ai.py:254-256 | a token and then a read timeout: as written the request is reported as failed, while the corrected model gives the slow-generation diagnosis |
| Streaming.MemoryBodyIsOom | hi-ai.py:266-267 | an HTTP error body containing "memory" in any letter case is reported as out of memory with the prefix |
| Streaming.HelloScenario | hi-ai.py:196-213 | fragments "He" and "llo" followed by `done` give the reply "Hello" |
| Streaming.GreetingForModel | hi-ai.py:275-298 | the reply is returned. A diagnosed timeout, an Ollama error and a request failure each return `None` with their own report; an Ollama error counts as out of memory iff its message matches. An undecodable line escapes |
| Streaming.OomHttpErrorStaysOom | hi-ai.py:288-291 | an HTTP error classified as out of memory is classified as out of memory again by `greeting_for_model`, since the prefix itself contains "oom" |
| Benchmark.AvailableModels | ollama-benchmark.py:49-53 | the names of the listed models in server order; no "models" key gives an empty list; an entry without a name fails the call |
| Benchmark.TagNames | ollama-benchmark.py:53 | the list comprehension succeeds iff every entry has a name, and then yields them one for one |
| Benchmark.OllamaGenerate | ollama-benchmark.py:56-66 | a failed request raises; an answered one gives its response, its latency and `length == len(response)` |
| Benchmark.RunBenchmarkForModel | ollama-benchmark.py:73-101 | exactly one record per prompt, in prompt order, with test and prompt copied from it. A success carries the response, latency and length. A failure carries "", no latency, length 0 and the error text, and does not stop the run |
| Report.TestNamesDistinct | ollama-benchmark.py:122 | the test names are the prompts' names in order, and pairwise different |
| Report.LastWithTest | ollama-benchmark.py:132 | the position of the last record with a given test name, `None` iff no record has it |
| Report.TestMap | ollama-benchmark.py:132 | the dictionary comprehension keys exactly the test names present, each to the last record with that name |
| Report.DistinctTestsLookup | ollama-benchmark.py:132-136 | when no two records share a test name, each test's table value is its own record's latency and length |
| Report.BuildTables | ollama-benchmark.py:127-136 | one list per test name, each with one entry per model, in model order. Each entry is the latency and length of the model's last record for that test, defaulting to no latency and length 0 |
| Report.FillTables | ollama-benchmark.py:127-136 | the nested loops fill every test's lists for all models |
| Report.AppendModel | ollama-benchmark.py:133-136 | the inner loop appends the current model's value to every test's list and leaves the key sets unchanged |
| Report.Present | ollama-benchmark.py:142 | the present latencies: empty iff every latency is missing; a single entry gives its value or nothing |
| Report.PresentConcat | ollama-benchmark.py:142 | the filter distributes over concatenation, so it keeps order and multiplicity |
| Report.SumBounded | ollama-benchmark.py:144 | a sum of values bounded by `hi` is at most the count times `hi` |
| Report.AverageWithin | ollama-benchmark.py:143 | the average latency lies between 0 and any bound on the latencies averaged |
| Report.NoLatencyAveragesZero | ollama-benchmark.py:143 | a model with no recorded latency averages 0 |
| Report.Summarize | ollama-benchmark.py:139-144 | one average and one total per model. The average is over the present latencies only. The total is the sum of the model's lengths across the test names |
| Report.RunIsAligned | ollama-benchmark.py:79-101 | the records of a benchmark run carry the test names in order |
| Report.TotalOfAlignedRun | ollama-benchmark.py:144 | for a run with one record per test in test order, the total equals the sum of its records' lengths |
| Report.ShortName | ollama-benchmark.py:147 | the name up to its first ':', or the whole name when it has none |
| Report.ShortNameWithoutColon | ollama-benchmark.py:147 | a name without ':' is its own short name |
| Report.ShortNameOfTagged | ollama-benchmark.py:147 | `family:tag` is shortened to `family` |
| Report.ReplaceAll | ollama-benchmark.py:43 | `str.replace` leaves a string without the pattern unchanged |
| Report.ReplaceSingle | ollama-benchmark.py:43 | with exactly one occurrence, `str.replace` substitutes it and keeps the text on both sides |
| Report.BordersOpaque | ollama-benchmark.py:33-43 | every colour has alpha 0.8, and its border is the same colour with alpha 1 |
| Report.PaletteCycles | ollama-benchmark.py:150-151 | colours and borders have one entry per model; the border list is as long as the colour list; model `i`'s border is made from its own colour; the palette repeats every eight models |
| Report.SuccessCount | ollama-benchmark.py:178 | the successes never exceed the records; they equal them iff every record succeeded, and are 0 iff none did |
| Report.BuildSummaryRows | ollama-benchmark.py:175-185 | one row per model in model order, with its average, total, success count and the number of tests |
| Report.SuccessesWithinTests | ollama-benchmark.py:178-184 | a run with one record per test never reports more successes than tests |
| Report.SuccessesAreAnswers | ollama-benchmark.py:178 | the success count of a run is the number of requests that were answered |
| Report.PrepareReport | ollama-benchmark.py:121-185 | the tables are keyed by the test names, with one entry per model holding the latency and length of its last record for that test. Each model's average is over its present latencies and its total is the sum of its lengths column. Aligned runs total the lengths of their records, and runs without latencies average 0. Each model keeps its short name and cycled colours, and each summary row matches its model |

## Left out

- HTTP transport, `raise_for_status`, connect and read timeouts as wall-clock behaviour: requests are inputs (`Connection`, polls, `Reply`, `Exchange`).
- Streaming.LlamaLocal: a read timeout in the middle of the body escapes as `Timeout`. The `requests` library reports it as a connection error. Both escape `llama_local` uncaught. For `llama_local_greeting` the difference is recorded under "## Findings".
- A malformed line escapes as `ValueError`: `json.loads` raises it, and neither driver nor `greeting_for_model` catches it (`DecodeError` / `Uncaught`).
- An empty `error` value still aborts: any chunk with an "error" key stops the session.
- JSON null values in the running list are not modelled. A null `name` is listed as "None" by `m.get('name', 'unknown')`, and a null `size` raises an uncaught `TypeError` at hi-ai.py:64, 103 and 146. `Entry` represents only missing keys.
- `_format_bytes` and every percentage are float formatting. The diagnosis text takes them as function parameters, and findings carry raw byte counts.
- The 95% threshold is written in integers (`100·size_vram < 95·size`).
- Average latency: `round(…, 3)` is left out. Latencies are whole milliseconds, and the average is an exact `real`.
- Text.Lower: only ASCII letters are lowered. Python's `str.lower` also lowers other alphabets. No keyword involves them.
- `print` output, the `input()` loops (`interactive_chat`, `chat_with_model`), both `main` loops and `exit`.
- `unload_all_models` also prints the total size of the running list. That is output only.
- The prompt text and model name sent with each request are not modelled as request parameters. Only what comes back is.
- HTML/CSS/Chart.js rendering, `html.escape`, the per-model detail cards (`details_html`), JSON/HTML file writing, directories and timestamps.

## Findings

| source | as written | input that shows it | evidently intended | confidence | as-written member | corrected member |
|---|---|---|---|---|---|---|
| hi-ai.py:235-256 | `requests` turns a read timeout during `iter_lines` into a `ConnectionError`, so `except requests.Timeout` only sees timeouts before the response headers. `diagnose_timeout` is then always called with `got_any_token == False`, and the "slow generation" branch (hi-ai.py:130-131) is dead | a token "Hi", then no further data within the read timeout: the greeting is skipped as a failed request, with no diagnosis | a timeout after tokens have arrived is diagnosed as slow generation, as the `got_any_token` flag is kept for | medium; not executed; depends on how `requests` wraps read timeouts | Streaming.GreetingOutcomeAsWritten (Streaming.AsWrittenNeverSlow, Streaming.SlowGenerationLost) | Streaming.GreetingOutcome (Streaming.TimeoutDiagnosed) |
