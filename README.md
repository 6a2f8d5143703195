# Patch-vote benchmark driver, modelled in Dafny

This project models the decision logic of the benchmark driver
`python/swe/langgraph_agent/benchmark_copy.py`. The driver runs several agent
attempts at fixing an issue. Each attempt returns a `(patch, test status)`
pair. The driver keeps the attempts whose patch is not blank and orders them
so that the passing ones come last. It then builds a comparison prompt, asks a
model (with retries and exponential back-off) which patch is best, and parses
the number out of the reply. If the reply does not name a patch in range, it
picks one at random.

What the model treats as inputs:

- The model calls (`bedrock_client.invoke`) are a function `model(prompt)(attempt)`.
  It gives the outcome of each attempt: an answer, a `ClientError`, or another exception.
- `random.choice(patches)` is `patches[pick % len(patches)]` for an input `pick`.
  Every candidate is reachable this way.
- `time.sleep` is recorded as the list of delays the loop would sleep.
- The tool service's git-patch response and the test-response file are inputs.
  So are the attempts' outcomes, listed in the order they completed.

Where the source raises an exception its own function does not catch, the
model returns a `Crash` value instead of assuming the case away:

- `zip(*results)` with no results (line 76): `NothingToUnpack`.
- Printing `patch` before it is assigned when the test file is missing (line 160): `PatchUnbound`.
- Reading `response` after every checker call failed (line 232): `ResponseUnbound`.
- A model error that propagates: `ModelError`.

`PatchUnbound`, `ResponseUnbound` and a `ModelError` from the checker loop
(lines 214-227) end one attempt inside `run_agent_function`. `future.result()`
(line 69) re-raises them inside `bench`, whose `except` (lines 72-73) catches
them and drops the attempt. Only `NothingToUnpack` and a `ModelError` from the
comparison loop (lines 84-97) escape `bench`.

An exception raised by a foreign call of an attempt is not one of these reasons; it appears only as a crashed attempt (see "## Left out").

Module by module:

- `Text`: Python string operations (`strip`, `in`, `str(n)`, `int(digits)`, `join`, `split("/")[-1]`).
- `Candidates`: the blank-patch filter and the stable sort on the key `"PASS" in status`.
- `Prompts`: `build_comparison_prompt` (its fixed text is the value `ComparisonTemplate`) and the checker prompt.
- `ReplyParser`: the regular-expression search and the choice of the winning patch.
- `Retry`: the two retry loops, as one method with a policy for the last failure.
- `Agent`: the end of `run_agent_function`.
- `Bench`: `bench` itself.

## Model

| member | source | states |
|---|---|---|
| `Text.StripEmptyIff` | python/swe/langgraph_agent/benchmark_copy.py:77 | `s.strip()` is empty exactly when every character of `s` is Python whitespace |
| `Text.LastSegment` | python/swe/langgraph_agent/benchmark_copy.py:89 | `split("/")[-1]` is the suffix of the name that holds no `/` and is preceded by a `/` or by nothing |
| `Text.LastSegmentOfPath` | python/swe/langgraph_agent/benchmark_copy.py:89 | for `owner/repo` the short name is `repo`, and a name without `/` is kept whole |
| `Text.DigitsValueOfDecimal` | python/swe/langgraph_agent/benchmark_copy.py:103 | `int(str(n)) == n`: the number a block is labelled with reads back as that number |
| `Candidates.HasContentIff` | python/swe/langgraph_agent/benchmark_copy.py:77 | `patch and patch.strip()` holds exactly when the patch has a non-whitespace character |
| `Candidates.ValidResultsSpec` | python/swe/langgraph_agent/benchmark_copy.py:77-78 | the filter keeps exactly the pairs with content, in their original order; it is empty exactly when no pair has content |
| `Candidates.SortByPassPartition` | python/swe/langgraph_agent/benchmark_copy.py:81 | the stable sort on `"PASS" in status` equals the failing pairs in input order followed by the passing pairs in input order |
| `Candidates.SortByPassSpec` | python/swe/langgraph_agent/benchmark_copy.py:81 | the sorted list is a permutation of its input; every passing pair comes after every failing one; pairs with equal keys keep their order |
| `Prompts.PatchSectionShape` | python/swe/langgraph_agent/benchmark_copy.py:32 | the patch section is the blocks in order, each opened by a 50-`=` separator, then one closing separator: n patches, n + 1 separators |
| `Prompts.BlockInSection` | python/swe/langgraph_agent/benchmark_copy.py:32 | block k reads `Patch k:`, carries `tests_passed[k-1]` and `patches[k-1]`, and stands between two separator lines |
| `Prompts.PromptContents` | python/swe/langgraph_agent/benchmark_copy.py:31-61 | the filled template holds the opening text with the repository name and the issue, the patch section, and the closing text with the issue again; this holds for any template text, so for `BuildComparisonPrompt`, which fills `ComparisonTemplate` |
| `Prompts.PromptNames` | python/swe/langgraph_agent/benchmark_copy.py:34-54 | the repository name and the issue text appear unchanged in the prompt, the issue both before and after the patches |
| `Prompts.PromptShowsBlock` | python/swe/langgraph_agent/benchmark_copy.py:31-61 | every numbered block, with its separators, is part of the prompt sent to the model |
| `Prompts.CheckerPrompt` | python/swe/langgraph_agent/benchmark_copy.py:205-212 | the checker prompt contains the test response text |
| `ReplyParser.ScanDigitSpec` | python/swe/langgraph_agent/benchmark_copy.py:101 | the lazy `.*?` hands over at the first digit on the same line, and there is none exactly when a newline or the end comes first |
| `ReplyParser.RunEndSpec` | python/swe/langgraph_agent/benchmark_copy.py:101 | the greedy `\d+` takes every digit up to the first non-digit or the end |
| `ReplyParser.SearchFromSpec` | python/swe/langgraph_agent/benchmark_copy.py:101 | the search finds the leftmost start where a case-insensitive `patch` has a digit later on its line, and that first digit; `None` when there is no such start |
| `ReplyParser.Capture` | python/swe/langgraph_agent/benchmark_copy.py:101-103 | a captured group is a non-empty run of decimal digits, so `int()` accepts it up to the interpreter's digit limit (see "## Left out") |
| `ReplyParser.CaptureSpec` | python/swe/langgraph_agent/benchmark_copy.py:101-103 | the captured group is the maximal digit run at the first same-line digit after the leftmost matching `patch`; no match exactly when no `patch` has a digit later on its line |
| `ReplyParser.ReplyNumberSpec` | python/swe/langgraph_agent/benchmark_copy.py:101-103 | `int(match.group(1))` is the decimal value of the digit run at the leftmost match; there is no number exactly when the pattern matches nowhere |
| `ReplyParser.ReplyInRequestedFormat` | python/swe/langgraph_agent/benchmark_copy.py:56-60 | a reply that begins with the object laid out as the prompt shows it, `{`, a newline, four spaces and `"patch": "k`, followed by a non-digit, is read as number k |
| `ReplyParser.FirstMentionWins` | python/swe/langgraph_agent/benchmark_copy.py:101-103 | the leftmost `patch` decides: a reply that opens with `Patch k` (k followed by a non-digit) is read as k, whatever number the rest of the reply names |
| `ReplyParser.Choose` | python/swe/langgraph_agent/benchmark_copy.py:99-116 | whatever the reply, the chosen patch is one of the candidates |
| `ReplyParser.ChooseNumbered` | python/swe/langgraph_agent/benchmark_copy.py:104-105 | a parsed number n with 1 <= n <= len(patches) selects `patches[n-1]`, whatever the random draw |
| `ReplyParser.ChooseFallback` | python/swe/langgraph_agent/benchmark_copy.py:106-116 | an empty reply, no match or an out-of-range number yields the random draw, and every candidate can be drawn |
| `Retry.ScheduleTotal` | python/swe/langgraph_agent/benchmark_copy.py:96-97 | after n failed attempts the back-off has slept `(2**n - 1) * base_delay` seconds in all |
| `Retry.LongestWait` | python/swe/langgraph_agent/benchmark_copy.py:21-22 | the longest wait is four sleeps of 1, 2, 4 and 8 seconds, 15 seconds in all |
| `Retry.RetryResult` | python/swe/langgraph_agent/benchmark_copy.py:93-95 | with the re-raise policy of `bench` the loop never ends without a response |
| `Retry.InvokeWithRetry` | python/swe/langgraph_agent/benchmark_copy.py:84-97 | at most 5 calls; every call but the last raised `ClientError`; the result is the first answer or non-`ClientError` exception, or the last-failure policy; the sleeps are `2**a` for each failed attempt a before the last |
| `Retry.PoliciesDiffer` | python/swe/langgraph_agent/benchmark_copy.py:214-227 | the `bench` loop (re-raise) and the `run_agent_function` loop (break) differ exactly when all 5 attempts raise `ClientError`; only then does the latter end without a response |
| `Retry.AnswerAfterFailures` | python/swe/langgraph_agent/benchmark_copy.py:84-92 | an answer on attempt a after a throttled attempts is the result, after `2**a - 1` seconds of sleep |
| `Agent.PatchOf` | python/swe/langgraph_agent/benchmark_copy.py:181-202 | a patch is taken exactly when the call succeeded, `data` is non-empty and has a non-empty `patch`; otherwise there is none |
| `Agent.PatchOfIgnoresErrors` | python/swe/langgraph_agent/benchmark_copy.py:181-202 | the `error` entries only change what is logged, never the outcome |
| `Agent.Verdict` | python/swe/langgraph_agent/benchmark_copy.py:232 | the status is `PASS` exactly when the checker's reply contains `PASS`, and `FAIL` otherwise |
| `Agent.VerdictIsSortKey` | python/swe/langgraph_agent/benchmark_copy.py:232 | a candidate built from the checker's reply sorts among the passing ones exactly when the reply contains `PASS` |
| `Agent.RunAgentTail` | python/swe/langgraph_agent/benchmark_copy.py:158-232 | a missing test file crashes; a failed, empty or patch-less response gives `("", "FAIL")` with no checker call; otherwise the patch with the checker's verdict, or a crash when the checker loop raised or gave up |
| `Bench.SuccessesMember` | python/swe/langgraph_agent/benchmark_copy.py:66-73 | a pair is collected exactly when some attempt returned it; crashed attempts are dropped |
| `Bench.CollectResults` | python/swe/langgraph_agent/benchmark_copy.py:66-73 | the loop appends the pair of every returned attempt, in completion order |
| `Bench.OrderedPatchIsValid` | python/swe/langgraph_agent/benchmark_copy.py:77-82 | every patch shown to the model is the non-blank patch of a valid pair |
| `Bench.DecideSpec` | python/swe/langgraph_agent/benchmark_copy.py:99-116 | the result is an error exactly when the retry loop raised, and then that error; a reply naming patch n with 1 <= n <= len(patches) returns candidate n of the order shown; any other reply returns the candidate at the random index |
| `Bench.DecidePicksValid` | python/swe/langgraph_agent/benchmark_copy.py:77-116 | a patch `bench` returns is the non-blank patch of a pair some attempt returned |
| `Bench.Vote` | python/swe/langgraph_agent/benchmark_copy.py:84-116 | the result is the decision on the outcome of the re-raising retry loop around the model call with the prompt |
| `Bench.Bench` | python/swe/langgraph_agent/benchmark_copy.py:63-116 | no returned attempt crashes the unpacking; no valid pair returns `""`; otherwise the prompt lists the valid pairs, failing before passing, and the result is the decision on the model's reply to that prompt |

## Left out

- The thread pool and `as_completed` (lines 64-65): attempts are an input list in completion order. Concurrency itself is not modelled.
- The model client, `graph.invoke`, `composio_toolset.execute_action`, `get_agent_graph` and `evaluate` are foreign calls. Their results are parameters.
- Lines 118-157 of `run_agent_function` (agent set-up, git tree, `cd`, running the graph with its errors swallowed): when these calls return, they affect the outcome only through the patch response and the test file, which are inputs. The repository short name used at lines 125, 136 and 172 only feeds these foreign calls and is not modelled there; its use in the prompt (line 89) is.
- `Agent.RunAgentTail`: a foreign call that raises inside `run_agent_function` is not a `Crash` reason of its own. This covers `get_agent_graph` (line 125), `execute_action` (lines 128, 134, 170 and 175), `open` (line 163) and `os.remove` (line 168). Such an exception ends the attempt outside any `try`. The model represents it only as a `Crashed` entry of the input `finished`, which `bench` drops (lines 72-73) like every other crash. `RunAgentTail` itself assumes these calls return.
- Reading and deleting the test-response file (lines 163-168) and the command-line entry point (lines 234-277).
- Logging (`print`) and the content of the messages logged.
- `Retry.InvokeWithRetry`: real time is not modelled; the delays it would sleep are returned instead.
- `ReplyParser.Choose`: `random.choice` is modelled as `pick % len(patches)` for an arbitrary `pick`, not as a distribution.
- `ReplyParser.Capture`: `\d` is restricted to the ASCII digits. Python also matches other Unicode decimal digits, and `int()` accepts them.
- `ReplyParser.Capture`: case-insensitive matching is ASCII case folding. No other character folds to a letter of `patch` in Python's rules.
- `ReplyParser.ReplyNumber`: CPython 3.11 and later refuse `int()` of more than 4300 digits. There the `except` branch (lines 109-112) falls back to `random.choice`. The model reads digit runs of any length, so that branch is unreachable in it.
- `Agent.PatchOf`: the response dictionary has typed fields. `successful` is a boolean, and `data` maps to strings, with a missing entry read as `False`, `{}` or `""`. Other truthy or falsy values are not modelled.
- Model replies whose `content` is not a string.
