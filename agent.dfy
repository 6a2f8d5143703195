/**
 * The end of `run_agent_function`: after the agent graph has run, read the
 * patch from the tool service's `FILETOOL_GIT_PATCH` response and ask the
 * model whether the recorded test run passed.
 */
module Agent {
  import opened Wrappers
  import opened Text
  import opened Candidates
  import opened Prompts
  import opened Retry

  /** Ways an attempt or the benchmark ends with an exception instead of a value. */
  datatype Crash =
    | ModelError(kind: ErrorKind)  // the model call raised and the exception propagated
    | PatchUnbound                  // `patch` is read before it is assigned (the missing test-file branch)
    | ResponseUnbound               // `response` is read after every checker call failed
    | NothingToUnpack               // `zip(*results)` of no results cannot be unpacked into two names

  /**
   * The tool service's response dictionary: `successful` (missing reads as
   * False), `error`, and `data` (missing reads as `{}`), whose keys of
   * interest are `patch` and `error`. An absent string entry is modelled as "".
   */
  datatype ToolResponse = ToolResponse(successful: bool, error: string, data: map<string, string>)

  /**
   * Lines 181-202: the patch the response carries, or `None` when the call
   * failed, `data` is empty, or `data` has no non-empty `patch`.
   */
  function PatchOf(resp: ToolResponse): (r: Option<string>)
    ensures r.Some? <==> resp.successful && resp.data != map[] && "patch" in resp.data && resp.data["patch"] != ""
    ensures r.Some? ==> r.value == resp.data["patch"] && r.value != ""
  {
    if !resp.successful then None
    else if resp.data == map[] then None
    else if "patch" !in resp.data || resp.data["patch"] == "" then None
    else Some(resp.data["patch"])
  }

  /** The error messages only decide what is logged: they never change the outcome. */
  lemma PatchOfIgnoresErrors(resp: ToolResponse, message: string, dataMessage: string)
    ensures PatchOf(resp.(error := message)) == PatchOf(resp)
    ensures PatchOf(resp.(data := resp.data["error" := dataMessage])) == PatchOf(resp)
  {
    var d := resp.data["error" := dataMessage];
    assert "patch" != "error" by {
      assert "patch"[0] != "error"[0];
    }
    assert "patch" in d <==> "patch" in resp.data;
  }

  /** Line 232: "PASS" exactly when the checker's reply contains "PASS", otherwise "FAIL". */
  function Verdict(reply: string): (r: string)
    ensures r == "PASS" <==> Contains(reply, "PASS")
    ensures r == "PASS" || r == "FAIL"
  {
    if Contains(reply, "PASS") then "PASS" else "FAIL"
  }

  /**
   * The verdict is the key `bench` sorts on: a candidate built from the
   * checker's reply sorts among the passing ones exactly when that reply
   * contains "PASS".
   */
  lemma VerdictIsSortKey(patch: string, reply: string)
    ensures Passes(Candidate(patch, Verdict(reply))) <==> Contains(reply, "PASS")
  {
    FailIsNotPass();
  }

  /** What one attempt hands back to `bench`: a `(patch, status)` pair, or an exception. */
  datatype AgentOutcome = Returned(candidate: Candidate) | Crashed(reason: Crash)

  /**
   * Lines 158-232 of `run_agent_function`. `testFileExists` is whether the
   * agent wrote its test-response file, `testResponse` that file's text,
   * `resp` the git-patch response, and `checker(prompt)(a)` what checker call
   * `a` does with `prompt`. `checkerCalls` counts the checker calls made.
   */
  method RunAgentTail(testFileExists: bool, testResponse: string, resp: ToolResponse, checker: string -> nat -> CallOutcome)
    returns (r: AgentOutcome, checkerCalls: nat)
    ensures !testFileExists ==> r == Crashed(PatchUnbound) && checkerCalls == 0
    ensures testFileExists && PatchOf(resp).None? ==> r == Returned(Candidate("", "FAIL")) && checkerCalls == 0
    ensures testFileExists && PatchOf(resp).Some? ==>
      var script := checker(CheckerPrompt(testResponse));
      && checkerCalls == LastAttempt(script) + 1
      && r == match RetryResult(script, BreakOnLast)
              case Replied(content) => Returned(Candidate(PatchOf(resp).value, Verdict(content)))
              case Raised(kind) => Crashed(ModelError(kind))
              case GaveUp => Crashed(ResponseUnbound)
    ensures r.Returned? ==> r.candidate.status == "PASS" || r.candidate.status == "FAIL"
  {
    if !testFileExists {
      return Crashed(PatchUnbound), 0;
    }
    var patch := PatchOf(resp);
    if patch.None? {
      return Returned(Candidate("", "FAIL")), 0;
    }
    var res, calls, sleeps := InvokeWithRetry(checker(CheckerPrompt(testResponse)), BreakOnLast);
    checkerCalls := calls;
    match res
    case Replied(content) => r := Returned(Candidate(patch.value, Verdict(content)));
    case Raised(kind) => r := Crashed(ModelError(kind));
    case GaveUp => r := Crashed(ResponseUnbound);
  }
}
