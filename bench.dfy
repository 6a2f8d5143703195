/**
 * `bench`: gather the attempts' `(patch, status)` pairs, drop the blank
 * patches, order the rest with passing candidates last, ask the model to
 * compare them, and return the patch it names (or a random one).
 */
module Bench {
  import opened Wrappers
  import opened Text
  import opened Candidates
  import opened Prompts
  import opened ReplyParser
  import opened Retry
  import opened Agent

  /** The pairs of the attempts that returned, in completion order; crashed attempts are only logged. */
  function Successes(finished: seq<AgentOutcome>): (r: seq<Candidate>)
    ensures |r| <= |finished|
  {
    if finished == [] then []
    else
      var last := finished[|finished| - 1];
      Successes(finished[..|finished| - 1]) + (if last.Returned? then [last.candidate] else [])
  }

  lemma {:induction false} SuccessesMember(finished: seq<AgentOutcome>, c: Candidate)
    ensures c in Successes(finished) <==> Returned(c) in finished
  {
    if finished != [] {
      SuccessesMember(finished[..|finished| - 1], c);
      assert finished == finished[..|finished| - 1] + [finished[|finished| - 1]];
    }
  }

  /**
   * Lines 66-73: `results` grows by one pair for every attempt that
   * returned. `finished` lists the attempts in the order they completed.
   */
  method CollectResults(finished: seq<AgentOutcome>) returns (results: seq<Candidate>)
    ensures results == Successes(finished)
    ensures forall c :: c in results <==> Returned(c) in finished
  {
    results := [];
    for i := 0 to |finished|
      invariant results == Successes(finished[..i])
    {
      assert finished[..i + 1][..i] == finished[..i];
      if finished[i].Returned? {
        results := results + [finished[i].candidate];
      }
    }
    assert finished[..|finished|] == finished;
    forall c ensures c in results <==> Returned(c) in finished {
      SuccessesMember(finished, c);
    }
  }

  /** The candidates in the order they are shown to the model: valid ones, failing before passing. */
  function Ordered(finished: seq<AgentOutcome>): seq<Candidate> {
    SortByPass(ValidResults(Successes(finished)))
  }

  /** The number a non-empty reply names, if any. */
  function ReplyIndex(res: CallResult): Option<nat> {
    if res.Replied? && res.content != [] then ReplyNumber(res.content) else None
  }

  /** Patch `k` of the comparison prompt is the candidate at position `k - 1` of `Ordered`. */
  lemma OrderedIsValid(finished: seq<AgentOutcome>)
    ensures |Ordered(finished)| == |ValidResults(Successes(finished))|
    ensures forall c :: c in Ordered(finished) <==> c in ValidResults(Successes(finished))
  {
    var valid := ValidResults(Successes(finished));
    SortByPassSpec(valid);
    assert forall c :: c in Ordered(finished) <==> c in multiset(valid);
  }

  /** Every patch shown to the model is the non-blank patch of a valid candidate. */
  lemma OrderedPatchIsValid(results: seq<Candidate>, p: string)
    requires p in Patches(SortByPass(ValidResults(results)))
    ensures p != "" && exists c :: c in ValidResults(results) && c.patch == p
  {
    var valid := ValidResults(results);
    var ordered := SortByPass(valid);
    SortByPassSpec(valid);
    var patches := Patches(ordered);
    var k :| 0 <= k < |patches| && patches[k] == p;
    assert ordered[k] in multiset(valid);
    ValidResultsSpec(results, [], ordered[k]);
  }

  /**
   * Lines 99-116: what `bench` returns once the comparison call has ended
   * with `res` (the loop re-raises, so it never ends without a response).
   */
  function Decide(ordered: seq<Candidate>, res: CallResult, pick: nat): Result<string, Crash>
    requires ordered != [] && !res.GaveUp?
  {
    if res.Replied? then Success(Choose(Patches(ordered), res.content, pick)) else Failure(ModelError(res.kind))
  }

  /**
   * An error that escapes the retry loop propagates out of `bench`; a reply
   * that names patch `n` of the prompt selects candidate `n - 1` of
   * `ordered`, and any other reply (empty, without a number, or a number out
   * of range) selects the candidate at the random index.
   */
  lemma DecideSpec(ordered: seq<Candidate>, res: CallResult, pick: nat)
    requires ordered != [] && !res.GaveUp?
    ensures Decide(ordered, res, pick).Failure? <==> res.Raised?
    ensures res.Raised? ==> Decide(ordered, res, pick) == Failure(ModelError(res.kind))
    ensures
      var n := ReplyIndex(res);
      res.Replied? && n.Some? && 1 <= n.value <= |ordered| ==> Decide(ordered, res, pick) == Success(ordered[n.value - 1].patch)
    ensures
      var n := ReplyIndex(res);
      res.Replied? && !(n.Some? && 1 <= n.value <= |ordered|) ==> Decide(ordered, res, pick) == Success(ordered[pick % |ordered|].patch)
  {
    if res.Replied? {
      var n := ReplyIndex(res);
      if n.Some? && 1 <= n.value <= |ordered| {
        ChooseNumbered(Patches(ordered), res.content, pick, n.value);
      } else {
        ChooseFallback(Patches(ordered), res.content);
      }
    }
  }

  /** Whatever `bench` selects is the non-blank patch of a candidate that an attempt returned. */
  lemma DecidePicksValid(finished: seq<AgentOutcome>, res: CallResult, pick: nat)
    requires Ordered(finished) != [] && !res.GaveUp?
    ensures Decide(Ordered(finished), res, pick).Success? ==>
      var p := Decide(Ordered(finished), res, pick).value;
      p != "" && exists c :: c in ValidResults(Successes(finished)) && c.patch == p
  {
    if res.Replied? {
      OrderedPatchIsValid(Successes(finished), Choose(Patches(Ordered(finished)), res.content, pick));
    }
  }

  /**
   * Lines 84-116, once there is at least one valid candidate: send `prompt`,
   * which lists the candidates in `ordered`, to the model (with retries) and
   * pick the patch it names.
   */
  method Vote(ordered: seq<Candidate>, prompt: string, model: string -> nat -> CallOutcome, pick: nat)
    returns (r: Result<string, Crash>)
    requires ordered != []
    ensures r == Decide(ordered, RetryResult(model(prompt), ReraiseLast), pick)
  {
    var res, calls, sleeps := InvokeWithRetry(model(prompt), ReraiseLast);
    r := Decide(ordered, res, pick);
  }

  /**
   * `bench` for the attempts in `finished`. `model(prompt)(a)` is what the
   * comparison call does on attempt `a` with `prompt`; `pick` is the random
   * index behind `random.choice`. `prompt` is the comparison prompt sent ("" if none).
   */
  method Bench(finished: seq<AgentOutcome>, repoName: string, issueDesc: string, model: string -> nat -> CallOutcome, pick: nat)
    returns (r: Result<string, Crash>, prompt: string)
    ensures Successes(finished) == [] ==> r == Failure(NothingToUnpack)
    ensures Successes(finished) != [] && Ordered(finished) == [] ==> r == Success("")
    ensures Ordered(finished) != [] ==>
      && prompt == BuildComparisonPrompt(LastSegment(repoName), issueDesc, Patches(Ordered(finished)), Statuses(Ordered(finished)))
      && r == Decide(Ordered(finished), RetryResult(model(prompt), ReraiseLast), pick)
  {
    var results := CollectResults(finished);
    OrderedIsValid(finished);
    if results == [] {
      return Failure(NothingToUnpack), "";
    }
    var valid := ValidResults(results);
    if valid == [] {
      return Success(""), "";
    }
    var ordered := SortByPass(valid);
    assert ordered == Ordered(finished);
    prompt := BuildComparisonPrompt(LastSegment(repoName), issueDesc, Patches(ordered), Statuses(ordered));
    r := Vote(ordered, prompt, model, pick);
  }
}
