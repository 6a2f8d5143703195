/**
 * The two prompts the benchmark driver sends: the comparison prompt that
 * lists the candidate patches (`build_comparison_prompt`) and the prompt that
 * asks whether a test run succeeded.
 */
module Prompts {
  import opened Text

  /** `"="*50`, the line that frames every patch block. */
  function Separator(): (r: string)
    ensures |r| == 50 && forall i :: 0 <= i < 50 ==> r[i] == '='
  {
    Repeat('=', 50)
  }

  /** What follows the separator in block `number`: its header, the test status and the patch. */
  function BlockBody(number: nat, status: string, patch: string): string {
    "\nPatch " + Decimal(number) + ":\nTESTS STATUS: " + status + "\n\n" + patch
  }

  /** The patch section: one block per patch, numbered from 1, then a closing separator, joined by newlines. */
  function PatchSection(patches: seq<string>, testsPassed: seq<string>): string
    requires |testsPassed| >= |patches|
  {
    var blocks := seq(|patches|, i requires 0 <= i < |patches| => Separator() + BlockBody(i + 1, testsPassed[i], patches[i]));
    Join("\n", blocks + [Separator()])
  }

  /** Block `k` (0-based): a separator, its body and the newline that joins it to what follows. */
  function Opened(patches: seq<string>, testsPassed: seq<string>, k: nat): string
    requires |testsPassed| >= |patches| && k < |patches|
  {
    Separator() + BlockBody(k + 1, testsPassed[k], patches[k]) + "\n"
  }

  /** Blocks `from`, `from + 1`, ... concatenated. */
  function OpenedFrom(patches: seq<string>, testsPassed: seq<string>, from: nat): string
    requires |testsPassed| >= |patches| && from <= |patches|
    decreases |patches| - from
  {
    if from == |patches| then "" else Opened(patches, testsPassed, from) + OpenedFrom(patches, testsPassed, from + 1)
  }

  lemma {:induction false} JoinOpened(patches: seq<string>, testsPassed: seq<string>, from: nat)
    requires |testsPassed| >= |patches| && from <= |patches|
    ensures
      var blocks := seq(|patches|, i requires 0 <= i < |patches| => Separator() + BlockBody(i + 1, testsPassed[i], patches[i]));
      Join("\n", blocks[from..] + [Separator()]) == OpenedFrom(patches, testsPassed, from) + Separator()
    decreases |patches| - from
  {
    var blocks := seq(|patches|, i requires 0 <= i < |patches| => Separator() + BlockBody(i + 1, testsPassed[i], patches[i]));
    if from == |patches| {
      assert blocks[from..] + [Separator()] == [Separator()];
    } else {
      var parts := blocks[from..] + [Separator()];
      assert parts[1..] == blocks[from + 1..] + [Separator()];
      JoinOpened(patches, testsPassed, from + 1);
    }
  }

  /**
   * The section is the numbered blocks in order, each opened by a separator,
   * followed by one closing separator: n patches give n + 1 separators.
   */
  lemma PatchSectionShape(patches: seq<string>, testsPassed: seq<string>)
    requires |testsPassed| >= |patches|
    ensures PatchSection(patches, testsPassed) == OpenedFrom(patches, testsPassed, 0) + Separator()
  {
    var blocks := seq(|patches|, i requires 0 <= i < |patches| => Separator() + BlockBody(i + 1, testsPassed[i], patches[i]));
    JoinOpened(patches, testsPassed, 0);
    assert blocks[0..] == blocks;
  }

  /** Blocks `from` up to, but not including, `upto`. */
  function OpenedRange(patches: seq<string>, testsPassed: seq<string>, from: nat, upto: nat): string
    requires |testsPassed| >= |patches| && from <= upto <= |patches|
    decreases upto - from
  {
    if from == upto then "" else Opened(patches, testsPassed, from) + OpenedRange(patches, testsPassed, from + 1, upto)
  }

  lemma {:induction false} OpenedSplit(patches: seq<string>, testsPassed: seq<string>, from: nat, k: nat)
    requires |testsPassed| >= |patches| && from <= k <= |patches|
    ensures OpenedFrom(patches, testsPassed, from) == OpenedRange(patches, testsPassed, from, k) + OpenedFrom(patches, testsPassed, k)
    decreases k - from
  {
    if from < k {
      OpenedSplit(patches, testsPassed, from + 1, k);
      var a := Opened(patches, testsPassed, from);
      var b := OpenedRange(patches, testsPassed, from + 1, k);
      var c := OpenedFrom(patches, testsPassed, k);
      assert OpenedFrom(patches, testsPassed, from) == a + (b + c);
      assert a + (b + c) == (a + b) + c;
    }
  }

  lemma Regroup(pre: string, mid: string, block: string, tail: string, sep: string, after: string)
    requires mid == block + tail && tail + sep == sep + after
    ensures pre + mid + sep == pre + (block + sep) + after
  {
    assert pre + mid + sep == pre + block + (tail + sep);
  }

  /** Whatever follows a block starts with a separator: the next block's, or the closing one. */
  lemma SeparatorFollows(patches: seq<string>, testsPassed: seq<string>, k: nat)
    requires |testsPassed| >= |patches| && k <= |patches|
    ensures exists after :: OpenedFrom(patches, testsPassed, k) + Separator() == Separator() + after
  {
    var sep := Separator();
    if k < |patches| {
      var x := BlockBody(k + 1, testsPassed[k], patches[k]) + "\n";
      var rest := OpenedFrom(patches, testsPassed, k + 1);
      assert Opened(patches, testsPassed, k) == sep + x;
      assert OpenedFrom(patches, testsPassed, k) == (sep + x) + rest;
      Shift(OpenedFrom(patches, testsPassed, k), sep, x, rest);
    } else {
      assert OpenedFrom(patches, testsPassed, k) + sep == sep + "";
    }
  }

  lemma Shift(whole: string, sep: string, x: string, rest: string)
    requires whole == (sep + x) + rest
    ensures whole + sep == sep + (x + rest + sep)
  {
  }

  /**
   * Block k (1-based) of the section, which reads "Patch k:" and carries
   * `testsPassed[k-1]` and `patches[k-1]`, stands between two separator lines.
   */
  lemma BlockInSection(patches: seq<string>, testsPassed: seq<string>, k: nat)
    requires |testsPassed| >= |patches| && 1 <= k <= |patches|
    ensures Contains(PatchSection(patches, testsPassed), Opened(patches, testsPassed, k - 1) + Separator())
  {
    PatchSectionShape(patches, testsPassed);
    OpenedSplit(patches, testsPassed, 0, k - 1);
    var pre := OpenedRange(patches, testsPassed, 0, k - 1);
    SeparatorFollows(patches, testsPassed, k);
    var after :| OpenedFrom(patches, testsPassed, k) + Separator() == Separator() + after;
    var block := Opened(patches, testsPassed, k - 1);
    Regroup(pre, OpenedFrom(patches, testsPassed, k - 1), block, OpenedFrom(patches, testsPassed, k), Separator(), after);
    ContainsWithin(pre, block + Separator(), after);
  }

  /** The fixed text of the comparison prompt, around the values filled into it. */
  datatype Template = Template(opening: string, beforeIssue: string, beforePatches: string, afterPatches: string, closing: string)

  /** The text of the template in `build_comparison_prompt`. */
  const ComparisonTemplate := Template(
    "\n"
    + "I facing the following issue in the repo ",
    ". You have an older version of the codebase, so "
    + "you your belief about the \n"
    + "codebase might be outdated.\n"
    + "\n"
    + "Issue Description:\n",
    "\n"
    + "\n"
    + "You are given multiple patches and you need to check "
    + "which one fixes the issue. \n"
    + "Only one of the patch will fix the issue.\n"
    + "\n",
    "\n"
    + "\n"
    + "First analyse all the patches thoroughly and then "
    + "choose the best patch that fixes the issue. You "
    + "need to \n"
    + "consider all the edge cases very carefully. The "
    + "chosen patch might be more verbose, but it should "
    + "pass all the \n"
    + "possible test cases regarding the issue.\n"
    + "\n"
    + "NOTE: ONLY JUDGE THE PATCHES BASED ON THE CHANGES "
    + "IN THE SOURCE CODE.\n"
    + "IGNORE THE CHANGES IN THE TESTS, DOCS OR OTHER FILES.\n"
    + "GIVE PREFERENCE TO THE PATCHES THAT PASS THE TESTS.\n"
    + "\n"
    + "I am reiterating the issue again:\n",
    "\n"
    + "\n"
    + "Provide your response in the following format:\n"
    + "{\n"
    + "    \"patch\": \"The number of the patch that best "
    + "fixes the issue (1, 2, 3, ...)\",\n"
    + "    \"reasoning\": \"Your explanation for why the chosen "
    + "patch fixes the issue\",\n"
    + "}\n")

  /** The template up to the patch section, with the repository name and the issue filled in. */
  function PromptHead(t: Template, repoName: string, issueDesc: string): string {
    t.opening + repoName + t.beforeIssue + issueDesc + t.beforePatches
  }

  /** The template after the patch section: the instructions, the issue again and the answer format. */
  function PromptTail(t: Template, issueDesc: string): string {
    t.afterPatches + issueDesc + t.closing
  }

  /**
   * `template.format(...)`: the template filled with the repository name,
   * the issue (twice) and the patch section. `str.format` does not re-read the
   * values it substitutes, so braces inside them stay as they are.
   */
  function Fill(t: Template, repoName: string, issueDesc: string, patches: seq<string>, testsPassed: seq<string>): string
    requires |testsPassed| >= |patches|
  {
    PromptHead(t, repoName, issueDesc) + PatchSection(patches, testsPassed) + PromptTail(t, issueDesc)
  }

  /** `build_comparison_prompt`. */
  function BuildComparisonPrompt(repoName: string, issueDesc: string, patches: seq<string>, testsPassed: seq<string>): string
    requires |testsPassed| >= |patches|
  {
    Fill(ComparisonTemplate, repoName, issueDesc, patches, testsPassed)
  }

  /**
   * The filled template holds the opening text with the
   * repository name and the issue, the patch section, and the closing text
   * that repeats the issue and asks for the answer format.
   */
  lemma PromptContents(t: Template, repoName: string, issueDesc: string, patches: seq<string>, testsPassed: seq<string>)
    requires |testsPassed| >= |patches|
    ensures var r := Fill(t, repoName, issueDesc, patches, testsPassed);
      && Contains(r, PromptHead(t, repoName, issueDesc))
      && Contains(r, PatchSection(patches, testsPassed))
      && Contains(r, PromptTail(t, issueDesc))
  {
    ContainsParts(PromptHead(t, repoName, issueDesc), PatchSection(patches, testsPassed), PromptTail(t, issueDesc));
  }

  /** The repository name and the issue text reach the model unchanged, the issue in both halves. */
  lemma PromptNames(t: Template, repoName: string, issueDesc: string)
    ensures Contains(PromptHead(t, repoName, issueDesc), repoName)
    ensures Contains(PromptHead(t, repoName, issueDesc), issueDesc)
    ensures Contains(PromptTail(t, issueDesc), issueDesc)
  {
    var after := t.beforeIssue + issueDesc + t.beforePatches;
    ContainsWithin(t.opening, repoName, after);
    assert PromptHead(t, repoName, issueDesc) == t.opening + repoName + after;
    ContainsWithin(t.opening + repoName + t.beforeIssue, issueDesc, t.beforePatches);
    ContainsWithin(t.afterPatches, issueDesc, t.closing);
  }

  /** Every numbered block, framed by its separators, reaches the model inside the comparison prompt. */
  lemma PromptShowsBlock(t: Template, repoName: string, issueDesc: string, patches: seq<string>, testsPassed: seq<string>, k: nat)
    requires |testsPassed| >= |patches| && 1 <= k <= |patches|
    ensures Contains(Fill(t, repoName, issueDesc, patches, testsPassed), Opened(patches, testsPassed, k - 1) + Separator())
  {
    PromptContents(t, repoName, issueDesc, patches, testsPassed);
    BlockInSection(patches, testsPassed, k);
    ContainsTrans(Fill(t, repoName, issueDesc, patches, testsPassed), PatchSection(patches, testsPassed), Opened(patches, testsPassed, k - 1) + Separator());
  }

  /** The prompt that asks the model whether the test run in `testResponse` succeeded. */
  function CheckerPrompt(testResponse: string): (r: string)
    ensures Contains(r, testResponse)
  {
    ContainsWithin(CheckerOpening, testResponse, CheckerClosing);
    CheckerOpening + testResponse + CheckerClosing
  }

  const CheckerOpening :=
    "\n"
    + "    You are given the following test response:\n"
    + "    "
  const CheckerClosing :=
    "\n"
    + "\n"
    + "    You need to check if the test response is successful.\n"
    + "    If the test response is successful, respond "
    + "with \"PASS\".\n"
    + "    If the test response is not successful, respond "
    + "with \"FAIL\".\n"
    + "    "
}
