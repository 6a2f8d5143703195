/**
 * Reading the comparison model's reply: `re.search(r'patch.*?(\d+)', content,
 * re.IGNORECASE)`, `int(match.group(1))`, and the choice of the winning patch
 * with `random.choice` as the fallback.
 */
module ReplyParser {
  import opened Wrappers
  import opened Text

  /** Case folding as `re.IGNORECASE` applies it to the letters of "patch". */
  function Lower(c: char): char {
    if 'A' <= c <= 'Z' then (c as int + 32) as char else c
  }

  /** The literal `patch` matches case-insensitively at index `i`. */
  predicate PatchAt(s: string, i: nat) {
    i + 5 <= |s| && Lower(s[i]) == 'p' && Lower(s[i + 1]) == 'a' && Lower(s[i + 2]) == 't'
    && Lower(s[i + 3]) == 'c' && Lower(s[i + 4]) == 'h'
  }

  /**
   * Index `j` is where the lazy `.*?` that starts at `from` hands over to `\d`:
   * the first digit at or after `from`, with no newline before it (`.` does
   * not match a newline).
   */
  predicate FirstDigitOnLine(s: string, from: nat, j: nat) {
    from <= j < |s| && IsDigit(s[j]) && forall k :: from <= k < j ==> s[k] != '\n' && !IsDigit(s[k])
  }

  /** The pattern matches with "patch" at `i` and its group starting at `j`. */
  predicate MatchAt(s: string, i: nat, j: nat) {
    PatchAt(s, i) && FirstDigitOnLine(s, i + 5, j)
  }

  /** The first digit at or after `j` on the same line, if any. */
  function ScanDigit(s: string, j: nat): (r: Option<nat>)
    decreases |s| - j
    ensures r.Some? ==> j <= r.value < |s| && IsDigit(s[r.value])
  {
    if j >= |s| || s[j] == '\n' then None
    else if IsDigit(s[j]) then Some(j)
    else ScanDigit(s, j + 1)
  }

  /** The scan finds the digit at which the lazy `.*?` stops, and finds none exactly when there is none. */
  lemma {:induction false} ScanDigitSpec(s: string, j: nat)
    decreases |s| - j
    ensures ScanDigit(s, j).Some? ==> FirstDigitOnLine(s, j, ScanDigit(s, j).value)
    ensures ScanDigit(s, j).None? ==> forall p: nat :: !FirstDigitOnLine(s, j, p)
  {
    if j < |s| && s[j] != '\n' && !IsDigit(s[j]) {
      ScanDigitSpec(s, j + 1);
      assert forall p: nat :: FirstDigitOnLine(s, j, p) ==> FirstDigitOnLine(s, j + 1, p);
    }
  }

  /** The end of the greedy `\d+` that starts at `j`. */
  function RunEnd(s: string, j: nat): (e: nat)
    requires j <= |s|
    decreases |s| - j
    ensures j <= e <= |s|
    ensures j < |s| && IsDigit(s[j]) ==> j < e
  {
    if j < |s| && IsDigit(s[j]) then RunEnd(s, j + 1) else j
  }

  /** `\d+` takes every digit from `j` on and stops at the first non-digit or at the end. */
  lemma {:induction false} RunEndSpec(s: string, j: nat)
    requires j <= |s|
    decreases |s| - j
    ensures forall k :: j <= k < RunEnd(s, j) ==> IsDigit(s[k])
    ensures RunEnd(s, j) == |s| || !IsDigit(s[RunEnd(s, j)])
  {
    if j < |s| && IsDigit(s[j]) {
      RunEndSpec(s, j + 1);
    }
  }

  /** Where a match starts and where its group starts. */
  datatype Found = Found(start: nat, group: nat)

  /** `re.search` tries start positions from left to right and keeps the first that matches. */
  function SearchFrom(s: string, i: nat): (r: Option<Found>)
    decreases |s| - i
    ensures r.Some? ==> i <= r.value.start && r.value.group < |s| && IsDigit(s[r.value.group])
  {
    if i + 5 > |s| then None
    else if PatchAt(s, i) && ScanDigit(s, i + 5).Some? then Some(Found(i, ScanDigit(s, i + 5).value))
    else SearchFrom(s, i + 1)
  }

  /** The search returns the leftmost match, and no match exactly when there is none. */
  lemma {:induction false} SearchFromSpec(s: string, i: nat)
    decreases |s| - i
    ensures var r := SearchFrom(s, i);
      r.Some? ==>
        && MatchAt(s, r.value.start, r.value.group)
        && (forall i': nat, j: nat :: i <= i' < r.value.start ==> !MatchAt(s, i', j))
    ensures SearchFrom(s, i).None? ==> forall i': nat, j: nat :: i <= i' ==> !MatchAt(s, i', j)
  {
    if i + 5 <= |s| {
      ScanDigitSpec(s, i + 5);
      if !(PatchAt(s, i) && ScanDigit(s, i + 5).Some?) {
        SearchFromSpec(s, i + 1);
      }
    }
  }

  /** `match.group(1)`, or `None` when the pattern does not match. */
  function Capture(s: string): (r: Option<string>)
    ensures r.Some? ==> r.value != [] && AllDigits(r.value)
  {
    match SearchFrom(s, 0)
    case None => None
    case Some(m) =>
      RunEndSpec(s, m.group);
      Some(s[m.group..RunEnd(s, m.group)])
  }

  /**
   * The captured group is the maximal digit run that begins at the first
   * digit following, on the same line, the leftmost case-insensitive "patch"
   * that has such a digit; there is no match exactly when no "patch" has one.
   */
  lemma CaptureSpec(s: string)
    ensures Capture(s).None? <==> forall i: nat, j: nat :: !MatchAt(s, i, j)
    ensures Capture(s).Some? ==>
      exists i: nat, j: nat ::
        && MatchAt(s, i, j)
        && (forall i': nat, j': nat :: i' < i ==> !MatchAt(s, i', j'))
        && Capture(s).value == s[j..RunEnd(s, j)]
  {
    SearchFromSpec(s, 0);
    match SearchFrom(s, 0)
    case None =>
    case Some(m) =>
      assert MatchAt(s, m.start, m.group);
  }

  /** `int(match.group(1))`, or `None` when there is no match. */
  function ReplyNumber(content: string): Option<nat> {
    match Capture(content)
    case None => None
    case Some(d) => Some(DigitsValue(d))
  }

  /**
   * The number read is the decimal value of the digit run at the leftmost
   * match; there is no number exactly when the pattern matches nowhere.
   */
  lemma ReplyNumberSpec(s: string)
    ensures ReplyNumber(s).None? <==> forall i: nat, j: nat :: !MatchAt(s, i, j)
    ensures ReplyNumber(s).Some? ==>
      exists i: nat, j: nat ::
        && MatchAt(s, i, j)
        && (forall i': nat, j': nat :: i' < i ==> !MatchAt(s, i', j'))
        && AllDigits(s[j..RunEnd(s, j)])
        && ReplyNumber(s).value == DigitsValue(s[j..RunEnd(s, j)])
  {
    CaptureSpec(s);
  }

  /**
   * A reply written in the format the comparison prompt asks for,
   * `{"patch": "k", ...}`, selects number `k`.
   */
  lemma ReplyInRequestedFormat(k: nat, rest: string)
    requires rest == [] || !IsDigit(rest[0])
    ensures ReplyNumber("{\n    \"patch\": \"" + Decimal(k) + rest) == Some(k)
  {
    var head := "{\n    \"patch\": \"";
    var d := Decimal(k);
    var s := head + d + rest;
    assert |head| == 16;
    assert s[..16] == head;
    assert s[16..16 + |d|] == d;
    assert MatchAt(s, 7, 16) by {
      assert s[7..12] == "patch";
      forall t | 12 <= t < 16 ensures s[t] != '\n' && !IsDigit(s[t]) {
        assert s[t] == head[t];
      }
    }
    forall i: nat, j: nat | i < 7 ensures !MatchAt(s, i, j) {
      assert s[i] == head[i];
    }
    SearchFromSpec(s, 0);
    var found := SearchFrom(s, 0).value;
    assert found.start == 7;
    assert IsDigit(s[16]);
    assert found.group == 16;
    assert forall t :: 16 <= t < 16 + |d| ==> IsDigit(s[t]);
    assert 16 + |d| == |s| || s[16 + |d|] == rest[0];
    RunEndSpec(s, 16);
    assert RunEnd(s, 16) == 16 + |d|;
    DigitsValueOfDecimal(k);
  }

  /**
   * The leftmost "patch" decides, whatever follows: a reply that opens with
   * "Patch k" reads as k even when the object it goes on to give names
   * another patch.
   */
  lemma FirstMentionWins(k: nat, rest: string)
    requires rest == [] || !IsDigit(rest[0])
    ensures ReplyNumber("Patch " + Decimal(k) + rest) == Some(k)
  {
    var head := "Patch ";
    var d := Decimal(k);
    var s := head + d + rest;
    assert s[..6] == head;
    assert s[6..6 + |d|] == d;
    assert MatchAt(s, 0, 6) by {
      assert s[5] == ' ';
    }
    SearchFromSpec(s, 0);
    var found := SearchFrom(s, 0).value;
    assert found.start == 0;
    assert found.group == 6;
    assert forall t :: 6 <= t < 6 + |d| ==> IsDigit(s[t]);
    assert 6 + |d| == |s| || s[6 + |d|] == rest[0];
    RunEndSpec(s, 6);
    assert RunEnd(s, 6) == 6 + |d|;
    DigitsValueOfDecimal(k);
  }

  /**
   * Lines 99-116 of `bench`: an empty reply, a reply without a match and a
   * number outside 1..len(patches) all fall back to `random.choice(patches)`,
   * here the candidate at `pick % len(patches)` for the random `pick`.
   */
  function Choose(patches: seq<string>, content: string, pick: nat): (r: string)
    requires |patches| > 0
    ensures r in patches
  {
    var fallback := patches[pick % |patches|];
    if content == [] then fallback
    else match ReplyNumber(content)
      case Some(n) => if 1 <= n <= |patches| then patches[n - 1] else fallback
      case None => fallback
  }

  /** A number in range picks that patch, whatever the random draw. */
  lemma ChooseNumbered(patches: seq<string>, content: string, pick: nat, n: nat)
    requires |patches| > 0 && content != [] && ReplyNumber(content) == Some(n) && 1 <= n <= |patches|
    ensures Choose(patches, content, pick) == patches[n - 1]
  {
  }

  /** Otherwise every candidate can come out of the random fallback, and nothing else can. */
  lemma ChooseFallback(patches: seq<string>, content: string)
    requires |patches| > 0
    requires content == [] || ReplyNumber(content).None? || !(1 <= ReplyNumber(content).value <= |patches|)
    ensures forall k :: 0 <= k < |patches| ==> Choose(patches, content, k) == patches[k]
    ensures forall pick: nat :: Choose(patches, content, pick) == patches[pick % |patches|]
  {
  }
}
