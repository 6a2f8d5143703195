/**
 * The candidates `bench` votes on: the `(patch, status)` pairs the agent
 * attempts returned, the filter that drops attempts without a patch, and the
 * `sorted(..., key=lambda x: "PASS" in x[1])` ordering.
 */
module Candidates {
  import opened Text

  /** One attempt's `(patch, test status)` pair. */
  datatype Candidate = Candidate(patch: string, status: string)

  /** `patch and patch.strip()`: the patch holds something other than whitespace. */
  predicate HasContent(c: Candidate) {
    c.patch != [] && Strip(c.patch) != []
  }

  /** The sort key `"PASS" in status`. */
  predicate Passes(c: Candidate) {
    Contains(c.status, "PASS")
  }

  predicate Fails(c: Candidate) {
    !Passes(c)
  }

  /** A candidate has content exactly when its patch holds a non-whitespace character. */
  lemma HasContentIff(c: Candidate)
    ensures HasContent(c) <==> exists i :: 0 <= i < |c.patch| && !IsWhitespace(c.patch[i])
  {
    StripEmptyIff(c.patch);
  }

  /** The list comprehension `[x for x in s if p(x)]`. */
  function Keep<T>(s: seq<T>, p: T -> bool): seq<T> {
    if s == [] then [] else Keep(s[..|s| - 1], p) + (if p(s[|s| - 1]) then [s[|s| - 1]] else [])
  }

  /** The comprehension keeps exactly the elements satisfying `p`. */
  lemma {:induction false} KeepMember<T>(s: seq<T>, p: T -> bool, x: T)
    ensures x in Keep(s, p) <==> x in s && p(x)
  {
    if s != [] {
      KeepMember(s[..|s| - 1], p, x);
      assert s == s[..|s| - 1] + [s[|s| - 1]];
    }
  }

  /** Filtering distributes over concatenation: kept elements stay in their original order. */
  lemma {:induction false} KeepAppend<T>(a: seq<T>, b: seq<T>, p: T -> bool)
    ensures Keep(a + b, p) == Keep(a, p) + Keep(b, p)
  {
    if b != [] {
      assert (a + b)[..|a + b| - 1] == a + b[..|b| - 1];
      KeepAppend(a, b[..|b| - 1], p);
    } else {
      assert a + b == a;
    }
  }

  /** Every element satisfying `p` is kept as often as it occurs, and nothing else is kept. */
  lemma {:induction false} KeepCount<T>(s: seq<T>, p: T -> bool, x: T)
    ensures multiset(Keep(s, p))[x] == if p(x) then multiset(s)[x] else 0
  {
    if s != [] {
      KeepCount(s[..|s| - 1], p, x);
      assert s == s[..|s| - 1] + [s[|s| - 1]];
    }
  }

  /** The candidates `bench` keeps (line 77): those with a patch that is not blank. */
  function ValidResults(results: seq<Candidate>): seq<Candidate> {
    Keep(results, HasContent)
  }

  /** The valid results are exactly the candidates with content, in their original order. */
  lemma ValidResultsSpec(results: seq<Candidate>, more: seq<Candidate>, c: Candidate)
    ensures c in ValidResults(results) <==> c in results && HasContent(c)
    ensures ValidResults(results + more) == ValidResults(results) + ValidResults(more)
    ensures ValidResults(results) == [] <==> forall d :: d in results ==> !HasContent(d)
  {
    KeepMember(results, HasContent, c);
    KeepAppend(results, more, HasContent);
    if ValidResults(results) != [] {
      KeepMember(results, HasContent, ValidResults(results)[0]);
    } else {
      forall d | d in results ensures !HasContent(d) {
        KeepMember(results, HasContent, d);
      }
    }
  }

  /**
   * One step of a stable sort on the key `Passes` (False before True): `x` goes
   * after every element whose key is not greater than its own.
   */
  function InsertByKey(sorted: seq<Candidate>, x: Candidate): seq<Candidate> {
    if sorted == [] then [x]
    else if Fails(sorted[|sorted| - 1]) || Passes(x) then sorted + [x]
    else InsertByKey(sorted[..|sorted| - 1], x) + [sorted[|sorted| - 1]]
  }

  /** `sorted(s, key=lambda x: "PASS" in x[1])`, as a stable insertion sort. */
  function SortByPass(s: seq<Candidate>): seq<Candidate> {
    if s == [] then [] else InsertByKey(SortByPass(s[..|s| - 1]), s[|s| - 1])
  }

  lemma {:induction false} InsertIntoPartition(f: seq<Candidate>, p: seq<Candidate>, x: Candidate)
    requires forall i :: 0 <= i < |f| ==> Fails(f[i])
    requires forall i :: 0 <= i < |p| ==> Passes(p[i])
    ensures InsertByKey(f + p, x) == if Passes(x) then f + p + [x] else f + [x] + p
  {
    if p == [] {
      assert f + p == f;
    } else {
      var q := p[..|p| - 1];
      assert (f + p)[..|f + p| - 1] == f + q;
      if !Passes(x) {
        InsertIntoPartition(f, q, x);
        assert f + [x] + q + [p[|p| - 1]] == f + [x] + p;
      }
    }
  }

  /**
   * The sort is a stable partition: the failing candidates in their original
   * order, then the passing ones in their original order.
   */
  lemma {:induction false} SortByPassPartition(s: seq<Candidate>)
    ensures SortByPass(s) == Keep(s, Fails) + Keep(s, Passes)
  {
    if s != [] {
      var init, x := s[..|s| - 1], s[|s| - 1];
      assert s == init + [x];
      SortByPassPartition(init);
      var f, p := Keep(init, Fails), Keep(init, Passes);
      assert SortByPass(s) == InsertByKey(f + p, x);
      AllKept(init, Fails);
      AllKept(init, Passes);
      InsertIntoPartition(f, p, x);
      KeepSnoc(init, x, Fails);
      KeepSnoc(init, x, Passes);
      if Passes(x) {
        assert Keep(s, Fails) == f && Keep(s, Passes) == p + [x];
      } else {
        assert Keep(s, Fails) == f + [x] && Keep(s, Passes) == p;
      }
    }
  }

  lemma KeepSnoc<T>(s: seq<T>, x: T, p: T -> bool)
    ensures Keep(s + [x], p) == Keep(s, p) + (if p(x) then [x] else [])
  {
    assert (s + [x])[..|s + [x]| - 1] == s;
  }

  lemma AllKept<T>(s: seq<T>, p: T -> bool)
    ensures forall i :: 0 <= i < |Keep(s, p)| ==> p(Keep(s, p)[i])
  {
    forall i | 0 <= i < |Keep(s, p)| ensures p(Keep(s, p)[i]) {
      KeepMember(s, p, Keep(s, p)[i]);
    }
  }

  /**
   * What `sorted` promises here: the result is a permutation of the input,
   * every passing candidate comes after every failing one, and candidates with
   * equal keys keep their relative order.
   */
  lemma SortByPassSpec(s: seq<Candidate>)
    ensures multiset(SortByPass(s)) == multiset(s) && |SortByPass(s)| == |s|
    ensures forall i, j :: 0 <= i < j < |SortByPass(s)| && Passes(SortByPass(s)[i]) ==> Passes(SortByPass(s)[j])
    ensures Keep(SortByPass(s), Fails) == Keep(s, Fails)
    ensures Keep(SortByPass(s), Passes) == Keep(s, Passes)
  {
    SortByPassPartition(s);
    var r, f, p := SortByPass(s), Keep(s, Fails), Keep(s, Passes);
    forall x ensures multiset(r)[x] == multiset(s)[x] {
      KeepCount(s, Fails, x);
      KeepCount(s, Passes, x);
    }
    assert multiset(r) == multiset(s);
    assert |r| == |multiset(r)| == |multiset(s)| == |s|;
    forall i, j | 0 <= i < j < |r| && Passes(r[i]) ensures Passes(r[j]) {
      if i < |f| {
        KeepMember(s, Fails, r[i]);
      } else {
        KeepMember(s, Passes, r[j]);
      }
    }
    AllKept(s, Fails);
    AllKept(s, Passes);
    KeepOnly(f, Fails);
    KeepNone(p, Fails);
    KeepOnly(p, Passes);
    KeepNone(f, Passes);
    KeepAppend(f, p, Fails);
    KeepAppend(f, p, Passes);
  }

  lemma {:induction false} KeepOnly<T>(s: seq<T>, p: T -> bool)
    requires forall i :: 0 <= i < |s| ==> p(s[i])
    ensures Keep(s, p) == s
  {
    if s != [] {
      KeepOnly(s[..|s| - 1], p);
    }
  }

  lemma {:induction false} KeepNone<T>(s: seq<T>, p: T -> bool)
    requires forall i :: 0 <= i < |s| ==> !p(s[i])
    ensures Keep(s, p) == []
  {
    if s != [] {
      KeepNone(s[..|s| - 1], p);
    }
  }

  /** `zip(*s)`'s first component: the patches, in order. */
  function Patches(s: seq<Candidate>): (r: seq<string>)
    ensures |r| == |s| && forall i :: 0 <= i < |s| ==> r[i] == s[i].patch
  {
    if s == [] then [] else Patches(s[..|s| - 1]) + [s[|s| - 1].patch]
  }

  /** `zip(*s)`'s second component: the test statuses, in order. */
  function Statuses(s: seq<Candidate>): (r: seq<string>)
    ensures |r| == |s| && forall i :: 0 <= i < |s| ==> r[i] == s[i].status
  {
    if s == [] then [] else Statuses(s[..|s| - 1]) + [s[|s| - 1].status]
  }
}
