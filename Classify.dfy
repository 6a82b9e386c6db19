/**
 * classify.py's `parse_log_file`: sorts the repositories named by the
 * installation log into successes and failures grouped by their "Small
 * Error" type.  The two regular expressions are not modelled: their matches,
 * in log order, are the inputs.
 */
module Classify {
  import opened StringUtils
  import opened RepoIds

  /** One match of the failure pattern: the repository id and the raw error type. */
  datatype ErrorMatch = ErrorMatch(repo: string, errorType: string)

  /**
   * `error_groups`, a dictionary from error type to the list of its
   * repository URLs; `order` is the order in which its keys were inserted.
   */
  datatype Groups = Groups(order: seq<string>, lists: map<string, seq<string>>)

  const EmptyGroups: Groups := Groups([], map[])

  /** The dictionary invariant the loop keeps: keys in insertion order, each list non-empty and duplicate-free. */
  ghost predicate WellFormed(g: Groups) {
    (forall i, j :: 0 <= i < j < |g.order| ==> g.order[i] != g.order[j])
    && (forall t :: t in g.lists <==> t in g.order)
    && (forall t :: t in g.lists ==> |g.lists[t]| > 0)
    && (forall t, i, j :: t in g.lists && 0 <= i < j < |g.lists[t]| ==> g.lists[t][i] != g.lists[t][j])
  }

  /** The success URLs of the first matches, as the set `success_groups`. */
  function SuccessUrls(repos: seq<string>): set<string> {
    if repos == [] then {}
    else SuccessUrls(repos[..|repos| - 1]) + {ConvertBackRepoFormat(repos[|repos| - 1])}
  }

  /**
   * One error match: unless the URL is a success, `error_groups[error_type]`
   * is created empty if missing (the `defaultdict`), and the URL is appended
   * if that list does not hold it yet.
   */
  function AddError(g: Groups, successes: set<string>, url: string, t: string): (r: Groups)
    ensures url in successes ==> r == g
    ensures url !in successes ==> t in r.lists && url in r.lists[t]
    ensures t in g.lists && url in g.lists[t] ==> r == g
    ensures forall t' :: t' in g.lists && t' != t ==> t' in r.lists && r.lists[t'] == g.lists[t']
  {
    if url in successes then g
    else
      var g1 := if t in g.lists then g else Groups(g.order + [t], g.lists[t := []]);
      if url in g1.lists[t] then g1 else g1.(lists := g1.lists[t := g1.lists[t] + [url]])
  }

  /** `error_groups` after the given error matches. */
  function FoldErrors(successes: set<string>, errs: seq<ErrorMatch>): Groups {
    if errs == [] then EmptyGroups
    else
      var last := errs[|errs| - 1];
      AddError(FoldErrors(successes, errs[..|errs| - 1]), successes, ConvertBackRepoFormat(last.repo), Strip(last.errorType))
  }

  /** The total length of the lists, key by key in `order`. */
  function SumOver(order: seq<string>, lists: map<string, seq<string>>): nat {
    if order == [] then 0
    else SumOver(order[..|order| - 1], lists) + (if order[|order| - 1] in lists then |lists[order[|order| - 1]]| else 0)
  }

  /** `f"{error_type} ({len(repos)})"`. */
  function Label(t: string, n: nat): string {
    t + " (" + NatToString(n) + ")"
  }

  /** `f"Successes ({successes})"`. */
  function SuccessLabel(n: nat): string {
    "Successes (" + NatToString(n) + ")"
  }

  /** `error_groups_with_counts`, in the dictionary's order. */
  function WithCounts(g: Groups): (r: seq<(string, seq<string>)>)
    requires forall t :: t in g.order ==> t in g.lists
    ensures |r| == |g.order|
    ensures forall i :: 0 <= i < |r| ==> r[i] == (Label(g.order[i], |g.lists[g.order[i]]|), g.lists[g.order[i]])
  {
    seq(|g.order|, i requires 0 <= i < |g.order| => (Label(g.order[i], |g.lists[g.order[i]]|), g.lists[g.order[i]]))
  }

  /** A URL is a success iff some success match converts to it. */
  lemma {:induction false} SuccessUrlsMembership(repos: seq<string>, url: string)
    ensures url in SuccessUrls(repos) <==> exists i :: 0 <= i < |repos| && ConvertBackRepoFormat(repos[i]) == url
  {
    if repos != [] {
      var init := repos[..|repos| - 1];
      SuccessUrlsMembership(init, url);
      if exists i :: 0 <= i < |repos| && ConvertBackRepoFormat(repos[i]) == url {
        var i :| 0 <= i < |repos| && ConvertBackRepoFormat(repos[i]) == url;
        if i < |init| {
          assert ConvertBackRepoFormat(init[i]) == url;
        }
      }
      if exists i :: 0 <= i < |init| && ConvertBackRepoFormat(init[i]) == url {
        var i :| 0 <= i < |init| && ConvertBackRepoFormat(init[i]) == url;
        assert repos[i] == init[i];
      }
    }
  }

  /** The set has at most as many elements as there were matches. */
  lemma {:induction false} SuccessUrlsBound(repos: seq<string>)
    ensures |SuccessUrls(repos)| <= |repos|
  {
    if repos != [] {
      SuccessUrlsBound(repos[..|repos| - 1]);
    }
  }

  lemma {:induction false} SumOverIgnores(order: seq<string>, lists: map<string, seq<string>>, t: string, l: seq<string>)
    requires t !in order
    ensures SumOver(order, lists[t := l]) == SumOver(order, lists)
  {
    if order != [] {
      SumOverIgnores(order[..|order| - 1], lists, t, l);
    }
  }

  lemma {:induction false} SumOverAppend(order: seq<string>, lists: map<string, seq<string>>, t: string, x: string)
    requires t in order && t in lists
    requires forall i, j :: 0 <= i < j < |order| ==> order[i] != order[j]
    ensures SumOver(order, lists[t := lists[t] + [x]]) == SumOver(order, lists) + 1
  {
    var init := order[..|order| - 1];
    if order[|order| - 1] == t {
      assert t !in init by {
        forall i | 0 <= i < |init| ensures init[i] != t {
          assert order[i] != order[|order| - 1];
        }
      }
      SumOverIgnores(init, lists, t, lists[t] + [x]);
    } else {
      assert t in init by {
        var i :| 0 <= i < |order| && order[i] == t;
        assert init[i] == t;
      }
      SumOverAppend(init, lists, t, x);
    }
  }

  /** Appending a new URL to an existing list keeps the invariant. */
  lemma AppendKeepsWellFormed(g: Groups, t: string, url: string)
    requires WellFormed(g) && t in g.lists && url !in g.lists[t]
    ensures WellFormed(g.(lists := g.lists[t := g.lists[t] + [url]]))
  {
    var l := g.lists[t] + [url];
    forall i, j | 0 <= i < j < |l| ensures l[i] != l[j] {
      if j == |l| - 1 {
        assert l[i] == g.lists[t][i];
      }
    }
  }

  /** Inserting a new key with a one-element list keeps the invariant. */
  lemma InsertKeepsWellFormed(g: Groups, t: string, url: string)
    requires WellFormed(g) && t !in g.lists
    ensures WellFormed(Groups(g.order + [t], g.lists[t := [url]]))
  {
    var order := g.order + [t];
    forall i, j | 0 <= i < j < |order| ensures order[i] != order[j] {
      if j == |order| - 1 {
        assert order[i] == g.order[i];
        assert order[i] in g.lists;
      }
    }
  }

  /** What one error match does to the dictionary, case by case. */
  lemma AddErrorCases(g: Groups, successes: set<string>, url: string, t: string)
    ensures url in successes ==> AddError(g, successes, url, t) == g
    ensures url !in successes && t in g.lists && url in g.lists[t] ==> AddError(g, successes, url, t) == g
    ensures url !in successes && t in g.lists && url !in g.lists[t] ==>
      AddError(g, successes, url, t) == g.(lists := g.lists[t := g.lists[t] + [url]])
    ensures url !in successes && t !in g.lists ==>
      AddError(g, successes, url, t) == Groups(g.order + [t], g.lists[t := [url]])
  {
    if url !in successes && t !in g.lists {
      var g1 := Groups(g.order + [t], g.lists[t := []]);
      assert g1.lists[t] == [] && url !in g1.lists[t];
      assert g1.lists[t] + [url] == [url];
      assert g1.lists[t := [url]] == g.lists[t := [url]];
    }
  }

  /**
   * One error match keeps the dictionary invariant, and the total length of
   * the lists grows by one exactly when the match is appended (`fails += 1`).
   */
  lemma AddErrorStep(g: Groups, successes: set<string>, url: string, t: string)
    requires WellFormed(g)
    ensures WellFormed(AddError(g, successes, url, t))
    ensures var appended := url !in successes && (t !in g.lists || url !in g.lists[t]);
      SumOver(AddError(g, successes, url, t).order, AddError(g, successes, url, t).lists)
        == SumOver(g.order, g.lists) + (if appended then 1 else 0)
  {
    AddErrorCases(g, successes, url, t);
    if url !in successes {
      if t in g.lists {
        if url !in g.lists[t] {
          AppendKeepsWellFormed(g, t, url);
          SumOverAppend(g.order, g.lists, t, url);
        }
      } else {
        InsertKeepsWellFormed(g, t, url);
        var order := g.order + [t];
        assert order[..|order| - 1] == g.order;
        SumOverIgnores(g.order, g.lists, t, [url]);
      }
    }
  }

  /** Membership after one error match: the old lists plus, unless it is a success, the match itself. */
  lemma AddErrorMembership(g: Groups, successes: set<string>, url: string, t: string, u: string, k: string)
    ensures var g' := AddError(g, successes, url, t);
      (k in g'.lists && u in g'.lists[k]) <==>
      (k in g.lists && u in g.lists[k]) || (url !in successes && u == url && k == t)
  {
    AddErrorCases(g, successes, url, t);
  }

  /** `error_groups` after one more match. */
  lemma FoldStep(successes: set<string>, errs: seq<ErrorMatch>, i: nat)
    requires i < |errs|
    ensures FoldErrors(successes, errs[..i + 1]) ==
      AddError(FoldErrors(successes, errs[..i]), successes, ConvertBackRepoFormat(errs[i].repo), Strip(errs[i].errorType))
  {
    assert errs[..i + 1][..i] == errs[..i];
  }

  lemma {:induction false} FoldWellFormed(successes: set<string>, errs: seq<ErrorMatch>)
    ensures WellFormed(FoldErrors(successes, errs))
  {
    if errs != [] {
      var last := errs[|errs| - 1];
      FoldWellFormed(successes, errs[..|errs| - 1]);
      AddErrorStep(FoldErrors(successes, errs[..|errs| - 1]), successes, ConvertBackRepoFormat(last.repo), Strip(last.errorType));
    }
  }

  /** The error match `m` puts `url` under the type `t`. */
  predicate Names(m: ErrorMatch, url: string, t: string) {
    ConvertBackRepoFormat(m.repo) == url && Strip(m.errorType) == t
  }

  /** Some error match names `url` under `t`. */
  ghost predicate NamedIn(errs: seq<ErrorMatch>, url: string, t: string) {
    exists i :: 0 <= i < |errs| && Names(errs[i], url, t)
  }

  lemma NamedInSnoc(errs: seq<ErrorMatch>, url: string, t: string)
    requires errs != []
    ensures NamedIn(errs, url, t) <==> NamedIn(errs[..|errs| - 1], url, t) || Names(errs[|errs| - 1], url, t)
  {
    var init := errs[..|errs| - 1];
    var named := (m: ErrorMatch) => Names(m, url, t);
    SomeSnoc(errs, init, named);
  }

  /** Some element of `xs` satisfies `p` iff one before the last does or the last does. */
  lemma SomeSnoc<T>(xs: seq<T>, init: seq<T>, p: T -> bool)
    requires xs != [] && init == xs[..|xs| - 1]
    ensures (exists i :: 0 <= i < |xs| && p(xs[i])) <==>
      (exists i :: 0 <= i < |init| && p(init[i])) || p(xs[|xs| - 1])
  {
    if exists i :: 0 <= i < |xs| && p(xs[i]) {
      var i :| 0 <= i < |xs| && p(xs[i]);
      if i < |init| {
        assert init[i] == xs[i];
      }
    }
    if exists i :: 0 <= i < |init| && p(init[i]) {
      var i :| 0 <= i < |init| && p(init[i]);
      assert init[i] == xs[i];
    }
  }

  /**
   * A URL is listed under a type iff it is not a success and some error match
   * names it with that type, wherever in the log the success appears.
   */
  lemma {:induction false} GroupsMembership(successes: set<string>, errs: seq<ErrorMatch>, url: string, t: string)
    ensures var g := FoldErrors(successes, errs);
      (t in g.lists && url in g.lists[t]) <==> url !in successes && NamedIn(errs, url, t)
  {
    if errs != [] {
      var init := errs[..|errs| - 1];
      var last := errs[|errs| - 1];
      GroupsMembership(successes, init, url, t);
      AddErrorMembership(FoldErrors(successes, init), successes, ConvertBackRepoFormat(last.repo), Strip(last.errorType), url, t);
      NamedInSnoc(errs, url, t);
    }
  }

  /** Two labels are equal only for the same type and the same count. */
  lemma LabelInjective(t1: string, n1: nat, t2: string, n2: nat)
    requires Label(t1, n1) == Label(t2, n2)
    ensures t1 == t2 && n1 == n2
  {
    var d1, d2 := NatToString(n1), NatToString(n2);
    if |d1| <= |d2| {
      DigitSuffix(t1, d1, t2, d2);
    } else {
      DigitSuffix(t2, d2, t1, d1);
    }
    NatToStringInjective(n1, n2);
  }

  /** The digits between the last `(` and the closing `)` are determined by the label. */
  lemma DigitSuffix(t1: string, d1: string, t2: string, d2: string)
    requires |d1| <= |d2|
    requires forall i :: 0 <= i < |d2| ==> '0' <= d2[i] <= '9'
    requires t1 + " (" + d1 + ")" == t2 + " (" + d2 + ")"
    ensures t1 == t2 && d1 == d2
  {
    var s := t1 + " (" + d1 + ")";
    assert s[|t1| + 1] == '(';
    assert forall k :: |t2| + 2 <= k < |s| - 1 ==> s[k] == d2[k - |t2| - 2];
    assert |t1| == |t2|;
    assert t1 == s[..|t1|] && t2 == s[..|t2|];
    assert d1 == s[|t1| + 2..|s| - 1] && d2 == s[|t2| + 2..|s| - 1];
  }

  /** Distinct error types give distinct labels, so the dictionary comprehension loses no group. */
  lemma LabelsDistinct(g: Groups)
    requires WellFormed(g)
    ensures forall i, j :: 0 <= i < j < |WithCounts(g)| ==> WithCounts(g)[i].0 != WithCounts(g)[j].0
  {
    forall i, j | 0 <= i < j < |WithCounts(g)| ensures WithCounts(g)[i].0 != WithCounts(g)[j].0 {
      if WithCounts(g)[i].0 == WithCounts(g)[j].0 {
        LabelInjective(g.order[i], |g.lists[g.order[i]]|, g.order[j], |g.lists[g.order[j]]|);
      }
    }
  }

  /**
   * The de-duplication is per type: a repository already listed under one
   * type is still added under another, and the first list is untouched.
   */
  lemma DedupIsPerType(g: Groups, successes: set<string>, url: string, t: string, t2: string)
    requires url !in successes && t in g.lists && url in g.lists[t] && t2 != t
    ensures var g' := AddError(g, successes, url, t2);
      t2 in g'.lists && url in g'.lists[t2] && t in g'.lists && g'.lists[t] == g.lists[t]
  {
    AddErrorCases(g, successes, url, t2);
  }

  /** The first loop of `parse_log_file`: count every success match and collect the set of URLs. */
  method CollectSuccesses(successMatches: seq<string>) returns (successGroups: set<string>, successes: nat)
    ensures successes == |successMatches| && successGroups == SuccessUrls(successMatches)
    ensures |successGroups| <= successes
  {
    successes := 0;
    successGroups := {};
    for i := 0 to |successMatches|
      invariant successes == i && successGroups == SuccessUrls(successMatches[..i])
    {
      successes := successes + 1;
      var repoUrl := ConvertBackRepoFormat(successMatches[i]);
      successGroups := successGroups + {repoUrl};
      assert successMatches[..i + 1][..i] == successMatches[..i];
      assert successMatches[..i + 1][i] == successMatches[i];
    }
    assert successMatches[..|successMatches|] == successMatches;
    SuccessUrlsBound(successMatches);
  }

  /**
   * The second loop of `parse_log_file`: group the error matches, skipping
   * successes and URLs already listed under the same type, and count what
   * was appended.
   */
  method CollectErrors(successGroups: set<string>, errorMatches: seq<ErrorMatch>) returns (errorGroups: Groups, fails: nat)
    ensures errorGroups == FoldErrors(successGroups, errorMatches) && WellFormed(errorGroups)
    ensures fails == SumOver(errorGroups.order, errorGroups.lists) && fails <= |errorMatches|
  {
    fails := 0;
    errorGroups := EmptyGroups;
    for i := 0 to |errorMatches|
      invariant errorGroups == FoldErrors(successGroups, errorMatches[..i])
      invariant WellFormed(errorGroups)
      invariant fails == SumOver(errorGroups.order, errorGroups.lists) && fails <= i
    {
      ghost var g0 := errorGroups;
      var errorType := Strip(errorMatches[i].errorType);
      var repoUrl := ConvertBackRepoFormat(errorMatches[i].repo);
      AddErrorStep(g0, successGroups, repoUrl, errorType);
      if repoUrl !in successGroups {
        if errorType !in errorGroups.lists {
          errorGroups := Groups(errorGroups.order + [errorType], errorGroups.lists[errorType := []]);
        }
        if repoUrl !in errorGroups.lists[errorType] {
          fails := fails + 1;
          errorGroups := errorGroups.(lists := errorGroups.lists[errorType := errorGroups.lists[errorType] + [repoUrl]]);
        }
      }
      AddErrorCases(g0, successGroups, repoUrl, errorType);
      FoldStep(successGroups, errorMatches, i);
    }
    assert errorMatches[..|errorMatches|] == errorMatches;
  }

  /** `parse_log_file` over the matches of the two patterns, in log order. */
  method ParseLogFile(successMatches: seq<string>, errorMatches: seq<ErrorMatch>)
    returns (errorGroupsWithCounts: seq<(string, seq<string>)>, successesWithCounts: (string, set<string>),
             fails: nat, successes: nat)
    ensures successes == |successMatches| && |successesWithCounts.1| <= successes
    ensures successesWithCounts == (SuccessLabel(successes), SuccessUrls(successMatches))
    ensures var g := FoldErrors(SuccessUrls(successMatches), errorMatches);
      WellFormed(g) && errorGroupsWithCounts == WithCounts(g) && fails == SumOver(g.order, g.lists)
    ensures fails <= |errorMatches|
  {
    var successGroups;
    successGroups, successes := CollectSuccesses(successMatches);
    var errorGroups;
    errorGroups, fails := CollectErrors(successGroups, errorMatches);
    errorGroupsWithCounts := WithCounts(errorGroups);
    successesWithCounts := (SuccessLabel(successes), successGroups);
  }
}
