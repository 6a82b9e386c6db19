/**
 * The oracle's verdict reduction, `check_execution_status`, in its two
 * diverging variants: the one in reduced.py (no error anywhere means
 * success) and the one in installer.py (which looks for a success marker and
 * otherwise reports failure).  Both walk a parsed JSON list of items, each
 * item's `test_history`, its `history` and each entry's optional
 * `exec_stats` mapping.
 */
module ExecStatus {
  import opened Wrappers

  /** An `exec_stats` mapping, as loaded from JSON. */
  type Stats = map<string, string>

  /** One entry of a history; `None` stands for a missing or `null` `exec_stats`. */
  datatype Entry = Entry(execStats: Option<Stats>)

  /** A `test_history` object; `None` stands for a missing `history` key. */
  datatype TestHistory = TestHistory(history: Option<seq<Entry>>)

  /** One item of the oracle's output list; `None` stands for a missing `test_history` key. */
  datatype Item = Item(testHistory: Option<TestHistory>)

  /** What `check_execution_status` returns: a success flag and an optional message. */
  datatype Verdict = Verdict(success: bool, message: Option<string>)

  /** The installer variant either returns a verdict or raises. */
  datatype CheckOutcome = Returned(verdict: Verdict) | RaisedAttributeError

  const ErrorKey: string := "error"
  const NoMessages: string := "No error or success messages found"

  /** `item.get('test_history', {}).get('history', [])`. */
  function Histories(item: Item): seq<Entry> {
    item.testHistory.GetOr(TestHistory(None)).history.GetOr([])
  }

  /** All entries, in item order and then history order: the order both loops visit them. */
  function Entries(items: seq<Item>): seq<Entry> {
    if items == [] then [] else Histories(items[0]) + Entries(items[1..])
  }

  predicate HasError(e: Entry) {
    e.execStats.Some? && ErrorKey in e.execStats.value
  }

  function ErrorOf(e: Entry): string
    requires HasError(e)
  {
    e.execStats.value[ErrorKey]
  }

  /** Entry `k` of `es` carries an error and no entry before it does. */
  predicate IsFirstErrorAt(es: seq<Entry>, k: int) {
    0 <= k < |es| && HasError(es[k]) && forall k' :: 0 <= k' < k ==> !HasError(es[k'])
  }

  /** The error value of the first entry carrying an `"error"` key, if any. */
  function FirstError(es: seq<Entry>): (r: Option<string>)
    ensures r.None? <==> forall k :: 0 <= k < |es| ==> !HasError(es[k])
  {
    if es == [] then None
    else if HasError(es[0]) then Some(ErrorOf(es[0]))
    else FirstError(es[1..])
  }

  /** The first `exec_stats` that is not `None`, if any. */
  function FirstStats(es: seq<Entry>): (r: Option<Stats>)
    ensures r.None? <==> forall k :: 0 <= k < |es| ==> es[k].execStats.None?
  {
    if es == [] then None
    else if es[0].execStats.Some? then es[0].execStats
    else FirstStats(es[1..])
  }

  /** reduced.py's reduction: failure with the first error found, success otherwise. */
  function ReducedVerdict(items: seq<Item>): Verdict {
    match FirstError(Entries(items))
    case None => Verdict(true, None)
    case Some(e) => Verdict(false, Some(e))
  }

  /**
   * installer.py's reduction.  The first `exec_stats` that is not `None`
   * decides: with an `"error"` key it is the failure; without one the code
   * evaluates `exec_stats.lower()` on a mapping, which raises.  With no
   * `exec_stats` at all `any_success` is still false and the result is the
   * "no messages" failure.
   */
  function InstallerOutcome(items: seq<Item>): CheckOutcome {
    match FirstStats(Entries(items))
    case None => Returned(Verdict(false, Some(NoMessages)))
    case Some(m) => if ErrorKey in m then Returned(Verdict(false, Some(m[ErrorKey]))) else RaisedAttributeError
  }

  lemma {:induction false} EntriesAppend(a: seq<Item>, b: seq<Item>)
    ensures Entries(a + b) == Entries(a) + Entries(b)
  {
    if a == [] {
      assert a + b == b;
    } else {
      assert (a + b)[0] == a[0];
      assert (a + b)[1..] == a[1..] + b;
      EntriesAppend(a[1..], b);
    }
  }

  lemma EntriesSnoc(items: seq<Item>, i: nat)
    requires i < |items|
    ensures Entries(items[..i + 1]) == Entries(items[..i]) + Histories(items[i])
  {
    var p, x := items[..i], items[i];
    assert Entries([x]) == Histories(x) by {
      assert [x][1..] == [];
    }
    assert items[..i + 1] == p + [x];
    EntriesAppend(p, [x]);
  }

  lemma EntriesSplit(items: seq<Item>, i: nat)
    requires i < |items|
    ensures Entries(items[..i + 1]) == Entries(items[..i]) + Histories(items[i])
    ensures Entries(items) == Entries(items[..i]) + Histories(items[i]) + Entries(items[i + 1..])
  {
    var a, q := items[..i + 1], items[i + 1..];
    EntriesSnoc(items, i);
    assert a + q == items;
    EntriesAppend(a, q);
    assert Entries(items) == Entries(a) + Entries(q);
  }

  lemma {:induction false} FirstErrorAppend(a: seq<Entry>, b: seq<Entry>)
    ensures FirstError(a + b) == if FirstError(a).Some? then FirstError(a) else FirstError(b)
  {
    if a == [] {
      assert a + b == b;
    } else {
      assert (a + b)[0] == a[0];
      assert (a + b)[1..] == a[1..] + b;
      FirstErrorAppend(a[1..], b);
    }
  }

  lemma {:induction false} FirstStatsAppend(a: seq<Entry>, b: seq<Entry>)
    ensures FirstStats(a + b) == if FirstStats(a).Some? then FirstStats(a) else FirstStats(b)
  {
    if a == [] {
      assert a + b == b;
    } else {
      assert (a + b)[0] == a[0];
      assert (a + b)[1..] == a[1..] + b;
      FirstStatsAppend(a[1..], b);
    }
  }

  /** The function `FirstError` picks exactly the first erroneous entry. */
  lemma {:induction false} FirstErrorIsFirst(es: seq<Entry>, k: nat)
    requires IsFirstErrorAt(es, k)
    ensures FirstError(es) == Some(ErrorOf(es[k]))
  {
    if k > 0 {
      assert !HasError(es[0]);
      assert IsFirstErrorAt(es[1..], k - 1);
      FirstErrorIsFirst(es[1..], k - 1);
    }
  }

  /** Conversely, an error found by `FirstError` sits at a first erroneous entry. */
  lemma {:induction false} FirstErrorLocated(es: seq<Entry>) returns (k: nat)
    requires FirstError(es).Some?
    ensures IsFirstErrorAt(es, k) && FirstError(es) == Some(ErrorOf(es[k]))
  {
    if HasError(es[0]) {
      k := 0;
    } else {
      var k' := FirstErrorLocated(es[1..]);
      k := k' + 1;
    }
  }

  /** An entry is among the flattened entries iff it is in some item's history. */
  lemma {:induction false} EntriesMembership(items: seq<Item>, e: Entry)
    ensures e in Entries(items) <==> exists i :: 0 <= i < |items| && e in Histories(items[i])
  {
    if items != [] {
      EntriesMembership(items[1..], e);
      if e in Entries(items[1..]) {
        var i :| 1 <= i + 1 < |items| + 1 && 0 <= i < |items[1..]| && e in Histories(items[1..][i]);
        assert e in Histories(items[i + 1]);
      }
      forall i | 1 <= i < |items| && e in Histories(items[i]) ensures e in Entries(items[1..]) {
        assert items[1..][i - 1] == items[i];
      }
    }
  }

  /**
   * reduced.py succeeds iff no entry of any item's history has an `"error"`
   * key; missing histories and `None` stats are skipped, so an empty list
   * succeeds.
   */
  lemma ReducedSuccessIff(items: seq<Item>)
    ensures ReducedVerdict(items).success <==>
      forall i, e :: 0 <= i < |items| && e in Histories(items[i]) ==> !HasError(e)
    ensures ReducedVerdict(items).success <==> ReducedVerdict(items).message.None?
  {
    var es := Entries(items);
    if ReducedVerdict(items).success {
      forall i, e | 0 <= i < |items| && e in Histories(items[i]) ensures !HasError(e) {
        EntriesMembership(items, e);
      }
    } else {
      var k := FirstErrorLocated(es);
      EntriesMembership(items, es[k]);
    }
  }

  /** Both variants report the same first error when the first stats carry one, and disagree on no stats. */
  lemma {:induction false} FirstStatsDecides(es: seq<Entry>)
    ensures FirstStats(es).None? ==> FirstError(es).None?
    ensures FirstStats(es).Some? && ErrorKey in FirstStats(es).value ==>
      FirstError(es) == Some(FirstStats(es).value[ErrorKey])
  {
    if es != [] && es[0].execStats.None? {
      FirstStatsDecides(es[1..]);
    }
  }

  /**
   * The two variants side by side.  When no entry has stats (in particular
   * for an empty list) reduced.py succeeds and installer.py fails; when the
   * first stats carry an error both fail with it; when the first stats carry
   * none installer.py raises while reduced.py goes on looking.
   */
  lemma VariantsCompared(items: seq<Item>)
    ensures FirstStats(Entries(items)).None? ==>
      ReducedVerdict(items) == Verdict(true, None) &&
      InstallerOutcome(items) == Returned(Verdict(false, Some(NoMessages)))
    ensures FirstStats(Entries(items)).Some? && ErrorKey in FirstStats(Entries(items)).value ==>
      var e := FirstStats(Entries(items)).value[ErrorKey];
      ReducedVerdict(items) == Verdict(false, Some(e)) && InstallerOutcome(items) == Returned(Verdict(false, Some(e)))
    ensures FirstStats(Entries(items)).Some? && ErrorKey !in FirstStats(Entries(items)).value ==>
      InstallerOutcome(items) == RaisedAttributeError
  {
    FirstStatsDecides(Entries(items));
  }

  /** installer.py's reduction never reports success: `any_success` is unreachable. */
  lemma InstallerNeverSucceeds(items: seq<Item>)
    ensures InstallerOutcome(items).Returned? ==> !InstallerOutcome(items).verdict.success
    ensures InstallerOutcome(items).Returned? ==> InstallerOutcome(items).verdict.message.Some?
  {
  }

  /** An error met at entry `j` of item `i`, after none before it, is the first error overall. */
  lemma ErrorFoundAt(items: seq<Item>, i: nat, j: nat)
    requires i < |items| && j < |Histories(items[i])|
    requires FirstError(Entries(items[..i])) == None
    requires FirstError(Histories(items[i])[..j]) == None
    requires HasError(Histories(items[i])[j])
    ensures FirstError(Entries(items)) == Some(ErrorOf(Histories(items[i])[j]))
  {
    var p, h, q := Entries(items[..i]), Histories(items[i]), Entries(items[i + 1..]);
    EntriesSplit(items, i);
    ErrorAtIndex(h, j);
    FirstErrorAppend(p, h);
    FirstErrorAppend(p + h, q);
  }

  lemma ErrorAtIndex(h: seq<Entry>, j: nat)
    requires j < |h| && FirstError(h[..j]) == None && HasError(h[j])
    ensures FirstError(h) == Some(ErrorOf(h[j]))
  {
    var a, b := h[..j], h[j..];
    assert a + b == h;
    FirstErrorAppend(a, b);
    assert b[0] == h[j];
  }

  /** Stats met at entry `j` of item `i`, after none before them, are the first stats overall. */
  lemma StatsFoundAt(items: seq<Item>, i: nat, j: nat)
    requires i < |items| && j < |Histories(items[i])|
    requires FirstStats(Entries(items[..i])) == None
    requires FirstStats(Histories(items[i])[..j]) == None
    requires Histories(items[i])[j].execStats.Some?
    ensures FirstStats(Entries(items)) == Histories(items[i])[j].execStats
  {
    var p, h, q := Entries(items[..i]), Histories(items[i]), Entries(items[i + 1..]);
    EntriesSplit(items, i);
    StatsAtIndex(h, j);
    FirstStatsAppend(p, h);
    FirstStatsAppend(p + h, q);
  }

  lemma StatsAtIndex(h: seq<Entry>, j: nat)
    requires j < |h| && FirstStats(h[..j]) == None && h[j].execStats.Some?
    ensures FirstStats(h) == h[j].execStats
  {
    var a, b := h[..j], h[j..];
    assert a + b == h;
    FirstStatsAppend(a, b);
    assert b[0] == h[j];
  }

  /** reduced.py's `check_execution_status`: a nested loop with an early return. */
  method CheckExecutionStatusReduced(output: seq<Item>) returns (v: Verdict)
    ensures v == ReducedVerdict(output)
    ensures v.success <==> forall k :: 0 <= k < |Entries(output)| ==> !HasError(Entries(output)[k])
  {
    var i := 0;
    while i < |output|
      invariant 0 <= i <= |output|
      invariant FirstError(Entries(output[..i])) == None
    {
      var testHistory := output[i].testHistory.GetOr(TestHistory(None));
      var history := testHistory.history.GetOr([]);
      var j := 0;
      while j < |history|
        invariant 0 <= j <= |history|
        invariant FirstError(history[..j]) == None
      {
        var execStats := history[j].execStats;
        if execStats.Some? {
          if ErrorKey in execStats.value {
            // Indexing a key just tested present cannot fail, so the
            // `except` branch returning "No error message found" is dead.
            v := Verdict(false, Some(execStats.value[ErrorKey]));
            ErrorFoundAt(output, i, j);
            return;
          }
        }
        assert history[..j + 1] == history[..j] + [history[j]];
        FirstErrorAppend(history[..j], [history[j]]);
        j := j + 1;
      }
      assert history[..j] == history;
      EntriesSplit(output, i);
      FirstErrorAppend(Entries(output[..i]), history);
      i := i + 1;
    }
    assert output[..i] == output;
    v := Verdict(true, None);
  }

  /** installer.py's `check_execution_status`. */
  method CheckExecutionStatusInstaller(output: seq<Item>) returns (r: CheckOutcome)
    ensures r == InstallerOutcome(output)
    ensures r.Returned? ==> !r.verdict.success
  {
    // `any_success` starts false and the assignment that would set it is
    // preceded, on every path, by `exec_stats.lower()` on a mapping, which
    // raises; the model therefore omits the flag and its dead test.
    var i := 0;
    while i < |output|
      invariant 0 <= i <= |output|
      invariant FirstStats(Entries(output[..i])) == None
    {
      var testHistory := output[i].testHistory.GetOr(TestHistory(None));
      var history := testHistory.history.GetOr([]);
      var j := 0;
      while j < |history|
        invariant 0 <= j <= |history|
        invariant FirstStats(history[..j]) == None
      {
        var execStats := history[j].execStats;
        if execStats.Some? {
          StatsFoundAt(output, i, j);
          if ErrorKey in execStats.value {
            return Returned(Verdict(false, Some(execStats.value[ErrorKey])));
          } else {
            // `"success" in exec_stats.lower()`: a mapping has no `lower`.
            return RaisedAttributeError;
          }
        }
        assert history[..j + 1] == history[..j] + [history[j]];
        FirstStatsAppend(history[..j], [history[j]]);
        j := j + 1;
      }
      assert history[..j] == history;
      EntriesSplit(output, i);
      FirstStatsAppend(Entries(output[..i]), history);
      i := i + 1;
    }
    assert output[..i] == output;
    r := Returned(Verdict(false, Some(NoMessages)));
  }
}
