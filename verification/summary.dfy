/**
  The end-of-job report of the noisy-cluster remover. The banner is guarded
  by a flag shared by every instance of the processor type, so it appears
  once however many instances there are; each instance's own report is not
  guarded by it.
 */
module Summary {
  import opened Tallies
  import opened NoisyClusterRemover

  /** One message line of the report. */
  datatype SummaryLine =
    | RemoversFinished                         // "Noisy cluster remover(s) successfully finished"
    | PrintingSummary                          // "Printing summary:"
    | NoneRemoved                              // "No noisy pulses removed as none were found"
    | RemovedFromPlane(count: int, plane: int) // "Removed <count> noisy pulses from plane <plane>."

  const Banner: seq<SummaryLine> := [RemoversFinished, PrintingSummary]

  /** The elements of a set in ascending order: the iteration order of a
      `std::map<int, int>`'s keys. */
  function SortedKeys(s: set<int>): (r: seq<int>)
    ensures |r| == |s|
    ensures forall x :: x in s <==> x in r
    ensures forall i, j :: 0 <= i < j < |r| ==> r[i] < r[j]
    decreases |s|
  {
    if s == {} then []
    else
      var m := SetMin(s);
      var rest := SortedKeys(s - {m});
      SortedCons(s, m, rest);
      [m] + rest
  }

  /** Putting the least element in front of the sorted others sorts all. */
  lemma SortedCons(s: set<int>, m: int, rest: seq<int>)
    requires m in s && forall x :: x in s ==> m <= x
    requires |rest| == |s - {m}|
    requires forall x :: x in s - {m} <==> x in rest
    requires forall i, j :: 0 <= i < j < |rest| ==> rest[i] < rest[j]
    ensures |[m] + rest| == |s|
    ensures forall x :: x in s <==> x in [m] + rest
    ensures forall i, j :: 0 <= i < j < |[m] + rest| ==> ([m] + rest)[i] < ([m] + rest)[j]
  {
    var r := [m] + rest;
    forall i | 0 <= i < |rest| ensures m < rest[i] {
      assert rest[i] in rest;
      assert rest[i] in s - {m};
    }
    forall i, j | 0 <= i < j < |r| ensures r[i] < r[j] {
      if i == 0 {
        assert r[j] == rest[j - 1];
      } else {
        assert r[i] == rest[i - 1] && r[j] == rest[j - 1];
      }
    }
  }

  /** One instance's own lines: "none removed" for an empty tally, otherwise
      one line per sensor of the tally in key order. */
  function Report(t: Tally): (r: seq<SummaryLine>)
    ensures |r| == if |t| == 0 then 1 else |t|
    // the banner lines are never part of an instance's own report
    ensures BannerFree(r)
  {
    if |t| == 0 then [NoneRemoved]
    else
      var keys := SortedKeys(t.Keys);
      PlaneLinesAt(t, keys);
      PlaneLinesBannerFree(t, keys);
      PlaneLines(t, keys)
  }

  /** One "removed" line per key of `keys`, in that order. */
  function PlaneLines(t: Tally, keys: seq<int>): seq<SummaryLine>
    decreases |keys|
  {
    if |keys| == 0 then []
    else [RemovedFromPlane(Count(t, keys[0]), keys[0])] + PlaneLines(t, keys[1..])
  }

  lemma {:induction false} PlaneLinesAt(t: Tally, keys: seq<int>)
    ensures |PlaneLines(t, keys)| == |keys|
    ensures forall i :: 0 <= i < |keys| ==> PlaneLines(t, keys)[i] == RemovedFromPlane(Count(t, keys[i]), keys[i])
    decreases |keys|
  {
    if |keys| > 0 {
      PlaneLinesAt(t, keys[1..]);
    }
  }

  /** An instance reports "none removed" exactly when its tally is empty;
      otherwise it reports every sensor of the tally once, with that sensor's
      count, in ascending sensor order, and nothing else. */
  lemma ReportContents(t: Tally)
    ensures t == map[] <==> Report(t) == [NoneRemoved]
    ensures t != map[] ==> |Report(t)| == |t|
    ensures t != map[] ==> forall i :: 0 <= i < |Report(t)| ==>
      Report(t)[i].RemovedFromPlane? && Report(t)[i].plane in t && Report(t)[i].count == t[Report(t)[i].plane]
    ensures t != map[] ==> forall i, j :: 0 <= i < j < |Report(t)| ==>
      Report(t)[i].RemovedFromPlane? && Report(t)[j].RemovedFromPlane? && Report(t)[i].plane < Report(t)[j].plane
    ensures forall k :: k in t ==> RemovedFromPlane(t[k], k) in Report(t)
  {
    if t == map[] {
      assert |t| == 0;
    } else {
      var keys := SortedKeys(t.Keys);
      assert |t| != 0 by { assert t.Keys != {}; }
      assert Report(t) == PlaneLines(t, keys);
      SortedPlaneLines(t, keys);
    }
  }

  /** The "removed" lines for strictly ascending keys that are exactly the
      keys of `t`. */
  lemma SortedPlaneLines(t: Tally, keys: seq<int>)
    requires forall k :: k in t.Keys <==> k in keys
    requires forall i, j :: 0 <= i < j < |keys| ==> keys[i] < keys[j]
    requires |keys| == |t|
    ensures |PlaneLines(t, keys)| == |t|
    ensures forall i :: 0 <= i < |PlaneLines(t, keys)| ==>
      PlaneLines(t, keys)[i].RemovedFromPlane? && PlaneLines(t, keys)[i].plane in t
      && PlaneLines(t, keys)[i].count == t[PlaneLines(t, keys)[i].plane]
    ensures forall i, j :: 0 <= i < j < |PlaneLines(t, keys)| ==>
      PlaneLines(t, keys)[i].RemovedFromPlane? && PlaneLines(t, keys)[j].RemovedFromPlane?
      && PlaneLines(t, keys)[i].plane < PlaneLines(t, keys)[j].plane
    ensures forall k :: k in t ==> RemovedFromPlane(t[k], k) in PlaneLines(t, keys)
  {
    var r := PlaneLines(t, keys);
    PlaneLinesAt(t, keys);
    forall i | 0 <= i < |r|
      ensures r[i].RemovedFromPlane? && r[i].plane in t && r[i].count == t[r[i].plane]
    {
      assert keys[i] in t.Keys;
    }
    forall k | k in t ensures RemovedFromPlane(t[k], k) in r {
      assert k in keys;
      var i :| 0 <= i < |keys| && keys[i] == k;
      assert r[i] == RemovedFromPlane(t[k], k);
    }
  }

  /** Neither of the banner lines occurs in `lines`. */
  predicate BannerFree(lines: seq<SummaryLine>) {
    RemoversFinished !in lines && PrintingSummary !in lines
  }

  lemma {:induction false} PlaneLinesBannerFree(t: Tally, keys: seq<int>)
    ensures BannerFree(PlaneLines(t, keys))
    decreases |keys|
  {
    if |keys| > 0 {
      PlaneLinesBannerFree(t, keys[1..]);
    }
  }

  /** `end` of one instance whose own report is `report`, given the shared
      flag: the lines it emits and the flag afterwards. */
  function EndLines(report: seq<SummaryLine>, printed: bool): (r: (seq<SummaryLine>, bool))
    // the flag is set afterwards
    ensures r.1
    // the banner leads exactly when the flag was clear
    ensures |r.0| == |report| + (if printed then 0 else |Banner|)
    ensures !printed ==> r.0[..|Banner|] == Banner
    // the report follows, whole
    ensures r.0[|r.0| - |report|..] == report
  {
    ((if printed then [] else Banner) + report, true)
  }

  /** The number of times `line` occurs in `lines`. */
  function Occurrences(lines: seq<SummaryLine>, line: SummaryLine): nat
    decreases |lines|
  {
    if |lines| == 0 then 0
    else (if lines[0] == line then 1 else 0) + Occurrences(lines[1..], line)
  }

  lemma {:induction false} OccurrencesAppend(a: seq<SummaryLine>, b: seq<SummaryLine>, line: SummaryLine)
    ensures Occurrences(a + b, line) == Occurrences(a, line) + Occurrences(b, line)
    decreases |a|
  {
    if |a| == 0 {
      assert a + b == b;
    } else {
      assert (a + b)[1..] == a[1..] + b;
      OccurrencesAppend(a[1..], b, line);
    }
  }

  lemma {:induction false} NoOccurrence(lines: seq<SummaryLine>, line: SummaryLine)
    requires line !in lines
    ensures Occurrences(lines, line) == 0
    decreases |lines|
  {
    if |lines| > 0 {
      NoOccurrence(lines[1..], line);
    }
  }

  /** Each banner line occurs once in the banner. */
  lemma BannerOccurrences()
    ensures Occurrences(Banner, RemoversFinished) == 1
    ensures Occurrences(Banner, PrintingSummary) == 1
  {
  }

  /** `end` of one processor instance: the banner exactly when the shared
      flag was clear, the flag set afterwards, and the instance's own report,
      whole and last, whatever the flag was. */
  function End(rm: Remover, printed: bool): (r: (seq<SummaryLine>, bool))
    ensures r.1
    ensures Occurrences(r.0, RemoversFinished) == (if printed then 0 else 1)
    ensures Occurrences(r.0, PrintingSummary) == (if printed then 0 else 1)
    ensures |r.0| >= |Report(rm.removed)| && r.0[|r.0| - |Report(rm.removed)|..] == Report(rm.removed)
  {
    var banner: seq<SummaryLine> := if printed then [] else Banner;
    var report := Report(rm.removed);
    OccurrencesAppend(banner, report, RemoversFinished);
    OccurrencesAppend(banner, report, PrintingSummary);
    NoOccurrence(report, RemoversFinished);
    NoOccurrence(report, PrintingSummary);
    BannerOccurrences();
    EndLines(report, printed)
  }

  /** The `end` calls of instances whose reports are `reports`, in turn,
      threading the shared flag from one to the next. */
  function Teardown(reports: seq<seq<SummaryLine>>, printed: bool): (seq<SummaryLine>, bool)
    decreases |reports|
  {
    if |reports| == 0 then ([], printed)
    else
      var first := EndLines(reports[0], printed);
      var rest := Teardown(reports[1..], first.1);
      (first.0 + rest.0, rest.1)
  }

  /** The reports of several instances. */
  function ReportsOf(rms: seq<Remover>): (r: seq<seq<SummaryLine>>)
    ensures |r| == |rms|
    ensures forall i :: 0 <= i < |rms| ==> r[i] == Report(rms[i].removed)
  {
    seq(|rms|, i requires 0 <= i < |rms| => Report(rms[i].removed))
  }

  /** The `end` calls of the instances `rms`, in turn. */
  function EndAll(rms: seq<Remover>, printed: bool): (seq<SummaryLine>, bool) {
    Teardown(ReportsOf(rms), printed)
  }

  /** Several reports, one after the other. */
  function Concat(reports: seq<seq<SummaryLine>>): seq<SummaryLine>
    decreases |reports|
  {
    if |reports| == 0 then [] else reports[0] + Concat(reports[1..])
  }

  /** Teardown of any number of instances: the banner comes first and only if
      the flag was clear and there is an instance; every instance's report
      follows, in instance order; the flag is set once any instance ended. */
  lemma {:induction false} TeardownShape(reports: seq<seq<SummaryLine>>, printed: bool)
    ensures Teardown(reports, printed).0 == (if !printed && |reports| > 0 then Banner else []) + Concat(reports)
    ensures Teardown(reports, printed).1 == (printed || |reports| > 0)
    decreases |reports|
  {
    if |reports| > 0 {
      var banner: seq<SummaryLine> := if printed then [] else Banner;
      TeardownShape(reports[1..], true);
      assert Teardown(reports[1..], true).0 == Concat(reports[1..]);
      assert (banner + reports[0]) + Concat(reports[1..]) == banner + (reports[0] + Concat(reports[1..]));
    }
  }

  lemma {:induction false} ConcatBannerFree(reports: seq<seq<SummaryLine>>)
    requires forall i :: 0 <= i < |reports| ==> BannerFree(reports[i])
    ensures BannerFree(Concat(reports))
    decreases |reports|
  {
    if |reports| > 0 {
      ConcatBannerFree(reports[1..]);
    }
  }

  /** Across the `end` calls of any number of instances the banner lines
      appear at most once: once if the shared flag was clear and some
      instance ended, never otherwise; the flag is set once any instance
      ended. */
  lemma BannerAtMostOnce(rms: seq<Remover>, printed: bool)
    ensures Occurrences(EndAll(rms, printed).0, RemoversFinished) == (if !printed && |rms| > 0 then 1 else 0)
    ensures Occurrences(EndAll(rms, printed).0, PrintingSummary) == (if !printed && |rms| > 0 then 1 else 0)
    ensures EndAll(rms, printed).1 == (printed || |rms| > 0)
  {
    var reports := ReportsOf(rms);
    var banner: seq<SummaryLine> := if !printed && |rms| > 0 then Banner else [];
    TeardownShape(reports, printed);
    forall i | 0 <= i < |reports| ensures BannerFree(reports[i]) {
      assert reports[i] == Report(rms[i].removed);
    }
    ConcatBannerFree(reports);
    OccurrencesAppend(banner, Concat(reports), RemoversFinished);
    OccurrencesAppend(banner, Concat(reports), PrintingSummary);
    NoOccurrence(Concat(reports), RemoversFinished);
    NoOccurrence(Concat(reports), PrintingSummary);
    BannerOccurrences();
  }

  /** Every instance's report appears in full in the teardown output, in
      instance order and whatever the flag: the reports are not gated. */
  lemma ReportsNotGated(rms: seq<Remover>, printed: bool)
    ensures var lines := EndAll(rms, printed).0;
            var all := Concat(ReportsOf(rms));
            |lines| >= |all| && lines[|lines| - |all|..] == all
  {
    TeardownShape(ReportsOf(rms), printed);
  }
}
