/**
 * The run listing of `api_list_runs`: the entries of the runs directory in
 * reverse name order, keeping each directory whose `_plots` holds at least one
 * frame image, reported with its frame count.
 */
module RunRegistry {
  import opened Wrappers
  import opened Text
  import opened FrameIndex

  /** An entry of the runs directory: a plain file, or a directory with what its `_plots` path is. */
  datatype Entry = FileEntry(name: string) | DirEntry(name: string, plots: Dir)

  /** One element of the `runs` list. */
  datatype RunSummary = RunSummary(runId: string, nFrames: nat, meta: map<string, string>)

  // ----------------------------------------------------- reverse ordering

  /** No entry sorts after a later one: the order of `sorted(..., reverse=True)`. */
  predicate NameDescending(es: seq<Entry>)
  {
    forall i, j :: 0 <= i < j < |es| ==> !LexLess(es[i].name, es[j].name)
  }

  function InsertByName(x: Entry, s: seq<Entry>): (r: seq<Entry>)
    requires NameDescending(s)
    ensures NameDescending(r) && multiset(r) == multiset(s) + multiset{x}
  {
    if s == [] || !LexLess(x.name, s[0].name) then
      NotBelowHead(x, s);
      DescendingCons(x, s);
      [x] + s
    else
      var t := InsertByName(x, s[1..]);
      assert s == [s[0]] + s[1..];
      assert multiset(s) == multiset{s[0]} + multiset(s[1..]);
      LexAsymmetric(x.name, s[0].name);
      HeadNotBelow(s[0], x, s[1..], t);
      DescendingCons(s[0], t);
      [s[0]] + t
  }

  /** What is not below the head of a descending sequence is below none of it. */
  lemma NotBelowHead(x: Entry, s: seq<Entry>)
    requires NameDescending(s) && (s == [] || !LexLess(x.name, s[0].name))
    ensures forall k :: 0 <= k < |s| ==> !LexLess(x.name, s[k].name)
  {
    forall k | 0 < k < |s| ensures !LexLess(x.name, s[k].name) {
      if LexLess(x.name, s[k].name) {
        LexTotal(s[0].name, s[k].name);
        if !LexLess(s[0].name, s[k].name) {
          LexTransitive(x.name, s[k].name, s[0].name);
        }
      }
    }
  }

  lemma DescendingCons(h: Entry, t: seq<Entry>)
    requires NameDescending(t) && forall k :: 0 <= k < |t| ==> !LexLess(h.name, t[k].name)
    ensures NameDescending([h] + t)
  {
  }

  lemma HeadNotBelow(h: Entry, x: Entry, rest: seq<Entry>, t: seq<Entry>)
    requires !LexLess(h.name, x.name) && forall k :: 0 <= k < |rest| ==> !LexLess(h.name, rest[k].name)
    requires multiset(t) == multiset(rest) + multiset{x}
    ensures forall k :: 0 <= k < |t| ==> !LexLess(h.name, t[k].name)
  {
    forall k | 0 <= k < |t| ensures !LexLess(h.name, t[k].name) {
      assert t[k] in multiset(t);
      if t[k] != x {
        assert t[k] in multiset(rest);
      }
    }
  }

  /** `sorted(RUNS_DIR.iterdir(), reverse=True)`: paths in one directory compare by name. */
  function SortByNameDesc(es: seq<Entry>): (r: seq<Entry>)
    ensures NameDescending(r) && multiset(r) == multiset(es)
  {
    if es == [] then []
    else
      assert es == es[..|es| - 1] + [es[|es| - 1]];
      InsertByName(es[|es| - 1], SortByNameDesc(es[..|es| - 1]))
  }

  // -------------------------------------------------------------- filter

  /** The outcome of one iteration of the loop of `api_list_runs`. */
  function Visit(e: Entry): (r: Result<Option<RunSummary>, FsError>)
  {
    match e
    case FileEntry(_) => Success(None)
    case DirEntry(name, plots) =>
      if plots.Missing? then Success(None)
      else
        match PlotFrames(plots)
        case Failure(err) => Failure(err)
        case Success(frames) =>
          if frames == [] then Success(None)
          else Success(Some(RunSummary(name, |frames|, map[])))
  }

  /** The loop of `api_list_runs` over entries already in visiting order; the first failure propagates. */
  function KeptRuns(es: seq<Entry>): Result<seq<RunSummary>, FsError>
  {
    if es == [] then Success([])
    else
      match KeptRuns(es[..|es| - 1])
      case Failure(err) => Failure(err)
      case Success(runs) =>
        match Visit(es[|es| - 1])
        case Failure(err) => Failure(err)
        case Success(None) => Success(runs)
        case Success(Some(run)) => Success(runs + [run])
  }

  /**
   * The body of `api_list_runs`: `root` is None when the runs directory does not
   * exist, otherwise its entries in `iterdir()` order.
   */
  function RunsListing(root: Option<seq<Entry>>): Result<seq<RunSummary>, FsError>
  {
    match root
    case None => Success([])
    case Some(es) => KeptRuns(SortByNameDesc(es))
  }

  method ListRuns(root: Option<seq<Entry>>) returns (r: Result<seq<RunSummary>, FsError>)
    ensures r == RunsListing(root)
  {
    if root.None? {
      return Success([]);
    }
    var es := SortByNameDesc(root.value);
    var runs: seq<RunSummary> := [];
    var i := 0;
    while i < |es|
      invariant 0 <= i <= |es|
      invariant KeptRuns(es[..i]) == Success(runs)
    {
      KeptStep(es, i);
      var sub := es[i];
      if sub.FileEntry? {
        i := i + 1;
        continue;
      }
      if sub.plots.Missing? {
        i := i + 1;
        continue;
      }
      var frames := ListPlotFrames(sub.plots);
      if frames.Failure? {
        FailurePersists(es, i + 1);
        return Failure(frames.error);
      }
      if frames.value == [] {
        i := i + 1;
        continue;
      }
      runs := runs + [RunSummary(sub.name, |frames.value|, map[])];
      i := i + 1;
    }
    assert es[..i] == es;
    return Success(runs);
  }

  /** One more entry of the loop, after a run of successes. */
  lemma KeptStep(es: seq<Entry>, i: nat)
    requires i < |es| && KeptRuns(es[..i]).Success?
    ensures Visit(es[i]).Failure? ==> KeptRuns(es[..i + 1]) == Failure(Visit(es[i]).error)
    ensures Visit(es[i]) == Success(None) ==> KeptRuns(es[..i + 1]) == KeptRuns(es[..i])
    ensures Visit(es[i]).Success? && Visit(es[i]).value.Some? ==>
              KeptRuns(es[..i + 1]) == Success(KeptRuns(es[..i]).value + [Visit(es[i]).value.value])
  {
    assert es[..i + 1][..i] == es[..i];
  }

  /** Once the loop has failed, later entries do not change the outcome. */
  lemma {:induction false} FailurePersists(es: seq<Entry>, i: nat)
    requires i <= |es| && KeptRuns(es[..i]).Failure?
    ensures KeptRuns(es) == KeptRuns(es[..i])
    decreases |es| - i
  {
    if i < |es| {
      assert es[..i + 1][..i] == es[..i];
      FailurePersists(es, i + 1);
    } else {
      assert es[..i] == es;
    }
  }

  // --------------------------------------------------- reference listing

  /** An entry the listing shows: a directory whose `_plots` is a directory with a matching frame name. */
  predicate Shown(e: Entry)
  {
    e.DirEntry? && e.plots.Listing? && MatchedFrames(e.plots.names) != []
  }

  /** An entry that makes the listing fail: a directory whose `_plots` exists but is a file. */
  predicate Broken(e: Entry)
  {
    e.DirEntry? && e.plots.NotADirectory?
  }

  /** What the listing reports for a shown entry: its name and its count of matching frame names. */
  function Summary(e: Entry): (s: RunSummary)
    requires Shown(e)
    ensures s.nFrames >= 1 && s.meta == map[]
  {
    RunSummary(e.name, |MatchedFrames(e.plots.names)|, map[])
  }

  /** The summaries of the shown entries, in order. */
  function ShownSummaries(es: seq<Entry>): seq<RunSummary>
  {
    if es == [] then []
    else if Shown(es[|es| - 1]) then ShownSummaries(es[..|es| - 1]) + [Summary(es[|es| - 1])]
    else ShownSummaries(es[..|es| - 1])
  }

  lemma VisitMeaning(e: Entry)
    ensures Visit(e).Failure? <==> Broken(e)
    ensures Visit(e) == Success(None) <==> !Shown(e) && !Broken(e)
    ensures Shown(e) ==> Visit(e) == Success(Some(Summary(e)))
  {
    if e.DirEntry? && e.plots.Listing? {
      var m := MatchedFrames(e.plots.names);
      var sorted := SortAscending(m);
      assert |multiset(sorted)| == |sorted| && |multiset(m)| == |m|;
    }
  }

  /** The loop keeps exactly the shown entries, unless some entry's `_plots` is a file. */
  lemma {:induction false} KeptRunsMeaning(es: seq<Entry>)
    ensures KeptRuns(es)
         == if exists i :: 0 <= i < |es| && Broken(es[i]) then Failure(NotADirectoryError)
            else Success(ShownSummaries(es))
  {
    if es != [] {
      var init, last := es[..|es| - 1], es[|es| - 1];
      KeptRunsMeaning(init);
      VisitMeaning(last);
      assert (exists i :: 0 <= i < |es| && Broken(es[i]))
         <==> (exists i :: 0 <= i < |init| && Broken(init[i])) || Broken(last) by {
        if exists i :: 0 <= i < |es| && Broken(es[i]) {
          var i :| 0 <= i < |es| && Broken(es[i]);
          if i < |init| { assert init[i] == es[i]; }
        }
        if exists i :: 0 <= i < |init| && Broken(init[i]) {
          var i :| 0 <= i < |init| && Broken(init[i]);
          assert es[i] == init[i];
        }
      }
    }
  }

  /** A summary is listed exactly when it is the summary of a shown entry. */
  lemma {:induction false} ShownSummariesMembers(es: seq<Entry>, s: RunSummary)
    ensures s in ShownSummaries(es) <==> exists i :: 0 <= i < |es| && Shown(es[i]) && s == Summary(es[i])
  {
    if es != [] {
      var init := es[..|es| - 1];
      ShownSummariesMembers(init, s);
      if exists i :: 0 <= i < |es| && Shown(es[i]) && s == Summary(es[i]) {
        var i :| 0 <= i < |es| && Shown(es[i]) && s == Summary(es[i]);
        if i < |init| { assert init[i] == es[i]; }
      }
      if exists i :: 0 <= i < |init| && Shown(init[i]) && s == Summary(init[i]) {
        var i :| 0 <= i < |init| && Shown(init[i]) && s == Summary(init[i]);
        assert es[i] == init[i];
      }
    }
  }

  predicate DistinctNames(es: seq<Entry>)
  {
    forall i, j :: 0 <= i < j < |es| ==> es[i].name != es[j].name
  }

  predicate IdsDescending(runs: seq<RunSummary>)
  {
    forall i, j :: 0 <= i < j < |runs| ==> LexLess(runs[j].runId, runs[i].runId)
  }

  /** Keeping some entries of a strictly name-descending sequence keeps the ids strictly descending. */
  lemma {:induction false} ShownSummariesDescending(es: seq<Entry>)
    requires forall i, j :: 0 <= i < j < |es| ==> LexLess(es[j].name, es[i].name)
    ensures IdsDescending(ShownSummaries(es))
  {
    if es != [] {
      var init, last := es[..|es| - 1], es[|es| - 1];
      ShownSummariesDescending(init);
      if Shown(last) {
        var runs := ShownSummaries(init);
        forall k | 0 <= k < |runs| ensures LexLess(last.name, runs[k].runId) {
          ShownSummariesMembers(init, runs[k]);
          var p :| 0 <= p < |init| && Shown(init[p]) && runs[k] == Summary(init[p]);
          assert init[p] == es[p];
        }
      }
    }
  }

  lemma {:induction false} DistinctCount(es: seq<Entry>, x: Entry)
    requires DistinctNames(es)
    ensures multiset(es)[x] <= 1
  {
    if es != [] {
      var init, last := es[..|es| - 1], es[|es| - 1];
      assert es == init + [last];
      DistinctCount(init, x);
      if last == x {
        forall k | 0 <= k < |init| ensures init[k] != x {
          assert init[k] == es[k];
        }
      }
    }
  }

  /** Sorting entries with distinct names in reverse makes the names strictly descending. */
  lemma SortedStrictly(es: seq<Entry>)
    requires DistinctNames(es)
    ensures forall i, j :: 0 <= i < j < |SortByNameDesc(es)| ==>
              LexLess(SortByNameDesc(es)[j].name, SortByNameDesc(es)[i].name)
  {
    var s := SortByNameDesc(es);
    forall i, j | 0 <= i < j < |s| ensures LexLess(s[j].name, s[i].name) {
      assert s[i] in multiset(es) && s[j] in multiset(es);
      var p :| 0 <= p < |es| && es[p] == s[i];
      var q :| 0 <= q < |es| && es[q] == s[j];
      if p == q {
        RepeatedElement(s, i, j);
        DistinctCount(es, s[i]);
        assert false;
      }
      assert s[i].name != s[j].name by {
        if p < q { assert es[p].name != es[q].name; } else { assert es[q].name != es[p].name; }
      }
      LexTotal(s[i].name, s[j].name);
    }
  }

  /**
   * What `api_list_runs` promises: no runs directory gives an empty list; a
   * `_plots` that is a file anywhere makes it fail; otherwise it lists exactly
   * the shown entries, newest name first, each with its frame count (at least
   * one) and empty metadata.
   */
  lemma RunsListingMeaning(root: Option<seq<Entry>>)
    ensures root.None? ==> RunsListing(root) == Success([])
    ensures root.Some? ==>
              (RunsListing(root).Failure? <==> exists i :: 0 <= i < |root.value| && Broken(root.value[i]))
    ensures RunsListing(root).Success? && root.Some? ==>
              forall s :: s in RunsListing(root).value <==>
                exists i :: 0 <= i < |root.value| && Shown(root.value[i]) && s == Summary(root.value[i])
    ensures RunsListing(root).Success? ==>
              forall k :: 0 <= k < |RunsListing(root).value| ==>
                RunsListing(root).value[k].nFrames >= 1 && RunsListing(root).value[k].meta == map[]
  {
    if root.Some? {
      var es := root.value;
      var s := SortByNameDesc(es);
      KeptRunsMeaning(s);
      SameBroken(s, es);
      if RunsListing(root).Success? {
        var runs := RunsListing(root).value;
        forall x ensures x in runs <==> exists i :: 0 <= i < |es| && Shown(es[i]) && x == Summary(es[i]) {
          ShownSummariesMembers(s, x);
          SameShown(s, es, x);
        }
        forall k | 0 <= k < |runs| ensures runs[k].nFrames >= 1 && runs[k].meta == map[] {
          ShownSummariesMembers(s, runs[k]);
        }
      }
    }
  }

  /** Reordering a listing keeps its broken entries. */
  lemma SameBroken(s: seq<Entry>, es: seq<Entry>)
    requires multiset(s) == multiset(es)
    ensures (exists i :: 0 <= i < |s| && Broken(s[i])) <==> (exists i :: 0 <= i < |es| && Broken(es[i]))
  {
    if exists i :: 0 <= i < |s| && Broken(s[i]) {
      var i :| 0 <= i < |s| && Broken(s[i]);
      assert s[i] in multiset(es);
    }
    if exists i :: 0 <= i < |es| && Broken(es[i]) {
      var i :| 0 <= i < |es| && Broken(es[i]);
      assert es[i] in multiset(s);
    }
  }

  /** Reordering a listing keeps the summaries of its shown entries. */
  lemma SameShown(s: seq<Entry>, es: seq<Entry>, x: RunSummary)
    requires multiset(s) == multiset(es)
    ensures (exists i :: 0 <= i < |s| && Shown(s[i]) && x == Summary(s[i]))
        <==> (exists i :: 0 <= i < |es| && Shown(es[i]) && x == Summary(es[i]))
  {
    if exists i :: 0 <= i < |s| && Shown(s[i]) && x == Summary(s[i]) {
      var i :| 0 <= i < |s| && Shown(s[i]) && x == Summary(s[i]);
      assert s[i] in multiset(es);
    }
    if exists i :: 0 <= i < |es| && Shown(es[i]) && x == Summary(es[i]) {
      var i :| 0 <= i < |es| && Shown(es[i]) && x == Summary(es[i]);
      assert es[i] in multiset(s);
    }
  }

  /** In a real directory (distinct names) the run ids come out strictly descending. */
  lemma RunsListingDescending(es: seq<Entry>)
    requires DistinctNames(es)
    ensures RunsListing(Some(es)).Success? ==> IdsDescending(RunsListing(Some(es)).value)
  {
    var s := SortByNameDesc(es);
    SortedStrictly(es);
    KeptRunsMeaning(s);
    ShownSummariesDescending(s);
  }
}
