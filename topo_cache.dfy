/**
 * The topography cache of `fetch_topo_for_extent`: a file name derived from
 * the extent, the dataset key and the coarsening factor, fetched from the
 * elevation source and written only when no file of that name exists yet.
 */
module TopoCache {
  import opened Wrappers
  import opened Text

  /** A bounding box (west, east, south, north), each bound in thousandths of a degree. */
  datatype Extent = Extent(west: int, east: int, south: int, north: int)

  function Abs(v: int): nat { if v < 0 then -v else v }

  /** `f"{x:.3f}"` for the value `x = v / 1000`. */
  function FormatMilli(v: int): string
  {
    if v < 0 then "-" + Magnitude(Abs(v)) else Magnitude(Abs(v))
  }

  /** The digits of `a / 1000` with three decimals. */
  function Magnitude(a: nat): string
  {
    Decimal(a / 1000) + "." + Fixed(a % 1000, 3)
  }

  /** Reading a formatted negative bound back with `float()` recovers the bound. */
  lemma NegativeRoundTrip(a: nat)
    requires a > 0
    ensures ParseNumber("-" + Magnitude(a)) == Some(-(a as real / 1000.0))
  {
    MagnitudeRoundTrip(a);
    DecimalRoundTrip(a / 1000);
    assert Magnitude(a)[0] == Decimal(a / 1000)[0];
    ParseNegated(Magnitude(a));
  }

  /** Reading a formatted non-negative bound back with `float()` recovers the bound. */
  lemma MagnitudeRoundTrip(a: nat)
    ensures ParseNumber(Magnitude(a)) == Some(a as real / 1000.0)
  {
    var q, r := a / 1000, a % 1000;
    assert Pow10(3) == 1000;
    assert Magnitude(a) == Decimal(q) + "." + Fixed(r, 3);
    ParseFixedPoint(q, r, 3);
    assert ParseNumber(Magnitude(a)) == Some(PointValue(q, r, 3));
    MilliValue(a);
  }

  lemma MilliValue(a: nat)
    ensures PointValue(a / 1000, a % 1000, 3) == a as real / 1000.0
  {
    var r := (a % 1000) as real;
    assert Scale(r, -3) == r / 1000.0 by {
      assert Scale(r, -1) == r / 10.0;
      assert Scale(r, -2) == Scale(r, -1) / 10.0;
    }
  }

  lemma FormatMilliInjective(v1: int, v2: int)
    requires FormatMilli(v1) == FormatMilli(v2)
    ensures v1 == v2
  {
    SignChar(v1);
    SignChar(v2);
    var m1, m2 := Magnitude(Abs(v1)), Magnitude(Abs(v2));
    if v1 < 0 {
      assert m1 == FormatMilli(v1)[1..];
      assert m2 == FormatMilli(v2)[1..];
    }
    MagnitudeInjective(Abs(v1), Abs(v2));
  }

  /** Only a negative bound is formatted with a leading minus sign. */
  lemma SignChar(v: int)
    ensures |FormatMilli(v)| > 0 && (FormatMilli(v)[0] == '-' <==> v < 0)
  {
    var a := Abs(v);
    DecimalRoundTrip(a / 1000);
    assert Magnitude(a)[0] == Decimal(a / 1000)[0];
  }

  /** Distinct magnitudes are formatted differently. */
  lemma MagnitudeInjective(a1: nat, a2: nat)
    requires Magnitude(a1) == Magnitude(a2)
    ensures a1 == a2
  {
    MagnitudeRoundTrip(a1);
    MagnitudeRoundTrip(a2);
  }

  /** The characters `%.3f` produces: digits, a minus sign and the decimal point. */
  predicate NumberChars(s: string)
  {
    forall i :: 0 <= i < |s| ==> IsDigit(s[i]) || s[i] == '-' || s[i] == '.'
  }

  lemma FormatMilliChars(v: int)
    ensures NumberChars(FormatMilli(v))
  {
    var a := Abs(v);
    var m := Magnitude(a);
    var d := Decimal(a / 1000);
    var f := Fixed(a % 1000, 3);
    assert m == d + "." + f;
    forall i | 0 <= i < |m| ensures IsDigit(m[i]) || m[i] == '.' {
      if i < |d| { assert m[i] == d[i]; }
      else if i > |d| { assert m[i] == f[i - |d| - 1]; }
    }
    if v < 0 {
      var s := "-" + m;
      forall i | 0 <= i < |s| ensures IsDigit(s[i]) || s[i] == '-' || s[i] == '.' {
        if i > 0 { assert s[i] == m[i - 1]; }
      }
    }
  }

  /** `s.replace("-", "m").replace(".", "p")`. */
  function Sanitize(s: string): (r: string)
    ensures |r| == |s|
    ensures forall i :: 0 <= i < |r| ==> r[i] != '-' && r[i] != '.'
  {
    Replace(Replace(s, '-', 'm'), '.', 'p')
  }

  lemma SanitizeConcat(a: string, b: string)
    ensures Sanitize(a + b) == Sanitize(a) + Sanitize(b)
  {
    ReplaceConcat(a, b, '-', 'm');
    ReplaceConcat(Replace(a, '-', 'm'), Replace(b, '-', 'm'), '.', 'p');
  }

  /** On formatted numbers the substitution loses nothing. */
  lemma SanitizeInjective(x: string, y: string)
    requires NumberChars(x) && NumberChars(y) && Sanitize(x) == Sanitize(y)
    ensures x == y
  {
    assert |x| == |y|;
    forall i | 0 <= i < |x| ensures x[i] == y[i] {
      assert Sanitize(x)[i] == Sanitize(y)[i];
    }
  }

  /** One formatted bound and its separator. */
  function BoundField(v: int): string
  {
    FormatMilli(v) + "_"
  }

  /** `f"{xlower:.3f}_{xupper:.3f}_{ylower:.3f}_{yupper:.3f}_{dataset_key}_c{coarsen}"`. */
  function RawTag(e: Extent, datasetKey: string, coarsen: int): string
  {
    BoundField(e.west) + (BoundField(e.east) + (BoundField(e.south) + (BoundField(e.north)
      + (datasetKey + "_c" + IntToString(coarsen)))))
  }

  /** The cache tag: the raw tag with `-` written `m` and `.` written `p`. */
  function Tag(e: Extent, datasetKey: string, coarsen: int): (tag: string)
    ensures forall i :: 0 <= i < |tag| ==> tag[i] != '-' && tag[i] != '.'
  {
    Sanitize(RawTag(e, datasetKey, coarsen))
  }

  function TopoFileName(tag: string): string
  {
    "topo_" + tag + ".tt3"
  }

  /** `str(topo_dir / f"topo_{tag}.tt3")`. */
  function TopoPath(topoDir: string, e: Extent, datasetKey: string, coarsen: int): string
  {
    topoDir + "/" + TopoFileName(Tag(e, datasetKey, coarsen))
  }

  lemma SplitAtUnderscore(a: string, x: string, b: string, y: string)
    requires '_' !in a && '_' !in b && a + "_" + x == b + "_" + y
    ensures a == b && x == y
  {
    var s := a + "_" + x;
    assert s[|a|] == '_';
    assert (b + "_" + y)[|b|] == '_';
    assert s[..|a|] == a && (b + "_" + y)[..|b|] == b;
    assert s[|a| + 1..] == x && (b + "_" + y)[|b| + 1..] == y;
  }

  lemma NoUnderscoreInBound(v: int)
    ensures '_' !in Sanitize(FormatMilli(v))
  {
    FormatMilliChars(v);
    var s := FormatMilli(v);
    forall i | 0 <= i < |s| ensures Sanitize(s)[i] != '_' {
      assert Replace(s, '-', 'm')[i] == s[i] || Replace(s, '-', 'm')[i] == 'm';
    }
  }

  /** One leading bound and the rest of a tag are both recovered from the sanitised text. */
  lemma PeelBound(v1: int, rest1: string, v2: int, rest2: string)
    requires Sanitize(BoundField(v1) + rest1) == Sanitize(BoundField(v2) + rest2)
    ensures v1 == v2 && Sanitize(rest1) == Sanitize(rest2)
  {
    SanitizeConcat(BoundField(v1), rest1);
    SanitizeConcat(FormatMilli(v1), "_");
    SanitizeConcat(BoundField(v2), rest2);
    SanitizeConcat(FormatMilli(v2), "_");
    assert Sanitize("_") == "_";
    NoUnderscoreInBound(v1);
    NoUnderscoreInBound(v2);
    assert Sanitize(BoundField(v1) + rest1) == Sanitize(FormatMilli(v1)) + "_" + Sanitize(rest1);
    assert Sanitize(BoundField(v2) + rest2) == Sanitize(FormatMilli(v2)) + "_" + Sanitize(rest2);
    SplitAtUnderscore(Sanitize(FormatMilli(v1)), Sanitize(rest1), Sanitize(FormatMilli(v2)), Sanitize(rest2));
    FormatMilliChars(v1);
    FormatMilliChars(v2);
    SanitizeInjective(FormatMilli(v1), FormatMilli(v2));
    FormatMilliInjective(v1, v2);
  }

  /** For one dataset and coarsening, different extents never share a tag. */
  lemma TagInjective(e1: Extent, e2: Extent, datasetKey: string, coarsen: int)
    requires Tag(e1, datasetKey, coarsen) == Tag(e2, datasetKey, coarsen)
    ensures e1 == e2
  {
    var tail := datasetKey + "_c" + IntToString(coarsen);
    var n1, n2 := BoundField(e1.north) + tail, BoundField(e2.north) + tail;
    var s1, s2 := BoundField(e1.south) + n1, BoundField(e2.south) + n2;
    var t1, t2 := BoundField(e1.east) + s1, BoundField(e2.east) + s2;
    PeelBound(e1.west, t1, e2.west, t2);
    PeelBound(e1.east, s1, e2.east, s2);
    PeelBound(e1.south, n1, e2.south, n2);
    PeelBound(e1.north, tail, e2.north, tail);
  }

  /**
   * The tag sees the dataset key only after substitution: keys that differ
   * only by `-` against `m` or `.` against `p` share every cache file.
   */
  lemma TagSeesSanitizedKey(e: Extent, key1: string, key2: string, coarsen: int)
    requires Sanitize(key1) == Sanitize(key2)
    ensures Tag(e, key1, coarsen) == Tag(e, key2, coarsen)
  {
    SanitizeAround(key1, "_c", key2, "_c");
    var t1, t2 := key1 + "_c" + IntToString(coarsen), key2 + "_c" + IntToString(coarsen);
    SanitizeAround(key1 + "_c", IntToString(coarsen), key2 + "_c", IntToString(coarsen));
    SanitizeAround(BoundField(e.north), t1, BoundField(e.north), t2);
    var n1, n2 := BoundField(e.north) + t1, BoundField(e.north) + t2;
    SanitizeAround(BoundField(e.south), n1, BoundField(e.south), n2);
    var s1, s2 := BoundField(e.south) + n1, BoundField(e.south) + n2;
    SanitizeAround(BoundField(e.east), s1, BoundField(e.east), s2);
    var w1, w2 := BoundField(e.east) + s1, BoundField(e.east) + s2;
    SanitizeAround(BoundField(e.west), w1, BoundField(e.west), w2);
  }

  /** Sanitisation works piecewise, so pieces that sanitise alike may be swapped. */
  lemma SanitizeAround(a1: string, b1: string, a2: string, b2: string)
    requires Sanitize(a1) == Sanitize(a2) && Sanitize(b1) == Sanitize(b2)
    ensures Sanitize(a1 + b1) == Sanitize(a2 + b2)
  {
    SanitizeConcat(a1, b1);
    SanitizeConcat(a2, b2);
  }

  lemma DatasetKeyCollision(e: Extent, coarsen: int)
    ensures Tag(e, "etopo.1", coarsen) == Tag(e, "etopop1", coarsen)
  {
    assert Sanitize("etopo.1") == Sanitize("etopop1");
    TagSeesSanitizedKey(e, "etopo.1", "etopop1", coarsen);
  }

  // ----------------------------------------------------------------- cache

  /** What the cache observes of a topography directory: its file names and two event counters. */
  datatype CacheState = CacheState(files: set<string>, fetches: nat, writes: nat)

  /** The elevation source could not supply the extent (an exception from `read_netcdf`). */
  datatype TopoError = DataSourceError

  /**
   * One call of `fetch_topo_for_extent` on a directory in state `st`: a hit
   * returns the path; a miss fetches once and, when the source delivers,
   * writes the file once.
   */
  function FetchStep(topoDir: string, st: CacheState, e: Extent, datasetKey: string, coarsen: int, sourceOk: bool)
    : (CacheState, Result<string, TopoError>)
  {
    CacheStep(st, TopoFileName(Tag(e, datasetKey, coarsen)), TopoPath(topoDir, e, datasetKey, coarsen), sourceOk)
  }

  /** The cache logic for a file `name` at `path`, whatever the tag. */
  function CacheStep(st: CacheState, name: string, path: string, sourceOk: bool): (CacheState, Result<string, TopoError>)
  {
    if name in st.files then (st, Success(path))
    else if !sourceOk then (st.(fetches := st.fetches + 1), Failure(DataSourceError))
    else (CacheState(st.files + {name}, st.fetches + 1, st.writes + 1), Success(path))
  }

  /** A hit changes nothing: no fetch, no write, and the path is returned. */
  lemma CacheHit(st: CacheState, name: string, path: string, sourceOk: bool)
    requires name in st.files
    ensures CacheStep(st, name, path, sourceOk) == (st, Success(path))
  {
  }

  /** A miss fetches exactly once; on success it writes exactly once and the file then exists. */
  lemma CacheMiss(st: CacheState, name: string, path: string, sourceOk: bool)
    requires name !in st.files
    ensures var (st', r) := CacheStep(st, name, path, sourceOk);
      && st'.fetches == st.fetches + 1
      && (r.Success? <==> sourceOk)
      && (sourceOk ==> st'.writes == st.writes + 1 && st'.files == st.files + {name} && r.value == path)
      && (!sourceOk ==> st'.writes == st.writes && st'.files == st.files)
  {
  }

  /** Two calls with identical arguments: same path, at most one fetch between them. */
  lemma SecondCallHits(st: CacheState, name: string, path: string, ok1: bool, ok2: bool)
    requires CacheStep(st, name, path, ok1).1.Success?
    ensures var (st1, r1) := CacheStep(st, name, path, ok1);
      var (st2, r2) := CacheStep(st1, name, path, ok2);
      r2 == r1 && st2 == st1 && st2.fetches <= st.fetches + 1
  {
  }

  /** `n` successive calls with the same arguments, the source answering as `answers` says. */
  function FetchRepeatedly(topoDir: string, st: CacheState, e: Extent, key: string, coarsen: int, answers: seq<bool>)
    : CacheState
    decreases |answers|
  {
    if answers == [] then st
    else FetchRepeatedly(topoDir, FetchStep(topoDir, st, e, key, coarsen, answers[0]).0, e, key, coarsen, answers[1..])
  }

  /** However often the same extent is requested, the source is asked at most once when it answers. */
  lemma {:induction false} RepeatedFetchesOnce(topoDir: string, st: CacheState, e: Extent, key: string, coarsen: int,
                                               answers: seq<bool>)
    requires forall i :: 0 <= i < |answers| ==> answers[i]
    ensures FetchRepeatedly(topoDir, st, e, key, coarsen, answers).fetches <= st.fetches + 1
    ensures FetchRepeatedly(topoDir, st, e, key, coarsen, answers).writes <= st.writes + 1
    ensures |answers| > 0 ==> TopoFileName(Tag(e, key, coarsen)) in FetchRepeatedly(topoDir, st, e, key, coarsen, answers).files
    decreases |answers|
  {
    if answers != [] {
      var st1 := FetchStep(topoDir, st, e, key, coarsen, answers[0]).0;
      var name := TopoFileName(Tag(e, key, coarsen));
      assert name in st1.files;
      HitsStay(topoDir, st1, e, key, coarsen, answers[1..]);
    }
  }

  lemma {:induction false} HitsStay(topoDir: string, st: CacheState, e: Extent, key: string, coarsen: int, answers: seq<bool>)
    requires TopoFileName(Tag(e, key, coarsen)) in st.files
    ensures FetchRepeatedly(topoDir, st, e, key, coarsen, answers) == st
    decreases |answers|
  {
    if answers != [] {
      HitsStay(topoDir, st, e, key, coarsen, answers[1..]);
    }
  }

  /** A topography directory as `fetch_topo_for_extent` changes it. */
  class TopoDir {
    const path: string
    var files: set<string>
    var fetches: nat
    var writes: nat

    function State(): CacheState
      reads this
    {
      CacheState(files, fetches, writes)
    }

    constructor (path: string, files: set<string>)
      ensures this.path == path && State() == CacheState(files, 0, 0)
    {
      this.path := path;
      this.files := files;
      fetches := 0;
      writes := 0;
    }

    /** `fetch_topo_for_extent(extent, topo_dir=path, dataset_key, coarsen)`. */
    method FetchTopoForExtent(extent: Extent, datasetKey: string, coarsen: int, sourceOk: bool)
      returns (r: Result<string, TopoError>)
      modifies this
      ensures (State(), r) == FetchStep(path, old(State()), extent, datasetKey, coarsen, sourceOk)
    {
      var name := TopoFileName(Tag(extent, datasetKey, coarsen));
      var fname := TopoPath(path, extent, datasetKey, coarsen);
      ghost var st := State();
      assert FetchStep(path, st, extent, datasetKey, coarsen, sourceOk) == CacheStep(st, name, fname, sourceOk);
      if name in files {
        return Success(fname);
      }
      fetches := fetches + 1;
      if !sourceOk {
        return Failure(DataSourceError);
      }
      files := files + {name};
      writes := writes + 1;
      return Success(fname);
    }
  }
}
