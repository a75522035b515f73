/**
 * Frame indexing: `list_plot_frames` scans a plot directory for the images
 * `frame<NNNN>fig0.png`, and `read_frame_time` reads the simulation time of a
 * frame from the first token of the time-record file `fort.t<NNNN>`.
 */
module FrameIndex {
  import opened Wrappers
  import opened Text

  /** A directory as `Path.exists()` and `Path.iterdir()` see it; `names` is in iteration order. */
  datatype Dir = Missing | NotADirectory | Listing(names: seq<string>)

  /** `iterdir()` on a path that exists but is a file raises NotADirectoryError. */
  datatype FsError = NotADirectoryError

  /** The plot name for frame `n`: "frame", the 4-digit padded number, "fig0.png". */
  function FrameName(n: nat): string
    requires n < 10000
  {
    "frame" + FormatInt(n, 4) + "fig0.png"
  }

  /**
   * `re.match(r"frame(\d{4})fig0\.png$", name)` followed by `int(m.group(1))`.
   * `re.match` anchors at the start; `$` matches at the end of the name or just
   * before a newline that ends it.
   */
  function MatchFrameName(name: string): (r: Option<int>)
    ensures r.Some? ==> 0 <= r.value < 10000
  {
    if (|name| == 17 || (|name| == 18 && name[17] == '\n'))
       && name[..5] == "frame" && AllDigits(name[5..9]) && name[9..17] == "fig0.png"
    then assert Pow10(4) == 10000; Some(DigitsValue(name[5..9]))
    else None
  }

  /** A name matches exactly when it is the plot name of its frame, possibly followed by one newline. */
  lemma MatchFrameNameIff(name: string, n: int)
    ensures MatchFrameName(name) == Some(n)
        <==> 0 <= n < 10000 && (name == FrameName(n) || name == FrameName(n) + "\n")
  {
    if 0 <= n < 10000 {
      PadRoundTrip(n, 4);
      var f := FrameName(n);
      assert f[..5] == "frame" && f[5..9] == FormatInt(n, 4) && f[9..17] == "fig0.png";
      var g := f + "\n";
      assert g[..5] == "frame" && g[5..9] == FormatInt(n, 4) && g[9..17] == "fig0.png" && g[17] == '\n';
    }
    if MatchFrameName(name) == Some(n) {
      var d := name[5..9];
      ValueFixed(d);
      PadRoundTrip(n, 4);
      assert name[..17] == name[..5] + d + name[9..17];
      if |name| == 18 { assert name == name[..17] + "\n"; } else { assert name == name[..17]; }
    }
  }

  /** The frame numbers of the matching names, in iteration order (the loop of `list_plot_frames`). */
  function MatchedFrames(names: seq<string>): (frames: seq<int>)
    ensures |frames| <= |names|
    ensures forall k :: 0 <= k < |frames| ==> 0 <= frames[k] < 10000
  {
    if names == [] then []
    else
      var init := MatchedFrames(names[..|names| - 1]);
      match MatchFrameName(names[|names| - 1])
      case Some(n) => init + [n]
      case None => init
  }

  lemma {:induction false} MatchedFramesMembers(names: seq<string>, x: int)
    ensures x in MatchedFrames(names)
        <==> exists i :: 0 <= i < |names| && MatchFrameName(names[i]) == Some(x)
  {
    if names != [] {
      var init := names[..|names| - 1];
      MatchedFramesMembers(init, x);
      if exists i :: 0 <= i < |names| && MatchFrameName(names[i]) == Some(x) {
        var i :| 0 <= i < |names| && MatchFrameName(names[i]) == Some(x);
        if i < |init| { assert init[i] == names[i]; }
      }
      if exists i :: 0 <= i < |init| && MatchFrameName(init[i]) == Some(x) {
        var i :| 0 <= i < |init| && MatchFrameName(init[i]) == Some(x);
        assert names[i] == init[i];
      }
    }
  }

  /** Nothing is collected exactly when no name matches. */
  lemma MatchedFramesEmpty(names: seq<string>)
    ensures MatchedFrames(names) == [] <==> forall i :: 0 <= i < |names| ==> MatchFrameName(names[i]).None?
  {
    if MatchedFrames(names) != [] {
      MatchedFramesMembers(names, MatchedFrames(names)[0]);
    } else {
      forall i | 0 <= i < |names| ensures MatchFrameName(names[i]).None? {
        if MatchFrameName(names[i]).Some? {
          MatchedFramesMembers(names, MatchFrameName(names[i]).value);
        }
      }
    }
  }

  predicate Distinct(names: seq<string>)
  {
    forall i, j :: 0 <= i < j < |names| ==> names[i] != names[j]
  }

  predicate NoTrailingNewline(names: seq<string>)
  {
    forall i :: 0 <= i < |names| ==> names[i] == [] || names[i][|names[i]| - 1] != '\n'
  }

  /** Distinct names without a final newline give distinct frame numbers. */
  lemma {:induction false} MatchedFramesUnique(names: seq<string>)
    requires Distinct(names) && NoTrailingNewline(names)
    ensures forall x :: multiset(MatchedFrames(names))[x] <= 1
  {
    if names != [] {
      var init := names[..|names| - 1];
      var last := names[|names| - 1];
      assert Distinct(init) && NoTrailingNewline(init);
      MatchedFramesUnique(init);
      if MatchFrameName(last).Some? {
        var n := MatchFrameName(last).value;
        if n in MatchedFrames(init) {
          MatchedFramesMembers(init, n);
          var i :| 0 <= i < |init| && MatchFrameName(init[i]) == Some(n);
          MatchFrameNameIff(init[i], n);
          MatchFrameNameIff(last, n);
          assert false;
        }
      }
    }
  }

  // ------------------------------------------------------------- sorting

  predicate Ascending(s: seq<int>)
  {
    forall i, j :: 0 <= i < j < |s| ==> s[i] <= s[j]
  }

  predicate StrictlyAscending(s: seq<int>)
  {
    forall i, j :: 0 <= i < j < |s| ==> s[i] < s[j]
  }

  function Insert(x: int, s: seq<int>): (r: seq<int>)
    requires Ascending(s)
    ensures Ascending(r) && multiset(r) == multiset(s) + multiset{x}
  {
    if s == [] || x <= s[0] then
      AscendingCons(x, s);
      [x] + s
    else
      var t := Insert(x, s[1..]);
      assert s == [s[0]] + s[1..];
      assert multiset(s) == multiset{s[0]} + multiset(s[1..]);
      HeadBelow(s[0], x, s[1..], t);
      AscendingCons(s[0], t);
      [s[0]] + t
  }

  /** An element at most every element of an ascending sequence may precede it. */
  lemma AscendingCons(h: int, t: seq<int>)
    requires Ascending(t) && forall k :: 0 <= k < |t| ==> h <= t[k]
    ensures Ascending([h] + t)
  {
  }

  lemma HeadBelow(h: int, x: int, rest: seq<int>, t: seq<int>)
    requires h <= x && forall k :: 0 <= k < |rest| ==> h <= rest[k]
    requires multiset(t) == multiset(rest) + multiset{x}
    ensures forall k :: 0 <= k < |t| ==> h <= t[k]
  {
    forall k | 0 <= k < |t| ensures h <= t[k] {
      assert t[k] in multiset(t);
      if t[k] != x {
        assert t[k] in multiset(rest);
      }
    }
  }

  /** Python's `sorted()` on a list of ints (insertion sort; a sorted permutation is unique). */
  function SortAscending(s: seq<int>): (r: seq<int>)
    ensures Ascending(r) && multiset(r) == multiset(s)
  {
    if s == [] then []
    else
      assert s == s[..|s| - 1] + [s[|s| - 1]];
      Insert(s[|s| - 1], SortAscending(s[..|s| - 1]))
  }

  /** A value found at two positions occurs at least twice. */
  lemma RepeatedElement<T>(s: seq<T>, i: nat, j: nat)
    requires i < j < |s| && s[i] == s[j]
    ensures multiset(s)[s[i]] >= 2
  {
    assert s == s[..i] + [s[i]] + s[i + 1..j] + [s[j]] + s[j + 1..];
  }

  lemma AscendingUniqueIsStrict(s: seq<int>)
    requires Ascending(s) && forall x :: multiset(s)[x] <= 1
    ensures StrictlyAscending(s)
  {
    forall i, j | 0 <= i < j < |s| ensures s[i] < s[j] {
      if s[i] == s[j] { RepeatedElement(s, i, j); }
    }
  }

  // ------------------------------------------------------ list_plot_frames

  /** What `list_plot_frames(plotdir)` returns or raises. */
  function PlotFrames(dir: Dir): (r: Result<seq<int>, FsError>)
    ensures dir.Missing? ==> r == Success([])
    ensures dir.NotADirectory? <==> r.Failure?
    ensures r.Success? ==> Ascending(r.value) && forall k :: 0 <= k < |r.value| ==> 0 <= r.value[k] < 10000
  {
    match dir
    case Missing => Success([])
    case NotADirectory => Failure(NotADirectoryError)
    case Listing(names) =>
      SortKeepsFrameRange(MatchedFrames(names));
      Success(SortAscending(MatchedFrames(names)))
  }

  lemma SortKeepsFrameRange(s: seq<int>)
    requires forall k :: 0 <= k < |s| ==> 0 <= s[k] < 10000
    ensures forall k :: 0 <= k < |SortAscending(s)| ==> 0 <= SortAscending(s)[k] < 10000
  {
    var r := SortAscending(s);
    forall k | 0 <= k < |r| ensures 0 <= r[k] < 10000 {
      assert r[k] in multiset(s);
    }
  }

  /**
   * `list_plot_frames`: collect the frame number of every matching name, then
   * sort. The result is ascending and holds each matching name's number once.
   */
  method ListPlotFrames(dir: Dir) returns (r: Result<seq<int>, FsError>)
    ensures r == PlotFrames(dir)
    ensures dir.Listing? ==>
              r.Success? && Ascending(r.value) && multiset(r.value) == multiset(MatchedFrames(dir.names))
  {
    match dir
    case Missing =>
      return Success([]);
    case NotADirectory =>
      return Failure(NotADirectoryError);
    case Listing(names) =>
      var frames: seq<int> := [];
      var i := 0;
      while i < |names|
        invariant 0 <= i <= |names|
        invariant frames == MatchedFrames(names[..i])
      {
        assert names[..i + 1][..i] == names[..i];
        var m := MatchFrameName(names[i]);
        if m.Some? {
          frames := frames + [m.value];
        }
        i := i + 1;
      }
      assert names[..i] == names;
      return Success(SortAscending(frames));
  }

  /** In a real directory (distinct names) without newline-terminated names, frames are strictly ascending. */
  lemma PlotFramesStrictlyAscending(names: seq<string>)
    requires Distinct(names) && NoTrailingNewline(names)
    ensures PlotFrames(Listing(names)).Success?
    ensures StrictlyAscending(PlotFrames(Listing(names)).value)
  {
    MatchedFramesUnique(names);
    AscendingUniqueIsStrict(SortAscending(MatchedFrames(names)));
  }

  lemma MatchFrameNameExamples()
    ensures MatchFrameName("frame0001fig0.png") == Some(1)
    ensures MatchFrameName("frame0002fig0.png") == Some(2)
    ensures MatchFrameName("notaframe.png") == None
  {
    MatchFirstExample();
    MatchSecondExample();
  }

  lemma MatchFirstExample()
    ensures MatchFrameName("frame0001fig0.png") == Some(1)
  {
    var n := "frame0001fig0.png";
    assert n[..5] == "frame" && n[5..9] == "0001" && n[9..17] == "fig0.png";
    assert DigitsValue("0001") == 1 by {
      assert "0001"[..3] == "000" && "000"[..2] == "00" && "00"[..1] == "0" && "0"[..0] == [];
    }
  }

  lemma MatchSecondExample()
    ensures MatchFrameName("frame0002fig0.png") == Some(2)
  {
    var n := "frame0002fig0.png";
    assert n[..5] == "frame" && n[5..9] == "0002" && n[9..17] == "fig0.png";
    assert DigitsValue("0002") == 2 by {
      assert "0002"[..3] == "000" && "000"[..2] == "00" && "00"[..1] == "0" && "0"[..0] == [];
    }
  }

  /** The example of a plot directory with two frames and one unrelated image. */
  lemma PlotFramesExample()
    ensures PlotFrames(Listing(["frame0001fig0.png", "frame0002fig0.png", "notaframe.png"])) == Success([1, 2])
  {
    MatchedFramesExample();
    SortExample();
  }

  lemma MatchedFramesExample()
    ensures MatchedFrames(["frame0001fig0.png", "frame0002fig0.png", "notaframe.png"]) == [1, 2]
  {
    var names := ["frame0001fig0.png", "frame0002fig0.png", "notaframe.png"];
    MatchFrameNameExamples();
    var one, two := names[..1], names[..2];
    assert one[..0] == [] && one[0] == "frame0001fig0.png";
    assert MatchedFrames(one) == [1];
    assert two[..1] == one && two[1] == "frame0002fig0.png";
    assert MatchedFrames(two) == [1, 2];
    assert names[..2] == two && names[2] == "notaframe.png";
  }

  lemma SortExample()
    ensures SortAscending([1, 2]) == [1, 2]
  {
    assert SortAscending([1]) == Insert(1, []) == [1] by { assert [1][..0] == []; }
    assert SortAscending([1, 2]) == Insert(2, [1]) by { assert [1, 2][..1] == [1]; }
    assert Insert(2, [1]) == [1] + Insert(2, []);
  }

  // ------------------------------------------------------- read_frame_time

  /** A directory entry for `open()`: a readable text file, or one that fails to open or decode. */
  datatype FileState = Readable(text: string) | Unreadable

  /** `f"fort.t{frameno:04d}"`. */
  function TimeFileName(frameno: int): string
  {
    "fort.t" + FormatInt(frameno, 4)
  }

  /** `readline()` in text mode, without its line ending (universal newlines: '\n' or '\r'). */
  function FirstLine(text: string): (line: string)
    ensures |line| <= |text| && line == text[..|line|]
    ensures forall i :: 0 <= i < |line| ==> line[i] != '\n' && line[i] != '\r'
    ensures |line| < |text| ==> text[|line|] == '\n' || text[|line|] == '\r'
  {
    text[..IndexOfEither(text, '\n', '\r')]
  }

  /**
   * `read_frame_time(outdir, frameno)`: `float` of the first whitespace-separated
   * token of the first line of `fort.tNNNN`, or None when the file is absent,
   * cannot be read, has a blank first line, or the token is not a number.
   */
  function ReadFrameTime(outdir: map<string, FileState>, frameno: int): (t: Option<real>)
    ensures t.Some? ==> TimeFileName(frameno) in outdir && outdir[TimeFileName(frameno)].Readable?
  {
    var name := TimeFileName(frameno);
    if name !in outdir then None
    else
      match outdir[name]
      case Unreadable => None
      case Readable(text) =>
        match FirstToken(FirstLine(text))
        case None => None
        case Some(token) => ParseNumber(token)
  }

  /** The time file of a listed frame carries the same four digits as its plot. */
  lemma TimeFileMatchesPlot(name: string, n: int)
    requires MatchFrameName(name) == Some(n)
    ensures TimeFileName(n) == "fort.t" + name[5..9]
    ensures |TimeFileName(n)| == 10 && AllDigits(TimeFileName(n)[6..])
    ensures DigitsValue(TimeFileName(n)[6..]) == n
  {
    MatchFrameNameIff(name, n);
    PadRoundTrip(n, 4);
    var f := FrameName(n);
    assert name[5..9] == f[5..9] == FormatInt(n, 4);
    assert TimeFileName(n)[6..] == FormatInt(n, 4);
  }

  /**
   * Only the first token of the first line counts: whatever follows the token
   * (on that line or later ones) does not change the result.
   */
  lemma ReadFirstTokenOnly(outdir: map<string, FileState>, frameno: int, lead: string, token: string, rest: string)
    requires TimeFileName(frameno) in outdir && outdir[TimeFileName(frameno)] == Readable(lead + token + rest)
    requires AllSpace(lead) && |token| > 0 && NoSpace(token)
    requires forall i :: 0 <= i < |lead| ==> lead[i] != '\n' && lead[i] != '\r'
    requires rest == [] || IsSpace(rest[0])
    ensures ReadFrameTime(outdir, frameno) == ParseNumber(token)
  {
    var text := lead + token + rest;
    var k := IndexOfEither(text, '\n', '\r');
    assert k >= |lead| + |token| by {
      forall i | 0 <= i < |lead| + |token| ensures text[i] != '\n' && text[i] != '\r' {
        if i < |lead| { assert text[i] == lead[i]; }
        else { assert text[i] == token[i - |lead|]; assert !IsSpace(token[i - |lead|]); }
      }
    }
    var rest' := text[|lead| + |token|..k];
    assert FirstLine(text) == lead + token + rest';
    assert rest' == [] || rest'[0] == rest[0];
    FirstTokenOf(lead, token, rest');
  }

  /** An empty or blank first line yields None, whatever the later lines hold. */
  lemma ReadBlankFirstLine(outdir: map<string, FileState>, frameno: int, text: string)
    requires TimeFileName(frameno) in outdir && outdir[TimeFileName(frameno)] == Readable(text)
    requires AllSpace(FirstLine(text))
    ensures ReadFrameTime(outdir, frameno) == None
  {
    var line := FirstLine(text);
    assert LeadingSpace(line) == |line| by { LeadingSpaceAt(line, |line|); assert line[..|line|] == line; }
  }

  /** An empty file, a file of blanks without a line break, and a blank line before a number all give None. */
  lemma ReadBlankExamples(frameno: int)
    ensures ReadFrameTime(map[TimeFileName(frameno) := Readable("")], frameno) == None
    ensures ReadFrameTime(map[TimeFileName(frameno) := Readable("  ")], frameno) == None
    ensures ReadFrameTime(map[TimeFileName(frameno) := Readable(" \n12.5")], frameno) == None
  {
    var name := TimeFileName(frameno);
    ReadBlankFirstLine(map[name := Readable("")], frameno, "");
    assert FirstLine("  ") == "  ";
    ReadBlankFirstLine(map[name := Readable("  ")], frameno, "  ");
    assert FirstLine(" \n12.5") == " " by {
      IndexOfEitherAt(" \n12.5", '\n', '\r', 1);
    }
    ReadBlankFirstLine(map[name := Readable(" \n12.5")], frameno, " \n12.5");
  }

  /** `read_frame_time` on "12.5 extra_tokens" gives 12.5, and a missing file gives None. */
  lemma ReadFrameTimeExample(frameno: int)
    ensures ReadFrameTime(map[TimeFileName(frameno) := Readable("12.5 extra_tokens")], frameno) == Some(12.5)
    ensures ReadFrameTime(map[], frameno) == None
  {
    var outdir := map[TimeFileName(frameno) := Readable("12.5 extra_tokens")];
    assert "12.5 extra_tokens" == "" + "12.5" + " extra_tokens";
    ReadFirstTokenOnly(outdir, frameno, "", "12.5", " extra_tokens");
    ParseExample();
  }

  lemma ParseExample()
    ensures ParseNumber("12.5") == Some(12.5)
  {
    assert "12.5" == "12" + "." + "5";
    ParsePointNumber("12", "5");
    assert DigitsValue("12") == 12 by { assert "12"[..1] == "1" && "1"[..0] == []; }
    assert DigitsValue("5") == 5 by { assert "5"[..0] == []; }
    assert PointValue(12, 5, 1) == 12.5 by { assert Scale(5.0, -1) == 0.5; }
  }

  lemma TimeFileNameExample()
    ensures TimeFileName(3) == "fort.t0003"
    ensures TimeFileName(12) == "fort.t0012"
  {
    PadRoundTrip(3, 4);
    PadRoundTrip(12, 4);
  }
}
