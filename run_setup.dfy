/**
 * The set-up half of `run_geoclaw`: template lookup, the run id and its
 * directories, the overrides written into the solver configuration, the
 * topography fetch and the deformation file path.
 */
module RunSetup {
  import opened Wrappers
  import opened Text
  import opened TopoCache
  import opened Templates

  /** `NUM_FRAMES`: the number of output times every run asks for. */
  const NumFrames: int := 6

  /** The grid size used when a template has no `dtopo_nx` or `dtopo_ny`. */
  const DefaultCells: int := 240

  // ------------------------------------------------------------- run id

  /** A wall-clock reading, as `time.strftime` sees it. */
  datatype Stamp = Stamp(year: nat, month: nat, day: nat, hour: nat, minute: nat, second: nat)

  predicate ValidStamp(t: Stamp)
  {
    1000 <= t.year <= 9999 && 1 <= t.month <= 12 && 1 <= t.day <= 31
    && t.hour < 24 && t.minute < 60 && t.second < 62
  }

  /** `time.strftime("%Y%m%d_%H%M%S")`. */
  function FormatStamp(t: Stamp): (s: string)
    requires ValidStamp(t)
    ensures |s| == 15
  {
    Fixed(t.year, 4) + (Fixed(t.month, 2) + (Fixed(t.day, 2)
      + ("_" + (Fixed(t.hour, 2) + (Fixed(t.minute, 2) + Fixed(t.second, 2))))))
  }

  /** Chronological order of two readings. */
  predicate Before(a: Stamp, b: Stamp)
  {
    a.year < b.year || (a.year == b.year &&
    (a.month < b.month || (a.month == b.month &&
    (a.day < b.day || (a.day == b.day &&
    (a.hour < b.hour || (a.hour == b.hour &&
    (a.minute < b.minute || (a.minute == b.minute && a.second < b.second)))))))))
  }

  /** `f"{timestamp}_{template}_run"`. */
  function RunId(timestamp: string, template: string): string
  {
    timestamp + "_" + template + "_run"
  }

  /** Timestamps of one width keep run ids apart: the id determines both timestamp and template. */
  lemma RunIdInjective(ts1: string, t1: string, ts2: string, t2: string)
    requires |ts1| == |ts2| && RunId(ts1, t1) == RunId(ts2, t2)
    ensures ts1 == ts2 && t1 == t2
  {
    var id := RunId(ts1, t1);
    assert id[..|ts1|] == ts1 && RunId(ts2, t2)[..|ts2|] == ts2;
    assert id[|ts1| + 1..|id| - 4] == t1;
    assert RunId(ts2, t2)[|ts2| + 1..|id| - 4] == t2;
  }

  /** A fixed-width field followed by the rest: the field decides unless it ties. */
  lemma FieldLex(a: nat, b: nat, w: nat, u: string, v: string)
    requires a < Pow10(w) && b < Pow10(w)
    ensures LexLess(Fixed(a, w) + u, Fixed(b, w) + v) <==> a < b || (a == b && LexLess(u, v))
  {
    LexConcat(Fixed(a, w), Fixed(b, w), u, v);
    FixedLexOrder(a, b, w);
    FixedValue(a, w);
    FixedValue(b, w);
  }

  lemma ClockLex(a: Stamp, b: Stamp)
    requires ValidStamp(a) && ValidStamp(b)
    ensures LexLess(Fixed(a.hour, 2) + (Fixed(a.minute, 2) + Fixed(a.second, 2)),
                    Fixed(b.hour, 2) + (Fixed(b.minute, 2) + Fixed(b.second, 2)))
        <==> a.hour < b.hour || (a.hour == b.hour &&
             (a.minute < b.minute || (a.minute == b.minute && a.second < b.second)))
  {
    assert Pow10(2) == 100;
    FieldLex(a.hour, b.hour, 2, Fixed(a.minute, 2) + Fixed(a.second, 2), Fixed(b.minute, 2) + Fixed(b.second, 2));
    FieldLex(a.minute, b.minute, 2, Fixed(a.second, 2), Fixed(b.second, 2));
    FieldLex(a.second, b.second, 2, [], []);
    assert Fixed(a.second, 2) + [] == Fixed(a.second, 2) && Fixed(b.second, 2) + [] == Fixed(b.second, 2);
    LexIrreflexive([]);
  }

  /** Formatted timestamps sort as text exactly when the readings are in time order. */
  lemma {:induction false} FormatStampOrder(a: Stamp, b: Stamp)
    requires ValidStamp(a) && ValidStamp(b)
    ensures LexLess(FormatStamp(a), FormatStamp(b)) <==> Before(a, b)
  {
    assert Pow10(2) == 100 && Pow10(4) == 10000;
    var ca := Fixed(a.hour, 2) + (Fixed(a.minute, 2) + Fixed(a.second, 2));
    var cb := Fixed(b.hour, 2) + (Fixed(b.minute, 2) + Fixed(b.second, 2));
    ClockLex(a, b);
    LexConcat("_", "_", ca, cb);
    FieldLex(a.day, b.day, 2, "_" + ca, "_" + cb);
    FieldLex(a.month, b.month, 2, Fixed(a.day, 2) + ("_" + ca), Fixed(b.day, 2) + ("_" + cb));
    FieldLex(a.year, b.year, 4, Fixed(a.month, 2) + (Fixed(a.day, 2) + ("_" + ca)),
                                Fixed(b.month, 2) + (Fixed(b.day, 2) + ("_" + cb)));
  }

  /**
   * For one template, a run with a later local clock reading has a larger id,
   * so the reverse-sorted run listing shows it first.  Clock readings, not real
   * time: a clock set back gives a later run a smaller id.
   */
  lemma RunIdOrder(a: Stamp, b: Stamp, template: string)
    requires ValidStamp(a) && ValidStamp(b)
    ensures LexLess(RunId(FormatStamp(a), template), RunId(FormatStamp(b), template)) <==> Before(a, b)
  {
    var tail := "_" + template + "_run";
    assert RunId(FormatStamp(a), template) == FormatStamp(a) + tail;
    assert RunId(FormatStamp(b), template) == FormatStamp(b) + tail;
    LexConcat(FormatStamp(a), FormatStamp(b), tail, tail);
    LexIrreflexive(tail);
    FormatStampOrder(a, b);
  }

  /**
   * Whatever the templates, a run with an earlier local clock reading (at
   * second resolution) has a smaller id, so the reverse-sorted listing orders
   * runs by clock reading across templates too.
   */
  lemma RunIdChronological(a: Stamp, b: Stamp, t1: string, t2: string)
    requires ValidStamp(a) && ValidStamp(b) && Before(a, b)
    ensures LexLess(RunId(FormatStamp(a), t1), RunId(FormatStamp(b), t2))
  {
    var tail1, tail2 := "_" + t1 + "_run", "_" + t2 + "_run";
    assert RunId(FormatStamp(a), t1) == FormatStamp(a) + tail1;
    assert RunId(FormatStamp(b), t2) == FormatStamp(b) + tail2;
    LexConcat(FormatStamp(a), FormatStamp(b), tail1, tail2);
    FormatStampOrder(a, b);
  }

  // -------------------------------------------------------- run layout

  /** The paths `run_geoclaw` derives from the runs directory and the run id. */
  function RunDir(runsDir: string, runId: string): string { runsDir + "/" + runId }
  function OutDir(runDir: string): string { runDir + "/_output" }
  function PlotDir(runDir: string): string { runDir + "/_plots" }
  function TopoDirPath(runDir: string): string { runDir + "/topo" }

  /** `make_dtopo_single_fault(..., out_dir=run_dir)` writes and returns this path. */
  function DtopoPath(runDir: string): string { runDir + "/dtopo_user_fault.tt3" }

  /**
   * The three subdirectories and the deformation file of one run are four
   * different paths, each directly inside the run directory.
   */
  lemma RunLayout(runDir: string)
    ensures OutDir(runDir) != PlotDir(runDir) && OutDir(runDir) != TopoDirPath(runDir)
         && PlotDir(runDir) != TopoDirPath(runDir)
    ensures DtopoPath(runDir) != OutDir(runDir) && DtopoPath(runDir) != PlotDir(runDir)
         && DtopoPath(runDir) != TopoDirPath(runDir)
    ensures forall p :: p in [OutDir(runDir), PlotDir(runDir), TopoDirPath(runDir), DtopoPath(runDir)] ==>
              |p| > |runDir| + 1 && p[..|runDir| + 1] == runDir + "/"
  {
    var k := |runDir| + 1;
    assert OutDir(runDir)[k + 1] == 'o' && PlotDir(runDir)[k + 1] == 'p';
    assert OutDir(runDir)[k] == '_' && PlotDir(runDir)[k] == '_';
    assert TopoDirPath(runDir)[k] == 't' && DtopoPath(runDir)[k] == 'd';
    forall p | p in [OutDir(runDir), PlotDir(runDir), TopoDirPath(runDir), DtopoPath(runDir)]
      ensures |p| > k && p[..k] == runDir + "/"
    {
    }
  }

  // --------------------------------------------------- fault parameters

  /** The subfault `make_dtopo_single_fault` builds: template values where given, defaults elsewhere. */
  datatype FaultParams = FaultParams(
    strike: real, dip: real, rake: real, slip: real, length: real, width: real, depth: real,
    longitude: real, latitude: real, coordinateSpecification: string,
    nx: int, ny: int, times: seq<real>)

  function DtopoSettings(t: Template, lon: real, lat: real): (p: FaultParams)
    ensures t.subfault.strikeDeg.None? ==> p.strike == 0.0
    ensures t.subfault.dipDeg.None? ==> p.dip == 10.0
    ensures t.subfault.rakeDeg.None? ==> p.rake == 90.0
    ensures t.subfault.slipM.None? ==> p.slip == 1.0
    ensures t.subfault.lengthM.None? ==> p.length == 100000.0
    ensures t.subfault.widthM.None? ==> p.width == 50000.0
    ensures t.subfault.depthM.None? ==> p.depth == 10000.0
    ensures t.subfault.coordinateSpecification.None? ==> p.coordinateSpecification == "top center"
    ensures t.times.None? ==> p.times == [0.0, 1.0]
    ensures t.dtopoNx.None? ==> p.nx == 240
    ensures t.dtopoNy.None? ==> p.ny == 240
    ensures t.subfault.strikeDeg.Some? ==> p.strike == t.subfault.strikeDeg.value
    ensures t.subfault.dipDeg.Some? ==> p.dip == t.subfault.dipDeg.value
    ensures t.subfault.rakeDeg.Some? ==> p.rake == t.subfault.rakeDeg.value
    ensures t.subfault.slipM.Some? ==> p.slip == t.subfault.slipM.value
    ensures t.subfault.lengthM.Some? ==> p.length == t.subfault.lengthM.value
    ensures t.subfault.widthM.Some? ==> p.width == t.subfault.widthM.value
    ensures t.subfault.depthM.Some? ==> p.depth == t.subfault.depthM.value
    ensures t.subfault.coordinateSpecification.Some? ==>
              p.coordinateSpecification == t.subfault.coordinateSpecification.value
    ensures t.times.Some? ==> p.times == t.times.value
    ensures t.dtopoNx.Some? ==> p.nx == t.dtopoNx.value
    ensures t.dtopoNy.Some? ==> p.ny == t.dtopoNy.value
    ensures p.longitude == lon && p.latitude == lat
  {
    var s := t.subfault;
    FaultParams(
      s.strikeDeg.GetOr(0.0), s.dipDeg.GetOr(10.0), s.rakeDeg.GetOr(90.0), s.slipM.GetOr(1.0),
      s.lengthM.GetOr(100000.0), s.widthM.GetOr(50000.0), s.depthM.GetOr(10000.0),
      lon, lat, s.coordinateSpecification.GetOr("top center"),
      t.dtopoNx.GetOr(DefaultCells), t.dtopoNy.GetOr(DefaultCells), t.times.GetOr([0.0, 1.0]))
  }

  // --------------------------------------------------- solver settings

  /** The values `run_geoclaw` writes into `rundata.clawdata`. */
  datatype ClawConfig = ClawConfig(lower: seq<real>, upper: seq<real>, numOutputTimes: int,
                                   numCells: seq<int>, tfinal: real)

  /** A bound in thousandths of a degree as a float in degrees. */
  function Degrees(v: int): real { v as real / 1000.0 }

  function ConfigFor(t: Template, e: Extent): (c: ClawConfig)
    ensures c.lower == [Degrees(e.west), Degrees(e.south)] && c.upper == [Degrees(e.east), Degrees(e.north)]
    ensures c.numOutputTimes == 6
    ensures c.numCells == [DtopoSettings(t, 0.0, 0.0).nx, DtopoSettings(t, 0.0, 0.0).ny]
    ensures c.tfinal == t.tfinalHours * 3600.0
  {
    ClawConfig([Degrees(e.west), Degrees(e.south)], [Degrees(e.east), Degrees(e.north)], NumFrames,
               [t.dtopoNx.GetOr(DefaultCells), t.dtopoNy.GetOr(DefaultCells)], t.tfinalHours * 3600.0)
  }

  /**
   * The solver grid and the deformation grid read the same template fields, so
   * they have the same size wherever the fault is placed.
   */
  lemma GridsAgree(t: Template, e: Extent, lon: real, lat: real)
    ensures ConfigFor(t, e).numCells == [DtopoSettings(t, lon, lat).nx, DtopoSettings(t, lon, lat).ny]
  {
  }

  /** The number of cells is the deformation grid size, 240 per axis when the template omits it. */
  lemma CellsDefault(t: Template, e: Extent)
    requires t.dtopoNx.None? && t.dtopoNy.None?
    ensures ConfigFor(t, e).numCells == [240, 240]
  {
  }

  /** The solver's `clawdata`: the fields `run_geoclaw` overrides (two space dimensions). */
  class ClawData {
    var lower: seq<real>
    var upper: seq<real>
    var numOutputTimes: int
    var numCells: seq<int>
    var tfinal: real

    function Config(): ClawConfig
      reads this
    {
      ClawConfig(lower, upper, numOutputTimes, numCells, tfinal)
    }

    /** The overrides of `run_geoclaw`: domain, output count, resolution and final time. */
    method Configure(t: Template, extent: Extent)
      requires |lower| == 2 && |upper| == 2 && |numCells| == 2
      modifies this
      ensures Config() == ConfigFor(t, extent)
    {
      lower := lower[0 := Degrees(extent.west)];
      upper := upper[0 := Degrees(extent.east)];
      lower := lower[1 := Degrees(extent.south)];
      upper := upper[1 := Degrees(extent.north)];
      numOutputTimes := NumFrames;
      var nx := t.dtopoNx.GetOr(DefaultCells);
      var ny := t.dtopoNy.GetOr(DefaultCells);
      numCells := numCells[0 := nx];
      numCells := numCells[1 := ny];
      tfinal := t.tfinalHours * 3600.0;
    }

    constructor (c: ClawConfig)
      ensures Config() == c
    {
      lower, upper, numOutputTimes, numCells, tfinal := c.lower, c.upper, c.numOutputTimes, c.numCells, c.tfinal;
    }
  }

  /** A `[type, path]` entry of `topofiles` or `dtopofiles`. */
  datatype GridFile = GridFile(fileType: int, path: string)

  /** The parts of the `setrun("geoclaw")` object that `run_geoclaw` changes. */
  class RunData {
    const clawdata: ClawData
    var topofiles: seq<GridFile>
    var dtopofiles: seq<GridFile>

    constructor (clawdata: ClawData, topofiles: seq<GridFile>, dtopofiles: seq<GridFile>)
      ensures this.clawdata == clawdata && this.topofiles == topofiles && this.dtopofiles == dtopofiles
    {
      this.clawdata := clawdata;
      this.topofiles := topofiles;
      this.dtopofiles := dtopofiles;
    }
  }

  /** The directories that exist on disk. */
  class Workspace {
    var dirs: set<string>

    constructor (dirs: set<string>)
      ensures this.dirs == dirs
    {
      this.dirs := dirs;
    }
  }

  // ----------------------------------------------------------- run_geoclaw

  datatype RunError =
    | UnknownTemplate(template: string)  // KeyError
    | TopoUnavailable                    // the elevation source failed
    | ExecutableNotFound                 // FileNotFoundError: no xgeoclaw binary

  /** The topography file the run uses: always fetched with coarsening 1, whatever the template says. */
  function RunTopoPath(runDir: string, t: Template, e: Extent): string
  {
    TopoPath(TopoDirPath(runDir), e, t.mapKey, 1)
  }

  /** Changing a template's `coarsen` does not change the topography file its runs use. */
  lemma CoarsenIgnored(runDir: string, t: Template, e: Extent, coarsen: int)
    ensures RunTopoPath(runDir, t.(coarsen := coarsen), e) == RunTopoPath(runDir, t, e)
  {
  }

  /**
   * `run_geoclaw(lon, lat, extent, template)` up to the point where the
   * simulation engine would start. `stamp` is the formatted clock reading,
   * `rundata` the fresh `setrun("geoclaw")` result, `topo` the run's own
   * topography directory, `sourceOk` whether the elevation source answers and
   * `engineFound` whether the `xgeoclaw` binary exists.
   */
  method RunGeoclaw(reg: Registry, lon: real, lat: real, extent: Extent, template: string, stamp: string,
                    runsDir: string, ws: Workspace, rundata: RunData, topo: TopoDir, sourceOk: bool,
                    engineFound: bool)
    returns (r: Result<(string, string), RunError>)
    requires topo.path == TopoDirPath(RunDir(runsDir, RunId(stamp, template)))
    requires |rundata.clawdata.lower| == 2 && |rundata.clawdata.upper| == 2 && |rundata.clawdata.numCells| == 2
    modifies ws, rundata, rundata.clawdata, topo
    ensures Lookup(reg, template).None? ==>
              r == Failure(UnknownTemplate(template))
              && ws.dirs == old(ws.dirs) && topo.State() == old(topo.State())
              && rundata.clawdata.Config() == old(rundata.clawdata.Config())
              && rundata.topofiles == old(rundata.topofiles) && rundata.dtopofiles == old(rundata.dtopofiles)
    ensures Lookup(reg, template).Some? ==>
              var t := Lookup(reg, template).value;
              var runDir := RunDir(runsDir, RunId(stamp, template));
              var (st, fetched) := FetchStep(topo.path, old(topo.State()), extent, t.mapKey, 1, sourceOk);
              && ws.dirs == old(ws.dirs) + {runDir, OutDir(runDir), TopoDirPath(runDir), PlotDir(runDir)}
              && rundata.clawdata.Config() == ConfigFor(t, extent)
              && topo.State() == st
              && (fetched.Failure? ==>
                    r == Failure(TopoUnavailable)
                    && rundata.topofiles == old(rundata.topofiles) && rundata.dtopofiles == old(rundata.dtopofiles))
              && (fetched.Success? ==>
                    rundata.topofiles == [GridFile(3, RunTopoPath(runDir, t, extent))]
                    && rundata.dtopofiles == [GridFile(3, DtopoPath(runDir))]
                    && r == (if engineFound then Success((RunId(stamp, template), OutDir(runDir)))
                             else Failure(ExecutableNotFound)))
  {
    var found := Lookup(reg, template);
    if found.None? {
      return Failure(UnknownTemplate(template));
    }
    var t := found.value;
    var runId := RunId(stamp, template);
    var runDir := RunDir(runsDir, runId);
    var outdir := OutDir(runDir);
    ws.dirs := ws.dirs + {runDir, outdir, TopoDirPath(runDir), PlotDir(runDir)};

    rundata.clawdata.Configure(t, extent);

    var topoFile := topo.FetchTopoForExtent(extent, t.mapKey, 1, sourceOk);
    if topoFile.Failure? {
      return Failure(TopoUnavailable);
    }
    rundata.topofiles := [GridFile(3, topoFile.value)];
    rundata.dtopofiles := [GridFile(3, DtopoPath(runDir))];

    if !engineFound {
      return Failure(ExecutableNotFound);
    }
    return Success((runId, outdir));
  }

  // ----------------------------------------------------------- examples

  /** The Chile template: 200 by 200 cells, two hours, topography from etopo1 at coarsening 1. */
  lemma ChileRun(e: Extent, runDir: string)
    ensures Lookup(TsunamiRegistry, "chile2010").Some?
    ensures var t := Lookup(TsunamiRegistry, "chile2010").value;
      && ConfigFor(t, e).numCells == [200, 200]
      && ConfigFor(t, e).tfinal == 7200.0
      && t.coarsen == 2
      && RunTopoPath(runDir, t, e) == TopoPath(runDir + "/topo", e, "etopo1", 1)
  {
    RegistryListing();
    LookupAt(TsunamiRegistry, 0);
  }

  /** An id the registry does not hold is rejected. */
  lemma UnknownTemplateRejected()
    ensures Lookup(TsunamiRegistry, "krakatoa1883").None?
  {
    RegistryListing();
    ListedIffKnown(TsunamiRegistry, "krakatoa1883");
  }
}
