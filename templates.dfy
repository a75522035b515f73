/**
 * The tsunami template registry (`TSUNAMI_REGISTRY`) and its listing by
 * `api_templates`. Optional fields are those the code reads with `.get`.
 */
module Templates {
  import opened Wrappers

  /** The `subfault` dictionary of a template; every field is read with a default. */
  datatype Subfault = Subfault(
    strikeDeg: Option<real>,
    dipDeg: Option<real>,
    rakeDeg: Option<real>,
    slipM: Option<real>,
    lengthM: Option<real>,
    widthM: Option<real>,
    depthM: Option<real>,
    coordinateSpecification: Option<string>)

  /**
   * One registry entry. `name`, `dtopo_nx`, `dtopo_ny` and `times` are read with
   * defaults; `tfinal_hours`, `map_key` and `subfault` are required; `kind` and
   * `coarsen` are stored but never read by the run code.
   */
  datatype Template = Template(
    name: Option<string>,
    kind: string,
    tfinalHours: real,
    mapKey: string,
    coarsen: int,
    dtopoNx: Option<int>,
    dtopoNy: Option<int>,
    times: Option<seq<real>>,
    subfault: Subfault)

  /** A dictionary in insertion order. */
  type Registry = seq<(string, Template)>

  /** Keys of a dictionary are distinct. */
  predicate WellFormed(reg: Registry)
  {
    forall i, j :: 0 <= i < j < |reg| ==> reg[i].0 != reg[j].0
  }

  function Keys(reg: Registry): (ks: seq<string>)
    ensures |ks| == |reg| && forall i :: 0 <= i < |reg| ==> ks[i] == reg[i].0
  {
    if reg == [] then [] else [reg[0].0] + Keys(reg[1..])
  }

  /** `reg[key]` when `key in reg`, else None. */
  function Lookup(reg: Registry, key: string): (r: Option<Template>)
    ensures r.Some? <==> key in Keys(reg)
    ensures r.Some? ==> exists i :: 0 <= i < |reg| && reg[i] == (key, r.value)
  {
    if reg == [] then None
    else if reg[0].0 == key then Some(reg[0].1)
    else
      var r := Lookup(reg[1..], key);
      assert Keys(reg) == [reg[0].0] + Keys(reg[1..]);
      if r.Some? then
        var i :| 0 <= i < |reg[1..]| && reg[1..][i] == (key, r.value);
        assert reg[i + 1] == (key, r.value);
        r
      else r
  }

  /** In a well-formed registry the entry found is the one stored under the key. */
  lemma LookupAt(reg: Registry, i: nat)
    requires WellFormed(reg) && i < |reg|
    ensures Lookup(reg, reg[i].0) == Some(reg[i].1)
  {
    var r := Lookup(reg, reg[i].0);
    assert reg[i].0 in Keys(reg) by { assert Keys(reg)[i] == reg[i].0; }
    var j :| 0 <= j < |reg| && reg[j] == (reg[i].0, r.value);
    assert j == i;
  }

  // ------------------------------------------------------ api_templates

  /** One element of the `templates` list. */
  datatype TemplateInfo = TemplateInfo(id: string, name: string)

  function Info(key: string, t: Template): TemplateInfo
  {
    TemplateInfo(key, t.name.GetOr(key))
  }

  /** The `templates` list of `api_templates`, one element per registry key, in registry order. */
  function ApiTemplates(reg: Registry): (infos: seq<TemplateInfo>)
    ensures |infos| == |reg|
    ensures forall i :: 0 <= i < |reg| ==> infos[i].id == reg[i].0
  {
    if reg == [] then [] else [Info(reg[0].0, reg[0].1)] + ApiTemplates(reg[1..])
  }

  /**
   * The listing offers exactly the ids a run accepts, each with the name the
   * template gives it, or the id itself when the template has no name.
   */
  lemma ApiTemplatesMatchLookup(reg: Registry, i: nat)
    requires WellFormed(reg) && i < |reg|
    ensures Lookup(reg, ApiTemplates(reg)[i].id).Some?
    ensures ApiTemplates(reg)[i].name == Lookup(reg, ApiTemplates(reg)[i].id).value.name.GetOr(reg[i].0)
  {
    LookupAt(reg, i);
    ApiTemplatesAt(reg, i);
  }

  lemma {:induction false} ApiTemplatesAt(reg: Registry, i: nat)
    requires i < |reg|
    ensures ApiTemplates(reg)[i] == Info(reg[i].0, reg[i].1)
  {
    if i > 0 {
      ApiTemplatesAt(reg[1..], i - 1);
    }
  }

  /** A key is accepted by a run exactly when the listing offers it. */
  lemma ListedIffKnown(reg: Registry, key: string)
    ensures Lookup(reg, key).Some? <==> exists i :: 0 <= i < |ApiTemplates(reg)| && ApiTemplates(reg)[i].id == key
  {
    if key in Keys(reg) {
      var i :| 0 <= i < |Keys(reg)| && Keys(reg)[i] == key;
      assert ApiTemplates(reg)[i].id == key;
    }
  }

  // ------------------------------------------------------- the registry

  function OkadaTemplate(name: string, subfault: Subfault): Template
  {
    Template(Some(name), "earthquake_okada", 2.0, "etopo1", 2, Some(200), Some(200), Some([1.0]), subfault)
  }

  function TopCenter(strike: real, dip: real, rake: real, slip: real, length: real, width: real, depth: real)
    : Subfault
  {
    Subfault(Some(strike), Some(dip), Some(rake), Some(slip), Some(length), Some(width), Some(depth),
             Some("top center"))
  }

  /** `TSUNAMI_REGISTRY`. */
  const TsunamiRegistry: Registry := [
    ("chile2010", OkadaTemplate("Chile 2010 earthquake",
                                TopCenter(16.0, 14.0, 90.0, 15.0, 450000.0, 100000.0, 35000.0))),
    ("sumatra2004", OkadaTemplate("2004 Sumatra\U{2013}Andaman earthquake",
                                  TopCenter(329.0, 8.0, 110.0, 20.0, 1500000.0, 150000.0, 30000.0))),
    ("tohoku2011", OkadaTemplate("2011 Tohoku earthquake",
                                 TopCenter(193.0, 9.0, 78.0, 55.0, 400000.0, 150000.0, 29000.0))),
    ("ultra_megaquake", OkadaTemplate("Hypothetical Tsunami (really bad)",
                                      TopCenter(10.0, 8.0, 90.0, 120.0, 2000000.0, 200000.0, 35000.0)))
  ]

  /** The registry has four distinct keys, and `api_templates` lists them with their names. */
  lemma RegistryListing()
    ensures WellFormed(TsunamiRegistry)
    ensures ApiTemplates(TsunamiRegistry) == [
      TemplateInfo("chile2010", "Chile 2010 earthquake"),
      TemplateInfo("sumatra2004", "2004 Sumatra\U{2013}Andaman earthquake"),
      TemplateInfo("tohoku2011", "2011 Tohoku earthquake"),
      TemplateInfo("ultra_megaquake", "Hypothetical Tsunami (really bad)")]
  {
    var reg := TsunamiRegistry;
    assert reg[0].0[0] == 'c' && reg[1].0[0] == 's' && reg[2].0[0] == 't' && reg[3].0[0] == 'u';
  }

  /** Every template asks for a two-hour simulation on the etopo1 relief. */
  lemma RegistryTemplates(i: nat)
    requires i < |TsunamiRegistry|
    ensures TsunamiRegistry[i].1.tfinalHours == 2.0 && TsunamiRegistry[i].1.mapKey == "etopo1"
    ensures TsunamiRegistry[i].1.dtopoNx == Some(200) && TsunamiRegistry[i].1.dtopoNy == Some(200)
  {
  }
}
