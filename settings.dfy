/** The editor's settings store (MapEdSettings): eleven settings kept in
    fields, written through to the editor's preference store under
    per-project keys, read back with defaults by a run-once Init, and
    change events for the grid style and colours. */
module Settings {

  import opened Options
  import opened Paths

  datatype Color = Color(r: real, g: real, b: real, a: real)

  const DefaultGridFrontColor := Color(0.0, 0.0, 0.0, 1.0)
  const DefaultGridBackColor := Color(0.0, 0.0, 0.0, 0.5)
  const DefaultGridFillColor := Color(0.5, 0.65, 0.8, 0.2)

  /** A value in the preference store, tagged with the type it was stored as. */
  datatype PrefValue = PBool(b: bool) | PFloat(f: real) | PInt(i: int) | PString(s: string)

  type Prefs = map<string, PrefValue>

  function GetBool(prefs: Prefs, key: string, default: bool): bool
  {
    if key in prefs && prefs[key].PBool? then prefs[key].b else default
  }

  function GetFloat(prefs: Prefs, key: string, default: real): real
  {
    if key in prefs && prefs[key].PFloat? then prefs[key].f else default
  }

  function GetInt(prefs: Prefs, key: string, default: int): int
  {
    if key in prefs && prefs[key].PInt? then prefs[key].i else default
  }

  /** None stands for null. */
  function GetString(prefs: Prefs, key: string, default: Option<string>): Option<string>
  {
    if key in prefs && prefs[key].PString? then Some(prefs[key].s) else default
  }

  datatype SettingsEvent =
    | GridStyleChanged(style: int)
    | GridFrontColorChanged(front: Color)
    | GridBackColorChanged(back: Color)
    | GridFillColorChanged(fill: Color)

  // ---------------------------------------------------------------------------
  // Keys

  const KeepPrefabLinkName := "KeepPrefabLink"
  const PrefabsRootName := "PrefabsRoot"
  const ThumbsSizeName := "ThumbsSize"
  const MoveSnapName := "MoveSnap"
  const RotateSnapName := "RotateSnap"
  const GridStyleName := "GridStyle"
  const GridFrontColorName := "GridFrontColor"
  const GridBackColorName := "GridBackColor"
  const GridFillColorName := "GridFillColor"
  const IcoGenUseLightName := "IcoGenUseLight"
  const LightIntensityName := "LightIntensity"

  const Names := [KeepPrefabLinkName, PrefabsRootName, ThumbsSizeName, MoveSnapName, RotateSnapName,
                  GridStyleName, GridFrontColorName, GridBackColorName, GridFillColorName,
                  IcoGenUseLightName, LightIntensityName]

  /** "plyMapEd.<name>.<project>". */
  function Key(name: string, project: string): string
  {
    "plyMapEd." + name + "." + project
  }

  /** Names without a dot give distinct keys within a project. */
  lemma KeyInjective(n1: string, n2: string, project: string)
    requires '.' !in n1 && '.' !in n2 && n1 != n2
    ensures Key(n1, project) != Key(n2, project)
  {
    assert Key(n1, project)[9..] == n1 + "." + project;
    assert Key(n2, project)[9..] == n2 + "." + project;
    UpToDotOf(n1, project);
    UpToDotOf(n2, project);
  }

  /** The text before the first dot. */
  function UpToDot(s: string): string
  {
    if |s| == 0 || s[0] == '.' then "" else [s[0]] + UpToDot(s[1..])
  }

  lemma {:induction false} UpToDotOf(n: string, rest: string)
    requires '.' !in n
    ensures UpToDot(n + "." + rest) == n
  {
    if |n| > 0 {
      assert (n + "." + rest)[1..] == n[1..] + "." + rest;
      UpToDotOf(n[1..], rest);
    }
  }

  /** The eleven settings have eleven different keys in every project. */
  lemma KeysDistinct(project: string)
    ensures forall i, j :: 0 <= i < j < |Names| ==> Key(Names[i], project) != Key(Names[j], project)
  {
    forall i, j | 0 <= i < j < |Names|
      ensures Key(Names[i], project) != Key(Names[j], project)
    {
      KeyInjective(Names[i], Names[j], project);
    }
  }

  /** The keys Init computes, one per setting. */
  datatype KeyTable = KeyTable(
    keepPrefabLink: string, prefabsRoot: string, thumbsSize: string, moveSnap: string,
    rotateSnap: string, gridStyle: string, gridFrontColor: string, gridBackColor: string,
    gridFillColor: string, icoGenUseLight: string, lightIntensity: string)

  function KeysFor(project: string): KeyTable
  {
    KeyTable(Key(KeepPrefabLinkName, project), Key(PrefabsRootName, project), Key(ThumbsSizeName, project),
             Key(MoveSnapName, project), Key(RotateSnapName, project), Key(GridStyleName, project),
             Key(GridFrontColorName, project), Key(GridBackColorName, project), Key(GridFillColorName, project),
             Key(IcoGenUseLightName, project), Key(LightIntensityName, project))
  }

  /** The table's keys, in the order of Names. */
  function KeyList(k: KeyTable): seq<string>
  {
    [k.keepPrefabLink, k.prefabsRoot, k.thumbsSize, k.moveSnap, k.rotateSnap, k.gridStyle,
     k.gridFrontColor, k.gridBackColor, k.gridFillColor, k.icoGenUseLight, k.lightIntensity]
  }

  /** No two settings share a key. */
  predicate DistinctKeys(k: KeyTable)
  {
    && k.keepPrefabLink !in [k.prefabsRoot, k.thumbsSize, k.moveSnap, k.rotateSnap, k.gridStyle,
                             k.gridFrontColor, k.gridBackColor, k.gridFillColor, k.icoGenUseLight, k.lightIntensity]
    && k.prefabsRoot !in [k.thumbsSize, k.moveSnap, k.rotateSnap, k.gridStyle,
                          k.gridFrontColor, k.gridBackColor, k.gridFillColor, k.icoGenUseLight, k.lightIntensity]
    && k.thumbsSize !in [k.moveSnap, k.rotateSnap, k.gridStyle,
                         k.gridFrontColor, k.gridBackColor, k.gridFillColor, k.icoGenUseLight, k.lightIntensity]
    && k.moveSnap !in [k.rotateSnap, k.gridStyle,
                       k.gridFrontColor, k.gridBackColor, k.gridFillColor, k.icoGenUseLight, k.lightIntensity]
    && k.rotateSnap !in [k.gridStyle, k.gridFrontColor, k.gridBackColor, k.gridFillColor, k.icoGenUseLight, k.lightIntensity]
    && k.gridStyle !in [k.gridFrontColor, k.gridBackColor, k.gridFillColor, k.icoGenUseLight, k.lightIntensity]
    && k.gridFrontColor !in [k.gridBackColor, k.gridFillColor, k.icoGenUseLight, k.lightIntensity]
    && k.gridBackColor !in [k.gridFillColor, k.icoGenUseLight, k.lightIntensity]
    && k.gridFillColor !in [k.icoGenUseLight, k.lightIntensity]
    && k.icoGenUseLight != k.lightIntensity
  }

  /** Every project's table has eleven different keys: the table lists
      the keys of Names, in order, which KeysDistinct keeps apart. */
  lemma KeysForDistinct(project: string)
    ensures DistinctKeys(KeysFor(project))
  {
    var k := KeysFor(project);
    assert KeyList(k) == seq(|Names|, i requires 0 <= i < |Names| => Key(Names[i], project));
    KeysDistinct(project);
    DistinctKeysOfList(k);
  }

  /** A table whose key list has no repeats has distinct keys. */
  lemma DistinctKeysOfList(k: KeyTable)
    requires forall i, j :: 0 <= i < j < |KeyList(k)| ==> KeyList(k)[i] != KeyList(k)[j]
    ensures DistinctKeys(k)
  {
    var ks := KeyList(k);
    assert ks[0] == k.keepPrefabLink && ks[1] == k.prefabsRoot && ks[2] == k.thumbsSize
      && ks[3] == k.moveSnap && ks[4] == k.rotateSnap && ks[5] == k.gridStyle
      && ks[6] == k.gridFrontColor && ks[7] == k.gridBackColor && ks[8] == k.gridFillColor
      && ks[9] == k.icoGenUseLight && ks[10] == k.lightIntensity;
  }

  lemma NamesWithoutDots()
    ensures forall n :: n in Names ==> '.' !in n
  {
  }

  /** The project's name: the second-to-last non-empty segment of the data
      path, the folder that holds "Assets". */
  function ProjectName(dataPath: string): string
    requires |Segments(dataPath, '/')| >= 2
  {
    var s := Segments(dataPath, '/');
    s[|s| - 2]
  }

  lemma ProjectNameOf(root: string, project: string)
    requires project != "" && '/' !in project
    ensures |Segments(root + "/" + project + "/Assets", '/')| >= 2
    ensures ProjectName(root + "/" + project + "/Assets") == project
  {
    var a := root + "/" + project;
    var path := a + "/" + "Assets";
    var pr := Split(root, '/');
    calc {
      Split(path, '/');
      { SplitConcat(a, "Assets", '/'); }
      Split(a, '/') + Split("Assets", '/');
      { SplitConcat(root, project, '/'); }
      pr + Split(project, '/') + Split("Assets", '/');
      { SplitNoSepPiece(project, '/'); SplitNoSepPiece("Assets", '/'); }
      pr + [project] + ["Assets"];
    }
    calc {
      Segments(path, '/');
      NonEmpty(pr + [project] + ["Assets"]);
      { NonEmptyConcat(pr + [project], ["Assets"]); }
      NonEmpty(pr + [project]) + NonEmpty(["Assets"]);
      { NonEmptyConcat(pr, [project]); }
      NonEmpty(pr) + NonEmpty([project]) + NonEmpty(["Assets"]);
      { NonEmptySingle(project); NonEmptySingle("Assets"); }
      NonEmpty(pr) + [project] + ["Assets"];
    }
    assert root + "/" + project + "/Assets" == path;
  }


  // ---------------------------------------------------------------------------
  // The colour codec

  /** The culture's float formatter and parser stand behind the codec; it
      round-trips when the formatter never emits ';' and its output parses
      back. */
  ghost predicate CodecLaws(fmt: real -> string, parse: string -> Option<real>)
  {
    forall x :: ';' !in fmt(x) && parse(fmt(x)) == Some(x)
  }

  /** "r;g;b;a". */
  function ColorToString(c: Color, fmt: real -> string): (r: string)
    ensures r == Join([fmt(c.r), fmt(c.g), fmt(c.b), fmt(c.a)], ';')
  {
    var parts := [fmt(c.r), fmt(c.g), fmt(c.b), fmt(c.a)];
    assert parts[..3][..2] == parts[..2] && parts[..2][..1] == parts[..1];
    assert Join(parts[..1], ';') == fmt(c.r);
    assert Join(parts[..2], ';') == fmt(c.r) + ";" + fmt(c.g);
    assert Join(parts[..3], ';') == fmt(c.r) + ";" + fmt(c.g) + ";" + fmt(c.b);
    fmt(c.r) + ";" + fmt(c.g) + ";" + fmt(c.b) + ";" + fmt(c.a)
  }

  /** The default for null, for anything but four ';'-fields, and when a
      field does not parse; otherwise the colour of the four fields. */
  function StringToColor(s: Option<string>, default: Color, parse: string -> Option<real>): (r: Color)
    ensures s.None? ==> r == default
    ensures r != default ==> s.Some? && |Split(s.value, ';')| == 4
  {
    if s.Some? then
      var vals := Split(s.value, ';');
      if |vals| == 4 && parse(vals[0]).Some? && parse(vals[1]).Some?
         && parse(vals[2]).Some? && parse(vals[3]).Some?
      then Color(parse(vals[0]).value, parse(vals[1]).value, parse(vals[2]).value, parse(vals[3]).value)
      else default
    else default
  }

  /** When StringToColor falls back to the default, and what it reads
      otherwise. */
  lemma StringToColorCases(s: Option<string>, default: Color, parse: string -> Option<real>)
    ensures s.None? ==> StringToColor(s, default, parse) == default
    ensures s.Some? && |Split(s.value, ';')| != 4 ==> StringToColor(s, default, parse) == default
    ensures s.Some? && |Split(s.value, ';')| == 4 ==>
      var v := Split(s.value, ';');
      if parse(v[0]).Some? && parse(v[1]).Some? && parse(v[2]).Some? && parse(v[3]).Some?
      then StringToColor(s, default, parse) == Color(parse(v[0]).value, parse(v[1]).value, parse(v[2]).value, parse(v[3]).value)
      else StringToColor(s, default, parse) == default
  {
  }

  /** Writing a colour and reading it back gives the colour. */
  lemma ColorRoundTrip(c: Color, default: Color, fmt: real -> string, parse: string -> Option<real>)
    requires CodecLaws(fmt, parse)
    ensures StringToColor(Some(ColorToString(c, fmt)), default, parse) == c
  {
    SplitJoin([fmt(c.r), fmt(c.g), fmt(c.b), fmt(c.a)], ';');
  }

  /** The colour stored under key, or the default. */
  function GetColor(prefs: Prefs, key: string, default: Color, parse: string -> Option<real>): Color
  {
    StringToColor(GetString(prefs, key, None), default, parse)
  }

  // ---------------------------------------------------------------------------
  // What a session reads from the store

  datatype Values = Values(
    keepPrefabLink: bool, moveSnap: real, rotateSnap: real, prefabsRoot: Option<string>,
    thumbsSize: int, gridStyle: int, gridFrontColor: Color, gridBackColor: Color,
    gridFillColor: Color, icoGenUseLight: bool, lightIntensity: real)

  /** The settings Init reads through a key table: the stored value where
      the key holds one of the setting's type, the default otherwise. */
  function Loaded(prefs: Prefs, k: KeyTable, parse: string -> Option<real>): Values
  {
    Values(
      GetBool(prefs, k.keepPrefabLink, true),
      GetFloat(prefs, k.moveSnap, 1.0),
      GetFloat(prefs, k.rotateSnap, 90.0),
      GetString(prefs, k.prefabsRoot, None),
      GetInt(prefs, k.thumbsSize, 120),
      GetInt(prefs, k.gridStyle, 0),
      GetColor(prefs, k.gridFrontColor, DefaultGridFrontColor, parse),
      GetColor(prefs, k.gridBackColor, DefaultGridBackColor, parse),
      GetColor(prefs, k.gridFillColor, DefaultGridFillColor, parse),
      GetBool(prefs, k.icoGenUseLight, true),
      GetFloat(prefs, k.lightIntensity, 1.0))
  }

  /** A store without any of the table's keys yields the defaults. */
  lemma LoadedDefaults(prefs: Prefs, k: KeyTable, parse: string -> Option<real>)
    requires forall key :: key in KeyList(k) ==> key !in prefs
    ensures Loaded(prefs, k, parse) == Values(true, 1.0, 90.0, None, 120, 0,
      DefaultGridFrontColor, DefaultGridBackColor, DefaultGridFillColor, true, 1.0)
  {
    var ks := KeyList(k);
    assert ks[0] in ks && ks[1] in ks && ks[2] in ks && ks[3] in ks && ks[4] in ks && ks[5] in ks;
    assert ks[6] in ks && ks[7] in ks && ks[8] in ks && ks[9] in ks && ks[10] in ks;
  }

  // Writing one setting's key: a new session then reads the written value
  // for that setting and the same as before for the other ten.

  lemma WriteKeepPrefabLink(prefs: Prefs, k: KeyTable, parse: string -> Option<real>, v: bool)
    requires DistinctKeys(k)
    ensures Loaded(prefs[k.keepPrefabLink := PBool(v)], k, parse) == Loaded(prefs, k, parse).(keepPrefabLink := v)
  {
  }

  lemma WritePrefabsRoot(prefs: Prefs, k: KeyTable, parse: string -> Option<real>, v: string)
    requires DistinctKeys(k)
    ensures Loaded(prefs[k.prefabsRoot := PString(v)], k, parse) == Loaded(prefs, k, parse).(prefabsRoot := Some(v))
  {
  }

  lemma WriteThumbsSize(prefs: Prefs, k: KeyTable, parse: string -> Option<real>, v: int)
    requires DistinctKeys(k)
    ensures Loaded(prefs[k.thumbsSize := PInt(v)], k, parse) == Loaded(prefs, k, parse).(thumbsSize := v)
  {
  }

  lemma WriteMoveSnap(prefs: Prefs, k: KeyTable, parse: string -> Option<real>, v: real)
    requires DistinctKeys(k)
    ensures Loaded(prefs[k.moveSnap := PFloat(v)], k, parse) == Loaded(prefs, k, parse).(moveSnap := v)
  {
  }

  lemma WriteRotateSnap(prefs: Prefs, k: KeyTable, parse: string -> Option<real>, v: real)
    requires DistinctKeys(k)
    ensures Loaded(prefs[k.rotateSnap := PFloat(v)], k, parse) == Loaded(prefs, k, parse).(rotateSnap := v)
  {
  }

  /** Writing back the rotation snap just read changes no setting a new
      session reads. */
  lemma WriteBackRotateSnap(prefs: Prefs, k: KeyTable, parse: string -> Option<real>)
    requires DistinctKeys(k)
    ensures Loaded(prefs[k.rotateSnap := PFloat(Loaded(prefs, k, parse).rotateSnap)], k, parse) == Loaded(prefs, k, parse)
  {
    WriteRotateSnap(prefs, k, parse, Loaded(prefs, k, parse).rotateSnap);
  }

  lemma WriteGridStyle(prefs: Prefs, k: KeyTable, parse: string -> Option<real>, v: int)
    requires DistinctKeys(k)
    ensures Loaded(prefs[k.gridStyle := PInt(v)], k, parse) == Loaded(prefs, k, parse).(gridStyle := v)
  {
  }

  lemma WriteGridFrontColor(prefs: Prefs, k: KeyTable, fmt: real -> string, parse: string -> Option<real>, v: Color)
    requires DistinctKeys(k) && CodecLaws(fmt, parse)
    ensures Loaded(prefs[k.gridFrontColor := PString(ColorToString(v, fmt))], k, parse) == Loaded(prefs, k, parse).(gridFrontColor := v)
  {
    ColorRoundTrip(v, DefaultGridFrontColor, fmt, parse);
  }

  lemma WriteGridBackColor(prefs: Prefs, k: KeyTable, fmt: real -> string, parse: string -> Option<real>, v: Color)
    requires DistinctKeys(k) && CodecLaws(fmt, parse)
    ensures Loaded(prefs[k.gridBackColor := PString(ColorToString(v, fmt))], k, parse) == Loaded(prefs, k, parse).(gridBackColor := v)
  {
    ColorRoundTrip(v, DefaultGridBackColor, fmt, parse);
  }

  lemma WriteGridFillColor(prefs: Prefs, k: KeyTable, fmt: real -> string, parse: string -> Option<real>, v: Color)
    requires DistinctKeys(k) && CodecLaws(fmt, parse)
    ensures Loaded(prefs[k.gridFillColor := PString(ColorToString(v, fmt))], k, parse) == Loaded(prefs, k, parse).(gridFillColor := v)
  {
    ColorRoundTrip(v, DefaultGridFillColor, fmt, parse);
  }

  lemma WriteIcoGenUseLight(prefs: Prefs, k: KeyTable, parse: string -> Option<real>, v: bool)
    requires DistinctKeys(k)
    ensures Loaded(prefs[k.icoGenUseLight := PBool(v)], k, parse) == Loaded(prefs, k, parse).(icoGenUseLight := v)
  {
  }

  lemma WriteLightIntensity(prefs: Prefs, k: KeyTable, parse: string -> Option<real>, v: real)
    requires DistinctKeys(k)
    ensures Loaded(prefs[k.lightIntensity := PFloat(v)], k, parse) == Loaded(prefs, k, parse).(lightIntensity := v)
  {
  }

  // ---------------------------------------------------------------------------
  // The store

  class MapEdSettings {
    const fmt: real -> string
    const parse: string -> Option<real>

    var inited: bool
    var projectName: string
    /** The per-setting keys; empty until Init computes them. */
    var keys: KeyTable
    var prefs: Prefs
    var events: seq<SettingsEvent>
    /** The eleven settings held in memory. */
    var values: Values

    /** The store as the editor starts: nothing read yet, the settings at
        the runtime's zero values, and the preference store as it was left. */
    constructor (fmt: real -> string, parse: string -> Option<real>, prefs: Prefs)
      ensures this.fmt == fmt && this.parse == parse && this.prefs == prefs
      ensures !inited && events == []
    {
      this.fmt := fmt;
      this.parse := parse;
      this.prefs := prefs;
      inited := false;
      projectName := "";
      keys := KeyTable("", "", "", "", "", "", "", "", "", "", "");
      events := [];
      var zero := Color(0.0, 0.0, 0.0, 0.0);
      values := Values(false, 0.0, 0.0, None, 0, 0, zero, zero, zero, false, 0.0);
    }

    /** The settings in memory are what a new session would read from the
        store through the same keys, and the keys are distinct. */
    ghost predicate Persisted()
      reads this
    {
      DistinctKeys(keys) && values == Loaded(prefs, keys, parse)
    }

    /** Computes the project's keys and reads every setting from the store,
        once. A store that is already initialised is left alone. */
    method Init(dataPath: string)
      requires inited || |Segments(dataPath, '/')| >= 2
      modifies this
      ensures old(inited) ==>
        (values == old(values) && prefs == old(prefs) && keys == old(keys)
         && projectName == old(projectName) && events == old(events))
      ensures inited && events == old(events)
      ensures !old(inited) ==> projectName == ProjectName(dataPath) && keys == KeysFor(projectName)
      ensures !old(inited) ==> values == Loaded(old(prefs), keys, parse)
      ensures !old(inited) ==> prefs == old(prefs)[keys.rotateSnap := PFloat(values.rotateSnap)]
      ensures !old(inited) ==> Persisted()
    {
      if inited {
        return;
      }
      inited := true;
      SetProject(dataPath);
      LoadAll();
    }

    /** Names the project after the folder holding the data folder, and
        derives the project's keys from that name. */
    method SetProject(dataPath: string)
      requires |Segments(dataPath, '/')| >= 2
      modifies this
      ensures projectName == ProjectName(dataPath) && keys == KeysFor(projectName) && DistinctKeys(keys)
      ensures inited == old(inited) && prefs == old(prefs) && values == old(values) && events == old(events)
    {
      var s := Segments(dataPath, '/');
      projectName := s[|s| - 2];
      keys := KeysFor(projectName);
      KeysForDistinct(projectName);
    }

    /** The reads of Init, in its order; RotateSnap goes through its setter,
        so its key is written back before the later reads. */
    method LoadAll()
      requires inited && DistinctKeys(keys)
      modifies this
      ensures inited && events == old(events) && projectName == old(projectName) && keys == old(keys)
      ensures values == Loaded(old(prefs), keys, parse)
      ensures prefs == old(prefs)[keys.rotateSnap := PFloat(values.rotateSnap)]
      ensures Persisted()
    {
      var keepPrefabLink := GetBool(prefs, keys.keepPrefabLink, true);
      var moveSnap := GetFloat(prefs, keys.moveSnap, 1.0);
      values := values.(keepPrefabLink := keepPrefabLink, moveSnap := moveSnap);
      SetRotateSnap(GetFloat(prefs, keys.rotateSnap, 90.0));
      var store, k := prefs, keys;
      values := values.(
        prefabsRoot := GetString(store, k.prefabsRoot, None),
        thumbsSize := GetInt(store, k.thumbsSize, 120),
        gridStyle := GetInt(store, k.gridStyle, 0),
        gridFrontColor := GetColor(store, k.gridFrontColor, DefaultGridFrontColor, parse),
        gridBackColor := GetColor(store, k.gridBackColor, DefaultGridBackColor, parse),
        gridFillColor := GetColor(store, k.gridFillColor, DefaultGridFillColor, parse),
        icoGenUseLight := GetBool(store, k.icoGenUseLight, true),
        lightIntensity := GetFloat(store, k.lightIntensity, 1.0));
      WriteBackRotateSnap(old(prefs), keys, parse);
    }

    // The setters. Each stores the value, writes it under its key, and
    // leaves every other setting alone; the grid ones also raise their
    // change event. The keys exist once Init has run.

    method SetKeepPrefabLink(value: bool)
      requires inited
      modifies this
      ensures values == old(values).(keepPrefabLink := value) && GetKeepPrefabLink() == value
      ensures prefs == old(prefs)[keys.keepPrefabLink := PBool(value)]
      ensures events == old(events) && inited && keys == old(keys) && projectName == old(projectName)
      ensures old(Persisted()) ==> Persisted()
    {
      values := values.(keepPrefabLink := value);
      prefs := prefs[keys.keepPrefabLink := PBool(value)];
      if old(Persisted()) {
        WriteKeepPrefabLink(old(prefs), keys, parse, value);
      }
    }

    method SetMoveSnap(value: real)
      requires inited
      modifies this
      ensures values == old(values).(moveSnap := value) && GetMoveSnap() == value
      ensures prefs == old(prefs)[keys.moveSnap := PFloat(value)]
      ensures events == old(events) && inited && keys == old(keys) && projectName == old(projectName)
      ensures old(Persisted()) ==> Persisted()
    {
      values := values.(moveSnap := value);
      prefs := prefs[keys.moveSnap := PFloat(value)];
      if old(Persisted()) {
        WriteMoveSnap(old(prefs), keys, parse, value);
      }
    }

    method SetRotateSnap(value: real)
      requires inited
      modifies this
      ensures values == old(values).(rotateSnap := value) && GetRotateSnap() == value
      ensures prefs == old(prefs)[keys.rotateSnap := PFloat(value)]
      ensures events == old(events) && inited && keys == old(keys) && projectName == old(projectName)
      ensures old(Persisted()) ==> Persisted()
    {
      values := values.(rotateSnap := value);
      prefs := prefs[keys.rotateSnap := PFloat(value)];
      if old(Persisted()) {
        WriteRotateSnap(old(prefs), keys, parse, value);
      }
    }

    method SetPrefabsRoot(value: string)
      requires inited
      modifies this
      ensures values == old(values).(prefabsRoot := Some(value)) && GetPrefabsRoot() == Some(value)
      ensures prefs == old(prefs)[keys.prefabsRoot := PString(value)]
      ensures events == old(events) && inited && keys == old(keys) && projectName == old(projectName)
      ensures old(Persisted()) ==> Persisted()
    {
      values := values.(prefabsRoot := Some(value));
      prefs := prefs[keys.prefabsRoot := PString(value)];
      if old(Persisted()) {
        WritePrefabsRoot(old(prefs), keys, parse, value);
      }
    }

    method SetThumbsSize(value: int)
      requires inited
      modifies this
      ensures values == old(values).(thumbsSize := value) && GetThumbsSize() == value
      ensures prefs == old(prefs)[keys.thumbsSize := PInt(value)]
      ensures events == old(events) && inited && keys == old(keys) && projectName == old(projectName)
      ensures old(Persisted()) ==> Persisted()
    {
      values := values.(thumbsSize := value);
      prefs := prefs[keys.thumbsSize := PInt(value)];
      if old(Persisted()) {
        WriteThumbsSize(old(prefs), keys, parse, value);
      }
    }

    method SetGridStyle(value: int)
      requires inited
      modifies this
      ensures values == old(values).(gridStyle := value) && GetGridStyle() == value
      ensures prefs == old(prefs)[keys.gridStyle := PInt(value)]
      ensures events == old(events) + [GridStyleChanged(value)]
      ensures inited && keys == old(keys) && projectName == old(projectName)
      ensures old(Persisted()) ==> Persisted()
    {
      values := values.(gridStyle := value);
      prefs := prefs[keys.gridStyle := PInt(value)];
      events := events + [GridStyleChanged(value)];
      if old(Persisted()) {
        WriteGridStyle(old(prefs), keys, parse, value);
      }
    }

    method SetGridFrontColor(value: Color)
      requires inited
      modifies this
      ensures values == old(values).(gridFrontColor := value) && GetGridFrontColor() == value
      ensures prefs == old(prefs)[keys.gridFrontColor := PString(ColorToString(value, fmt))]
      ensures events == old(events) + [GridFrontColorChanged(value)]
      ensures inited && keys == old(keys) && projectName == old(projectName)
      ensures old(Persisted()) && CodecLaws(fmt, parse) ==> Persisted()
    {
      values := values.(gridFrontColor := value);
      SetColor(keys.gridFrontColor, value);
      events := events + [GridFrontColorChanged(value)];
      if old(Persisted()) && CodecLaws(fmt, parse) {
        WriteGridFrontColor(old(prefs), keys, fmt, parse, value);
      }
    }

    method SetGridBackColor(value: Color)
      requires inited
      modifies this
      ensures values == old(values).(gridBackColor := value) && GetGridBackColor() == value
      ensures prefs == old(prefs)[keys.gridBackColor := PString(ColorToString(value, fmt))]
      ensures events == old(events) + [GridBackColorChanged(value)]
      ensures inited && keys == old(keys) && projectName == old(projectName)
      ensures old(Persisted()) && CodecLaws(fmt, parse) ==> Persisted()
    {
      values := values.(gridBackColor := value);
      SetColor(keys.gridBackColor, value);
      events := events + [GridBackColorChanged(value)];
      if old(Persisted()) && CodecLaws(fmt, parse) {
        WriteGridBackColor(old(prefs), keys, fmt, parse, value);
      }
    }

    method SetGridFillColor(value: Color)
      requires inited
      modifies this
      ensures values == old(values).(gridFillColor := value) && GetGridFillColor() == value
      ensures prefs == old(prefs)[keys.gridFillColor := PString(ColorToString(value, fmt))]
      ensures events == old(events) + [GridFillColorChanged(value)]
      ensures inited && keys == old(keys) && projectName == old(projectName)
      ensures old(Persisted()) && CodecLaws(fmt, parse) ==> Persisted()
    {
      values := values.(gridFillColor := value);
      SetColor(keys.gridFillColor, value);
      events := events + [GridFillColorChanged(value)];
      if old(Persisted()) && CodecLaws(fmt, parse) {
        WriteGridFillColor(old(prefs), keys, fmt, parse, value);
      }
    }

    method SetIcoGenUseLight(value: bool)
      requires inited
      modifies this
      ensures values == old(values).(icoGenUseLight := value) && GetIcoGenUseLight() == value
      ensures prefs == old(prefs)[keys.icoGenUseLight := PBool(value)]
      ensures events == old(events) && inited && keys == old(keys) && projectName == old(projectName)
      ensures old(Persisted()) ==> Persisted()
    {
      values := values.(icoGenUseLight := value);
      prefs := prefs[keys.icoGenUseLight := PBool(value)];
      if old(Persisted()) {
        WriteIcoGenUseLight(old(prefs), keys, parse, value);
      }
    }

    method SetLightIntensity(value: real)
      requires inited
      modifies this
      ensures values == old(values).(lightIntensity := value) && GetLightIntensity() == value
      ensures prefs == old(prefs)[keys.lightIntensity := PFloat(value)]
      ensures events == old(events) && inited && keys == old(keys) && projectName == old(projectName)
      ensures old(Persisted()) ==> Persisted()
    {
      values := values.(lightIntensity := value);
      prefs := prefs[keys.lightIntensity := PFloat(value)];
      if old(Persisted()) {
        WriteLightIntensity(old(prefs), keys, parse, value);
      }
    }

    method SetColor(key: string, value: Color)
      modifies this
      ensures prefs == old(prefs)[key := PString(ColorToString(value, fmt))]
      ensures values == old(values) && events == old(events) && keys == old(keys)
      ensures inited == old(inited) && projectName == old(projectName)
    {
      prefs := prefs[key := PString(ColorToString(value, fmt))];
    }

    /** Puts the three grid colours back to their defaults, raising the
        three change events in order. */
    method ResetGridColors()
      requires inited
      modifies this
      ensures values == old(values).(gridFrontColor := DefaultGridFrontColor,
                                     gridBackColor := DefaultGridBackColor,
                                     gridFillColor := DefaultGridFillColor)
      ensures events == old(events) + [GridFrontColorChanged(DefaultGridFrontColor),
                                       GridBackColorChanged(DefaultGridBackColor),
                                       GridFillColorChanged(DefaultGridFillColor)]
      ensures inited && keys == old(keys) && projectName == old(projectName)
      ensures old(Persisted()) && CodecLaws(fmt, parse) ==> Persisted()
    {
      SetGridFrontColor(DefaultGridFrontColor);
      SetGridBackColor(DefaultGridBackColor);
      SetGridFillColor(DefaultGridFillColor);
    }

    // The getters.

    function GetKeepPrefabLink(): bool reads this { values.keepPrefabLink }
    function GetMoveSnap(): real reads this { values.moveSnap }
    function GetRotateSnap(): real reads this { values.rotateSnap }
    function GetPrefabsRoot(): Option<string> reads this { values.prefabsRoot }
    function GetThumbsSize(): int reads this { values.thumbsSize }
    function GetGridStyle(): int reads this { values.gridStyle }
    function GetGridFrontColor(): Color reads this { values.gridFrontColor }
    function GetGridBackColor(): Color reads this { values.gridBackColor }
    function GetGridFillColor(): Color reads this { values.gridFillColor }
    function GetIcoGenUseLight(): bool reads this { values.icoGenUseLight }
    function GetLightIntensity(): real reads this { values.lightIntensity }
  }

  // ---------------------------------------------------------------------------
  // Split and RemoveEmptyEntries on concatenations

  lemma {:induction false} JoinConcat(p: seq<string>, q: seq<string>, sep: char)
    requires |p| >= 1 && |q| >= 1
    ensures Join(p + q, sep) == Join(p, sep) + [sep] + Join(q, sep)
    decreases |q|
  {
    if |q| > 1 {
      var q0 := q[..|q| - 1];
      JoinConcat(p, q0, sep);
      assert (p + q)[..|p + q| - 1] == p + q0;
    } else {
      assert (p + q)[..|p + q| - 1] == p;
    }
  }

  /** C#'s Split of a + sep + b is the split of a followed by that of b. */
  lemma SplitConcat(a: string, b: string, sep: char)
    ensures Split(a + [sep] + b, sep) == Split(a, sep) + Split(b, sep)
  {
    var pa, pb := Split(a, sep), Split(b, sep);
    JoinSplit(a, sep);
    JoinSplit(b, sep);
    JoinConcat(pa, pb, sep);
    SplitNoSep(a, sep);
    SplitNoSep(b, sep);
    assert NoSep(pa + pb, sep);
    SplitJoin(pa + pb, sep);
  }

}
