/**
 * Wavefront MTL material libraries: reading the text of a library into a
 * table of materials, the texture files the materials name, rewriting
 * those names, and writing the table back out as MTL text.
 *
 * Python floats are reals here.  float() on the text of a value is the
 * parameter toFloat (None for the ValueError that makes the reader skip
 * the line), and str() on a float is the parameter fmt.
 */
module MtlParser {
  import opened Wrappers
  import opened Text
  import opened LineSyntax
  import opened Seqs

  /** float(); None stands for the ValueError. */
  type FloatParser = string -> Option<real>

  /** str() of a float. */
  type FloatWriter = real -> string

  datatype Color = Color(r: real, g: real, b: real)

  /** The seven texture attributes, in the order the source lists them. */
  datatype MapSlot = MapDiffuse | MapAmbient | MapSpecular | MapShininess | MapBump | MapDisplacement | MapAlpha

  const MapSlots: seq<MapSlot> := [MapDiffuse, MapAmbient, MapSpecular, MapShininess, MapBump, MapDisplacement, MapAlpha]

  /** One material: None is Python's None. */
  datatype Material = Material(
    name: string,
    ambient: Option<Color>,        // Ka
    diffuse: Option<Color>,        // Kd
    specular: Option<Color>,       // Ks
    shininess: Option<real>,       // Ns
    opacity: real,                 // d
    transparency: real,            // Tr
    opticalDensity: Option<real>,  // Ni
    illumination: Option<int>,     // illum
    mapDiffuse: Option<string>,    // map_Kd
    mapAmbient: Option<string>,    // map_Ka
    mapSpecular: Option<string>,   // map_Ks
    mapShininess: Option<string>,  // map_Ns
    mapBump: Option<string>,       // map_Bump or bump
    mapDisplacement: Option<string>,  // disp
    mapAlpha: Option<string>)      // map_d

  /** Material(name): opacity 1.0, transparency 0.0, everything else None. */
  function NewMaterial(name: string): Material {
    Material(name, None, None, None, None, 1.0, 0.0, None, None, None, None, None, None, None, None, None)
  }

  // ================================================================ texture attributes

  function MapAt(m: Material, s: MapSlot): Option<string> {
    match s
    case MapDiffuse => m.mapDiffuse
    case MapAmbient => m.mapAmbient
    case MapSpecular => m.mapSpecular
    case MapShininess => m.mapShininess
    case MapBump => m.mapBump
    case MapDisplacement => m.mapDisplacement
    case MapAlpha => m.mapAlpha
  }

  /** setattr on a texture attribute. */
  function WithMap(m: Material, s: MapSlot, v: Option<string>): Material {
    match s
    case MapDiffuse => m.(mapDiffuse := v)
    case MapAmbient => m.(mapAmbient := v)
    case MapSpecular => m.(mapSpecular := v)
    case MapShininess => m.(mapShininess := v)
    case MapBump => m.(mapBump := v)
    case MapDisplacement => m.(mapDisplacement := v)
    case MapAlpha => m.(mapAlpha := v)
  }

  /** A material with its texture attributes cleared: everything else. */
  function Properties(m: Material): Material {
    m.(mapDiffuse := None, mapAmbient := None, mapSpecular := None, mapShininess := None,
       mapBump := None, mapDisplacement := None, mapAlpha := None)
  }

  /** setattr changes the one attribute it names. */
  lemma WithMapAt(m: Material, s: MapSlot, v: Option<string>)
    ensures forall t :: MapAt(WithMap(m, s, v), t) == if t == s then v else MapAt(m, t)
    ensures Properties(WithMap(m, s, v)) == Properties(m)
    ensures WithMap(m, s, MapAt(m, s)) == m
  {
  }

  lemma AllSlots(s: MapSlot)
    ensures s in MapSlots
  {
  }

  /** Two materials with the same properties and the same textures are the
      same material. */
  lemma MaterialEq(a: Material, b: Material)
    requires Properties(a) == Properties(b)
    requires forall s :: MapAt(a, s) == MapAt(b, s)
    ensures a == b
  {
    assert MapAt(a, MapDiffuse) == MapAt(b, MapDiffuse);
    assert MapAt(a, MapAmbient) == MapAt(b, MapAmbient);
    assert MapAt(a, MapSpecular) == MapAt(b, MapSpecular);
    assert MapAt(a, MapShininess) == MapAt(b, MapShininess);
    assert MapAt(a, MapBump) == MapAt(b, MapBump);
    assert MapAt(a, MapDisplacement) == MapAt(b, MapDisplacement);
    assert MapAt(a, MapAlpha) == MapAt(b, MapAlpha);
  }

  /** A texture attribute that names a file: set and not empty. */
  predicate Named(v: Option<string>) {
    v.Some? && v.value != ""
  }

  /** Material.get_texture_paths: exactly the texture attributes that name
      a file. */
  function TexturePaths(m: Material): (r: set<string>)
    ensures forall x :: x in r <==> exists s :: MapAt(m, s) == Some(x) && x != ""
  {
    var r := set s | s in MapSlots && Named(MapAt(m, s)) :: MapAt(m, s).value;
    forall x | exists s :: MapAt(m, s) == Some(x) && x != ""
      ensures x in r
    {
      var s :| MapAt(m, s) == Some(x) && x != "";
      AllSlots(s);
    }
    r
  }

  // ================================================================ tables

  /** MTLParser.materials: a dict from names to materials, kept with the
      order in which its keys were first inserted; replacing the value of a
      key keeps the key where it was. */
  datatype Table = Table(order: seq<string>, materials: map<string, Material>)

  const EmptyTable := Table([], map[])

  predicate ValidTable(t: Table) {
    && (forall i, j :: 0 <= i < j < |t.order| ==> t.order[i] != t.order[j])
    && t.materials.Keys == set k | k in t.order
  }

  /** table[name] = m */
  function Put(t: Table, name: string, m: Material): (r: Table)
    ensures ValidTable(t) ==> ValidTable(r)
    ensures r.materials == t.materials[name := m]
    ensures name in t.materials ==> r.order == t.order
  {
    Table(if name in t.materials then t.order else t.order + [name], t.materials[name := m])
  }

  /** get_all_texture_paths: the texture files of all the materials. */
  function AllTexturePaths(t: Table): set<string> {
    set k, x | k in t.materials && x in TexturePaths(t.materials[k]) :: x
  }

  /** The texture files of a table are those of the materials it lists in
      its order. */
  lemma AllTexturePathsSpec(t: Table, x: string)
    requires ValidTable(t)
    ensures x in AllTexturePaths(t) <==> exists i :: 0 <= i < |t.order| && x in TexturePaths(t.materials[t.order[i]])
  {
    if x in AllTexturePaths(t) {
      var k :| k in t.materials && x in TexturePaths(t.materials[k]);
      assert k in set k | k in t.order;
      var i :| 0 <= i < |t.order| && t.order[i] == k;
    }
    if exists i :: 0 <= i < |t.order| && x in TexturePaths(t.materials[t.order[i]]) {
      var i :| 0 <= i < |t.order| && x in TexturePaths(t.materials[t.order[i]]);
      assert t.order[i] in set k | k in t.order;
    }
  }

  /** Storing a material under a name replaces that name's texture files
      by the new material's and keeps those of every other entry. */
  lemma AllTexturePathsPut(t: Table, name: string, m: Material, x: string)
    ensures x in AllTexturePaths(Put(t, name, m)) <==>
      x in TexturePaths(m) || exists k :: k in t.materials && k != name && x in TexturePaths(t.materials[k])
  {
    var r := Put(t, name, m);
    if x in TexturePaths(m) {
      assert name in r.materials && r.materials[name] == m;
    }
    if exists k :: k in t.materials && k != name && x in TexturePaths(t.materials[k]) {
      var k :| k in t.materials && k != name && x in TexturePaths(t.materials[k]);
      assert k in r.materials && r.materials[k] == t.materials[k];
    }
  }

  // ================================================================ values

  /** _parse_color: at least three words give the first three as floats
      (any of them failing fails the line); fewer give black. */
  function ParseColor(args: string, toFloat: FloatParser): (r: Option<Color>)
    ensures var v := Split(args);
      if |v| < 3 then r == Some(Color(0.0, 0.0, 0.0))
      else if toFloat(v[0]).Some? && toFloat(v[1]).Some? && toFloat(v[2]).Some? then
        r == Some(Color(toFloat(v[0]).value, toFloat(v[1]).value, toFloat(v[2]).value))
      else r.None?
  {
    var values := Split(args);
    if |values| >= 3 then
      match (toFloat(values[0]), toFloat(values[1]), toFloat(values[2]))
      case (Some(r), Some(g), Some(b)) => Some(Color(r, g, b))
      case _ => None
    else Some(Color(0.0, 0.0, 0.0))
  }

  /** Only the first three words are read: what follows them is ignored. */
  lemma ParseColorFirstThree(args: string, toFloat: FloatParser)
    requires |Split(args)| >= 3
    ensures ParseColor(args, toFloat) == ParseColor(Join(" ", Split(args)[..3]), toFloat)
  {
    var ws := Split(args)[..3];
    assert forall k :: 0 <= k < |ws| ==> ws[k] == Split(args)[k];
    SplitJoin(ws);
  }

  /** The last word that does not start with '-'. */
  function LastPlain(parts: seq<string>): (r: Option<nat>)
    ensures r.None? <==> forall k :: 0 <= k < |parts| ==> HasPrefix(parts[k], "-")
    ensures r.Some? ==>
      && r.value < |parts| && !HasPrefix(parts[r.value], "-")
      && forall j :: r.value < j < |parts| ==> HasPrefix(parts[j], "-")
    decreases |parts|
  {
    if parts == [] then None
    else
      var n := |parts| - 1;
      if !HasPrefix(parts[n], "-") then Some(n)
      else
        var r := LastPlain(parts[..n]);
        assert forall k :: 0 <= k < n ==> parts[..n][k] == parts[k];
        r
  }

  /** _parse_texture_path: the last word that is not an option, with '\'
      turned into '/'; when every word is an option, the arguments. */
  function ParseTexturePath(args: string): string {
    var parts := Split(args);
    match LastPlain(parts)
    case Some(k) => Replace(parts[k], "\\", "/")
    case None => Strip(args)
  }

  /** _parse_texture_path as written: a loop over the words from the last. */
  method ParseTexturePathScan(args: string) returns (r: string)
    ensures r == ParseTexturePath(args)
  {
    var parts := Split(args);
    var i := |parts|;
    while i > 0
      invariant 0 <= i <= |parts|
      invariant forall j :: i <= j < |parts| ==> HasPrefix(parts[j], "-")
    {
      if !HasPrefix(parts[i - 1], "-") {
        return Replace(parts[i - 1], "\\", "/");
      }
      i := i - 1;
    }
    return Strip(args);
  }

  // ================================================================ reading

  /** The texture attribute a (lower-case) command sets, if any. */
  function SlotOf(kw: string): Option<MapSlot> {
    if kw == "map_kd" then Some(MapDiffuse)
    else if kw == "map_ka" then Some(MapAmbient)
    else if kw == "map_ks" then Some(MapSpecular)
    else if kw == "map_ns" then Some(MapShininess)
    else if kw == "map_bump" || kw == "bump" then Some(MapBump)
    else if kw == "disp" then Some(MapDisplacement)
    else if kw == "map_d" then Some(MapAlpha)
    else None
  }

  /** The commands whose value can fail to parse. */
  predicate IsValueCommand(kw: string) {
    kw in {"ka", "kd", "ks", "ns", "d", "tr", "ni", "illum"}
  }

  /** The attribute a value command sets. */
  function ValueField(kw: string): Field
    requires IsValueCommand(kw)
  {
    if kw == "ka" then Ambient
    else if kw == "kd" then Diffuse
    else if kw == "ks" then Specular
    else if kw == "ns" then Shininess
    else if kw == "d" then Opacity
    else if kw == "tr" then Transparency
    else if kw == "ni" then OpticalDensity
    else Illumination
  }

  /** A command that sets a value parsed from its arguments; None when the
      value does not parse.  Otherwise the attribute the command names gets
      the parsed value and every other attribute, the name included, stays. */
  function SetValue(c: Material, kw: string, args: string, toFloat: FloatParser): (r: Option<Material>)
    requires IsValueCommand(kw)
    ensures r.None? <==>
      || (kw in {"ka", "kd", "ks"} && ParseColor(args, toFloat).None?)
      || (kw in {"ns", "d", "tr", "ni"} && toFloat(args).None?)
      || (kw == "illum" && ParseInt(args).None?)
    ensures r.Some? ==> r.value.name == c.name
    ensures r.Some? ==> forall s :: MapAt(r.value, s) == MapAt(c, s)
    ensures r.Some? ==> forall g :: g != ValueField(kw) ==> Agrees(r.value, c, g)
    ensures r.Some? && kw == "ka" ==> r.value.ambient == ParseColor(args, toFloat)
    ensures r.Some? && kw == "kd" ==> r.value.diffuse == ParseColor(args, toFloat)
    ensures r.Some? && kw == "ks" ==> r.value.specular == ParseColor(args, toFloat)
    ensures r.Some? && kw == "ns" ==> r.value.shininess == toFloat(args)
    ensures r.Some? && kw == "d" ==> Some(r.value.opacity) == toFloat(args)
    ensures r.Some? && kw == "tr" ==> Some(r.value.transparency) == toFloat(args)
    ensures r.Some? && kw == "ni" ==> r.value.opticalDensity == toFloat(args)
    ensures r.Some? && kw == "illum" ==> r.value.illumination == ParseInt(args)
  {
    if kw == "ka" then
      match ParseColor(args, toFloat) case None => None case Some(x) => Some(c.(ambient := Some(x)))
    else if kw == "kd" then
      match ParseColor(args, toFloat) case None => None case Some(x) => Some(c.(diffuse := Some(x)))
    else if kw == "ks" then
      match ParseColor(args, toFloat) case None => None case Some(x) => Some(c.(specular := Some(x)))
    else if kw == "ns" then
      match toFloat(args) case None => None case Some(x) => Some(c.(shininess := Some(x)))
    else if kw == "d" then
      match toFloat(args) case None => None case Some(x) => Some(c.(opacity := x))
    else if kw == "tr" then
      match toFloat(args) case None => None case Some(x) => Some(c.(transparency := x))
    else if kw == "ni" then
      match toFloat(args) case None => None case Some(x) => Some(c.(opticalDensity := Some(x)))
    else
      match ParseInt(args) case None => None case Some(n) => Some(c.(illumination := Some(n)))
  }

  /** A command that names a texture file; it cannot fail. */
  function SetTexture(c: Material, s: MapSlot, args: string): (r: Material)
    ensures Properties(r) == Properties(c)
    ensures forall t :: MapAt(r, t) == if t == s then Some(ParseTexturePath(args)) else MapAt(c, t)
  {
    WithMapAt(c, s, Some(ParseTexturePath(args)));
    WithMap(c, s, Some(ParseTexturePath(args)))
  }

  /** One property command applied to the current material, in the order
      parse_string tests the commands; None when the value does not parse
      (the line is then skipped).  Unknown commands leave the material as
      it is. */
  function SetProperty(c: Material, kw: string, args: string, toFloat: FloatParser): (r: Option<Material>)
    ensures r.Some? ==> r.value.name == c.name
    ensures r.None? ==> IsValueCommand(kw)
    ensures !IsValueCommand(kw) && SlotOf(kw).None? ==> r == Some(c)
  {
    if IsValueCommand(kw) then SetValue(c, kw, args, toFloat)
    else
      match SlotOf(kw)
      case Some(s) => Some(SetTexture(c, s, args))
      case None => Some(c)
  }

  /** The table being read and the current material (None until the first
      `newmtl`).  The current material is the object the table holds under
      its name; here it is a value, written back after every change. */
  datatype MtlState = MtlState(table: Table, current: Option<Material>)

  const StartState := MtlState(EmptyTable, None)

  /** The current material is the one the table holds under its name. */
  predicate Linked(st: MtlState) {
    st.current.Some? ==>
      st.current.value.name in st.table.materials && st.table.materials[st.current.value.name] == st.current.value
  }

  /** One classified line of parse_string.  `newmtl X` installs a fresh
      material under X (the arguments carry no surrounding whitespace, so
      args.strip() is args); any other command before the first `newmtl`
      is ignored; a property command changes the current material. */
  function ReadCommand(st: MtlState, l: Line, toFloat: FloatParser): MtlState {
    if !l.Statement? then st
    else if l.keyword == "newmtl" then
      var m := NewMaterial(l.args);
      MtlState(Put(st.table, l.args, m), Some(m))
    else
      match st.current
      case None => st
      case Some(c) =>
        match SetProperty(c, l.keyword, l.args, toFloat)
        case None => st
        case Some(d) => MtlState(Put(st.table, d.name, d), Some(d))
  }

  function ReadLine(toFloat: FloatParser): (MtlState, string) -> MtlState {
    (st: MtlState, raw: string) => ReadCommand(st, Classify(raw), toFloat)
  }

  function ReadLines(st: MtlState, lines: seq<string>, toFloat: FloatParser): MtlState {
    Fold(st, lines, ReadLine(toFloat))
  }

  /** parse_string: the lines of mtl_content.splitlines(), from an empty
      table. */
  function ParseMtl(content: string, toFloat: FloatParser): Table {
    ReadLines(StartState, SplitLines(content), toFloat).table
  }

  // ---------------------------------------------------------------- what reading promises

  /** Every entry of the table is stored under its own name. */
  predicate Keyed(t: Table) {
    forall k :: k in t.materials ==> t.materials[k].name == k
  }

  /** What holds of the reading state between lines. */
  predicate Reading(st: MtlState) {
    ValidTable(st.table) && Keyed(st.table) && Linked(st)
  }

  lemma ReadCommandReading(st: MtlState, l: Line, toFloat: FloatParser)
    requires Reading(st)
    ensures Reading(ReadCommand(st, l, toFloat))
  {
  }

  /** parse_string builds a dict whose keys are the names of the materials
      stored under them, each key once. */
  lemma ParseMtlValid(content: string, toFloat: FloatParser)
    ensures ValidTable(ParseMtl(content, toFloat)) && Keyed(ParseMtl(content, toFloat))
  {
    var step := ReadLine(toFloat);
    forall s, x | Reading(s) ensures Reading(step(s, x)) {
      ReadCommandReading(s, Classify(x), toFloat);
    }
    FoldPreserves(StartState, SplitLines(content), step, Reading);
  }

  /** A line that opens a material. */
  predicate IsNewmtl(raw: string) {
    var l := Classify(raw);
    l.Statement? && l.keyword == "newmtl"
  }

  /** Commands before the first `newmtl` are ignored. */
  lemma ReadBeforeNewmtl(lines: seq<string>, toFloat: FloatParser)
    requires forall k :: 0 <= k < |lines| ==> !IsNewmtl(lines[k])
    ensures ReadLines(StartState, lines, toFloat) == StartState
  {
    var step := ReadLine(toFloat);
    var inv := (st: MtlState) => st == StartState;
    var good := (raw: string) => !IsNewmtl(raw);
    FoldPreservesOn(StartState, lines, step, inv, good);
  }

  /** `newmtl X` installs a fresh material under X as the current one;
      a name seen before keeps its place in the table and loses what it
      had. */
  lemma ReadNewmtl(st: MtlState, l: Line, toFloat: FloatParser)
    requires l.Statement? && l.keyword == "newmtl"
    ensures var r := ReadCommand(st, l, toFloat);
      && r.current == Some(NewMaterial(l.args))
      && r.table.materials == st.table.materials[l.args := NewMaterial(l.args)]
      && r.table.order == if l.args in st.table.materials then st.table.order else st.table.order + [l.args]
  {
  }

  /** Any other line changes the current material and nothing else: the
      other entries, the order of the table and which material is current
      stay as they were. */
  lemma ReadOnlyCurrent(st: MtlState, l: Line, toFloat: FloatParser)
    requires Reading(st)
    requires !(l.Statement? && l.keyword == "newmtl")
    ensures var r := ReadCommand(st, l, toFloat);
      && r.table.order == st.table.order
      && r.table.materials.Keys == st.table.materials.Keys
      && (r.current.Some? <==> st.current.Some?)
      && (r.current.Some? ==> r.current.value.name == st.current.value.name)
      && forall k :: k in st.table.materials && (st.current.None? || k != st.current.value.name) ==>
           r.table.materials[k] == st.table.materials[k]
  {
  }

  /** A value that does not parse skips its whole line: no attribute of the
      material changes, however many of the values did parse. */
  lemma ReadFailureSkips(st: MtlState, l: Line, toFloat: FloatParser)
    requires l.Statement? && l.keyword != "newmtl" && st.current.Some?
    requires SetProperty(st.current.value, l.keyword, l.args, toFloat).None?
    ensures ReadCommand(st, l, toFloat) == st
  {
  }

  /** Commands are compared without regard to case. */
  lemma ReadIgnoresCase(st: MtlState, kw1: string, kw2: string, args: string, toFloat: FloatParser)
    requires kw1 != [] && NoSpace(kw1) && kw1[0] != '#'
    requires kw2 != [] && NoSpace(kw2) && kw2[0] != '#'
    requires IsStripped(args) && Lower(kw1) == Lower(kw2)
    ensures ReadLine(toFloat)(st, kw1 + " " + args) == ReadLine(toFloat)(st, kw2 + " " + args)
  {
    ClassifyStatement(kw1, args);
    ClassifyStatement(kw2, args);
    var l1 := Classify(kw1 + " " + args);
    var l2 := Classify(kw2 + " " + args);
    assert l1.keyword == l2.keyword && l1.args == l2.args;
    ReadCommandText(st, l1, l2, toFloat);
  }

  /** Reading a command does not look at the text of its line. */
  lemma ReadCommandText(st: MtlState, l1: Line, l2: Line, toFloat: FloatParser)
    requires l1.Statement? && l2.Statement? && l1.keyword == l2.keyword && l1.args == l2.args
    ensures ReadCommand(st, l1, toFloat) == ReadCommand(st, l2, toFloat)
  {
  }

  /** `bump` is another name for `map_Bump`. */
  lemma BumpIsMapBump(c: Material, args: string, toFloat: FloatParser)
    ensures SetProperty(c, "bump", args, toFloat) == SetProperty(c, "map_bump", args, toFloat)
  {
  }

  // ================================================================ texture rewriting

  /** update_texture_paths on one attribute: a value that names a file and
      is a key of the mapping is replaced. */
  function RemapValue(v: Option<string>, mapping: map<string, string>): Option<string> {
    if Named(v) && v.value in mapping then Some(mapping[v.value]) else v
  }

  function RemapStep(mapping: map<string, string>): (Material, MapSlot) -> Material {
    (c: Material, s: MapSlot) => WithMap(c, s, RemapValue(MapAt(c, s), mapping))
  }

  /** The attribute loop of update_texture_paths on one material. */
  function RemapMaterial(m: Material, mapping: map<string, string>): Material {
    Fold(m, MapSlots, RemapStep(mapping))
  }

  /** The slots of MapSlots before position i. */
  lemma {:induction false} RemapPrefix(m: Material, mapping: map<string, string>, i: nat)
    requires i <= |MapSlots|
    ensures var c := Fold(m, MapSlots[..i], RemapStep(mapping));
      && Properties(c) == Properties(m)
      && forall s :: MapAt(c, s) == if s in MapSlots[..i] then RemapValue(MapAt(m, s), mapping) else MapAt(m, s)
  {
    if i > 0 {
      RemapPrefix(m, mapping, i - 1);
      var step := RemapStep(mapping);
      PrefixSnoc(MapSlots, i - 1);
      FoldSnoc(m, MapSlots[..i - 1], MapSlots[i - 1], step);
      var c := Fold(m, MapSlots[..i - 1], step);
      WithMapAt(c, MapSlots[i - 1], RemapValue(MapAt(c, MapSlots[i - 1]), mapping));
    }
  }

  /** Each texture attribute is rewritten on its own; nothing else changes. */
  lemma RemapMaterialSpec(m: Material, mapping: map<string, string>)
    ensures Properties(RemapMaterial(m, mapping)) == Properties(m)
    ensures forall s :: MapAt(RemapMaterial(m, mapping), s) == RemapValue(MapAt(m, s), mapping)
  {
    RemapPrefix(m, mapping, |MapSlots|);
    PrefixAll(MapSlots);
    forall s ensures s in MapSlots { AllSlots(s); }
  }

  /** update_texture_paths: every material of the table rewritten. */
  function RemapTable(t: Table, mapping: map<string, string>): (r: Table)
    ensures r.order == t.order && r.materials.Keys == t.materials.Keys
    ensures ValidTable(t) ==> ValidTable(r)
    ensures Keyed(t) ==> Keyed(r)
  {
    var r := Table(t.order, map k | k in t.materials :: RemapMaterial(t.materials[k], mapping));
    forall k | k in t.materials ensures r.materials[k].name == t.materials[k].name {
      RemapMaterialSpec(t.materials[k], mapping);
    }
    r
  }

  /** What the mapping makes of a file name. */
  function Mapped(x: string, mapping: map<string, string>): string {
    if x in mapping then mapping[x] else x
  }

  /** The files one material names after rewriting. */
  lemma RemapMaterialPaths(m: Material, mapping: map<string, string>, y: string)
    ensures y in TexturePaths(RemapMaterial(m, mapping)) <==>
      y != "" && exists x :: x in TexturePaths(m) && y == Mapped(x, mapping)
  {
    var r := RemapMaterial(m, mapping);
    RemapMaterialSpec(m, mapping);
    if y in TexturePaths(r) {
      var s :| MapAt(r, s) == Some(y) && y != "";
      var v := MapAt(m, s);
      assert v.value in TexturePaths(m);
      assert y == Mapped(v.value, mapping);
    }
    if y != "" && exists x :: x in TexturePaths(m) && y == Mapped(x, mapping) {
      var x :| x in TexturePaths(m) && y == Mapped(x, mapping);
      var s :| MapAt(m, s) == Some(x) && x != "";
      assert MapAt(r, s) == Some(y);
    }
  }

  /** The files named after rewriting: each file named before, replaced by
      its mapping when it has one, as long as the result is not empty. */
  lemma RemapPaths(t: Table, mapping: map<string, string>, y: string)
    ensures y in AllTexturePaths(RemapTable(t, mapping)) <==>
      y != "" && exists x :: x in AllTexturePaths(t) && y == Mapped(x, mapping)
  {
    var r := RemapTable(t, mapping);
    if y in AllTexturePaths(r) {
      var k :| k in r.materials && y in TexturePaths(r.materials[k]);
      RemapMaterialPaths(t.materials[k], mapping, y);
      var x :| x in TexturePaths(t.materials[k]) && y == Mapped(x, mapping);
      assert x in AllTexturePaths(t);
    }
    if y != "" && exists x :: x in AllTexturePaths(t) && y == Mapped(x, mapping) {
      var x :| x in AllTexturePaths(t) && y == Mapped(x, mapping);
      var k :| k in t.materials && x in TexturePaths(t.materials[k]);
      RemapMaterialPaths(t.materials[k], mapping, y);
      assert y in TexturePaths(r.materials[k]);
    }
  }

  /** An empty mapping changes nothing. */
  lemma RemapEmpty(t: Table)
    ensures RemapTable(t, map[]) == t
  {
    forall k | k in t.materials ensures RemapMaterial(t.materials[k], map[]) == t.materials[k] {
      var m := t.materials[k];
      RemapMaterialSpec(m, map[]);
      MaterialEq(RemapMaterial(m, map[]), m);
    }
  }

  // ================================================================ writing

  /** The attributes to_mtl_string writes, in the order it writes them. */
  datatype Field = Ambient | Diffuse | Specular | Shininess | Opacity | Transparency | OpticalDensity | Illumination
                 | Texture(slot: MapSlot)

  const Fields: seq<Field> := [Ambient, Diffuse, Specular, Shininess, Opacity, Transparency, OpticalDensity, Illumination,
    Texture(MapDiffuse), Texture(MapAmbient), Texture(MapSpecular), Texture(MapShininess),
    Texture(MapBump), Texture(MapDisplacement), Texture(MapAlpha)]

  function MapKeyword(s: MapSlot): string {
    match s
    case MapDiffuse => "map_Kd"
    case MapAmbient => "map_Ka"
    case MapSpecular => "map_Ks"
    case MapShininess => "map_Ns"
    case MapBump => "map_Bump"
    case MapDisplacement => "disp"
    case MapAlpha => "map_d"
  }

  function Keyword(f: Field): string {
    match f
    case Ambient => "Ka"
    case Diffuse => "Kd"
    case Specular => "Ks"
    case Shininess => "Ns"
    case Opacity => "d"
    case Transparency => "Tr"
    case OpticalDensity => "Ni"
    case Illumination => "illum"
    case Texture(s) => MapKeyword(s)
  }

  /** Whether to_mtl_string writes the attribute: a colour, Ns, Ni and
      illum when set, d and Tr when they differ from 1.0 and 0.0, a texture
      when it is set and not empty. */
  predicate Present(m: Material, f: Field) {
    match f
    case Ambient => m.ambient.Some?
    case Diffuse => m.diffuse.Some?
    case Specular => m.specular.Some?
    case Shininess => m.shininess.Some?
    case Opacity => m.opacity != 1.0
    case Transparency => m.transparency != 0.0
    case OpticalDensity => m.opticalDensity.Some?
    case Illumination => m.illumination.Some?
    case Texture(s) => Named(MapAt(m, s))
  }

  /** ' '.join(map(str, colour)) */
  function ColorText(c: Color, fmt: FloatWriter): string {
    fmt(c.r) + " " + fmt(c.g) + " " + fmt(c.b)
  }

  function OptText<X>(v: Option<X>, text: X -> string): string {
    match v case Some(x) => text(x) case None => ""
  }

  /** The value written after the keyword. */
  function FieldText(m: Material, f: Field, fmt: FloatWriter): string {
    match f
    case Ambient => OptText(m.ambient, (c: Color) => ColorText(c, fmt))
    case Diffuse => OptText(m.diffuse, (c: Color) => ColorText(c, fmt))
    case Specular => OptText(m.specular, (c: Color) => ColorText(c, fmt))
    case Shininess => OptText(m.shininess, fmt)
    case Opacity => fmt(m.opacity)
    case Transparency => fmt(m.transparency)
    case OpticalDensity => OptText(m.opticalDensity, fmt)
    case Illumination => OptText(m.illumination, IntToString)
    case Texture(s) => OptText(MapAt(m, s), (p: string) => p)
  }

  function FieldLine(m: Material, f: Field, fmt: FloatWriter): seq<string> {
    if Present(m, f) then [Keyword(f) + " " + FieldText(m, f, fmt)] else []
  }

  function FieldLines(m: Material, fmt: FloatWriter): Field -> seq<string> {
    (f: Field) => FieldLine(m, f, fmt)
  }

  /** The lines of one material: `newmtl`, its attributes, an empty line. */
  function MaterialLines(m: Material, fmt: FloatWriter): seq<string> {
    ["newmtl " + m.name] + Collect(Fields, FieldLines(m, fmt)) + [""]
  }

  function TableLines(t: Table, fmt: FloatWriter): string -> seq<string> {
    (k: string) => if k in t.materials then MaterialLines(t.materials[k], fmt) else []
  }

  /** to_mtl_string: the materials in the order of the table, their lines
      joined with "\n". */
  function MtlText(t: Table, fmt: FloatWriter): string {
    Join("\n", WrittenLines(t, fmt))
  }

  /** The lines of all the materials, in the order of the table. */
  function WrittenLines(t: Table, fmt: FloatWriter): seq<string> {
    Collect(t.order, TableLines(t, fmt))
  }

  // ---------------------------------------------------------------- reading back what was written

  /** str() writes x as one word that float() reads back as x; Python's
      repr() and float() do this for every finite float. */
  predicate FloatReadsBack(x: real, fmt: FloatWriter, toFloat: FloatParser) {
    toFloat(fmt(x)) == Some(x) && fmt(x) != [] && NoSpace(fmt(x))
  }

  predicate ColorReadsBack(c: Color, fmt: FloatWriter, toFloat: FloatParser) {
    FloatReadsBack(c.r, fmt, toFloat) && FloatReadsBack(c.g, fmt, toFloat) && FloatReadsBack(c.b, fmt, toFloat)
  }

  /** The floats to_mtl_string writes for attribute f of m read back. */
  predicate FieldReadsBack(m: Material, f: Field, fmt: FloatWriter, toFloat: FloatParser) {
    match f
    case Ambient => m.ambient.Some? ==> ColorReadsBack(m.ambient.value, fmt, toFloat)
    case Diffuse => m.diffuse.Some? ==> ColorReadsBack(m.diffuse.value, fmt, toFloat)
    case Specular => m.specular.Some? ==> ColorReadsBack(m.specular.value, fmt, toFloat)
    case Shininess => m.shininess.Some? ==> FloatReadsBack(m.shininess.value, fmt, toFloat)
    case Opacity => m.opacity != 1.0 ==> FloatReadsBack(m.opacity, fmt, toFloat)
    case Transparency => m.transparency != 0.0 ==> FloatReadsBack(m.transparency, fmt, toFloat)
    case OpticalDensity => m.opticalDensity.Some? ==> FloatReadsBack(m.opticalDensity.value, fmt, toFloat)
    case Illumination => true
    case Texture(_) => true
  }

  /** Every float to_mtl_string writes for m reads back. */
  ghost predicate FloatsReadBack(m: Material, fmt: FloatWriter, toFloat: FloatParser) {
    forall f :: FieldReadsBack(m, f, fmt, toFloat)
  }

  /** Every float to_mtl_string writes for t reads back. */
  ghost predicate TableFloatsReadBack(t: Table, fmt: FloatWriter, toFloat: FloatParser) {
    forall k :: k in t.materials ==> FloatsReadBack(t.materials[k], fmt, toFloat)
  }

  /** A texture file name that reads back as itself: one word, not an
      option, without '\\'. */
  predicate PlainPath(p: string) {
    p != [] && NoSpace(p) && !HasPrefix(p, "-") && '\\' !in p
  }

  /** A material whose lines read back as the material. */
  predicate Writable(m: Material) {
    && IsStripped(m.name) && NoLineBreak(m.name)
    && forall s :: MapAt(m, s).Some? ==> PlainPath(MapAt(m, s).value)
  }

  predicate WritableTable(t: Table) {
    ValidTable(t) && Keyed(t) && forall k :: k in t.materials ==> Writable(t.materials[k])
  }

  lemma ParsePlainPath(p: string)
    requires PlainPath(p)
    ensures ParseTexturePath(p) == p
  {
    SplitWord(p, []);
    assert p + [] == p;
    assert Split([]) == [];
    assert LastPlain([p]) == Some(0);
    AbsentNotContained(p, "\\");
  }

  lemma ParseColorText(c: Color, fmt: FloatWriter, toFloat: FloatParser)
    requires ColorReadsBack(c, fmt, toFloat)
    ensures ParseColor(ColorText(c, fmt), toFloat) == Some(c)
  {
    var a, b, d := fmt(c.r), fmt(c.g), fmt(c.b);
    SplitWord(d, []);
    assert d + [] == d;
    assert Split([]) == [];
    SplitWordSpace(b, d);
    SplitWordSpace(a, b + " " + d);
    assert ColorText(c, fmt) == a + " " + (b + " " + d);
  }

  /** The text after a keyword is one stripped run without line breaks. */
  lemma FieldTextShape(m: Material, f: Field, fmt: FloatWriter, toFloat: FloatParser)
    requires FieldReadsBack(m, f, fmt, toFloat) && Writable(m) && Present(m, f)
    ensures IsStripped(FieldText(m, f, fmt)) && NoLineBreak(FieldText(m, f, fmt))
  {
    var t := FieldText(m, f, fmt);
    match f
    case Ambient => ColorShape(m.ambient.value, fmt, toFloat);
    case Diffuse => ColorShape(m.diffuse.value, fmt, toFloat);
    case Specular => ColorShape(m.specular.value, fmt, toFloat);
    case Shininess => assert t == fmt(m.shininess.value); FloatWord(m.shininess.value, fmt, toFloat);
    case Opacity => assert t == fmt(m.opacity); FloatWord(m.opacity, fmt, toFloat);
    case Transparency => assert t == fmt(m.transparency); FloatWord(m.transparency, fmt, toFloat);
    case OpticalDensity => assert t == fmt(m.opticalDensity.value); FloatWord(m.opticalDensity.value, fmt, toFloat);
    case Illumination => assert t == IntToString(m.illumination.value); NoSpaceNoLineBreak(t);
    case Texture(s) => assert t == MapAt(m, s).value; NoSpaceNoLineBreak(t);
  }

  lemma ColorShape(c: Color, fmt: FloatWriter, toFloat: FloatParser)
    requires ColorReadsBack(c, fmt, toFloat)
    ensures IsStripped(ColorText(c, fmt)) && NoLineBreak(ColorText(c, fmt))
  {
    var a, b, d := fmt(c.r), fmt(c.g), fmt(c.b);
    NoSpaceNoLineBreak(a);
    NoSpaceNoLineBreak(b);
    NoSpaceNoLineBreak(d);
    NoLineBreakAppend(a, " ");
    NoLineBreakAppend(a + " ", b);
    NoLineBreakAppend(a + " " + b, " ");
    NoLineBreakAppend(a + " " + b + " ", d);
    var t := ColorText(c, fmt);
    assert t[0] == a[0];
    assert t[|t| - 1] == d[|d| - 1];
  }

  /** lower() of a literal, one character at a time. */
  lemma LowerIs(s: string, t: string)
    requires |s| == |t| && forall i :: 0 <= i < |s| ==> LowerChar(s[i]) == t[i]
    ensures Lower(s) == t
  {
    LowerAt(s);
  }

  /** How the reader sees each keyword the writer uses. */
  lemma KeywordLower(f: Field)
    ensures Lower(Keyword(f)) != "newmtl"
    ensures f.Texture? ==> !IsValueCommand(Lower(Keyword(f))) && SlotOf(Lower(Keyword(f))) == Some(f.slot)
    ensures f == Ambient ==> Lower(Keyword(f)) == "ka"
    ensures f == Diffuse ==> Lower(Keyword(f)) == "kd"
    ensures f == Specular ==> Lower(Keyword(f)) == "ks"
    ensures f == Shininess ==> Lower(Keyword(f)) == "ns"
    ensures f == Opacity ==> Lower(Keyword(f)) == "d"
    ensures f == Transparency ==> Lower(Keyword(f)) == "tr"
    ensures f == OpticalDensity ==> Lower(Keyword(f)) == "ni"
    ensures f == Illumination ==> Lower(Keyword(f)) == "illum"
  {
    match f
    case Ambient => LowerIs("Ka", "ka");
    case Diffuse => LowerIs("Kd", "kd");
    case Specular => LowerIs("Ks", "ks");
    case Shininess => LowerIs("Ns", "ns");
    case Opacity => LowerIs("d", "d");
    case Transparency => LowerIs("Tr", "tr");
    case OpticalDensity => LowerIs("Ni", "ni");
    case Illumination => LowerIs("illum", "illum");
    case Texture(s) => TextureKeywordLower(s);
  }

  lemma TextureKeywordLower(s: MapSlot)
    ensures var kw := Lower(MapKeyword(s)); kw != "newmtl" && !IsValueCommand(kw) && SlotOf(kw) == Some(s)
  {
    TextureCommands();
    match s
    case MapDiffuse => LowerIs("map_Kd", "map_kd"); assert Lower(MapKeyword(s)) == "map_kd";
    case MapAmbient => LowerIs("map_Ka", "map_ka"); assert Lower(MapKeyword(s)) == "map_ka";
    case MapSpecular => LowerIs("map_Ks", "map_ks"); assert Lower(MapKeyword(s)) == "map_ks";
    case MapShininess => LowerIs("map_Ns", "map_ns"); assert Lower(MapKeyword(s)) == "map_ns";
    case MapBump => LowerIs("map_Bump", "map_bump"); assert Lower(MapKeyword(s)) == "map_bump";
    case MapDisplacement => LowerIs("disp", "disp"); assert Lower(MapKeyword(s)) == "disp";
    case MapAlpha => LowerIs("map_d", "map_d"); assert Lower(MapKeyword(s)) == "map_d";
  }

  /** The texture commands and the attribute each one sets. */
  lemma TextureCommands()
    ensures SlotOf("map_kd") == Some(MapDiffuse) && !IsValueCommand("map_kd")
    ensures SlotOf("map_ka") == Some(MapAmbient) && !IsValueCommand("map_ka")
    ensures SlotOf("map_ks") == Some(MapSpecular) && !IsValueCommand("map_ks")
    ensures SlotOf("map_ns") == Some(MapShininess) && !IsValueCommand("map_ns")
    ensures SlotOf("map_bump") == Some(MapBump) && !IsValueCommand("map_bump")
    ensures SlotOf("disp") == Some(MapDisplacement) && !IsValueCommand("disp")
    ensures SlotOf("map_d") == Some(MapAlpha) && !IsValueCommand("map_d")
  {
  }

  lemma FloatWord(x: real, fmt: FloatWriter, toFloat: FloatParser)
    requires FloatReadsBack(x, fmt, toFloat)
    ensures toFloat(fmt(x)) == Some(x)
    ensures fmt(x) != [] && NoSpace(fmt(x)) && NoLineBreak(fmt(x))
  {
    NoSpaceNoLineBreak(fmt(x));
  }

  /** Every keyword the writer uses is one word the reader takes for a
      command. */
  lemma KeywordWord(f: Field)
    ensures Keyword(f) != [] && NoSpace(Keyword(f)) && Keyword(f)[0] != '#'
  {
    assert IsIdentifier(Keyword(f));
    IdentifierNoSpace(Keyword(f));
  }

  /** c holds m's value of attribute f. */
  predicate Agrees(c: Material, m: Material, f: Field) {
    match f
    case Ambient => c.ambient == m.ambient
    case Diffuse => c.diffuse == m.diffuse
    case Specular => c.specular == m.specular
    case Shininess => c.shininess == m.shininess
    case Opacity => c.opacity == m.opacity
    case Transparency => c.transparency == m.transparency
    case OpticalDensity => c.opticalDensity == m.opticalDensity
    case Illumination => c.illumination == m.illumination
    case Texture(s) => MapAt(c, s) == MapAt(m, s)
  }

  /** c with attribute f taken from m. */
  function Assign(c: Material, f: Field, m: Material): (r: Material)
    ensures r.name == c.name && Agrees(r, m, f)
    ensures forall g, y :: g != f ==> (Agrees(r, y, g) <==> Agrees(c, y, g))
  {
    match f
    case Ambient => c.(ambient := m.ambient)
    case Diffuse => c.(diffuse := m.diffuse)
    case Specular => c.(specular := m.specular)
    case Shininess => c.(shininess := m.shininess)
    case Opacity => c.(opacity := m.opacity)
    case Transparency => c.(transparency := m.transparency)
    case OpticalDensity => c.(opticalDensity := m.opticalDensity)
    case Illumination => c.(illumination := m.illumination)
    case Texture(s) => WithMapAt(c, s, MapAt(m, s)); WithMap(c, s, MapAt(m, s))
  }

  lemma AssignSame(c: Material, f: Field, m: Material)
    requires Agrees(c, m, f)
    ensures Assign(c, f, m) == c
  {
    if f.Texture? {
      WithMapAt(c, f.slot, MapAt(c, f.slot));
    }
  }

  /** Materials with the same name that agree on every attribute are equal. */
  lemma AgreeEverywhere(c: Material, m: Material)
    requires c.name == m.name
    requires forall k :: 0 <= k < |Fields| ==> Agrees(c, m, Fields[k])
    ensures c == m
  {
    assert Agrees(c, m, Fields[0]) && Agrees(c, m, Fields[1]) && Agrees(c, m, Fields[2]) && Agrees(c, m, Fields[3]);
    assert Agrees(c, m, Fields[4]) && Agrees(c, m, Fields[5]) && Agrees(c, m, Fields[6]) && Agrees(c, m, Fields[7]);
    forall s ensures MapAt(c, s) == MapAt(m, s) {
      match s
      case MapDiffuse => assert Agrees(c, m, Fields[8]);
      case MapAmbient => assert Agrees(c, m, Fields[9]);
      case MapSpecular => assert Agrees(c, m, Fields[10]);
      case MapShininess => assert Agrees(c, m, Fields[11]);
      case MapBump => assert Agrees(c, m, Fields[12]);
      case MapDisplacement => assert Agrees(c, m, Fields[13]);
      case MapAlpha => assert Agrees(c, m, Fields[14]);
    }
    MaterialEq(c, m);
  }

  lemma FieldsDistinct()
    ensures forall i, j :: 0 <= i < j < |Fields| ==> Fields[i] != Fields[j]
  {
  }

  /** The value to_mtl_string writes for an attribute reads back as it. */
  lemma SetField(c: Material, m: Material, f: Field, fmt: FloatWriter, toFloat: FloatParser)
    requires FieldReadsBack(m, f, fmt, toFloat) && Writable(m) && Present(m, f)
    ensures SetProperty(c, Lower(Keyword(f)), FieldText(m, f, fmt), toFloat) == Some(Assign(c, f, m))
  {
    KeywordLower(f);
    match f
    case Ambient => SetColorField(c, m, f, fmt, toFloat);
    case Diffuse => SetColorField(c, m, f, fmt, toFloat);
    case Specular => SetColorField(c, m, f, fmt, toFloat);
    case Illumination => ParseIntToString(m.illumination.value);
    case Texture(s) =>
      var t := FieldText(m, f, fmt);
      assert t == MapAt(m, s).value;
      ParsePlainPath(t);
      assert SetTexture(c, s, t) == Assign(c, f, m);
    case _ => SetFloatField(c, m, f, fmt, toFloat);
  }

  lemma SetColorField(c: Material, m: Material, f: Field, fmt: FloatWriter, toFloat: FloatParser)
    requires FieldReadsBack(m, f, fmt, toFloat) && Present(m, f)
    requires f == Ambient || f == Diffuse || f == Specular
    ensures SetProperty(c, Lower(Keyword(f)), FieldText(m, f, fmt), toFloat) == Some(Assign(c, f, m))
  {
    KeywordLower(f);
    match f
    case Ambient => ParseColorText(m.ambient.value, fmt, toFloat);
    case Diffuse => ParseColorText(m.diffuse.value, fmt, toFloat);
    case Specular => ParseColorText(m.specular.value, fmt, toFloat);
  }

  lemma SetFloatField(c: Material, m: Material, f: Field, fmt: FloatWriter, toFloat: FloatParser)
    requires FieldReadsBack(m, f, fmt, toFloat) && Present(m, f)
    requires f == Shininess || f == Opacity || f == Transparency || f == OpticalDensity
    ensures SetProperty(c, Lower(Keyword(f)), FieldText(m, f, fmt), toFloat) == Some(Assign(c, f, m))
  {
    KeywordLower(f);
    var t := FieldText(m, f, fmt);
    match f
    case Shininess => assert t == fmt(m.shininess.value); FloatWord(m.shininess.value, fmt, toFloat);
    case Opacity => FloatWord(m.opacity, fmt, toFloat);
    case Transparency => FloatWord(m.transparency, fmt, toFloat);
    case OpticalDensity => assert t == fmt(m.opticalDensity.value); FloatWord(m.opticalDensity.value, fmt, toFloat);
  }

  /** An attribute to_mtl_string leaves out holds its default value. */
  lemma AbsentIsDefault(m: Material, f: Field)
    requires Writable(m) && !Present(m, f)
    ensures Agrees(m, NewMaterial(m.name), f)
  {
  }

  lemma PutTwice(t: Table, name: string, a: Material, b: Material)
    ensures Put(Put(t, name, a), name, b) == Put(t, name, b)
  {
  }

  lemma ReadOne(st: MtlState, raw: string, toFloat: FloatParser)
    ensures ReadLines(st, [raw], toFloat) == ReadCommand(st, Classify(raw), toFloat)
  {
    assert [] + [raw] == [raw];
    FoldSnoc(st, [], raw, ReadLine(toFloat));
  }

  /** Reading the line to_mtl_string writes for an attribute that is still
      at its default takes the attribute over into the current material. */
  lemma ReadField(tab: Table, c: Material, m: Material, f: Field, fmt: FloatWriter, toFloat: FloatParser)
    requires FieldReadsBack(m, f, fmt, toFloat) && Writable(m)
    requires Agrees(c, NewMaterial(m.name), f)
    ensures var d := Assign(c, f, m);
      ReadLines(MtlState(Put(tab, c.name, c), Some(c)), FieldLine(m, f, fmt), toFloat) == MtlState(Put(tab, c.name, d), Some(d))
  {
    var st := MtlState(Put(tab, c.name, c), Some(c));
    var d := Assign(c, f, m);
    if Present(m, f) {
      var text := FieldText(m, f, fmt);
      KeywordWord(f);
      FieldTextShape(m, f, fmt, toFloat);
      ClassifyStatement(Keyword(f), text);
      KeywordLower(f);
      SetField(c, m, f, fmt, toFloat);
      ReadOne(st, Keyword(f) + " " + text, toFloat);
      PutTwice(tab, c.name, c, d);
    } else {
      AbsentIsDefault(m, f);
      assert Agrees(c, m, f);
      AssignSame(c, f, m);
    }
  }

  function CopyStep(m: Material): (Material, Field) -> Material {
    (c: Material, f: Field) => Assign(c, f, m)
  }

  /** After the attributes before position i, those hold m's values and
      the others are still at their defaults. */
  lemma {:induction false} CopyPrefix(m: Material, i: nat)
    requires i <= |Fields|
    ensures var c := Fold(NewMaterial(m.name), Fields[..i], CopyStep(m));
      && c.name == m.name
      && forall k :: 0 <= k < |Fields| ==> Agrees(c, if k < i then m else NewMaterial(m.name), Fields[k])
  {
    var n := NewMaterial(m.name);
    if i > 0 {
      CopyPrefix(m, i - 1);
      PrefixSnoc(Fields, i - 1);
      FoldSnoc(n, Fields[..i - 1], Fields[i - 1], CopyStep(m));
      FieldsDistinct();
    }
  }

  /** The attribute at position i is still at its default after those before it. */
  lemma CopyPrefixNext(m: Material, i: nat)
    requires i < |Fields|
    ensures var c := Fold(NewMaterial(m.name), Fields[..i], CopyStep(m));
      c.name == m.name && Agrees(c, NewMaterial(m.name), Fields[i])
  {
    CopyPrefix(m, i);
  }

  /** The attribute lines of a material read into the material opened by
      its `newmtl`. */
  lemma {:induction false} ReadFields(tab: Table, m: Material, i: nat, fmt: FloatWriter, toFloat: FloatParser)
    requires FloatsReadBack(m, fmt, toFloat) && Writable(m) && i <= |Fields|
    ensures var n := NewMaterial(m.name);
      var c := Fold(n, Fields[..i], CopyStep(m));
      ReadLines(MtlState(Put(tab, m.name, n), Some(n)), Collect(Fields[..i], FieldLines(m, fmt)), toFloat)
        == MtlState(Put(tab, m.name, c), Some(c))
  {
    var n := NewMaterial(m.name);
    var st := MtlState(Put(tab, m.name, n), Some(n));
    if i > 0 {
      ReadFields(tab, m, i - 1, fmt, toFloat);
      var f := Fields[i - 1];
      var before := Fields[..i - 1];
      PrefixSnoc(Fields, i - 1);
      CopyPrefixNext(m, i - 1);
      ReadFieldAfter(tab, m, before, f, fmt, toFloat);
    }
  }

  /** One more attribute line after those read so far. */
  lemma ReadFieldAfter(tab: Table, m: Material, before: seq<Field>, f: Field, fmt: FloatWriter, toFloat: FloatParser)
    requires FloatsReadBack(m, fmt, toFloat) && Writable(m)
    requires var c := Fold(NewMaterial(m.name), before, CopyStep(m));
      c.name == m.name && Agrees(c, NewMaterial(m.name), f)
    requires var n := NewMaterial(m.name); var c := Fold(n, before, CopyStep(m));
      ReadLines(MtlState(Put(tab, m.name, n), Some(n)), Collect(before, FieldLines(m, fmt)), toFloat) ==
      MtlState(Put(tab, m.name, c), Some(c))
    ensures var n := NewMaterial(m.name); var d := Fold(n, before + [f], CopyStep(m));
      ReadLines(MtlState(Put(tab, m.name, n), Some(n)), Collect(before + [f], FieldLines(m, fmt)), toFloat) ==
      MtlState(Put(tab, m.name, d), Some(d))
  {
    var n := NewMaterial(m.name);
    var st := MtlState(Put(tab, m.name, n), Some(n));
    var c := Fold(n, before, CopyStep(m));
    var lines := Collect(before, FieldLines(m, fmt));
    CollectSnoc(before, f, FieldLines(m, fmt));
    FoldSnoc(n, before, f, CopyStep(m));
    FoldAppend(st, lines, FieldLine(m, f, fmt), ReadLine(toFloat));
    ReadField(tab, c, m, f, fmt, toFloat);
  }

  /** Every attribute taken over: the material itself. */
  lemma CopyAll(m: Material)
    ensures Fold(NewMaterial(m.name), Fields, CopyStep(m)) == m
  {
    CopyPrefix(m, |Fields|);
    PrefixAll(Fields);
    AgreeEverywhere(Fold(NewMaterial(m.name), Fields, CopyStep(m)), m);
  }

  lemma ReadNewmtlLine(st: MtlState, name: string, toFloat: FloatParser)
    requires IsStripped(name)
    ensures ReadLines(st, ["newmtl " + name], toFloat) == MtlState(Put(st.table, name, NewMaterial(name)), Some(NewMaterial(name)))
  {
    ClassifyNewmtl(name);
    ReadOne(st, "newmtl " + name, toFloat);
  }

  /** The line `newmtl X` is the command newmtl with arguments X. */
  lemma ClassifyNewmtl(name: string)
    requires IsStripped(name)
    ensures var l := Classify("newmtl " + name); l.Statement? && l.keyword == "newmtl" && l.args == name
  {
    var kw := "newmtl";
    NewmtlWord();
    assert "newmtl " == kw + " ";
    ClassifyStatement(kw, name);
  }

  lemma NewmtlWord()
    ensures var kw := "newmtl"; kw != [] && NoSpace(kw) && kw[0] != '#' && Lower(kw) == kw
  {
    assert IsIdentifier("newmtl");
    IdentifierNoSpace("newmtl");
    LowerIs("newmtl", "newmtl");
  }

  lemma ReadBlankLine(st: MtlState, toFloat: FloatParser)
    ensures ReadLines(st, [""], toFloat) == st
  {
    ReadOne(st, "", toFloat);
  }

  /** The lines of a material read back as that material, put into the
      table under its name and made current, whatever was read before. */
  lemma ReadMaterial(st: MtlState, m: Material, fmt: FloatWriter, toFloat: FloatParser)
    requires FloatsReadBack(m, fmt, toFloat) && Writable(m)
    ensures ReadLines(st, MaterialLines(m, fmt), toFloat) == MtlState(Put(st.table, m.name, m), Some(m))
  {
    var step := ReadLine(toFloat);
    var head := ["newmtl " + m.name];
    var body := Collect(Fields, FieldLines(m, fmt));
    FoldAppend(st, head + body, [""], step);
    FoldAppend(st, head, body, step);
    ReadNewmtlLine(st, m.name, toFloat);
    ReadFields(st.table, m, |Fields|, fmt, toFloat);
    PrefixAll(Fields);
    CopyAll(m);
    ReadBlankLine(MtlState(Put(st.table, m.name, m), Some(m)), toFloat);
  }

  /** The entries of t under the first i names of its order. */
  function TablePrefix(t: Table, i: nat): Table
    requires ValidTable(t) && i <= |t.order|
  {
    Table(t.order[..i], map k | k in t.order[..i] :: t.materials[k])
  }

  lemma TablePrefixSnoc(t: Table, i: nat)
    requires ValidTable(t) && 0 < i <= |t.order|
    ensures TablePrefix(t, i) == Put(TablePrefix(t, i - 1), t.order[i - 1], t.materials[t.order[i - 1]])
  {
    var name := t.order[i - 1];
    var p := TablePrefix(t, i - 1);
    assert t.order[..i] == t.order[..i - 1] + [name];
    assert name !in p.materials by {
      assert forall j :: 0 <= j < i - 1 ==> t.order[..i - 1][j] == t.order[j] != name;
    }
    assert TablePrefix(t, i).materials == p.materials[name := t.materials[name]];
  }

  lemma TablePrefixAll(t: Table)
    requires ValidTable(t)
    ensures TablePrefix(t, |t.order|) == t
  {
    assert t.order[..|t.order|] == t.order;
  }

  /** Reading the materials written before position i gives those
      materials, in the same order. */
  lemma {:induction false} ReadTable(t: Table, i: nat, fmt: FloatWriter, toFloat: FloatParser)
    requires TableFloatsReadBack(t, fmt, toFloat) && WritableTable(t) && i <= |t.order|
    ensures ReadLines(StartState, Collect(t.order[..i], TableLines(t, fmt)), toFloat).table == TablePrefix(t, i)
  {
    if i > 0 {
      ReadTable(t, i - 1, fmt, toFloat);
      var name := t.order[i - 1];
      var m := t.materials[name];
      var before := Collect(t.order[..i - 1], TableLines(t, fmt));
      TableLinesSnoc(t, i, fmt);
      var st := ReadLines(StartState, before, toFloat);
      FoldAppend(StartState, before, MaterialLines(m, fmt), ReadLine(toFloat));
      assert ReadLines(StartState, before + MaterialLines(m, fmt), toFloat) ==
        ReadLines(st, MaterialLines(m, fmt), toFloat);
      ReadMaterial(st, m, fmt, toFloat);
      TablePrefixSnoc(t, i);
    }
  }

  lemma TableLinesSnoc(t: Table, i: nat, fmt: FloatWriter)
    requires ValidTable(t) && 0 < i <= |t.order|
    ensures Collect(t.order[..i], TableLines(t, fmt)) ==
      Collect(t.order[..i - 1], TableLines(t, fmt)) + MaterialLines(t.materials[t.order[i - 1]], fmt)
  {
    var name := t.order[i - 1];
    assert t.order[..i] == t.order[..i - 1] + [name];
    CollectSnoc(t.order[..i - 1], name, TableLines(t, fmt));
  }

  /** A command word, a space and a value form a line without breaks. */
  lemma CommandLineUnbroken(kw: string, text: string)
    requires NoSpace(kw) && NoLineBreak(text)
    ensures NoLineBreak(kw + " " + text)
  {
    NoSpaceNoLineBreak(kw);
    NoLineBreakAppend(kw, " ");
    NoLineBreakAppend(kw + " ", text);
  }

  /** Every line to_mtl_string writes for a material is free of line
      breaks. */
  lemma MaterialLinesUnbroken(m: Material, fmt: FloatWriter, toFloat: FloatParser)
    requires FloatsReadBack(m, fmt, toFloat) && Writable(m)
    ensures forall k :: 0 <= k < |MaterialLines(m, fmt)| ==> NoLineBreak(MaterialLines(m, fmt)[k])
  {
    NewmtlUnbroken(m.name);
    forall k | 0 <= k < |Fields|
      ensures forall j :: 0 <= j < |FieldLines(m, fmt)(Fields[k])| ==> NoLineBreak(FieldLines(m, fmt)(Fields[k])[j])
    {
      FieldLinesUnbroken(m, Fields[k], fmt, toFloat);
    }
    var body := Collect(Fields, FieldLines(m, fmt));
    CollectAll(Fields, FieldLines(m, fmt), (x: string) => NoLineBreak(x));
    var ls := MaterialLines(m, fmt);
    assert ls == ["newmtl " + m.name] + body + [""];
    forall k | 0 <= k < |ls|
      ensures NoLineBreak(ls[k])
    {
      if 0 < k <= |body| {
        assert ls[k] == body[k - 1];
      }
    }
  }

  lemma NewmtlUnbroken(name: string)
    requires NoLineBreak(name)
    ensures NoLineBreak("newmtl " + name)
  {
    NewmtlWord();
    assert "newmtl " + name == "newmtl" + " " + name;
    CommandLineUnbroken("newmtl", name);
  }

  /** The lines written for one attribute are free of line breaks. */
  lemma FieldLinesUnbroken(m: Material, f: Field, fmt: FloatWriter, toFloat: FloatParser)
    requires FieldReadsBack(m, f, fmt, toFloat) && Writable(m)
    ensures forall j :: 0 <= j < |FieldLines(m, fmt)(f)| ==> NoLineBreak(FieldLines(m, fmt)(f)[j])
  {
    if |FieldLines(m, fmt)(f)| > 0 {
      KeywordWord(f);
      FieldTextShape(m, f, fmt, toFloat);
      CommandLineUnbroken(Keyword(f), FieldText(m, f, fmt));
    }
  }

  lemma TableLinesUnbroken(t: Table, fmt: FloatWriter, toFloat: FloatParser)
    requires TableFloatsReadBack(t, fmt, toFloat) && WritableTable(t)
    ensures forall k :: 0 <= k < |WrittenLines(t, fmt)| ==> NoLineBreak(WrittenLines(t, fmt)[k])
  {
    forall k, j | 0 <= k < |t.order| && 0 <= j < |TableLines(t, fmt)(t.order[k])|
      ensures NoLineBreak(TableLines(t, fmt)(t.order[k])[j])
    {
      MaterialLinesUnbroken(t.materials[t.order[k]], fmt, toFloat);
    }
    CollectAll(t.order, TableLines(t, fmt), (x: string) => NoLineBreak(x));
  }

  /** Reading one more line is reading its command. */
  lemma ReadLinesSnoc(st: MtlState, lines: seq<string>, i: nat, toFloat: FloatParser)
    requires i < |lines|
    ensures ReadLines(st, lines[..i + 1], toFloat) == ReadCommand(ReadLines(st, lines[..i], toFloat), Classify(lines[i]), toFloat)
  {
    PrefixSnoc(lines, i);
    FoldSnoc(st, lines[..i], lines[i], ReadLine(toFloat));
  }

  /** An empty line changes nothing. */
  lemma BlankStep(st: MtlState, toFloat: FloatParser)
    ensures ReadLine(toFloat)(st, "") == st
  {
    assert Strip("") == [];
    assert Classify("").Blank?;
  }

  /** Lines joined and split again read as the lines themselves. */
  lemma ReadJoined(st: MtlState, lines: seq<string>, toFloat: FloatParser)
    requires forall k :: 0 <= k < |lines| ==> NoLineBreak(lines[k])
    ensures ReadLines(st, SplitLines(Join("\n", lines)), toFloat) == ReadLines(st, lines, toFloat)
  {
    SplitLinesJoin(lines);
    if lines != [] && lines[|lines| - 1] == "" {
      ReadDropBlank(st, lines, toFloat);
    }
  }

  /** A last empty line changes nothing. */
  lemma ReadDropBlank(st: MtlState, lines: seq<string>, toFloat: FloatParser)
    requires lines != [] && lines[|lines| - 1] == ""
    ensures ReadLines(st, lines, toFloat) == ReadLines(st, lines[..|lines| - 1], toFloat)
  {
    var front := lines[..|lines| - 1];
    assert lines == front + [""];
    FoldSnoc(st, front, "", ReadLine(toFloat));
    BlankStep(Fold(st, front, ReadLine(toFloat)), toFloat);
  }

  /** parse_string reads back what to_mtl_string writes, as long as
      float() reads back each float str() writes for the table, the names
      carry no surrounding whitespace nor line breaks, and each texture is
      a plain file name. */
  lemma ParseWritten(t: Table, fmt: FloatWriter, toFloat: FloatParser)
    requires TableFloatsReadBack(t, fmt, toFloat) && WritableTable(t)
    ensures ParseMtl(MtlText(t, fmt), toFloat) == t
  {
    var lines := WrittenLines(t, fmt);
    TableLinesUnbroken(t, fmt, toFloat);
    ReadJoined(StartState, lines, toFloat);
    ReadTable(t, |t.order|, fmt, toFloat);
    assert t.order[..|t.order|] == t.order;
    TablePrefixAll(t);
  }

  /** A writer and a reader that agree on the floats of a table with a
      colour and an opacity: that table reads back as itself. */
  lemma ParseWrittenExample()
    ensures var fmt := (x: real) => if x == 0.5 then "0.5" else "1.0";
      var toFloat := (w: string) => if w == "0.5" then Some(0.5) else if w == "1.0" then Some(1.0) else None;
      var m := NewMaterial("red").(diffuse := Some(Color(1.0, 0.5, 0.5)), opacity := 0.5);
      var t := Table(["red"], map["red" := m]);
      WritableTable(t) && TableFloatsReadBack(t, fmt, toFloat) && ParseMtl(MtlText(t, fmt), toFloat) == t
  {
    var fmt := (x: real) => if x == 0.5 then "0.5" else "1.0";
    var toFloat := (w: string) => if w == "0.5" then Some(0.5) else if w == "1.0" then Some(1.0) else None;
    var m := NewMaterial("red").(diffuse := Some(Color(1.0, 0.5, 0.5)), opacity := 0.5);
    var t := Table(["red"], map["red" := m]);
    assert FloatReadsBack(0.5, fmt, toFloat) && FloatReadsBack(1.0, fmt, toFloat);
    forall f ensures FieldReadsBack(m, f, fmt, toFloat) {
    }
    assert forall s :: MapAt(m, s) == None;
    assert t.materials.Keys == set k | k in t.order;
    ParseWritten(t, fmt, toFloat);
  }

  // ---------------------------------------------------------------- the layout of a block

  /** A written attribute line starts with "d " only for the opacity, and
      with "Tr " only for the transparency. */
  lemma KeywordPrefix(f: Field, g: Field, t: string)
    requires g == Opacity || g == Transparency
    ensures HasPrefix(Keyword(f) + " " + t, Keyword(g) + " ") <==> f == g
  {
    var s := Keyword(f) + " " + t;
    var key := Keyword(g) + " ";
    if f == g {
      assert s[..|key|] == key;
    } else {
      assert s[0] != key[0] || s[1] != key[1];
      assert |key| <= |s| ==> s[..|key|][0] == s[0] && s[..|key|][1] == s[1];
    }
  }

  /** Some line of ls starts with key. */
  predicate HasKeyLine(ls: seq<string>, key: string) {
    exists i :: 0 <= i < |ls| && HasPrefix(ls[i], key)
  }

  /** The attribute lines hold a line starting with Keyword(g) + " "
      exactly when g is written. */
  lemma FieldLinesPrefix(m: Material, fmt: FloatWriter, g: Field)
    requires g == Opacity || g == Transparency
    ensures HasKeyLine(Collect(Fields, FieldLines(m, fmt)), Keyword(g) + " ") <==> Present(m, g)
  {
    var key := Keyword(g) + " ";
    var h := FieldLines(m, fmt);
    var mid := Collect(Fields, h);
    if Present(m, g) {
      var k := if g == Opacity then 4 else 5;
      assert Fields[k] == g;
      assert Fields == Fields[..k] + [g] + Fields[k + 1..];
      CollectAppend(Fields[..k] + [g], Fields[k + 1..], h);
      CollectSnoc(Fields[..k], g, h);
      var i := |Collect(Fields[..k], h)|;
      assert mid[i] == Keyword(g) + " " + FieldText(m, g, fmt);
      KeywordPrefix(g, g, FieldText(m, g, fmt));
      assert HasPrefix(mid[i], key);
    } else {
      forall k, j | 0 <= k < |Fields| && 0 <= j < |h(Fields[k])|
        ensures !HasPrefix(h(Fields[k])[j], key)
      {
        KeywordPrefix(Fields[k], g, FieldText(m, Fields[k], fmt));
      }
      CollectAll(Fields, h, (x: string) => !HasPrefix(x, key));
    }
  }

  /** The block of a material holds a line starting with Keyword(g) + " "
      exactly when g is written. */
  lemma BlockPrefix(m: Material, fmt: FloatWriter, g: Field)
    requires g == Opacity || g == Transparency
    ensures HasKeyLine(MaterialLines(m, fmt), Keyword(g) + " ") <==> Present(m, g)
  {
    var key := Keyword(g) + " ";
    var ls := MaterialLines(m, fmt);
    var mid := Collect(Fields, FieldLines(m, fmt));
    assert ls == ["newmtl " + m.name] + mid + [""];
    assert !HasPrefix(ls[0], key) by {
      assert ls[0][0] == 'n' && key[0] != 'n';
    }
    assert !HasPrefix(ls[|ls| - 1], key);
    if HasKeyLine(ls, key) {
      var i :| 0 <= i < |ls| && HasPrefix(ls[i], key);
      assert ls[i] == mid[i - 1];
      assert HasKeyLine(mid, key);
    }
    if HasKeyLine(mid, key) {
      var j :| 0 <= j < |mid| && HasPrefix(mid[j], key);
      assert ls[j + 1] == mid[j];
      assert HasKeyLine(ls, key);
    }
    FieldLinesPrefix(m, fmt, g);
  }

  /** The block to_mtl_string writes for a material: `newmtl` and the name
      first, an empty line last, a `d` line exactly when the opacity is not
      1.0 and a `Tr` line exactly when the transparency is not 0.0. */
  lemma MaterialLinesLayout(m: Material, fmt: FloatWriter)
    ensures var ls := MaterialLines(m, fmt);
      && |ls| >= 2 && ls[0] == "newmtl " + m.name && ls[|ls| - 1] == ""
      && (HasKeyLine(ls, "d ") <==> m.opacity != 1.0)
      && (HasKeyLine(ls, "Tr ") <==> m.transparency != 0.0)
  {
    BlockPrefix(m, fmt, Opacity);
    BlockPrefix(m, fmt, Transparency);
    assert Keyword(Opacity) + " " == "d ";
    assert Keyword(Transparency) + " " == "Tr ";
  }

  // ================================================================ the loops of the source

  /** Material.get_texture_paths as written: a loop over the texture
      attributes. */
  method MaterialTexturePaths(m: Material) returns (r: set<string>)
    ensures r == TexturePaths(m)
  {
    r := {};
    for j := 0 to |MapSlots|
      invariant r == set s | s in MapSlots[..j] && Named(MapAt(m, s)) :: MapAt(m, s).value
    {
      var value := MapAt(m, MapSlots[j]);
      PrefixSnoc(MapSlots, j);
      if Named(value) {
        r := r + {value.value};
      }
    }
    PrefixAll(MapSlots);
  }

  /** The attribute loop of update_texture_paths on one material. */
  method RewriteMaterial(m: Material, mapping: map<string, string>) returns (r: Material)
    ensures r == RemapMaterial(m, mapping)
  {
    r := m;
    for j := 0 to |MapSlots|
      invariant r == Fold(m, MapSlots[..j], RemapStep(mapping))
    {
      var slot := MapSlots[j];
      var value := MapAt(r, slot);
      PrefixSnoc(MapSlots, j);
      FoldSnoc(m, MapSlots[..j], slot, RemapStep(mapping));
      WithMapAt(r, slot, value);
      if Named(value) && value.value in mapping {
        r := WithMap(r, slot, Some(mapping[value.value]));
      }
    }
    PrefixAll(MapSlots);
  }

  /** MTLParser: the table of materials the last parse_string built. */
  class MTLParser {
    var order: seq<string>
    var materials: map<string, Material>

    function Contents(): Table
      reads this
    {
      Table(order, materials)
    }

    /** What every method keeps. */
    predicate Valid()
      reads this
    {
      ValidTable(Contents()) && Keyed(Contents())
    }

    constructor()
      ensures Contents() == EmptyTable && Valid()
    {
      order, materials := [], map[];
    }

    /** parse_string: the table is rebuilt from the lines of the content. */
    method ParseString(content: string, toFloat: FloatParser) returns (r: Table)
      modifies this
      ensures Contents() == ParseMtl(content, toFloat) && r == Contents() && Valid()
    {
      order, materials := [], map[];
      var current: Option<Material> := None;
      var lines := SplitLines(content);
      for i := 0 to |lines|
        invariant MtlState(Contents(), current) == ReadLines(StartState, lines[..i], toFloat)
      {
        ghost var before := MtlState(Contents(), current);
        var l := Classify(lines[i]);
        if l.Statement? {
          if l.keyword == "newmtl" {
            var m := NewMaterial(l.args);
            current := Some(m);
            if l.args !in materials {
              order := order + [l.args];
            }
            materials := materials[l.args := m];
          } else if current.Some? {
            var updated := SetProperty(current.value, l.keyword, l.args, toFloat);
            if updated.Some? {
              var d := updated.value;
              current := updated;
              if d.name !in materials {
                order := order + [d.name];
              }
              materials := materials[d.name := d];
            }
          }
        }
        assert MtlState(Contents(), current) == ReadCommand(before, l, toFloat);
        ReadLinesSnoc(StartState, lines, i, toFloat);
      }
      assert lines[..|lines|] == lines;
      ParseMtlValid(content, toFloat);
      r := Contents();
    }

    /** get_all_texture_paths: the union over all the materials. */
    method GetAllTexturePaths() returns (r: set<string>)
      requires Valid()
      ensures r == AllTexturePaths(Contents())
    {
      r := {};
      for i := 0 to |order|
        invariant r == set k, x | k in order[..i] && x in TexturePaths(materials[k]) :: x
      {
        var paths := MaterialTexturePaths(materials[order[i]]);
        assert order[..i + 1] == order[..i] + [order[i]];
        r := r + paths;
      }
      assert order[..|order|] == order;
    }

    /** update_texture_paths: every material rewritten in place. */
    method UpdateTexturePaths(mapping: map<string, string>)
      requires Valid()
      modifies this
      ensures Contents() == RemapTable(old(Contents()), mapping) && Valid()
    {
      ghost var t := Contents();
      for i := 0 to |order|
        invariant order == t.order
        invariant materials == RemapSome(t, mapping, i)
      {
        var name := order[i];
        var m := RewriteMaterial(materials[name], mapping);
        RemapSomeNext(t, mapping, i);
        materials := materials[name := m];
      }
      RemapSomeAll(t, mapping);
    }

    /** to_mtl_string: the lines of every material, joined. */
    method ToMtlString(fmt: FloatWriter) returns (r: string)
      requires Valid()
      ensures r == MtlText(Contents(), fmt)
    {
      ghost var t := Contents();
      var lines: seq<string> := [];
      for i := 0 to |order|
        invariant lines == Collect(order[..i], TableLines(t, fmt))
      {
        WrittenStep(t, fmt, i);
        lines := lines + MaterialLines(materials[order[i]], fmt);
      }
      assert order[..|order|] == order;
      r := Join("\n", lines);
    }
  }

  /** The lines of the first i + 1 materials: those of the first i, then
      those of material i. */
  lemma WrittenStep(t: Table, fmt: FloatWriter, i: nat)
    requires ValidTable(t) && i < |t.order|
    ensures t.order[i] in t.materials
    ensures Collect(t.order[..i + 1], TableLines(t, fmt)) ==
      Collect(t.order[..i], TableLines(t, fmt)) + MaterialLines(t.materials[t.order[i]], fmt)
  {
    assert t.order[..i + 1] == t.order[..i] + [t.order[i]];
    CollectSnoc(t.order[..i], t.order[i], TableLines(t, fmt));
  }

  /** The table of materials with those under the first i names rewritten. */
  function RemapSome(t: Table, mapping: map<string, string>, i: nat): map<string, Material>
    requires i <= |t.order|
  {
    ApplySome(t.materials, t.order, RemapWith(mapping), i)
  }

  function RemapWith(mapping: map<string, string>): Material -> Material {
    m => RemapMaterial(m, mapping)
  }

  /** The values under the first i keys of order with f applied. */
  function ApplySome<V>(ms: map<string, V>, order: seq<string>, f: V -> V, i: nat): map<string, V>
    requires i <= |order|
  {
    map k | k in ms :: if k in order[..i] then f(ms[k]) else ms[k]
  }

  /** Doing key i of an order without repeats that lists the keys. */
  lemma ApplySomeNext<V>(ms: map<string, V>, order: seq<string>, f: V -> V, i: nat)
    requires forall a, b :: 0 <= a < b < |order| ==> order[a] != order[b]
    requires ms.Keys == set k | k in order
    requires i < |order|
    ensures order[i] in ApplySome(ms, order, f, i)
    ensures ApplySome(ms, order, f, i + 1) ==
      ApplySome(ms, order, f, i)[order[i] := f(ApplySome(ms, order, f, i)[order[i]])]
  {
    var name := order[i];
    assert order[..i + 1] == order[..i] + [name];
    assert name !in order[..i] by {
      assert forall j :: 0 <= j < i ==> order[..i][j] == order[j] != name;
    }
  }

  /** Once every key is done, f is applied everywhere. */
  lemma ApplySomeDone<V>(ms: map<string, V>, order: seq<string>, f: V -> V)
    requires ms.Keys == set k | k in order
    ensures ApplySome(ms, order, f, |order|) == map k | k in ms :: f(ms[k])
  {
    assert order[..|order|] == order;
  }

  lemma RemapSomeNext(t: Table, mapping: map<string, string>, i: nat)
    requires ValidTable(t) && i < |t.order|
    ensures t.order[i] in RemapSome(t, mapping, i)
    ensures RemapSome(t, mapping, i + 1) ==
      RemapSome(t, mapping, i)[t.order[i] := RemapMaterial(RemapSome(t, mapping, i)[t.order[i]], mapping)]
  {
    ApplySomeNext(t.materials, t.order, RemapWith(mapping), i);
  }

  lemma RemapSomeAll(t: Table, mapping: map<string, string>)
    requires ValidTable(t)
    ensures Table(t.order, RemapSome(t, mapping, |t.order|)) == RemapTable(t, mapping)
  {
    RemapSomeDone(t, mapping);
  }

  /** Once every name is done, every material is rewritten. */
  lemma RemapSomeDone(t: Table, mapping: map<string, string>)
    requires ValidTable(t)
    ensures RemapSome(t, mapping, |t.order|) == map k | k in t.materials :: RemapMaterial(t.materials[k], mapping)
  {
    ApplySomeDone(t.materials, t.order, RemapWith(mapping));
  }
}
