/**
 * Wavefront OBJ reading and multi-file merging.
 *
 * Several OBJ files describing one model are merged into one: their lines
 * are concatenated, and the indices on every `f` line of a file are shifted
 * by the number of `v`, `vt` and `vn` lines of all the files before it, so
 * that they still name the same vertices, texture coordinates and normals
 * in the merged vertex arrays.
 */
module ObjParser {
  import opened Wrappers
  import opened Text
  import opened LineSyntax
  import opened Seqs

  datatype ObjError =
    | NoObjFiles                        // merging an empty list of files
    | InvalidFaceIndex(component: string)  // int() refused a face index

  /** Numbers of `v`, `vt` and `vn` lines. */
  datatype Counts = Counts(v: nat, vt: nat, vn: nat) {
    function Plus(o: Counts): Counts {
      Counts(v + o.v, vt + o.vt, vn + o.vn)
    }

    predicate Le(o: Counts) {
      v <= o.v && vt <= o.vt && vn <= o.vn
    }
  }

  const Zero := Counts(0, 0, 0)

  /** One input file, by name and content. */
  datatype ObjFile = ObjFile(name: string, lines: seq<string>)

  // ================================================================ faces

  /** The offset that applies to component k of a face vertex `v/vt/vn`. */
  function OffsetAt(offs: Counts, k: nat): nat
    requires k < 3
  {
    if k == 0 then offs.v else if k == 1 then offs.vt else offs.vn
  }

  /** Component k, when present and non-empty, becomes int(component) plus
      the offset, written back in decimal.  The components come from a word
      of str.split(), so they hold no whitespace and int() has nothing to
      strip (Text.ParseIntNoSpace): ParseSigned is int() on them. */
  function AdjustPart(parts: seq<string>, k: nat, offset: nat): Result<seq<string>, ObjError> {
    if k < |parts| && parts[k] != "" then
      match ParseSigned(parts[k])
      case None => Err(InvalidFaceIndex(parts[k]))
      case Some(n) => Ok(parts[k := IntToString(n + offset)])
    else Ok(parts)
  }

  /** Components 0, 1 and 2 of a vertex, in that order. */
  function AdjustParts(p0: seq<string>, offs: Counts): Result<seq<string>, ObjError> {
    var p1 :- AdjustPart(p0, 0, offs.v);
    var p2 :- AdjustPart(p1, 1, offs.vt);
    AdjustPart(p2, 2, offs.vn)
  }

  /** One vertex of a face: `v`, `v/vt`, `v//vn` or `v/vt/vn`. */
  function AdjustVertex(vertex: string, offs: Counts): Result<string, ObjError> {
    var p :- AdjustParts(SplitOn(vertex, '/'), offs);
    Ok(Join("/", p))
  }

  /** AdjustVertex with the offsets fixed, as the vertex loop applies it. */
  function VertexAdjuster(offs: Counts): string -> Result<string, ObjError> {
    v => AdjustVertex(v, offs)
  }

  /** The arguments of an `f` line with every index shifted. */
  function AdjustFace(faceDef: string, offs: Counts): Result<string, ObjError> {
    var vs :- MapAll(Split(faceDef), VertexAdjuster(offs));
    Ok(Join(" ", vs))
  }

  /** _adjust_face_indices: the vertex loop. */
  method AdjustFaceIndices(faceDef: string, vOffset: nat, vtOffset: nat, vnOffset: nat)
    returns (r: Result<string, ObjError>)
    ensures r == AdjustFace(faceDef, Counts(vOffset, vtOffset, vnOffset))
  {
    ghost var offs := Counts(vOffset, vtOffset, vnOffset);
    var vertices := Split(faceDef);
    assert forall v :: VertexAdjuster(offs)(v) == AdjustVertex(v, offs);
    var adjusted: seq<string> := [];
    var i := 0;
    while i < |vertices|
      invariant 0 <= i <= |vertices|
      invariant MapAll(vertices[..i], VertexAdjuster(offs)) == Ok(adjusted)
    {
      var a := AdjustVertexIndices(vertices[i], vOffset, vtOffset, vnOffset);
      if a.Err? {
        MapAllStopsAt(vertices, i, VertexAdjuster(offs));
        return Err(a.error);
      }
      MapAllSnoc(vertices, i, VertexAdjuster(offs), adjusted, a.value);
      adjusted := adjusted + [a.value];
      i := i + 1;
    }
    assert vertices[..i] == vertices;
    return Ok(Join(" ", adjusted));
  }

  /** The body of the vertex loop of _adjust_face_indices: components 0, 1
      and 2 of the vertex are rewritten in place, in that order, and the
      first one that int() refuses ends the call.  The statements of the
      source are this method; the function AdjustVertex is what it is
      proved to compute, and what the lemmas about faces are stated on. */
  method AdjustVertexIndices(vertex: string, vOffset: nat, vtOffset: nat, vnOffset: nat)
    returns (r: Result<string, ObjError>)
    ensures r == AdjustVertex(vertex, Counts(vOffset, vtOffset, vnOffset))
  {
    var parts := SplitOn(vertex, '/');
    var r0 := AdjustComponent(parts, 0, vOffset);
    if r0.Err? {
      return Err(r0.error);
    }
    var r1 := AdjustComponent(r0.value, 1, vtOffset);
    if r1.Err? {
      return Err(r1.error);
    }
    var r2 := AdjustComponent(r1.value, 2, vnOffset);
    if r2.Err? {
      return Err(r2.error);
    }
    return Ok(Join("/", r2.value));
  }

  /** One of the three `if len(parts) > k and parts[k]` blocks, as a
      statement; AdjustPart is the value it is proved to compute. */
  method AdjustComponent(parts: seq<string>, k: nat, offset: nat)
    returns (r: Result<seq<string>, ObjError>)
    ensures r == AdjustPart(parts, k, offset)
  {
    if k < |parts| && parts[k] != "" {
      var n := ParseSigned(parts[k]);
      if n.None? {
        return Err(InvalidFaceIndex(parts[k]));
      }
      return Ok(parts[k := IntToString(n.value + offset)]);
    }
    return Ok(parts);
  }

  /** A component that the offset step leaves alone: empty, or an integer
      already written as str() would write it. */
  predicate Canonical(c: string) {
    c == "" || (ParseSigned(c).Some? && IntToString(ParseSigned(c).value) == c)
  }

  lemma SplitOnNoSpace(s: string, c: char)
    requires NoSpace(s)
    ensures forall k :: 0 <= k < |SplitOn(s, c)| ==> NoSpace(SplitOn(s, c)[k])
    decreases |s|
  {
    if s != [] {
      SplitOnNoSpace(s[1..], c);
    }
  }

  /** What the offset step makes of one component: an empty component
      stays empty, any other is an integer and becomes that integer plus
      the offset, in decimal. */
  predicate Shifted(c: string, d: string, offset: nat) {
    if c == "" then d == ""
    else ParseSigned(c).Some? && d == IntToString(ParseSigned(c).value + offset)
  }

  lemma AdjustPartShape(parts: seq<string>, k: nat, offset: nat)
    requires AdjustPart(parts, k, offset).Ok?
    ensures var q := AdjustPart(parts, k, offset).value;
      if k < |parts| then q == parts[k := q[k]] && Shifted(parts[k], q[k], offset)
      else q == parts
  {
  }

  /** Component k of a vertex is there, is not empty, and int() refuses it. */
  predicate BadComponent(parts: seq<string>, k: nat) {
    k < |parts| && parts[k] != "" && ParseSigned(parts[k]).None?
  }

  predicate HasBadIndex(parts: seq<string>) {
    BadComponent(parts, 0) || BadComponent(parts, 1) || BadComponent(parts, 2)
  }

  /** A vertex fails exactly when one of its first three components is
      non-empty and not an integer; components after the third are never
      looked at. */
  lemma AdjustVertexErr(vertex: string, offs: Counts)
    ensures AdjustVertex(vertex, offs).Err? <==> HasBadIndex(SplitOn(vertex, '/'))
  {
    var p0 := SplitOn(vertex, '/');
    var r1 := AdjustPart(p0, 0, offs.v);
    if r1.Ok? {
      AdjustPartShape(p0, 0, offs.v);
      var p1 := r1.value;
      assert BadComponent(p1, 1) == BadComponent(p0, 1);
      var r2 := AdjustPart(p1, 1, offs.vt);
      if r2.Ok? {
        AdjustPartShape(p1, 1, offs.vt);
        var p2 := r2.value;
        assert BadComponent(p2, 2) == BadComponent(p0, 2);
      }
    }
  }

  /** The components of a vertex that does not fail: as many as before,
      each of the first three shifted by its own offset (whatever the sign
      of the index), and any later component kept. */
  lemma AdjustPartsShape(p0: seq<string>, offs: Counts)
    requires AdjustParts(p0, offs).Ok?
    ensures var out := AdjustParts(p0, offs).value;
      && |out| == |p0|
      && (|p0| > 0 ==> Shifted(p0[0], out[0], offs.v))
      && (|p0| > 1 ==> Shifted(p0[1], out[1], offs.vt))
      && (|p0| > 2 ==> Shifted(p0[2], out[2], offs.vn))
      && (forall k :: 3 <= k < |p0| ==> out[k] == p0[k])
  {
    var p1 := AdjustPart(p0, 0, offs.v).value;
    AdjustPartShape(p0, 0, offs.v);
    var p2 := AdjustPart(p1, 1, offs.vt).value;
    AdjustPartShape(p1, 1, offs.vt);
    var p3 := AdjustPart(p2, 2, offs.vn).value;
    AdjustPartShape(p2, 2, offs.vn);
  }

  /** A shifted component has no slash and no whitespace when the original
      had none. */
  lemma ShiftedWord(c: string, d: string, offset: nat)
    requires Shifted(c, d, offset)
    ensures '/' !in c ==> '/' !in d
    ensures NoSpace(c) ==> NoSpace(d)
    ensures c != "" ==> d != ""
  {
  }

  /** The same, read back from the vertex text: the slashes of the vertex
      are kept, so splitting the result at '/' gives the new components. */
  lemma AdjustVertexOk(vertex: string, offs: Counts)
    requires AdjustVertex(vertex, offs).Ok?
    ensures var parts := SplitOn(vertex, '/');
      var out := SplitOn(AdjustVertex(vertex, offs).value, '/');
      && |out| == |parts|
      && (|parts| > 0 ==> Shifted(parts[0], out[0], offs.v))
      && (|parts| > 1 ==> Shifted(parts[1], out[1], offs.vt))
      && (|parts| > 2 ==> Shifted(parts[2], out[2], offs.vn))
      && (forall k :: 3 <= k < |parts| ==> out[k] == parts[k])
  {
    var p0 := SplitOn(vertex, '/');
    var p3 := AdjustParts(p0, offs).value;
    AdjustPartsShape(p0, offs);
    forall k | 0 <= k < |p3|
      ensures '/' !in p3[k]
    {
      if k < 3 {
        ShiftedWord(p0[k], p3[k], OffsetAt(offs, k));
      }
    }
    SplitOnJoin(p3, '/');
  }

  lemma JoinNonEmpty(sep: string, parts: seq<string>)
    requires sep != [] && |parts| >= 1
    requires |parts| == 1 ==> parts[0] != []
    ensures Join(sep, parts) != []
  {
  }

  /** Shifting the components of a vertex puts no whitespace in them. */
  lemma AdjustPartsNoSpace(p0: seq<string>, offs: Counts)
    requires AdjustParts(p0, offs).Ok?
    requires forall k :: 0 <= k < |p0| ==> NoSpace(p0[k])
    ensures var p3 := AdjustParts(p0, offs).value;
      && |p3| == |p0|
      && (forall k :: 0 <= k < |p3| ==> NoSpace(p3[k]))
      && (|p0| > 0 && p0[0] != [] ==> p3[0] != [])
  {
    var p3 := AdjustParts(p0, offs).value;
    AdjustPartsShape(p0, offs);
    forall k | 0 <= k < |p3|
      ensures NoSpace(p3[k]) && (k == 0 && p0[0] != [] ==> p3[0] != [])
    {
      if k == 0 {
        ShiftedWord(p0[0], p3[0], offs.v);
      } else if k == 1 {
        ShiftedWord(p0[1], p3[1], offs.vt);
      } else if k == 2 {
        ShiftedWord(p0[2], p3[2], offs.vn);
      }
    }
  }

  /** An adjusted vertex is again a single non-empty word. */
  lemma AdjustVertexWord(vertex: string, offs: Counts)
    requires vertex != [] && NoSpace(vertex)
    requires AdjustVertex(vertex, offs).Ok?
    ensures AdjustVertex(vertex, offs).value != []
    ensures NoSpace(AdjustVertex(vertex, offs).value)
  {
    var p0 := SplitOn(vertex, '/');
    SplitOnNoSpace(vertex, '/');
    JoinSplitOn(vertex, '/');
    var p3 := AdjustParts(p0, offs).value;
    AdjustPartsNoSpace(p0, offs);
    assert NoSpace("/");
    JoinNoSpace("/", p3);
    JoinNonEmpty("/", p3);
  }

  lemma JoinStripped(ws: seq<string>)
    requires forall k :: 0 <= k < |ws| ==> ws[k] != [] && NoSpace(ws[k])
    ensures IsStripped(Join(" ", ws))
  {
    if ws != [] {
      JoinEnds(" ", ws);
    }
  }

  /** A join of non-empty words starts with the first word's first
      character and ends with the last word's last one. */
  lemma {:induction false} JoinEnds(sep: string, ws: seq<string>)
    requires ws != [] && forall k :: 0 <= k < |ws| ==> ws[k] != []
    ensures var j := Join(sep, ws); var last := ws[|ws| - 1];
      j != [] && j[0] == ws[0][0] && j[|j| - 1] == last[|last| - 1]
  {
    if |ws| > 1 {
      var rest := ws[1..];
      JoinEnds(sep, rest);
      var r := Join(sep, rest);
      assert Join(sep, ws) == (ws[0] + sep) + r;
      assert rest[|rest| - 1] == ws[|ws| - 1];
    }
  }

  /** What happens to a face: it fails exactly when one of its vertices
      fails; otherwise the result has as many vertices as the face, and
      vertex k of the result is vertex k of the face adjusted. */
  lemma AdjustFaceSpec(faceDef: string, offs: Counts)
    ensures var vs := Split(faceDef);
      AdjustFace(faceDef, offs).Ok? <==> forall k :: 0 <= k < |vs| ==> AdjustVertex(vs[k], offs).Ok?
    ensures var vs := Split(faceDef);
      AdjustFace(faceDef, offs).Ok? ==>
        var out := Split(AdjustFace(faceDef, offs).value);
        && |out| == |vs|
        && forall k :: 0 <= k < |vs| ==> AdjustVertex(vs[k], offs) == Ok(out[k])
    ensures AdjustFace(faceDef, offs).Ok? ==> IsStripped(AdjustFace(faceDef, offs).value)
  {
    var vs := Split(faceDef);
    var f := VertexAdjuster(offs);
    assert forall v :: f(v) == AdjustVertex(v, offs);
    MapAllOk(vs, f);
    if MapAll(vs, f).Ok? {
      var out := MapAll(vs, f).value;
      MapAllValues(vs, f);
      forall k | 0 <= k < |out|
        ensures out[k] != [] && NoSpace(out[k])
      {
        AdjustVertexWord(vs[k], offs);
      }
      SplitJoin(out);
      JoinStripped(out);
    }
  }

  lemma AdjustPartCanonical(parts: seq<string>, k: nat)
    requires k < |parts| ==> Canonical(parts[k])
    ensures AdjustPart(parts, k, 0) == Ok(parts)
  {
    if k < |parts| && parts[k] != "" {
      assert parts[k := parts[k]] == parts;
    }
  }

  /** With all offsets zero, a vertex whose indices are canonical integers
      comes back unchanged. */
  lemma AdjustVertexZero(vertex: string)
    requires forall k :: 0 <= k < 3 && k < |SplitOn(vertex, '/')| ==> Canonical(SplitOn(vertex, '/')[k])
    ensures AdjustVertex(vertex, Zero) == Ok(vertex)
  {
    var p0 := SplitOn(vertex, '/');
    AdjustPartCanonical(p0, 0);
    AdjustPartCanonical(p0, 1);
    AdjustPartCanonical(p0, 2);
    JoinSplitOn(vertex, '/');
  }

  /** With all offsets zero, a face whose indices are canonical integers
      comes back with its vertices unchanged, separated by single spaces;
      a face already written that way comes back as it is. */
  lemma AdjustFaceZero(faceDef: string)
    requires var vs := Split(faceDef);
      forall j, k :: 0 <= j < |vs| && 0 <= k < 3 && k < |SplitOn(vs[j], '/')| ==>
        Canonical(SplitOn(vs[j], '/')[k])
    ensures AdjustFace(faceDef, Zero) == Ok(Join(" ", Split(faceDef)))
    ensures faceDef == Join(" ", Split(faceDef)) ==> AdjustFace(faceDef, Zero) == Ok(faceDef)
  {
    var vs := Split(faceDef);
    var f := VertexAdjuster(Zero);
    forall j | 0 <= j < |vs|
      ensures f(vs[j]) == Ok(vs[j])
    {
      AdjustVertexZero(vs[j]);
    }
    MapAllOk(vs, f);
    MapAllValues(vs, f);
    assert MapAll(vs, f).value == vs;
  }

  // ================================================================ merging

  /** An inventory of lines: what each line contributes to some list. */
  type Inventory = string -> seq<string>

  /** The text of a `kw` command, if the line is one. */
  function TextIf(kw: string, l: Line): seq<string> {
    if l.Statement? && l.keyword == kw then [l.text] else []
  }

  /** The arguments of a `kw` command, if the line is one. */
  function ArgsIf(kw: string, l: Line): seq<string> {
    if l.Statement? && l.keyword == kw then [l.args] else []
  }

  /** The `kw` lines, stripped. */
  function KindLines(kw: string): Inventory {
    raw => var l := Classify(raw); if l.Statement? && l.keyword == kw then [l.text] else []
  }

  /** The arguments of the `kw` lines. */
  function KindArgs(kw: string): Inventory {
    raw => var l := Classify(raw); if l.Statement? && l.keyword == kw then [l.args] else []
  }

  predicate IsFace(raw: string) {
    Classify(raw).Statement? && Classify(raw).keyword == "f"
  }

  predicate IsMtlLib(raw: string) {
    Classify(raw).Statement? && Classify(raw).keyword == "mtllib"
  }

  /** The line written for an adjusted face. */
  function FaceLine(face: string): string {
    "f " + face
  }

  /** The line whose presence makes a later `mtllib` line a duplicate. */
  function MtlLibLine(lib: string): string {
    "mtllib " + lib
  }


  /** The first pass of parse_files over one file: its numbers of `v`, `vt`
      and `vn` lines. */
  function FileCounts(lines: seq<string>): Counts {
    Counts(|Collect(lines, KindLines("v"))|, |Collect(lines, KindLines("vt"))|,
           |Collect(lines, KindLines("vn"))|)
  }

  /** The running totals moved on by one file's counts. */
  function AddFileCounts(c: Counts, file: ObjFile): Counts {
    c.Plus(FileCounts(file.lines))
  }

  /** The offsets in force for the file after the given ones: the sums of
      their `v`, `vt` and `vn` counts. */
  function TotalCounts(files: seq<ObjFile>): Counts {
    Fold(Zero, files, AddFileCounts)
  }

  function FileLines(file: ObjFile): seq<string> {
    file.lines
  }

  /** The lines of all the files, one file after the other. */
  function AllLines(files: seq<ObjFile>): seq<string> {
    Collect(files, FileLines)
  }

  /** The comment put between files: file i (from 0) is numbered i + 1. */
  function Separator(i: nat, name: string): string {
    "# === File " + IntToString(i + 1) + ": " + name + " ==="
  }

  /** The merged lines so far, the library and material names seen so far,
      and the error that stopped the merge, if one did. */
  datatype MergeState = MergeState(
    out: seq<string>, refs: set<string>, usage: set<string>, failure: Option<ObjError>)

  /** Before a `v`, `o` or `g` line of any file but the first, the
      separator is added unless the last merged line is empty or is that
      separator already (or nothing was merged yet). */
  function WithSeparator(out: seq<string>, i: nat, name: string, l: Line): seq<string> {
    if l.Statement? && i > 0 && l.keyword in {"v", "o", "g"} && |out| > 0 && out[|out| - 1] != ""
       && out[|out| - 1] != Separator(i, name)
    then out + [Separator(i, name)]
    else out
  }

  /** The rewrite of the arguments of an `f` line. */
  type Adjuster = string -> Result<string, ObjError>

  /** _adjust_face_indices with the offsets of one file. */
  function FaceAdjuster(offs: Counts): Adjuster {
    f => AdjustFace(f, offs)
  }

  /** A rewrite whose results carry no surrounding whitespace. */
  ghost predicate StrippedFaces(adjust: Adjuster) {
    forall a :: adjust(a).Ok? ==> IsStripped(adjust(a).value)
  }

  lemma FaceAdjusterStripped(offs: Counts)
    ensures StrippedFaces(FaceAdjuster(offs))
  {
    forall a | FaceAdjuster(offs)(a).Ok?
      ensures IsStripped(FaceAdjuster(offs)(a).value)
    {
      AdjustFaceSpec(a, offs);
    }
  }

  /** The merged lines one classified line contributes after the merged
      lines o: an empty line stays empty, a comment and any command other
      than `f` and `mtllib` are kept as stripped, an `f` line is rewritten
      by adjust (which may fail), and an `mtllib` line is dropped when
      `mtllib <args>` was merged already. */
  function Emitted(l: Line, o: seq<string>, adjust: Adjuster): Result<seq<string>, ObjError> {
    match l
    case Blank => Ok([""])
    case Comment(text) => Ok([text])
    case Statement(text, kw, args) =>
      if kw == "f" then
        var face :- adjust(args);
        Ok([FaceLine(face)])
      else if kw == "mtllib" && MtlLibLine(args) in o then Ok([])
      else Ok([text])
  }

  /** The second pass of parse_files on one line of file i.  The library
      and material names are recorded (the arguments of a command carry no
      surrounding whitespace, so the args.strip() of the source is args
      itself); a failing face rewrite stops the merge. */
  function MergeLine(st: MergeState, i: nat, name: string, adjust: Adjuster, raw: string): MergeState {
    if st.failure.Some? then st
    else
      var l := Classify(raw);
      var o := WithSeparator(st.out, i, name, l);
      var refs := if l.Statement? && l.keyword == "mtllib" then st.refs + {l.args} else st.refs;
      var usage := if l.Statement? && l.keyword == "usemtl" then st.usage + {l.args} else st.usage;
      match Emitted(l, o, adjust)
      case Err(e) => MergeState(o, refs, usage, Some(e))
      case Ok(e) => MergeState(o + e, refs, usage, None)
  }

  /** MergeLine for the lines of file i, as a step to fold. */
  function MergeStep(i: nat, name: string, adjust: Adjuster): (MergeState, string) -> MergeState {
    (st, raw) => MergeLine(st, i, name, adjust, raw)
  }

  /** The second pass over the lines of file i. */
  function MergeLines(st: MergeState, i: nat, name: string, adjust: Adjuster, lines: seq<string>): MergeState {
    Fold(st, lines, MergeStep(i, name, adjust))
  }

  /** What parse_files carries from one file to the next: the merge so far,
      the offsets in force and the position of the next file. */
  datatype FileProgress = FileProgress(merge: MergeState, at: Position)

  /** The offsets in force and the position of the next file. */
  datatype Position = Position(offs: Counts, index: nat)

  /** After one file: the offsets moved on by the file's counts. */
  function Advance(at: Position, file: ObjFile): Position {
    Position(AddFileCounts(at.offs, file), at.index + 1)
  }

  const Start := Position(Zero, 0)

  /** Both passes of parse_files over one file: the second pass with the
      offsets in force, then the offsets advanced. */
  function MergeFile(p: FileProgress, file: ObjFile): FileProgress {
    FileProgress(MergeLines(p.merge, p.at.index, file.name, FaceAdjuster(p.at.offs), file.lines),
                 Advance(p.at, file))
  }

  /** parse_files on the given files, from the given state. */
  function MergeFiles(st: MergeState, files: seq<ObjFile>): FileProgress {
    Fold(FileProgress(st, Start), files, MergeFile)
  }

  // ---------------------------------------------------------------- inventories

  /** An inventory that sees neither empty lines nor separators, and reads a
      line as strip() leaves it. */
  ghost predicate LayoutBlind(g: Inventory) {
    && g("") == []
    && (forall i: nat, name: string {:trigger Separator(i, name)} :: g(Separator(i, name)) == [])
    && (forall raw {:trigger Strip(raw)} :: g(Strip(raw)) == g(raw))
  }

  /** An inventory that sees no `f` line, read or written. */
  ghost predicate FaceBlind(g: Inventory) {
    && (forall raw {:trigger IsFace(raw)} :: IsFace(raw) ==> g(raw) == [])
    && (forall face {:trigger FaceLine(face)} :: IsStripped(face) ==> g(FaceLine(face)) == [])
  }

  /** An inventory that sees no `mtllib` line. */
  ghost predicate MtlLibBlind(g: Inventory) {
    forall raw {:trigger IsMtlLib(raw)} :: IsMtlLib(raw) ==> g(raw) == []
  }

  lemma SeparatorIsComment(i: nat, name: string)
    ensures Classify(Separator(i, name)) == Comment(Separator(i, name))
  {
    var s := Separator(i, name);
    assert s[0] == '#';
    assert s[|s| - 1] == '=';
    ClassifyComment(s);
  }

  /** The `f` line written for an adjusted face reads back as that face. */
  lemma ClassifyFaceLine(face: string)
    requires IsStripped(face)
    ensures Classify(FaceLine(face)) == Statement(if face == [] then "f" else "f " + face, "f", face)
  {
    assert "f" + " " + face == "f " + face;
    assert Lower("f") == [LowerChar('f')] + Lower([]);
    assert NoSpace("f");
    ClassifyStatement("f", face);
  }

  /** The inventory of the `kw` lines, or of their arguments. */
  function Kind(kw: string, args: bool): Inventory {
    if args then KindArgs(kw) else KindLines(kw)
  }

  /** Inventories of commands ignore layout ... */
  lemma KindLayoutBlind(kw: string, args: bool)
    ensures LayoutBlind(Kind(kw, args))
  {
    var g := Kind(kw, args);
    assert Classify("") == Blank;
    forall i: nat, name: string ensures g(Separator(i, name)) == [] {
      SeparatorIsComment(i, name);
    }
    forall raw ensures g(Strip(raw)) == g(raw) {
      ClassifyStrip(raw);
    }
  }

  /** ... and, for commands other than `f`, faces ... */
  lemma KindFaceBlind(kw: string, args: bool)
    requires kw != "f"
    ensures FaceBlind(Kind(kw, args))
  {
    var g := Kind(kw, args);
    forall face | IsStripped(face) ensures g(FaceLine(face)) == [] {
      ClassifyFaceLine(face);
    }
  }

  /** ... and, for commands other than `mtllib`, library lines. */
  lemma KindMtlLibBlind(kw: string, args: bool)
    requires kw != "mtllib"
    ensures MtlLibBlind(Kind(kw, args))
  {
  }

  // ---------------------------------------------------------------- one line

  lemma SeparatorCollect(out: seq<string>, i: nat, name: string, l: Line, g: Inventory)
    requires g(Separator(i, name)) == []
    ensures Collect(WithSeparator(out, i, name, l), g) == Collect(out, g)
  {
    if WithSeparator(out, i, name, l) != out {
      CollectSnoc(out, Separator(i, name), g);
    }
  }

  /** What a merged line adds to an inventory that ignores faces, library
      lines and layout: exactly what the line read adds. */
  lemma MergeLineBlind(st: MergeState, i: nat, name: string, adjust: Adjuster, raw: string, g: Inventory)
    requires st.failure.None? && StrippedFaces(adjust)
    requires LayoutBlind(g) && FaceBlind(g) && MtlLibBlind(g)
    requires MergeLine(st, i, name, adjust, raw).failure.None?
    ensures Collect(MergeLine(st, i, name, adjust, raw).out, g) == Collect(st.out, g) + g(raw)
  {
    var l := Classify(raw);
    var o := WithSeparator(st.out, i, name, l);
    var e := Emitted(l, o, adjust).value;
    assert MergeLine(st, i, name, adjust, raw).out == o + e;
    SeparatorCollect(st.out, i, name, l, g);
    CollectAppend(o, e, g);
    assert g(Strip(raw)) == g(raw);
    if l.Blank? {
      CollectOne("", g);
    } else if l.Comment? || (l.keyword != "f" && !(l.keyword == "mtllib" && MtlLibLine(l.args) in o)) {
      assert e == [l.text];
      CollectOne(l.text, g);
    } else if l.keyword == "f" {
      var face := adjust(l.args).value;
      assert e == [FaceLine(face)];
      assert IsFace(raw);
      CollectOne(FaceLine(face), g);
    } else {
      assert e == [];
      assert IsMtlLib(raw);
    }
  }

  // ---------------------------------------------------------------- folds

  predicate Going(st: MergeState) {
    st.failure.None?
  }

  /** The inventory g of the merged lines of a state. */
  function OutInventory(g: Inventory): MergeState -> seq<string> {
    (st: MergeState) => Collect(st.out, g)
  }

  /** Once a face has failed, nothing more is merged. */
  lemma MergeLinesFailed(st: MergeState, i: nat, name: string, adjust: Adjuster, lines: seq<string>)
    requires st.failure.Some?
    ensures MergeLines(st, i, name, adjust, lines) == st
  {
    FoldPreserves(st, lines, MergeStep(i, name, adjust), s => s == st);
  }

  lemma MergeFilesFailed(st: MergeState, files: seq<ObjFile>)
    requires st.failure.Some?
    ensures MergeFiles(st, files).merge == st
  {
    forall p: FileProgress, file: ObjFile | p.merge == st
      ensures MergeFile(p, file).merge == st
    {
      MergeLinesFailed(st, p.at.index, file.name, FaceAdjuster(p.at.offs), file.lines);
    }
    FoldPreserves(FileProgress(st, Start), files, MergeFile, (p: FileProgress) => p.merge == st);
  }

  lemma BlindLineAdds(i: nat, name: string, adjust: Adjuster, g: Inventory)
    requires StrippedFaces(adjust)
    requires LayoutBlind(g) && FaceBlind(g) && MtlLibBlind(g)
    ensures Accumulates(MergeStep(i, name, adjust), Going, OutInventory(g), g)
  {
    forall st: MergeState, raw: string | Going(MergeStep(i, name, adjust)(st, raw))
      ensures Going(st) && OutInventory(g)(MergeStep(i, name, adjust)(st, raw)) == OutInventory(g)(st) + g(raw)
    {
      MergeLineBlind(st, i, name, adjust, raw, g);
    }
  }

  predicate FileGoing(p: FileProgress) {
    p.merge.failure.None?
  }

  function FileOutInventory(g: Inventory): FileProgress -> seq<string> {
    (p: FileProgress) => Collect(p.merge.out, g)
  }

  function FileInventory(g: Inventory): ObjFile -> seq<string> {
    (file: ObjFile) => Collect(file.lines, g)
  }

  /** What the merge of one more file adds to an inventory that ignores
      faces, library lines and layout: what the file's lines add. */
  lemma BlindFileAdds(g: Inventory)
    requires LayoutBlind(g) && FaceBlind(g) && MtlLibBlind(g)
    ensures Accumulates(MergeFile, FileGoing, FileOutInventory(g), FileInventory(g))
  {
    forall p: FileProgress, file: ObjFile | FileGoing(MergeFile(p, file))
      ensures FileGoing(p)
      ensures FileOutInventory(g)(MergeFile(p, file)) == FileOutInventory(g)(p) + FileInventory(g)(file)
    {
      var adjust := FaceAdjuster(p.at.offs);
      if p.merge.failure.Some? {
        MergeLinesFailed(p.merge, p.at.index, file.name, adjust, file.lines);
      }
      FaceAdjusterStripped(p.at.offs);
      BlindLineAdds(p.at.index, file.name, adjust, g);
      FoldCollects(p.merge, file.lines, MergeStep(p.at.index, file.name, adjust), Going, OutInventory(g), g);
    }
  }

  /** The same for all the files: the merged output holds, for such an
      inventory, what all the files' lines hold. */
  lemma MergeFilesBlind(st: MergeState, files: seq<ObjFile>, g: Inventory)
    requires st.failure.None?
    requires LayoutBlind(g) && FaceBlind(g) && MtlLibBlind(g)
    requires MergeFiles(st, files).merge.failure.None?
    ensures Collect(MergeFiles(st, files).merge.out, g) == Collect(st.out, g) + Collect(AllLines(files), g)
  {
    BlindFileAdds(g);
    FoldCollects(FileProgress(st, Start), files, MergeFile, FileGoing, FileOutInventory(g), FileInventory(g));
    CollectFlatten(files, FileLines, g, FileInventory(g));
  }

  // ---------------------------------------------------------------- offsets

  function PositionOf(p: FileProgress): Position {
    p.at
  }

  lemma {:induction false} PositionsAdvance(files: seq<ObjFile>)
    ensures Fold(Start, files, Advance) == Position(TotalCounts(files), |files|)
    decreases |files|
  {
    if files != [] {
      PositionsAdvance(files[..|files| - 1]);
    }
  }

  /** Before file k is merged, the offsets in force are the totals of the
      files before it (zero for the first file) and k files were merged. */
  lemma MergeFilesPosition(st: MergeState, files: seq<ObjFile>, k: nat)
    requires k <= |files|
    ensures MergeFiles(st, files[..k]).at == Position(TotalCounts(files[..k]), k)
    ensures k == 0 ==> MergeFiles(st, files[..k]).at.offs == Zero
  {
    assert forall p, file :: PositionOf(MergeFile(p, file)) == Advance(PositionOf(p), file);
    FoldProjects(FileProgress(st, Start), files[..k], MergeFile, (p: FileProgress) => true, PositionOf, Advance);
    PositionsAdvance(files[..k]);
  }

  /** The offsets advance after a file by exactly that file's counts. */
  lemma TotalCountsNext(files: seq<ObjFile>, k: nat)
    requires k < |files|
    ensures TotalCounts(files[..k + 1]) == TotalCounts(files[..k]).Plus(FileCounts(files[k].lines))
  {
    assert files[..k + 1] == files[..k] + [files[k]];
    FoldSnoc(Zero, files[..k], files[k], AddFileCounts);
  }

  /** The offsets never decrease from one file to a later one. */
  lemma TotalCountsMonotone(files: seq<ObjFile>, j: nat, k: nat)
    requires j <= k <= |files|
    ensures TotalCounts(files[..j]).Le(TotalCounts(files[..k]))
  {
    var base := TotalCounts(files[..j]);
    assert files[..k] == files[..j] + files[j..k];
    FoldAppend(Zero, files[..j], files[j..k], AddFileCounts);
    FoldPreserves(base, files[j..k], AddFileCounts, (c: Counts) => base.Le(c));
  }

  // ---------------------------------------------------------------- faces of the merge

  /** An `f` line whose arguments the rewrite refuses. */
  predicate FaceFails(adjust: Adjuster, raw: string) {
    IsFace(raw) && adjust(Classify(raw).args).Err?
  }

  /** The rewritten arguments of an `f` line that the rewrite accepts. */
  function AdjustedFaces(adjust: Adjuster): Inventory {
    raw =>
      var l := Classify(raw);
      if l.Statement? && l.keyword == "f" && adjust(l.args).Ok? then [adjust(l.args).value] else []
  }

  /** The faces among the lines one line contributes. */
  lemma EmittedFaces(raw: string, o: seq<string>, adjust: Adjuster)
    requires StrippedFaces(adjust)
    requires Emitted(Classify(raw), o, adjust).Ok?
    ensures Collect(Emitted(Classify(raw), o, adjust).value, KindArgs("f")) == AdjustedFaces(adjust)(raw)
  {
    var g := KindArgs("f");
    var l := Classify(raw);
    var e := Emitted(l, o, adjust).value;
    if l.Blank? {
      CollectOne("", g);
    } else if l.Comment? || (l.keyword != "f" && !(l.keyword == "mtllib" && MtlLibLine(l.args) in o)) {
      assert e == [l.text];
      ClassifyStrip(raw);
      CollectOne(l.text, g);
    } else if l.keyword == "f" {
      var face := adjust(l.args).value;
      assert e == [FaceLine(face)];
      ClassifyFaceLine(face);
      CollectOne(FaceLine(face), g);
    } else {
      assert e == [];
    }
  }

  /** One line of the second pass fails exactly on a face the rewrite
      refuses, and otherwise adds to the faces merged so far the rewritten
      face, if the line is one. */
  lemma MergeLineFaces(st: MergeState, i: nat, name: string, adjust: Adjuster, raw: string)
    requires StrippedFaces(adjust)
    ensures Going(MergeLine(st, i, name, adjust, raw)) <==> Going(st) && !FaceFails(adjust, raw)
    ensures Going(MergeLine(st, i, name, adjust, raw)) ==>
      Collect(MergeLine(st, i, name, adjust, raw).out, KindArgs("f")) ==
        Collect(st.out, KindArgs("f")) + AdjustedFaces(adjust)(raw)
  {
    if Going(MergeLine(st, i, name, adjust, raw)) {
      var l := Classify(raw);
      var o := WithSeparator(st.out, i, name, l);
      var e := Emitted(l, o, adjust).value;
      assert MergeLine(st, i, name, adjust, raw).out == o + e;
      SeparatorIsComment(i, name);
      SeparatorCollect(st.out, i, name, l, KindArgs("f"));
      CollectAppend(o, e, KindArgs("f"));
      EmittedFaces(raw, o, adjust);
    }
  }

  function LineFaceFails(adjust: Adjuster): (MergeState, string) -> bool {
    (st: MergeState, raw: string) => FaceFails(adjust, raw)
  }

  /** The second pass over one file fails exactly when one of its faces is
      refused, and otherwise adds the file's rewritten faces, in order. */
  lemma MergeLinesFaces(st: MergeState, i: nat, name: string, adjust: Adjuster, lines: seq<string>)
    requires StrippedFaces(adjust)
    ensures Going(MergeLines(st, i, name, adjust, lines)) <==>
      Going(st) && forall k :: 0 <= k < |lines| ==> !FaceFails(adjust, lines[k])
    ensures Going(MergeLines(st, i, name, adjust, lines)) ==>
      Collect(MergeLines(st, i, name, adjust, lines).out, KindArgs("f")) ==
        Collect(st.out, KindArgs("f")) + Collect(lines, AdjustedFaces(adjust))
  {
    var step := MergeStep(i, name, adjust);
    forall s: MergeState, raw: string
      ensures Going(step(s, raw)) <==> Going(s) && !LineFaceFails(adjust)(s, raw)
      ensures Going(step(s, raw)) ==>
        OutInventory(KindArgs("f"))(step(s, raw)) == OutInventory(KindArgs("f"))(s) + AdjustedFaces(adjust)(raw)
    {
      MergeLineFaces(s, i, name, adjust, raw);
    }
    FoldFails(st, lines, step, Going, LineFaceFails(adjust));
    if Going(MergeLines(st, i, name, adjust, lines)) {
      FoldCollects(st, lines, step, Going, OutInventory(KindArgs("f")), AdjustedFaces(adjust));
    }
  }

  /** The faces of a file rewritten with the offsets in force for it. */
  function FileFaces(p: FileProgress, file: ObjFile): seq<string> {
    Collect(file.lines, AdjustedFaces(FaceAdjuster(p.at.offs)))
  }

  /** A file with a face that the offsets in force for it make fail. */
  predicate FileFails(p: FileProgress, file: ObjFile) {
    exists k :: 0 <= k < |file.lines| && FaceFails(FaceAdjuster(p.at.offs), file.lines[k])
  }

  lemma MergeFileFaces()
    ensures FailsOn(MergeFile, FileGoing, FileFails)
    ensures AccumulatesAlong(MergeFile, FileGoing, FileOutInventory(KindArgs("f")), FileFaces)
  {
    forall p: FileProgress, file: ObjFile
      ensures FileGoing(MergeFile(p, file)) <==> FileGoing(p) && !FileFails(p, file)
      ensures FileGoing(MergeFile(p, file)) ==>
        FileOutInventory(KindArgs("f"))(MergeFile(p, file)) == FileOutInventory(KindArgs("f"))(p) + FileFaces(p, file)
    {
      FaceAdjusterStripped(p.at.offs);
      MergeLinesFaces(p.merge, p.at.index, file.name, FaceAdjuster(p.at.offs), file.lines);
    }
  }

  /** The faces of all the files, each file's rewritten with the totals of
      the files before it. */
  function ShiftedFaces(files: seq<ObjFile>): seq<string> {
    Along(files, ShiftedFile)
  }

  /** The faces of one file rewritten with the totals of the files before it. */
  function ShiftedFile(before: seq<ObjFile>, file: ObjFile): seq<string> {
    Collect(file.lines, AdjustedFaces(FaceAdjuster(TotalCounts(before))))
  }

  lemma TraceShiftedFaces(st: MergeState, files: seq<ObjFile>)
    ensures Trace(FileProgress(st, Start), files, MergeFile, FileFaces) == ShiftedFaces(files)
  {
    forall k | 0 <= k < |files|
      ensures FileFaces(Fold(FileProgress(st, Start), files[..k], MergeFile), files[k]) == ShiftedFile(files[..k], files[k])
    {
      MergeFilesPosition(st, files, k);
    }
    TraceAlong(FileProgress(st, Start), files, MergeFile, FileFaces, ShiftedFile);
  }

  /** Every face of every file is accepted under the offsets of the files
      before it. */
  predicate FacesAccepted(files: seq<ObjFile>) {
    forall k, j :: 0 <= k < |files| && 0 <= j < |files[k].lines| ==>
      !FaceFails(FaceAdjuster(TotalCounts(files[..k])), files[k].lines[j])
  }

  /** The files up to any point keep their faces accepted. */
  lemma FacesAcceptedPrefix(files: seq<ObjFile>, n: nat)
    requires FacesAccepted(files) && n <= |files|
    ensures FacesAccepted(files[..n])
  {
    forall k | 0 <= k < n
      ensures files[..n][..k] == files[..k] && files[..n][k] == files[k]
    {
    }
  }

  /** The merge fails exactly when some face of some file is refused under
      the offsets of that file; otherwise the faces of the merged output are
      the faces of file 0, 1, ... in order, each file's indices shifted by
      the totals of the files before it. */
  lemma MergeFilesFaces(st: MergeState, files: seq<ObjFile>)
    requires Going(st)
    ensures FileGoing(MergeFiles(st, files)) <==> FacesAccepted(files)
    ensures FileGoing(MergeFiles(st, files)) ==>
      Collect(MergeFiles(st, files).merge.out, KindArgs("f")) == Collect(st.out, KindArgs("f")) + ShiftedFaces(files)
  {
    var start := FileProgress(st, Start);
    MergeFileFaces();
    FoldFails(start, files, MergeFile, FileGoing, FileFails);
    forall k | 0 <= k < |files|
      ensures Fold(start, files[..k], MergeFile).at.offs == TotalCounts(files[..k])
    {
      MergeFilesPosition(st, files, k);
    }
    if FileGoing(MergeFiles(st, files)) {
      FoldTraces(start, files, MergeFile, FileGoing, FileOutInventory(KindArgs("f")), FileFaces);
      TraceShiftedFaces(st, files);
    }
  }

  // ---------------------------------------------------------------- other commands

  /** Every command other than `f` and `mtllib` (`v`, `vt`, `vn`, `usemtl`,
      `g`, `o`, ...) reaches the merged output as strip() leaves it, in the
      order of the files and of their lines, and nothing else is such a
      command there. */
  lemma MergeFilesKeeps(st: MergeState, files: seq<ObjFile>, kw: string)
    requires Going(st) && kw != "f" && kw != "mtllib"
    requires FileGoing(MergeFiles(st, files))
    ensures Collect(MergeFiles(st, files).merge.out, KindLines(kw)) ==
      Collect(st.out, KindLines(kw)) + Collect(AllLines(files), KindLines(kw))
  {
    KindLayoutBlind(kw, false);
    KindFaceBlind(kw, false);
    KindMtlLibBlind(kw, false);
    MergeFilesBlind(st, files, Kind(kw, false));
  }

  // ---------------------------------------------------------------- names

  /** The library names (for `mtllib`) or material names (for `usemtl`)
      recorded in a state. */
  function Recorded(kw: string): MergeState -> set<string> {
    (st: MergeState) => if kw == "mtllib" then st.refs else st.usage
  }

  function FileRecorded(kw: string): FileProgress -> set<string> {
    (p: FileProgress) => Recorded(kw)(p.merge)
  }

  function FileArgs(kw: string): ObjFile -> seq<string> {
    (file: ObjFile) => Collect(file.lines, KindArgs(kw))
  }

  lemma MergeLinesRecord(kw: string, i: nat, name: string, adjust: Adjuster)
    requires kw == "mtllib" || kw == "usemtl"
    ensures Gathers(MergeStep(i, name, adjust), Going, Recorded(kw), KindArgs(kw))
  {
    forall st, raw | Going(MergeStep(i, name, adjust)(st, raw))
      ensures Going(st)
      ensures Recorded(kw)(MergeStep(i, name, adjust)(st, raw)) == Recorded(kw)(st) + Elems(KindArgs(kw)(raw))
    {
      MergeLineRecords(kw, st, i, name, adjust, raw);
    }
  }

  /** One line records its own argument when it is an `mtllib` (or
      `usemtl`) line, and nothing otherwise. */
  lemma MergeLineRecords(kw: string, st: MergeState, i: nat, name: string, adjust: Adjuster, raw: string)
    requires kw == "mtllib" || kw == "usemtl"
    requires Going(MergeLine(st, i, name, adjust, raw))
    ensures Going(st)
    ensures Recorded(kw)(MergeLine(st, i, name, adjust, raw)) == Recorded(kw)(st) + Elems(KindArgs(kw)(raw))
  {
    var l := Classify(raw);
    if l.Statement? && l.keyword == kw {
      assert KindArgs(kw)(raw) == [l.args];
      assert Elems([l.args]) == {l.args};
    } else {
      assert KindArgs(kw)(raw) == [];
      assert Elems<string>([]) == {};
    }
  }

  lemma MergeFileRecord(kw: string)
    requires kw == "mtllib" || kw == "usemtl"
    ensures Gathers(MergeFile, FileGoing, FileRecorded(kw), FileArgs(kw))
  {
    forall p: FileProgress, file: ObjFile | FileGoing(MergeFile(p, file))
      ensures FileGoing(p)
      ensures FileRecorded(kw)(MergeFile(p, file)) == FileRecorded(kw)(p) + Elems(FileArgs(kw)(file))
    {
      var adjust := FaceAdjuster(p.at.offs);
      if p.merge.failure.Some? {
        MergeLinesFailed(p.merge, p.at.index, file.name, adjust, file.lines);
      }
      MergeLinesRecord(kw, p.at.index, file.name, adjust);
      FoldGathers(p.merge, file.lines, MergeStep(p.at.index, file.name, adjust), Going, Recorded(kw), KindArgs(kw));
    }
  }

  /** A merge that succeeds records, besides the names it started with,
      exactly the arguments of the `mtllib` (or `usemtl`) lines of all the
      files. */
  lemma MergeFilesRecord(st: MergeState, files: seq<ObjFile>, kw: string)
    requires kw == "mtllib" || kw == "usemtl"
    requires FileGoing(MergeFiles(st, files))
    ensures Recorded(kw)(MergeFiles(st, files).merge) == Recorded(kw)(st) + Elems(Collect(AllLines(files), KindArgs(kw)))
  {
    MergeFileRecord(kw);
    FoldGathers(FileProgress(st, Start), files, MergeFile, FileGoing, FileRecorded(kw), FileArgs(kw));
    CollectFlatten(files, FileLines, KindArgs(kw), FileArgs(kw));
  }

  // ---------------------------------------------------------------- library lines

  /** A library line in the form the duplicate check looks for: `mtllib `
      and then a name with no surrounding whitespace. */
  predicate CanonicalLibLine(x: string) {
    |x| > 7 && x[..7] == "mtllib " && IsStripped(x[7..])
  }

  /** No library line in that form occurs twice. */
  predicate LibLinesUnique(out: seq<string>) {
    forall j, k :: 0 <= j < k < |out| && out[j] == out[k] ==> !CanonicalLibLine(out[j])
  }

  lemma LowerMtlLib()
    ensures Lower("mtllib") == "mtllib"
  {
    LowerAt("mtllib");
  }

  /** A canonical library line reads back as an `mtllib` command whose
      arguments are the name after `mtllib `. */
  lemma ClassifyCanonicalLib(x: string)
    requires CanonicalLibLine(x)
    ensures Classify(x) == Statement(x, "mtllib", x[7..])
  {
    var a := x[7..];
    assert x == "mtllib" + " " + a;
    assert NoSpace("mtllib");
    LowerMtlLib();
    ClassifyStatement("mtllib", a);
  }

  lemma NotCanonicalLib(x: string)
    requires x != [] && x[0] != 'm'
    ensures !CanonicalLibLine(x)
  {
    if |x| > 7 {
      assert x[..7][0] == x[0];
    }
  }

  lemma UniqueSnoc(out: seq<string>, x: string)
    requires LibLinesUnique(out)
    requires CanonicalLibLine(x) ==> x !in out
    ensures LibLinesUnique(out + [x])
  {
  }

  /** What one line contributes keeps canonical library lines unique: such
      a line is only ever written by an `mtllib` command, and then only when
      it is not there yet. */
  lemma EmittedUnique(raw: string, o: seq<string>, adjust: Adjuster)
    requires LibLinesUnique(o)
    requires Emitted(Classify(raw), o, adjust).Ok?
    ensures LibLinesUnique(o + Emitted(Classify(raw), o, adjust).value)
  {
    var l := Classify(raw);
    var e := Emitted(l, o, adjust).value;
    if l.Blank? {
      UniqueSnoc(o, "");
    } else if l.Comment? {
      NotCanonicalLib(l.text);
      UniqueSnoc(o, l.text);
    } else if l.keyword == "f" {
      assert e == [FaceLine(adjust(l.args).value)];
      NotCanonicalLib(e[0]);
      UniqueSnoc(o, e[0]);
    } else if e != [] {
      assert e == [l.text];
      if CanonicalLibLine(l.text) {
        ClassifyStrip(raw);
        ClassifyCanonicalLib(l.text);
        assert l.text == l.text[..7] + l.text[7..];
        assert MtlLibLine(l.args) == l.text;
      }
      UniqueSnoc(o, l.text);
    } else {
      assert o + e == o;
    }
  }

  /** One line of the second pass keeps canonical library lines unique. */
  lemma MergeLineUnique(st: MergeState, i: nat, name: string, adjust: Adjuster, raw: string)
    requires LibLinesUnique(st.out)
    ensures LibLinesUnique(MergeLine(st, i, name, adjust, raw).out)
  {
    if Going(st) {
      var l := Classify(raw);
      var o := WithSeparator(st.out, i, name, l);
      SeparatorUnique(st.out, i, name, l);
      if Emitted(l, o, adjust).Ok? {
        EmittedUnique(raw, o, adjust);
      }
    }
  }

  /** A separator is a comment, never a library line. */
  lemma SeparatorUnique(out: seq<string>, i: nat, name: string, l: Line)
    requires LibLinesUnique(out)
    ensures LibLinesUnique(WithSeparator(out, i, name, l))
  {
    var x := Separator(i, name);
    assert x[0] == '#';
    UniqueSnoc(out, x);
  }

  function OutLibUnique(p: FileProgress): bool {
    LibLinesUnique(p.merge.out)
  }

  /** The merge keeps canonical library lines unique, and parse_files
      starts from no lines at all. */
  lemma MergeFilesUnique(st: MergeState, files: seq<ObjFile>)
    requires LibLinesUnique(st.out)
    ensures LibLinesUnique(MergeFiles(st, files).merge.out)
  {
    forall p: FileProgress, file: ObjFile | OutLibUnique(p)
      ensures OutLibUnique(MergeFile(p, file))
    {
      var step := MergeStep(p.at.index, file.name, FaceAdjuster(p.at.offs));
      forall s: MergeState, raw: string | LibLinesUnique(s.out)
        ensures LibLinesUnique(step(s, raw).out)
      {
        MergeLineUnique(s, p.at.index, file.name, FaceAdjuster(p.at.offs), raw);
      }
      FoldPreserves(p.merge, file.lines, step, (s: MergeState) => LibLinesUnique(s.out));
    }
    FoldPreserves(FileProgress(st, Start), files, MergeFile, OutLibUnique);
  }

  lemma ClassifyUpperLib()
    ensures Classify("MTLLIB m.mtl") == Statement("MTLLIB m.mtl", "mtllib", "m.mtl")
  {
    assert "MTLLIB m.mtl" == "MTLLIB" + " " + "m.mtl";
    assert NoSpace("MTLLIB");
    LowerAt("MTLLIB");
    assert Lower("MTLLIB") == "mtllib";
    ClassifyStatement("MTLLIB", "m.mtl");
  }

  /** An `mtllib` line records its argument, and is kept exactly when
      `mtllib <args>` is not among the lines merged so far. */
  lemma MergeLineLib(st: MergeState, i: nat, name: string, adjust: Adjuster, raw: string)
    requires Going(st) && IsMtlLib(raw)
    ensures var l := Classify(raw);
      MergeLine(st, i, name, adjust, raw) ==
        MergeState(if MtlLibLine(l.args) in st.out then st.out else st.out + [l.text],
                   st.refs + {l.args}, st.usage, None)
  {
  }

  /** The duplicate check compares the canonical form `mtllib <args>`, while
      the line kept is the line as written: a library line written in upper
      case (or with more than one blank after the keyword) is kept every time
      it occurs. */
  lemma NonCanonicalLibKept()
    ensures MergeLines(MergeState([], {}, {}, None), 0, "m.obj", FaceAdjuster(Zero), ["MTLLIB m.mtl", "MTLLIB m.mtl"]).out
      == ["MTLLIB m.mtl", "MTLLIB m.mtl"]
  {
    var line := "MTLLIB m.mtl";
    var step := MergeStep(0, "m.obj", FaceAdjuster(Zero));
    var st0 := MergeState([], {}, {}, None);
    ClassifyUpperLib();
    assert MtlLibLine("m.mtl") != line;
    MergeLineLib(st0, 0, "m.obj", FaceAdjuster(Zero), line);
    var st1 := step(st0, line);
    assert st1.out == [line];
    MergeLineLib(st1, 0, "m.obj", FaceAdjuster(Zero), line);
    FoldSnoc(st0, [], line, step);
    FoldSnoc(st0, [line], line, step);
    assert [line] + [line] == [line, line];
  }

  // ================================================================ statistics

  /** The parser's statistics: files merged, and the numbers of `v`, `vn`,
      `vt`, `f`, `g` and `o` lines analysed. */
  datatype ObjStats = ObjStats(
    filesMerged: nat, vertices: nat, normals: nat, texcoords: nat, faces: nat, groups: nat, objects: nat)

  const NoStats := ObjStats(0, 0, 0, 0, 0, 0, 0)

  /** What _analyze_obj_content updates: the statistics and the library and
      material names. */
  datatype Analysis = Analysis(stats: ObjStats, refs: set<string>, usage: set<string>)

  /** _analyze_obj_content on one classified line: a command adds one to
      its counter, or its argument ('' when it has none) to the library or
      material names; anything else is ignored. */
  function AnalyzeCommand(a: Analysis, l: Line): Analysis {
    var s := a.stats;
    if !l.Statement? then a
    else if l.keyword == "v" then a.(stats := s.(vertices := s.vertices + 1))
    else if l.keyword == "vn" then a.(stats := s.(normals := s.normals + 1))
    else if l.keyword == "vt" then a.(stats := s.(texcoords := s.texcoords + 1))
    else if l.keyword == "f" then a.(stats := s.(faces := s.faces + 1))
    else if l.keyword == "g" then a.(stats := s.(groups := s.groups + 1))
    else if l.keyword == "o" then a.(stats := s.(objects := s.objects + 1))
    else if l.keyword == "mtllib" then a.(refs := a.refs + {l.args})
    else if l.keyword == "usemtl" then a.(usage := a.usage + {l.args})
    else a
  }

  function AnalyzeLine(a: Analysis, raw: string): Analysis {
    AnalyzeCommand(a, Classify(raw))
  }

  function AnalyzeLines(a: Analysis, lines: seq<string>): Analysis {
    Fold(a, lines, AnalyzeLine)
  }

  /** _analyze_obj_content: the lines are those of content.splitlines(). */
  function AnalyzeContent(a: Analysis, content: string): Analysis {
    AnalyzeLines(a, SplitLines(content))
  }

  /** The commands that have a counter. */
  predicate Counted(kw: string) {
    kw in {"v", "vn", "vt", "f", "g", "o"}
  }

  /** The counter of a counted command. */
  function Counter(kw: string): Analysis -> nat {
    (a: Analysis) =>
      if kw == "v" then a.stats.vertices
      else if kw == "vn" then a.stats.normals
      else if kw == "vt" then a.stats.texcoords
      else if kw == "f" then a.stats.faces
      else if kw == "g" then a.stats.groups
      else a.stats.objects
  }

  function AnalysisRecorded(kw: string): Analysis -> set<string> {
    (a: Analysis) => if kw == "mtllib" then a.refs else a.usage
  }

  lemma AnalyzeCommandCount(a: Analysis, l: Line, kw: string)
    requires Counted(kw)
    ensures Counter(kw)(AnalyzeCommand(a, l)) == Counter(kw)(a) + |TextIf(kw, l)|
  {
  }

  lemma AnalyzeLineTallies(kw: string)
    requires Counted(kw)
    ensures Tallies(AnalyzeLine, Counter(kw), KindLines(kw))
  {
    forall a: Analysis, raw: string
      ensures Counter(kw)(AnalyzeLine(a, raw)) == Counter(kw)(a) + |KindLines(kw)(raw)|
    {
      AnalyzeCommandCount(a, Classify(raw), kw);
    }
  }

  lemma AnalyzeCommandName(a: Analysis, l: Line, kw: string)
    requires kw == "mtllib" || kw == "usemtl"
    ensures AnalysisRecorded(kw)(AnalyzeCommand(a, l)) == AnalysisRecorded(kw)(a) + Elems(ArgsIf(kw, l))
  {
  }

  lemma AnalyzeLineGathers(kw: string)
    requires kw == "mtllib" || kw == "usemtl"
    ensures Gathers(AnalyzeLine, (a: Analysis) => true, AnalysisRecorded(kw), KindArgs(kw))
  {
    forall a: Analysis, raw: string
      ensures AnalysisRecorded(kw)(AnalyzeLine(a, raw)) == AnalysisRecorded(kw)(a) + Elems(KindArgs(kw)(raw))
    {
      AnalyzeCommandName(a, Classify(raw), kw);
    }
  }

  /** The analysis adds one to a counter per line of its command, and
      accumulates rather than resets. */
  lemma AnalyzeLinesCounts(a: Analysis, lines: seq<string>, kw: string)
    requires Counted(kw)
    ensures Counter(kw)(AnalyzeLines(a, lines)) == Counter(kw)(a) + |Collect(lines, KindLines(kw))|
  {
    AnalyzeLineTallies(kw);
    FoldTallies(a, lines, AnalyzeLine, Counter(kw), KindLines(kw));
  }

  /** The analysis adds the arguments of the `mtllib` (or `usemtl`) lines to
      the library (or material) names. */
  lemma AnalyzeLinesNames(a: Analysis, lines: seq<string>, kw: string)
    requires kw == "mtllib" || kw == "usemtl"
    ensures AnalysisRecorded(kw)(AnalyzeLines(a, lines)) == AnalysisRecorded(kw)(a) + Elems(Collect(lines, KindArgs(kw)))
  {
    AnalyzeLineGathers(kw);
    FoldGathers(a, lines, AnalyzeLine, (a: Analysis) => true, AnalysisRecorded(kw), KindArgs(kw));
  }

  /** The number of `kw` lines. */
  function CountOf(lines: seq<string>, kw: string): nat {
    |Collect(lines, KindLines(kw))|
  }

  lemma AnalyzeLinesFiles(a: Analysis, lines: seq<string>)
    ensures AnalyzeLines(a, lines).stats.filesMerged == a.stats.filesMerged
  {
    var fm := a.stats.filesMerged;
    FoldPreserves(a, lines, AnalyzeLine, (b: Analysis) => b.stats.filesMerged == fm);
  }

  /** The statistics after the analysis: each counter grows by the number
      of its lines, and the number of files merged is left alone. */
  lemma AnalyzeLinesStats(a: Analysis, lines: seq<string>)
    ensures AnalyzeLines(a, lines).stats ==
      ObjStats(a.stats.filesMerged,
               a.stats.vertices + CountOf(lines, "v"), a.stats.normals + CountOf(lines, "vn"),
               a.stats.texcoords + CountOf(lines, "vt"), a.stats.faces + CountOf(lines, "f"),
               a.stats.groups + CountOf(lines, "g"), a.stats.objects + CountOf(lines, "o"))
  {
    var b := AnalyzeLines(a, lines);
    AnalyzeLinesCounts(a, lines, "v");
    assert b.stats.vertices == a.stats.vertices + CountOf(lines, "v");
    AnalyzeLinesCounts(a, lines, "vn");
    assert b.stats.normals == a.stats.normals + CountOf(lines, "vn");
    AnalyzeLinesCounts(a, lines, "vt");
    assert b.stats.texcoords == a.stats.texcoords + CountOf(lines, "vt");
    AnalyzeLinesCounts(a, lines, "f");
    assert b.stats.faces == a.stats.faces + CountOf(lines, "f");
    AnalyzeLinesCounts(a, lines, "g");
    assert b.stats.groups == a.stats.groups + CountOf(lines, "g");
    AnalyzeLinesCounts(a, lines, "o");
    assert b.stats.objects == a.stats.objects + CountOf(lines, "o");
    AnalyzeLinesFiles(a, lines);
  }

  /** All of the analysis at once: the statistics as above, and the names
      grown by the arguments of the `mtllib` and `usemtl` lines. */
  lemma AnalyzeLinesSpec(a: Analysis, lines: seq<string>)
    ensures AnalyzeLines(a, lines) == Analysis(
      ObjStats(a.stats.filesMerged,
               a.stats.vertices + CountOf(lines, "v"), a.stats.normals + CountOf(lines, "vn"),
               a.stats.texcoords + CountOf(lines, "vt"), a.stats.faces + CountOf(lines, "f"),
               a.stats.groups + CountOf(lines, "g"), a.stats.objects + CountOf(lines, "o")),
      a.refs + Elems(Collect(lines, KindArgs("mtllib"))),
      a.usage + Elems(Collect(lines, KindArgs("usemtl"))))
  {
    AnalyzeLinesStats(a, lines);
    AnalyzeLinesNames(a, lines, "mtllib");
    AnalyzeLinesNames(a, lines, "usemtl");
  }
}
