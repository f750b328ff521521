/**
 * parse_files and parse_file as a whole, and the OBJParser object that
 * carries the statistics and the library and material names from one call
 * to the next.
 *
 * parse_files merges the files (ObjParser.MergeFiles), joins the merged
 * lines with "\n", analyses the joined text line by line as
 * str.splitlines() cuts it, and then sets the number of files merged.
 */
module ObjSession {
  import opened Wrappers
  import opened Text
  import opened LineSyntax
  import opened Seqs
  import opened ObjParser

  // ================================================================ specification

  /** The merge parse_files starts: no merged lines yet, and the names the
      parser has recorded so far. */
  function MergeStart(a: Analysis): MergeState {
    MergeState([], a.refs, a.usage, None)
  }

  /** parse_files from the parser state a: the merged text or the error,
      and the new state.  A failed merge leaves the names it recorded up to
      the failure and the statistics as they were. */
  function ParseFilesSpec(a: Analysis, files: seq<ObjFile>): (Result<string, ObjError>, Analysis) {
    if files == [] then (Err(NoObjFiles), a)
    else
      var m := MergeFiles(MergeStart(a), files).merge;
      var named := a.(refs := m.refs, usage := m.usage);
      match m.failure
      case Some(e) => (Err(e), named)
      case None =>
        var content := Join("\n", m.out);
        var b := AnalyzeContent(named, content);
        (Ok(content), b.(stats := b.stats.(filesMerged := |files|)))
  }

  /** parse_file on the text of one file: the text itself, and the state
      after its analysis, with one file merged. */
  function ParseFileSpec(a: Analysis, content: string): Analysis {
    var b := AnalyzeContent(a, content);
    b.(stats := b.stats.(filesMerged := 1))
  }

  // ================================================================ outcome

  /** The names recorded only grow during a merge, failed or not. */
  lemma MergeFilesGrowNames(st: MergeState, files: seq<ObjFile>)
    ensures st.refs <= MergeFiles(st, files).merge.refs
    ensures st.usage <= MergeFiles(st, files).merge.usage
  {
    var grown := (s: MergeState) => st.refs <= s.refs && st.usage <= s.usage;
    forall p: FileProgress, file: ObjFile | grown(p.merge)
      ensures grown(MergeFile(p, file).merge)
    {
      var step := MergeStep(p.at.index, file.name, FaceAdjuster(p.at.offs));
      assert Preserves(step, grown);
      FoldPreserves(p.merge, file.lines, step, grown);
    }
    FoldPreserves(FileProgress(st, Start), files, MergeFile, (p: FileProgress) => grown(p.merge));
  }

  /** parse_files fails on an empty list of files, doing nothing, and
      otherwise exactly when some face of some file is refused under the
      offsets of that file.  A failed call leaves the statistics alone and
      forgets no name. */
  lemma ParseFilesOutcome(a: Analysis, files: seq<ObjFile>)
    ensures files == [] ==> ParseFilesSpec(a, files) == (Err(NoObjFiles), a)
    ensures ParseFilesSpec(a, files).0.Ok? <==>
      && files != []
      && FacesAccepted(files)
    ensures ParseFilesSpec(a, files).0.Err? ==>
      && ParseFilesSpec(a, files).1.stats == a.stats
      && a.refs <= ParseFilesSpec(a, files).1.refs
      && a.usage <= ParseFilesSpec(a, files).1.usage
  {
    if files != [] {
      MergeFilesFaces(MergeStart(a), files);
      MergeFilesGrowNames(MergeStart(a), files);
    }
  }

  // ================================================================ line boundaries

  /** Merged lines that str.splitlines() gives back whole. */
  predicate OutUnbroken(out: seq<string>) {
    forall k :: 0 <= k < |out| ==> NoLineBreak(out[k])
  }

  /** A file whose name, and whose lines as strip() leaves them, hold no
      line boundary. */
  predicate FileUnbroken(file: ObjFile) {
    && NoLineBreak(file.name)
    && forall j :: 0 <= j < |file.lines| ==> NoLineBreak(Strip(file.lines[j]))
  }

  predicate Unbroken(files: seq<ObjFile>) {
    forall k :: 0 <= k < |files| ==> FileUnbroken(files[k])
  }

  lemma SeparatorUnbroken(i: nat, name: string)
    requires NoLineBreak(name)
    ensures NoLineBreak(Separator(i, name))
  {
    var n := IntToString(i + 1);
    NoSpaceNoLineBreak(n);
    assert NoLineBreak("# === File ");
    assert NoLineBreak(": ");
    assert NoLineBreak(" ===");
    NoLineBreakAppend("# === File ", n);
    NoLineBreakAppend("# === File " + n, ": ");
    NoLineBreakAppend("# === File " + n + ": ", name);
    NoLineBreakAppend("# === File " + n + ": " + name, " ===");
  }

  /** A rewritten face is words joined by blanks. */
  lemma AdjustFaceUnbroken(faceDef: string, offs: Counts)
    requires AdjustFace(faceDef, offs).Ok?
    ensures NoLineBreak(FaceLine(AdjustFace(faceDef, offs).value))
  {
    var vs := Split(faceDef);
    var f := VertexAdjuster(offs);
    assert forall v :: f(v) == AdjustVertex(v, offs);
    var out := MapAll(vs, f).value;
    MapAllValues(vs, f);
    forall k | 0 <= k < |out|
      ensures NoLineBreak(out[k])
    {
      AdjustVertexWord(vs[k], offs);
      NoSpaceNoLineBreak(out[k]);
    }
    assert NoLineBreak(" ");
    JoinNoLineBreak(" ", out);
    assert NoLineBreak("f ");
    NoLineBreakAppend("f ", Join(" ", out));
  }

  lemma OutUnbrokenSnoc(out: seq<string>, x: string)
    requires OutUnbroken(out) && NoLineBreak(x)
    ensures OutUnbroken(out + [x])
  {
  }

  /** One line of the second pass keeps the merged lines free of line
      boundaries. */
  lemma MergeLineUnbroken(st: MergeState, i: nat, name: string, offs: Counts, raw: string)
    requires OutUnbroken(st.out) && NoLineBreak(name) && NoLineBreak(Strip(raw))
    ensures OutUnbroken(MergeLine(st, i, name, FaceAdjuster(offs), raw).out)
  {
    if Going(st) {
      var adjust := FaceAdjuster(offs);
      var l := Classify(raw);
      var o := WithSeparator(st.out, i, name, l);
      SeparatorUnbroken(i, name);
      OutUnbrokenSnoc(st.out, Separator(i, name));
      var r := Emitted(l, o, adjust);
      if r.Ok? {
        var e := r.value;
        assert MergeLine(st, i, name, adjust, raw).out == o + e;
        if l.Blank? {
          assert e == [""];
          OutUnbrokenSnoc(o, "");
        } else if l.Comment? || (l.keyword != "f" && !(l.keyword == "mtllib" && MtlLibLine(l.args) in o)) {
          assert e == [l.text];
          OutUnbrokenSnoc(o, l.text);
        } else if l.keyword == "f" {
          AdjustFaceUnbroken(l.args, offs);
          assert e == [FaceLine(AdjustFace(l.args, offs).value)];
          OutUnbrokenSnoc(o, e[0]);
        } else {
          assert o + e == o;
        }
      }
    }
  }

  function FileOutUnbroken(p: FileProgress): bool {
    OutUnbroken(p.merge.out)
  }

  /** The merge of files none of whose lines hold a line boundary produces
      only such lines. */
  lemma MergeFilesUnbroken(st: MergeState, files: seq<ObjFile>)
    requires OutUnbroken(st.out) && Unbroken(files)
    ensures OutUnbroken(MergeFiles(st, files).merge.out)
  {
    forall p: FileProgress, file: ObjFile | FileOutUnbroken(p) && FileUnbroken(file)
      ensures FileOutUnbroken(MergeFile(p, file))
    {
      var step := MergeStep(p.at.index, file.name, FaceAdjuster(p.at.offs));
      var good := (raw: string) => NoLineBreak(Strip(raw));
      forall s: MergeState, raw: string | OutUnbroken(s.out) && good(raw)
        ensures OutUnbroken(step(s, raw).out)
      {
        MergeLineUnbroken(s, p.at.index, file.name, p.at.offs, raw);
      }
      FoldPreservesOn(p.merge, file.lines, step, (s: MergeState) => OutUnbroken(s.out), good);
    }
    FoldPreservesOn(FileProgress(st, Start), files, MergeFile, FileOutUnbroken, FileUnbroken);
  }

  /** Analysing the lines splitlines() gives back from the joined text is
      analysing the merged lines: the empty last line it may not give back
      counts for nothing. */
  lemma AnalyzeJoined(a: Analysis, out: seq<string>)
    requires OutUnbroken(out)
    ensures AnalyzeContent(a, Join("\n", out)) == AnalyzeLines(a, out)
  {
    SplitLinesJoin(out);
    if out != [] && out[|out| - 1] == "" {
      assert Classify("") == Blank;
    }
  }

  // ================================================================ statistics

  lemma FaceCountLine(adjust: Adjuster, raw: string)
    requires !FaceFails(adjust, raw)
    ensures |AdjustedFaces(adjust)(raw)| == |KindLines("f")(raw)|
  {
  }

  /** The `f` lines of a file whose faces are all accepted are as many as
      its rewritten faces. */
  lemma FileFacesCount(adjust: Adjuster, lines: seq<string>)
    requires forall j :: 0 <= j < |lines| ==> !FaceFails(adjust, lines[j])
    ensures |Collect(lines, AdjustedFaces(adjust))| == |Collect(lines, KindLines("f"))|
  {
    forall j | 0 <= j < |lines|
      ensures |AdjustedFaces(adjust)(lines[j])| == |KindLines("f")(lines[j])|
    {
      FaceCountLine(adjust, lines[j]);
    }
    CollectSameLength(lines, AdjustedFaces(adjust), KindLines("f"));
  }

  /** The `f` lines of all the files, when every face is accepted, are as
      many as the rewritten faces. */
  lemma {:induction false} ShiftedFacesCount(files: seq<ObjFile>)
    requires FacesAccepted(files)
    ensures |ShiftedFaces(files)| == |Collect(files, FileInventory(KindLines("f")))|
    decreases |files|
  {
    if files != [] {
      var n := |files| - 1;
      var init := files[..n];
      FacesAcceptedPrefix(files, n);
      ShiftedFacesCount(init);
      FileFacesCount(FaceAdjuster(TotalCounts(init)), files[n].lines);
      assert FileInventory(KindLines("f"))(files[n]) == Collect(files[n].lines, KindLines("f"));
    }
  }

  /** Every counted command occurs in the merged lines as often as in all
      the files: `f` lines are rewritten one for one, and separators are
      comments. */
  lemma MergedCount(st: MergeState, files: seq<ObjFile>, kw: string)
    requires Going(st) && st.out == [] && Counted(kw)
    requires FileGoing(MergeFiles(st, files))
    ensures CountOf(MergeFiles(st, files).merge.out, kw) == CountOf(AllLines(files), kw)
  {
    var out := MergeFiles(st, files).merge.out;
    if kw == "f" {
      MergeFilesFaces(st, files);
      CollectSameLength(out, KindLines("f"), KindArgs("f"));
      ShiftedFacesCount(files);
      CollectFlatten(files, FileLines, KindLines("f"), FileInventory(KindLines("f")));
    } else {
      MergeFilesKeeps(st, files, kw);
    }
  }

  /** The counts of the merged lines are the counts of all the files. */
  lemma MergedCounts(st: MergeState, files: seq<ObjFile>)
    requires Going(st) && st.out == []
    requires FileGoing(MergeFiles(st, files))
    ensures var out := MergeFiles(st, files).merge.out; var lines := AllLines(files);
      && CountOf(out, "v") == CountOf(lines, "v") && CountOf(out, "vn") == CountOf(lines, "vn")
      && CountOf(out, "vt") == CountOf(lines, "vt") && CountOf(out, "f") == CountOf(lines, "f")
      && CountOf(out, "g") == CountOf(lines, "g") && CountOf(out, "o") == CountOf(lines, "o")
  {
    MergedCount(st, files, "v");
    MergedCount(st, files, "vn");
    MergedCount(st, files, "vt");
    MergedCount(st, files, "f");
    MergedCount(st, files, "g");
    MergedCount(st, files, "o");
  }

  /** What a successful parse_files leaves: the analysis of the merged
      lines, with the number of files merged set. */
  lemma ParseFilesAnalyzed(a: Analysis, files: seq<ObjFile>)
    requires Unbroken(files)
    requires ParseFilesSpec(a, files).0.Ok?
    ensures var m := MergeFiles(MergeStart(a), files).merge;
      var b := AnalyzeLines(a.(refs := m.refs, usage := m.usage), m.out);
      && m.failure.None?
      && ParseFilesSpec(a, files).1 == b.(stats := b.stats.(filesMerged := |files|))
  {
    var m := MergeFiles(MergeStart(a), files).merge;
    MergeFilesUnbroken(MergeStart(a), files);
    AnalyzeJoined(a.(refs := m.refs, usage := m.usage), m.out);
  }

  /** A successful parse_files counts, on top of the counts the parser had,
      the `v`, `vn`, `vt`, `f`, `g` and `o` lines of all the files, and
      sets the number of files merged to the number of files. */
  lemma ParseFilesStats(a: Analysis, files: seq<ObjFile>)
    requires Unbroken(files)
    requires ParseFilesSpec(a, files).0.Ok?
    ensures var lines := AllLines(files);
      ParseFilesSpec(a, files).1.stats ==
        ObjStats(|files|,
                 a.stats.vertices + CountOf(lines, "v"), a.stats.normals + CountOf(lines, "vn"),
                 a.stats.texcoords + CountOf(lines, "vt"), a.stats.faces + CountOf(lines, "f"),
                 a.stats.groups + CountOf(lines, "g"), a.stats.objects + CountOf(lines, "o"))
  {
    var st := MergeStart(a);
    var m := MergeFiles(st, files).merge;
    var named := a.(refs := m.refs, usage := m.usage);
    var b := AnalyzeLines(named, m.out);
    ParseFilesAnalyzed(a, files);
    assert ParseFilesSpec(a, files).1.stats == b.stats.(filesMerged := |files|);
    AnalyzeLinesStats(named, m.out);
    MergedCounts(st, files);
  }

  // ================================================================ names

  /** Every library named by a merged `mtllib` line is recorded. */
  predicate LibsRecorded(st: MergeState) {
    Elems(Collect(st.out, KindArgs("mtllib"))) <= st.refs
  }

  /** The library names among the lines one line contributes: at most the
      line's own, when it is an `mtllib` line. */
  lemma EmittedLibs(raw: string, o: seq<string>, adjust: Adjuster)
    requires StrippedFaces(adjust)
    requires Emitted(Classify(raw), o, adjust).Ok?
    ensures Elems(Collect(Emitted(Classify(raw), o, adjust).value, KindArgs("mtllib"))) <=
      if IsMtlLib(raw) then {Classify(raw).args} else {}
  {
    var g := KindArgs("mtllib");
    var l := Classify(raw);
    var e := Emitted(l, o, adjust).value;
    if l.Blank? {
      CollectOne("", g);
    } else if l.Comment? || (l.keyword != "f" && !(l.keyword == "mtllib" && MtlLibLine(l.args) in o)) {
      assert e == [l.text];
      ClassifyStrip(raw);
      CollectOne(l.text, g);
    } else if l.keyword == "f" {
      var face := adjust(l.args).value;
      assert e == [FaceLine(face)];
      ClassifyFaceLine(face);
      CollectOne(FaceLine(face), g);
    } else {
      assert e == [];
    }
  }

  lemma MergeLineLibsRecorded(st: MergeState, i: nat, name: string, adjust: Adjuster, raw: string)
    requires StrippedFaces(adjust) && LibsRecorded(st)
    ensures LibsRecorded(MergeLine(st, i, name, adjust, raw))
  {
    if Going(st) {
      var g := KindArgs("mtllib");
      var l := Classify(raw);
      var o := WithSeparator(st.out, i, name, l);
      SeparatorIsComment(i, name);
      SeparatorCollect(st.out, i, name, l, g);
      var r := Emitted(l, o, adjust);
      if r.Ok? {
        var m := MergeLine(st, i, name, adjust, raw);
        assert m.out == o + r.value;
        assert m.refs == if IsMtlLib(raw) then st.refs + {l.args} else st.refs;
        CollectAppend(o, r.value, g);
        ElemsAppend(Collect(o, g), Collect(r.value, g));
        EmittedLibs(raw, o, adjust);
        assert Elems(Collect(o, g)) <= st.refs;
      }
    }
  }

  function FileLibsRecorded(p: FileProgress): bool {
    LibsRecorded(p.merge)
  }

  /** The merge keeps every merged library recorded. */
  lemma MergeFilesLibsRecorded(st: MergeState, files: seq<ObjFile>)
    requires LibsRecorded(st)
    ensures LibsRecorded(MergeFiles(st, files).merge)
  {
    forall p: FileProgress, file: ObjFile | FileLibsRecorded(p)
      ensures FileLibsRecorded(MergeFile(p, file))
    {
      var adjust := FaceAdjuster(p.at.offs);
      var step := MergeStep(p.at.index, file.name, adjust);
      FaceAdjusterStripped(p.at.offs);
      forall s: MergeState, raw: string | LibsRecorded(s)
        ensures LibsRecorded(step(s, raw))
      {
        MergeLineLibsRecorded(s, p.at.index, file.name, adjust, raw);
      }
      FoldPreserves(p.merge, file.lines, step, LibsRecorded);
    }
    FoldPreserves(FileProgress(st, Start), files, MergeFile, FileLibsRecorded);
  }

  /** A successful parse_files records, besides the names the parser had,
      exactly the arguments of the `mtllib` and `usemtl` lines of all the
      files: the analysis of the merged text finds no name the merge did
      not record. */
  lemma ParseFilesNames(a: Analysis, files: seq<ObjFile>)
    requires Unbroken(files)
    requires ParseFilesSpec(a, files).0.Ok?
    ensures ParseFilesSpec(a, files).1.refs == a.refs + Elems(Collect(AllLines(files), KindArgs("mtllib")))
    ensures ParseFilesSpec(a, files).1.usage == a.usage + Elems(Collect(AllLines(files), KindArgs("usemtl")))
  {
    var st := MergeStart(a);
    var m := MergeFiles(st, files).merge;
    var named := a.(refs := m.refs, usage := m.usage);
    ParseFilesAnalyzed(a, files);
    AnalyzeLinesNames(named, m.out, "mtllib");
    AnalyzeLinesNames(named, m.out, "usemtl");
    MergeFilesRecord(st, files, "mtllib");
    MergeFilesRecord(st, files, "usemtl");
    MergeFilesLibsRecorded(st, files);
    KindLayoutBlind("usemtl", true);
    KindFaceBlind("usemtl", true);
    KindMtlLibBlind("usemtl", true);
    MergeFilesBlind(st, files, Kind("usemtl", true));
  }

  /** parse_file counts the lines of the text, on top of the counts the
      parser had, and sets the number of files merged to one. */
  lemma ParseFileStats(a: Analysis, content: string)
    ensures var lines := SplitLines(content);
      ParseFileSpec(a, content).stats ==
        ObjStats(1,
                 a.stats.vertices + CountOf(lines, "v"), a.stats.normals + CountOf(lines, "vn"),
                 a.stats.texcoords + CountOf(lines, "vt"), a.stats.faces + CountOf(lines, "f"),
                 a.stats.groups + CountOf(lines, "g"), a.stats.objects + CountOf(lines, "o"))
    ensures ParseFileSpec(a, content).refs == a.refs + Elems(Collect(SplitLines(content), KindArgs("mtllib")))
    ensures ParseFileSpec(a, content).usage == a.usage + Elems(Collect(SplitLines(content), KindArgs("usemtl")))
  {
    AnalyzeLinesSpec(a, SplitLines(content));
  }

  // ================================================================ stopping

  /** Once a line has failed, the rest of the file changes nothing. */
  lemma MergeLinesStopped(st: MergeState, i: nat, name: string, adjust: Adjuster, lines: seq<string>, k: nat)
    requires k <= |lines|
    requires MergeLines(st, i, name, adjust, lines[..k]).failure.Some?
    ensures MergeLines(st, i, name, adjust, lines) == MergeLines(st, i, name, adjust, lines[..k])
  {
    assert lines == lines[..k] + lines[k..];
    FoldAppend(st, lines[..k], lines[k..], MergeStep(i, name, adjust));
    MergeLinesFailed(MergeLines(st, i, name, adjust, lines[..k]), i, name, adjust, lines[k..]);
  }

  /** Once a file has failed, the files after it change nothing. */
  lemma MergeFilesStopped(st: MergeState, files: seq<ObjFile>, k: nat)
    requires k <= |files|
    requires MergeFiles(st, files[..k]).merge.failure.Some?
    ensures MergeFiles(st, files).merge == MergeFiles(st, files[..k]).merge
  {
    var mid := MergeFiles(st, files[..k]);
    assert files == files[..k] + files[k..];
    FoldAppend(FileProgress(st, Start), files[..k], files[k..], MergeFile);
    forall p: FileProgress, file: ObjFile | p.merge == mid.merge
      ensures MergeFile(p, file).merge == mid.merge
    {
      MergeLinesFailed(mid.merge, p.at.index, file.name, FaceAdjuster(p.at.offs), file.lines);
    }
    FoldPreserves(mid, files[k..], MergeFile, (p: FileProgress) => p.merge == mid.merge);
  }

  // ================================================================ the parser object

  /** The count of one command after one more line. */
  lemma KindCountSnoc(lines: seq<string>, raw: string, kw: string)
    ensures var l := Classify(raw);
      |Collect(lines + [raw], KindLines(kw))| ==
        |Collect(lines, KindLines(kw))| + if l.Statement? && l.keyword == kw then 1 else 0
  {
    CollectSnoc(lines, raw, KindLines(kw));
  }

  /** One more line moves the first-pass counts by the line's command. */
  lemma FileCountsSnoc(lines: seq<string>, raw: string)
    ensures var l := Classify(raw);
      FileCounts(lines + [raw]) == FileCounts(lines).Plus(
        if !l.Statement? then Zero
        else if l.keyword == "v" then Counts(1, 0, 0)
        else if l.keyword == "vt" then Counts(0, 1, 0)
        else if l.keyword == "vn" then Counts(0, 0, 1)
        else Zero)
  {
    KindCountSnoc(lines, raw, "v");
    KindCountSnoc(lines, raw, "vt");
    KindCountSnoc(lines, raw, "vn");
  }

  /** The first pass of parse_files over one file. */
  method CountFileLines(lines: seq<string>) returns (c: Counts)
    ensures c == FileCounts(lines)
  {
    var v, vt, vn := 0, 0, 0;
    var j := 0;
    while j < |lines|
      invariant 0 <= j <= |lines|
      invariant Counts(v, vt, vn) == FileCounts(lines[..j])
    {
      assert lines[..j + 1] == lines[..j] + [lines[j]];
      FileCountsSnoc(lines[..j], lines[j]);
      var l := Classify(lines[j]);
      if l.Statement? {
        if l.keyword == "v" {
          v := v + 1;
        } else if l.keyword == "vt" {
          vt := vt + 1;
        } else if l.keyword == "vn" {
          vn := vn + 1;
        }
      }
      j := j + 1;
    }
    assert lines[..j] == lines;
    return Counts(v, vt, vn);
  }

  lemma MergeLinesSnoc(st: MergeState, i: nat, name: string, adjust: Adjuster, lines: seq<string>, j: nat)
    requires j < |lines|
    ensures MergeLines(st, i, name, adjust, lines[..j + 1]) ==
      MergeLine(MergeLines(st, i, name, adjust, lines[..j]), i, name, adjust, lines[j])
  {
    assert lines[..j + 1] == lines[..j] + [lines[j]];
    FoldSnoc(st, lines[..j], lines[j], MergeStep(i, name, adjust));
  }

  lemma AnalyzeLinesSnoc(a: Analysis, lines: seq<string>, i: nat)
    requires i < |lines|
    ensures AnalyzeLines(a, lines[..i + 1]) == AnalyzeCommand(AnalyzeLines(a, lines[..i]), Classify(lines[i]))
  {
    assert lines[..i + 1] == lines[..i] + [lines[i]];
    FoldSnoc(a, lines[..i], lines[i], AnalyzeLine);
  }

  lemma MergeFilesSnoc(st: MergeState, files: seq<ObjFile>, i: nat)
    requires i < |files|
    ensures MergeFiles(st, files[..i + 1]) == MergeFile(MergeFiles(st, files[..i]), files[i])
  {
    assert files[..i + 1] == files[..i] + [files[i]];
    FoldSnoc(FileProgress(st, Start), files[..i], files[i], MergeFile);
  }

  /** OBJParser: the statistics and the library and material names, which
      every call adds to. */
  class OBJParser {
    var mtlReferences: set<string>
    var materialUsage: set<string>
    var stats: ObjStats

    function State(): Analysis
      reads this
    {
      Analysis(stats, mtlReferences, materialUsage)
    }

    constructor()
      ensures State() == Analysis(NoStats, {}, {})
    {
      mtlReferences := {};
      materialUsage := {};
      stats := NoStats;
    }

    /** _analyze_obj_content: one pass over content.splitlines(). */
    method AnalyzeObjContent(content: string)
      modifies this
      ensures State() == AnalyzeContent(old(State()), content)
    {
      var lines := SplitLines(content);
      var i := 0;
      while i < |lines|
        invariant 0 <= i <= |lines|
        invariant State() == AnalyzeLines(old(State()), lines[..i])
      {
        AnalyzeLinesSnoc(old(State()), lines, i);
        var l := Classify(lines[i]);
        if l.Statement? {
          var command := l.keyword;
          if command == "v" {
            stats := stats.(vertices := stats.vertices + 1);
          } else if command == "vn" {
            stats := stats.(normals := stats.normals + 1);
          } else if command == "vt" {
            stats := stats.(texcoords := stats.texcoords + 1);
          } else if command == "f" {
            stats := stats.(faces := stats.faces + 1);
          } else if command == "g" {
            stats := stats.(groups := stats.groups + 1);
          } else if command == "o" {
            stats := stats.(objects := stats.objects + 1);
          } else if command == "mtllib" {
            mtlReferences := mtlReferences + {l.args};
          } else if command == "usemtl" {
            materialUsage := materialUsage + {l.args};
          }
        }
        i := i + 1;
      }
      assert lines[..i] == lines;
    }

    /** parse_file, given the text of the file. */
    method ParseFile(content: string) returns (r: string)
      modifies this
      ensures r == content
      ensures State() == ParseFileSpec(old(State()), content)
    {
      AnalyzeObjContent(content);
      stats := stats.(filesMerged := 1);
      return content;
    }

    /** The body of the second-pass loop of parse_files, on one line of
        file i; the names are recorded as the line is read. */
    method MergeLineInto(merged: seq<string>, i: nat, name: string, vOffset: nat, vtOffset: nat, vnOffset: nat, raw: string)
      returns (out: seq<string>, failure: Option<ObjError>)
      modifies this
      ensures stats == old(stats)
      ensures MergeState(out, mtlReferences, materialUsage, failure) ==
        MergeLine(MergeState(merged, old(mtlReferences), old(materialUsage), None), i, name,
                  FaceAdjuster(Counts(vOffset, vtOffset, vnOffset)), raw)
    {
      out, failure := merged, None;
      ghost var adjust := FaceAdjuster(Counts(vOffset, vtOffset, vnOffset));
      match Classify(raw)
      case Blank =>
        out := out + [""];
      case Comment(line) =>
        out := out + [line];
      case Statement(line, command, args) =>
        if i > 0 && command in {"v", "o", "g"} && |out| > 0 && out[|out| - 1] != "" {
          var separator := Separator(i, name);
          if out[|out| - 1] != separator {
            out := out + [separator];
          }
        }
        assert out == WithSeparator(merged, i, name, Classify(raw));
        ghost var o := out;
        if command in {"v", "vt", "vn"} {
          out := out + [line];
        } else if command == "f" {
          var adjusted := AdjustFaceIndices(args, vOffset, vtOffset, vnOffset);
          assert adjusted == adjust(args);
          if adjusted.Err? {
            failure := Some(adjusted.error);
            assert Emitted(Classify(raw), o, adjust) == Err(adjusted.error);
            return;
          }
          out := out + ["f " + adjusted.value];
          assert Emitted(Classify(raw), o, adjust) == Ok(["f " + adjusted.value]);
        } else if command == "mtllib" {
          mtlReferences := mtlReferences + {args};
          assert MtlLibLine(args) == "mtllib " + args;
          if "mtllib " + args !in out {
            out := out + [line];
          }
        } else if command == "usemtl" {
          materialUsage := materialUsage + {args};
          out := out + [line];
        } else {
          out := out + [line];
        }
    }

    /** The second pass of parse_files over the lines of file i, stopping
        at the first face whose indices int() refuses. */
    method MergeFileLines(merged: seq<string>, i: nat, name: string, vOffset: nat, vtOffset: nat, vnOffset: nat,
                          lines: seq<string>)
      returns (out: seq<string>, failure: Option<ObjError>)
      modifies this
      ensures stats == old(stats)
      ensures MergeState(out, mtlReferences, materialUsage, failure) ==
        MergeLines(MergeState(merged, old(mtlReferences), old(materialUsage), None), i, name,
                   FaceAdjuster(Counts(vOffset, vtOffset, vnOffset)), lines)
    {
      ghost var st0 := MergeState(merged, mtlReferences, materialUsage, None);
      ghost var adjust := FaceAdjuster(Counts(vOffset, vtOffset, vnOffset));
      out, failure := merged, None;
      var j := 0;
      while j < |lines|
        invariant 0 <= j <= |lines|
        invariant stats == old(stats) && failure.None?
        invariant MergeState(out, mtlReferences, materialUsage, None) == MergeLines(st0, i, name, adjust, lines[..j])
      {
        MergeLinesSnoc(st0, i, name, adjust, lines, j);
        ghost var before := MergeState(out, mtlReferences, materialUsage, None);
        out, failure := MergeLineInto(out, i, name, vOffset, vtOffset, vnOffset, lines[j]);
        assert MergeState(out, mtlReferences, materialUsage, failure) == MergeLine(before, i, name, adjust, lines[j]);
        if failure.Some? {
          MergeLinesStopped(st0, i, name, adjust, lines, j + 1);
          return;
        }
        j := j + 1;
      }
      assert lines[..j] == lines;
    }

    /** parse_files, given the name and the lines (as readlines() gives
        them) of each file. */
    method ParseFiles(files: seq<ObjFile>) returns (r: Result<string, ObjError>)
      modifies this
      ensures (r, State()) == ParseFilesSpec(old(State()), files)
    {
      if files == [] {
        return Err(NoObjFiles);
      }
      ghost var start := MergeStart(State());
      var merged: seq<string> := [];
      var vOffset: nat, vtOffset: nat, vnOffset: nat := 0, 0, 0;
      var i := 0;
      while i < |files|
        invariant 0 <= i <= |files|
        invariant stats == old(stats)
        invariant MergeFiles(start, files[..i]) ==
          FileProgress(MergeState(merged, mtlReferences, materialUsage, None), Position(Counts(vOffset, vtOffset, vnOffset), i))
      {
        MergeFilesSnoc(start, files, i);
        var counts := CountFileLines(files[i].lines);
        var out, failure := MergeFileLines(merged, i, files[i].name, vOffset, vtOffset, vnOffset, files[i].lines);
        if failure.Some? {
          MergeFilesStopped(start, files, i + 1);
          return Err(failure.value);
        }
        merged := out;
        vOffset, vtOffset, vnOffset := vOffset + counts.v, vtOffset + counts.vt, vnOffset + counts.vn;
        i := i + 1;
      }
      assert files[..i] == files;
      var content := Join("\n", merged);
      AnalyzeObjContent(content);
      stats := stats.(filesMerged := |files|);
      return Ok(content);
    }

    /** get_mtl_references */
    method GetMtlReferences() returns (r: set<string>)
      ensures r == State().refs
    {
      return mtlReferences;
    }

    /** get_material_usage */
    method GetMaterialUsage() returns (r: set<string>)
      ensures r == State().usage
    {
      return materialUsage;
    }

    /** get_stats: a copy of the statistics. */
    method GetStats() returns (r: ObjStats)
      ensures r == State().stats
    {
      return stats;
    }
  }
}
