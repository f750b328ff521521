/**
 * The line discipline shared by the OBJ and MTL readers: a line is stripped;
 * an empty line and a line starting with '#' carry no command; otherwise
 * line.split(maxsplit=1) gives the command word, compared in lower case, and
 * its arguments ('' when there are none).
 */
module LineSyntax {
  import opened Text

  datatype Line =
    | Blank
    | Comment(text: string)
    | Statement(text: string, keyword: string, args: string)

  function Classify(raw: string): (l: Line)
    ensures l.Blank? <==> Strip(raw) == []
    ensures l.Comment? ==> l.text == Strip(raw) && l.text[0] == '#'
    ensures l.Statement? ==>
      && l.text == Strip(raw) && l.text != [] && l.text[0] != '#'
      && l.keyword != [] && NoSpace(l.keyword)
      && IsStripped(l.args)
    ensures l.Statement? ==> Lower(l.keyword) == l.keyword
    ensures l.Statement? ==>
      var parts := SplitOnce(Strip(raw));
      && l.keyword == Lower(parts[0])
      && l.args == (if |parts| == 2 then parts[1] else "")
  {
    var line := Strip(raw);
    if line == [] then Blank
    else if line[0] == '#' then Comment(line)
    else
      var parts := SplitOnce(line);
      var args := if |parts| > 1 then parts[1] else "";
      SplitOnceRestStripped(line);
      LowerNoSpace(parts[0]);
      LowerIdempotent(parts[0]);
      Statement(line, Lower(parts[0]), args)
  }

  lemma SplitOnceRestStripped(line: string)
    requires IsStripped(line)
    ensures |SplitOnce(line)| == 2 ==> IsStripped(SplitOnce(line)[1])
  {
    var k := SkipSpace(line, SkipWord(line, SkipSpace(line, 0)));
    SliceAt(line, k, |line|);
  }

  /** A stripped line is classified the same way as the raw line. */
  lemma ClassifyStrip(raw: string)
    ensures Classify(Strip(raw)) == Classify(raw)
  {
    StripIdempotent(raw);
  }

  lemma StripWordAndSpace(kw: string)
    requires kw != [] && NoSpace(kw)
    ensures Strip(kw + " ") == kw
  {
    var raw := kw + " ";
    SkipSpaceAt(raw, 0, 0);
    assert BackSpace(raw, 0, |raw|) == BackSpace(raw, 0, |kw|);
    SliceAt(raw, 0, |kw|);
    assert Slice(raw, 0, |kw|) == kw;
  }

  lemma SplitOnceWordAndRest(kw: string, args: string)
    requires kw != [] && NoSpace(kw)
    requires args != [] && !IsSpace(args[0])
    ensures SplitOnce(kw + " " + args) == [kw, args]
  {
    var line := kw + " " + args;
    SkipSpaceAt(line, 0, 0);
    SkipWordAt(line, 0, |kw|);
    SkipSpaceAt(line, |kw|, |kw| + 1);
    SliceAt(line, 0, |kw|);
    SliceAt(line, |kw| + 1, |line|);
    assert Slice(line, 0, |kw|) == kw;
    assert Slice(line, |kw| + 1, |line|) == args;
  }

  lemma SplitOnceWord(kw: string)
    requires kw != [] && NoSpace(kw)
    ensures SplitOnce(kw) == [kw]
  {
    SkipSpaceAt(kw, 0, 0);
    SkipWordAt(kw, 0, |kw|);
    SliceAt(kw, 0, |kw|);
    assert Slice(kw, 0, |kw|) == kw;
  }

  /** The line `kw args` written by a serialiser reads back as command kw
      (in lower case) with arguments args. */
  lemma ClassifyStatement(kw: string, args: string)
    requires kw != [] && NoSpace(kw) && kw[0] != '#'
    requires IsStripped(args)
    ensures Classify(kw + " " + args) ==
      Statement(if args == [] then kw else kw + " " + args, Lower(kw), args)
  {
    if args == [] {
      assert kw + " " + args == kw + " ";
      StripWordAndSpace(kw);
      SplitOnceWord(kw);
    } else {
      var raw := kw + " " + args;
      assert raw[0] == kw[0];
      assert raw[|raw| - 1] == args[|args| - 1];
      StripStripped(raw);
      SplitOnceWordAndRest(kw, args);
    }
  }

  /** A line that starts with '#' and is already stripped is a comment. */
  lemma ClassifyComment(s: string)
    requires s != [] && s[0] == '#' && IsStripped(s)
    ensures Classify(s) == Comment(s)
  {
    StripStripped(s);
  }

}
