/**
 * The viewer page generator: the OBJ, MTL and PLY texts are escaped for a
 * JavaScript template literal and spliced into an HTML template in place of
 * their placeholders, the texture table (already serialised as JSON) is
 * spliced in as it is, and a non-empty title replaces the template's
 * default <title> element after being escaped for HTML.
 */
module HtmlGenerator {
  import opened Text
  import opened Seqs

  // ---------------------------------------------------------------- JavaScript

  /** The escape for a JavaScript template literal: backslashes first, then
      backticks, then the interpolation opener "${". */
  function EscapeJs(text: string): string {
    Replace(Replace(Replace(text, "\\", "\\\\"), "`", "\\`"), "${", "\\${")
  }

  /** The first two passes of EscapeJs. */
  function Stage2(s: string): string {
    Replace(Replace(s, "\\", "\\\\"), "`", "\\`")
  }

  /** What the first two passes make of one character. */
  function JsChar(x: char): (r: string)
    ensures r != [] && (r[0] == '{' <==> x == '{') && (r[0] == '$' <==> x == '$')
  {
    if x == '\\' then "\\\\" else if x == '`' then "\\`" else [x]
  }

  /**
   * An independent single-pass definition of the escape: each backslash and
   * each backtick gets a backslash in front, and so does each "${", read
   * left to right on the original text.
   */
  function JsDirect(s: string): string
    decreases |s|
  {
    if s == [] then []
    else if s[0] == '$' && |s| > 1 && s[1] == '{' then "\\${" + JsDirect(s[2..])
    else JsChar(s[0]) + JsDirect(s[1..])
  }

  lemma Stage2Cons(x: char, s: string)
    ensures Stage2([x] + s) == JsChar(x) + Stage2(s)
  {
    ReplaceCharCons(x, s, '\\', "\\\\");
    var g := if x == '\\' then "\\\\" else [x];
    ReplaceCharAppend(g, Replace(s, "\\", "\\\\"), '`', "\\`");
    if x == '\\' {
      AbsentNotContained(g, "`");
    } else {
      assert [x] + [] == [x];
      ReplaceCharCons(x, [], '`', "\\`");
    }
  }

  /** "$" followed by the rest: an interpolation opener when the rest
      starts with '{'. */
  lemma DollarStep(rest: string)
    ensures EscapeJs("$" + rest) ==
      if rest != [] && rest[0] == '{' then "\\${" + EscapeJs(rest[1..]) else "$" + EscapeJs(rest)
  {
    Stage2Cons('$', rest);
    var t := Stage2(rest);
    ReplacePairCons('$', t, '$', '{', "\\${");
    if rest != [] {
      assert rest == [rest[0]] + rest[1..];
      Stage2Cons(rest[0], rest[1..]);
      if rest[0] == '{' {
        assert t[1..] == Stage2(rest[1..]);
      }
    }
  }

  /** A backslash or a backtick gets a backslash in front. */
  lemma EscapedStep(x: char, rest: string)
    requires x == '\\' || x == '`'
    ensures EscapeJs([x] + rest) == JsChar(x) + EscapeJs(rest)
  {
    Stage2Cons(x, rest);
    assert JsChar(x) == ['\\', x];
    NoDollarPrefix('\\', x, Stage2(rest));
  }

  /** Two characters neither of which is '$' open no "${". */
  lemma NoDollarPrefix(a: char, b: char, t: string)
    requires a != '$' && b != '$'
    ensures Replace([a, b] + t, "${", "\\${") == [a, b] + Replace(t, "${", "\\${")
  {
    ReplacePairCons(b, t, '$', '{', "\\${");
    assert [a, b] + t == [a] + ([b] + t);
    ReplacePairCons(a, [b] + t, '$', '{', "\\${");
  }

  /** Any other character is copied. */
  lemma PlainStep(x: char, rest: string)
    requires x != '\\' && x != '`' && x != '$'
    ensures EscapeJs([x] + rest) == [x] + EscapeJs(rest)
  {
    Stage2Cons(x, rest);
    ReplacePairCons(x, Stage2(rest), '$', '{', "\\${");
  }

  /** The three passes of EscapeJs do what the single pass does: no escape
      inserted by an earlier pass is escaped again by a later one. */
  lemma {:induction false} EscapeJsDirect(s: string)
    ensures EscapeJs(s) == JsDirect(s)
    decreases |s|
  {
    if s != [] {
      var x, rest := s[0], s[1..];
      assert s == [x] + rest;
      EscapeJsDirect(rest);
      if x == '$' {
        DollarStep(rest);
        if rest != [] && rest[0] == '{' {
          EscapeJsDirect(rest[1..]);
          assert s[2..] == rest[1..];
        }
      } else if x == '\\' || x == '`' {
        EscapedStep(x, rest);
      } else {
        PlainStep(x, rest);
      }
    }
  }

  /**
   * How a template literal reads the escapes \\, \` and \$: the character
   * after the backslash stands for itself.  A line ending "\r\n" or "\r"
   * reads as "\n" (ECMA-262, the template value of a
   * LineTerminatorSequence).  Other characters are themselves.
   */
  function JsCooked(t: string): string
    decreases |t|
  {
    if t == [] then []
    else if t[0] == '\\' && |t| > 1 && (t[1] == '\\' || t[1] == '`' || t[1] == '$') then
      [t[1]] + JsCooked(t[2..])
    else if t[0] == '\r' then
      "\n" + JsCooked(if |t| > 1 && t[1] == '\n' then t[2..] else t[1..])
    else [t[0]] + JsCooked(t[1..])
  }

  /** Text with each "\r\n" and each other "\r" turned into "\n". */
  function NormalizeLineEnds(s: string): (r: string)
    ensures '\r' !in s ==> r == s
    decreases |s|
  {
    if s == [] then []
    else if s[0] == '\r' then
      "\n" + NormalizeLineEnds(if |s| > 1 && s[1] == '\n' then s[2..] else s[1..])
    else [s[0]] + NormalizeLineEnds(s[1..])
  }

  /**
   * A template-literal body that can be embedded between backticks: every
   * backslash escapes the character after it, and no unescaped backtick
   * ends the literal and no unescaped "${" opens an interpolation.
   */
  predicate JsSafe(t: string)
    decreases |t|
  {
    if t == [] then true
    else if t[0] == '\\' then |t| > 1 && JsSafe(t[2..])
    else t[0] != '`' && !(t[0] == '$' && |t| > 1 && t[1] == '{') && JsSafe(t[1..])
  }

  lemma JsDirectHead(s: string)
    ensures JsDirect(s) != [] && JsDirect(s)[0] == '{' ==> s != [] && s[0] == '{'
    ensures JsDirect(s) != [] && JsDirect(s)[0] == '\n' ==> s != [] && s[0] == '\n'
  {
  }

  /** An escaped character reads as itself. */
  lemma CookedEscaped(c: char, t: string)
    requires c == '\\' || c == '`' || c == '$'
    ensures JsCooked(['\\', c] + t) == [c] + JsCooked(t)
  {
    assert (['\\', c] + t)[2..] == t;
  }

  /** A character other than a backslash or a carriage return reads as
      itself. */
  lemma CookedPlain(c: char, t: string)
    requires c != '\\' && c != '\r'
    ensures JsCooked([c] + t) == [c] + JsCooked(t)
  {
    assert ([c] + t)[1..] == t;
  }

  lemma {:induction false} JsDirectCooked(s: string)
    ensures JsCooked(JsDirect(s)) == NormalizeLineEnds(s)
    decreases |s|
  {
    if s != [] {
      if s[0] == '$' && |s| > 1 && s[1] == '{' {
        var t := JsDirect(s[2..]);
        JsDirectCooked(s[2..]);
        assert JsDirect(s) == ['\\', '$'] + ("{" + t);
        CookedEscaped('$', "{" + t);
        CookedPlain('{', t);
        assert s[1..][1..] == s[2..];
      } else if s[0] == '\r' {
        var t := JsDirect(s[1..]);
        assert JsDirect(s) == "\r" + t;
        JsDirectHead(s[1..]);
        if |s| > 1 && s[1] == '\n' {
          JsDirectCooked(s[2..]);
          assert s[1..][1..] == s[2..];
          assert t == "\n" + JsDirect(s[2..]);
          assert ("\r" + t)[2..] == JsDirect(s[2..]);
        } else {
          JsDirectCooked(s[1..]);
          assert ("\r" + t)[1..] == t;
        }
      } else {
        var t := JsDirect(s[1..]);
        JsDirectCooked(s[1..]);
        assert JsDirect(s) == JsChar(s[0]) + t;
        if s[0] == '\\' || s[0] == '`' {
          CookedEscaped(s[0], t);
        } else {
          CookedPlain(s[0], t);
        }
      }
    }
  }

  lemma {:induction false} JsDirectSafe(s: string)
    ensures JsSafe(JsDirect(s))
    decreases |s|
  {
    if s != [] {
      var d := JsDirect(s);
      if s[0] == '$' && |s| > 1 && s[1] == '{' {
        JsDirectSafe(s[2..]);
        assert d[2..] == "{" + JsDirect(s[2..]);
        assert d[2..][1..] == JsDirect(s[2..]);
      } else if s[0] == '\\' || s[0] == '`' {
        JsDirectSafe(s[1..]);
        assert d[2..] == JsDirect(s[1..]);
      } else {
        JsDirectSafe(s[1..]);
        JsDirectHead(s[1..]);
        assert d[1..] == JsDirect(s[1..]);
      }
    }
  }

  /** The escaped text reads back, inside a template literal, as the text
      with its line endings normalised; text without '\r' reads back as
      itself. */
  lemma EscapeJsRoundTrip(s: string)
    ensures JsCooked(EscapeJs(s)) == NormalizeLineEnds(s)
    ensures '\r' !in s ==> JsCooked(EscapeJs(s)) == s
  {
    EscapeJsDirect(s);
    JsDirectCooked(s);
  }

  /** A carriage return is left as it is by the escape, so it does not read
      back as itself. */
  lemma EscapeJsCarriageReturn()
    ensures EscapeJs("a\r\nb") == "a\r\nb"
    ensures JsCooked(EscapeJs("a\r\nb")) == "a\nb"
  {
    AbsentNotContained("a\r\nb", "${");
    EscapeJsPlain("a\r\nb");
    var t := "a\r\nb";
    assert t[1..][2..] == "b";
  }

  /** The escaped text neither closes the literal nor interpolates. */
  lemma EscapeJsSafe(s: string)
    ensures JsSafe(EscapeJs(s))
  {
    EscapeJsDirect(s);
    JsDirectSafe(s);
  }

  lemma {:induction false} JsDirectPlain(s: string)
    requires '\\' !in s && '`' !in s && !Contains(s, "${")
    ensures JsDirect(s) == s
    decreases |s|
  {
    if s != [] {
      assert s == [s[0]] + s[1..];
      JsDirectPlain(s[1..]);
    }
  }

  /** Text with nothing to escape is embedded unchanged. */
  lemma EscapeJsPlain(s: string)
    requires '\\' !in s && '`' !in s && !Contains(s, "${")
    ensures EscapeJs(s) == s
  {
    EscapeJsDirect(s);
    JsDirectPlain(s);
  }

  // ---------------------------------------------------------------- HTML

  /** The HTML escape: '&' first, then '<', '>', '"' and "'". */
  function EscapeHtml(text: string): string {
    Replace(Replace(Replace(Replace(Replace(text, "&", "&amp;"), "<", "&lt;"),
      ">", "&gt;"), "\"", "&quot;"), "'", "&#x27;")
  }

  /** The entity each special character becomes. */
  function HtmlChar(c: char): string {
    if c == '&' then "&amp;"
    else if c == '<' then "&lt;"
    else if c == '>' then "&gt;"
    else if c == '"' then "&quot;"
    else if c == '\'' then "&#x27;"
    else [c]
  }

  lemma EscapeHtmlAppend(a: string, b: string)
    ensures EscapeHtml(a + b) == EscapeHtml(a) + EscapeHtml(b)
  {
    ReplaceCharAppend(a, b, '&', "&amp;");
    var a1, b1 := Replace(a, "&", "&amp;"), Replace(b, "&", "&amp;");
    ReplaceCharAppend(a1, b1, '<', "&lt;");
    var a2, b2 := Replace(a1, "<", "&lt;"), Replace(b1, "<", "&lt;");
    ReplaceCharAppend(a2, b2, '>', "&gt;");
    var a3, b3 := Replace(a2, ">", "&gt;"), Replace(b2, ">", "&gt;");
    ReplaceCharAppend(a3, b3, '"', "&quot;");
    var a4, b4 := Replace(a3, "\"", "&quot;"), Replace(b3, "\"", "&quot;");
    ReplaceCharAppend(a4, b4, '\'', "&#x27;");
  }

  /** The five passes leave an entity alone once it is written. */
  lemma EntityKept(e: string)
    requires '<' !in e && '>' !in e && '"' !in e && '\'' !in e
    ensures Replace(Replace(Replace(Replace(e, "<", "&lt;"), ">", "&gt;"), "\"", "&quot;"), "'", "&#x27;") == e
  {
    AbsentNotContained(e, "<");
    AbsentNotContained(e, ">");
    AbsentNotContained(e, "\"");
    AbsentNotContained(e, "'");
  }

  lemma EscapeAmp()
    ensures EscapeHtml("&") == "&amp;"
  {
    ReplaceSingleton('&', '&', "&amp;");
    EntityKept("&amp;");
  }

  lemma EscapeLt()
    ensures EscapeHtml("<") == "&lt;"
  {
    ReplaceSingleton('<', '&', "&amp;");
    ReplaceSingleton('<', '<', "&lt;");
    AbsentNotContained("&lt;", ">");
    AbsentNotContained("&lt;", "\"");
    AbsentNotContained("&lt;", "'");
  }

  lemma EscapeGt()
    ensures EscapeHtml(">") == "&gt;"
  {
    ReplaceSingleton('>', '&', "&amp;");
    ReplaceSingleton('>', '<', "&lt;");
    ReplaceSingleton('>', '>', "&gt;");
    AbsentNotContained("&gt;", "\"");
    AbsentNotContained("&gt;", "'");
  }

  lemma EscapeQuot()
    ensures EscapeHtml("\"") == "&quot;"
  {
    ReplaceSingleton('"', '&', "&amp;");
    ReplaceSingleton('"', '<', "&lt;");
    ReplaceSingleton('"', '>', "&gt;");
    ReplaceSingleton('"', '"', "&quot;");
    AbsentNotContained("&quot;", "'");
  }

  lemma EscapeApos()
    ensures EscapeHtml("'") == "&#x27;"
  {
    ReplaceSingleton('\'', '&', "&amp;");
    ReplaceSingleton('\'', '<', "&lt;");
    ReplaceSingleton('\'', '>', "&gt;");
    ReplaceSingleton('\'', '"', "&quot;");
    ReplaceSingleton('\'', '\'', "&#x27;");
  }

  lemma EscapeHtmlOne(c: char)
    ensures EscapeHtml([c]) == HtmlChar(c)
  {
    if c == '&' {
      EscapeAmp();
    } else if c == '<' {
      EscapeLt();
    } else if c == '>' {
      EscapeGt();
    } else if c == '"' {
      EscapeQuot();
    } else if c == '\'' {
      EscapeApos();
    } else {
      EscapeHtmlPlain([c]);
    }
  }

  /** The chain of passes is the same as replacing each character by its
      entity in one pass: no entity written by a pass is escaped again. */
  lemma {:induction false} EscapeHtmlEach(s: string)
    ensures EscapeHtml(s) == Collect(s, HtmlChar)
    decreases |s|
  {
    if s != [] {
      var n := |s| - 1;
      assert s == s[..n] + [s[n]];
      EscapeHtmlEach(s[..n]);
      EscapeHtmlAppend(s[..n], [s[n]]);
      EscapeHtmlOne(s[n]);
    } else {
      assert Replace([], "&", "&amp;") == [];
    }
  }

  /** The characters that end or open markup. */
  predicate IsMarkup(c: char) {
    c == '<' || c == '>' || c == '"' || c == '\''
  }

  /** No escaped text holds a character that ends or opens markup. */
  lemma EscapeHtmlSafe(s: string)
    ensures forall i :: 0 <= i < |EscapeHtml(s)| ==> !IsMarkup(EscapeHtml(s)[i])
  {
    EscapeHtmlEach(s);
    CollectAll(s, HtmlChar, (c: char) => !IsMarkup(c));
  }

  /** Text without special characters is put in unchanged. */
  lemma EscapeHtmlPlain(s: string)
    requires '&' !in s && '<' !in s && '>' !in s && '"' !in s && '\'' !in s
    ensures EscapeHtml(s) == s
  {
    AbsentNotContained(s, "&");
    EntityKept(s);
  }

  /** How a browser reads the five entities back. */
  function HtmlDecode(t: string): string
    decreases |t|
  {
    if t == [] then []
    else if HasPrefix(t, "&amp;") then "&" + HtmlDecode(t[5..])
    else if HasPrefix(t, "&lt;") then "<" + HtmlDecode(t[4..])
    else if HasPrefix(t, "&gt;") then ">" + HtmlDecode(t[4..])
    else if HasPrefix(t, "&quot;") then "\"" + HtmlDecode(t[6..])
    else if HasPrefix(t, "&#x27;") then "'" + HtmlDecode(t[6..])
    else [t[0]] + HtmlDecode(t[1..])
  }

  lemma NotPrefixAt(t: string, p: string, i: nat)
    requires i < |p| && (i >= |t| || t[i] != p[i])
    ensures !HasPrefix(t, p)
  {
  }

  /** The entity e, at the head of a text, is read back as c. */
  lemma DecodeEntity(e: string, c: char, r: string)
    requires (e, c) in [("&amp;", '&'), ("&lt;", '<'), ("&gt;", '>'), ("&quot;", '"'), ("&#x27;", '\'')]
    ensures HtmlDecode(e + r) == [c] + HtmlDecode(r)
  {
    var t := e + r;
    assert t[..|e|] == e;
    assert t[|e|..] == r;
    assert t[1] == e[1];
    if c != '&' {
      NotPrefixAt(t, "&amp;", 1);
      if c != '<' {
        NotPrefixAt(t, "&lt;", 1);
        if c != '>' {
          NotPrefixAt(t, "&gt;", 1);
          if c != '"' {
            NotPrefixAt(t, "&quot;", 1);
          }
        }
      }
    }
  }

  lemma DecodeChar(c: char, r: string)
    ensures HtmlDecode(HtmlChar(c) + r) == [c] + HtmlDecode(r)
  {
    if c == '&' {
      DecodeEntity("&amp;", c, r);
    } else if c == '<' {
      DecodeEntity("&lt;", c, r);
    } else if c == '>' {
      DecodeEntity("&gt;", c, r);
    } else if c == '"' {
      DecodeEntity("&quot;", c, r);
    } else if c == '\'' {
      DecodeEntity("&#x27;", c, r);
    } else {
      var t := [c] + r;
      NotPrefixAt(t, "&amp;", 0);
      NotPrefixAt(t, "&lt;", 0);
      NotPrefixAt(t, "&gt;", 0);
      NotPrefixAt(t, "&quot;", 0);
      NotPrefixAt(t, "&#x27;", 0);
      assert t[1..] == r;
    }
  }

  /** The escaped title reads back as the title: every '&' of the text
      becomes exactly one "&amp;". */
  lemma {:induction false} EscapeHtmlRoundTrip(s: string)
    ensures HtmlDecode(EscapeHtml(s)) == s
    decreases |s|
  {
    if s != [] {
      assert s == [s[0]] + s[1..];
      EscapeHtmlAppend([s[0]], s[1..]);
      EscapeHtmlOne(s[0]);
      DecodeChar(s[0], EscapeHtml(s[1..]));
      EscapeHtmlRoundTrip(s[1..]);
    } else {
      assert Replace([], "&", "&amp;") == [];
    }
  }

  // ---------------------------------------------------------------- pages

  const ObjPlaceholder := "{{OBJ_DATA}}"
  const MtlPlaceholder := "{{MTL_DATA}}"
  const TexturePlaceholder := "{{TEXTURE_DATA}}"
  const PlyPlaceholder := "{{PLY_DATA}}"
  const ObjTitle := "<title>Terra 3D Model Viewer (OBJ)</title>"
  const PlyTitle := "<title>Terra Point Cloud Viewer (PLY)</title>"

  /** A non-empty title replaces the template's default title element. */
  function SetTitle(html: string, default: string, title: string): string
    requires default != []
  {
    if title != "" then Replace(html, default, "<title>" + EscapeHtml(title) + "</title>")
    else html
  }

  /** The placeholders of the OBJ template, filled in this order. */
  function ObjBody(template: string, obj: string, mtl: string, textures: string): string {
    var h1 := Replace(template, ObjPlaceholder, EscapeJs(obj));
    var h2 := Replace(h1, MtlPlaceholder, EscapeJs(mtl));
    Replace(h2, TexturePlaceholder, textures)
  }

  /** The OBJ viewer page; textures is the JSON text of the texture table. */
  function ObjViewer(template: string, obj: string, mtl: string, textures: string,
                     title: string): string {
    SetTitle(ObjBody(template, obj, mtl, textures), ObjTitle, title)
  }

  /** The PLY viewer page. */
  function PlyViewer(template: string, ply: string, title: string): string {
    SetTitle(Replace(template, PlyPlaceholder, EscapeJs(ply)), PlyTitle, title)
  }

  /** The regroupings FillThree needs, away from its other facts. */
  lemma FillShape(a: string, p1: string, b: string, p2: string, c: string, p3: string,
                  d: string, v1: string, v2: string)
    ensures a + p1 + b + p2 + c + p3 + d == a + p1 + (b + p2 + (c + p3 + d))
    ensures b + p2 + (c + p3 + d) == b + p2 + c + p3 + d
    ensures a + v1 + (b + p2 + (c + p3 + d)) == a + v1 + b + p2 + (c + p3 + d)
    ensures a + v1 + b + v2 + (c + p3 + d) == a + v1 + b + v2 + c + p3 + d
  {
  }

  /** Three placeholders, each occurring once and not made again by the
      text spliced before it, are replaced where they stand. */
  lemma FillThree(a: string, p1: string, b: string, p2: string, c: string, p3: string,
                  d: string, v1: string, v2: string, v3: string)
    requires p1 != [] && p2 != [] && p3 != []
    requires !Contains(a + Lead(p1), p1) && !Contains(b + p2 + c + p3 + d, p1)
    requires !Contains(a + v1 + b + Lead(p2), p2) && !Contains(c + p3 + d, p2)
    requires !Contains(a + v1 + b + v2 + c + Lead(p3), p3) && !Contains(d, p3)
    ensures Replace(Replace(Replace(a + p1 + b + p2 + c + p3 + d, p1, v1), p2, v2), p3, v3)
         == a + v1 + b + v2 + c + v3 + d
  {
    FillShape(a, p1, b, p2, c, p3, d, v1, v2);
    ReplaceOnce(a, p1, v1, b + p2 + (c + p3 + d));
    ReplaceOnce(a + v1 + b, p2, v2, c + p3 + d);
    ReplaceOnce(a + v1 + b + v2 + c, p3, v3, d);
  }

  /**
   * A template laid out as a + {{OBJ_DATA}} + b + {{MTL_DATA}} + c +
   * {{TEXTURE_DATA}} + d, where each placeholder occurs once and the text
   * spliced before it does not make another one, gets each escaped text
   * exactly in its placeholder's place.
   */
  lemma ObjBodyFill(a: string, b: string, c: string, d: string,
                    obj: string, mtl: string, textures: string)
    requires !Contains(a + Lead(ObjPlaceholder), ObjPlaceholder)
    requires !Contains(b + MtlPlaceholder + c + TexturePlaceholder + d, ObjPlaceholder)
    requires !Contains(a + EscapeJs(obj) + b + Lead(MtlPlaceholder), MtlPlaceholder)
    requires !Contains(c + TexturePlaceholder + d, MtlPlaceholder)
    requires !Contains(a + EscapeJs(obj) + b + EscapeJs(mtl) + c + Lead(TexturePlaceholder),
                       TexturePlaceholder)
    requires !Contains(d, TexturePlaceholder)
    ensures ObjBody(a + ObjPlaceholder + b + MtlPlaceholder + c + TexturePlaceholder + d,
                    obj, mtl, textures)
         == a + EscapeJs(obj) + b + EscapeJs(mtl) + c + textures + d
  {
    FillThree(a, ObjPlaceholder, b, MtlPlaceholder, c, TexturePlaceholder, d,
              EscapeJs(obj), EscapeJs(mtl), textures);
  }

  /** Every {{PLY_DATA}} of the template gets the escaped PLY text. The
      escaped text is not searched again. */
  lemma PlyBodyFill(parts: seq<string>, ply: string)
    requires parts != []
    requires forall k :: 0 <= k < |parts| - 1 ==> !Contains(parts[k] + Lead(PlyPlaceholder), PlyPlaceholder)
    requires !Contains(parts[|parts| - 1], PlyPlaceholder)
    ensures Replace(Join(PlyPlaceholder, parts), PlyPlaceholder, EscapeJs(ply)) ==
      Join(EscapeJs(ply), parts)
  {
    ReplaceEvery(parts, PlyPlaceholder, EscapeJs(ply));
  }

  /** The default title element, occurring once, is replaced by the escaped
      title when one is given and kept otherwise. */
  lemma SetTitleFill(a: string, default: string, b: string, title: string)
    requires default != []
    requires !Contains(a + Lead(default), default) && !Contains(b, default)
    ensures SetTitle(a + default + b, default, title) ==
      if title == "" then a + default + b
      else a + "<title>" + EscapeHtml(title) + "</title>" + b
  {
    if title != "" {
      var e := EscapeHtml(title);
      ReplaceOnce(a, default, "<title>" + e + "</title>", b);
      Regroup(a, "<title>", e, "</title>", b);
    }
  }

  lemma Regroup(a: string, x: string, y: string, z: string, b: string)
    ensures a + (x + y + z) + b == a + x + y + z + b
  {
  }

  /** A template without any placeholder or default title is the page. */
  lemma ObjViewerPlain(template: string, obj: string, mtl: string, textures: string,
                       title: string)
    requires !Contains(template, ObjPlaceholder) && !Contains(template, MtlPlaceholder)
    requires !Contains(template, TexturePlaceholder) && !Contains(template, ObjTitle)
    ensures ObjViewer(template, obj, mtl, textures, title) == template
  {
  }

  lemma ShortNotContained(s: string, pat: string)
    requires |s| < |pat|
    ensures !Contains(s, pat)
  {
  }

  /**
   * The passes rescan what earlier passes spliced in: OBJ text that is the
   * MTL placeholder gets the MTL text "m" in its place.
   */
  lemma ObjDataRescanned()
    ensures ObjBody(ObjPlaceholder, MtlPlaceholder, "m", "") == "m"
  {
    assert PlainJs(MtlPlaceholder);
    PlaceholderPlain(MtlPlaceholder);
    assert PlainJs("m");
    PlaceholderPlain("m");
    ReplaceWhole(ObjPlaceholder, MtlPlaceholder);
    ReplaceWhole(MtlPlaceholder, "m");
    ShortNotContained("m", TexturePlaceholder);
  }

  /** A text free of the three special characters. */
  predicate PlainJs(s: string) {
    forall i :: 0 <= i < |s| ==> s[i] != '\\' && s[i] != '`' && s[i] != '$'
  }

  lemma PlaceholderPlain(s: string)
    requires PlainJs(s)
    ensures EscapeJs(s) == s
  {
    AbsentNotContained(s, "${");
    EscapeJsPlain(s);
  }

  /** The whole text being the pattern, it is replaced once. */
  lemma ReplaceWhole(pat: string, v: string)
    requires pat != []
    ensures Replace(pat, pat, v) == v
  {
    ShortNotContained(Lead(pat), pat);
    ShortNotContained([], pat);
    assert [] + Lead(pat) == Lead(pat);
    ReplaceOnce([], pat, v, []);
    assert [] + pat + [] == pat;
    assert [] + v + [] == v;
  }

}
