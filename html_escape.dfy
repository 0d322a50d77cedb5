/** escapeHtml (content/src/filetype.js lines 192-195), used for the values
    of library attributes. */
module HtmlEscape {
  import opened JsText

  /** The four global replacements in the order the source applies them. */
  function EscapeHtml(s: string): string {
    ReplaceAll(ReplaceAll(ReplaceAll(ReplaceAll(s, "\"", "&quot;"), "<", "&lt;"), ">", "&gt;"), "&", "&amp;")
  }

  /** What one input character becomes. Because `&` is replaced last, the
      entities produced for `"`, `<` and `>` have their `&` escaped again. */
  function EscapeChar(c: char): string {
    if c == '"' then "&amp;quot;"
    else if c == '<' then "&amp;lt;"
    else if c == '>' then "&amp;gt;"
    else if c == '&' then "&amp;"
    else [c]
  }

  /** escapeHtml works character by character, each character becoming
      EscapeChar of it. */
  lemma EscapeHtmlPerChar(s: string)
    ensures EscapeHtml(s) == Expand(s, EscapeChar)
  {
    var f1 := CharTo('"', "&quot;");
    var f2 := CharTo('<', "&lt;");
    var f3 := CharTo('>', "&gt;");
    var f4 := CharTo('&', "&amp;");
    var s1 := ReplaceAll(s, "\"", "&quot;");
    var s2 := ReplaceAll(s1, "<", "&lt;");
    var s3 := ReplaceAll(s2, ">", "&gt;");
    ReplaceAllChar(s, '"', "&quot;");
    ReplaceAllChar(s1, '<', "&lt;");
    ReplaceAllChar(s2, '>', "&gt;");
    ReplaceAllChar(s3, '&', "&amp;");
    var g2 := x => Expand(f1(x), f2);
    var g3 := x => Expand(g2(x), f3);
    var g4 := x => Expand(g3(x), f4);
    ExpandThen(s, f1, f2);
    ExpandThen(s, g2, f3);
    ExpandThen(s, g3, f4);
    forall x ensures g4(x) == EscapeChar(x) {
      EscapeCharSteps(x);
    }
    ExpandSame(s, g4, EscapeChar);
  }

  /** The three replacements after the first applied to one character. */
  function LaterSteps(t: string): string {
    Expand(Expand(Expand(t, CharTo('<', "&lt;")), CharTo('>', "&gt;")), CharTo('&', "&amp;"))
  }

  /** An entity whose name has none of the replaced characters comes out
      of the later replacements with its `&` escaped. */
  lemma EntitySteps(name: string)
    requires forall k :: 0 <= k < |name| ==> name[k] != '<' && name[k] != '>' && name[k] != '&'
    ensures LaterSteps("&" + name) == "&amp;" + name
  {
    var t := "&" + name;
    assert forall k :: 0 < k < |t| ==> t[k] == name[k - 1];
    ExpandUnchanged(t, '<', "&lt;");
    ExpandUnchanged(t, '>', "&gt;");
    AmpEscaped(name);
  }

  lemma QuoteSteps()
    ensures LaterSteps("&quot;") == "&amp;quot;"
  {
    EntitySteps("quot;");
    assert "&" + "quot;" == "&quot;";
    assert "&amp;" + "quot;" == "&amp;quot;";
  }

  lemma LtSteps()
    ensures LaterSteps("&lt;") == "&amp;lt;"
  {
    EntitySteps("lt;");
    assert "&" + "lt;" == "&lt;";
    assert "&amp;" + "lt;" == "&amp;lt;";
  }

  lemma GtSteps()
    ensures LaterSteps("&gt;") == "&amp;gt;"
  {
    EntitySteps("gt;");
    assert "&" + "gt;" == "&gt;";
    assert "&amp;" + "gt;" == "&amp;gt;";
  }

  lemma EscapeCharSteps(x: char)
    ensures LaterSteps(CharTo('"', "&quot;")(x)) == EscapeChar(x)
  {
    if x == '"' {
      QuoteSteps();
    } else if x == '<' {
      ExpandSingle(x, CharTo('<', "&lt;"));
      LtSteps();
    } else if x == '>' {
      ExpandSingle(x, CharTo('<', "&lt;"));
      ExpandSingle(x, CharTo('>', "&gt;"));
      GtSteps();
    } else {
      ExpandSingle(x, CharTo('<', "&lt;"));
      ExpandSingle(x, CharTo('>', "&gt;"));
      ExpandSingle(x, CharTo('&', "&amp;"));
    }
  }

  /** The last replacement turns the `&` that starts an entity into `&amp;`. */
  lemma AmpEscaped(t: string)
    requires forall k :: 0 <= k < |t| ==> t[k] != '&'
    ensures Expand("&" + t, CharTo('&', "&amp;")) == "&amp;" + t
  {
    ExpandAppend("&", t, CharTo('&', "&amp;"));
    ExpandSingle('&', CharTo('&', "&amp;"));
    ExpandUnchanged(t, '&', "&amp;");
  }

  /** The result has no `"`, `<` or `>`. */
  lemma EscapeHtmlSafe(s: string)
    ensures var r := EscapeHtml(s); '"' !in r && '<' !in r && '>' !in r
  {
    EscapeHtmlPerChar(s);
    ExpandAvoids(s);
  }

  lemma {:induction false} ExpandAvoids(s: string)
    ensures var r := Expand(s, EscapeChar); '"' !in r && '<' !in r && '>' !in r
    decreases |s|
  {
    if s != [] { ExpandAvoids(s[1..]); }
  }

  /** Text without the four special characters is left as it is. */
  lemma EscapeHtmlPlain(s: string)
    requires forall k :: 0 <= k < |s| ==> s[k] !in "\"<>&"
    ensures EscapeHtml(s) == s
  {
    EscapeHtmlPerChar(s);
    PlainExpand(s);
  }

  lemma {:induction false} PlainExpand(s: string)
    requires forall k :: 0 <= k < |s| ==> s[k] !in "\"<>&"
    ensures Expand(s, EscapeChar) == s
    decreases |s|
  {
    if s != [] {
      assert forall k :: 0 <= k < |s[1..]| ==> s[1..][k] == s[k + 1];
      PlainExpand(s[1..]);
    }
  }

  /** Each character is escaped on its own, whatever surrounds it: an entity
      already in the input has its `&` escaped again. */
  lemma EscapeHtmlSplit(a: string, c: char, b: string)
    ensures EscapeHtml(a + [c] + b) == EscapeHtml(a) + EscapeChar(c) + EscapeHtml(b)
  {
    EscapeHtmlPerChar(a + [c] + b);
    EscapeHtmlPerChar(a);
    EscapeHtmlPerChar(b);
    ExpandAppend(a + [c], b, EscapeChar);
    ExpandAppend(a, [c], EscapeChar);
    ExpandSingle(c, EscapeChar);
  }
}
