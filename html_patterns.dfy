/** Hand-written matchers for the regular expressions of content/src/filetype.js.
    Each anchored matcher returns the end of the match that JavaScript's
    backtracking finds first. A greedy run of one character class is taken at
    full length wherever giving characters back cannot let the rest of the
    pattern succeed (the character after a shortened run is again in the class,
    and the rest of the pattern cannot start with it); a comment at each such
    place says why. Where giving back can matter, the alternatives are tried in
    JavaScript's order. */
module HtmlPatterns {
  import opened Wrappers
  import opened JsText

  predicate IsDash(c: char) { c == '-' }
  predicate IsNotDash(c: char) { c != '-' }
  predicate IsNotQuote(c: char) { c != '\'' }

  // ---------------------------------------------------------------------
  // /^<!--[^-]*(?:-(?:[^-]|-[^>])[^-]*)*-*-->/   (filetype.js line 28)

  /** One iteration of `-(?:[^-]|-[^>])[^-]*` at `p`. The two alternatives
      exclude each other (the second character is a dash or not), and the
      trailing `[^-]*` runs to the next dash: stopping earlier leaves a
      non-dash, where neither another iteration nor `-*-->` can start. */
  function CommentGroup(s: string, p: nat): (r: Option<nat>)
    requires p <= |s|
    ensures r.Some? ==> p + 2 <= r.value <= |s|
  {
    if p + 1 < |s| && s[p] == '-' && s[p + 1] != '-' then Some(RunEnd(s, p + 2, IsNotDash))
    else if p + 2 < |s| && s[p] == '-' && s[p + 1] == '-' && s[p + 2] != '>' then Some(RunEnd(s, p + 3, IsNotDash))
    else None
  }

  /** `-*-->` at `p`. The greedy `-*` takes the whole dash run and gives dashes
      back one at a time; only the split that leaves exactly two dashes in front
      of a `>` succeeds. */
  function CommentClose(s: string, p: nat): (r: Option<nat>)
    requires p <= |s|
    ensures r.Some? ==> p + 3 <= r.value <= |s|
    ensures r.Some? ==> s[r.value - 3] == '-' && s[r.value - 2] == '-' && s[r.value - 1] == '>'
  {
    var m := RunEnd(s, p, IsDash);
    RunEndAll(s, p, IsDash);
    if m >= p + 2 && m < |s| && s[m] == '>' then Some(m + 1) else None
  }

  /** `(?:group)*-*-->` at `p`: the greedy star first tries one more group and
      the rest after it, and falls back to closing here. */
  function CommentRest(s: string, p: nat): (r: Option<nat>)
    requires p <= |s|
    ensures r.Some? ==> p + 3 <= r.value <= |s|
    ensures r.Some? ==> s[r.value - 3] == '-' && s[r.value - 2] == '-' && s[r.value - 1] == '>'
    decreases |s| - p
  {
    match CommentGroup(s, p)
    case Some(q) =>
      (match CommentRest(s, q)
       case Some(e) => Some(e)
       case None => CommentClose(s, p))
    case None => CommentClose(s, p)
  }

  /** `<!--` at `at`. */
  predicate CommentOpenAt(s: string, at: nat) {
    at + 4 <= |s| && s[at] == '<' && s[at + 1] == '!' && s[at + 2] == '-' && s[at + 3] == '-'
  }

  /** The end of the comment that starts at `at`, if there is one. The first
      `[^-]*` runs to the first dash for the same reason as in CommentGroup. */
  function CommentMatch(s: string, at: nat): (r: Option<nat>)
    requires at <= |s|
    ensures r.Some? ==> at + 7 <= r.value <= |s|
  {
    if CommentOpenAt(s, at) then CommentRest(s, RunEnd(s, at + 4, IsNotDash)) else None
  }

  /** A comment token opens with `<!--` and closes with `-->`. */
  lemma CommentShape(s: string, at: nat)
    requires at <= |s| && CommentMatch(s, at).Some?
    ensures CommentOpenAt(s, at)
    ensures var e := CommentMatch(s, at).value;
      s[e - 3] == '-' && s[e - 2] == '-' && s[e - 1] == '>'
  {
  }

  // ---------------------------------------------------------------------
  // /^<([^\s>]+\b)\s*(?:[^\s=>]+\s*=\s*(?:[^\s>]+|'[^']*'|"[^"]")\s*)*\s*>/
  //                                                         (line 31)

  predicate IsTagNameChar(c: char) { !IsSpace(c) && c != '>' }
  predicate IsAttrNameChar(c: char) { !IsSpace(c) && c != '=' && c != '>' }

  /** A tag token starting at some offset `at`: the name is `s[at + 1..nameEnd]`
      (`match[1]`) and the token is `s[at..end]` (`match[0]`). */
  datatype Tag = Tag(nameEnd: nat, end: nat)

  /** `\s*>` at `p`. Giving back spaces cannot help, since `>` is not a space. */
  function TagClose(s: string, p: nat): (r: Option<nat>)
    requires p <= |s|
    ensures r.Some? ==> p < r.value <= |s| && s[r.value - 1] == '>'
  {
    var q := SkipSpaces(s, p);
    if q < |s| && s[q] == '>' then Some(q + 1) else None
  }

  /** `(?:attribute)*\s*>` at `p`, with `p` just after a run of spaces. The greedy
      star tries one more attribute first. */
  function TagAttrs(s: string, p: nat): (r: Option<nat>)
    requires p <= |s|
    ensures r.Some? ==> p < r.value <= |s| && s[r.value - 1] == '>'
    decreases |s| - p, 3, 0
  {
    match TagAttr(s, p)
    case Some(e) => Some(e)
    case None => TagClose(s, p)
  }

  /** One `[^\s=>]+\s*=\s*value\s*` at `p` followed by the rest of the tag. The
      name runs to its end (a shorter name is followed by a name character, which
      is neither a space nor `=`), and so do the two space runs (a value cannot
      start with a space). */
  function TagAttr(s: string, p: nat): (r: Option<nat>)
    requires p <= |s|
    ensures r.Some? ==> p < r.value <= |s| && s[r.value - 1] == '>'
    decreases |s| - p, 2, 0
  {
    var n := RunEnd(s, p, IsAttrNameChar);
    if n == p then None
    else
      var q := SkipSpaces(s, n);
      if q < |s| && s[q] == '=' then TagValue(s, SkipSpaces(s, q + 1)) else None
  }

  /** The attribute value at `v` and the rest of the tag, trying the three
      alternatives in order: a bare value, `'…'`, then `"x"` (exactly one
      character between double quotes, as the pattern is written). */
  function TagValue(s: string, v: nat): (r: Option<nat>)
    requires v <= |s|
    ensures r.Some? ==> v < r.value <= |s| && s[r.value - 1] == '>'
    decreases |s| - v, 1, 0
  {
    match TagBareValue(s, v, RunEnd(s, v, IsTagNameChar))
    case Some(e) => Some(e)
    case None =>
      if v < |s| && s[v] == '\'' then
        var close := RunEnd(s, v + 1, IsNotQuote);
        if close < |s| then TagAttrs(s, SkipSpaces(s, close + 1)) else None
      else if v + 2 < |s| && s[v] == '"' && s[v + 1] != '"' && s[v + 2] == '"' then
        TagAttrs(s, SkipSpaces(s, v + 3))
      else None
  }

  /** A bare value `s[v..e]` and the rest of the tag, giving back one character
      at a time from the longest run: here giving back can matter, because the
      remainder of the run may start another attribute. */
  function TagBareValue(s: string, v: nat, e: nat): (r: Option<nat>)
    requires v <= e <= |s|
    ensures r.Some? ==> v < r.value <= |s| && s[r.value - 1] == '>'
    decreases |s| - v, 0, e
  {
    if e == v then None
    else
      match TagAttrs(s, SkipSpaces(s, e))
      case Some(r) => Some(r)
      case None => TagBareValue(s, v, e - 1)
  }

  /** The tag name `s[at + 1..k]` followed by `\b` and the rest of the tag,
      giving back one character at a time from the longest name. */
  function TagWithName(s: string, at: nat, k: nat): (r: Option<Tag>)
    requires at + 1 <= k <= |s|
    ensures r.Some? ==> at + 2 <= r.value.nameEnd <= k && r.value.nameEnd < r.value.end <= |s|
    ensures r.Some? ==> IsWordBoundary(s, r.value.nameEnd) && s[r.value.end - 1] == '>'
    decreases k
  {
    if k == at + 1 then None
    else if IsWordBoundary(s, k) && TagAttrs(s, SkipSpaces(s, k)).Some? then
      Some(Tag(k, TagAttrs(s, SkipSpaces(s, k)).value))
    else TagWithName(s, at, k - 1)
  }

  /** The tag token starting at `at`, if the pattern matches there. */
  function TagMatch(s: string, at: nat): (r: Option<Tag>)
    requires at <= |s|
    ensures r.Some? ==> at + 2 <= r.value.nameEnd < r.value.end <= |s|
  {
    if at < |s| && s[at] == '<' then TagWithName(s, at, RunEnd(s, at + 1, IsTagNameChar)) else None
  }

  /** A tag token is `<`, a name of non-space characters other than `>` that
      ends on a word boundary, and text up to a closing `>`. */
  lemma TagShape(s: string, at: nat)
    requires at <= |s| && TagMatch(s, at).Some?
    ensures var t := TagMatch(s, at).value;
      && s[at] == '<'
      && (forall i :: at + 1 <= i < t.nameEnd ==> IsTagNameChar(s[i]))
      && IsWordBoundary(s, t.nameEnd)
      && s[t.end - 1] == '>'
  {
    RunEndAll(s, at + 1, IsTagNameChar);
  }

  /** `match[1]` of the tag token at `at`. */
  function TagName(s: string, at: nat, t: Tag): (name: string)
    requires at + 2 <= t.nameEnd <= |s|
    ensures |name| == t.nameEnd - at - 1
  {
    s[at + 1..t.nameEnd]
  }

  // ---------------------------------------------------------------------
  // Names tested on match[1] (lines 32, 41, 59).

  /** `/^(?:!doctype|html|head|link|meta|base|title|script|style|\/\w+)$/i` */
  predicate IsHeadTagName(n: string) {
    LowerStr(n) in {"!doctype", "html", "head", "link", "meta", "base", "title", "script", "style"}
    || (|n| >= 2 && n[0] == '/' && forall i :: 1 <= i < |n| ==> IsWordChar(n[i]))
  }

  /** `/^(?:title|style|script)$/i` */
  predicate IsOpaqueTagName(n: string) {
    LowerStr(n) in {"title", "style", "script"}
  }

  /** `/^body$/i` */
  predicate IsBodyTagName(n: string) {
    LowerStr(n) == "body"
  }

  // ---------------------------------------------------------------------
  // new RegExp('</(' + name + '\\b)[^>]*>', 'i'), searched (lines 45-46).

  /** The closing tag found by the search: at `index`, `length` characters long,
      and `name` is its `match[1]` as written in the text. */
  datatype EndTag = EndTag(index: nat, length: nat, name: string)

  predicate EndTagAt(s: string, i: nat, name: string) {
    var n := i + 2 + |name|;
    n <= |s| && s[i] == '<' && s[i + 1] == '/' && EqualsIgnoreCase(s[i + 2..n], name)
    && IsWordBoundary(s, n) && IndexOfChar(s, '>', n).Some?
  }

  /** The leftmost closing tag for `name` at or after `from`; `[^>]*>` ends at
      the first `>`. */
  function FindEndTag(s: string, from: nat, name: string): (r: Option<EndTag>)
    requires from <= |s|
    ensures r.Some? ==> from <= r.value.index && r.value.index + r.value.length <= |s|
    ensures r.Some? ==> r.value.length >= |name| + 3
  {
    var at := (k: nat) => EndTagAt(s, k, name);
    assert forall k: nat :: at(k) == EndTagAt(s, k, name);
    match FirstWhere(at, from, |s| + 1)
    case None => None
    case Some(i) =>
      var n := i + 2 + |name|;
      var g := IndexOfChar(s, '>', n).value;
      Some(EndTag(i, g + 1 - i, s[i + 2..n]))
  }

  /** The closing tag found is the leftmost one at or after `from`, its name
      equals `name` up to ASCII case, and it ends at the first `>` after it. */
  lemma FindEndTagLeftmost(s: string, from: nat, name: string)
    requires from <= |s|
    ensures var r := FindEndTag(s, from, name);
      && (r.Some? ==>
            EndTagAt(s, r.value.index, name)
            && EqualsIgnoreCase(r.value.name, name)
            && r.value.name == s[r.value.index + 2..r.value.index + 2 + |name|]
            && s[r.value.index + r.value.length - 1] == '>'
            && (forall k :: from <= k < r.value.index ==> !EndTagAt(s, k, name)))
      && (r.None? ==> forall k :: from <= k <= |s| ==> !EndTagAt(s, k, name))
  {
    var at := (k: nat) => EndTagAt(s, k, name);
    assert forall k: nat :: at(k) == EndTagAt(s, k, name);
  }

  /** The name of the closing tag found equals `name` up to ASCII case. */
  lemma FindEndTagName(s: string, from: nat, name: string)
    requires from <= |s| && FindEndTag(s, from, name).Some?
    ensures LowerStr(FindEndTag(s, from, name).value.name) == LowerStr(name)
  {
    var at := (k: nat) => EndTagAt(s, k, name);
    assert forall k: nat :: at(k) == EndTagAt(s, k, name);
    var i := FirstWhere(at, from, |s| + 1).value;
    assert EndTagAt(s, i, name);
  }

  // ---------------------------------------------------------------------
  // Patterns of modifyForPreview (lines 76, 206, 221-222, 245-252).

  /** A case-insensitive substring test, `/pat/i.test(s)`, for a pattern made
      of literal characters. */
  predicate ContainsIgnoreCase(s: string, pat: string) {
    Contains(LowerStr(s), LowerStr(pat))
  }

  /** An exact occurrence is also one up to case. */
  lemma ContainsIgnoreCaseAt(s: string, k: nat, pat: string)
    requires k + |pat| <= |s| && s[k..k + |pat|] == pat
    ensures ContainsIgnoreCase(s, pat)
  {
    var l := LowerStr(s);
    assert l[k..][..|pat|] == LowerStr(pat) by {
      forall j | 0 <= j < |pat| ensures l[k..][..|pat|][j] == LowerStr(pat)[j] {
        assert s[k + j] == pat[j];
      }
    }
    ContainsAtContains(l, k, LowerStr(pat));
  }

  /** `/<\/?script/i.test(html)` */
  predicate HasScriptTag(s: string) {
    ContainsIgnoreCase(s, "<script") || ContainsIgnoreCase(s, "</script")
  }

  /** `text.match(/<script|<i?frame|<object/i)` is not null. */
  predicate HasActiveContent(s: string) {
    ContainsIgnoreCase(s, "<script") || ContainsIgnoreCase(s, "<frame")
    || ContainsIgnoreCase(s, "<iframe") || ContainsIgnoreCase(s, "<object")
  }

  /** `/<base/i.exec(text)` is not null. */
  predicate HasBaseTag(s: string) {
    ContainsIgnoreCase(s, "<base")
  }

  /** `[^>]+xmlns` from `y`. */
  predicate XmlnsBeforeGt(s: string, y: nat)
    requires y <= |s|
    decreases |s| - y
  {
    y < |s| && s[y] != '>' && (ContainsAt(s, y + 1, "xmlns") || XmlnsBeforeGt(s, y + 1))
  }

  predicate SvgXmlnsFrom(s: string, q: nat) {
    q + 3 <= |s| && s[q..q + 3] == "svg" && XmlnsBeforeGt(s, q + 3)
  }

  /** `<(?:[\w]+:)?svg[^>]+xmlns` at `i`. With the prefix, `[\w]+` must run up to
      the `:`, so it is the whole word run. */
  predicate SvgXmlnsAt(s: string, i: nat) {
    i < |s| && s[i] == '<'
    && (SvgXmlnsFrom(s, i + 1)
        || (var w := RunEnd(s, i + 1, IsWordChar);
            w > i + 1 && w < |s| && s[w] == ':' && SvgXmlnsFrom(s, w + 1)))
  }

  /** `/<(?:[\w]+:)?svg[^>]+xmlns/.test(text)` */
  predicate HasSvgNamespace(s: string) {
    exists i :: 0 <= i < |s| && SvgXmlnsAt(s, i)
  }

  /** One of the content tags of line 248 at `i`, followed by `\b`. */
  predicate ContentTagAt(s: string, i: nat) {
    var l := LowerStr(s);
    exists w :: w in ["<link", "<script", "<style", "<body", "<img", "<iframe", "<frame", "<meta", "<a"]
      && ContainsAt(l, i, w) && IsWordBoundary(s, i + |w|)
  }

  /** The index of `text.match(/(?:<link|…|<a)\b/i)`. */
  function FirstContentTag(s: string): (r: Option<nat>)
    ensures r.Some? ==> r.value <= |s| && ContentTagAt(s, r.value)
    ensures r.Some? ==> forall k :: 0 <= k < r.value ==> !ContentTagAt(s, k)
    ensures r.None? ==> forall k :: 0 <= k <= |s| ==> !ContentTagAt(s, k)
  {
    var at := (k: nat) => ContentTagAt(s, k);
    assert forall k: nat :: at(k) == ContentTagAt(s, k);
    FirstWhere(at, 0, |s| + 1)
  }

  /** `<tag\b[^>]*>` at `i`, case-insensitively, for `tag` one of `head`,
      `html`, `!doctype`. */
  predicate StartTagAt(s: string, i: nat, tag: string) {
    var n := i + 1 + |tag|;
    n <= |s| && s[i] == '<' && EqualsIgnoreCase(s[i + 1..n], tag)
    && IsWordBoundary(s, n) && IndexOfChar(s, '>', n).Some?
  }

  /** A match of a pattern that is not anchored: where it starts and how long it is. */
  datatype Found = Found(index: nat, length: nat)

  /** `text.match(/<tag\b[^>]*>\n?/i)`: the leftmost start tag, through its `>`
      and one newline after it if there is one. */
  function FindStartTag(s: string, tag: string): (r: Option<Found>)
    ensures r.Some? ==> StartTagAt(s, r.value.index, tag)
    ensures r.Some? ==> r.value.index + r.value.length <= |s| && r.value.length >= |tag| + 2
    ensures r.Some? ==> forall k :: 0 <= k < r.value.index ==> !StartTagAt(s, k, tag)
    ensures r.None? ==> forall k :: 0 <= k <= |s| ==> !StartTagAt(s, k, tag)
  {
    var at := (k: nat) => StartTagAt(s, k, tag);
    assert forall k: nat :: at(k) == StartTagAt(s, k, tag);
    match FirstWhere(at, 0, |s| + 1)
    case None => None
    case Some(i) =>
      var g := IndexOfChar(s, '>', i + 1 + |tag|).value;
      var end := if g + 1 < |s| && s[g + 1] == '\n' then g + 2 else g + 1;
      Some(Found(i, end - i))
  }

  /** The match of FindStartTag ends just after the tag's `>`, or after the
      newline that follows it. */
  lemma FindStartTagEnd(s: string, tag: string)
    ensures var r := FindStartTag(s, tag);
      r.Some? ==> AfterTagEnd(s, r.value.index + r.value.length)
  {
  }

  /** `e` is just after a `>`, or after a newline just after a `>`. */
  predicate AfterTagEnd(s: string, e: nat) {
    0 < e <= |s| && (s[e - 1] == '>' || (e >= 2 && s[e - 1] == '\n' && s[e - 2] == '>'))
  }
}
