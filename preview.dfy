/** modifyForPreview (content/src/filetype.js lines 197-267): what the
    preview frame shows for a file, chosen by the file's MIME type. */
module Preview {
  import opened Wrappers
  import opened JsText
  import opened HtmlPatterns
  import opened Metadata
  import opened MimeTypes
  import opened Assemble

  /** The note appended to an SVG file without a namespace (lines 223-224). */
  const SvgWarning := "<pre>To use this svg as an image, add xmlns:\n&lt;svg <mark>xmlns=\"http://www.w3.org/2000/svg\"</mark>&gt;</pre>"

  /** The style of the image of an image document (line 237). */
  const ImageStyle := "position:absolute;top:0;bottom:0;left:0;right:0;margin:auto;background:url(/image/checker.png)"

  // ---------------------------------------------------------------------
  // The image document (lines 226-240).

  function DropSpace(c: char): string {
    if IsSpace(c) then "" else [c]
  }

  /** `s.replace(/\s/g, '')`. */
  function StripSpaces(s: string): string {
    Expand(s, DropSpace)
  }

  /** The image tag, given the already encoded file contents. */
  function ImageTag(mime: string, data: string): string {
    "<img src=\"data:" + StripSpaces(mime) + ";base64," + data + "\" style=\"" + ImageStyle + "\">"
  }

  function ImageLines(mime: string, data: string): seq<string> {
    ["<!doctype html>", "<html style=\"min-height:100%\">", "<body>", ImageTag(mime, data), "</body>", "</html>"]
  }

  /** The document with nothing but the image; `encode` stands for the
      browser's `btoa`. */
  function ImageDocument(mime: string, text: string, encode: string -> string): string {
    Join(ImageLines(mime, encode(text)), "\n")
  }

  // ---------------------------------------------------------------------
  // The `<base>` insertion (lines 245-266).

  /** `'<base href="' + targetUrl + '" />\n'` */
  function BaseTag(url: string): string {
    "<base href=\"" + url + "\" />\n"
  }

  /** The candidate locations of lines 249-253, in priority order. */
  function InsertLocations(text: string): seq<Option<Found>> {
    [FindStartTag(text, "head"), FindStartTag(text, "html"), FindStartTag(text, "!doctype")]
  }

  /** A candidate is taken when it matched and comes before the first
      content tag, if there is one (line 257). */
  predicate Precedes(m: Option<Found>, firstLink: Option<nat>) {
    m.Some? && (firstLink.None? || m.value.index < firstLink.value)
  }

  function End(f: Found): nat {
    f.index + f.length
  }

  /** The end of the first candidate taken, or 0 when none is. */
  function FirstInsertPoint(locs: seq<Option<Found>>, firstLink: Option<nat>): (r: nat)
    ensures r == 0 || exists j :: 0 <= j < |locs| && Precedes(locs[j], firstLink) && r == End(locs[j].value)
    decreases |locs|
  {
    if locs == [] then 0
    else if Precedes(locs[0], firstLink) then End(locs[0].value)
    else
      var r := FirstInsertPoint(locs[1..], firstLink);
      assert r != 0 ==> exists j :: 0 <= j < |locs| && Precedes(locs[j], firstLink) && r == End(locs[j].value) by {
        if r != 0 {
          var j :| 0 <= j < |locs[1..]| && Precedes(locs[1..][j], firstLink) && r == End(locs[1..][j].value);
          assert locs[1..][j] == locs[j + 1];
        }
      }
      r
  }

  /** `insertAt` of lines 246-261. */
  function InsertAt(text: string): (r: nat)
    ensures r <= |text|
  {
    var locs := InsertLocations(text);
    var r := FirstInsertPoint(locs, FirstContentTag(text));
    assert r <= |text| by {
      if r != 0 {
        var j :| 0 <= j < |locs| && Precedes(locs[j], FirstContentTag(text)) && r == End(locs[j].value);
        assert j == 0 || j == 1 || j == 2;
      }
    }
    r
  }

  function InsertBase(text: string, url: string): string {
    var at := InsertAt(text);
    text[..at] + BaseTag(url) + text[at..]
  }

  /** The HTML branch: a `<base>` is added when a target URL is given and the
      text has none. */
  function ShowHtml(text: string, targetUrl: Option<string>): string {
    if Truthy(targetUrl) && !HasBaseTag(text) then InsertBase(text, targetUrl.value) else text
  }

  // ---------------------------------------------------------------------
  // The dispatch.

  /** What the preview shows for `text` of type `mime` (lines 218-266). */
  function Render(mime: string, text: string, targetUrl: Option<string>, encode: string -> string): string {
    if text == "" then ""
    else if Contains(mime, "image/svg") && !HasSvgNamespace(text) then text + SvgWarning
    else if StartsWith(mime, "image/") then ImageDocument(mime, text, encode)
    else if !StartsWith(mime, "text/html") then "<PLAINTEXT>" + text
    else ShowHtml(text, targetUrl)
  }

  /** The types pragmas-only mode shows: HTML without scripts, frames or
      objects, and SVG (lines 203-212). */
  predicate SafeForPragmas(mime: string, text: string) {
    (StartsWith(mime, "text/html") && !HasActiveContent(text)) || StartsWith(mime, "image/svg")
  }

  /** modifyForPreview(doc, domain, filename, targetUrl, pragmasOnly, sScript).
      A program is assembled by wrapTurtle and shown as HTML; anything else
      is shown by its type. */
  function Preview(doc: Doc, domain: string, filename: Option<string>, targetUrl: Option<string>,
                   pragmasOnly: bool, setup: Option<seq<Setup>>, encode: string -> string): Result<string>
  {
    var mime := MimeForFilename(filename);
    if StartsWith(mime, PencilType) then
      match WrapTurtleDoc(doc, domain, pragmasOnly, setup)
      case Err(e) => Err(e)
      case Ok(page) => Ok(Render(ReplaceFirst(mime, "/x-pencilcode", "/html"), page, targetUrl, encode))
    else if pragmasOnly && !SafeForPragmas(mime, doc.data) then Ok("")
    else Ok(Render(mime, doc.data, targetUrl, encode))
  }

  // ---------------------------------------------------------------------
  // The methods, written as the source is.

  /** Lines 246-261: the candidates, then the loop. */
  method BaseInsertionPoint(text: string) returns (insertAt: nat)
    ensures insertAt == InsertAt(text)
  {
    var firstLink := FirstContentTag(text);
    var insertLocation := [FindStartTag(text, "head"), FindStartTag(text, "html"), FindStartTag(text, "!doctype")];
    assert insertLocation == InsertLocations(text);
    insertAt := FirstTaken(insertLocation, firstLink);
  }

  /** The loop of lines 254-260: the first candidate taken sets `insertAt`. */
  method FirstTaken(insertLocation: seq<Option<Found>>, firstLink: Option<nat>) returns (insertAt: nat)
    ensures insertAt == FirstInsertPoint(insertLocation, firstLink)
  {
    insertAt := 0;
    var j := 0;
    while j < |insertLocation|
      invariant 0 <= j <= |insertLocation|
      invariant insertAt == 0
      invariant FirstInsertPoint(insertLocation[j..], firstLink) == FirstInsertPoint(insertLocation, firstLink)
    {
      var m := insertLocation[j];
      if m.Some? && (firstLink.None? || m.value.index < firstLink.value) {
        insertAt := m.value.index + m.value.length;
        assert insertLocation[j..][0] == m;
        break;
      }
      assert insertLocation[j..][1..] == insertLocation[j + 1..];
      j := j + 1;
    }
  }

  /** Lines 218-266, from the type reached after the dispatch. */
  method RenderText(mimeType: string, text: string, targetUrl: Option<string>, encode: string -> string)
    returns (out: string)
    ensures out == Render(mimeType, text, targetUrl, encode)
  {
    if text == "" {
      return "";
    }
    if Contains(mimeType, "image/svg") && !HasSvgNamespace(text) {
      return text + SvgWarning;
    }
    if StartsWith(mimeType, "image/") {
      var result := ImageLines(mimeType, encode(text));
      return Join(result, "\n");
    }
    if !StartsWith(mimeType, "text/html") {
      return "<PLAINTEXT>" + text;
    }
    if targetUrl.Some? && targetUrl.value != "" && !HasBaseTag(text) {
      var insertAt := BaseInsertionPoint(text);
      return text[..insertAt] + BaseTag(targetUrl.value) + text[insertAt..];
    }
    return text;
  }

  /** The pragmas-only safety test of lines 203-212. */
  method PragmasSafe(mimeType: string, text: string) returns (safe: bool)
    ensures safe == SafeForPragmas(mimeType, text)
  {
    safe := false;
    if StartsWith(mimeType, "text/html") && !HasActiveContent(text) {
      safe := true;
    }
    if StartsWith(mimeType, "image/svg") {
      safe := true;
    }
  }

  method ModifyForPreview(doc: Doc, domain: string, filename: Option<string>, targetUrl: Option<string>,
                          pragmasOnly: bool, setup: Option<seq<Setup>>, encode: string -> string)
    returns (r: Result<string>)
    ensures r == Preview(doc, domain, filename, targetUrl, pragmasOnly, setup, encode)
  {
    var mimeType := MimeForFilename(filename);
    var text := doc.data;
    if StartsWith(mimeType, PencilType) {
      var page := WrapTurtle(doc, domain, pragmasOnly, setup);
      if page.Err? {
        return Err(page.error);
      }
      text := page.value;
      mimeType := ReplaceFirst(mimeType, "/x-pencilcode", "/html");
    } else if pragmasOnly {
      var safe := PragmasSafe(mimeType, text);
      if !safe {
        return Ok("");
      }
    }
    var out := RenderText(mimeType, text, targetUrl, encode);
    return Ok(out);
  }

  // ---------------------------------------------------------------------
  // Where the `<base>` goes.

  /** The candidates are tried in the order head, html, doctype; one is
      taken when it matched before the first content tag. */
  lemma InsertAtPriority(text: string)
    ensures var first := FirstContentTag(text);
      var head := FindStartTag(text, "head");
      var html := FindStartTag(text, "html");
      var doctype := FindStartTag(text, "!doctype");
      InsertAt(text) ==
        if Precedes(head, first) then End(head.value)
        else if Precedes(html, first) then End(html.value)
        else if Precedes(doctype, first) then End(doctype.value)
        else 0
  {
    FirstOfThree(FindStartTag(text, "head"), FindStartTag(text, "html"), FindStartTag(text, "!doctype"),
                 FirstContentTag(text));
  }

  lemma FirstOfThree(a: Option<Found>, b: Option<Found>, c: Option<Found>, first: Option<nat>)
    ensures FirstInsertPoint([a, b, c], first) ==
      if Precedes(a, first) then End(a.value)
      else if Precedes(b, first) then End(b.value)
      else if Precedes(c, first) then End(c.value)
      else 0
  {
    assert [c][1..] == [];
    assert FirstInsertPoint([c], first) == if Precedes(c, first) then End(c.value) else 0;
    assert [b, c][1..] == [c];
    assert FirstInsertPoint([b, c], first) ==
      if Precedes(b, first) then End(b.value) else FirstInsertPoint([c], first);
    assert [a, b, c][1..] == [b, c];
  }

  /** The `<base>` goes right after the `>` of the tag taken, or after the one
      newline that follows it. */
  lemma InsertAtAfterTag(text: string)
    ensures InsertAt(text) == 0 || AfterTagEnd(text, InsertAt(text))
  {
    var locs := InsertLocations(text);
    FoundAfterTag(text, locs[0], "head");
    FoundAfterTag(text, locs[1], "html");
    FoundAfterTag(text, locs[2], "!doctype");
    assert forall j :: 0 <= j < |locs| && locs[j].Some? ==> AfterTagEnd(text, End(locs[j].value)) by {
      forall j | 0 <= j < |locs| && locs[j].Some? ensures AfterTagEnd(text, End(locs[j].value)) {
        assert j == 0 || j == 1 || j == 2;
      }
    }
    FirstInsertPointAfterTag(text, locs, FirstContentTag(text));
  }

  lemma FoundAfterTag(s: string, r: Option<Found>, tag: string)
    requires r == FindStartTag(s, tag)
    ensures r.Some? ==> AfterTagEnd(s, End(r.value))
  {
    FindStartTagEnd(s, tag);
  }

  lemma FirstInsertPointAfterTag(s: string, locs: seq<Option<Found>>, first: Option<nat>)
    requires forall j :: 0 <= j < |locs| && locs[j].Some? ==> AfterTagEnd(s, End(locs[j].value))
    ensures FirstInsertPoint(locs, first) == 0 || AfterTagEnd(s, FirstInsertPoint(locs, first))
  {
  }

  /** Removing the inserted line gives back the text: nothing else changes. */
  lemma InsertBaseRemovable(text: string, url: string)
    ensures var r := InsertBase(text, url); var at := InsertAt(text); var n := |BaseTag(url)|;
      |r| == |text| + n && r[at..at + n] == BaseTag(url) && r[..at] + r[at + n..] == text
  {
    SpliceRemovable(text, BaseTag(url), InsertAt(text));
  }

  lemma SpliceRemovable(text: string, piece: string, at: nat)
    requires at <= |text|
    ensures var r := text[..at] + piece + text[at..]; var n := |piece|;
      |r| == |text| + n && r[at..at + n] == piece && r[..at] + r[at + n..] == text
  {
    var r := text[..at] + piece + text[at..];
    var n := |piece|;
    assert r[..at] == text[..at];
    assert r[at..at + n] == piece;
    assert r[at + n..] == text[at..];
    assert text[..at] + text[at..] == text;
  }

  /** The inserted line is a `<base` tag for the test of line 245. */
  lemma InsertBaseHasBase(text: string, url: string)
    ensures HasBaseTag(InsertBase(text, url))
  {
    BaseAtHasBase(text, url, InsertAt(text));
  }

  lemma BaseAtHasBase(text: string, url: string, at: nat)
    requires at <= |text|
    ensures HasBaseTag(text[..at] + BaseTag(url) + text[at..])
  {
    var r := text[..at] + BaseTag(url) + text[at..];
    BaseTagOpens(url);
    assert r[at..at + 5] == BaseTag(url)[..5];
    ContainsIgnoreCaseAt(r, at, "<base");
  }

  lemma BaseTagOpens(url: string)
    ensures |BaseTag(url)| >= 5 && BaseTag(url)[..5] == "<base"
  {
  }

  /** The text is changed exactly when a target URL is given and the text has
      no `<base`. */
  lemma ShowHtmlChanges(text: string, targetUrl: Option<string>)
    ensures ShowHtml(text, targetUrl) != text <==> Truthy(targetUrl) && !HasBaseTag(text)
  {
    if Truthy(targetUrl) && !HasBaseTag(text) {
      InsertBaseRemovable(text, targetUrl.value);
    }
  }

  /** Showing the result again adds nothing. */
  lemma ShowHtmlIdempotent(text: string, targetUrl: Option<string>)
    ensures ShowHtml(ShowHtml(text, targetUrl), targetUrl) == ShowHtml(text, targetUrl)
  {
    if Truthy(targetUrl) && !HasBaseTag(text) {
      InsertBaseHasBase(text, targetUrl.value);
    }
  }

  // ---------------------------------------------------------------------
  // The image document.

  lemma {:induction false} StripSpacesNone(s: string)
    ensures forall k :: 0 <= k < |StripSpaces(s)| ==> !IsSpace(StripSpaces(s)[k])
    decreases |s|
  {
    if s != [] {
      StripSpacesNone(s[1..]);
      assert StripSpaces(s) == DropSpace(s[0]) + StripSpaces(s[1..]);
    }
  }

  /** A type without white space is used as it is. */
  lemma {:induction false} StripSpacesKeeps(s: string)
    requires forall k :: 0 <= k < |s| ==> !IsSpace(s[k])
    ensures StripSpaces(s) == s
    decreases |s|
  {
    if s != [] {
      assert forall k :: 0 <= k < |s[1..]| ==> s[1..][k] == s[k + 1];
      StripSpacesKeeps(s[1..]);
      assert StripSpaces(s) == [s[0]] + s[1..];
    }
  }

  lemma JoinSix(a: string, b: string, c: string, d: string, e: string, f: string, sep: string)
    ensures Join([a, b, c, d, e, f], sep) == (a + sep + b + sep + c + sep) + d + (sep + e + sep + f)
  {
    JoinFour(a, b, c, d, sep);
    JoinTwo(e, f, sep);
    assert [a, b, c, d, e, f] == [a, b, c, d] + [e, f];
    JoinConcatSep([a, b, c, d], [e, f], sep);
  }

  /** The image document is a whole HTML document around one image tag
      carrying the type and the encoded contents. */
  lemma ImageDocumentShape(mime: string, text: string, encode: string -> string)
    ensures var d := ImageDocument(mime, text, encode);
      StartsWith(d, "<!doctype html>") && EndsWith(d, "</html>") && Contains(d, ImageTag(mime, encode(text)))
  {
    var lines := ImageLines(mime, encode(text));
    JoinEnds(lines, "\n");
    JoinSix(lines[0], lines[1], lines[2], lines[3], lines[4], lines[5], "\n");
    ContainsMiddle(lines[0] + "\n" + lines[1] + "\n" + lines[2] + "\n", lines[3], "\n" + lines[4] + "\n" + lines[5]);
  }

  // ---------------------------------------------------------------------
  // The dispatch by file name.

  /** A file is run as a program exactly when the table knows its name
      neither as a key of its own nor as an inherited one. */
  lemma ProgramIff(filename: Option<string>)
    ensures StartsWith(MimeForFilename(filename), PencilType) <==> Lookup(filename).None? && !Inherits(filename)
  {
    if Lookup(filename).Some? {
      KnownTypeNotPencil(Lookup(filename).value);
      NotPencilPrefix(TypeName(Lookup(filename).value));
    } else if Inherits(filename) {
      InheritedNoCharset(Extension(filename.value));
      InheritedTextShape(Extension(filename.value));
      assert PencilType[0] == 't';
    } else {
      PencilPrefix();
    }
  }

  lemma NotPencilPrefix(t: string)
    requires |t| > 6 && t[6] != '-'
    ensures !StartsWith(WithCharset(t), PencilType)
  {
    var m := WithCharset(t);
    assert m[6] == t[6];
    assert PencilType[6] == '-';
  }

  lemma PencilPrefix()
    ensures StartsWith(WithCharset(PencilType), PencilType)
  {
    assert PencilType[..5] == "text/";
    assert (PencilType + Charset)[..|PencilType|] == PencilType;
  }

  /** A program's page is shown as HTML: line 201 turns
      `text/x-pencilcode;charset=utf-8` into `text/html;charset=utf-8`. */
  lemma ProgramTypeBecomesHtml()
    ensures ReplaceFirst(PencilType + Charset, "/x-pencilcode", "/html") == "text/html" + Charset
  {
    assert PencilType == "text" + "/x-pencilcode";
    assert '/' !in "text";
    ReplaceAfterNoSlash("text", "/x-pencilcode", Charset, "/html");
    assert "text" + "/html" == "text/html";
  }

  /** A pattern that starts with '/' is first found after a prefix without
      one. */
  lemma ReplaceAfterNoSlash(a: string, pat: string, c: string, rep: string)
    requires '/' !in a && pat != [] && pat[0] == '/'
    ensures ReplaceFirst(a + pat + c, pat, rep) == a + rep + c
  {
    forall k | 0 <= k < |a| ensures !ContainsAt(a + pat + c, k, pat) {
      assert (a + pat + c)[k..][..|pat|][0] == a[k];
    }
    ReplaceFirstAt(a, pat, c, rep);
  }

  /** A text type has its only '/' at 4, so `image/svg` cannot occur in it. */
  lemma TextNotSvg(rest: string)
    requires '/' !in rest
    ensures !Contains("text/" + rest, "image/svg")
  {
    var s := "text/" + rest;
    forall k | 0 <= k <= |s| ensures !ContainsAt(s, k, "image/svg") {
      if k + 9 <= |s| {
        assert s[k..][..9][5] == s[k + 5] == rest[k];
      }
    }
  }

  /** An image type other than SVG has its only '/' at 5, with no `s` after
      it, so `image/svg` cannot occur in it. */
  lemma ImageNotSvg(rest: string)
    requires '/' !in rest && (rest == [] || rest[0] != 's')
    ensures !Contains("image/" + rest, "image/svg")
  {
    var s := "image/" + rest;
    forall k | 0 <= k <= |s| ensures !ContainsAt(s, k, "image/svg") {
      if k + 9 <= |s| {
        if k == 0 {
          assert s[..9][6] == rest[0];
        } else {
          assert s[k..][..9][5] == s[k + 5] == rest[k - 1];
        }
      }
    }
  }

  lemma HtmlTypeNotSvg()
    ensures !Contains("text/html" + Charset, "image/svg")
  {
    assert "text/html" + Charset == "text/" + ("html" + Charset);
    TextNotSvg("html" + Charset);
  }

  lemma HtmlTypeIsHtml()
    ensures StartsWith("text/html" + Charset, "text/html") && !StartsWith("text/html" + Charset, "image/")
  {
    assert ("text/html" + Charset)[..6][0] == 't';
  }

  /** Render of an HTML type is the HTML branch. */
  lemma RenderHtml(text: string, targetUrl: Option<string>, encode: string -> string)
    requires text != ""
    ensures Render("text/html" + Charset, text, targetUrl, encode) == ShowHtml(text, targetUrl)
  {
    HtmlTypeNotSvg();
    HtmlTypeIsHtml();
  }

  /** An assembled page is never empty: it holds at least the main script. */
  lemma WrapNotEmpty(doc: Doc, domain: string, pragmasOnly: bool, setup: Option<seq<Setup>>)
    requires WrapTurtleDoc(doc, domain, pragmasOnly, setup).Ok?
    ensures WrapTurtleDoc(doc, domain, pragmasOnly, setup).value != ""
  {
    var meta := EffectiveMeta(doc.meta);
    var main := MainScript(MainType(doc.meta), pragmasOnly, doc.data);
    assert |main| >= |"\n</script>"|;
  }

  /** A program is assembled by wrapTurtle, whose failure is passed on, and
      its page is shown as HTML. */
  lemma PreviewProgram(doc: Doc, domain: string, filename: Option<string>, targetUrl: Option<string>,
                       pragmasOnly: bool, setup: Option<seq<Setup>>, encode: string -> string)
    requires Lookup(filename).None? && !Inherits(filename)
    ensures Preview(doc, domain, filename, targetUrl, pragmasOnly, setup, encode) ==
      match WrapTurtleDoc(doc, domain, pragmasOnly, setup)
      case Err(e) => Err(e)
      case Ok(page) => Ok(ShowHtml(page, targetUrl))
  {
    ProgramIff(filename);
    MimeFallback(filename);
    ProgramTypeBecomesHtml();
    var w := WrapTurtleDoc(doc, domain, pragmasOnly, setup);
    if w.Ok? {
      WrapNotEmpty(doc, domain, pragmasOnly, setup);
      RenderHtml(w.value, targetUrl, encode);
    }
  }

  /** A name whose extension finds an inherited member of the table is not
      a program; the member's text is no HTML, image or SVG type, so the file
      is shown after `<PLAINTEXT>`, and not at all in pragmas-only mode. */
  lemma PreviewInheritedFile(doc: Doc, domain: string, filename: Option<string>, targetUrl: Option<string>,
                             pragmasOnly: bool, setup: Option<seq<Setup>>, encode: string -> string)
    requires Inherits(filename) && Lookup(filename).None?
    ensures Preview(doc, domain, filename, targetUrl, pragmasOnly, setup, encode) ==
      if pragmasOnly || doc.data == "" then Ok("") else Ok("<PLAINTEXT>" + doc.data)
  {
    var ext := Extension(filename.value);
    InheritedNoCharset(ext);
    InheritedTextShape(ext);
    ProgramIff(filename);
    var t := InheritedText(ext);
    assert MimeForFilename(filename) == t;
    RenderNoSlash(t, doc.data, targetUrl, encode);
  }

  /** A type without '/' that starts with neither `t` nor `i` is shown as
      plain text and is not safe for pragmas-only mode. */
  lemma RenderNoSlash(t: string, text: string, targetUrl: Option<string>, encode: string -> string)
    requires '/' !in t && t != [] && t[0] != 't' && t[0] != 'i'
    ensures Render(t, text, targetUrl, encode) == if text == "" then "" else "<PLAINTEXT>" + text
    ensures !SafeForPragmas(t, text)
  {
    NoSlashNotSvg(t);
    assert "image/"[0] == 'i' && "text/html"[0] == 't' && "image/svg"[0] == 'i';
  }

  /** `image/svg` cannot occur in a string without '/'. */
  lemma NoSlashNotSvg(t: string)
    requires '/' !in t
    ensures !Contains(t, "image/svg")
  {
    forall k | 0 <= k <= |t| ensures !ContainsAt(t, k, "image/svg") {
      if k + 9 <= |t| { assert t[k..][..9][5] == t[k + 5]; }
    }
  }

  /** In pragmas-only mode a file that is not a program is shown only when it
      is HTML without scripts, frames or objects, or SVG. */
  lemma PragmasShowOnlySafe(doc: Doc, domain: string, filename: Option<string>, targetUrl: Option<string>,
                            setup: Option<seq<Setup>>, encode: string -> string)
    requires Lookup(filename).Some?
    requires Preview(doc, domain, filename, targetUrl, true, setup, encode) != Ok("")
    ensures SafeForPragmas(MimeForFilename(filename), doc.data)
  {
    PreviewTableFile(doc, domain, filename, targetUrl, true, setup, encode);
  }

  /** An empty file that is not a program shows nothing. */
  lemma PreviewEmptyFile(doc: Doc, domain: string, filename: Option<string>, targetUrl: Option<string>,
                         pragmasOnly: bool, setup: Option<seq<Setup>>, encode: string -> string)
    requires Lookup(filename).Some? && doc.data == ""
    ensures Preview(doc, domain, filename, targetUrl, pragmasOnly, setup, encode) == Ok("")
  {
    PreviewTableFile(doc, domain, filename, targetUrl, pragmasOnly, setup, encode);
  }

  /** Each plain text type of the table, with its charset, is a text type
      that is not HTML. */
  predicate IsPlainText(k: KnownType) {
    k == Plain || k == Css || k == Coffee || k == Js || k == Xml
  }

  predicate IsBitmap(k: KnownType) {
    k == Jpeg || k == Gif || k == Png || k == Bmp || k == Icon
  }

  lemma PlainTextType(k: KnownType)
    requires IsPlainText(k)
    ensures var m := WithCharset(TypeName(k));
      m == "text/" + m[5..] && '/' !in m[5..] && m[5] != 'h'
  {
    match k
    case Plain =>
      assert TypeName(Plain) == "text/" + "plain";
      TextSubtype("plain");
    case Css =>
      assert TypeName(Css) == "text/" + "css";
      TextSubtype("css");
    case Coffee =>
      assert TypeName(Coffee) == "text/" + "coffeescript";
      TextSubtype("coffeescript");
    case Js =>
      assert TypeName(Js) == "text/" + "javascript";
      TextSubtype("javascript");
    case Xml =>
      assert TypeName(Xml) == "text/" + "xml";
      TextSubtype("xml");
  }

  /** The subtype of a table text type, with the charset added. */
  lemma TextSubtype(sub: string)
    requires '/' !in sub && ';' !in sub && sub != [] && sub[0] != 'h'
    ensures var m := WithCharset("text/" + sub);
      m == "text/" + m[5..] && '/' !in m[5..] && m[5] != 'h'
  {
    var t := "text/" + sub;
    assert t[..5] == "text/";
    var m := t + Charset;
    assert m[5..] == sub + Charset;
    assert '/' !in Charset;
    assert m[5] == sub[0];
  }

  lemma BitmapType(k: KnownType)
    requires IsBitmap(k)
    ensures var m := WithCharset(TypeName(k));
      m == "image/" + m[6..] && '/' !in m[6..] && m[6] != 's'
  {
    match k
    case Jpeg =>
      assert TypeName(Jpeg) == "image/" + "jpeg";
      ImageSubtype("jpeg");
    case Gif =>
      assert TypeName(Gif) == "image/" + "gif";
      ImageSubtype("gif");
    case Png =>
      assert TypeName(Png) == "image/" + "png";
      ImageSubtype("png");
    case Bmp =>
      assert TypeName(Bmp) == "image/" + "x-ms-bmp";
      ImageSubtype("x-ms-bmp");
    case Icon =>
      assert TypeName(Icon) == "image/" + "x-icon";
      ImageSubtype("x-icon");
  }

  /** The subtype of a table image type other than SVG. */
  lemma ImageSubtype(sub: string)
    requires '/' !in sub && sub != [] && sub[0] != 's'
    ensures var m := WithCharset("image/" + sub);
      m == "image/" + m[6..] && '/' !in m[6..] && m[6] != 's'
  {
    var m := "image/" + sub;
    assert m[0] == 'i';
    assert m[6..] == sub;
  }

  lemma SvgType()
    ensures WithCharset(TypeName(Svg)) == "image/svg" + "+xml"
  {
    assert TypeName(Svg)[0] == 'i';
    assert TypeName(Svg) == "image/svg" + "+xml";
  }

  lemma HtmlType()
    ensures WithCharset(TypeName(Html)) == "text/html" + Charset
  {
    assert TypeName(Html)[..5] == "text/";
  }

  /** A file the table knows is shown by its type, unless pragmas-only mode
      finds it unsafe. */
  lemma PreviewTableFile(doc: Doc, domain: string, filename: Option<string>, targetUrl: Option<string>,
                         pragmasOnly: bool, setup: Option<seq<Setup>>, encode: string -> string)
    requires Lookup(filename).Some?
    ensures var m := MimeForFilename(filename);
      Preview(doc, domain, filename, targetUrl, pragmasOnly, setup, encode) ==
        if pragmasOnly && !SafeForPragmas(m, doc.data) then Ok("") else Ok(Render(m, doc.data, targetUrl, encode))
  {
    ProgramIff(filename);
  }

  /** Text of an image type other than SVG is shown as an image document,
      and is not safe for pragmas-only mode. */
  lemma RenderImageKind(rest: string, text: string, targetUrl: Option<string>, encode: string -> string)
    requires '/' !in rest && (rest == [] || rest[0] != 's') && text != ""
    ensures Render("image/" + rest, text, targetUrl, encode) == ImageDocument("image/" + rest, text, encode)
    ensures !SafeForPragmas("image/" + rest, text)
  {
    ImageKindPrefixes(rest);
  }

  lemma ImageKindPrefixes(rest: string)
    requires '/' !in rest && (rest == [] || rest[0] != 's')
    ensures var m := "image/" + rest;
      !Contains(m, "image/svg") && StartsWith(m, "image/") && !StartsWith(m, "text/html") && !StartsWith(m, "image/svg")
  {
    var m := "image/" + rest;
    ImageNotSvg(rest);
    assert m[..6] == "image/";
    assert m[0] == 'i';
    if |m| >= 9 { assert m[..9][6] == m[6] == rest[0]; }
  }

  /** Text of a text type other than HTML is shown after `<PLAINTEXT>`, and
      is not safe for pragmas-only mode. */
  lemma RenderTextKind(rest: string, text: string, targetUrl: Option<string>, encode: string -> string)
    requires '/' !in rest && (rest == [] || rest[0] != 'h') && text != ""
    ensures Render("text/" + rest, text, targetUrl, encode) == "<PLAINTEXT>" + text
    ensures !SafeForPragmas("text/" + rest, text)
  {
    TextKindPrefixes(rest);
  }

  lemma TextKindPrefixes(rest: string)
    requires '/' !in rest && (rest == [] || rest[0] != 'h')
    ensures var m := "text/" + rest;
      !Contains(m, "image/svg") && !StartsWith(m, "image/") && !StartsWith(m, "text/html") && !StartsWith(m, "image/svg")
  {
    var m := "text/" + rest;
    TextNotSvg(rest);
    assert m[0] == 't';
    if |m| >= 6 { assert m[..6][0] == 't'; }
    if |m| >= 9 { assert m[..9][0] == 't' && m[..9][5] == m[5] == rest[0]; }
  }

  /** A plain text file is shown as text after `<PLAINTEXT>`: the browser
      shows the rest verbatim. In pragmas-only mode it is not shown. */
  lemma PreviewPlainTextFile(doc: Doc, domain: string, filename: Option<string>, targetUrl: Option<string>,
                             pragmasOnly: bool, setup: Option<seq<Setup>>, encode: string -> string)
    requires Lookup(filename).Some? && IsPlainText(Lookup(filename).value) && doc.data != ""
    ensures Preview(doc, domain, filename, targetUrl, pragmasOnly, setup, encode) ==
      if pragmasOnly then Ok("") else Ok("<PLAINTEXT>" + doc.data)
  {
    var m := MimeForFilename(filename);
    PreviewTableFile(doc, domain, filename, targetUrl, pragmasOnly, setup, encode);
    PlainTextType(Lookup(filename).value);
    RenderTextKind(m[5..], doc.data, targetUrl, encode);
  }

  /** A bitmap is shown in an image document; in pragmas-only mode it is
      not shown. */
  lemma PreviewBitmapFile(doc: Doc, domain: string, filename: Option<string>, targetUrl: Option<string>,
                          pragmasOnly: bool, setup: Option<seq<Setup>>, encode: string -> string)
    requires Lookup(filename).Some? && IsBitmap(Lookup(filename).value) && doc.data != ""
    ensures Preview(doc, domain, filename, targetUrl, pragmasOnly, setup, encode) ==
      if pragmasOnly then Ok("") else Ok(ImageDocument(MimeForFilename(filename), doc.data, encode))
  {
    var m := MimeForFilename(filename);
    PreviewTableFile(doc, domain, filename, targetUrl, pragmasOnly, setup, encode);
    BitmapType(Lookup(filename).value);
    RenderImageKind(m[6..], doc.data, targetUrl, encode);
  }

  /** An SVG file is shown as an image when it declares its namespace and
      as itself followed by a note otherwise, in either mode. */
  lemma PreviewSvgFile(doc: Doc, domain: string, filename: Option<string>, targetUrl: Option<string>,
                       pragmasOnly: bool, setup: Option<seq<Setup>>, encode: string -> string)
    requires Lookup(filename) == Some(Svg) && doc.data != ""
    ensures Preview(doc, domain, filename, targetUrl, pragmasOnly, setup, encode) ==
      if HasSvgNamespace(doc.data) then Ok(ImageDocument(MimeForFilename(filename), doc.data, encode))
      else Ok(doc.data + SvgWarning)
  {
    PreviewTableFile(doc, domain, filename, targetUrl, pragmasOnly, setup, encode);
    SvgType();
    RenderSvg(doc.data, targetUrl, encode);
  }

  /** Text of the SVG type: an image document when it declares its namespace,
      itself and the note otherwise; always safe for pragmas-only mode. */
  lemma RenderSvg(text: string, targetUrl: Option<string>, encode: string -> string)
    requires text != ""
    ensures var m := "image/svg" + "+xml";
      && Render(m, text, targetUrl, encode) ==
        (if HasSvgNamespace(text) then ImageDocument(m, text, encode) else text + SvgWarning)
      && SafeForPragmas(m, text)
  {
    var m := "image/svg" + "+xml";
    ContainsAtMiddle("", "image/svg", "+xml");
    assert "" + "image/svg" + "+xml" == m;
    ContainsAtContains(m, 0, "image/svg");
    assert m[..6] == "image/" && m[..9] == "image/svg";
  }

  /** An HTML file is shown as HTML, with a `<base>` added when wanted; in
      pragmas-only mode only when it has no scripts, frames or objects. */
  lemma PreviewHtmlFile(doc: Doc, domain: string, filename: Option<string>, targetUrl: Option<string>,
                        pragmasOnly: bool, setup: Option<seq<Setup>>, encode: string -> string)
    requires Lookup(filename) == Some(Html) && doc.data != ""
    ensures Preview(doc, domain, filename, targetUrl, pragmasOnly, setup, encode) ==
      if pragmasOnly && HasActiveContent(doc.data) then Ok("") else Ok(ShowHtml(doc.data, targetUrl))
  {
    PreviewTableFile(doc, domain, filename, targetUrl, pragmasOnly, setup, encode);
    HtmlType();
    HtmlTypeIsHtml();
    RenderHtml(doc.data, targetUrl, encode);
    assert !StartsWith("text/html" + Charset, "image/svg") by {
      assert ("text/html" + Charset)[..9][0] == 't';
    }
  }
}
