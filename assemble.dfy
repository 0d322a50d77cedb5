/** wrapTurtle (content/src/filetype.js lines 70-190): the complete HTML
    page that runs a program, assembled from the metadata's HTML and CSS,
    the library scripts, the setup scripts and the program itself. */
module Assemble {
  import opened Wrappers
  import opened JsText
  import opened HtmlPatterns
  import opened HeadScanner
  import opened Metadata
  import opened MimeTypes
  import opened HtmlEscape

  /** One entry of `setupScript`: a script loaded from `url` when `src` is
      set, otherwise inline `code`. */
  datatype Setup = Setup(src: Option<string>, url: Option<string>, scriptType: Option<string>, code: Option<string>)

  /** The document being run: the program text and its metadata. */
  datatype Doc = Doc(data: string, meta: Option<Meta>)

  /** The page frame: the lines joined before the page HTML, the (possibly
      cut) page HTML, and the closing pieces after the scripts. */
  datatype Layout = Layout(prefix: seq<string>, html: string, suffix: seq<string>)

  /** A field as string concatenation shows it: absent reads `undefined`. */
  function Shown(v: Option<string>): string {
    if v.Some? then v.value else "undefined"
  }

  function Min(a: nat, b: nat): nat {
    if a <= b then a else b
  }

  /** The page HTML of lines 73-78: in pragmas-only mode HTML that mentions a
      script tag is dropped. */
  function PageHtml(meta: Meta, pragmasOnly: bool): string {
    var html := OrElse(meta.html, "");
    if pragmasOnly && HasScriptTag(html) then "" else html
  }

  /** In pragmas-only mode the page HTML never has a script tag, and outside
      it the page HTML is the metadata's. */
  lemma PageHtmlSafe(meta: Meta, pragmasOnly: bool)
    ensures pragmasOnly ==> !HasScriptTag(PageHtml(meta, pragmasOnly))
    ensures !pragmasOnly ==> PageHtml(meta, pragmasOnly) == OrElse(meta.html, "")
  {
    var lower := LowerStr("");
    assert lower == "";
    assert !Contains(lower, "<script") && !Contains(lower, "</script") by {
      assert IndexOf(lower, "<script", 0).None?;
      assert IndexOf(lower, "</script", 0).None?;
    }
  }

  /** The doctype and html element the page lacks (lines 81-87). */
  function OpenTags(top: ScanResult): seq<string> {
    if "!doctype" in top.pos then []
    else if "html" in top.pos then ["<!doctype html>"]
    else ["<!doctype html>", "<html>"]
  }

  function CloseTags(top: ScanResult): seq<string> {
    if "!doctype" !in top.pos && "html" !in top.pos then ["</html>"] else []
  }

  /** Where the head is split (lines 95-98): at `bodypos`, or earlier at a
      recorded `</head>` tag. */
  function SplitHead(top: ScanResult): nat {
    if "/head" in top.pos then Min(top.bodyPos, top.pos["/head"].index) else top.bodyPos
  }

  /** The scan facts the frame relies on (see ScanBounds). */
  predicate ScanFits(html: string, top: ScanResult) {
    top.bodyPos <= |html| && ("/head" in top.pos ==> top.pos["/head"].index <= top.bodyPos)
  }

  lemma ScanFitsScan(html: string)
    ensures ScanFits(html, Scan(html))
  {
    ScanBounds(html);
  }

  /** The head and body items of lines 88-121, which go between the
      missing opening tags and their closing tags, and the page HTML, cut
      where the head is split. */
  function HeadItems(html: string, top: ScanResult, css: Option<string>): Layout
    requires ScanFits(html, top)
  {
    if Truthy(css) then
      if top.bodyPos == 0 then
        Layout(["<head>", "<style>", css.value, "</style>", "</head>"] + (if top.hasBody then [] else ["<body>"]),
               html, if top.hasBody then [] else ["</body>"])
      else
        var split := SplitHead(top);
        if split > 0 then
          var newline := if split < |html| && html[split] == '\n' then 1 else 0;
          Layout([html[..split - newline], "<style>", css.value, "</style>"], html[split..], [])
        else
          Layout(["<style>", css.value, "</style>"], html, [])
    else if top.bodyPos == 0 && !top.hasBody then
      Layout(["<body>"], html, ["</body>"])
    else if IsBlank(html[top.bodyPos..]) then
      Layout([], html, ["<body></body>"])
    else
      Layout([], html, [])
  }

  /** Lines 79-124: prefix, page HTML and suffix around the scripts, for the
      page `html` whose scan is `top`. */
  function Frame(html: string, top: ScanResult, css: Option<string>): Layout
    requires ScanFits(html, top)
  {
    var items := HeadItems(html, top, css);
    Layout(OpenTags(top) + items.prefix, items.html, items.suffix + CloseTags(top))
  }

  /** The frame starts with the tags the page lacks. */
  lemma FrameOpens(html: string, top: ScanResult, css: Option<string>)
    requires ScanFits(html, top)
    ensures var f := Frame(html, top, css);
      |OpenTags(top)| <= |f.prefix| && f.prefix[..|OpenTags(top)|] == OpenTags(top)
  {
  }

  /** The frame ends with the closing tags of those it opened. */
  lemma FrameCloses(html: string, top: ScanResult, css: Option<string>)
    requires ScanFits(html, top)
    ensures var f := Frame(html, top, css);
      |CloseTags(top)| <= |f.suffix| && f.suffix[|f.suffix| - |CloseTags(top)|..] == CloseTags(top)
  {
  }

  /** The head is never split just before a newline: the split point is the
      start of a recorded tag or the point where scanning stopped, which is
      not whitespace. So the newline trim of lines 101-103 never removes
      anything. */
  lemma SplitHeadNoNewline(html: string)
    ensures var split := SplitHead(Scan(html));
      split <= |html| && (split < |html| && split > 0 ==> html[split] != '\n')
  {
    var top := Scan(html);
    ScanBounds(html);
    BodyPosition(html);
    FirstOccurrenceWins(html);
    var stop := Stop(html, 0);
    HaltMeans(html, stop);
    if "/head" in top.pos && top.pos["/head"].index < top.bodyPos {
      var t := Trace(html, 0);
      var i := FirstWithKey(t, "/head").value;
      var at := top.pos["/head"].index;
      assert TagAt(html, t[i]);
      TagShape(html, at);
    }
  }

  /** When the head is split, the page text before the split goes into
      the prefix whole, the style block follows it, and the page resumes at
      the split point: nothing of the page is lost. */
  lemma FrameSplitKeepsPage(html: string, top: ScanResult, css: Option<string>)
    requires ScanFits(html, top) && Truthy(css) && top.bodyPos > 0 && SplitHead(top) > 0
    requires SplitHead(top) < |html| ==> html[SplitHead(top)] != '\n'
    ensures var split := SplitHead(top); var f := Frame(html, top, css);
      && f.prefix == OpenTags(top) + [html[..split], "<style>", css.value, "</style>"]
      && f.html == html[split..]
  {
  }

  /** When the head split point is 0, the style block goes before the whole
      page text, with no page piece in front of it (line 100). */
  lemma FrameSplitAtStart(html: string, top: ScanResult, css: Option<string>)
    requires ScanFits(html, top) && Truthy(css) && top.bodyPos > 0 && SplitHead(top) == 0
    ensures var f := Frame(html, top, css);
      && f.prefix == OpenTags(top) + ["<style>", css.value, "</style>"]
      && f.html == html && f.suffix == CloseTags(top)
  {
  }

  /** Without CSS, a page whose head is followed only by whitespace gets an
      empty body appended before the closing tags (lines 119-121). */
  lemma FrameAllHead(html: string, top: ScanResult, css: Option<string>)
    requires ScanFits(html, top) && !Truthy(css) && !(top.bodyPos == 0 && !top.hasBody)
    requires IsBlank(html[top.bodyPos..])
    ensures var f := Frame(html, top, css);
      && f.prefix == OpenTags(top) && f.html == html
      && f.suffix == ["<body></body>"] + CloseTags(top)
  {
  }

  /** `attrs` as the loop of lines 130-132 writes it. */
  function AttrText(attrs: seq<(string, string)>): string
    decreases |attrs|
  {
    if attrs == [] then ""
    else
      var a := attrs[|attrs| - 1];
      AttrText(attrs[..|attrs| - 1]) + " " + a.0 + "=\"" + EscapeHtml(a.1) + "\""
  }

  function LibAttrs(lib: Lib): string {
    if lib.attrs.Some? then AttrText(lib.attrs.value) else ""
  }

  /** The script tag of one library (lines 127-148). */
  function LibTag(lib: Lib, domain: string): string {
    if Contains(lib.src, "{site}") then
      "<script src=\"" + ReplaceAll(lib.src, "{site}", domain) + "\" crossorigin=\"anonymous\""
        + LibAttrs(lib) + "></script>"
    else
      "<script src=\"" + lib.src + "\"" + LibAttrs(lib) + "></script>"
  }

  /** One tag per library (the loop of lines 126-149). */
  function LibTags(libs: seq<Lib>, domain: string): seq<string>
    decreases |libs|
  {
    if libs == [] then [] else LibTags(libs[..|libs| - 1], domain) + [LibTag(libs[|libs| - 1], domain)]
  }

  /** The library tags are in the order of the list, one per library. */
  lemma {:induction false} LibTagsEach(libs: seq<Lib>, domain: string)
    ensures |LibTags(libs, domain)| == |libs|
    ensures forall i :: 0 <= i < |libs| ==> LibTags(libs, domain)[i] == LibTag(libs[i], domain)
    decreases |libs|
  {
    if libs != [] {
      var init := libs[..|libs| - 1];
      LibTagsEach(init, domain);
      var r := LibTags(libs, domain);
      assert r == LibTags(init, domain) + [LibTag(libs[|libs| - 1], domain)];
      forall i | 0 <= i < |libs| ensures r[i] == LibTag(libs[i], domain) {
        if i < |init| {
          assert r[i] == LibTags(init, domain)[i];
          assert init[i] == libs[i];
        } else {
          assert i == |libs| - 1;
        }
      }
    }
  }

  /** A library whose `src` has a `{site}` placeholder is loaded from the
      domain put in place of the first one and of every later one, with
      `crossorigin` and its attributes. */
  lemma SiteLibTag(lib: Lib, a: string, b: string, domain: string)
    requires lib.src == a + "{site}" + b
    requires !Contains(a + "{site", "{site}") && '$' !in domain
    ensures LibTag(lib, domain) ==
      "<script src=\"" + (a + domain + ReplaceAll(b, "{site}", domain)) + "\" crossorigin=\"anonymous\""
        + LibAttrs(lib) + "></script>"
  {
    assert "{site}"[..5] == "{site";
    ReplaceAllFirst(a, "{site}", b, domain);
    ContainsAtMiddle(a, "{site}", b);
    ContainsAtContains(lib.src, |a|, "{site}");
  }

  lemma TurtleSrc()
    ensures TurtleLib.src == "//" + "{site}" + "/turtlebits.js"
  {
  }

  lemma LibTagsOne(lib: Lib, domain: string)
    ensures LibTags([lib], domain) == [LibTag(lib, domain)]
  {
    assert [lib][..0] == [];
  }

  /** The default turtle library is loaded from the given domain, with
      `crossorigin`. */
  lemma TurtleLibTag(domain: string)
    requires '$' !in domain
    ensures LibAttrs(TurtleLib) == ""
    ensures LibTag(TurtleLib, domain) ==
      "<script src=\"" + ("//" + domain + "/turtlebits.js") + "\" crossorigin=\"anonymous\"" + LibAttrs(TurtleLib) + "></script>"
  {
    TurtleSrc();
    ContainsNoStart("//{site", "{site}");
    ContainsNoStart("/turtlebits.js", "{site}");
    SiteLibTag(TurtleLib, "//", "/turtlebits.js", domain);
    ReplaceAllAbsent("/turtlebits.js", "{site}", domain);
    assert LibAttrs(TurtleLib) == "";
  }

  /** The tag of a setup entry loaded from `url` with script type `t`. */
  function SrcTag(url: Option<string>, t: string): string {
    "<script src=\"" + Shown(url) + "\" type=\"" + t + "\">\n</script>"
  }

  /** The tag of one setup entry, or none (lines 152-163). The type is
      inferred only when the entry has none of its own, and inferring it
      can throw. */
  function SetupTag(s: Setup): Result<Option<string>> {
    if Truthy(s.src) then
      if Truthy(s.scriptType) then Ok(Some(SrcTag(s.url, s.scriptType.value)))
      else
        match InferScriptType(s.url)
        case Err(e) => Err(e)
        case Ok(t) => Ok(Some(SrcTag(s.url, t)))
    else if Truthy(s.code) then
      Ok(Some("<script" + (if Truthy(s.scriptType) then " type=\"" + s.scriptType.value + "\"" else "")
              + ">\n" + s.code.value + "\n</script>"))
    else Ok(None)
  }

  /** The tags of two runs of entries one after the other: the first failure
      of the loop stops it. */
  function Then(a: Result<seq<string>>, b: Result<seq<string>>): Result<seq<string>> {
    if a.Err? then Err(a.error) else if b.Err? then Err(b.error) else Ok(a.value + b.value)
  }

  function TagList(tag: Result<Option<string>>): Result<seq<string>> {
    match tag
    case Err(e) => Err(e)
    case Ok(t) => Ok(if t.Some? then [t.value] else [])
  }

  /** The setup loop of lines 150-165: the tags in order, or the failure of
      the first entry that throws. */
  function SetupTags(setups: seq<Setup>): Result<seq<string>>
    decreases |setups|
  {
    if setups == [] then Ok([])
    else Then(SetupTags(setups[..|setups| - 1]), TagList(SetupTag(setups[|setups| - 1])))
  }

  /** An entry contributes nothing exactly when it has neither `src` nor
      `code`. */
  lemma SetupTagSkipped(s: Setup)
    ensures SetupTag(s) == Ok(None) <==> !Truthy(s.src) && !Truthy(s.code)
  {
  }

  /** An entry throws exactly when it is loaded by URL, has no type of its
      own, and its URL's key is an inherited one. */
  lemma SetupTagFails(s: Setup)
    ensures SetupTag(s).Err? <==> Truthy(s.src) && !Truthy(s.scriptType) && Inherits(s.url) && Lookup(s.url).None?
  {
  }

  lemma ThenAssoc(a: Result<seq<string>>, b: Result<seq<string>>, c: Result<seq<string>>)
    ensures Then(Then(a, b), c) == Then(a, Then(b, c))
  {
    if a.Ok? && b.Ok? && c.Ok? {
      assert (a.value + b.value) + c.value == a.value + (b.value + c.value);
    }
  }

  /** Setup tags keep the order of the entries: the tags of a list are the
      tags of its first part followed by those of the rest, and the list
      fails where its first part or else its rest fails. */
  lemma {:induction false} SetupTagsAppend(a: seq<Setup>, b: seq<Setup>)
    ensures SetupTags(a + b) == Then(SetupTags(a), SetupTags(b))
    decreases |b|
  {
    if b == [] {
      assert a + b == a;
      if SetupTags(a).Ok? { assert SetupTags(a).value + [] == SetupTags(a).value; }
    } else {
      var init, last := b[..|b| - 1], TagList(SetupTag(b[|b| - 1]));
      assert (a + b)[..|a + b| - 1] == a + init;
      assert (a + b)[|a + b| - 1] == b[|b| - 1];
      SetupTagsAppend(a, init);
      ThenAssoc(SetupTags(a), SetupTags(init), last);
    }
  }

  /** The setup loop fails exactly when some entry throws. */
  lemma {:induction false} SetupTagsFail(setups: seq<Setup>)
    ensures SetupTags(setups).Err? <==> exists i :: 0 <= i < |setups| && SetupTag(setups[i]).Err?
    decreases |setups|
  {
    if setups != [] {
      var init := setups[..|setups| - 1];
      SetupTagsFail(init);
      SetupTagsLast(setups, SetupTag(setups[|setups| - 1]));
      ExistsSnoc(setups, init, s => SetupTag(s).Err?);
    }
  }

  /** Some element of a non-empty sequence satisfies `p` exactly when one
      before the last does or the last does. */
  lemma ExistsSnoc<T>(xs: seq<T>, init: seq<T>, p: T -> bool)
    requires xs != [] && init == xs[..|xs| - 1]
    ensures (exists i :: 0 <= i < |xs| && p(xs[i])) <==>
      (exists i :: 0 <= i < |init| && p(init[i])) || p(xs[|xs| - 1])
  {
    if exists i :: 0 <= i < |init| && p(init[i]) {
      var i :| 0 <= i < |init| && p(init[i]);
      assert xs[i] == init[i];
    }
  }

  /** Appending one entry fails exactly when the earlier entries or the new
      one fail. */
  lemma {:induction false} SetupTagsLast(setups: seq<Setup>, last: Result<Option<string>>)
    requires setups != [] && last == SetupTag(setups[|setups| - 1])
    ensures SetupTags(setups).Err? <==> SetupTags(setups[..|setups| - 1]).Err? || last.Err?
  {
    var init := SetupTags(setups[..|setups| - 1]);
    assert SetupTags(setups) == Then(init, TagList(last));
    ThenErr(init, TagList(last));
    TagListErr(last);
  }

  lemma ThenErr(a: Result<seq<string>>, b: Result<seq<string>>)
    ensures Then(a, b).Err? <==> a.Err? || b.Err?
  { }

  lemma TagListErr(tag: Result<Option<string>>)
    ensures TagList(tag).Err? <==> tag.Err?
  { }

  /** A setup script loaded by URL without a type gets the type inferred
      from the URL, which is CoffeeScript for a name the table does not
      know; an inherited key makes it throw. */
  lemma SetupTagInferredType(s: Setup)
    requires Truthy(s.src) && !Truthy(s.scriptType)
    ensures SetupTag(s) ==
      if Inherits(s.url) && Lookup(s.url).None? then Err(NotAString)
      else Ok(Some(SrcTag(s.url, TypeName(if Lookup(s.url).Some? then Lookup(s.url).value else Coffee))))
  {
    InferScriptTypeOf(s.url);
  }

  /** The main script's type: the document's own type, not the effective one
      (lines 167-170). */
  function MainType(meta: Option<Meta>): string {
    if meta.Some? && Truthy(meta.value.scriptType) then meta.value.scriptType.value else DefaultType
  }

  /** The preamble that lets the IDE see the program start (lines 171-177). */
  function SeeLine(mainType: string): string {
    if Contains(mainType, "javascript") then "eval(this._start_ide_js_);\n\n"
    else if Contains(mainType, "coffeescript") then "eval(this._start_ide_cs_)\n\n"
    else "\n\n"
  }

  /** A type that mentions CoffeeScript but not JavaScript gets the
      CoffeeScript preamble. */
  lemma SeeLineCoffee(mainType: string)
    requires Contains(mainType, "coffeescript") && !Contains(mainType, "javascript")
    ensures SeeLine(mainType) == "eval(this._start_ide_cs_)\n\n"
  {
  }

  /** A program whose document has no type of its own runs as CoffeeScript
      and gets the CoffeeScript preamble: the default type mentions
      `coffeescript` and not `javascript`. */
  lemma DefaultSeeLine(meta: Option<Meta>)
    ensures !(meta.Some? && Truthy(meta.value.scriptType)) ==>
      MainType(meta) == DefaultType && SeeLine(MainType(meta)) == "eval(this._start_ide_cs_)\n\n"
  {
    DefaultTypeSeeLine();
  }

  lemma DefaultTypeSeeLine()
    ensures SeeLine(DefaultType) == "eval(this._start_ide_cs_)\n\n"
  {
    DefaultHasCoffee();
    DefaultHasNoJavaScript();
    SeeLineCoffee(DefaultType);
  }

  lemma DefaultHasCoffee()
    ensures Contains(DefaultType, "coffeescript")
  {
    assert "text/" + "coffeescript" + "" == DefaultType;
    ContainsMiddle("text/", "coffeescript", "");
  }

  lemma DefaultHasNoJavaScript()
    ensures !Contains(DefaultType, "javascript")
  {
    ContainsNoStart(DefaultType, "javascript");
  }

  /** Lines 178-182. */
  function MainScript(mainType: string, pragmasOnly: bool, text: string): string {
    var opening := "<script type=\"" + mainType + "\">\n" + SeeLine(mainType);
    (if pragmasOnly then opening else opening + text) + "\n</script>"
  }

  /** The scripts: the libraries, then the setup entries (lines 126-165). */
  function Scripts(libs: seq<Lib>, domain: string, setup: Option<seq<Setup>>): Result<seq<string>> {
    if setup.Some? then Then(Ok(LibTags(libs, domain)), SetupTags(setup.value)) else Ok(LibTags(libs, domain))
  }

  /** The result of lines 183-188: the frame around the scripts. */
  function Page(f: Layout, scripts: seq<string>, main: string): string {
    Join(f.prefix, "\n") + f.html + Join(scripts, "") + main + Join(f.suffix, "")
  }

  /** The page HTML of the effective metadata `meta` and its frame. */
  function DocFrame(meta: Meta, pragmasOnly: bool): Layout {
    var html := PageHtml(meta, pragmasOnly);
    ScanFitsScan(html);
    Frame(html, Scan(html), meta.css)
  }

  /** wrapTurtle(doc, domain, pragmasOnly, setupScript). It fails where the
      source throws: effective metadata without `libs`, and then a setup
      entry whose type cannot be inferred. */
  function WrapTurtleDoc(doc: Doc, domain: string, pragmasOnly: bool, setup: Option<seq<Setup>>): Result<string> {
    var meta := EffectiveMeta(doc.meta);
    if meta.libs.None? then Err(LibsMissing)
    else
      match Scripts(meta.libs.value, domain, setup)
      case Err(e) => Err(e)
      case Ok(scripts) => Ok(Page(DocFrame(meta, pragmasOnly), scripts, MainScript(MainType(doc.meta), pragmasOnly, doc.data)))
  }

  /** The page of a document: the HTML its effective metadata gives. */
  function DocHtml(doc: Doc, pragmasOnly: bool): string {
    PageHtml(EffectiveMeta(doc.meta), pragmasOnly)
  }

  /** Assembly fails for missing libraries exactly when the metadata has a
      type and the `lib` flag but no `libs`; otherwise it fails exactly when
      a setup entry throws. */
  lemma WrapFailsIff(doc: Doc, domain: string, pragmasOnly: bool, setup: Option<seq<Setup>>)
    ensures var missing := doc.meta.Some? && Truthy(doc.meta.value.scriptType) && doc.meta.value.lib == Some(true)
      && doc.meta.value.libs.None?;
      && (WrapTurtleDoc(doc, domain, pragmasOnly, setup) == Err(LibsMissing) <==> missing)
      && (WrapTurtleDoc(doc, domain, pragmasOnly, setup).Err? <==>
           missing || (setup.Some? && exists i :: 0 <= i < |setup.value| && SetupTag(setup.value[i]).Err?))
  {
    EffectiveLibs(doc.meta);
    if setup.Some? {
      SetupTagsFail(setup.value);
      if SetupTags(setup.value).Err? { NotLibsMissing(setup.value); }
    }
  }

  /** A setup entry can only fail to infer a type. */
  lemma {:induction false} NotLibsMissing(setups: seq<Setup>)
    ensures SetupTags(setups) != Err(LibsMissing)
    decreases |setups|
  {
    if setups != [] {
      NotLibsMissing(setups[..|setups| - 1]);
      SetupTagFails(setups[|setups| - 1]);
    }
  }

  /** Without a recognised doctype the frame opens with `<!doctype html>`,
      and then so does the page. */
  lemma PageStartsWithDoctype(html: string, top: ScanResult, css: Option<string>, scripts: seq<string>, main: string)
    requires ScanFits(html, top) && "!doctype" !in top.pos
    ensures StartsWith(Page(Frame(html, top, css), scripts, main), "<!doctype html>")
  {
    var f := Frame(html, top, css);
    FrameOpens(html, top, css);
    assert f.prefix[0] == "<!doctype html>";
    JoinEnds(f.prefix, "\n");
  }

  /** Without a recognised doctype or html element the frame closes with
      `</html>`, and then so does the page. */
  lemma PageEndsWithHtml(html: string, top: ScanResult, css: Option<string>, scripts: seq<string>, main: string)
    requires ScanFits(html, top) && "!doctype" !in top.pos && "html" !in top.pos
    ensures EndsWith(Page(Frame(html, top, css), scripts, main), "</html>")
  {
    var f := Frame(html, top, css);
    FrameCloses(html, top, css);
    assert f.suffix[|f.suffix| - 1] == "</html>";
    JoinEnds(f.suffix, "");
  }

  /** Without a recognised doctype the page starts with `<!doctype html>`. */
  lemma WrapStartsWithDoctype(doc: Doc, domain: string, pragmasOnly: bool, setup: Option<seq<Setup>>)
    requires WrapTurtleDoc(doc, domain, pragmasOnly, setup).Ok?
    requires "!doctype" !in Scan(DocHtml(doc, pragmasOnly)).pos
    ensures StartsWith(WrapTurtleDoc(doc, domain, pragmasOnly, setup).value, "<!doctype html>")
  {
    var meta := EffectiveMeta(doc.meta);
    var html := PageHtml(meta, pragmasOnly);
    ScanFitsScan(html);
    PageStartsWithDoctype(html, Scan(html), meta.css, Scripts(meta.libs.value, domain, setup).value,
      MainScript(MainType(doc.meta), pragmasOnly, doc.data));
  }

  /** Without a recognised doctype or html element the page also ends with
      `</html>`. */
  lemma WrapEndsWithHtml(doc: Doc, domain: string, pragmasOnly: bool, setup: Option<seq<Setup>>)
    requires WrapTurtleDoc(doc, domain, pragmasOnly, setup).Ok?
    requires var top := Scan(DocHtml(doc, pragmasOnly)); "!doctype" !in top.pos && "html" !in top.pos
    ensures EndsWith(WrapTurtleDoc(doc, domain, pragmasOnly, setup).value, "</html>")
  {
    var meta := EffectiveMeta(doc.meta);
    var html := PageHtml(meta, pragmasOnly);
    ScanFitsScan(html);
    PageEndsWithHtml(html, Scan(html), meta.css, Scripts(meta.libs.value, domain, setup).value,
      MainScript(MainType(doc.meta), pragmasOnly, doc.data));
  }

  /** In pragmas-only mode the program text is never part of the page: the
      main script holds only the preamble for the document's type. */
  lemma WrapPragmasIgnoresData(doc: Doc, data: string, domain: string, setup: Option<seq<Setup>>)
    ensures WrapTurtleDoc(doc, domain, true, setup) == WrapTurtleDoc(doc.(data := data), domain, true, setup)
    ensures MainScript(MainType(doc.meta), true, doc.data) ==
      "<script type=\"" + MainType(doc.meta) + "\">\n" + SeeLine(MainType(doc.meta)) + "\n</script>"
  {
  }

  /** In pragmas-only mode, metadata HTML with a script tag is treated as if
      there were no HTML at all. */
  lemma WrapDropsScriptHtml(doc: Doc, domain: string, setup: Option<seq<Setup>>)
    requires doc.meta.Some? && HasScriptTag(OrElse(EffectiveMeta(doc.meta).html, ""))
    ensures WrapTurtleDoc(doc, domain, true, setup) ==
      WrapTurtleDoc(doc.(meta := Some(doc.meta.value.(html := None))), domain, true, setup)
  {
    EffectiveWithoutHtml(doc.meta.value);
    var m := EffectiveMeta(doc.meta);
    assert PageHtml(m, true) == "" == PageHtml(m.(html := None), true);
  }

  /** With CSS and a `</head>` tag recorded past the start (and not just
      before a newline), the prefix ends with the page text before that tag
      and the style block, and the page resumes at the tag. */
  lemma FrameCssBeforeHeadClose(html: string, top: ScanResult, css: Option<string>)
    requires ScanFits(html, top) && Truthy(css)
    requires "/head" in top.pos && top.pos["/head"].index > 0
    requires var i := top.pos["/head"].index; i < |html| ==> html[i] != '\n'
    ensures var i := top.pos["/head"].index; var open := OpenTags(top); var f := Frame(html, top, css);
      && Join(f.prefix, "\n") == Join(open, "\n") + (if open == [] then "" else "\n")
           + (html[..i] + "\n" + "<style>" + "\n" + css.value + "\n" + "</style>")
      && f.html == html[i..] && f.suffix == CloseTags(top)
  {
    var i := top.pos["/head"].index;
    assert SplitHead(top) == i;
    FrameSplitKeepsPage(html, top, css);
    var items := [html[..i], "<style>", css.value, "</style>"];
    JoinConcatSep(OpenTags(top), items, "\n");
    JoinFour(html[..i], "<style>", css.value, "</style>", "\n");
  }

  /** With CSS and a recorded `</head>` tag past the start, the style block
      goes right before that tag, after the page text that precedes it, and
      the page continues from the tag on. */
  lemma WrapCssBeforeHeadClose(doc: Doc, domain: string, pragmasOnly: bool, setup: Option<seq<Setup>>)
    requires WrapTurtleDoc(doc, domain, pragmasOnly, setup).Ok?
    requires var meta := EffectiveMeta(doc.meta); var top := Scan(DocHtml(doc, pragmasOnly));
      Truthy(meta.css) && "/head" in top.pos && top.pos["/head"].index > 0
    ensures var meta := EffectiveMeta(doc.meta); var html := DocHtml(doc, pragmasOnly);
      var top := Scan(html); var i := top.pos["/head"].index; var open := OpenTags(top);
      && i <= |html|
      && WrapTurtleDoc(doc, domain, pragmasOnly, setup).value ==
        Join(open, "\n") + (if open == [] then "" else "\n")
        + (html[..i] + "\n" + "<style>" + "\n" + meta.css.value + "\n" + "</style>") + html[i..]
        + Join(Scripts(meta.libs.value, domain, setup).value, "")
        + MainScript(MainType(doc.meta), pragmasOnly, doc.data) + Join(CloseTags(top), "")
  {
    var meta := EffectiveMeta(doc.meta);
    var html := PageHtml(meta, pragmasOnly);
    ScanFitsScan(html);
    SplitHeadNoNewline(html);
    FrameCssBeforeHeadClose(html, Scan(html), meta.css);
  }

  /** The empty page has nothing recorded and no body. */
  lemma EmptyScan()
    ensures Scan("") == ScanResult(map[], false, 0)
  {
    assert SkipSpaces("", 0) == 0;
    assert CommentMatch("", 0).None?;
    assert TagMatch("", 0).None?;
    HaltStep("", 0, false, map[]);
  }

  /** A program without metadata has an empty page, framed by a doctype,
      an html and a body element. */
  lemma DefaultFrame()
    ensures DocFrame(DefaultMeta, false) == Layout(["<!doctype html>", "<html>", "<body>"], "", ["</body>", "</html>"])
  {
    assert PageHtml(DefaultMeta, false) == "";
    EmptyScan();
  }

  /** A program with no metadata is run with the default metadata. */
  lemma WrapNoMeta(data: string, domain: string, pragmasOnly: bool, setup: Option<seq<Setup>>)
    ensures WrapTurtleDoc(Doc(data, None), domain, pragmasOnly, setup) ==
      match Scripts([TurtleLib], domain, setup)
      case Err(e) => Err(e)
      case Ok(scripts) => Ok(Page(DocFrame(DefaultMeta, pragmasOnly), scripts, MainScript(DefaultType, pragmasOnly, data)))
  {
    assert EffectiveMeta(None) == DefaultMeta;
  }

  /** A program with no metadata becomes a page with a doctype, an html and
      a body element, the turtle library from the domain and the program as
      a CoffeeScript script. */
  lemma WrapDefaultDocument(data: string, domain: string)
    requires '$' !in domain
    ensures WrapTurtleDoc(Doc(data, None), domain, false, None) == Ok(
      "<!doctype html>" + "\n" + "<html>" + "\n" + "<body>"
      + LibTag(TurtleLib, domain)
      + ("<script type=\"" + DefaultType + "\">\n" + SeeLine(DefaultType) + data + "\n</script>")
      + ("</body>" + "</html>"))
  {
    WrapNoMeta(data, domain, false, None);
    var f := DocFrame(DefaultMeta, false);
    var scripts := Scripts([TurtleLib], domain, None).value;
    var main := MainScript(DefaultType, false, data);
    DefaultFrame();
    JoinThree("<!doctype html>", "<html>", "<body>", "\n");
    JoinTwo("</body>", "</html>", "");
    assert "</body>" + "" == "</body>";
    LibTagsOne(TurtleLib, domain);
    assert scripts == [LibTag(TurtleLib, domain)];
    assert Join(scripts, "") == LibTag(TurtleLib, domain);
    PageWithoutHtml(f, scripts, main);
  }

  lemma PageWithoutHtml(f: Layout, scripts: seq<string>, main: string)
    requires f.html == ""
    ensures Page(f, scripts, main) == Join(f.prefix, "\n") + Join(scripts, "") + main + Join(f.suffix, "")
  {
    assert Join(f.prefix, "\n") + "" == Join(f.prefix, "\n");
  }

  /** The scripts are the library tags in list order and then the setup
      tags in the order of the entries: split the entries anywhere, the tags
      of the first part come first. */
  lemma ScriptOrder(libs: seq<Lib>, domain: string, setup: seq<Setup>, i: nat)
    requires i <= |setup|
    ensures var r := Scripts(libs, domain, Some(setup));
      && (r.Ok? <==> SetupTags(setup[..i]).Ok? && SetupTags(setup[i..]).Ok?)
      && (r.Ok? ==>
            Join(r.value, "") == Join(LibTags(libs, domain), "") + Join(SetupTags(setup[..i]).value, "")
              + Join(SetupTags(setup[i..]).value, ""))
  {
    assert setup == setup[..i] + setup[i..];
    SetupTagsAppend(setup[..i], setup[i..]);
    if SetupTags(setup).Ok? {
      JoinConcat(LibTags(libs, domain), SetupTags(setup).value);
      JoinConcat(SetupTags(setup[..i]).value, SetupTags(setup[i..]).value);
    }
  }

  // The imperative rendition of wrapTurtle.

  /** Lines 88-121: the items the head and body need, pushed in order,
      and the page HTML cut where the head is split. */
  method HeadItemsOf(html: string, top: ScanResult, css: Option<string>) returns (prefix: seq<string>, page: string, suffix: seq<string>)
    requires ScanFits(html, top)
    ensures Layout(prefix, page, suffix) == HeadItems(html, top, css)
  {
    prefix, page, suffix := [], html, [];
    if css.Some? && css.value != "" {
      var headNeeded := top.bodyPos == 0;
      if headNeeded {
        prefix := prefix + ["<head>"];
      } else {
        var split, newline := top.bodyPos, 0;
        if "/head" in top.pos {
          split := Min(split, top.pos["/head"].index);
        }
        if split > 0 {
          if split < |page| && page[split] == '\n' {
            newline := 1;
          }
          prefix := prefix + [page[..split - newline]];
          page := page[split..];
        }
      }
      prefix := prefix + ["<style>", css.value, "</style>"];
      if headNeeded {
        prefix := prefix + ["</head>"];
        if !top.hasBody {
          prefix := prefix + ["<body>"];
          suffix := ["</body>"] + suffix;
        }
      }
    } else if top.bodyPos == 0 && !top.hasBody {
      prefix := prefix + ["<body>"];
      suffix := ["</body>"] + suffix;
    } else if IsBlank(page[top.bodyPos..]) {
      suffix := ["<body></body>"] + suffix;
    }
  }

  /** Lines 80-124 for the page `html` whose scan is `top`: the prefix is
      built with `push`, the suffix with `unshift`. */
  method FrameOf(html: string, top: ScanResult, css: Option<string>) returns (prefix: seq<string>, page: string, suffix: seq<string>)
    requires ScanFits(html, top)
    ensures Layout(prefix, page, suffix) == Frame(html, top, css)
  {
    prefix, suffix := [], [];
    if "!doctype" !in top.pos {
      prefix := prefix + ["<!doctype html>"];
      if "html" !in top.pos {
        prefix := prefix + ["<html>"];
        suffix := ["</html>"] + suffix;
      }
    }
    var items, itemsAfter;
    items, page, itemsAfter := HeadItemsOf(html, top, css);
    prefix := prefix + items;
    suffix := itemsAfter + suffix;
  }

  /** Lines 79-124: scan the page, then frame it. */
  method FramePage(html: string, css: Option<string>) returns (prefix: seq<string>, page: string, suffix: seq<string>)
    ensures ScanFits(html, Scan(html)) && Layout(prefix, page, suffix) == Frame(html, Scan(html), css)
  {
    var top := ScanHtmlTop(html);
    ScanFitsScan(html);
    prefix, page, suffix := FrameOf(html, top, css);
  }

  /** The attribute loop of lines 130-132. */
  method AttrString(attrs: seq<(string, string)>) returns (s: string)
    ensures s == AttrText(attrs)
  {
    s := "";
    for k := 0 to |attrs|
      invariant s == AttrText(attrs[..k])
    {
      assert attrs[..k + 1][..k] == attrs[..k];
      s := s + " " + attrs[k].0 + "=\"" + EscapeHtml(attrs[k].1) + "\"";
    }
    assert attrs[..|attrs|] == attrs;
  }

  /** One iteration of the library loop (lines 127-148). */
  method LibScript(lib: Lib, domain: string) returns (tag: string)
    ensures tag == LibTag(lib, domain)
  {
    var src := lib.src;
    var attrs := "";
    if lib.attrs.Some? {
      attrs := AttrString(lib.attrs.value);
    }
    if Contains(src, "{site}") {
      src := ReplaceAll(src, "{site}", domain);
      tag := "<script src=\"" + src + "\" crossorigin=\"anonymous\"" + attrs + "></script>";
    } else {
      tag := "<script src=\"" + src + "\"" + attrs + "></script>";
    }
  }

  /** One iteration of the setup loop (lines 152-163); a failure is the
      throw of inferScriptType. */
  method SetupScript(e: Setup) returns (tag: Result<Option<string>>)
    ensures tag == SetupTag(e)
  {
    tag := Ok(None);
    if e.src.Some? && e.src.value != "" {
      var t := if e.scriptType.Some? && e.scriptType.value != "" then Ok(e.scriptType.value) else InferScriptType(e.url);
      if t.Err? {
        return Err(t.error);
      }
      tag := Ok(Some("<script src=\"" + Shown(e.url) + "\" type=\"" + t.value + "\">\n</script>"));
    } else if e.code.Some? && e.code.value != "" {
      var t := if e.scriptType.Some? && e.scriptType.value != "" then " type=\"" + e.scriptType.value + "\"" else "";
      tag := Ok(Some("<script" + t + ">\n" + e.code.value + "\n</script>"));
    }
  }

  /** The script loops of lines 126-165. */
  method ScriptList(libs: seq<Lib>, domain: string, setup: Option<seq<Setup>>) returns (r: Result<seq<string>>)
    ensures r == Scripts(libs, domain, setup)
  {
    var scripts := [];
    for j := 0 to |libs|
      invariant scripts == LibTags(libs[..j], domain)
    {
      assert libs[..j + 1][..j] == libs[..j];
      var tag := LibScript(libs[j], domain);
      scripts := scripts + [tag];
    }
    assert libs[..|libs|] == libs;
    if setup.Some? {
      var entries := setup.value;
      for j := 0 to |entries|
        invariant SetupTags(entries[..j]).Ok?
        invariant scripts == LibTags(libs, domain) + SetupTags(entries[..j]).value
      {
        assert entries[..j + 1][..j] == entries[..j];
        var tag := SetupScript(entries[j]);
        if tag.Err? {
          SetupTagsAppend(entries[..j + 1], entries[j + 1..]);
          assert entries[..j + 1] + entries[j + 1..] == entries;
          return Err(tag.error);
        }
        if tag.value.Some? {
          scripts := scripts + [tag.value.value];
        }
      }
      assert entries[..|entries|] == entries;
    }
    r := Ok(scripts);
  }

  /** The main script's type (lines 167-170). */
  method MainTypeOf(meta: Option<Meta>) returns (mainType: string)
    ensures mainType == MainType(meta)
  {
    mainType := DefaultType;
    if meta.Some? && meta.value.scriptType.Some? && meta.value.scriptType.value != "" {
      mainType := meta.value.scriptType.value;
    }
  }

  /** The preamble of lines 171-177. */
  method SeeLineOf(mainType: string) returns (seeLine: string)
    ensures seeLine == SeeLine(mainType)
  {
    seeLine := "\n\n";
    if Contains(mainType, "javascript") {
      seeLine := "eval(this._start_ide_js_);\n\n";
    } else if Contains(mainType, "coffeescript") {
      seeLine := "eval(this._start_ide_cs_)\n\n";
    }
  }

  /** The main script of lines 167-182. */
  method MainScriptOf(meta: Option<Meta>, pragmasOnly: bool, text: string) returns (mainScript: string)
    ensures mainScript == MainScript(MainType(meta), pragmasOnly, text)
  {
    var mainType := MainTypeOf(meta);
    var seeLine := SeeLineOf(mainType);
    mainScript := "<script type=\"" + mainType + "\">\n" + seeLine;
    if !pragmasOnly {
      mainScript := mainScript + text;
    }
    mainScript := mainScript + "\n</script>";
  }

  /** wrapTurtle, step by step. */
  method WrapTurtle(doc: Doc, domain: string, pragmasOnly: bool, setup: Option<seq<Setup>>) returns (r: Result<string>)
    ensures r == WrapTurtleDoc(doc, domain, pragmasOnly, setup)
  {
    var meta := NormalizeMeta(doc.meta);
    var html := if meta.html.Some? && meta.html.value != "" then meta.html.value else "";
    if pragmasOnly && HasScriptTag(html) {
      html := "";
    }
    assert html == PageHtml(meta, pragmasOnly);
    var prefix, page, suffix := FramePage(html, meta.css);
    if meta.libs.None? {
      return Err(LibsMissing);
    }
    var scripts := ScriptList(meta.libs.value, domain, setup);
    if scripts.Err? {
      return Err(scripts.error);
    }
    var mainScript := MainScriptOf(doc.meta, pragmasOnly, doc.data);
    r := Ok(Join(prefix, "\n") + page + Join(scripts.value, "") + mainScript + Join(suffix, ""));
  }
}
