/** File-name based MIME types: mimeForFilename and inferScriptType
    (content/src/filetype.js lines 3-10 and 270-295). */
module MimeTypes {
  import opened Wrappers
  import opened JsText

  /** The types the extension table maps to. */
  datatype KnownType = Jpeg | Gif | Png | Svg | Bmp | Icon | Html | Plain | Css | Coffee | Js | Xml

  function TypeName(k: KnownType): string {
    match k
    case Jpeg => "image/jpeg"
    case Gif => "image/gif"
    case Png => "image/png"
    case Svg => "image/svg+xml"
    case Bmp => "image/x-ms-bmp"
    case Icon => "image/x-icon"
    case Html => "text/html"
    case Plain => "text/plain"
    case Css => "text/css"
    case Coffee => "text/coffeescript"
    case Js => "text/javascript"
    case Xml => "text/xml"
  }

  /** The extension table of lines 272-286. */
  const MimeTable: map<string, KnownType> := map[
    "jpg" := Jpeg,
    "jpeg" := Jpeg,
    "gif" := Gif,
    "png" := Png,
    "svg" := Svg,
    "bmp" := Bmp,
    "ico" := Icon,
    "htm" := Html,
    "html" := Html,
    "txt" := Plain,
    "text" := Plain,
    "css" := Css,
    "coffee" := Coffee,
    "js" := Js,
    "xml" := Xml]

  /** The properties every object literal inherits from `Object.prototype`.
      Looking one of them up in the table of lines 271-286 finds the
      inherited member, a function (an object for `__proto__`), so it is
      truthy and mimeForFilename returns it. */
  const InheritedKeys: set<string> := {
    "__defineGetter__", "__defineSetter__", "__lookupGetter__", "__lookupSetter__", "__proto__",
    "constructor", "hasOwnProperty", "isPrototypeOf", "propertyIsEnumerable", "toLocaleString",
    "toString", "valueOf"}

  /** What a regular expression test reads an inherited member as: the
      source text of a built-in function, or `[object Object]` for the
      prototype itself. */
  function InheritedText(key: string): string {
    if key == "__proto__" then "[object Object]"
    else if key == "constructor" then "function Object() { [native code] }"
    else "function " + key + "() { [native code] }"
  }

  /** The type of a file the table does not know. */
  const PencilType := "text/x-pencilcode"
  const Charset := ";charset=utf-8"

  predicate IsNotLineTerminator(c: char) {
    !IsLineTerminator(c)
  }

  /** The last '.' before offset `n`. */
  function LastDot(s: string, n: nat): (r: Option<nat>)
    requires n <= |s|
    ensures r.Some? ==> r.value < n && s[r.value] == '.'
    ensures r.Some? ==> forall k :: r.value < k < n ==> s[k] != '.'
    ensures r.None? ==> forall k :: 0 <= k < n ==> s[k] != '.'
  {
    if n == 0 then None else if s[n - 1] == '.' then Some(n - 1) else LastDot(s, n - 1)
  }

  /** The table key `s.replace(/^.*\./, '')`: `.` does not match a line
      terminator, so everything up to the last '.' of the first line is
      removed, and nothing when the first line has no '.'. */
  function Extension(s: string): (r: string)
    ensures |r| <= |s| && r == s[|s| - |r|..]
    ensures r != s ==> s[|s| - |r| - 1] == '.'
  {
    var lineEnd := RunEnd(s, 0, IsNotLineTerminator);
    match LastDot(s, lineEnd)
    case None => s
    case Some(d) => s[d + 1..]
  }

  /** What the regular expression removes: a prefix of the first line that
      ends at its last '.'. */
  lemma ExtensionCut(s: string)
    ensures var k := |s| - |Extension(s)|;
      && (forall j :: 0 <= j < k ==> !IsLineTerminator(s[j]))
      && (forall j :: k <= j < |s| && s[j] == '.' ==> exists t :: 0 <= t < j && IsLineTerminator(s[t]))
  {
    var lineEnd := RunEnd(s, 0, IsNotLineTerminator);
    RunEndAll(s, 0, IsNotLineTerminator);
    var d := LastDot(s, lineEnd);
    var k := if d.Some? then d.value + 1 else 0;
    assert |s| - |Extension(s)| == k by {
      if d.Some? { assert Extension(s) == s[d.value + 1..]; }
    }
    forall j | k <= j < |s| && s[j] == '.'
      ensures exists t :: 0 <= t < j && IsLineTerminator(s[t])
    {
      assert lineEnd < j && IsLineTerminator(s[lineEnd]);
    }
  }

  /** `filename.indexOf('.') > 0`. */
  predicate DotAfterStart(s: string) {
    match IndexOfChar(s, '.', 0)
    case Some(p) => p > 0
    case None => false
  }

  lemma DotAfterStartIff(s: string)
    ensures DotAfterStart(s) <==> '.' in s && s[0] != '.'
  {
    IndexOfCharFirst(s, '.', 0);
    if '.' in s {
      var i :| 0 <= i < |s| && s[i] == '.';
      assert IndexOfChar(s, '.', 0).Some?;
    }
  }

  /** The charset suffix of line 291. */
  function WithCharset(mime: string): string {
    if StartsWith(mime, "text/") then mime + Charset else mime
  }

  /** The table entry the name selects, if any (lines 271-286). */
  function Lookup(filename: Option<string>): Option<KnownType> {
    if filename.Some? && DotAfterStart(filename.value) && Extension(filename.value) in MimeTable
    then Some(MimeTable[Extension(filename.value)]) else None
  }

  /** The name finds an inherited member of the table: its extension is
      not a key of the table's own but a property of `Object.prototype`. */
  predicate Inherits(filename: Option<string>) {
    filename.Some? && DotAfterStart(filename.value) && Extension(filename.value) in InheritedKeys
  }

  /** The type before the charset is added (lines 271-290). */
  function BaseType(filename: Option<string>): string {
    match Lookup(filename)
    case Some(k) => TypeName(k)
    case None => if Inherits(filename) then InheritedText(Extension(filename.value)) else PencilType
  }

  /** mimeForFilename(filename); an absent file name is `None`. For a name
      that finds an inherited member the source returns that member, which
      is not a string; the model returns the text the regular expression
      tests of modifyForPreview read it as, and Inherits tells the case
      apart where a string method is called on it. */
  function MimeForFilename(filename: Option<string>): string {
    WithCharset(BaseType(filename))
  }

  /** An inherited key has no '/', so neither has the text it is read as,
      which starts with neither `t` nor `i` and ends with neither `8` nor a
      letter. */
  lemma InheritedTextShape(key: string)
    requires key in InheritedKeys
    ensures var t := InheritedText(key);
      && '/' !in t && |t| > 6 && t[0] != 't' && t[0] != 'i' && t[|t| - 1] != '8'
  {
    InheritedKeyPlain(key);
    if key == "__proto__" {
      assert '/' !in "[object Object]";
    } else if key == "constructor" {
      assert '/' !in "function Object() { [native code] }";
    } else {
      var t := InheritedText(key);
      assert t == "function " + (key + "() { [native code] }");
      assert t[0] == 'f' && t[|t| - 1] == '}';
    }
  }

  lemma InheritedKeyPlain(key: string)
    requires key in InheritedKeys
    ensures '/' !in key
  {
  }

  /** An inherited member's text is not a text type, so no charset is added. */
  lemma InheritedNoCharset(key: string)
    requires key in InheritedKeys
    ensures WithCharset(InheritedText(key)) == InheritedText(key)
    ensures !StartsWith(InheritedText(key), "text/") && !EndsWith(InheritedText(key), Charset)
  {
    InheritedTextShape(key);
    var t := InheritedText(key);
    assert Charset[|Charset| - 1] == '8';
  }

  /** Each type of the table is a text or an image type, and none is the
      fallback type. */
  lemma KnownTypeShape(k: KnownType)
    ensures StartsWith(TypeName(k), "text/") || StartsWith(TypeName(k), "image/")
    ensures !EndsWith(TypeName(k), Charset)
    ensures |TypeName(k)| > 6 && TypeName(k)[6] != '-'
  {
    KnownTypeKind(k);
    KnownTypeNoCharset(k);
    KnownTypeNotPencil(k);
  }

  lemma KnownTypeKind(k: KnownType)
    ensures StartsWith(TypeName(k), "text/") || StartsWith(TypeName(k), "image/")
  {
  }

  lemma KnownTypeNoCharset(k: KnownType)
    ensures !EndsWith(TypeName(k), Charset)
  {
  }

  /** Where every table type differs from `text/x-pencilcode`. */
  lemma KnownTypeNotPencil(k: KnownType)
    ensures |TypeName(k)| > 6 && TypeName(k)[6] != '-'
  {
  }

  /** No type of the table has parameters. */
  lemma KnownTypePlain(k: KnownType)
    ensures ';' !in TypeName(k)
  {
  }

  /** Adding the charset loses nothing: different types stay different. */
  lemma WithCharsetInjective(a: string, b: string)
    requires WithCharset(a) == WithCharset(b)
    ensures a == b
  {
    if StartsWith(a, "text/") && StartsWith(b, "text/") {
      assert a == WithCharset(a)[..|WithCharset(a)| - |Charset|];
      assert b == WithCharset(b)[..|WithCharset(b)| - |Charset|];
    }
  }

  /** A name `stem.ext` with one line, whose extension has no '.' and whose
      stem does not start with '.', is looked up by `ext`. */
  lemma MimeByExtension(stem: string, ext: string)
    requires stem != [] && stem[0] != '.' && '.' !in ext
    requires forall j :: 0 <= j < |stem| ==> !IsLineTerminator(stem[j])
    requires forall j :: 0 <= j < |ext| ==> !IsLineTerminator(ext[j])
    ensures MimeForFilename(Some(stem + "." + ext)) ==
      WithCharset(if ext in MimeTable then TypeName(MimeTable[ext])
                  else if ext in InheritedKeys then InheritedText(ext) else PencilType)
  {
    var s := stem + "." + ext;
    assert s[|stem|] == '.';
    DotAfterStartIff(s);
    assert s[0] == stem[0];
    var lineEnd := RunEnd(s, 0, IsNotLineTerminator);
    assert lineEnd == |s|;
    var d := LastDot(s, lineEnd);
    assert d.Some?;
    assert d.value == |stem| by {
    }
    assert s[|stem| + 1..] == ext;
  }

  /** The fallback type is the answer exactly when there is no name, the name
      has no '.' or starts with one, or its key is neither the table's own
      nor inherited. */
  lemma MimeFallback(filename: Option<string>)
    ensures MimeForFilename(filename) == PencilType + Charset <==>
      filename.None? || !('.' in filename.value && filename.value[0] != '.')
      || (Extension(filename.value) !in MimeTable && Extension(filename.value) !in InheritedKeys)
  {
    if filename.Some? { DotAfterStartIff(filename.value); }
    assert WithCharset(PencilType) == PencilType + Charset;
    if MimeForFilename(filename) == PencilType + Charset {
      WithCharsetInjective(BaseType(filename), PencilType);
      if Lookup(filename).Some? { KnownTypeShape(Lookup(filename).value); }
      if Lookup(filename).None? && Inherits(filename) {
        InheritedTextShape(Extension(filename.value));
      }
    }
  }

  /** `;charset=utf-8` ends the type exactly when the type is a text one. */
  lemma MimeCharset(filename: Option<string>)
    ensures var r := MimeForFilename(filename);
      StartsWith(r, "text/") <==> EndsWith(r, Charset)
  {
    if Lookup(filename).Some? { KnownTypeShape(Lookup(filename).value); }
    else if Inherits(filename) { InheritedNoCharset(Extension(filename.value)); }
  }

  /** Where `;.*$` can match: a ';' with no line terminator after it. */
  predicate ParamsAt(s: string, k: nat) {
    k < |s| && s[k] == ';' && forall j :: k < j < |s| ==> !IsLineTerminator(s[j])
  }

  /** `s.replace(/;.*$/, '')`. */
  function StripParams(s: string): (r: string)
    ensures |r| <= |s| && r == s[..|r|]
  {
    match FirstWhere((k: nat) => ParamsAt(s, k), 0, |s|)
    case None => s
    case Some(k) => s[..k]
  }

  /** On a one-line string StripParams cuts at the first ';'. */
  lemma StripParamsOneLine(s: string)
    requires forall j :: 0 <= j < |s| ==> !IsLineTerminator(s[j])
    ensures var r := StripParams(s);
      (forall j :: 0 <= j < |r| ==> r[j] != ';') && (r == s || s[|r|] == ';')
  {
    var p := (k: nat) => ParamsAt(s, k);
    assert forall k: nat :: p(k) == ParamsAt(s, k);
    var f := FirstWhere(p, 0, |s|);
    forall j | 0 <= j < |StripParams(s)| ensures s[j] != ';' {
      if s[j] == ';' { assert ParamsAt(s, j); }
    }
  }

  /** The script type of a MIME type: the pencilcode type stands for
      CoffeeScript, and parameters are dropped (lines 5-9). */
  function ScriptTypeOf(mime: string): string {
    StripParams(if StartsWith(mime, PencilType) then "text/coffeescript" else mime)
  }

  /** inferScriptType(filename). An inherited member passes the test of
      line 5 unchanged, and line 9 then throws: it has no `replace`. */
  function InferScriptType(filename: Option<string>): Result<string> {
    if Inherits(filename) && Lookup(filename).None? then Err(NotAString)
    else Ok(ScriptTypeOf(MimeForFilename(filename)))
  }

  lemma ScriptTypeOfTable(k: Option<KnownType>)
    ensures ScriptTypeOf(WithCharset(if k.Some? then TypeName(k.value) else PencilType)) ==
      TypeName(if k.Some? then k.value else Coffee)
  {
    var base := TypeName(if k.Some? then k.value else Coffee);
    var full := WithCharset(if k.Some? then TypeName(k.value) else PencilType);
    var t := if StartsWith(full, PencilType) then "text/coffeescript" else full;
    if k.Some? {
      KnownTypeShape(k.value);
      assert full[6] == TypeName(k.value)[6] && PencilType[6] == '-';
    }
    KnownTypePlain(if k.Some? then k.value else Coffee);
    StripParamsUntilCharset(base, t);
  }

  /** The script type is the table's type for the name, without parameters,
      and the CoffeeScript type for a name the table does not know; a name
      whose key is inherited makes it throw. */
  lemma InferScriptTypeOf(filename: Option<string>)
    ensures InferScriptType(filename) ==
      if Inherits(filename) && Lookup(filename).None? then Err(NotAString)
      else Ok(TypeName(if Lookup(filename).Some? then Lookup(filename).value else Coffee))
  {
    if !(Inherits(filename) && Lookup(filename).None?) {
      ScriptTypeOfTable(Lookup(filename));
    }
  }

  /** Stripping the parameters of a type without ';', with or without the
      charset, gives the type. */
  lemma StripParamsUntilCharset(m: string, t: string)
    requires ';' !in m
    requires t == m || t == m + Charset
    ensures StripParams(t) == m
  {
    var p := (k: nat) => ParamsAt(t, k);
    assert forall k: nat :: p(k) == ParamsAt(t, k);
    forall k | 0 <= k < |m| ensures !ParamsAt(t, k) {
      assert t[k] == m[k] && m[k] in m;
    }
    if t != m {
      assert ParamsAt(t, |m|) by {
        forall j | |m| < j < |t| ensures !IsLineTerminator(t[j]) {
          assert t[j] == Charset[j - |m|];
        }
      }
      assert FirstWhere(p, 0, |t|) == Some(|m|);
    } else {
      assert FirstWhere(p, 0, |t|) == None;
    }
  }
}
