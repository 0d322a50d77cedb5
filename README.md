# Pencil Code file types and previews, in Dafny

This project models `content/src/filetype.js` from Pencil Code. This is the
module that turns a stored file into something the IDE can show or run:

- `mimeForFilename` picks a MIME type from a file name's extension.
  A name the table does not know is a Pencil Code program, `text/x-pencilcode`.
  The table is an object literal, so an extension such as `toString`,
  `constructor` or `__proto__` finds a member inherited from
  `Object.prototype` instead.
- `inferScriptType` is the script type for a `<script type=…>` attribute.
- `effectiveMeta` and `isDefaultMeta` normalise a document's metadata: its
  script type, its libraries, and its HTML and CSS.
- `scanHtmlTop` walks the head of the metadata's HTML. It records the first
  position of each head tag and where the body starts.
- `wrapTurtle` assembles a program into a full HTML page. The page gets a
  doctype, `html`/`head`/`body` frame tags, the CSS, the library scripts with
  `{site}` replaced by the domain, the setup scripts, and the main script.
- `escapeHtml` escapes library attribute values.
- `modifyForPreview` picks what the preview frame shows for a file:
  - the wrapped program;
  - nothing, in pragmas-only mode when the file is not safe;
  - an SVG warning;
  - an image page;
  - a `<PLAINTEXT>` page;
  - HTML with a `<base href>` inserted after the first of `<head>`, `<html>`
    or `<!doctype>` that comes before any content tag.

Each JavaScript regular expression is a hand-written matcher. A matcher
works at an absolute offset into the string and gives the match the
backtracking engine would find:
- `\s` is ECMAScript's WhiteSpace and LineTerminator set;
- `\w` and `\b` are ASCII;
- `/i` is ASCII case folding.

`String.prototype.replace` is modelled with its `$` replacement patterns.
Global replacement is a left-to-right scan for non-overlapping matches.

`scanHtmlTop`, `effectiveMeta`, `wrapTurtle` and `modifyForPreview` keep the
source's imperative form. Each is a method written step by step like the
source, with the source's loops, and is proved equal to a function; the
lemmas are about that function. `mimeForFilename`, `inferScriptType`,
`escapeHtml` and `isDefaultMeta` are single expressions in the source and
are functions here.

Three behaviours a reader may not expect are modelled as the code has them:
- A name whose extension is an inherited key gets that member from the
  table. It is truthy, so it is not replaced by `text/x-pencilcode`. It is
  not a string, but the regular-expression tests read it as one: the
  source text of a built-in function (`Object` for `constructor`, which
  is what that key holds), or `[object Object]` for
  `__proto__`. `MimeTypes.MimeForFilename` returns that text, and
  `Inherits` marks the case. `inferScriptType` then calls `replace` on a
  non-string and throws (line 9). That is modelled as `Err(NotAString)`,
  and `wrapTurtle` passes it on for a setup entry loaded by such a URL.
  `modifyForPreview` shows such a file after `<PLAINTEXT>`.
- `wrapTurtle` is not total. Suppose the metadata has a `type` and the truthy
  `lib` flag but no `libs`. Then `effectiveMeta` returns it unchanged (line
  298) and line 126 reads `meta.libs.length` of `undefined`. That is modelled
  as `Err(LibsMissing)`.
- `bodypos` is the offset of a `<body>` tag whenever one ends the head. This
  holds even when only whitespace came before it, because the body branch
  sets `scanned` (lines 59-63). It is not 0 in that case.

Several quirks are modelled as written:
- the double-quoted attribute value `"[^"]"` takes exactly one character;
- the closing tag of a title, style or script is never what `pos` holds:
  its key is recorded only when no tag of that key was recorded first, and
  the opening tag of the same key always is (`HeadScanner.FirstOccurrenceWins`);
- the newline trim at the head split (line 101) can never fire, because the
  split point never sits on a `\n` (`Assemble.SplitHeadNoNewline`);
- `escapeHtml` replaces `&` last, so it escapes its own entities again;
- a setup entry is tested on `.src` but loads `.url`;
- `mimeForFilename` needs the first `.` at an index above 0;
- the main script's type is the document's own `meta.type`, not the
  effective one.

## Model

| member | source | states |
|---|---|---|
| JsText.LowerStrFolds | content/src/filetype.js:34 | the lower-cased key has no ASCII capital, lower-casing it again changes nothing, and it equals the tag name up to case |
| JsText.SkipSpaces | content/src/filetype.js:25 | `/^\s*/` consumes a run ending at the string's end or at a non-space |
| JsText.SkipSpacesAll | content/src/filetype.js:25 | every character that `/^\s*/` consumes is whitespace |
| JsText.IndexOf | content/src/filetype.js:134 | the offset found holds the pattern, and no earlier offset does; none is found only when the pattern occurs nowhere |
| JsText.IndexOfCharFirst | content/src/filetype.js:271 | `indexOf('.')` finds the first `.` at or after the start, and none when there is no `.` |
| JsText.SubstitutionPlain | content/src/filetype.js:135 | a replacement without `$` is inserted literally |
| JsText.ReplaceAllAbsent | content/src/filetype.js:135 | a global replacement of an absent pattern leaves the text unchanged |
| JsText.ReplaceAllFirst | content/src/filetype.js:135 | when the first occurrence ends just after `a`, the global replacement is `a`, the replacement, then the replaced rest |
| JsText.ReplaceAllAt | content/src/filetype.js:135 | the scan replaces the first occurrence first and copies the text before it unchanged |
| JsText.ReplaceAllKeeps | content/src/filetype.js:135 | a stretch without a match is copied through unchanged |
| JsText.ReplaceAllTail | content/src/filetype.js:135 | with a replacement without `$`, what the scan produces from a position depends only on the text from there on |
| JsText.ReplaceAllChar | content/src/filetype.js:193-194 | a global replacement of one character rewrites that character everywhere and keeps every other character |
| JsText.ReplaceFirstAt | content/src/filetype.js:202 | when no occurrence starts before `a` ends, the first replacement substitutes the occurrence that follows `a` |
| JsText.JoinConcatSep | content/src/filetype.js:184 | joining a concatenated list joins its two parts, with one separator between them when both are non-empty |
| JsText.JoinEnds | content/src/filetype.js:240 | a joined list starts with its first line and ends with its last |
| HtmlPatterns.CommentMatch | content/src/filetype.js:28 | a leading comment is at least `<!---->` long and lies inside the text |
| HtmlPatterns.CommentShape | content/src/filetype.js:28 | a matched comment opens with `<!--` and closes with `-->` |
| HtmlPatterns.CommentRest | content/src/filetype.js:28 | the comment body with its greedy groups, when it matches, ends in `-->` |
| HtmlPatterns.TagMatch | content/src/filetype.js:31 | a tag token has a name of at least one character and ends inside the text |
| HtmlPatterns.TagShape | content/src/filetype.js:31 | a tag token is `<`, a name without spaces or `>`, a word boundary, and ends with `>` |
| HtmlPatterns.TagWithName | content/src/filetype.js:31 | a name tried up to `k` and backed off to a word boundary yields a token ending in `>` |
| HtmlPatterns.TagAttrs | content/src/filetype.js:31 | the attribute list and closing `\s*>`, when they match, end just after a `>` |
| HtmlPatterns.TagValue | content/src/filetype.js:31 | each of the bare, single-quoted and double-quoted values, followed by the rest of the tag, ends just after a `>` |
| HtmlPatterns.TagName | content/src/filetype.js:31 | `match[1]` is the name between `<` and the end of the name |
| HtmlPatterns.FindEndTag | content/src/filetype.js:45-46 | the closing tag found lies after the search start, inside the text, and is at least as long as `</name>` |
| HtmlPatterns.FindEndTagLeftmost | content/src/filetype.js:45-46 | the closing tag found is the leftmost `</name\b…>` after the opening tag, with its own spelling of the name; none is found only when there is none |
| HtmlPatterns.FindEndTagName | content/src/filetype.js:48 | the closing tag's name lower-cases to the opening tag's key |
| HtmlPatterns.ContainsIgnoreCaseAt | content/src/filetype.js:245 | a literal occurrence satisfies the case-insensitive test |
| HtmlPatterns.FirstContentTag | content/src/filetype.js:247-248 | `firstLink` is the leftmost content tag followed by a word boundary, and null only when there is none |
| HtmlPatterns.FindStartTag | content/src/filetype.js:250-252 | each insert location is the leftmost `<tag\b…>` up to case, and null only when there is none |
| HtmlPatterns.HasScriptTag | content/src/filetype.js:76 | no contract of its own: `/<\/?script/i` as a case-insensitive search for `<script` or `</script` |
| HtmlPatterns.HasActiveContent | content/src/filetype.js:206 | no contract of its own: `/<script\|<i?frame\|<object/i` as a case-insensitive search for each alternative |
| HtmlPatterns.HasSvgNamespace | content/src/filetype.js:222 | no contract of its own: `/<(?:[\w]+:)?svg[^>]+xmlns/` at some offset, with the optional prefix running over the whole word |
| HtmlPatterns.HasBaseTag | content/src/filetype.js:245 | no contract of its own: `/<base/i` as a case-insensitive search |
| HtmlPatterns.FindStartTagEnd | content/src/filetype.js:250-252 | a found insert location ends just after the tag's `>`, or after one newline following it |
| HeadScanner.NextStep | content/src/filetype.js:22-57 | one loop iteration either consumes a non-empty part of the rest or leaves the loop |
| HeadScanner.CommentOrTag | content/src/filetype.js:27-57 | the comment-or-tag part of an iteration always advances when it does not stop |
| HeadScanner.TagIteration | content/src/filetype.js:31-57 | an iteration at a tag always advances when it does not stop |
| HeadScanner.HeadTagIteration | content/src/filetype.js:32-56 | an accepted head tag moves the scan past the tag |
| HeadScanner.OpaqueIteration | content/src/filetype.js:44-56 | a title, style or script skips to the end of its closing tag, or just past the opening tag when there is none |
| HeadScanner.FirstWithKey | content/src/filetype.js:34 | the first attempt that uses a key, or none when no attempt uses it |
| HeadScanner.RecordAllKey | content/src/filetype.js:34-39 | the `hasOwnProperty` guard keeps the position of the earliest attempt for each key |
| HeadScanner.RecordAllAppend | content/src/filetype.js:34-53 | recording two runs of attempts is recording them one after the other |
| HeadScanner.ScanAdvance | content/src/filetype.js:22-57 | an iteration that consumes input continues the scan with its recordings and `scanned` flag |
| HeadScanner.ScanHalt | content/src/filetype.js:58-64 | an iteration that stops returns the result of the current state |
| HeadScanner.SpaceValue | content/src/filetype.js:25-26 | leading whitespace is consumed on its own, recording nothing and not setting `scanned` |
| HeadScanner.CommentValue | content/src/filetype.js:28-29 | a leading comment is consumed and sets `scanned`, recording nothing |
| HeadScanner.OpenValue | content/src/filetype.js:31-43 | an ordinary head tag is consumed, and its lower-cased name is recorded at its offset and length |
| HeadScanner.UnclosedValue | content/src/filetype.js:44-56 | a title, style or script without a closing tag consumes only the opening tag |
| HeadScanner.ClosedValue | content/src/filetype.js:44-55 | a title, style or script with a closing tag consumes through it and records both tags, the closing one at the rest's offset |
| HeadScanner.HaltValue | content/src/filetype.js:58-64 | with no whitespace, no comment and no head tag ahead, the loop ends |
| HeadScanner.HaltMeans | content/src/filetype.js:58-64 | the loop ends only at the end of the text or a non-space, with no comment ahead and no head tag ahead |
| HeadScanner.StepHits | content/src/filetype.js:22-57 | an iteration's recordings lie inside what it consumed, in order, with closing tags after their opening ones; an iteration that records nothing consumed only whitespace |
| HeadScanner.TraceFacts | content/src/filetype.js:22-57 | all attempts of the scan lie inside the consumed head, in increasing order, and closing tags follow their opening tags |
| HeadScanner.TraceStop | content/src/filetype.js:22-64 | the scan stops where one more iteration would end the loop; a scan that saw no comment and no tag made no attempt and skipped only whitespace |
| HeadScanner.ScanFromPos | content/src/filetype.js:34-53 | the returned dictionary is the record of every attempt of the scan |
| HeadScanner.ScanFromBody | content/src/filetype.js:58-64 | `hasbody` says whether a `<body>` tag ends the head; `bodypos` is where the scan stopped when anything was consumed or a body tag was found, and 0 otherwise |
| HeadScanner.FirstOccurrenceWins | content/src/filetype.js:34-53 | a tag name is in `pos` exactly when some attempt used it, and then it holds the first one: an opening tag at the smallest offset of that name, inside the consumed head |
| HeadScanner.FirstAttempt | content/src/filetype.js:34-39 | the first attempt with a key is an opening tag at the smallest offset among the attempts with that key |
| HeadScanner.BodyPosition | content/src/filetype.js:58-64 | where the loop leaves, what `hasbody` and `bodypos` are, and that a scan that consumed only whitespace returns `bodypos` 0 and an empty `pos` |
| HeadScanner.ScanBounds | content/src/filetype.js:19-66 | every recorded tag lies before `bodypos`, `bodypos` lies inside the text, and `hasbody` means a `<body>` tag starts at `bodypos` |
| HeadScanner.SpaceStep | content/src/filetype.js:25-26 | trimming whitespace changes neither the dictionary nor `scanned` |
| HeadScanner.CommentStep | content/src/filetype.js:28-29 | trimming a comment sets `scanned` and records nothing |
| HeadScanner.OneHitStep | content/src/filetype.js:33-43 | an iteration with one recording continues with that recording added |
| HeadScanner.TwoHitStep | content/src/filetype.js:44-56 | an iteration with an opening and a closing recording continues with both added in that order |
| HeadScanner.HaltStep | content/src/filetype.js:58-64 | with nothing left for the head, the scan ends at the current offset |
| HeadScanner.AcceptHeadTag | content/src/filetype.js:31-57 | the tag branch of the loop consumes input and continues exactly as the scan does |
| HeadScanner.Scan | content/src/filetype.js:19-66 | no contract of its own: FirstOccurrenceWins, BodyPosition and ScanBounds characterise it |
| HeadScanner.ScanHtmlTop | content/src/filetype.js:19-66 | the loop computes the scan; its recorded tags lie before `bodypos`, `bodypos` lies inside the text, and `hasbody` means a body tag at `bodypos` |
| Metadata.EffectiveMeta | content/src/filetype.js:297-310 | no contract of its own: EffectiveType, EffectiveLibs, EffectiveKeeps and EffectiveIdempotent characterise it |
| Metadata.IsDefaultMeta | content/src/filetype.js:312-318 | no contract of its own: IsDefaultMetaIff characterises it |
| Metadata.NormalizeMeta | content/src/filetype.js:297-310 | the clone-and-fill steps give the effective metadata |
| Metadata.EffectiveType | content/src/filetype.js:301-303 | the effective type is never empty; it is the given type when one was given and the CoffeeScript type otherwise |
| Metadata.EffectiveLibs | content/src/filetype.js:298-308 | the libs are missing exactly when the metadata was kept as it is without libs; given libs are kept; otherwise they are the turtle library |
| Metadata.EffectiveKeeps | content/src/filetype.js:297-310 | normalisation keeps the `lib` flag, the HTML and the CSS |
| Metadata.EffectiveIdempotent | content/src/filetype.js:297-310 | normalising effective metadata again changes nothing |
| Metadata.EffectiveWithoutHtml | content/src/filetype.js:297-310 | dropping the HTML before normalising is the same as dropping it after |
| Metadata.IsDefaultMetaIff | content/src/filetype.js:312-318 | metadata is the default exactly when it is absent, or has no `lib`, HTML or CSS, a CoffeeScript or missing type, and missing libs or only the turtle library |
| Metadata.DefaultMetaIsEffective | content/src/filetype.js:312-318 | the default metadata is its own normal form, and empty metadata is default |
| MimeTypes.LastDot | content/src/filetype.js:287 | the last `.` before a bound, or none when there is no `.` before it |
| MimeTypes.Extension | content/src/filetype.js:287 | the table key is a suffix of the name, cut just after a `.` |
| MimeTypes.ExtensionCut | content/src/filetype.js:287 | `/^.*\./` removes a prefix without line terminators, and the key keeps a `.` only after a line terminator |
| MimeTypes.DotAfterStartIff | content/src/filetype.js:271 | `indexOf('.') > 0` holds exactly when the name has a `.` and does not start with one |
| MimeTypes.KnownTypeShape | content/src/filetype.js:272-286 | every table type is a text or image type without the charset and differs from the Pencil Code type |
| MimeTypes.KnownTypeKind | content/src/filetype.js:272-286 | every table type starts with `text/` or `image/` |
| MimeTypes.KnownTypeNoCharset | content/src/filetype.js:272-286 | no table type already ends with `;charset=utf-8` |
| MimeTypes.KnownTypeNotPencil | content/src/filetype.js:272-289 | every table type differs from `text/x-pencilcode` at its seventh character |
| MimeTypes.KnownTypePlain | content/src/filetype.js:272-286 | no table type has parameters |
| MimeTypes.WithCharsetInjective | content/src/filetype.js:291-293 | adding the charset keeps different types different |
| MimeTypes.MimeForFilename | content/src/filetype.js:270-295 | no contract of its own: MimeByExtension, MimeFallback and MimeCharset characterise it |
| MimeTypes.InheritedTextShape | content/src/filetype.js:271-287 | the text of an inherited member has no `/` and starts with neither `t` nor `i` |
| MimeTypes.InheritedNoCharset | content/src/filetype.js:291-293 | an inherited member is not a text type, so no charset is added to it |
| MimeTypes.MimeByExtension | content/src/filetype.js:270-295 | a one-line name `stem.ext` whose stem does not start with `.` gets the table's type for `ext`, the text of the inherited member for a key of `Object.prototype`, or the Pencil Code type, with the charset on text types |
| MimeTypes.MimeFallback | content/src/filetype.js:270-295 | the result is `text/x-pencilcode;charset=utf-8` exactly when there is no name, the name has no `.` or starts with one, or its key is neither the table's own nor inherited |
| MimeTypes.MimeCharset | content/src/filetype.js:291-293 | a result carries the charset exactly when it is a text type |
| MimeTypes.StripParams | content/src/filetype.js:9 | removing `;.*$` leaves a prefix of the type |
| MimeTypes.StripParamsOneLine | content/src/filetype.js:9 | on one line, the prefix kept has no `;` and stops at the first `;` |
| MimeTypes.StripParamsUntilCharset | content/src/filetype.js:9 | stripping a type without `;`, with or without the charset, gives the type |
| MimeTypes.ScriptTypeOfTable | content/src/filetype.js:3-10 | the script type of a table type with its charset is the bare table type, and the fallback type becomes `text/coffeescript` |
| MimeTypes.InferScriptType | content/src/filetype.js:3-10 | no contract of its own: InferScriptTypeOf characterises it |
| MimeTypes.InferScriptTypeOf | content/src/filetype.js:3-10 | `inferScriptType` throws for a name whose key is inherited and not the table's own; otherwise it is the table's type for the name without parameters, or `text/coffeescript` for a name the table lacks |
| HtmlEscape.EscapeHtml | content/src/filetype.js:192-195 | no contract of its own: EscapeHtmlPerChar, EscapeHtmlSafe, EscapeHtmlPlain and EscapeHtmlSplit characterise it |
| HtmlEscape.EscapeHtmlPerChar | content/src/filetype.js:192-195 | the four global replacements escape each character on its own, independently of its neighbours |
| HtmlEscape.EntitySteps | content/src/filetype.js:193-194 | an entity made by the first replacement survives the next two and has its `&` escaped by the last |
| HtmlEscape.EscapeCharSteps | content/src/filetype.js:193-194 | each character after all four replacements is its escape, with `"`, `<` and `>` escaped twice |
| HtmlEscape.AmpEscaped | content/src/filetype.js:194 | the `&` replacement escapes the `&` that opens an entity |
| HtmlEscape.EscapeHtmlSafe | content/src/filetype.js:192-195 | the escaped value has no `"`, `<` or `>` |
| HtmlEscape.EscapeHtmlPlain | content/src/filetype.js:192-195 | a value without `"`, `<`, `>` or `&` is left unchanged |
| HtmlEscape.EscapeHtmlSplit | content/src/filetype.js:192-195 | escaping a concatenation escapes each part, with any character in the middle escaped on its own |
| Assemble.PageHtmlSafe | content/src/filetype.js:73-78 | in pragmas-only mode the page HTML has no `<script` or `</script`; otherwise it is `meta.html \|\| ''` |
| Assemble.ScanFitsScan | content/src/filetype.js:79 | the scan of the page HTML fits the page: `bodypos` lies inside it and a recorded `</head>` comes no later than `bodypos` |
| Assemble.FrameOpens | content/src/filetype.js:81-87 | the prefix starts with `<!doctype html>` without a doctype, and also with `<html>` when there is no html tag |
| Assemble.FrameCloses | content/src/filetype.js:83-86 | the suffix ends with `</html>` when the HTML has neither a doctype nor a html tag |
| Assemble.SplitHeadNoNewline | content/src/filetype.js:96-104 | the head split point lies inside the HTML and never at a newline, so the newline trim never takes effect |
| Assemble.FrameSplitKeepsPage | content/src/filetype.js:96-107 | with CSS and a head in the HTML, the HTML is cut at the split point and the style block goes between its two parts |
| Assemble.LibTagsEach | content/src/filetype.js:126-147 | there is one library tag per library, in the order of `meta.libs` |
| Assemble.LibTag | content/src/filetype.js:134-146 | no contract of its own: SiteLibTag, TurtleLibTag and LibScript characterise it |
| Assemble.SiteLibTag | content/src/filetype.js:134-146 | a source `a{site}b` whose first `{site}` follows `a` loads from `a`, the domain and `b` with every further `{site}` replaced too, with `crossorigin="anonymous"` and the library's attributes |
| Assemble.TurtleSrc | content/src/filetype.js:306 | the default turtle library's source has one `{site}` placeholder |
| Assemble.TurtleLibTag | content/src/filetype.js:134-146 | the turtle library loads `//domain/turtlebits.js` with `crossorigin="anonymous"` and no other attribute |
| Assemble.SetupTag | content/src/filetype.js:150-164 | no contract of its own: SetupTagSkipped, SetupTagFails, SetupTagInferredType and SetupScript characterise it |
| Assemble.SetupTagSkipped | content/src/filetype.js:150-164 | a setup entry adds nothing exactly when it has neither `src` nor `code` |
| Assemble.SetupTagFails | content/src/filetype.js:150-164 | a setup entry throws exactly when it loads by URL without a type and the URL's key is inherited and not the table's own |
| Assemble.SetupTagsAppend | content/src/filetype.js:150-165 | setup tags come in the order of the entries, and a failure in the first part wins |
| Assemble.SetupTagsFail | content/src/filetype.js:150-165 | the setup loop throws exactly when some entry throws |
| Assemble.NotLibsMissing | content/src/filetype.js:150-165 | a failure of the setup loop is never the missing-libs failure |
| Assemble.SetupTagInferredType | content/src/filetype.js:151-155 | an entry loaded by URL with no type gets the type the table gives its URL, CoffeeScript for an unknown URL, and the throw of `inferScriptType` for an inherited key |
| Assemble.SeeLineCoffee | content/src/filetype.js:171-177 | a type that mentions CoffeeScript but not JavaScript gets the CoffeeScript preamble |
| Assemble.DefaultSeeLine | content/src/filetype.js:167-177 | a document without a truthy type of its own, or without metadata, runs as `text/coffeescript` and gets the CoffeeScript preamble |
| Assemble.ScriptOrder | content/src/filetype.js:124-165 | for any split of the setup list, the scripts succeed exactly when both parts do, and are then the library tags followed by the setup tags of each part, in order |
| Assemble.WrapTurtleDoc | content/src/filetype.js:70-190 | no contract of its own: the Wrap lemmas below characterise it |
| Assemble.WrapFailsIff | content/src/filetype.js:126-155 | assembly fails with the missing-libs error exactly when the metadata has a type and the `lib` flag but no `libs`, and fails at all exactly when that holds or some setup entry throws |
| Assemble.PageStartsWithDoctype | content/src/filetype.js:81-82 | a page whose HTML has no doctype starts with `<!doctype html>` |
| Assemble.PageEndsWithHtml | content/src/filetype.js:83-86 | a page whose HTML has no doctype and no html tag ends with `</html>` |
| Assemble.WrapStartsWithDoctype | content/src/filetype.js:81-82 | the wrapped program starts with `<!doctype html>` unless its HTML has a doctype |
| Assemble.WrapEndsWithHtml | content/src/filetype.js:83-86 | the wrapped program ends with `</html>` unless its HTML has a doctype or a html tag |
| Assemble.WrapPragmasIgnoresData | content/src/filetype.js:179-181 | in pragmas-only mode the program text does not matter, and the main script holds only the preamble |
| Assemble.WrapDropsScriptHtml | content/src/filetype.js:76-78 | in pragmas-only mode HTML with a script tag is treated as no HTML at all |
| Assemble.FrameSplitAtStart | content/src/filetype.js:95-107 | with CSS, a head and a split point of 0, the style block goes before the whole HTML, with no HTML piece in front of it |
| Assemble.FrameAllHead | content/src/filetype.js:115-121 | without CSS, HTML that is all head gets `<body></body>` before the closing tags |
| Assemble.FrameCssBeforeHeadClose | content/src/filetype.js:96-107 | with CSS and a `</head>` at a positive offset, the style block goes just before the `</head>` |
| Assemble.WrapCssBeforeHeadClose | content/src/filetype.js:89-107 | the whole page: frame tags, the HTML up to `</head>`, the style block, the rest of the HTML, the scripts, the main script, then the closing tags |
| Assemble.EmptyScan | content/src/filetype.js:19-66 | empty HTML has no positions, no body and `bodypos` 0 |
| Assemble.DefaultFrame | content/src/filetype.js:81-118 | default metadata is framed by doctype, `<html>` and `<body>`, and closed by `</body></html>` |
| Assemble.WrapNoMeta | content/src/filetype.js:70-190 | a program without metadata is assembled as one with the default metadata |
| Assemble.WrapDefaultDocument | content/src/filetype.js:70-190 | the exact page of a program without metadata: doctype, html and body tags, the turtle library, the CoffeeScript main script with the program, and the closing tags |
| Assemble.PageWithoutHtml | content/src/filetype.js:183-188 | without page HTML, the page is the joined prefix, the scripts, the main script and the suffix |
| Assemble.HeadItemsOf | content/src/filetype.js:89-122 | the CSS, body and empty-body branches build the head items and body tags as the head-items function says |
| Assemble.FrameOf | content/src/filetype.js:80-122 | the prefix and suffix lists are built as the frame function says |
| Assemble.FramePage | content/src/filetype.js:79-122 | scanning the page HTML and framing it gives the frame function's result |
| Assemble.AttrString | content/src/filetype.js:128-133 | the attribute loop gives ` name="escaped value"` for each attribute, in order |
| Assemble.LibScript | content/src/filetype.js:127-146 | each library's tag is built as the library-tag function says |
| Assemble.SetupScript | content/src/filetype.js:151-163 | each setup entry's tag is built as the setup-tag function says |
| Assemble.ScriptList | content/src/filetype.js:125-165 | the scripts loop produces the library tags followed by the setup tags |
| Assemble.MainTypeOf | content/src/filetype.js:167-170 | the main type is the document's own truthy type, or `text/coffeescript` |
| Assemble.SeeLineOf | content/src/filetype.js:171-177 | the preamble is chosen by JavaScript first, then CoffeeScript |
| Assemble.MainScriptOf | content/src/filetype.js:178-182 | the main script is the type, the preamble, the program unless pragmas-only, and the close |
| Assemble.WrapTurtle | content/src/filetype.js:70-190 | the step-by-step assembly computes the page function, failing exactly where the source throws |
| Preview.FirstInsertPoint | content/src/filetype.js:254-260 | the insertion point is 0 or the end of some location that comes before the first content tag |
| Preview.InsertAt | content/src/filetype.js:245-261 | the insertion point lies inside the text |
| Preview.FirstTaken | content/src/filetype.js:254-260 | the loop with `break` takes the first location before the first content tag, or 0 |
| Preview.BaseInsertionPoint | content/src/filetype.js:247-261 | the matches and the loop compute the insertion point |
| Preview.RenderText | content/src/filetype.js:218-266 | the chain of early returns after the pragmas check gives the render function's result |
| Preview.PragmasSafe | content/src/filetype.js:204-213 | the `safe` flag is set for HTML without active content and for SVG |
| Preview.ModifyForPreview | content/src/filetype.js:197-267 | the whole preview follows the preview function, passing on the failure of assembly |
| Preview.InsertAtPriority | content/src/filetype.js:249-260 | `<head>` wins over `<html>`, which wins over `<!doctype>`; a location counts only when no content tag comes before it; with none the point is 0 |
| Preview.FirstOfThree | content/src/filetype.js:254-260 | over a three-entry list, the loop takes the first entry that precedes the first content tag |
| Preview.InsertAtAfterTag | content/src/filetype.js:250-258 | the base tag goes at 0 or just after a tag's `>`, or after the newline that follows it |
| Preview.FirstInsertPointAfterTag | content/src/filetype.js:255-260 | when every location ends after a tag's `>`, so does the point the loop takes, unless it is 0 |
| Preview.InsertBaseRemovable | content/src/filetype.js:262-264 | the base tag sits exactly at the insertion point, and removing it gives back the text |
| Preview.InsertBaseHasBase | content/src/filetype.js:245-264 | after insertion the text has a `<base`, so inserting again would not change it |
| Preview.BaseAtHasBase | content/src/filetype.js:262-264 | a base tag inserted at any offset gives a text with `<base` |
| Preview.BaseTagOpens | content/src/filetype.js:263 | the inserted tag starts with `<base` |
| Preview.ShowHtmlChanges | content/src/filetype.js:245-266 | HTML is changed exactly when there is a target URL and the text has no `<base` |
| Preview.ShowHtmlIdempotent | content/src/filetype.js:245-266 | showing HTML twice inserts the base tag at most once |
| Preview.StripSpacesNone | content/src/filetype.js:235 | the MIME type in the data URL has no whitespace |
| Preview.StripSpacesKeeps | content/src/filetype.js:235 | a MIME type without whitespace is used unchanged |
| Preview.ImageDocumentShape | content/src/filetype.js:228-240 | the image page starts with `<!doctype html>`, ends with `</html>` and holds the image tag with the encoded data |
| Preview.Render | content/src/filetype.js:220-266 | no contract of its own: RenderHtml, RenderImageKind, RenderTextKind, RenderSvg and RenderNoSlash characterise it |
| Preview.Preview | content/src/filetype.js:197-267 | no contract of its own: ProgramIff and the Preview lemmas below characterise it |
| Preview.ProgramIff | content/src/filetype.js:199-200 | a file is previewed as a program exactly when its key is neither the table's own nor inherited |
| Preview.ProgramTypeBecomesHtml | content/src/filetype.js:202 | the program type with its charset becomes `text/html;charset=utf-8` |
| Preview.ReplaceAfterNoSlash | content/src/filetype.js:202 | the first `/x-pencilcode` in a type is the one after the main type, which has no `/` |
| Preview.TextNotSvg | content/src/filetype.js:221 | no `text/` type is an SVG type |
| Preview.ImageNotSvg | content/src/filetype.js:221 | an image type whose subtype does not start with `s` is not an SVG type |
| Preview.HtmlTypeNotSvg | content/src/filetype.js:221 | the HTML type gets no SVG warning |
| Preview.HtmlTypeIsHtml | content/src/filetype.js:228-242 | the HTML type is not an image type and is not shown as plain text |
| Preview.RenderHtml | content/src/filetype.js:218-266 | non-empty text of the HTML type is shown as HTML with the base tag inserted |
| Preview.WrapNotEmpty | content/src/filetype.js:201-220 | an assembled program is never empty, so it is never dropped by `if (!text)` |
| Preview.PreviewInheritedFile | content/src/filetype.js:197-244 | a file whose key is inherited is shown after `<PLAINTEXT>`, and as nothing when it is empty or in pragmas-only mode |
| Preview.RenderNoSlash | content/src/filetype.js:220-243 | non-empty text of a type without `/` that starts with neither `t` nor `i` is shown after `<PLAINTEXT>`, and the type is unsafe for pragmas-only mode |
| Preview.NoSlashNotSvg | content/src/filetype.js:221 | a type without `/` gets no SVG warning |
| Preview.PreviewProgram | content/src/filetype.js:199-202 | a program file previews as its assembled page shown as HTML, in pragmas-only mode too, or fails as assembly does |
| Preview.PragmasShowOnlySafe | content/src/filetype.js:203-218 | in pragmas-only mode a table file shows anything only when it is HTML without active content or SVG |
| Preview.PreviewEmptyFile | content/src/filetype.js:218-220 | an empty table file previews as nothing, in every mode |
| Preview.PlainTextType | content/src/filetype.js:272-293 | the text types of the table other than HTML are text types that are neither HTML nor SVG |
| Preview.BitmapType | content/src/filetype.js:272-293 | the bitmap types of the table are image types that are not SVG |
| Preview.SvgType | content/src/filetype.js:276-293 | the SVG file type is `image/svg+xml` without a charset |
| Preview.HtmlType | content/src/filetype.js:279-293 | the HTML file type is `text/html;charset=utf-8` |
| Preview.PreviewTableFile | content/src/filetype.js:203-266 | a file the table knows is shown by its type, or as nothing when pragmas-only mode finds it unsafe |
| Preview.RenderImageKind | content/src/filetype.js:228-240 | non-empty text of an image type other than SVG is shown as the image page and is unsafe for pragmas-only mode |
| Preview.RenderTextKind | content/src/filetype.js:242-243 | non-empty text of a text type other than HTML is shown after `<PLAINTEXT>` and is unsafe for pragmas-only mode |
| Preview.RenderSvg | content/src/filetype.js:210-227 | non-empty SVG is shown as the image page when it declares its namespace and as itself with the warning otherwise; it is always safe for pragmas-only mode |
| Preview.PreviewPlainTextFile | content/src/filetype.js:242-243 | a non-empty text file that is not HTML previews as `<PLAINTEXT>` and the text, and as nothing in pragmas-only mode |
| Preview.PreviewBitmapFile | content/src/filetype.js:228-240 | a non-empty bitmap previews as the image page, and as nothing in pragmas-only mode |
| Preview.PreviewSvgFile | content/src/filetype.js:219-240 | a non-empty SVG with a namespace previews as the image page, and without one shows the text with the namespace warning, in every mode |
| Preview.PreviewHtmlFile | content/src/filetype.js:203-266 | a non-empty HTML file previews with the base tag inserted, and as nothing in pragmas-only mode when it has a script, frame or object |

## Left out

- Strings are sequences of code points. JavaScript's UTF-16 offsets differ on characters outside the BMP, and that is not modelled.
- `/i` is ASCII case folding, which is exact for the ASCII patterns here. Non-ASCII case pairs are not modelled.
- `btoa` is the parameter `encode` of the preview. Its exception on characters above U+00FF is not modelled.
- The I/O around the module is not modelled: the caller's `doc` object and the `module`/`define` export at lines 320-337. The domain, target URL and setup list are parameters.
- Metadata is a record of the fields the code reads. Non-object metadata, extra fields and inherited `Object.prototype` keys of the metadata are not modelled. `doc.data` is always a string.
- A library's `src` is a string. A library without `src`, which the code renders as `src="undefined"` (lines 142 and 145), is not modelled.
- MimeTypes.MimeForFilename: for an inherited key the source returns a function or an object, not a string. The model returns the text a regular-expression test reads it as, in the `function name() { [native code] }` form of current engines, where `name` is `Object` for `constructor` and the key itself for the other functions. Only `replace`, the one string method called on it, is modelled otherwise, by `Inherits`.
- `isDefaultMeta` compares records, not `JSON.stringify` strings. Key order and extra fields in the JSON are not modelled.
- `effectiveMeta`'s `JSON.parse(JSON.stringify(…))` clone is a value copy. The aliasing of the kept-as-is branch is not modelled.
- Library attributes are a list of name and value pairs in `for…in` order, with string values.
- The `scanHtmlTop` loop tracks the offset `html.length - sofar.length` instead of the string `sofar`. The two are the same text.
- The `mimeType &&` guards in `modifyForPreview` are always true, because `mimeForFilename` never returns an empty type. They are left out.
- Matchers cover only the patterns this file uses. A general regular expression engine is not modelled.
