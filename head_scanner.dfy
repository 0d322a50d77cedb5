/** scanHtmlTop (content/src/filetype.js lines 19-66): a tolerant scanner of the
    head region at the top of an HTML fragment. It strips whitespace and
    comments, accepts one head-level tag at a time, remembers where the first
    tag of each (lower-cased) name is, skips the text of title, style and
    script up to their closing tag, and stops at `<body>` or at the first thing
    it does not recognise. */
module HeadScanner {
  import opened Wrappers
  import opened JsText
  import opened HtmlPatterns

  /** `{index, length}` of a recorded tag. */
  datatype Pos = Pos(index: nat, length: nat)

  /** The object scanHtmlTop returns: `pos`, `hasbody` (an absent field reads as
      false) and `bodypos`. */
  datatype ScanResult = ScanResult(pos: map<string, Pos>, hasBody: bool, bodyPos: nat)

  /** An attempt by the loop to record a position under a key. `closing` marks
      the attempt made for the closing tag of title, style or script. */
  datatype Hit = Hit(key: string, at: Pos, closing: bool)

  /** What one iteration of the loop does when `sofar == html[at..]`: go on at
      `next`, setting `scanned` when `marks`, after the recording attempts
      `hits`; or leave the loop. */
  datatype Step = Advance(next: nat, marks: bool, hits: seq<Hit>) | Halt

  /** One iteration of the `for (;;)` loop (lines 23-64) when the scanner is
      at offset `at`, that is when `sofar` is `html[at..]`: trim leading
      whitespace (lines 24-26), or else go on below. */
  function NextStep(html: string, at: nat): (r: Step)
    requires at <= |html|
    ensures r.Advance? ==> at < r.next <= |html|
  {
    var ws := SkipSpaces(html, at);
    if ws > at then Advance(ws, false, []) else CommentOrTag(html, at)
  }

  /** Trim a leading comment (lines 27-29), or else look for a tag. */
  function CommentOrTag(html: string, at: nat): (r: Step)
    requires at <= |html|
    ensures r.Advance? ==> at < r.next <= |html|
  {
    match CommentMatch(html, at)
    case Some(e) => Advance(e, true, [])
    case None => TagIteration(html, at)
  }

  /** Detect a tag token (line 31); without one the loop leaves. */
  function TagIteration(html: string, at: nat): (r: Step)
    requires at <= |html|
    ensures r.Advance? ==> at < r.next <= |html|
  {
    match TagMatch(html, at)
    case None => Halt
    case Some(t) => HeadTagIteration(html, at, t)
  }

  /** The tag token `t` at `at` (lines 32-57): a name the head does not accept
      ends the loop; any other is recorded at `html.length - sofar.length`,
      which is `at`, and skipped, and title, style and script go on to their
      closing tag. */
  function HeadTagIteration(html: string, at: nat, t: Tag): (r: Step)
    requires at + 2 <= t.nameEnd < t.end <= |html|
    ensures r.Advance? ==> at < r.next <= |html|
  {
    var name := TagName(html, at, t);
    if !IsHeadTagName(name) then Halt
    else
      var open := Hit(LowerStr(name), Pos(at, t.end - at), false);
      if !IsOpaqueTagName(name) then Advance(t.end, true, [open])
      else OpaqueIteration(t, open, FindEndTag(html, t.end, name), |html|)
  }

  /** Lines 44-56, after the opening tag `t` was recorded as `open`: with the
      closing tag `close`, record it at the offset just after the opening tag
      (`html.length - sofar.length` once `sofar` was cut after the opening tag,
      as the source computes it) and skip to after it. */
  function OpaqueIteration(t: Tag, open: Hit, close: Option<EndTag>, n: nat): (r: Step)
    requires t.end <= n
    requires close.Some? ==> t.end <= close.value.index && close.value.index + close.value.length <= n
    ensures r.Advance? ==> t.end <= r.next <= n
  {
    match close
    case None => Advance(t.end, true, [open])
    case Some(e) => Advance(e.index + e.length, true, [open, Hit(LowerStr(e.name), Pos(t.end, e.length), true)])
  }

  /** The `hasOwnProperty` guard: a key already present is never overwritten. */
  function Record(pos: map<string, Pos>, h: Hit): map<string, Pos> {
    if h.key in pos then pos else pos[h.key := h.at]
  }

  function RecordAll(pos: map<string, Pos>, hits: seq<Hit>): map<string, Pos>
    decreases |hits|
  {
    if hits == [] then pos else RecordAll(Record(pos, hits[0]), hits[1..])
  }

  /** Leaving the loop at `at` (lines 58-64). */
  function Finish(html: string, at: nat, scanned: bool, pos: map<string, Pos>): ScanResult
    requires at <= |html|
  {
    var body := BodyTagAt(html, at);
    ScanResult(pos, body, if scanned || body then at else 0)
  }

  /** A `<body …>` start tag, as the tag pattern reads it, at offset `at`. */
  predicate BodyTagAt(html: string, at: nat)
    requires at <= |html|
  {
    TagMatch(html, at).Some? && IsBodyTagName(TagName(html, at, TagMatch(html, at).value))
  }

  /** The loop from the state `sofar == html[at..]`, `scanned`, `result.pos == pos`. */
  function ScanFrom(html: string, at: nat, scanned: bool, pos: map<string, Pos>): ScanResult
    requires at <= |html|
    decreases |html| - at
  {
    match NextStep(html, at)
    case Advance(next, marks, hits) => ScanFrom(html, next, scanned || marks, RecordAll(pos, hits))
    case Halt => Finish(html, at, scanned, pos)
  }

  /** scanHtmlTop(html), as a function. */
  function Scan(html: string): ScanResult {
    ScanFrom(html, 0, false, map[])
  }

  /** The recording attempts the loop makes from `at` on, in order. */
  ghost function Trace(html: string, at: nat): seq<Hit>
    requires at <= |html|
    decreases |html| - at
  {
    match NextStep(html, at)
    case Advance(next, _, hits) => hits + Trace(html, next)
    case Halt => []
  }

  /** The offset at which the loop leaves (`html.length - sofar.length` there). */
  ghost function Stop(html: string, at: nat): (stop: nat)
    requires at <= |html|
    ensures at <= stop <= |html|
    decreases |html| - at
  {
    match NextStep(html, at)
    case Advance(next, _, _) => Stop(html, next)
    case Halt => at
  }

  /** Whether the loop consumes a comment or a tag from `at` on. */
  ghost predicate Marked(html: string, at: nat)
    requires at <= |html|
    decreases |html| - at
  {
    match NextStep(html, at)
    case Advance(next, marks, _) => marks || Marked(html, next)
    case Halt => false
  }

  /** The position `h` records holds a recognised head-level tag token whose
      lower-cased name is the key. */
  ghost predicate TagAt(html: string, h: Hit) {
    var i := h.at.index;
    i <= |html|
    && TagMatch(html, i).Some?
    && TagMatch(html, i).value.end == i + h.at.length
    && IsHeadTagName(TagName(html, i, TagMatch(html, i).value))
    && LowerStr(TagName(html, i, TagMatch(html, i).value)) == h.key
  }

  /** The index of the first attempt in `t` under key `k`. */
  function FirstWithKey(t: seq<Hit>, k: string): (r: Option<nat>)
    ensures r.Some? ==> r.value < |t| && t[r.value].key == k
    ensures r.Some? ==> forall j :: 0 <= j < r.value ==> t[j].key != k
    ensures r.None? ==> forall j :: 0 <= j < |t| ==> t[j].key != k
  {
    var has := (j: nat) => j < |t| && t[j].key == k;
    assert forall j: nat :: has(j) == (j < |t| && t[j].key == k);
    FirstWhere(has, 0, |t|)
  }

  lemma FirstWithKeyAppend(a: seq<Hit>, b: seq<Hit>, k: string)
    ensures FirstWithKey(a + b, k) ==
      if FirstWithKey(a, k).Some? then FirstWithKey(a, k)
      else if FirstWithKey(b, k).Some? then Some(|a| + FirstWithKey(b, k).value)
      else None
  {
    var ra := FirstWithKey(a, k);
    var rb := FirstWithKey(b, k);
    forall j | 0 <= j < |a| ensures (a + b)[j] == a[j] {}
    forall j | |a| <= j < |a| + |b| ensures (a + b)[j] == b[j - |a|] {}
    if ra.Some? {
      assert (a + b)[ra.value].key == k;
      assert forall j :: 0 <= j < ra.value ==> (a + b)[j].key != k;
    } else if rb.Some? {
      assert (a + b)[|a| + rb.value].key == k;
      assert forall j :: 0 <= j < |a| + rb.value ==> (a + b)[j].key != k;
    } else {
      assert forall j :: 0 <= j < |a + b| ==> (a + b)[j].key != k;
    }
  }

  /** The first attempt of a non-empty sequence, or the first of the rest. */
  lemma FirstWithKeyCons(hits: seq<Hit>, k: string)
    requires hits != []
    ensures FirstWithKey(hits, k) ==
      if hits[0].key == k then Some(0)
      else if FirstWithKey(hits[1..], k).Some? then Some(1 + FirstWithKey(hits[1..], k).value)
      else None
  {
    FirstWithKeyAppend([hits[0]], hits[1..], k);
    assert [hits[0]] + hits[1..] == hits;
    assert FirstWithKey([hits[0]], k) == if hits[0].key == k then Some(0) else None;
  }

  /** A key is in the dictionary after the attempts exactly when it was there
      before or some attempt used it, and then it holds its old position or
      that of the first such attempt. */
  lemma {:induction false} RecordAllKey(pos: map<string, Pos>, hits: seq<Hit>, k: string)
    ensures k in RecordAll(pos, hits) <==> k in pos || FirstWithKey(hits, k).Some?
    ensures k in RecordAll(pos, hits) ==>
      RecordAll(pos, hits)[k] == if k in pos then pos[k] else hits[FirstWithKey(hits, k).value].at
    decreases |hits|
  {
    if hits != [] {
      RecordAllKey(Record(pos, hits[0]), hits[1..], k);
      FirstWithKeyCons(hits, k);
    }
  }

  // Unfolding lemmas: each states one unfolding of a function defined by
  // the step, so that proofs about many steps need not unfold the step.

  lemma TraceUnfold(html: string, at: nat, next: nat, marks: bool, hits: seq<Hit>)
    requires at <= |html| && NextStep(html, at) == Advance(next, marks, hits)
    ensures Trace(html, at) == hits + Trace(html, next)
  {
  }

  lemma StopUnfold(html: string, at: nat, next: nat, marks: bool, hits: seq<Hit>)
    requires at <= |html| && NextStep(html, at) == Advance(next, marks, hits)
    ensures Stop(html, at) == Stop(html, next)
  {
  }

  lemma MarkedUnfold(html: string, at: nat, next: nat, marks: bool, hits: seq<Hit>)
    requires at <= |html| && NextStep(html, at) == Advance(next, marks, hits)
    ensures Marked(html, at) == (marks || Marked(html, next))
  {
  }

  lemma ScanAdvance(html: string, at: nat, scanned: bool, pos: map<string, Pos>,
                     next: nat, marks: bool, hits: seq<Hit>)
    requires at <= |html| && NextStep(html, at) == Advance(next, marks, hits)
    ensures ScanFrom(html, at, scanned, pos) == ScanFrom(html, next, scanned || marks, RecordAll(pos, hits))
  {
  }

  lemma ScanHalt(html: string, at: nat, scanned: bool, pos: map<string, Pos>)
    requires at <= |html| && NextStep(html, at) == Halt
    ensures ScanFrom(html, at, scanned, pos) == Finish(html, at, scanned, pos)
  {
  }

  lemma HaltUnfold(html: string, at: nat)
    requires at <= |html| && NextStep(html, at) == Halt
    ensures Trace(html, at) == [] && Stop(html, at) == at && !Marked(html, at)
  {
  }

  lemma RecordOne(pos: map<string, Pos>, h: Hit)
    ensures RecordAll(pos, [h]) == Record(pos, h)
  {
    assert [h][1..] == [];
  }

  lemma RecordTwo(pos: map<string, Pos>, h1: Hit, h2: Hit)
    ensures RecordAll(pos, [h1, h2]) == Record(Record(pos, h1), h2)
  {
    assert [h1, h2][1..] == [h2];
    RecordOne(Record(pos, h1), h2);
  }

  lemma {:induction false} RecordAllAppend(pos: map<string, Pos>, a: seq<Hit>, b: seq<Hit>)
    ensures RecordAll(pos, a + b) == RecordAll(RecordAll(pos, a), b)
    decreases |a|
  {
    if a != [] {
      assert (a + b)[1..] == a[1..] + b;
      RecordAllAppend(Record(pos, a[0]), a[1..], b);
    } else {
      assert a + b == b;
    }
  }

  // Properties of a sequence of recording attempts.

  /** Every attempt covers a non-empty stretch of `[lo, hi)`. */
  ghost predicate Within(t: seq<Hit>, lo: nat, hi: nat) {
    forall i :: 0 <= i < |t| ==>
      lo <= t[i].at.index && 0 < t[i].at.length && t[i].at.index + t[i].at.length <= hi
  }

  /** The attempts are made at strictly increasing offsets. */
  ghost predicate Increasing(t: seq<Hit>) {
    forall i, j :: 0 <= i < j < |t| ==> t[i].at.index < t[j].at.index
  }

  /** Opening attempts are made on recognised head tags; each closing attempt
      comes right after the opening attempt with the same key. */
  ghost predicate WellPaired(html: string, t: seq<Hit>) {
    (forall i :: 0 <= i < |t| && !t[i].closing ==> TagAt(html, t[i]))
    && (forall i :: 0 <= i < |t| && t[i].closing ==>
          0 < i && !t[i - 1].closing && t[i - 1].key == t[i].key)
  }

  lemma WithinAppend(a: seq<Hit>, b: seq<Hit>, lo: nat, mid: nat, hi: nat)
    requires Within(a, lo, mid) && Within(b, mid, hi) && lo <= mid <= hi
    ensures Within(a + b, lo, hi)
  {
    forall i | 0 <= i < |a + b|
      ensures lo <= (a + b)[i].at.index && 0 < (a + b)[i].at.length
        && (a + b)[i].at.index + (a + b)[i].at.length <= hi
    {
      if i < |a| { assert (a + b)[i] == a[i]; } else { assert (a + b)[i] == b[i - |a|]; }
    }
  }

  lemma IncreasingAppend(a: seq<Hit>, b: seq<Hit>, lo: nat, mid: nat, hi: nat)
    requires Increasing(a) && Increasing(b) && Within(a, lo, mid) && Within(b, mid, hi)
    ensures Increasing(a + b)
  {
    forall i, j | 0 <= i < j < |a + b| ensures (a + b)[i].at.index < (a + b)[j].at.index {
      if j < |a| { assert (a + b)[i] == a[i] && (a + b)[j] == a[j]; }
      else if i < |a| { assert (a + b)[i] == a[i] && (a + b)[j] == b[j - |a|]; }
      else { assert (a + b)[i] == b[i - |a|] && (a + b)[j] == b[j - |a|]; }
    }
  }

  lemma PairedAppend(html: string, a: seq<Hit>, b: seq<Hit>)
    requires WellPaired(html, a) && WellPaired(html, b)
    ensures WellPaired(html, a + b)
  {
    var t := a + b;
    forall i | 0 <= i < |t| && !t[i].closing ensures TagAt(html, t[i]) {
      if i < |a| { assert t[i] == a[i]; } else { assert t[i] == b[i - |a|]; }
    }
    if |b| > 0 {
      assert t[|a|] == b[0];
    }
    forall i | 0 <= i < |t| && t[i].closing
      ensures 0 < i && !t[i - 1].closing && t[i - 1].key == t[i].key
    {
      if i < |a| {
        assert t[i] == a[i] && t[i - 1] == a[i - 1];
      } else if i > |a| {
        assert t[i] == b[i - |a|] && t[i - 1] == b[i - 1 - |a|];
      }
    }
  }

  // The value of one iteration, one branch at a time.

  lemma SpaceValue(html: string, at: nat)
    requires at <= |html| && SkipSpaces(html, at) > at
    ensures NextStep(html, at) == Advance(SkipSpaces(html, at), false, [])
  {
  }

  lemma NoSpaceUnfold(html: string, at: nat)
    requires at <= |html| && SkipSpaces(html, at) == at
    ensures NextStep(html, at) == CommentOrTag(html, at)
  {
  }

  lemma NoCommentUnfold(html: string, at: nat)
    requires at <= |html| && CommentMatch(html, at).None?
    ensures CommentOrTag(html, at) == TagIteration(html, at)
  {
  }

  lemma TagUnfold(html: string, at: nat, t: Tag)
    requires at <= |html| && TagMatch(html, at) == Some(t)
    ensures TagIteration(html, at) == HeadTagIteration(html, at, t)
  {
  }

  lemma OpaqueUnfold(html: string, at: nat, t: Tag)
    requires at + 2 <= t.nameEnd < t.end <= |html|
    requires IsHeadTagName(TagName(html, at, t)) && IsOpaqueTagName(TagName(html, at, t))
    ensures HeadTagIteration(html, at, t)
      == OpaqueIteration(t, Hit(LowerStr(TagName(html, at, t)), Pos(at, t.end - at), false),
                         FindEndTag(html, t.end, TagName(html, at, t)), |html|)
  {
  }

  /** The tag step at `at` once neither whitespace nor a comment was trimmed. */
  lemma TagStepUnfold(html: string, at: nat, t: Tag)
    requires at <= |html| && SkipSpaces(html, at) == at
    requires CommentMatch(html, at).None? && TagMatch(html, at) == Some(t)
    ensures NextStep(html, at) == HeadTagIteration(html, at, t)
  {
    NoSpaceUnfold(html, at);
    NoCommentUnfold(html, at);
    TagUnfold(html, at, t);
  }

  lemma CommentValue(html: string, at: nat, e: nat)
    requires at <= |html| && SkipSpaces(html, at) == at && CommentMatch(html, at) == Some(e)
    ensures NextStep(html, at) == Advance(e, true, [])
  {
    NoSpaceUnfold(html, at);
  }

  /** A head tag other than title, style or script: one attempt. */
  lemma OpenValue(html: string, at: nat, t: Tag)
    requires at <= |html| && SkipSpaces(html, at) == at
    requires CommentMatch(html, at).None? && TagMatch(html, at) == Some(t)
    requires IsHeadTagName(TagName(html, at, t)) && !IsOpaqueTagName(TagName(html, at, t))
    ensures NextStep(html, at) == Advance(t.end, true, [Hit(LowerStr(TagName(html, at, t)), Pos(at, t.end - at), false)])
  {
    TagStepUnfold(html, at, t);
  }

  /** Title, style or script without a closing tag: one attempt. */
  lemma UnclosedValue(html: string, at: nat, t: Tag)
    requires at <= |html| && SkipSpaces(html, at) == at
    requires CommentMatch(html, at).None? && TagMatch(html, at) == Some(t)
    requires IsHeadTagName(TagName(html, at, t)) && IsOpaqueTagName(TagName(html, at, t))
    requires FindEndTag(html, t.end, TagName(html, at, t)).None?
    ensures NextStep(html, at) == Advance(t.end, true, [Hit(LowerStr(TagName(html, at, t)), Pos(at, t.end - at), false)])
  {
    TagStepUnfold(html, at, t);
    OpaqueUnfold(html, at, t);
  }

  /** Title, style or script with its closing tag `e`: two attempts. */
  lemma ClosedValue(html: string, at: nat, t: Tag, e: EndTag)
    requires at <= |html| && SkipSpaces(html, at) == at
    requires CommentMatch(html, at).None? && TagMatch(html, at) == Some(t)
    requires IsHeadTagName(TagName(html, at, t)) && IsOpaqueTagName(TagName(html, at, t))
    requires FindEndTag(html, t.end, TagName(html, at, t)) == Some(e)
    ensures NextStep(html, at) == Advance(e.index + e.length, true,
      [Hit(LowerStr(TagName(html, at, t)), Pos(at, t.end - at), false), Hit(LowerStr(e.name), Pos(t.end, e.length), true)])
  {
    TagStepUnfold(html, at, t);
    OpaqueUnfold(html, at, t);
  }

  lemma HaltValue(html: string, at: nat)
    requires at <= |html| && SkipSpaces(html, at) == at && CommentMatch(html, at).None?
    requires TagMatch(html, at).None? || !IsHeadTagName(TagName(html, at, TagMatch(html, at).value))
    ensures NextStep(html, at) == Halt
  {
    NoSpaceUnfold(html, at);
    NoCommentUnfold(html, at);
  }

  /** The attempt made for a head tag `t` at `at`, and its properties. */
  lemma OpenHit(html: string, at: nat, t: Tag)
    requires at <= |html| && TagMatch(html, at) == Some(t) && IsHeadTagName(TagName(html, at, t))
    ensures var h := Hit(LowerStr(TagName(html, at, t)), Pos(at, t.end - at), false);
      TagAt(html, h) && Within([h], at, t.end) && Increasing([h]) && WellPaired(html, [h])
  {
  }

  /** The two attempts made for title, style or script and its closing tag. */
  lemma OpenCloseHits(html: string, at: nat, t: Tag, e: EndTag)
    requires at <= |html| && TagMatch(html, at) == Some(t) && IsHeadTagName(TagName(html, at, t))
    requires FindEndTag(html, t.end, TagName(html, at, t)) == Some(e)
    ensures var name := TagName(html, at, t);
      var hs := [Hit(LowerStr(name), Pos(at, t.end - at), false), Hit(LowerStr(e.name), Pos(t.end, e.length), true)];
      Within(hs, at, e.index + e.length) && Increasing(hs) && WellPaired(html, hs)
  {
    var name := TagName(html, at, t);
    var open := Hit(LowerStr(name), Pos(at, t.end - at), false);
    var close := Hit(LowerStr(e.name), Pos(t.end, e.length), true);
    FindEndTagName(html, t.end, name);
    OpenHit(html, at, t);
    PairedHits(html, open, close, at, e.index + e.length);
  }

  /** An opening attempt on a recognised tag followed by the closing attempt
      with the same key, later in the text. */
  lemma PairedHits(html: string, open: Hit, close: Hit, lo: nat, hi: nat)
    requires TagAt(html, open) && !open.closing && close.closing && close.key == open.key
    requires lo <= open.at.index && 0 < open.at.length && open.at.index + open.at.length <= close.at.index
    requires 0 < close.at.length && close.at.index + close.at.length <= hi
    ensures Within([open, close], lo, hi) && Increasing([open, close]) && WellPaired(html, [open, close])
  {
  }

  /** The recording attempts of a single iteration: none, the opening tag at
      `at`, or the opening tag followed by its closing tag, all inside the text
      the iteration consumes; an iteration that records nothing and sets no
      flag has consumed only whitespace. */
  lemma StepHits(html: string, at: nat)
    requires at <= |html| && NextStep(html, at).Advance?
    ensures var s := NextStep(html, at);
      && Within(s.hits, at, s.next) && Increasing(s.hits) && WellPaired(html, s.hits)
      && (|s.hits| > 0 ==> s.marks && s.hits[0].at.index == at)
      && (!s.marks ==> s.hits == [] && IsBlank(html[at..s.next]))
  {
    var ws := SkipSpaces(html, at);
    if ws > at {
      SpaceValue(html, at);
      SkipSpacesAll(html, at);
      assert forall i :: 0 <= i < ws - at ==> html[at..ws][i] == html[at + i];
    } else if CommentMatch(html, at).Some? {
      CommentValue(html, at, CommentMatch(html, at).value);
    } else {
      var t := TagMatch(html, at).value;
      var name := TagName(html, at, t);
      if !IsHeadTagName(name) {
        HaltValue(html, at);
      } else if !IsOpaqueTagName(name) {
        OpenValue(html, at, t);
        OpenHit(html, at, t);
      } else if FindEndTag(html, t.end, name).None? {
        UnclosedValue(html, at, t);
        OpenHit(html, at, t);
      } else {
        var e := FindEndTag(html, t.end, name).value;
        ClosedValue(html, at, t, e);
        OpenCloseHits(html, at, t, e);
      }
    }
  }

  /** The attempts from `at` on: inside the text consumed before the loop
      leaves, at strictly increasing offsets, and well paired. */
  lemma {:induction false} TraceFacts(html: string, at: nat)
    requires at <= |html|
    ensures Within(Trace(html, at), at, Stop(html, at))
    ensures Increasing(Trace(html, at))
    ensures WellPaired(html, Trace(html, at))
    decreases |html| - at
  {
    var step := NextStep(html, at);
    if step.Advance? {
      var next, marks, hits := step.next, step.marks, step.hits;
      TraceUnfold(html, at, next, marks, hits);
      StopUnfold(html, at, next, marks, hits);
      TraceFacts(html, next);
      StepHits(html, at);
      var t2 := Trace(html, next);
      var stop := Stop(html, at);
      WithinAppend(hits, t2, at, next, stop);
      IncreasingAppend(hits, t2, at, next, stop);
      PairedAppend(html, hits, t2);
    } else {
      HaltUnfold(html, at);
    }
  }

  /** The loop leaves at a point where one more iteration would halt; when it
      consumed no comment and no tag, it made no attempt and skipped only
      whitespace. */
  lemma {:induction false} TraceStop(html: string, at: nat)
    requires at <= |html|
    ensures NextStep(html, Stop(html, at)).Halt?
    ensures !Marked(html, at) ==> Trace(html, at) == [] && IsBlank(html[at..Stop(html, at)])
    decreases |html| - at
  {
    var step := NextStep(html, at);
    if step.Advance? {
      var next, marks, hits := step.next, step.marks, step.hits;
      TraceUnfold(html, at, next, marks, hits);
      StopUnfold(html, at, next, marks, hits);
      MarkedUnfold(html, at, next, marks, hits);
      TraceStop(html, next);
      StepHits(html, at);
      if !Marked(html, at) {
        assert html[at..Stop(html, at)] == html[at..next] + html[next..Stop(html, at)];
      }
    } else {
      HaltUnfold(html, at);
    }
  }

  /** The dictionary ScanFrom returns is `pos` updated by the attempts. */
  lemma {:induction false} ScanFromPos(html: string, at: nat, scanned: bool, pos: map<string, Pos>)
    requires at <= |html|
    ensures ScanFrom(html, at, scanned, pos).pos == RecordAll(pos, Trace(html, at))
    decreases |html| - at
  {
    var step := NextStep(html, at);
    if step.Advance? {
      var next, marks, hits := step.next, step.marks, step.hits;
      TraceUnfold(html, at, next, marks, hits);
      ScanAdvance(html, at, scanned, pos, next, marks, hits);
      ScanFromPos(html, next, scanned || marks, RecordAll(pos, hits));
      RecordAllAppend(pos, hits, Trace(html, next));
    } else {
      HaltUnfold(html, at);
      ScanHalt(html, at, scanned, pos);
    }
  }

  /** `hasbody` and `bodypos` from ScanFrom, in terms of where the loop stops. */
  lemma {:induction false} ScanFromBody(html: string, at: nat, scanned: bool, pos: map<string, Pos>)
    requires at <= |html|
    ensures ScanFrom(html, at, scanned, pos).hasBody == BodyTagAt(html, Stop(html, at))
    ensures ScanFrom(html, at, scanned, pos).bodyPos ==
      if scanned || Marked(html, at) || BodyTagAt(html, Stop(html, at)) then Stop(html, at) else 0
    decreases |html| - at
  {
    var step := NextStep(html, at);
    if step.Advance? {
      var next, marks, hits := step.next, step.marks, step.hits;
      StopUnfold(html, at, next, marks, hits);
      MarkedUnfold(html, at, next, marks, hits);
      ScanAdvance(html, at, scanned, pos, next, marks, hits);
      ScanFromBody(html, next, scanned || marks, RecordAll(pos, hits));
    } else {
      HaltUnfold(html, at);
      ScanHalt(html, at, scanned, pos);
    }
  }

  /** First occurrence wins (lines 34-39, 48-53): a key is present exactly when
      the loop tried to record it, and its entry is the first attempt under that
      key, which is the recognised head tag at the smallest offset with that
      lower-cased name, never the closing tag of title/style/script, and lies
      inside the text consumed before the loop leaves. */
  lemma FirstOccurrenceWins(html: string)
    ensures var r := Scan(html); var t := Trace(html, 0);
      forall k :: k in r.pos <==> exists j :: 0 <= j < |t| && t[j].key == k
    ensures var r := Scan(html); var t := Trace(html, 0);
      forall k :: k in r.pos ==>
        var i := FirstWithKey(t, k).value;
        r.pos[k] == t[i].at && !t[i].closing && TagAt(html, t[i])
        && (forall j :: 0 <= j < |t| && t[j].key == k ==> r.pos[k].index <= t[j].at.index)
        && r.pos[k].index + r.pos[k].length <= Stop(html, 0)
  {
    var r := Scan(html);
    var t := Trace(html, 0);
    var stop := Stop(html, 0);
    ScanFromPos(html, 0, false, map[]);
    TraceFacts(html, 0);
    forall k ensures k in r.pos <==> exists j :: 0 <= j < |t| && t[j].key == k {
      RecordAllKey(map[], t, k);
      if exists j :: 0 <= j < |t| && t[j].key == k {
        var j :| 0 <= j < |t| && t[j].key == k;
      }
    }
    forall k | k in r.pos
      ensures var i := FirstWithKey(t, k).value;
        r.pos[k] == t[i].at && !t[i].closing && TagAt(html, t[i])
        && (forall j :: 0 <= j < |t| && t[j].key == k ==> r.pos[k].index <= t[j].at.index)
        && r.pos[k].index + r.pos[k].length <= stop
    {
      RecordAllKey(map[], t, k);
      FirstAttempt(html, t, stop, k);
    }
  }

  /** In a sequence of attempts with the properties of a trace, the first
      attempt under a key is an opening tag, at the smallest offset among the
      attempts under that key. */
  lemma FirstAttempt(html: string, t: seq<Hit>, hi: nat, k: string)
    requires Within(t, 0, hi) && Increasing(t) && WellPaired(html, t)
    requires FirstWithKey(t, k).Some?
    ensures var i := FirstWithKey(t, k).value;
      && !t[i].closing && TagAt(html, t[i])
      && (forall j :: 0 <= j < |t| && t[j].key == k ==> t[i].at.index <= t[j].at.index)
      && t[i].at.index + t[i].at.length <= hi
  {
    var i := FirstWithKey(t, k).value;
    if i > 0 {
      assert t[i - 1].key != k;
    }
    forall j | 0 <= j < |t| && t[j].key == k ensures t[i].at.index <= t[j].at.index {
      if j != i { assert i < j; }
    }
  }

  /** What `bodypos` and `hasbody` mean (lines 58-64): the loop stops at a
      point where there is no whitespace, comment or head tag; `hasbody` tells
      whether a `<body>` tag starts there; `bodypos` is that point once a comment
      or tag was consumed or the body tag was seen, and 0 otherwise, in which
      case only whitespace came before it and nothing was recorded. */
  lemma BodyPosition(html: string)
    ensures var r := Scan(html); var stop := Stop(html, 0);
      && NextStep(html, stop).Halt?
      && r.hasBody == BodyTagAt(html, stop)
      && r.bodyPos == (if Marked(html, 0) || r.hasBody then stop else 0)
      && (!Marked(html, 0) ==> IsBlank(html[..stop]) && r.pos == map[])
  {
    ScanFromBody(html, 0, false, map[]);
    ScanFromPos(html, 0, false, map[]);
    TraceStop(html, 0);
  }

  /** The facts scanHtmlTop's callers rely on: every recorded tag ends at or
      before `bodypos`, which is inside the text, and `hasbody` means a body
      tag starts at `bodypos`. */
  lemma ScanBounds(html: string)
    ensures var r := Scan(html);
      && (forall k :: k in r.pos ==> r.pos[k].index + r.pos[k].length <= r.bodyPos)
      && r.bodyPos <= |html|
      && (r.hasBody ==> BodyTagAt(html, r.bodyPos))
  {
    FirstOccurrenceWins(html);
    BodyPosition(html);
  }

  /** Where the loop stops, the remainder starts with no whitespace, no
      comment, and no tag the head accepts. */
  lemma HaltMeans(html: string, at: nat)
    requires at <= |html| && NextStep(html, at).Halt?
    ensures at == |html| || !IsSpace(html[at])
    ensures CommentMatch(html, at).None?
    ensures TagMatch(html, at).Some? ==> !IsHeadTagName(TagName(html, at, TagMatch(html, at).value))
  {
  }

  // One lemma per way an iteration can go, so that the loop below can
  // follow ScanFrom one branch at a time.

  lemma SpaceStep(html: string, at: nat, scanned: bool, pos: map<string, Pos>)
    requires at <= |html| && SkipSpaces(html, at) > at
    ensures ScanFrom(html, at, scanned, pos) == ScanFrom(html, SkipSpaces(html, at), scanned, pos)
  {
    SpaceValue(html, at);
    ScanAdvance(html, at, scanned, pos, SkipSpaces(html, at), false, []);
  }

  lemma CommentStep(html: string, at: nat, scanned: bool, pos: map<string, Pos>, e: nat)
    requires at <= |html| && SkipSpaces(html, at) == at && CommentMatch(html, at) == Some(e)
    ensures ScanFrom(html, at, scanned, pos) == ScanFrom(html, e, true, pos)
  {
    CommentValue(html, at, e);
    ScanAdvance(html, at, scanned, pos, e, true, []);
  }

  /** An iteration that makes one attempt `h`. */
  lemma OneHitStep(html: string, at: nat, scanned: bool, pos: map<string, Pos>, next: nat, h: Hit)
    requires at <= |html| && NextStep(html, at) == Advance(next, true, [h])
    ensures ScanFrom(html, at, scanned, pos) == ScanFrom(html, next, true, Record(pos, h))
  {
    ScanAdvance(html, at, scanned, pos, next, true, [h]);
    RecordOne(pos, h);
  }

  /** An iteration that makes two attempts `h1` and `h2`. */
  lemma TwoHitStep(html: string, at: nat, scanned: bool, pos: map<string, Pos>, next: nat, h1: Hit, h2: Hit)
    requires at <= |html| && NextStep(html, at) == Advance(next, true, [h1, h2])
    ensures ScanFrom(html, at, scanned, pos) == ScanFrom(html, next, true, Record(Record(pos, h1), h2))
  {
    ScanAdvance(html, at, scanned, pos, next, true, [h1, h2]);
    RecordTwo(pos, h1, h2);
  }

  lemma HaltStep(html: string, at: nat, scanned: bool, pos: map<string, Pos>)
    requires at <= |html| && SkipSpaces(html, at) == at && CommentMatch(html, at).None?
    requires TagMatch(html, at).None? || !IsHeadTagName(TagName(html, at, TagMatch(html, at).value))
    ensures ScanFrom(html, at, scanned, pos) == Finish(html, at, scanned, pos)
  {
    HaltValue(html, at);
    ScanHalt(html, at, scanned, pos);
  }

  /** Lines 33-56, once the loop has matched a head-level tag `t` at `at`:
      record it under its lower-cased name unless the name is already
      present and, for title, style and script, search for the closing tag
      and record and skip it as well. The new offset and dictionary are those
      the loop goes on with. */
  method AcceptHeadTag(html: string, at: nat, t: Tag, pos: map<string, Pos>, ghost scanned: bool)
    returns (next: nat, pos': map<string, Pos>)
    requires at <= |html| && SkipSpaces(html, at) == at && CommentMatch(html, at).None?
    requires TagMatch(html, at) == Some(t) && IsHeadTagName(TagName(html, at, t))
    ensures at < next <= |html|
    ensures ScanFrom(html, at, scanned, pos) == ScanFrom(html, next, true, pos')
  {
    var name := TagName(html, at, t);
    var open := Hit(LowerStr(name), Pos(at, t.end - at), false);
    pos' := Record(pos, open);
    next := t.end;
    if !IsOpaqueTagName(name) {
      OpenValue(html, at, t);
      OneHitStep(html, at, scanned, pos, next, open);
      return;
    }
    // Title, style and script: skip their text up to the closing tag.
    var close := FindEndTag(html, next, name);
    if close.None? {
      UnclosedValue(html, at, t);
      OneHitStep(html, at, scanned, pos, next, open);
      return;
    }
    var e := close.value;
    var closing := Hit(LowerStr(e.name), Pos(next, e.length), true);
    pos' := Record(pos', closing);
    next := e.index + e.length;
    ClosedValue(html, at, t, e);
    TwoHitStep(html, at, scanned, pos, next, open, closing);
  }

  /** scanHtmlTop itself: the `for (;;)` loop, with `scanned` and the `pos`
      dictionary updated in place. The remaining text `sofar` is always the
      suffix `html[at..]`, so the model keeps its offset `at`
      (`html.length - sofar.length`) and runs each pattern at that offset. */
  method ScanHtmlTop(html: string) returns (result: ScanResult)
    ensures result == Scan(html)
    ensures forall k :: k in result.pos ==> result.pos[k].index + result.pos[k].length <= result.bodyPos
    ensures result.bodyPos <= |html|
    ensures result.hasBody ==> BodyTagAt(html, result.bodyPos)
  {
    var at := 0;
    var scanned := false;
    var pos: map<string, Pos> := map[];
    while true
      invariant at <= |html|
      invariant ScanFrom(html, at, scanned, pos) == Scan(html)
      decreases |html| - at
    {
      // Trim leading space.
      var ws := SkipSpaces(html, at);
      if ws > at {
        SpaceStep(html, at, scanned, pos);
        at := ws;
        continue;
      }
      // Trim leading comment.
      var comment := CommentMatch(html, at);
      if comment.Some? {
        CommentStep(html, at, scanned, pos, comment.value);
        at := comment.value;
        scanned := true;
        continue;
      }
      // Detect acceptable tags within the head.
      var tag := TagMatch(html, at);
      if tag.Some? && IsHeadTagName(TagName(html, at, tag.value)) {
        at, pos := AcceptHeadTag(html, at, tag.value, pos, scanned);
        scanned := true;
        continue;
      }
      // The head ends here: notice if there is a body tag.
      HaltStep(html, at, scanned, pos);
      var hasBody := false;
      if tag.Some? && IsBodyTagName(TagName(html, at, tag.value)) {
        scanned := true;
        hasBody := true;
      }
      result := ScanResult(pos, hasBody, if scanned then at else 0);
      ScanBounds(html);
      return;
    }
  }
}
