/** The JavaScript string operations the preview code relies on, over `string`
    (a sequence of code points): character classes, ASCII case folding,
    searching, `replace` with a literal pattern, `join` and `trim() == ''`. */
module JsText {
  import opened Wrappers

  /** JavaScript's `\s`: the WhiteSpace and LineTerminator code points.
      `String.prototype.trim` strips exactly this set as well. */
  predicate IsSpace(c: char) {
    var n := c as int;
    (9 <= n <= 13) || n == 0x20 || n == 0xA0 || n == 0x1680
    || (0x2000 <= n <= 0x200A) || n == 0x2028 || n == 0x2029
    || n == 0x202F || n == 0x205F || n == 0x3000 || n == 0xFEFF
  }

  /** The characters a regular-expression `.` does not match. */
  predicate IsLineTerminator(c: char) {
    c == '\n' || c == '\r' || c as int == 0x2028 || c as int == 0x2029
  }

  /** JavaScript's `\w` (without the `u` flag, also under `i`). */
  predicate IsWordChar(c: char) {
    ('a' <= c <= 'z') || ('A' <= c <= 'Z') || ('0' <= c <= '9') || c == '_'
  }

  /** ASCII lower-casing. Under the `i` flag without `u`, a character that is
      not ASCII never matches an ASCII pattern character, so folding ASCII
      letters is exactly the case-insensitivity the patterns here need. */
  function Lower(c: char): (r: char)
    ensures 'A' <= c <= 'Z' ==> 'a' <= r <= 'z' && r as int == c as int + 32
    ensures !('A' <= c <= 'Z') ==> r == c
  {
    if 'A' <= c <= 'Z' then (c as int + 32) as char else c
  }

  function LowerStr(s: string): (r: string)
    ensures |r| == |s|
    ensures forall i :: 0 <= i < |s| ==> r[i] == Lower(s[i])
  {
    seq(|s|, i requires 0 <= i < |s| => Lower(s[i]))
  }

  /** Lower-casing leaves no ASCII capital, so doing it again changes
      nothing, and a text equals its lower-cased form under the `i` flag. */
  lemma LowerStrFolds(s: string)
    ensures forall i :: 0 <= i < |s| ==> !('A' <= LowerStr(s)[i] <= 'Z')
    ensures LowerStr(LowerStr(s)) == LowerStr(s)
    ensures EqualsIgnoreCase(s, LowerStr(s))
  {
  }

  /** Equality under the `i` flag. */
  predicate EqualsIgnoreCase(a: string, b: string) {
    LowerStr(a) == LowerStr(b)
  }

  predicate StartsWith(s: string, p: string) {
    |p| <= |s| && s[..|p|] == p
  }

  predicate EndsWith(s: string, p: string) {
    |p| <= |s| && s[|s| - |p|..] == p
  }

  predicate StartsWithIgnoreCase(s: string, p: string) {
    |p| <= |s| && EqualsIgnoreCase(s[..|p|], p)
  }

  /** The end of the longest run of characters of a class starting at `i`:
      a greedy `[...]*` from `i`. */
  function RunEnd(s: string, i: nat, inClass: char -> bool): (j: nat)
    requires i <= |s|
    ensures i <= j <= |s|
    ensures j == |s| || !inClass(s[j])
    decreases |s| - i
  {
    if i < |s| && inClass(s[i]) then RunEnd(s, i + 1, inClass) else i
  }

  /** Every character of the run is in the class. */
  lemma {:induction false} RunEndAll(s: string, i: nat, inClass: char -> bool)
    requires i <= |s|
    ensures forall k :: i <= k < RunEnd(s, i, inClass) ==> inClass(s[k])
    decreases |s| - i
  {
    if i < |s| && inClass(s[i]) {
      RunEndAll(s, i + 1, inClass);
    }
  }

  /** `^\s*` applied at `i`. */
  function SkipSpaces(s: string, i: nat): (j: nat)
    requires i <= |s|
    ensures i <= j <= |s|
    ensures j == |s| || !IsSpace(s[j])
  {
    RunEnd(s, i, IsSpace)
  }

  /** `^\s*` takes only whitespace. */
  lemma SkipSpacesAll(s: string, i: nat)
    requires i <= |s|
    ensures forall k :: i <= k < SkipSpaces(s, i) ==> IsSpace(s[k])
  {
    RunEndAll(s, i, IsSpace);
  }

  /** `\b` at position `i`: exactly one of the two neighbours is a word character. */
  predicate IsWordBoundary(s: string, i: nat) {
    (0 < i <= |s| && IsWordChar(s[i - 1])) != (i < |s| && IsWordChar(s[i]))
  }

  /** The least `j` in `[i, n)` with `p(j)`: how an unanchored pattern finds the
      leftmost position at which it matches. */
  function FirstWhere(p: nat -> bool, i: nat, n: nat): (r: Option<nat>)
    requires i <= n
    ensures r.Some? ==> i <= r.value < n && p(r.value)
    ensures r.Some? ==> forall k :: i <= k < r.value ==> !p(k)
    ensures r.None? ==> forall k :: i <= k < n ==> !p(k)
    decreases n - i
  {
    if i == n then None else if p(i) then Some(i) else FirstWhere(p, i + 1, n)
  }

  predicate ContainsAt(s: string, k: nat, pat: string) {
    k <= |s| && StartsWith(s[k..], pat)
  }

  /** `s.indexOf(pat, from)`, as an option. */
  function IndexOf(s: string, pat: string, from: nat): (r: Option<nat>)
    requires from <= |s|
    ensures r.Some? ==> from <= r.value && r.value + |pat| <= |s| && s[r.value..r.value + |pat|] == pat
    ensures r.Some? ==> forall k :: from <= k < r.value ==> !ContainsAt(s, k, pat)
    ensures r.None? ==> forall k :: from <= k <= |s| ==> !ContainsAt(s, k, pat)
  {
    var p := (k: nat) => ContainsAt(s, k, pat);
    assert forall k: nat :: p(k) == ContainsAt(s, k, pat);
    FirstWhere(p, from, |s| + 1)
  }

  /** The first index of the character `c` at or after `from`. */
  function IndexOfChar(s: string, c: char, from: nat): (r: Option<nat>)
    requires from <= |s|
    ensures r.Some? ==> from <= r.value < |s| && s[r.value] == c
  {
    FirstWhere((k: nat) => k < |s| && s[k] == c, from, |s|)
  }

  /** IndexOfChar finds the first occurrence, and finds none only when there is none. */
  lemma IndexOfCharFirst(s: string, c: char, from: nat)
    requires from <= |s|
    ensures var r := IndexOfChar(s, c, from);
      && (r.Some? ==> forall k :: from <= k < r.value ==> s[k] != c)
      && (r.None? ==> forall k :: from <= k < |s| ==> s[k] != c)
  {
    var p := (k: nat) => k < |s| && s[k] == c;
    assert forall k: nat :: p(k) == (k < |s| && s[k] == c);
    assert IndexOfChar(s, c, from) == FirstWhere(p, from, |s|);
  }

  predicate Contains(s: string, pat: string) {
    IndexOf(s, pat, 0).Some?
  }

  /** A match at any offset is found. */
  lemma ContainsAtContains(s: string, k: nat, pat: string)
    requires ContainsAt(s, k, pat)
    ensures Contains(s, pat)
  {
  }

  /** IndexOf finds a match that has no match before it. */
  lemma IndexOfAt(s: string, pat: string, from: nat, p: nat)
    requires from <= p <= |s| && ContainsAt(s, p, pat)
    requires forall k :: from <= k < p ==> !ContainsAt(s, k, pat)
    ensures IndexOf(s, pat, from) == Some(p)
  {
  }

  /** A string contains each of its pieces. */
  lemma ContainsMiddle(a: string, b: string, c: string)
    ensures Contains(a + b + c, b)
  {
    ContainsAtMiddle(a, b, c);
    ContainsAtContains(a + b + c, |a|, b);
  }

  lemma ContainsAtMiddle(a: string, b: string, c: string)
    ensures ContainsAt(a + b + c, |a|, b)
  {
    assert (a + b + c)[|a|..][..|b|] == b;
  }

  /** A string where no match of `pat` could start with its first
      character does not contain it. */
  lemma ContainsNoStart(s: string, pat: string)
    requires pat != []
    requires forall k :: 0 <= k && k + |pat| <= |s| ==> s[k] != pat[0]
    ensures !Contains(s, pat)
  {
    forall k | 0 <= k <= |s| ensures !ContainsAt(s, k, pat) {
      if k + |pat| <= |s| { assert s[k..][..|pat|][0] == s[k]; }
    }
  }

  /** The replacement text for one match of length `n` at `p` in `s`, following
      the `$` patterns of `String.prototype.replace`: `$$`, `$&`, `` $` `` and
      `$'`. The pattern has no capture groups, so `$1`, `$<` and a lone `$`
      stand for themselves. */
  function Substitution(rep: string, s: string, p: nat, n: nat): string
    requires p + n <= |s|
    decreases |rep|
  {
    if |rep| >= 2 && rep[0] == '$' && rep[1] == '$' then "$" + Substitution(rep[2..], s, p, n)
    else if |rep| >= 2 && rep[0] == '$' && rep[1] == '&' then s[p..p + n] + Substitution(rep[2..], s, p, n)
    else if |rep| >= 2 && rep[0] == '$' && rep[1] == '`' then s[..p] + Substitution(rep[2..], s, p, n)
    else if |rep| >= 2 && rep[0] == '$' && rep[1] == '\'' then s[p + n..] + Substitution(rep[2..], s, p, n)
    else if rep == [] then []
    else [rep[0]] + Substitution(rep[1..], s, p, n)
  }

  lemma {:induction false} SubstitutionPlain(rep: string, s: string, p: nat, n: nat)
    requires p + n <= |s|
    requires '$' !in rep
    ensures Substitution(rep, s, p, n) == rep
    decreases |rep|
  {
    if rep != [] {
      assert rep[0] != '$' by { assert rep[0] in rep; }
      assert '$' !in rep[1..] by {
        forall i | 0 <= i < |rep[1..]| ensures rep[1..][i] != '$' { assert rep[1..][i] == rep[i + 1]; }
      }
      SubstitutionPlain(rep[1..], s, p, n);
    }
  }

  /** `s.replace(/pat/g, rep)` for a pattern that is a non-empty literal,
      scanning from `i`: a match at the current position is replaced and the
      scan resumes after it; otherwise the character is kept and the scan
      moves on by one. This finds the same leftmost, non-overlapping matches
      as the repeated search of the global flag. */
  function ReplaceAllFrom(s: string, pat: string, rep: string, i: nat): string
    requires |pat| > 0 && i <= |s|
    decreases |s| - i
  {
    if i == |s| then []
    else if ContainsAt(s, i, pat) then Substitution(rep, s, i, |pat|) + ReplaceAllFrom(s, pat, rep, i + |pat|)
    else [s[i]] + ReplaceAllFrom(s, pat, rep, i + 1)
  }

  function ReplaceAll(s: string, pat: string, rep: string): string
    requires |pat| > 0
  {
    ReplaceAllFrom(s, pat, rep, 0)
  }

  /** A match at `i` is replaced by a replacement without `$`. */
  lemma ReplaceAllMatch(s: string, pat: string, rep: string, i: nat)
    requires |pat| > 0 && i < |s| && '$' !in rep && ContainsAt(s, i, pat)
    ensures ReplaceAllFrom(s, pat, rep, i) == rep + ReplaceAllFrom(s, pat, rep, i + |pat|)
  {
    SubstitutionPlain(rep, s, i, |pat|);
  }

  /** Without a match at `i` the character there is kept. */
  lemma ReplaceAllSkip(s: string, pat: string, rep: string, i: nat)
    requires |pat| > 0 && i < |s| && !ContainsAt(s, i, pat)
    ensures ReplaceAllFrom(s, pat, rep, i) == [s[i]] + ReplaceAllFrom(s, pat, rep, i + 1)
  {
  }

  /** A stretch without a match is copied unchanged. */
  lemma {:induction false} ReplaceAllKeeps(s: string, pat: string, rep: string, i: nat, j: nat)
    requires |pat| > 0 && i <= j <= |s|
    requires forall k :: i <= k < j ==> !ContainsAt(s, k, pat)
    ensures ReplaceAllFrom(s, pat, rep, i) == s[i..j] + ReplaceAllFrom(s, pat, rep, j)
    decreases j - i
  {
    if i < j {
      ReplaceAllSkip(s, pat, rep, i);
      ReplaceAllKeeps(s, pat, rep, i + 1, j);
      var r := ReplaceAllFrom(s, pat, rep, j);
      SliceCons(s, i, j);
      assert [s[i]] + (s[i + 1..j] + r) == ([s[i]] + s[i + 1..j]) + r;
    }
  }

  lemma SliceCons(s: string, i: nat, j: nat)
    requires i < j <= |s|
    ensures s[i..j] == [s[i]] + s[i + 1..j]
  {
  }

  /** A string without the pattern is left unchanged. */
  lemma ReplaceAllAbsent(s: string, pat: string, rep: string)
    requires |pat| > 0 && !Contains(s, pat)
    ensures ReplaceAll(s, pat, rep) == s
  {
    ReplaceAllKeeps(s, pat, rep, 0, |s|);
    assert s[0..|s|] == s;
  }

  /** The first occurrence is replaced by `rep` (when `rep` has no `$`), and the
      rest of the string after it is processed alone. */
  lemma ReplaceAllFirst(a: string, pat: string, b: string, rep: string)
    requires |pat| > 0 && '$' !in rep
    requires !Contains(a + pat[..|pat| - 1], pat)
    ensures ReplaceAll(a + pat + b, pat, rep) == a + rep + ReplaceAll(b, pat, rep)
  {
    var s := a + pat + b;
    ContainsAtMiddle(a, pat, b);
    FirstMatchAfter(a, pat, b);
    ReplaceAllAt(s, pat, rep, |a|);
    Pieces(a, pat, b);
    ReplaceAllTail(s, b, pat, rep, |a| + |pat|, 0);
  }

  /** The first match, at `p`, is the first place the scan replaces. */
  lemma ReplaceAllAt(s: string, pat: string, rep: string, p: nat)
    requires |pat| > 0 && '$' !in rep && ContainsAt(s, p, pat)
    requires forall k :: 0 <= k < p ==> !ContainsAt(s, k, pat)
    ensures p + |pat| <= |s|
    ensures ReplaceAll(s, pat, rep) == s[..p] + rep + ReplaceAllFrom(s, pat, rep, p + |pat|)
  {
    ReplaceAllKeeps(s, pat, rep, 0, p);
    ReplaceAllMatch(s, pat, rep, p);
    assert s[0..p] == s[..p];
  }

  lemma Pieces(a: string, b: string, c: string)
    ensures (a + b + c)[..|a|] == a && (a + b + c)[|a| + |b|..] == c[0..]
  {
    assert c[0..] == c;
  }

  /** A match that would start inside `a` would lie inside `a` and all but
      the last character of `pat`. */
  lemma FirstMatchAfter(a: string, pat: string, b: string)
    requires |pat| > 0 && !Contains(a + pat[..|pat| - 1], pat)
    ensures forall k :: 0 <= k < |a| ==> !ContainsAt(a + pat + b, k, pat)
  {
    var s := a + pat + b;
    var t := a + pat[..|pat| - 1];
    forall k | 0 <= k < |a| ensures !ContainsAt(s, k, pat) {
      assert !ContainsAt(t, k, pat);
      assert k + |pat| <= |t|;
      assert t[k..][..|pat|] == s[k..][..|pat|] by {
        forall j | 0 <= j < |pat| ensures t[k..][..|pat|][j] == s[k..][..|pat|][j] {
          assert t[k + j] == s[k + j];
        }
      }
    }
  }

  /** The scan depends only on the text from the current position on (for a
      replacement without `$`, which does not look at the rest). */
  lemma {:induction false} ReplaceAllTail(s: string, t: string, pat: string, rep: string, i: nat, j: nat)
    requires |pat| > 0 && '$' !in rep && i <= |s| && j <= |t| && s[i..] == t[j..]
    ensures ReplaceAllFrom(s, pat, rep, i) == ReplaceAllFrom(t, pat, rep, j)
    decreases |s| - i
  {
    if i < |s| {
      var n := if ContainsAt(s, i, pat) then |pat| else 1;
      TailAdvance(s, t, pat, i, j, n);
      ReplaceAllTail(s, t, pat, rep, i + n, j + n);
      if ContainsAt(s, i, pat) {
        TailMatch(s, t, pat, rep, i, j);
      } else {
        TailSkip(s, t, pat, rep, i, j);
      }
    }
  }

  /** Equal tails stay equal when both positions advance together. */
  lemma TailAdvance(s: string, t: string, pat: string, i: nat, j: nat, n: nat)
    requires i + n <= |s| && j <= |t| && s[i..] == t[j..]
    ensures j + n <= |t| && s[i + n..] == t[j + n..]
    ensures ContainsAt(s, i, pat) == ContainsAt(t, j, pat)
    ensures i < |s| ==> s[i] == t[j]
  {
    if i < |s| { assert s[i] == s[i..][0] && t[j] == t[j..][0]; }
    assert s[i + n..] == s[i..][n..];
    assert t[j + n..] == t[j..][n..];
  }

  lemma TailMatch(s: string, t: string, pat: string, rep: string, i: nat, j: nat)
    requires |pat| > 0 && '$' !in rep && i < |s| && j < |t|
    requires ContainsAt(s, i, pat) && ContainsAt(t, j, pat)
    requires ReplaceAllFrom(s, pat, rep, i + |pat|) == ReplaceAllFrom(t, pat, rep, j + |pat|)
    ensures ReplaceAllFrom(s, pat, rep, i) == ReplaceAllFrom(t, pat, rep, j)
  {
    ReplaceAllMatch(s, pat, rep, i);
    ReplaceAllMatch(t, pat, rep, j);
  }

  lemma TailSkip(s: string, t: string, pat: string, rep: string, i: nat, j: nat)
    requires |pat| > 0 && i < |s| && j < |t| && s[i] == t[j]
    requires !ContainsAt(s, i, pat) && !ContainsAt(t, j, pat)
    requires ReplaceAllFrom(s, pat, rep, i + 1) == ReplaceAllFrom(t, pat, rep, j + 1)
    ensures ReplaceAllFrom(s, pat, rep, i) == ReplaceAllFrom(t, pat, rep, j)
  {
    ReplaceAllSkip(s, pat, rep, i);
    ReplaceAllSkip(t, pat, rep, j);
  }

  /** `s.replace(pat, rep)` for a literal pattern without the `g` flag and a
      replacement without `$`: only the first occurrence is replaced. */
  function ReplaceFirst(s: string, pat: string, rep: string): (r: string)
    ensures !Contains(s, pat) ==> r == s
    ensures Contains(s, pat) ==>
      var p := IndexOf(s, pat, 0).value; r == s[..p] + rep + s[p + |pat|..]
  {
    match IndexOf(s, pat, 0)
    case None => s
    case Some(p) => s[..p] + rep + s[p + |pat|..]
  }

  /** Replacing the first occurrence, when it follows `a`. */
  lemma ReplaceFirstAt(a: string, pat: string, c: string, rep: string)
    requires forall k :: 0 <= k < |a| ==> !ContainsAt(a + pat + c, k, pat)
    ensures ReplaceFirst(a + pat + c, pat, rep) == a + rep + c
  {
    var s := a + pat + c;
    ContainsAtMiddle(a, pat, c);
    IndexOfAt(s, pat, 0, |a|);
    assert s[..|a|] == a;
    assert s[|a| + |pat|..] == c;
  }

  /** The string made of `f(c)` for each character `c` of `s`, in order. */
  function Expand(s: string, f: char -> string): string
    decreases |s|
  {
    if s == [] then [] else f(s[0]) + Expand(s[1..], f)
  }

  lemma {:induction false} ExpandAppend(a: string, b: string, f: char -> string)
    ensures Expand(a + b, f) == Expand(a, f) + Expand(b, f)
    decreases |a|
  {
    if a != [] {
      assert (a + b)[0] == a[0];
      assert (a + b)[1..] == a[1..] + b;
      ExpandAppend(a[1..], b, f);
    } else {
      assert a + b == b;
    }
  }

  /** Expanding twice is expanding once by the composed expansion. */
  lemma ExpandSingle(x: char, f: char -> string)
    ensures Expand([x], f) == f(x)
  {
    assert [x][1..] == [];
  }

  lemma {:induction false} ExpandThen(s: string, f: char -> string, g: char -> string)
    ensures Expand(Expand(s, f), g) == Expand(s, x => Expand(f(x), g))
    decreases |s|
  {
    if s != [] {
      ExpandAppend(f(s[0]), Expand(s[1..], f), g);
      ExpandThen(s[1..], f, g);
    }
  }

  lemma {:induction false} ExpandSame(s: string, f: char -> string, g: char -> string)
    requires forall x :: f(x) == g(x)
    ensures Expand(s, f) == Expand(s, g)
    decreases |s|
  {
    if s != [] { ExpandSame(s[1..], f, g); }
  }

  /** Replacing each `c` by `rep`, character by character. */
  function CharTo(c: char, rep: string): char -> string {
    x => if x == c then rep else [x]
  }

  lemma {:induction false} ExpandUnchanged(s: string, c: char, rep: string)
    requires forall k :: 0 <= k < |s| ==> s[k] != c
    ensures Expand(s, CharTo(c, rep)) == s
    decreases |s|
  {
    if s != [] {
      assert forall k :: 0 <= k < |s[1..]| ==> s[1..][k] == s[k + 1];
      ExpandUnchanged(s[1..], c, rep);
    }
  }

  /** Replacing a one-character pattern globally is replacing that character
      wherever it occurs. */
  lemma {:induction false} ReplaceAllCharFrom(s: string, c: char, rep: string, i: nat)
    requires i <= |s| && '$' !in rep
    ensures ReplaceAllFrom(s, [c], rep, i) == Expand(s[i..], CharTo(c, rep))
    decreases |s| - i
  {
    if i < |s| {
      assert s[i..][..1] == [s[i]];
      assert ContainsAt(s, i, [c]) <==> s[i] == c;
      assert s[i..][1..] == s[i + 1..];
      if s[i] == c { ReplaceAllMatch(s, [c], rep, i); } else { ReplaceAllSkip(s, [c], rep, i); }
      ReplaceAllCharFrom(s, c, rep, i + 1);
    }
  }

  lemma ReplaceAllChar(s: string, c: char, rep: string)
    requires '$' !in rep
    ensures ReplaceAll(s, [c], rep) == Expand(s, CharTo(c, rep))
  {
    ReplaceAllCharFrom(s, c, rep, 0);
    assert s[0..] == s;
  }

  /** `parts.join(sep)`. */
  function Join(parts: seq<string>, sep: string): string
    decreases |parts|
  {
    if |parts| == 0 then ""
    else if |parts| == 1 then parts[0]
    else Join(parts[..|parts| - 1], sep) + sep + parts[|parts| - 1]
  }

  lemma {:induction false} JoinPrepend(x: string, parts: seq<string>, sep: string)
    ensures Join([x] + parts, sep) == if parts == [] then x else x + sep + Join(parts, sep)
    decreases |parts|
  {
    if |parts| > 1 {
      var last := parts[|parts| - 1];
      assert ([x] + parts)[..|parts|] == [x] + parts[..|parts| - 1];
      JoinPrepend(x, parts[..|parts| - 1], sep);
    } else if |parts| == 1 {
      assert ([x] + parts)[..1] == [x];
    }
  }

  /** The first part opens the join, the last one ends it. */
  lemma JoinEnds(parts: seq<string>, sep: string)
    requires |parts| > 0
    ensures StartsWith(Join(parts, sep), parts[0])
    ensures EndsWith(Join(parts, sep), parts[|parts| - 1])
  {
    JoinPrepend(parts[0], parts[1..], sep);
    assert [parts[0]] + parts[1..] == parts;
  }

  lemma JoinAppend(parts: seq<string>, x: string, sep: string)
    ensures Join(parts + [x], sep) == if parts == [] then x else Join(parts, sep) + sep + x
  {
    assert (parts + [x])[..|parts|] == parts;
  }

  /** With an empty separator, joining is concatenating. */
  lemma {:induction false} JoinConcat(a: seq<string>, b: seq<string>)
    ensures Join(a + b, "") == Join(a, "") + Join(b, "")
    decreases |b|
  {
    if b == [] {
      assert a + b == a;
    } else {
      var last := b[|b| - 1];
      var init := b[..|b| - 1];
      assert a + b == (a + init) + [last];
      assert b == init + [last];
      JoinAppend(a + init, last, "");
      JoinAppend(init, last, "");
      JoinConcat(a, init);
    }
  }

  /** Joining two lists puts the separator between their joins when both
      are non-empty. */
  lemma {:induction false} JoinConcatSep(a: seq<string>, b: seq<string>, sep: string)
    ensures Join(a + b, sep) ==
      if a == [] then Join(b, sep) else if b == [] then Join(a, sep) else Join(a, sep) + sep + Join(b, sep)
    decreases |b|
  {
    if a == [] {
      assert a + b == b;
    } else if b == [] {
      assert a + b == a;
    } else {
      var last := b[|b| - 1];
      var init := b[..|b| - 1];
      assert a + b == (a + init) + [last];
      assert b == init + [last];
      JoinAppend(a + init, last, sep);
      JoinAppend(init, last, sep);
      JoinConcatSep(a, init, sep);
    }
  }

  /** Joins of short lists, written out. */
  lemma JoinThree(a: string, b: string, c: string, sep: string)
    ensures Join([a, b, c], sep) == a + sep + b + sep + c
  {
    JoinAppend([a, b], c, sep);
    assert [a, b] + [c] == [a, b, c];
    JoinAppend([a], b, sep);
    assert [a] + [b] == [a, b];
  }

  lemma JoinFour(a: string, b: string, c: string, d: string, sep: string)
    ensures Join([a, b, c, d], sep) == a + sep + b + sep + c + sep + d
  {
    JoinAppend([a, b, c], d, sep);
    assert [a, b, c] + [d] == [a, b, c, d];
    JoinThree(a, b, c, sep);
  }

  lemma JoinTwo(a: string, b: string, sep: string)
    ensures Join([a, b], sep) == a + sep + b
  {
    JoinAppend([a], b, sep);
    assert [a] + [b] == [a, b];
  }

  /** JavaScript truthiness of a string-valued field that may be absent:
      present and not the empty string. */
  predicate Truthy(v: Option<string>) {
    v.Some? && v.value != ""
  }

  /** `v || d` for a string-valued field. */
  function OrElse(v: Option<string>, d: string): (r: string)
    ensures Truthy(v) ==> r == v.value
    ensures !Truthy(v) ==> r == d
  {
    if Truthy(v) then v.value else d
  }

  /** `s.trim() == ''`. */
  predicate IsBlank(s: string) {
    forall i :: 0 <= i < |s| ==> IsSpace(s[i])
  }
}
