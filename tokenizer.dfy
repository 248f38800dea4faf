/** The text-to-token parser of data.py (class TextData).

    Every regular expression the parser uses has the shape  << BODY >>  where BODY never contains
    '<' or '>'. A match of such a pattern at position p is therefore fixed by the text: after the
    "<<" at p, the longest run of characters other than '<' and '>' must be followed by ">>", and
    that run is the body. re.search is the leftmost position whose body the pattern accepts. */
module Tokenizer {
  import opened Strings
  import opened Tokens

  // ---------------------------------------------------------------- step 1: rewriting

  /** Quad spaces folded into a tab (when asked), then every space written as <<space>> and
      every newline as <<enter>>. */
  function Rewrite(text: string, replaceQuadSpacesWithTab: bool): string {
    var folded := if replaceQuadSpacesWithTab then ReplaceAll(text, "    ", "\t") else text;
    Escaped(folded)
  }

  /** The two replacements after the fold: blanks and newlines become directives. */
  function Escaped(text: string): string {
    ReplaceAll(ReplaceAll(text, " ", "<<space>>"), "\n", "<<enter>>")
  }

  /** What the escaping makes of a single character. */
  function EscapedChar(c: char): string {
    if c == ' ' then "<<space>>" else if c == '\n' then "<<enter>>" else [c]
  }

  lemma EscapedConcat(u: string, v: string)
    ensures Escaped(u + v) == Escaped(u) + Escaped(v)
  {
    ReplaceCharConcat(u, v, ' ', "<<space>>");
    ReplaceCharConcat(ReplaceAll(u, " ", "<<space>>"), ReplaceAll(v, " ", "<<space>>"), '\n', "<<enter>>");
  }

  lemma EscapedSingle(c: char)
    ensures Escaped([c]) == EscapedChar(c)
  {
    ReplaceCharSingle(c, ' ', "<<space>>");
    var spaced := ReplaceAll([c], " ", "<<space>>");
    if c == ' ' {
      ReplaceCharAbsent(spaced, '\n', "<<enter>>");
    } else {
      ReplaceCharSingle(c, '\n', "<<enter>>");
    }
  }

  /** The rewrite works character by character, except that with the option on a text starting
      with four spaces is handled by RewriteQuad: a blank becomes <<space>>, a newline <<enter>>,
      and any other character stays. */
  lemma RewriteCons(text: string, quad: bool)
    requires |text| > 0 && !(quad && |text| >= 4 && text[..4] == "    ")
    ensures Rewrite(text, quad) == EscapedChar(text[0]) + Rewrite(text[1..], quad)
  {
    var rest := text[1..];
    assert text == [text[0]] + rest;
    var folded := if quad then ReplaceAll(text, "    ", "\t") else text;
    var foldedRest := if quad then ReplaceAll(rest, "    ", "\t") else rest;
    if quad && |text| < 4 {
      assert |rest| < 4;
    }
    assert folded == [text[0]] + foldedRest;
    EscapedConcat([text[0]], foldedRest);
    EscapedSingle(text[0]);
  }

  /** With the option on, four leading spaces become one tab. */
  lemma RewriteQuad(s: string)
    ensures Rewrite("    " + s, true) == "\t" + Rewrite(s, true)
  {
    var text := "    " + s;
    assert text[..4] == "    " && text[4..] == s;
    assert ReplaceAll(text, "    ", "\t") == "\t" + ReplaceAll(s, "    ", "\t");
    EscapedConcat("\t", ReplaceAll(s, "    ", "\t"));
    EscapedSingle('\t');
  }

  /** A tab comes out of the rewrite exactly when the text has one, or the option is on and the
      text holds four spaces in a row. */
  lemma RewriteTabs(text: string, quad: bool)
    ensures '\t' in Rewrite(text, quad) <==> '\t' in text || (quad && Occurs(text, "    "))
  {
    var folded := if quad then ReplaceAll(text, "    ", "\t") else text;
    var spaced := ReplaceAll(folded, " ", "<<space>>");
    if '\t' in Rewrite(text, quad) {
      ReplaceAllChars(spaced, "\n", "<<enter>>", '\t');
      ReplaceAllChars(folded, " ", "<<space>>", '\t');
      if quad { ReplaceAllChars(text, "    ", "\t", '\t'); }
    }
    if '\t' in text {
      TabKept(text, quad);
    } else if quad && Occurs(text, "    ") {
      ReplaceAllShowsRep(text, "    ", "\t", '\t');
      EscapedKeepsTab(folded);
    }
  }

  /** No blank or newline survives the rewrite; a tab already in the text, or folded from four
      spaces, stays a plain character. */
  lemma RewriteLeavesNoBlank(text: string, quad: bool)
    ensures ' ' !in Rewrite(text, quad) && '\n' !in Rewrite(text, quad)
    ensures '\t' in text ==> '\t' in Rewrite(text, quad)
  {
    var folded := if quad then ReplaceAll(text, "    ", "\t") else text;
    var spaced := ReplaceAll(folded, " ", "<<space>>");
    ReplaceAllRemovesChar(folded, ' ', "<<space>>");
    ReplaceAllRemovesChar(spaced, '\n', "<<enter>>");
    if ' ' in Rewrite(text, quad) {
      ReplaceAllChars(spaced, "\n", "<<enter>>", ' ');
    }
    if '\t' in text {
      TabKept(text, quad);
    }
  }

  lemma TabKept(text: string, quad: bool)
    requires '\t' in text
    ensures '\t' in Rewrite(text, quad)
  {
    var folded := if quad then ReplaceAll(text, "    ", "\t") else text;
    if quad { ReplaceAllKeeps(text, "    ", "\t", '\t'); }
    EscapedKeepsTab(folded);
  }

  lemma EscapedKeepsTab(folded: string)
    requires '\t' in folded
    ensures '\t' in Escaped(folded)
  {
    ReplaceAllKeeps(folded, " ", "<<space>>", '\t');
    ReplaceAllKeeps(ReplaceAll(folded, " ", "<<space>>"), "\n", "<<enter>>", '\t');
  }

  /** A character outside the pattern survives a replacement. */
  lemma {:induction false} ReplaceAllKeeps(s: string, pat: string, rep: string, c: char)
    requires |pat| > 0 && c !in pat && c in s
    ensures c in ReplaceAll(s, pat, rep)
    decreases |s|
  {
    if |s| < |pat| {
    } else if s[..|pat|] == pat {
      var i :| 0 <= i < |s| && s[i] == c;
      assert forall m :: 0 <= m < |pat| ==> s[m] == pat[m];
      assert s[|pat|..][i - |pat|] == c;
      ReplaceAllKeeps(s[|pat|..], pat, rep, c);
    } else if s[0] != c {
      var i :| 0 <= i < |s| && s[i] == c;
      assert s[1..][i - 1] == c;
      ReplaceAllKeeps(s[1..], pat, rep, c);
    }
  }

  // ---------------------------------------------------------------- step 2: re.split on <<.*?>>

  /** The first position at or after `from` where `pat` occurs. */
  function FindFrom(s: string, pat: string, from: nat): (r: Option<nat>)
    requires from <= |s|
    ensures r.Some? ==> from <= r.value && r.value + |pat| <= |s|
    decreases |s| - from
  {
    if OccursAt(s, pat, from) then Some(from)
    else if from == |s| then None
    else FindFrom(s, pat, from + 1)
  }

  /** FindFrom finds the leftmost occurrence at or after `from`, and None means there is none. */
  lemma {:induction false} FindFromLeftmost(s: string, pat: string, from: nat)
    requires from <= |s|
    ensures var r := FindFrom(s, pat, from);
      && (r.Some? ==> OccursAt(s, pat, r.value))
      && (r.Some? ==> forall j :: from <= j < r.value ==> !OccursAt(s, pat, j))
      && (r.None? ==> forall j :: from <= j ==> !OccursAt(s, pat, j))
    decreases |s| - from
  {
    if !OccursAt(s, pat, from) && from < |s| {
      FindFromLeftmost(s, pat, from + 1);
    }
  }

  /** Where the next match of <<.*?>> lies, as (start, end): the leftmost "<<" with a ">>" after
      it, up to the first ">>" after that. If the first "<<" has no ">>" after it, no later "<<"
      has one either. */
  function NextDirective(s: string): (r: Option<(nat, nat)>)
    ensures r.Some? ==> r.value.0 + 4 <= r.value.1 <= |s|
  {
    match FindFrom(s, "<<", 0)
    case None => None
    case Some(i) =>
      match FindFrom(s, ">>", i + 2)
      case None => None
      case Some(j) => Some((i, j + 2))
  }

  /** re.split('(<<.*?>>)', s): literal parts at even positions, the directive matches between
      them. */
  function RegexSplit(s: string): (parts: seq<string>)
    ensures |parts| % 2 == 1
    decreases |s|
  {
    match NextDirective(s)
    case None => [s]
    case Some((i, e)) => [s[..i], s[i..e]] + RegexSplit(s[e..])
  }

  /** No "<<" in the text is followed, later, by ">>": the directive regex finds nothing. */
  ghost predicate NoDirective(t: string) {
    forall i, j :: OccursAt(t, "<<", i) && OccursAt(t, ">>", j) ==> j < i + 2
  }

  /** "<<", then anything, then the FIRST ">>" after it: one non-greedy match of <<.*?>>. */
  ghost predicate IsDirectiveSpan(t: string) {
    && |t| >= 4 && t[..2] == "<<" && t[|t| - 2..] == ">>"
    && forall j :: 2 <= j < |t| - 2 ==> !OccursAt(t, ">>", j)
  }

  function Concat(parts: seq<string>): string {
    if parts == [] then "" else parts[0] + Concat(parts[1..])
  }

  lemma {:induction false} ConcatAppend(a: seq<string>, b: seq<string>)
    ensures Concat(a + b) == Concat(a) + Concat(b)
  {
    if a == [] {
      assert a + b == b;
    } else {
      assert (a + b)[0] == a[0];
      assert (a + b)[1..] == a[1..] + b;
      ConcatAppend(a[1..], b);
    }
  }

  lemma ConcatSplitStep(s: string, i: nat, e: nat, rest: seq<string>)
    requires i <= e <= |s| && Concat(rest) == s[e..]
    ensures Concat([s[..i], s[i..e]] + rest) == s
  {
    ConcatAppend([s[..i], s[i..e]], rest);
    assert Concat([s[..i], s[i..e]]) == s[..i] + (s[i..e] + Concat([]));
    assert s[..i] + s[i..e] + s[e..] == s;
  }

  /** The parts of the split give back the text. */
  lemma {:induction false} RegexSplitConcat(s: string)
    ensures Concat(RegexSplit(s)) == s
    decreases |s|
  {
    match NextDirective(s)
    case None =>
      assert Concat([s]) == s + Concat([]);
    case Some((i, e)) =>
      RegexSplitConcat(s[e..]);
      ConcatSplitStep(s, i, e, RegexSplit(s[e..]));
  }

  /** Literal parts (even positions) hold no directive; every other part is exactly one
      non-greedy directive match; and a literal part followed by a directive holds no "<<",
      not even one whose second '<' opens the directive, so each match is the leftmost. */
  ghost predicate Alternating(parts: seq<string>) {
    && (forall k :: 0 <= k < |parts| && k % 2 == 0 ==> NoDirective(parts[k]))
    && (forall k :: 0 <= k < |parts| && k % 2 == 1 ==> IsDirectiveSpan(parts[k]))
    && (forall k :: 0 <= k < |parts| - 1 && k % 2 == 0 ==> !Occurs(parts[k] + "<", "<<"))
  }

  lemma AlternatingCons(lit: string, dir: string, rest: seq<string>)
    requires NoDirective(lit) && IsDirectiveSpan(dir) && Alternating(rest)
    requires !Occurs(lit + "<", "<<")
    ensures Alternating([lit, dir] + rest)
  {
    var parts := [lit, dir] + rest;
    forall k | 0 <= k < |parts| && k % 2 == 0 ensures NoDirective(parts[k]) {
      if k >= 2 {
        assert parts[k] == rest[k - 2] && (k - 2) % 2 == 0;
      }
    }
    forall k | 0 <= k < |parts| - 1 && k % 2 == 0 ensures !Occurs(parts[k] + "<", "<<") {
      if k >= 2 {
        assert parts[k] == rest[k - 2] && (k - 2) % 2 == 0;
      }
    }
    forall k | 0 <= k < |parts| && k % 2 == 1 ensures IsDirectiveSpan(parts[k]) {
      if k >= 2 {
        assert parts[k] == rest[k - 2] && (k - 2) % 2 == 1;
      }
    }
  }

  /** What NextDirective finds: no directive at all when it finds none; otherwise no "<<" before
      the match, and the match is one non-greedy <<.*?>>. */
  lemma NextDirectiveFinds(s: string)
    ensures NextDirective(s).None? ==> NoDirective(s)
    ensures NextDirective(s).Some? ==>
              var r := NextDirective(s).value;
              NoDirective(s[..r.0]) && IsDirectiveSpan(s[r.0..r.1]) && !Occurs(s[..r.0] + "<", "<<")
  {
    match FindFrom(s, "<<", 0)
    case None =>
      assert NextDirective(s) == None;
      NoOpenAtAll(s);
    case Some(i) =>
      match FindFrom(s, ">>", i + 2)
      case None =>
        assert NextDirective(s) == None;
        NoCloseAfterOpen(s, i);
      case Some(j) =>
        assert NextDirective(s) == Some((i, j + 2));
        OpenThenClose(s, i, j);
  }

  lemma NoOpenAtAll(s: string)
    requires FindFrom(s, "<<", 0).None?
    ensures NoDirective(s)
  {
    FindFromLeftmost(s, "<<", 0);
    NoOpenNoDirective(s);
  }

  lemma NoCloseAfterOpen(s: string, i: nat)
    requires FindFrom(s, "<<", 0) == Some(i) && FindFrom(s, ">>", i + 2).None?
    ensures NoDirective(s)
  {
    FindFromLeftmost(s, "<<", 0);
    FindFromLeftmost(s, ">>", i + 2);
    NoCloseAfterFirstOpen(s, i);
  }

  lemma OpenThenClose(s: string, i: nat, j: nat)
    requires FindFrom(s, "<<", 0) == Some(i) && i + 2 <= |s| && FindFrom(s, ">>", i + 2) == Some(j)
    ensures NoDirective(s[..i]) && IsDirectiveSpan(s[i..j + 2]) && !Occurs(s[..i] + "<", "<<")
  {
    FindFromLeftmost(s, "<<", 0);
    FindFromLeftmost(s, ">>", i + 2);
    PrefixBeforeOpen(s, i);
    LeftmostOpen(s, i);
    OneMatch(s, i, j);
  }

  /** The text before the leftmost "<<", with the first '<' of it, holds no "<<". */
  lemma LeftmostOpen(s: string, i: nat)
    requires i + 2 <= |s| && OccursAt(s, "<<", i)
    requires forall j :: 0 <= j < i ==> !OccursAt(s, "<<", j)
    ensures !Occurs(s[..i] + "<", "<<")
  {
    var t := s[..i + 1];
    assert s[..i] + "<" == t;
    forall a | 0 <= a <= |t| ensures !OccursAt(t, "<<", a) {
      if a + 2 <= |t| {
        assert t[a..a + 2] == s[a..a + 2];
        assert !OccursAt(s, "<<", a);
      }
    }
  }

  lemma {:induction false} RegexSplitKinds(s: string)
    ensures Alternating(RegexSplit(s))
    decreases |s|
  {
    NextDirectiveFinds(s);
    match NextDirective(s)
    case None =>
      AlternatingSingle(s);
    case Some((i, e)) =>
      RegexSplitKinds(s[e..]);
      AlternatingCons(s[..i], s[i..e], RegexSplit(s[e..]));
  }

  lemma AlternatingSingle(t: string)
    requires NoDirective(t)
    ensures Alternating([t])
  {
  }

  /** With no ">>" after the first "<<", no "<<" at all has a ">>" after it. */
  lemma NoCloseAfterFirstOpen(s: string, i: nat)
    requires forall a :: 0 <= a < i ==> !OccursAt(s, "<<", a)
    requires forall b :: i + 2 <= b ==> !OccursAt(s, ">>", b)
    ensures NoDirective(s)
  {
    forall a, b | OccursAt(s, "<<", a) && OccursAt(s, ">>", b) ensures b < a + 2 {
      assert a >= i;
    }
  }

  lemma NoOpenNoDirective(t: string)
    requires forall a :: 0 <= a ==> !OccursAt(t, "<<", a)
    ensures NoDirective(t)
  {
  }

  /** The text before the first "<<" holds no "<<" at all. */
  lemma PrefixBeforeOpen(s: string, i: nat)
    requires i <= |s|
    requires forall j :: 0 <= j < i ==> !OccursAt(s, "<<", j)
    ensures NoDirective(s[..i])
  {
    forall a | 0 <= a ensures !OccursAt(s[..i], "<<", a) {
      if a + 2 <= i {
        assert s[..i][a..a + 2] == s[a..a + 2];
        assert !OccursAt(s, "<<", a);
      }
    }
    NoOpenNoDirective(s[..i]);
  }

  lemma OneMatch(s: string, i: nat, j: nat)
    requires OccursAt(s, "<<", i) && OccursAt(s, ">>", j) && i + 2 <= j
    requires forall m :: i + 2 <= m < j ==> !OccursAt(s, ">>", m)
    ensures IsDirectiveSpan(s[i..j + 2])
  {
    var t := s[i..j + 2];
    assert t[..2] == s[i..i + 2];
    assert t[|t| - 2..] == s[j..j + 2];
    forall m | 2 <= m < |t| - 2 ensures !OccursAt(t, ">>", m) {
      SliceOfSlice(s, i, j + 2, m, m + 2);
      assert !OccursAt(s, ">>", i + m);
    }
  }

  lemma SliceOfSlice(s: string, i: nat, e: nat, a: nat, b: nat)
    requires i <= e <= |s| && a <= b <= e - i
    ensures s[i..e][a..b] == s[i + a..i + b]
  {
    assert |s[i..e][a..b]| == b - a;
    forall k | 0 <= k < b - a ensures s[i..e][a..b][k] == s[i + a..i + b][k] {
      assert s[i..e][a..b][k] == s[i..e][a + k] == s[i + a + k];
    }
  }

  /** The empty parts dropped, order kept. */
  function NonEmpty(parts: seq<string>): (r: seq<string>)
    ensures forall k :: 0 <= k < |r| ==> r[k] != ""
    ensures |r| <= |parts|
  {
    if parts == [] then []
    else if parts[0] == "" then NonEmpty(parts[1..])
    else [parts[0]] + NonEmpty(parts[1..])
  }

  lemma {:induction false} NonEmptyConcat(parts: seq<string>)
    ensures Concat(NonEmpty(parts)) == Concat(parts)
  {
    if parts != [] {
      NonEmptyConcat(parts[1..]);
      if parts[0] != "" {
        assert ([parts[0]] + NonEmpty(parts[1..]))[1..] == NonEmpty(parts[1..]);
      }
    }
  }

  lemma {:induction false} NonEmptyFrom(parts: seq<string>, t: string)
    requires t in NonEmpty(parts)
    ensures t in parts
  {
    if parts != [] && t != parts[0] {
      if parts[0] != "" { assert t in NonEmpty(parts[1..]); }
      NonEmptyFrom(parts[1..], t);
    }
  }

  /** text_to_string_tokens: the rewritten text split into directive and literal spans. */
  function StringTokens(text: string, replaceQuadSpacesWithTab: bool): seq<string> {
    NonEmpty(RegexSplit(Rewrite(text, replaceQuadSpacesWithTab)))
  }

  /** What the spans of the split are once the empty ones are dropped: each is non-empty, and
      each is either one non-greedy directive match, or literal text holding no directive
      which, when a span follows it, is followed by a directive and ends where the leftmost
      "<<" begins. */
  ghost predicate SpanKinds(spans: seq<string>) {
    forall k :: 0 <= k < |spans| ==> SpanKindAt(spans, k)
  }

  ghost predicate SpanKindAt(spans: seq<string>, k: nat)
    requires k < |spans|
  {
    && spans[k] != ""
    && (|| IsDirectiveSpan(spans[k])
        || (&& NoDirective(spans[k])
            && (k + 1 < |spans| ==> IsDirectiveSpan(spans[k + 1]) && !Occurs(spans[k] + "<", "<<"))))
  }

  /** A span put in front keeps the kinds of the spans after it. */
  lemma SpanKindsShift(first: string, rest: seq<string>, k: nat)
    requires 1 <= k < |rest| + 1 && SpanKindAt(rest, k - 1)
    ensures SpanKindAt([first] + rest, k)
  {
    var spans := [first] + rest;
    assert spans[k] == rest[k - 1];
    if k + 1 < |spans| { assert spans[k + 1] == rest[k]; }
  }

  lemma SpanKindsDirective(dir: string, rest: seq<string>)
    requires IsDirectiveSpan(dir) && SpanKinds(rest)
    ensures SpanKinds([dir] + rest)
  {
    forall k | 0 <= k < |rest| + 1 ensures SpanKindAt([dir] + rest, k) {
      if k > 0 { SpanKindsShift(dir, rest, k); }
    }
  }

  lemma SpanKindsLiteral(lit: string, rest: seq<string>)
    requires lit != "" && NoDirective(lit) && !Occurs(lit + "<", "<<")
    requires |rest| > 0 && IsDirectiveSpan(rest[0]) && SpanKinds(rest)
    ensures SpanKinds([lit] + rest)
  {
    forall k | 0 <= k < |rest| + 1 ensures SpanKindAt([lit] + rest, k) {
      if k > 0 { SpanKindsShift(lit, rest, k); } else { assert ([lit] + rest)[1] == rest[0]; }
    }
  }

  /** The split with its empty parts dropped has the kinds SpanKinds describes. */
  lemma {:induction false} SplitSpanKinds(s: string)
    ensures SpanKinds(NonEmpty(RegexSplit(s)))
    decreases |s|
  {
    NextDirectiveFinds(s);
    match NextDirective(s)
    case None =>
      assert RegexSplit(s) == [s];
      assert NonEmpty([s][1..]) == [];
    case Some((i, e)) =>
      var lit, dir, rest := s[..i], s[i..e], RegexSplit(s[e..]);
      var parts := [lit, dir] + rest;
      assert RegexSplit(s) == parts;
      SplitSpanKinds(s[e..]);
      assert parts[1..] == [dir] + rest && ([dir] + rest)[1..] == rest;
      assert NonEmpty([dir] + rest) == [dir] + NonEmpty(rest);
      SpanKindsDirective(dir, NonEmpty(rest));
      if lit != "" {
        assert NonEmpty(parts) == [lit] + ([dir] + NonEmpty(rest));
        SpanKindsLiteral(lit, [dir] + NonEmpty(rest));
      }
  }

  /** The spans give back the rewritten text exactly, and they are the spans re.split yields:
      non-empty, each one leftmost non-greedy <<...>> match or the literal text between two. */
  lemma StringTokensSpans(text: string, quad: bool)
    ensures Concat(StringTokens(text, quad)) == Rewrite(text, quad)
    ensures SpanKinds(StringTokens(text, quad))
  {
    RegexSplitConcat(Rewrite(text, quad));
    NonEmptyConcat(RegexSplit(Rewrite(text, quad)));
    SplitSpanKinds(Rewrite(text, quad));
  }

  /** In "<<<b>>" the match starts at the first '<': the whole text is one directive span. */
  lemma SplitTakesLeftmostOpen()
    ensures RegexSplit("<<<b>>") == ["", "<<<b>>", ""]
  {
    var t := "<<<b>>";
    assert t[..2] == "<<";
    assert FindFrom(t, "<<", 0) == Some(0);
    assert t[2..4][0] == '<' && t[3..5][0] == 'b' && t[4..6] == ">>";
    assert FindFrom(t, ">>", 2) == Some(4);
    assert NextDirective(t) == Some((0, 6));
    assert t[..0] == "" && t[0..6] == t && t[6..] == "";
    assert NextDirective("").None?;
  }

  /** No span is both a directive match and literal text. */
  lemma SpanKindsExclusive(t: string)
    requires IsDirectiveSpan(t)
    ensures !NoDirective(t)
  {
    assert OccursAt(t, "<<", 0) && OccursAt(t, ">>", |t| - 2);
  }

  // ---------------------------------------------------------------- step 3: directive patterns

  predicate IsAngle(c: char) { c == '<' || c == '>' }

  /** The end of the run of characters other than '<' and '>' that starts at k. */
  function RunEnd(s: string, k: nat): (e: nat)
    requires k <= |s|
    ensures k <= e <= |s|
    ensures forall m :: k <= m < e ==> !IsAngle(s[m])
    ensures e < |s| ==> IsAngle(s[e])
    decreases |s| - k
  {
    if k == |s| || IsAngle(s[k]) then k else RunEnd(s, k + 1)
  }

  /** The body a <<BODY>> pattern would capture at position p, if "<<" stands at p and the
      angle-free run after it is closed by ">>". */
  function BodyAt(s: string, p: nat): (r: Option<string>)
    ensures r.Some? ==> forall m :: 0 <= m < |r.value| ==> !IsAngle(r.value[m])
  {
    if OccursAt(s, "<<", p) then
      var e := RunEnd(s, p + 2);
      if OccursAt(s, ">>", e) then Some(s[p + 2..e]) else None
    else None
  }

  /** The directive patterns, in the order the parser tries them. Keywords are lower case; the
      ones matched with re.IGNORECASE compare against the lower-cased body. */
  datatype Pattern =
    | TimedPausePat              // <<pause=(\d+)>>, any case
    | BarePausePat               // <<pause>>, any case
    | ScrollUpPat                // <<scrollup=(\d+)>>, case-sensitive
    | ScrollDownPat              // <<scrolldown=(\d+)>>, case-sensitive
    | RepeatPat(name: string)    // <<NAME(?:=(\d+))?>>, any case
    | EscPat                     // <<ESC(?:APE)?>>, any case
    | EnterPat                   // <<ENTER>>, any case
    | KeyPat                     // <<([^<>]+)>>

  /** The body is the keyword, in any letter case, then '=' and a run of digits. */
  predicate HasCount(b: string, keyword: string) {
    |b| > |keyword| + 1 && Lower(b)[..|keyword| + 1] == keyword + "=" && AllDigits(b[|keyword| + 1..])
  }

  /** Whether a pattern accepts a body. */
  predicate Matches(pat: Pattern, b: string) {
    match pat
    case TimedPausePat => HasCount(b, "pause")
    case BarePausePat => Lower(b) == "pause"
    case ScrollUpPat => |b| > 9 && b[..9] == "scrollup=" && AllDigits(b[9..])
    case ScrollDownPat => |b| > 11 && b[..11] == "scrolldown=" && AllDigits(b[11..])
    case RepeatPat(name) => Lower(b) == name || HasCount(b, name)
    case EscPat => Lower(b) == "esc" || Lower(b) == "escape"
    case EnterPat => Lower(b) == "enter"
    case KeyPat => |b| > 0
  }

  /** re.search from position p on: the body of the leftmost match. */
  function SearchFrom(s: string, pat: Pattern, p: nat): (r: Option<string>)
    ensures r.Some? ==> Matches(pat, r.value)
    decreases |s| - p
  {
    if p >= |s| then None
    else match BodyAt(s, p)
      case Some(b) => if Matches(pat, b) then Some(b) else SearchFrom(s, pat, p + 1)
      case None => SearchFrom(s, pat, p + 1)
  }

  function Search(s: string, pat: Pattern): (r: Option<string>)
    ensures r.Some? ==> Matches(pat, r.value)
  {
    SearchFrom(s, pat, 0)
  }

  /** The count of a <<NAME>> / <<NAME=N>> directive: N when given, else 1; None when int()
      refuses N for its length. */
  function CountOf(b: string, keyword: string): Option<nat>
    requires Matches(RepeatPat(keyword), b)
  {
    if HasCount(b, keyword) then IntOfDigits(b[|keyword| + 1..]) else Some(1)
  }

  /** The token of a counted directive in span s: the key repeated count times, or, when the
      count raised in int(), the span kept raw. */
  function Counted(key: string, count: Option<nat>, s: string): Token {
    match count
    case Some(n) => RepeatedKey(key, n)
    case None => Raw(s)
  }

  /** The token of a scroll directive in span s whose count is the digit run d. */
  function ScrollOf(d: string, direction: int, s: string): Token
    requires AllDigits(d)
  {
    match IntOfDigits(d)
    case Some(n) => MouseScroll(n, direction)
    case None => Raw(s)
  }

  /** The repeated-key directives, in the order they are tried: keyword and key name. */
  const RepeatTable: seq<(string, string)> := [
    ("backspace", "backspace"), ("delete", "delete"),
    ("up_arrow", "up"), ("down_arrow", "down"), ("left_arrow", "left"), ("right_arrow", "right"),
    ("home", "home"), ("end", "end"), ("tab", "tab")]

  function SearchRepeated(s: string, from: nat): Option<Token>
    requires from <= |RepeatTable|
    decreases |RepeatTable| - from
  {
    if from == |RepeatTable| then None
    else
      var (keyword, key) := RepeatTable[from];
      match Search(s, RepeatPat(keyword))
      case Some(b) => Some(Counted(key, CountOf(b, keyword), s))
      case None => SearchRepeated(s, from + 1)
  }

  /** Key names mapped to the input library's names; other names pass through lower-cased. */
  const KeyAliases: seq<(string, string)> := [
    ("ctrl", "ctrl"), ("control", "ctrl"), ("alt", "alt"), ("shift", "shift"),
    ("win", "cmd"), ("cmd", "cmd"), ("super", "cmd"),
    ("esc", "esc"), ("escape", "esc"), ("enter", "enter"), ("return", "enter"),
    ("tab", "tab"), ("space", "space"), ("backspace", "backspace"),
    ("delete", "delete"), ("del", "delete"), ("home", "home"), ("end", "end"),
    ("pageup", "page_up"), ("pagedown", "page_down"),
    ("up", "up"), ("down", "down"), ("left", "left"), ("right", "right"),
    ("f1", "f1"), ("f2", "f2"), ("f3", "f3"), ("f4", "f4"),
    ("f5", "f5"), ("f6", "f6"), ("f7", "f7"), ("f8", "f8"),
    ("f9", "f9"), ("f10", "f10"), ("f11", "f11"), ("f12", "f12")]

  /** The alias of a lower-cased name, looked up from entry `from` on; the name itself if absent. */
  function AliasFrom(lower: string, from: nat): (r: string)
    requires from <= |KeyAliases|
    ensures (exists k :: from <= k < |KeyAliases| && KeyAliases[k].0 == lower) || r == lower
    decreases |KeyAliases| - from
  {
    if from == |KeyAliases| then lower
    else if KeyAliases[from].0 == lower then KeyAliases[from].1
    else AliasFrom(lower, from + 1)
  }

  function CanonicalKey(name: string): string {
    AliasFrom(Lower(name), 0)
  }

  /** The key-normalisation loop: every name of a chord mapped in order. */
  function NormalizeKeys(keys: seq<string>): (r: seq<string>)
    ensures |r| == |keys|
    ensures forall k :: 0 <= k < |keys| ==> r[k] == CanonicalKey(keys[k])
  {
    if keys == [] then [] else [CanonicalKey(keys[0])] + NormalizeKeys(keys[1..])
  }

  /** parse_string_token_to_command_token, with the ValueError it raises for a span that no
      pattern matches turned into the raw span, as parse_text_to_tokens does. */
  function ParseSpan(s: string): Token {
    match Search(s, TimedPausePat)
    case Some(b) => TimedPause(DigitsValue(b[6..]))
    case None =>
    if Search(s, BarePausePat).Some? then SingleKey("atpause")
    else match Search(s, ScrollUpPat)
    case Some(b) => ScrollOf(b[9..], 1, s)
    case None =>
    match Search(s, ScrollDownPat)
    case Some(b) => ScrollOf(b[11..], -1, s)
    case None => ParseKeySpan(s)
  }

  /** The rest of the chain: repeated keys, escape, enter, then any key or chord. */
  function ParseKeySpan(s: string): Token {
    match SearchRepeated(s, 0)
    case Some(t) => t
    case None =>
    if Search(s, EscPat).Some? then SingleKey("esc")
    else if Search(s, EnterPat).Some? then SingleKey("enter")
    else match Search(s, KeyPat)
    case Some(b) =>
      var keys := NormalizeKeys(Split(b, '+'));
      if |keys| == 1 then SingleKey(keys[0]) else MultiKeys(keys)
    case None => Raw(s)
  }

  // ---------------------------------------------------------------- what a span parses to

  predicate AngleFree(b: string) { forall m :: 0 <= m < |b| ==> !IsAngle(b[m]) }

  /** The directive span with body b. */
  function Directive(b: string): string { "<<" + b + ">>" }

  lemma {:induction false} RunEndSpan(b: string, k: nat)
    requires AngleFree(b) && 2 <= k <= |b| + 2
    ensures RunEnd(Directive(b), k) == |b| + 2
    decreases |b| + 2 - k
  {
    var s := Directive(b);
    if k < |b| + 2 {
      assert s[k] == b[k - 2];
      RunEndSpan(b, k + 1);
    } else {
      assert s[k] == '>';
    }
  }

  lemma {:induction false} SearchFromNone(s: string, pat: Pattern, p: nat)
    requires forall q :: p <= q ==> BodyAt(s, q).None?
    ensures SearchFrom(s, pat, p) == None
    decreases |s| - p
  {
    if p < |s| { SearchFromNone(s, pat, p + 1); }
  }

  /** Searching a directive span finds its body, and only if the pattern accepts the body. */
  lemma SearchSpan(b: string, pat: Pattern)
    requires AngleFree(b)
    ensures Search(Directive(b), pat) == if Matches(pat, b) then Some(b) else None
  {
    var s := Directive(b);
    RunEndSpan(b, 2);
    assert s[2..|b| + 2] == b;
    assert s[|b| + 2..|b| + 4] == ">>";
    assert BodyAt(s, 0) == Some(b);
    forall q | 1 <= q ensures BodyAt(s, q).None? {
      if q + 2 <= |s| {
        if q == 1 {
          assert s[2] != '<' by { if |b| > 0 { assert s[2] == b[0]; } }
          assert s[q..q + 2][1] == s[2];
        } else if q < |b| + 2 {
          assert s[q] == b[q - 2];
          assert s[q..q + 2][0] == s[q];
        } else {
          assert s[q..q + 2][0] == s[q];
        }
      }
    }
    SearchFromNone(s, pat, 1);
  }

  /** A literal span contains no match of any directive pattern. */
  lemma LiteralSearch(t: string, pat: Pattern)
    requires NoDirective(t)
    ensures Search(t, pat) == None
  {
    forall q | 0 <= q ensures BodyAt(t, q).None? {
      if OccursAt(t, "<<", q) {
        var e := RunEnd(t, q + 2);
        assert !OccursAt(t, ">>", e);
      }
    }
    SearchFromNone(t, pat, 0);
  }

  lemma {:induction false} LiteralSearchRepeated(t: string, from: nat)
    requires NoDirective(t) && from <= |RepeatTable|
    ensures SearchRepeated(t, from) == None
    decreases |RepeatTable| - from
  {
    if from < |RepeatTable| {
      LiteralSearch(t, RepeatPat(RepeatTable[from].0));
      LiteralSearchRepeated(t, from + 1);
    }
  }

  /** Text the directive regex finds nothing in is kept as a raw string. */
  lemma LiteralSpanIsRaw(t: string)
    requires NoDirective(t)
    ensures ParseSpan(t) == Raw(t)
  {
    LiteralSearch(t, TimedPausePat);
    LiteralSearch(t, BarePausePat);
    LiteralSearch(t, ScrollUpPat);
    LiteralSearch(t, ScrollDownPat);
    LiteralSearchRepeated(t, 0);
    LiteralSearch(t, EscPat);
    LiteralSearch(t, EnterPat);
    LiteralSearch(t, KeyPat);
  }

  /** The priority chain of the parser applied to a directive's body: the first pattern that
      accepts the body decides the token. */
  function ParseBody(b: string): Token {
    if Matches(TimedPausePat, b) then TimedPause(DigitsValue(b[6..]))
    else if Matches(BarePausePat, b) then SingleKey("atpause")
    else if Matches(ScrollUpPat, b) then ScrollOf(b[9..], 1, Directive(b))
    else if Matches(ScrollDownPat, b) then ScrollOf(b[11..], -1, Directive(b))
    else ParseKeyBody(b)
  }

  function ParseKeyBody(b: string): Token {
    match RepeatedBody(b, 0)
    case Some(t) => t
    case None =>
      if Matches(EscPat, b) then SingleKey("esc")
      else if Matches(EnterPat, b) then SingleKey("enter")
      else if Matches(KeyPat, b) then
        var keys := NormalizeKeys(Split(b, '+'));
        if |keys| == 1 then SingleKey(keys[0]) else MultiKeys(keys)
      else Raw(Directive(b))
  }

  function RepeatedBody(b: string, from: nat): Option<Token>
    requires from <= |RepeatTable|
    decreases |RepeatTable| - from
  {
    if from == |RepeatTable| then None
    else
      var (keyword, key) := RepeatTable[from];
      if Matches(RepeatPat(keyword), b) then Some(Counted(key, CountOf(b, keyword), Directive(b)))
      else RepeatedBody(b, from + 1)
  }

  lemma {:induction false} SearchRepeatedBody(b: string, from: nat)
    requires AngleFree(b) && from <= |RepeatTable|
    ensures SearchRepeated(Directive(b), from) == RepeatedBody(b, from)
    decreases |RepeatTable| - from
  {
    if from < |RepeatTable| {
      SearchSpan(b, RepeatPat(RepeatTable[from].0));
      SearchRepeatedBody(b, from + 1);
    }
  }

  lemma DirectiveParsesKeyBody(b: string)
    requires AngleFree(b)
    ensures ParseKeySpan(Directive(b)) == ParseKeyBody(b)
  {
    SearchRepeatedBody(b, 0);
    SearchSpan(b, EscPat);
    SearchSpan(b, EnterPat);
    SearchSpan(b, KeyPat);
  }

  /** A directive span whose body holds no '<' or '>' parses exactly as its body does. */
  lemma DirectiveParsesBody(b: string)
    requires AngleFree(b)
    ensures ParseSpan(Directive(b)) == ParseBody(b)
  {
    SearchSpan(b, TimedPausePat);
    SearchSpan(b, BarePausePat);
    SearchSpan(b, ScrollUpPat);
    SearchSpan(b, ScrollDownPat);
    DirectiveParsesKeyBody(b);
  }

  // One lemma per step of the chain, so that each use unfolds the chain only once.

  lemma TimedStage(b: string)
    requires Matches(TimedPausePat, b)
    ensures ParseBody(b) == TimedPause(DigitsValue(b[6..]))
  {
  }

  lemma BareStage(b: string)
    requires !Matches(TimedPausePat, b) && Matches(BarePausePat, b)
    ensures ParseBody(b) == SingleKey("atpause")
  {
  }

  lemma ScrollUpStage(b: string)
    requires !Matches(TimedPausePat, b) && !Matches(BarePausePat, b) && Matches(ScrollUpPat, b)
    ensures ParseBody(b) == ScrollOf(b[9..], 1, Directive(b))
  {
  }

  lemma ScrollDownStage(b: string)
    requires !Matches(TimedPausePat, b) && !Matches(BarePausePat, b)
    requires !Matches(ScrollUpPat, b) && Matches(ScrollDownPat, b)
    ensures ParseBody(b) == ScrollOf(b[11..], -1, Directive(b))
  {
  }

  lemma KeyStage(b: string)
    requires !Matches(TimedPausePat, b) && !Matches(BarePausePat, b)
    requires !Matches(ScrollUpPat, b) && !Matches(ScrollDownPat, b)
    ensures ParseBody(b) == ParseKeyBody(b)
  {
  }

  lemma RepeatStage(b: string)
    requires RepeatedBody(b, 0).Some?
    ensures ParseKeyBody(b) == RepeatedBody(b, 0).value
  {
  }

  lemma EscStage(b: string)
    requires RepeatedBody(b, 0).None? && Matches(EscPat, b)
    ensures ParseKeyBody(b) == SingleKey("esc")
  {
  }

  lemma EnterStage(b: string)
    requires RepeatedBody(b, 0).None? && !Matches(EscPat, b) && Matches(EnterPat, b)
    ensures ParseKeyBody(b) == SingleKey("enter")
  {
  }

  lemma ChordStage(b: string)
    requires RepeatedBody(b, 0).None? && !Matches(EscPat, b) && !Matches(EnterPat, b) && |b| > 0
    ensures ParseKeyBody(b) ==
              var keys := NormalizeKeys(Split(b, '+'));
              if |keys| == 1 then SingleKey(keys[0]) else MultiKeys(keys)
  {
  }

  lemma {:induction false} RepeatedBodySkip(b: string, from: nat)
    requires from < |RepeatTable| && !Matches(RepeatPat(RepeatTable[from].0), b)
    ensures RepeatedBody(b, from) == RepeatedBody(b, from + 1)
  {
  }

  lemma {:induction false} RepeatedBodyHit(b: string, m: nat)
    requires m < |RepeatTable| && Matches(RepeatPat(RepeatTable[m].0), b)
    ensures RepeatedBody(b, m) == Some(Counted(RepeatTable[m].1, CountOf(b, RepeatTable[m].0), Directive(b)))
  {
  }

  /** The keyword a body spells (bare or with "=N") shows in the body's first letter. */
  lemma FirstLetter(b: string, kw: string)
    requires |kw| > 0
    ensures (Lower(b) == kw || HasCount(b, kw)) ==> |b| > 0 && LowerChar(b[0]) == kw[0]
  {
    if |b| > 0 {
      assert Lower(b)[0] == LowerChar(b[0]);
      if |b| > |kw| + 1 { assert Lower(b)[..|kw| + 1][0] == Lower(b)[0]; }
    }
  }

  /** A body spelling one '='-free keyword (bare or with "=N") spells no other. */
  lemma KeywordsExclusive(b: string, kw: string, other: string)
    requires '=' !in kw && '=' !in other && kw != other
    requires Lower(b) == kw || HasCount(b, kw)
    ensures Lower(b) != other && !HasCount(b, other)
  {
    var lb := Lower(b);
    assert (other + "=")[|other|] == '=';
    assert (other + "=")[..|other|] == other;
    if |lb| > |other| {
      assert lb[..|other| + 1][|other|] == lb[|other|];
    }
    if lb == kw {
      if |lb| > |other| { assert lb[|other|] != '='; }
    } else {
      assert lb[..|kw| + 1][|kw|] == lb[|kw|];
      assert lb[|kw|] == '=';
      assert (kw + "=")[..|kw|] == kw;
      if |other| < |kw| {
        assert lb[..|kw| + 1][|other|] == lb[|other|];
        assert lb[|other|] == kw[|other|];
        assert lb[|other|] != '=';
      } else if |other| > |kw| && |lb| > |other| {
        assert lb[..|other| + 1][|kw|] == lb[|kw|];
        assert other[|kw|] != '=';
      }
    }
  }

  /** The keywords of the repeated-key table. */
  function RepeatKeywords(): (r: seq<string>)
    ensures |r| == |RepeatTable|
    ensures forall m :: 0 <= m < |r| ==> r[m] == RepeatTable[m].0
  {
    seq(|RepeatTable|, m requires 0 <= m < |RepeatTable| => RepeatTable[m].0)
  }

  /** Each keyword of the table is a non-empty '='-free word that does not begin with 's' and
      is none of the other directive words. */
  lemma RepeatKeywordFacts(m: nat)
    requires m < |RepeatTable|
    ensures var kw := RepeatTable[m].0;
      |kw| > 0 && '=' !in kw && kw[0] != 's' && AngleFree(kw) &&
      kw != "pause" && kw != "esc" && kw != "escape" && kw != "enter"
  {
  }

  lemma RepeatKeywordsDistinct(m: nat, n: nat)
    requires m < n < |RepeatTable|
    ensures RepeatTable[m].0 != RepeatTable[n].0
  {
  }

  /** A body spelling the keyword of entry m spells none of the earlier entries. */
  lemma RepeatEarlierMisses(b: string, m: nat, n: nat)
    requires n < m < |RepeatTable| && Matches(RepeatPat(RepeatTable[m].0), b)
    ensures !Matches(RepeatPat(RepeatTable[n].0), b)
  {
    RepeatKeywordFacts(m);
    RepeatKeywordFacts(n);
    RepeatKeywordsDistinct(n, m);
    KeywordsExclusive(b, RepeatTable[m].0, RepeatTable[n].0);
  }

  lemma {:induction false} RepeatedBodyAt(b: string, m: nat, from: nat)
    requires m < |RepeatTable| && from <= m
    requires Matches(RepeatPat(RepeatTable[m].0), b)
    ensures RepeatedBody(b, from) == Some(Counted(RepeatTable[m].1, CountOf(b, RepeatTable[m].0), Directive(b)))
    decreases m - from
  {
    if from < m {
      RepeatedBodyAt(b, m, from + 1);
      RepeatedBodyStep(b, m, from);
    } else {
      RepeatedBodyHit(b, m);
    }
  }

  /** An entry before the matching one is passed over. */
  lemma RepeatedBodyStep(b: string, m: nat, from: nat)
    requires m < |RepeatTable| && from < m
    requires Matches(RepeatPat(RepeatTable[m].0), b)
    requires RepeatedBody(b, from + 1) == Some(Counted(RepeatTable[m].1, CountOf(b, RepeatTable[m].0), Directive(b)))
    ensures RepeatedBody(b, from) == Some(Counted(RepeatTable[m].1, CountOf(b, RepeatTable[m].0), Directive(b)))
  {
    RepeatEarlierMisses(b, m, from);
    RepeatedBodySkip(b, from);
  }

  lemma {:induction false} RepeatedBodyNone(b: string, from: nat)
    requires from <= |RepeatTable|
    requires forall m :: 0 <= m < |RepeatTable| ==> !Matches(RepeatPat(RepeatTable[m].0), b)
    ensures RepeatedBody(b, from) == None
    decreases |RepeatTable| - from
  {
    if from < |RepeatTable| {
      RepeatedBodySkip(b, from);
      RepeatedBodyNone(b, from + 1);
    }
  }

  lemma AngleFreeOfLower(p: string, w: string)
    requires Lower(p) == w && AngleFree(w)
    ensures AngleFree(p)
  {
    forall m | 0 <= m < |p| ensures !IsAngle(p[m]) { assert LowerChar(p[m]) == w[m]; }
  }

  lemma CountedBody(p: string, kw: string, d: string)
    requires Lower(p) == kw && AllDigits(d) && |d| > 0
    ensures HasCount(p + "=" + d, kw)
    ensures (p + "=" + d)[|kw| + 1..] == d
  {
    LowerAppend(p + "=", d);
    LowerAppend(p, "=");
  }

  lemma AngleFreeCounted(p: string, kw: string, d: string)
    requires Lower(p) == kw && AngleFree(kw) && AllDigits(d)
    ensures AngleFree(p + "=" + d)
  {
    AngleFreeOfLower(p, kw);
    var b := p + "=" + d;
    forall m | 0 <= m < |b| ensures !IsAngle(b[m]) {
      if m < |p| { assert b[m] == p[m]; } else if m > |p| { assert b[m] == d[m - |p| - 1]; }
    }
  }

  /** The body does not begin with the scroll keywords (which are matched case-sensitively). */
  lemma NotScroll(b: string)
    requires |b| > 0 && b[0] != 's'
    ensures !Matches(ScrollUpPat, b) && !Matches(ScrollDownPat, b)
  {
    if |b| > 9 { assert b[..9][0] == b[0]; }
    if |b| > 11 { assert b[..11][0] == b[0]; }
  }

  /** A body without '=' is no scroll directive. */
  lemma NoEqualsNotScroll(b: string)
    requires '=' !in b
    ensures !Matches(ScrollUpPat, b) && !Matches(ScrollDownPat, b)
  {
    if |b| > 9 { assert b[..9][8] == b[8]; assert b[8] != '='; }
    if |b| > 11 { assert b[..11][10] == b[10]; assert b[10] != '='; }
  }

  /** A body whose first letter is 's' or 'S' is no pause directive. */
  lemma NotPause(b: string)
    requires |b| > 0 && LowerChar(b[0]) == 's'
    ensures !HasCount(b, "pause") && Lower(b) != "pause"
  {
    assert Lower(b)[0] == 's';
    if |b| > 6 { assert Lower(b)[..6][0] == Lower(b)[0]; }
  }

  lemma TimedPauseBody(p: string, d: string)
    requires Lower(p) == "pause" && AllDigits(d) && |d| > 0
    ensures ParseBody(p + "=" + d) == TimedPause(DigitsValue(d))
  {
    CountedBody(p, "pause", d);
    TimedStage(p + "=" + d);
  }

  /** <<pause=N>>, in any letter case: a timed pause of N seconds. */
  lemma TimedPauseSpan(p: string, d: string)
    requires Lower(p) == "pause" && AllDigits(d) && |d| > 0
    ensures ParseSpan(Directive(p + "=" + d)) == TimedPause(DigitsValue(d))
  {
    AngleFreeCounted(p, "pause", d);
    TimedPauseBody(p, d);
    DirectiveParsesBody(p + "=" + d);
  }

  /** <<pause>>, in any letter case: the special "atpause" key, which pauses playback. */
  lemma BarePauseSpan(p: string)
    requires Lower(p) == "pause"
    ensures ParseSpan(Directive(p)) == SingleKey("atpause")
  {
    AngleFreeOfLower(p, "pause");
    BareStage(p);
    DirectiveParsesBody(p);
  }

  lemma AngleFreeDigits(a: string, d: string)
    requires AngleFree(a) && AllDigits(d)
    ensures AngleFree(a + d)
  {
    forall m | 0 <= m < |a + d| ensures !IsAngle((a + d)[m]) {
      if m >= |a| { assert (a + d)[m] == d[m - |a|]; }
    }
  }

  lemma ScrollUpBody(d: string)
    requires AllDigits(d) && |d| > 0
    ensures ParseBody("scrollup=" + d) == ScrollOf(d, 1, Directive("scrollup=" + d))
  {
    var b := "scrollup=" + d;
    NotPause(b);
    assert b[..9] == "scrollup=" && b[9..] == d;
    ScrollUpStage(b);
  }

  lemma DownNotUp(b: string)
    requires |b| > 11 && b[..11] == "scrolldown="
    ensures !Matches(ScrollUpPat, b)
  {
    assert b[6] == b[..11][6] == 'd';
    assert b[..9][6] == b[6];
  }

  lemma ScrollDownBody(d: string)
    requires AllDigits(d) && |d| > 0
    ensures ParseBody("scrolldown=" + d) == ScrollOf(d, -1, Directive("scrolldown=" + d))
  {
    var b := "scrolldown=" + d;
    NotPause(b);
    assert b[..11] == "scrolldown=" && b[11..] == d;
    DownNotUp(b);
    ScrollDownStage(b);
  }

  lemma ScrollBodiesAngleFree(d: string)
    requires AllDigits(d)
    ensures AngleFree("scrollup=" + d) && AngleFree("scrolldown=" + d)
  {
    AngleFreeDigits("scrollup=", d);
    AngleFreeDigits("scrolldown=", d);
  }

  /** <<scrollup=N>> and <<scrolldown=N>>: N scroll clicks, direction 1 and -1. When N has more
      digits than int() reads, the ValueError leaves the span raw. */
  lemma ScrollSpan(d: string)
    requires AllDigits(d) && |d| > 0
    ensures |d| <= MaxStrDigits ==> ParseSpan(Directive("scrollup=" + d)) == MouseScroll(DigitsValue(d), 1)
    ensures |d| <= MaxStrDigits ==> ParseSpan(Directive("scrolldown=" + d)) == MouseScroll(DigitsValue(d), -1)
    ensures |d| > MaxStrDigits ==> ParseSpan(Directive("scrollup=" + d)) == Raw(Directive("scrollup=" + d))
    ensures |d| > MaxStrDigits ==> ParseSpan(Directive("scrolldown=" + d)) == Raw(Directive("scrolldown=" + d))
  {
    ScrollBodiesAngleFree(d);
    ScrollUpBody(d);
    DirectiveParsesBody("scrollup=" + d);
    ScrollDownBody(d);
    DirectiveParsesBody("scrolldown=" + d);
  }

  /** A body spelling a repeated-key keyword: not a pause and not a scroll. */
  lemma RepeatNotEarlier(b: string, m: nat)
    requires m < |RepeatTable| && Matches(RepeatPat(RepeatTable[m].0), b)
    ensures !Matches(TimedPausePat, b) && !Matches(BarePausePat, b)
    ensures !Matches(ScrollUpPat, b) && !Matches(ScrollDownPat, b)
  {
    RepeatKeywordFacts(m);
    var kw := RepeatTable[m].0;
    KeywordsExclusive(b, kw, "pause");
    FirstLetter(b, kw);
    assert b[0] != 's';
    NotScroll(b);
  }

  lemma RepeatedBodyParse(b: string, m: nat)
    requires m < |RepeatTable| && Matches(RepeatPat(RepeatTable[m].0), b)
    ensures ParseBody(b) == Counted(RepeatTable[m].1, CountOf(b, RepeatTable[m].0), Directive(b))
  {
    RepeatNotEarlier(b, m);
    RepeatedBodyAt(b, m, 0);
    KeyStage(b);
    RepeatStage(b);
  }

  /** <<KEYWORD>> and <<KEYWORD=N>> for a repeated-key keyword, in any letter case: the table's
      key pressed once, or N times (N may be 0). When N has more digits than int() reads, the
      ValueError leaves the span raw. */
  lemma RepeatedSpan(m: nat, p: string, d: string)
    requires m < |RepeatTable| && Lower(p) == RepeatTable[m].0 && AllDigits(d) && |d| > 0
    ensures ParseSpan(Directive(p)) == RepeatedKey(RepeatTable[m].1, 1)
    ensures |d| <= MaxStrDigits ==> ParseSpan(Directive(p + "=" + d)) == RepeatedKey(RepeatTable[m].1, DigitsValue(d))
    ensures |d| > MaxStrDigits ==> ParseSpan(Directive(p + "=" + d)) == Raw(Directive(p + "=" + d))
  {
    var kw := RepeatTable[m].0;
    RepeatKeywordFacts(m);
    AngleFreeOfLower(p, kw);
    assert !HasCount(p, kw);
    RepeatedBodyParse(p, m);
    DirectiveParsesBody(p);
    AngleFreeCounted(p, kw, d);
    CountedBody(p, kw, d);
    RepeatedBodyParse(p + "=" + d, m);
    DirectiveParsesBody(p + "=" + d);
  }

  /** No table keyword is the word w. */
  predicate NotRepeatKeyword(w: string) {
    forall m :: 0 <= m < |RepeatTable| ==> RepeatTable[m].0 != w
  }

  /** A body that lower-cases to an '='-free word that is not "pause", no repeated-key keyword
      and does not begin with 's': none of the checks before the escape check accepts it. */
  lemma WordNotEarlier(b: string, w: string)
    requires Lower(b) == w && '=' !in w && |w| > 0 && w[0] != 's'
    requires w != "pause" && NotRepeatKeyword(w)
    ensures !Matches(TimedPausePat, b) && !Matches(BarePausePat, b)
    ensures !Matches(ScrollUpPat, b) && !Matches(ScrollDownPat, b)
    ensures RepeatedBody(b, 0) == None
  {
    KeywordsExclusive(b, w, "pause");
    forall m | 0 <= m < |RepeatTable| ensures !Matches(RepeatPat(RepeatTable[m].0), b) {
      RepeatKeywordFacts(m);
      KeywordsExclusive(b, w, RepeatTable[m].0);
    }
    RepeatedBodyNone(b, 0);
    FirstLetter(b, w);
    assert b[0] != 's';
    NotScroll(b);
  }

  lemma EscEnterBody(p: string)
    requires Lower(p) == "esc" || Lower(p) == "escape" || Lower(p) == "enter"
    ensures ParseBody(p) == SingleKey(if Lower(p) == "enter" then "enter" else "esc")
  {
    var w := Lower(p);
    forall m | 0 <= m < |RepeatTable| ensures RepeatTable[m].0 != w { RepeatKeywordFacts(m); }
    WordNotEarlier(p, w);
    KeyStage(p);
    if w == "enter" { EnterStage(p); } else { EscStage(p); }
  }

  lemma EscEnterAngleFree(p: string)
    requires Lower(p) == "esc" || Lower(p) == "escape" || Lower(p) == "enter"
    ensures AngleFree(p)
  {
    WordsAngleFree();
    AngleFreeOfLower(p, Lower(p));
  }

  lemma WordsAngleFree()
    ensures AngleFree("esc") && AngleFree("escape") && AngleFree("enter")
  {
    assert AngleFree("esc");
    assert AngleFree("escape");
  }

  /** <<esc>>, <<escape>> and <<enter>>, in any letter case: the escape and enter keys. */
  lemma EscEnterSpan(p: string)
    requires Lower(p) == "esc" || Lower(p) == "escape" || Lower(p) == "enter"
    ensures ParseSpan(Directive(p)) == SingleKey(if Lower(p) == "enter" then "enter" else "esc")
  {
    EscEnterAngleFree(p);
    EscEnterBody(p);
    DirectiveParsesBody(p);
  }

  /** A body starting with 's' or 'S' and without '=' is no pause, scroll or repeated key. */
  lemma SBodyNotEarlier(b: string)
    requires |b| > 0 && '=' !in b && LowerChar(b[0]) == 's'
    ensures !Matches(TimedPausePat, b) && !Matches(BarePausePat, b)
    ensures !Matches(ScrollUpPat, b) && !Matches(ScrollDownPat, b)
    ensures RepeatedBody(b, 0) == None
  {
    NotPause(b);
    NoEqualsNotScroll(b);
    SBodyNotRepeat(b);
    RepeatedBodyNone(b, 0);
  }

  /** No repeated-key keyword begins with 's'. */
  lemma SBodyNotRepeat(b: string)
    requires |b| > 0 && LowerChar(b[0]) == 's'
    ensures forall m :: 0 <= m < |RepeatTable| ==> !Matches(RepeatPat(RepeatTable[m].0), b)
  {
    forall m | 0 <= m < |RepeatTable| ensures !Matches(RepeatPat(RepeatTable[m].0), b) {
      RepeatKeywordFacts(m);
      FirstLetter(b, RepeatTable[m].0);
    }
  }

  lemma LowerNoEquals(b: string)
    requires '=' !in b
    ensures '=' !in Lower(b)
  {
    forall i | 0 <= i < |b| ensures Lower(b)[i] != '=' { assert b[i] != '='; }
  }

  lemma KeyBody(b: string)
    requires |b| > 0 && '=' !in b
    requires Lower(b) != "pause" && Lower(b) != "esc" && Lower(b) != "escape" && Lower(b) != "enter"
    requires NotRepeatKeyword(Lower(b))
    ensures ParseBody(b) ==
              var keys := Split(b, '+');
              if |keys| == 1 then SingleKey(CanonicalKey(b)) else MultiKeys(NormalizeKeys(keys))
  {
    NoEarlierPattern(b);
    KeyStage(b);
    ChordStage(b);
    SingleOrChord(b);
  }

  /** Such a body is accepted by none of the patterns tried before the key pattern. */
  lemma NoEarlierPattern(b: string)
    requires |b| > 0 && '=' !in b && Lower(b) != "pause" && NotRepeatKeyword(Lower(b))
    ensures EarlierRejects(b)
  {
    if LowerChar(b[0]) == 's' {
      SBodyRejected(b);
    } else {
      LowerNoEquals(b);
      WordRejected(b);
    }
  }

  lemma SBodyRejected(b: string)
    requires |b| > 0 && '=' !in b && LowerChar(b[0]) == 's'
    ensures EarlierRejects(b)
  {
    SBodyNotEarlier(b);
  }

  lemma WordRejected(b: string)
    requires |b| > 0 && '=' !in Lower(b) && Lower(b) != "pause" && NotRepeatKeyword(Lower(b))
    requires LowerChar(b[0]) != 's'
    ensures EarlierRejects(b)
  {
    WordNotEarlier(b, Lower(b));
  }

  /** None of the checks before the escape check accepts the body. */
  predicate EarlierRejects(b: string) {
    && !Matches(TimedPausePat, b) && !Matches(BarePausePat, b)
    && !Matches(ScrollUpPat, b) && !Matches(ScrollDownPat, b)
    && RepeatedBody(b, 0).None?
  }

  /** A body without '+' is one key, named by the whole body. */
  lemma SingleOrChord(b: string)
    ensures (var keys := NormalizeKeys(Split(b, '+'));
             if |keys| == 1 then SingleKey(keys[0]) else MultiKeys(keys))
         == (var keys := Split(b, '+');
             if |keys| == 1 then SingleKey(CanonicalKey(b)) else MultiKeys(NormalizeKeys(keys)))
  {
    if |Split(b, '+')| == 1 {
      JoinSplit(b, '+');
      assert Split(b, '+')[0] == b;
    }
  }

  /** Any non-empty body without '<' or '>' that none of the patterns before the key pattern
      accepts (pause, scroll, repeated key, escape, enter): the '+'-separated key names,
      lower-cased and mapped through the alias table; one name is a single key, several are a
      chord. */
  lemma KeySpan(b: string)
    requires |b| > 0 && AngleFree(b) && EarlierRejects(b)
    requires Lower(b) != "esc" && Lower(b) != "escape" && Lower(b) != "enter"
    ensures ParseSpan(Directive(b)) ==
              var keys := Split(b, '+');
              if |keys| == 1 then SingleKey(CanonicalKey(b)) else MultiKeys(NormalizeKeys(keys))
  {
    KeyStage(b);
    ChordStage(b);
    SingleOrChord(b);
    DirectiveParsesBody(b);
  }

  /** A body without '=' that spells no keyword reaches the key pattern. */
  lemma WordKeySpan(b: string)
    requires |b| > 0 && AngleFree(b) && '=' !in b
    requires Lower(b) !in ["pause", "esc", "escape", "enter"] && Lower(b) !in RepeatKeywords()
    ensures ParseSpan(Directive(b)) ==
              var keys := Split(b, '+');
              if |keys| == 1 then SingleKey(CanonicalKey(b)) else MultiKeys(NormalizeKeys(keys))
  {
    forall m | 0 <= m < |RepeatTable| ensures RepeatTable[m].0 != Lower(b) {
      assert RepeatKeywords()[m] == RepeatTable[m].0;
    }
    NoEarlierPattern(b);
    KeySpan(b);
  }

  /** Bodies with '=' that no counted pattern accepts reach the key pattern too: <<ctrl+=>> is
      the chord of ctrl and '=', <<pause=x>> the single key "pause=x", and <<SCROLLUP=3>>,
      the scroll keyword being case-sensitive, the single key "scrollup=3". */
  lemma EqualsKeySpans()
    ensures ParseSpan(Directive("ctrl+=")) == MultiKeys(["ctrl", "="])
    ensures ParseSpan(Directive("pause=x")) == SingleKey("pause=x")
    ensures ParseSpan(Directive("SCROLLUP=3")) == SingleKey("scrollup=3")
  {
    CtrlEqualsSpan();
    PauseEqualsSpan();
    ScrollUpperSpan();
  }

  lemma CtrlEqualsSpan()
    ensures ParseSpan(Directive("ctrl+=")) == MultiKeys(["ctrl", "="])
  {
    CtrlEqualsRejected();
    KeySpan("ctrl+=");
    CtrlEqualsKeys();
  }

  lemma CtrlEqualsKeys()
    ensures Split("ctrl+=", '+') == ["ctrl", "="]
    ensures NormalizeKeys(["ctrl", "="]) == ["ctrl", "="]
  {
    assert "ctrl+=" == "ctrl" + ['+'] + "=";
    SplitAppendSep("ctrl", '+', "=");
    SplitOfFree("=", '+');
    LowerOfLowerCase("ctrl");
    assert KeyAliases[0] == ("ctrl", "ctrl");
    LowerOfLowerCase("=");
    NoAliasWithEquals("=");
  }

  lemma PauseEqualsSpan()
    ensures ParseSpan(Directive("pause=x")) == SingleKey("pause=x")
  {
    PauseEqualsRejected();
    SingleWordSpan("pause=x");
    NoAliasWithEquals("pause=x");
  }

  lemma ScrollUpperSpan()
    ensures ParseSpan(Directive("SCROLLUP=3")) == SingleKey("scrollup=3")
  {
    ScrollUpperRejected();
    SingleWordSpan("SCROLLUP=3");
    ScrollWordKey();
  }

  lemma ScrollWordKey()
    ensures CanonicalKey("SCROLLUP=3") == "scrollup=3"
  {
    var w := "scrollup=3";
    ScrollUpperLower();
    assert w[8] == '=';
    NoAliasWithEquals(w);
  }

  /** A body without '+' that reaches the key pattern is the single key it names. */
  lemma SingleWordSpan(b: string)
    requires |b| > 0 && AngleFree(b) && EarlierRejects(b) && '+' !in b
    requires Lower(b) != "esc" && Lower(b) != "escape" && Lower(b) != "enter"
    ensures ParseSpan(Directive(b)) == SingleKey(CanonicalKey(b))
  {
    KeySpan(b);
    SplitOfFree(b, '+');
  }

  /** No alias table entry holds '=', so a name with '=' maps to itself. */
  lemma NoAliasWithEquals(w: string)
    requires '=' in w && Lower(w) == w
    ensures CanonicalKey(w) == w
  {
    AliasNamesHaveNoEquals();
    AliasFromAbsent(w, 0);
  }

  lemma AliasNamesHaveNoEquals()
    ensures forall k :: 0 <= k < |KeyAliases| ==> '=' !in KeyAliases[k].0
  {
  }

  lemma {:induction false} AliasFromAbsent(lower: string, from: nat)
    requires from <= |KeyAliases|
    requires forall k :: from <= k < |KeyAliases| ==> KeyAliases[k].0 != lower
    ensures AliasFrom(lower, from) == lower
    decreases |KeyAliases| - from
  {
    if from < |KeyAliases| { AliasFromAbsent(lower, from + 1); }
  }

  /** The letters the repeated-key keywords begin with. */
  predicate RepeatInitial(c: char) {
    c == 'b' || c == 'd' || c == 'u' || c == 'l' || c == 'r' || c == 'h' || c == 'e' || c == 't'
  }

  lemma RepeatFirstLetter(m: nat)
    requires m < |RepeatTable|
    ensures |RepeatTable[m].0| > 0 && RepeatInitial(RepeatTable[m].0[0])
  {
  }

  lemma NoRepeatAt(b: string, m: nat)
    requires |b| > 0 && !RepeatInitial(LowerChar(b[0])) && m < |RepeatTable|
    ensures !Matches(RepeatPat(RepeatTable[m].0), b)
  {
    RepeatFirstLetter(m);
    FirstLetter(b, RepeatTable[m].0);
  }

  /** A body whose first letter begins no repeated-key keyword matches no repeated key. */
  lemma NoRepeatByFirstLetter(b: string)
    requires |b| > 0 && !RepeatInitial(LowerChar(b[0]))
    ensures RepeatedBody(b, 0).None?
  {
    forall m | 0 <= m < |RepeatTable| ensures !Matches(RepeatPat(RepeatTable[m].0), b) {
      NoRepeatAt(b, m);
    }
    RepeatedBodyNone(b, 0);
  }

  /** Lower-casing leaves text without upper-case letters as it is. */
  lemma LowerOfLowerCase(b: string)
    requires forall i :: 0 <= i < |b| ==> !('A' <= b[i] <= 'Z')
    ensures Lower(b) == b
  {
  }

  lemma CtrlEqualsRejected()
    ensures EarlierRejects("ctrl+=")
    ensures Lower("ctrl+=") == "ctrl+=" && AngleFree("ctrl+=")
  {
    var b := "ctrl+=";
    LowerOfLowerCase(b);
    NotScroll(b);
    NoRepeatByFirstLetter(b);
  }

  lemma PauseEqualsRejected()
    ensures EarlierRejects("pause=x")
    ensures Lower("pause=x") == "pause=x" && AngleFree("pause=x")
  {
    var b := "pause=x";
    LowerOfLowerCase(b);
    NotCountedPause(b);
    NotScroll(b);
    NoRepeatByFirstLetter(b);
  }

  lemma NotCountedPause(b: string)
    requires b == "pause=x"
    ensures !Matches(TimedPausePat, b)
  {
    assert b[6..][0] == 'x';
  }

  lemma ScrollUpperRejected()
    ensures EarlierRejects("SCROLLUP=3")
    ensures Lower("SCROLLUP=3") == "scrollup=3" && AngleFree("SCROLLUP=3")
  {
    var b := "SCROLLUP=3";
    ScrollUpperLower();
    NotScroll(b);
    NotPause(b);
    SBodyNotRepeat(b);
    RepeatedBodyNone(b, 0);
  }

  lemma ScrollUpperLower()
    ensures Lower("SCROLLUP=3") == "scrollup=3"
  {
  }

  /** The empty directive <<>> matches nothing and stays raw text. */
  lemma EmptyDirectiveIsRaw()
    ensures ParseSpan(Directive("")) == Raw("<<>>")
  {
    EmptyBodyMatchesNothing();
    RepeatedBodyNone("", 0);
    assert ParseKeyBody("") == Raw(Directive(""));
    KeyStage("");
    DirectiveParsesBody("");
  }

  /** No directive pattern accepts the empty body. */
  lemma EmptyBodyMatchesNothing()
    ensures forall m :: 0 <= m < |RepeatTable| ==> !Matches(RepeatPat(RepeatTable[m].0), "")
    ensures !Matches(TimedPausePat, "") && !Matches(BarePausePat, "")
    ensures !Matches(ScrollUpPat, "") && !Matches(ScrollDownPat, "")
    ensures !Matches(EscPat, "") && !Matches(EnterPat, "") && !Matches(KeyPat, "")
  {
    assert Lower("") == "";
    forall m | 0 <= m < |RepeatTable| ensures !Matches(RepeatPat(RepeatTable[m].0), "") {
      RepeatKeywordFacts(m);
    }
  }

  /** parse_text_to_tokens as a value: one token per span, in order. */
  function Tokenize(text: string, replaceQuadSpacesWithTab: bool): seq<Token> {
    ParseAll(StringTokens(text, replaceQuadSpacesWithTab))
  }

  function ParseAll(spans: seq<string>): (r: seq<Token>)
    ensures |r| == |spans|
    ensures forall k :: 0 <= k < |spans| ==> r[k] == ParseSpan(spans[k])
  {
    if spans == [] then [] else [ParseSpan(spans[0])] + ParseAll(spans[1..])
  }

  /** Tokenizing gives one token per span; the literal text between directives comes through
      as raw strings, unchanged. */
  lemma TokenizeKeepsLiterals(text: string, quad: bool)
    ensures |Tokenize(text, quad)| == |StringTokens(text, quad)|
    ensures forall k :: 0 <= k < |Tokenize(text, quad)| && NoDirective(StringTokens(text, quad)[k]) ==>
              Tokenize(text, quad)[k] == Raw(StringTokens(text, quad)[k])
  {
    forall k | 0 <= k < |Tokenize(text, quad)| && NoDirective(StringTokens(text, quad)[k])
      ensures Tokenize(text, quad)[k] == Raw(StringTokens(text, quad)[k])
    {
      LiteralSpanIsRaw(StringTokens(text, quad)[k]);
    }
  }

  /** parse_text_to_tokens: the accumulating loop over the string tokens. */
  method ParseTextToTokens(text: string, replaceQuadSpacesWithTab: bool) returns (parsed: seq<Token>)
    ensures |parsed| == |StringTokens(text, replaceQuadSpacesWithTab)|
    ensures forall k :: 0 <= k < |parsed| ==>
              parsed[k] == ParseSpan(StringTokens(text, replaceQuadSpacesWithTab)[k])
  {
    var stringTokens := StringTokens(text, replaceQuadSpacesWithTab);
    parsed := [];
    var i := 0;
    while i < |stringTokens|
      invariant 0 <= i <= |stringTokens|
      invariant |parsed| == i
      invariant forall k :: 0 <= k < i ==> parsed[k] == ParseSpan(stringTokens[k])
    {
      parsed := parsed + [ParseSpan(stringTokens[i])];
      i := i + 1;
    }
  }

  /** Tokens that agree with the parse of every string token, in order, are the tokenization. */
  lemma TokenizeByParts(text: string, quad: bool, parsed: seq<Token>)
    requires |parsed| == |StringTokens(text, quad)|
    requires forall k :: 0 <= k < |parsed| ==> parsed[k] == ParseSpan(StringTokens(text, quad)[k])
    ensures parsed == Tokenize(text, quad)
  {
    var spans := StringTokens(text, quad);
    var t := ParseAll(spans);
    assert t == Tokenize(text, quad);
    assert forall k :: 0 <= k < |t| ==> t[k] == parsed[k];
  }

  /** A TextData object: the text it was built from, the fold option, and the tokens. */
  datatype TextData = TextData(originalTextToType: string, replaceQuadSpacesWithTab: bool, textTokens: seq<Token>)

  /** TextData(text, replace_quad_spaces_with_tab): tokenizes the text once, on construction. */
  function NewTextData(text: string, replaceQuadSpacesWithTab: bool): (d: TextData)
    ensures d.originalTextToType == text && d.replaceQuadSpacesWithTab == replaceQuadSpacesWithTab
    ensures |d.textTokens| == |StringTokens(text, replaceQuadSpacesWithTab)|
    ensures forall k :: 0 <= k < |d.textTokens| ==>
              d.textTokens[k] == ParseSpan(StringTokens(text, replaceQuadSpacesWithTab)[k])
  {
    TextData(text, replaceQuadSpacesWithTab, Tokenize(text, replaceQuadSpacesWithTab))
  }
}
