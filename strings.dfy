/** Text and value helpers shared by the models: an Option type, the scalar JSON values the
    processes exchange, ASCII case mapping, Python's str.replace / str.join / str.split, and
    decimal number text. */
module Strings {

  datatype Option<+T> = None | Some(value: T)

  /** A scalar JSON value as carried in a command or a state broadcast (floats are not modelled). */
  datatype Value = VNull | VBool(b: bool) | VInt(i: int) | VStr(s: string)

  /** Python truthiness of a JSON scalar. */
  predicate Truthy(v: Value) {
    match v
    case VNull => false
    case VBool(b) => b
    case VInt(i) => i != 0
    case VStr(s) => s != ""
  }

  // ---------------------------------------------------------------- ASCII case

  function LowerChar(c: char): char {
    if 'A' <= c <= 'Z' then (c as int + 32) as char else c
  }

  function UpperChar(c: char): char {
    if 'a' <= c <= 'z' then (c as int - 32) as char else c
  }

  /** str.lower() restricted to ASCII letters. */
  function Lower(s: string): (r: string)
    ensures |r| == |s|
    ensures forall i :: 0 <= i < |s| ==> r[i] == LowerChar(s[i])
  {
    if s == [] then [] else [LowerChar(s[0])] + Lower(s[1..])
  }

  /** str.upper() restricted to ASCII letters. */
  function Upper(s: string): (r: string)
    ensures |r| == |s|
    ensures forall i :: 0 <= i < |s| ==> r[i] == UpperChar(s[i])
  {
    if s == [] then [] else [UpperChar(s[0])] + Upper(s[1..])
  }

  lemma {:induction false} LowerAppend(a: string, b: string)
    ensures Lower(a + b) == Lower(a) + Lower(b)
  {
    if a == [] {
      assert a + b == b;
    } else {
      assert (a + b)[1..] == a[1..] + b;
      LowerAppend(a[1..], b);
      assert Lower(a + b) == [LowerChar(a[0])] + (Lower(a[1..]) + Lower(b));
    }
  }

  lemma {:induction false} UpperAppend(a: string, b: string)
    ensures Upper(a + b) == Upper(a) + Upper(b)
  {
    if a == [] {
      assert a + b == b;
    } else {
      assert (a + b)[1..] == a[1..] + b;
      UpperAppend(a[1..], b);
      assert Upper(a + b) == [UpperChar(a[0])] + (Upper(a[1..]) + Upper(b));
    }
  }

  /** Lower-casing forgets an upper-casing done before it. */
  lemma LowerOfUpper(s: string)
    ensures Lower(Upper(s)) == Lower(s)
  {
    assert forall i :: 0 <= i < |s| ==> Lower(Upper(s))[i] == LowerChar(UpperChar(s[i])) == LowerChar(s[i]);
  }

  // ---------------------------------------------------------------- digits and numbers

  predicate IsDigit(c: char) { '0' <= c <= '9' }

  predicate AllDigits(s: string) { forall i :: 0 <= i < |s| ==> IsDigit(s[i]) }

  lemma LowerOfDigits(s: string)
    requires AllDigits(s)
    ensures Lower(s) == s
  {
  }

  /** The value of a run of decimal digits (Python's int() on a string that matched \d+). */
  function DigitsValue(s: string): nat
    requires AllDigits(s)
  {
    if s == [] then 0 else DigitsValue(s[..|s| - 1]) * 10 + (s[|s| - 1] as int - '0' as int)
  }

  function DigitChar(d: nat): (c: char)
    requires d < 10
    ensures IsDigit(c)
  {
    ('0' as int + d) as char
  }

  /** str(n) for a non-negative integer: decimal digits, no leading zero. */
  function NatToString(n: nat): (r: string)
    ensures |r| > 0 && AllDigits(r)
    ensures |r| > 1 ==> r[0] != '0'
  {
    if n < 10 then [DigitChar(n)] else NatToString(n / 10) + [DigitChar(n % 10)]
  }

  /** str(i) for any integer. */
  function IntToString(i: int): string {
    if i < 0 then "-" + NatToString(-i) else NatToString(i)
  }

  /** Reading back the decimal text of a number gives the number. */
  lemma {:induction false} DigitsValueOfNatToString(n: nat)
    ensures DigitsValue(NatToString(n)) == n
  {
    if n >= 10 {
      var s := NatToString(n);
      assert s[..|s| - 1] == NatToString(n / 10);
      DigitsValueOfNatToString(n / 10);
    }
  }

  /** CPython's limit on the decimal digits int() reads and str() writes
      (sys.get_int_max_str_digits(), 4300 unless configured otherwise); past it both raise
      ValueError. */
  const MaxStrDigits: nat := 4300

  /** The number of decimal digits str(i) writes, the sign not counted. */
  function DigitCount(i: int): nat {
    |NatToString(if i < 0 then -i else i)|
  }

  /** int() on a run of decimal digits: None, the ValueError, when the run is longer than the
      limit (leading zeros count). */
  function IntOfDigits(d: string): (r: Option<nat>)
    requires AllDigits(d)
    ensures r.Some? <==> |d| <= MaxStrDigits
    ensures r.Some? ==> r.value == DigitsValue(d)
  {
    if |d| <= MaxStrDigits then Some(DigitsValue(d)) else None
  }

  /** int(s) on a string: an optional sign followed by one to MaxStrDigits decimal digits. */
  function ParseInt(s: string): (r: Option<int>)
    ensures r.Some? <==> (AllDigits(s) && 0 < |s| <= MaxStrDigits) ||
                         (1 < |s| <= MaxStrDigits + 1 && (s[0] == '-' || s[0] == '+') && AllDigits(s[1..]))
  {
    if |s| > 0 && (s[0] == '-' || s[0] == '+') then
      if |s| > 1 && AllDigits(s[1..]) then
        match IntOfDigits(s[1..])
        case Some(v) => Some(if s[0] == '-' then -(v as int) else v)
        case None => None
      else None
    else if |s| > 0 && AllDigits(s) then
      match IntOfDigits(s)
      case Some(v) => Some(v as int)
      case None => None
    else None
  }

  /** str() and int() are inverse on integers within the digit limit; past it int() refuses
      the text. */
  lemma ParseIntOfIntToString(i: int)
    ensures ParseInt(IntToString(i)) == if DigitCount(i) <= MaxStrDigits then Some(i) else None
  {
    if i < 0 {
      DigitsValueOfNatToString(-i);
      ParseNegative(NatToString(-i));
    } else {
      DigitsValueOfNatToString(i);
      ParseUnsigned(NatToString(i));
    }
  }

  lemma ParseNegative(d: string)
    requires |d| > 0 && AllDigits(d)
    ensures ParseInt("-" + d) == if |d| <= MaxStrDigits then Some(-(DigitsValue(d) as int)) else None
  {
    var s := "-" + d;
    assert s[0] == '-' && s[1..] == d;
  }

  lemma ParseUnsigned(d: string)
    requires |d| > 0 && AllDigits(d)
    ensures ParseInt(d) == if |d| <= MaxStrDigits then Some(DigitsValue(d) as int) else None
  {
    assert IsDigit(d[0]);
  }

  // ---------------------------------------------------------------- substrings

  /** pat occurs in s starting at position i. */
  predicate OccursAt(s: string, pat: string, i: int) {
    0 <= i && i + |pat| <= |s| && s[i..i + |pat|] == pat
  }

  predicate Occurs(s: string, pat: string) {
    exists i :: 0 <= i <= |s| && OccursAt(s, pat, i)
  }

  /** Python's s.replace(pat, rep): left to right, non-overlapping. */
  function ReplaceAll(s: string, pat: string, rep: string): string
    requires |pat| > 0
    decreases |s|
  {
    if |s| < |pat| then s
    else if s[..|pat|] == pat then rep + ReplaceAll(s[|pat|..], pat, rep)
    else [s[0]] + ReplaceAll(s[1..], pat, rep)
  }

  /** Every character of the result comes from the input, or from the replacement when the
      pattern occurs at all. */
  lemma {:induction false} ReplaceAllChars(s: string, pat: string, rep: string, c: char)
    requires |pat| > 0
    requires c in ReplaceAll(s, pat, rep)
    ensures c in s || (c in rep && Occurs(s, pat))
    decreases |s|
  {
    if |s| < |pat| {
    } else if s[..|pat|] == pat {
      assert OccursAt(s, pat, 0);
      if c !in rep {
        ReplaceAllChars(s[|pat|..], pat, rep, c);
        assert c in s[|pat|..];
      }
    } else if c != s[0] {
      ReplaceAllChars(s[1..], pat, rep, c);
      if c !in s[1..] {
        var i :| 0 <= i <= |s[1..]| && OccursAt(s[1..], pat, i);
        assert s[i + 1..i + 1 + |pat|] == s[1..][i..i + |pat|];
        assert OccursAt(s, pat, i + 1);
      }
    }
  }

  /** A pattern that occurs is replaced at least once, so the replacement shows in the result. */
  lemma {:induction false} ReplaceAllShowsRep(s: string, pat: string, rep: string, c: char)
    requires |pat| > 0 && Occurs(s, pat) && c in rep
    ensures c in ReplaceAll(s, pat, rep)
    decreases |s|
  {
    var i :| 0 <= i <= |s| && OccursAt(s, pat, i);
    if s[..|pat|] != pat {
      assert i != 0;
      assert s[1..][i - 1..i - 1 + |pat|] == s[i..i + |pat|];
      assert OccursAt(s[1..], pat, i - 1);
      ReplaceAllShowsRep(s[1..], pat, rep, c);
    }
  }

  /** Replacing a one-character pattern works character by character, so it distributes over
      concatenation. */
  lemma {:induction false} ReplaceCharConcat(u: string, v: string, x: char, rep: string)
    ensures ReplaceAll(u + v, [x], rep) == ReplaceAll(u, [x], rep) + ReplaceAll(v, [x], rep)
    decreases |u|
  {
    if u == [] {
      assert u + v == v;
    } else {
      assert (u + v)[1..] == u[1..] + v;
      assert (u + v)[..1] == u[..1];
      ReplaceCharConcat(u[1..], v, x, rep);
      if u[..1] == [x] {
        assert ReplaceAll(u, [x], rep) == rep + ReplaceAll(u[1..], [x], rep);
      } else {
        assert ReplaceAll(u, [x], rep) == [u[0]] + ReplaceAll(u[1..], [x], rep);
        assert ReplaceAll(u + v, [x], rep) == [u[0]] + ReplaceAll(u[1..] + v, [x], rep);
      }
    }
  }

  /** A one-character pattern absent from the text leaves it as it is. */
  lemma {:induction false} ReplaceCharAbsent(s: string, x: char, rep: string)
    requires x !in s
    ensures ReplaceAll(s, [x], rep) == s
    decreases |s|
  {
    if s != [] {
      assert s[0] in s && s[..1] != [x];
      ReplaceCharAbsent(s[1..], x, rep);
    }
  }

  /** A one-character text is replaced exactly when it is the pattern. */
  lemma ReplaceCharSingle(c: char, x: char, rep: string)
    ensures ReplaceAll([c], [x], rep) == if c == x then rep else [c]
  {
    assert [c][1..] == [];
  }

  /** Replacing a one-character pattern by text without that character removes it entirely. */
  lemma {:induction false} ReplaceAllRemovesChar(s: string, c: char, rep: string)
    requires c !in rep
    ensures c !in ReplaceAll(s, [c], rep)
    decreases |s|
  {
    if |s| >= 1 {
      if s[..1] == [c] {
        ReplaceAllRemovesChar(s[1..], c, rep);
      } else {
        assert s[0] != c;
        ReplaceAllRemovesChar(s[1..], c, rep);
      }
    }
  }

  /** A string in which the pattern does not occur is left as it is. */
  lemma {:induction false} ReplaceAllAbsent(s: string, pat: string, rep: string)
    requires |pat| > 0
    requires !Occurs(s, pat)
    ensures ReplaceAll(s, pat, rep) == s
    decreases |s|
  {
    if |s| >= |pat| {
      assert !OccursAt(s, pat, 0);
      forall i | OccursAt(s[1..], pat, i) ensures OccursAt(s, pat, i + 1) {
        assert s[i + 1..i + 1 + |pat|] == s[1..][i..i + |pat|];
      }
      ReplaceAllAbsent(s[1..], pat, rep);
    }
  }

  // ---------------------------------------------------------------- join and split

  /** Python's sep.join(parts). */
  function Join(sep: string, parts: seq<string>): string {
    if |parts| == 0 then ""
    else if |parts| == 1 then parts[0]
    else parts[0] + sep + Join(sep, parts[1..])
  }

  /** Python's s.split(c) for a one-character separator: never an empty list. */
  function Split(s: string, c: char): (parts: seq<string>)
    ensures |parts| >= 1
  {
    if s == [] then [""]
    else if s[0] == c then [""] + Split(s[1..], c)
    else var rest := Split(s[1..], c); [[s[0]] + rest[0]] + rest[1..]
  }

  /** No part of a split contains the separator. */
  lemma {:induction false} SplitPartsFree(s: string, c: char)
    ensures forall k :: 0 <= k < |Split(s, c)| ==> c !in Split(s, c)[k]
  {
    if s != [] { SplitPartsFree(s[1..], c); }
  }

  /** Joining the parts of a split with the separator gives back the text. */
  lemma {:induction false} JoinSplit(s: string, c: char)
    ensures Join([c], Split(s, c)) == s
  {
    if s != [] {
      JoinSplit(s[1..], c);
      var rest := Split(s[1..], c);
      assert s == [s[0]] + s[1..];
      if s[0] == c {
        var parts := [""] + rest;
        assert Split(s, c) == parts && parts[1..] == rest;
        assert Join([c], parts) == "" + [c] + Join([c], rest);
      } else if |rest| == 1 {
        assert Split(s, c) == [[s[0]] + rest[0]];
        assert Join([c], rest) == rest[0];
      } else {
        var parts := [[s[0]] + rest[0]] + rest[1..];
        assert Split(s, c) == parts && parts[1..] == rest[1..];
        assert Join([c], parts) == [s[0]] + rest[0] + [c] + Join([c], rest[1..]);
        assert Join([c], rest) == rest[0] + [c] + Join([c], rest[1..]);
      }
    }
  }

  lemma {:induction false} SplitOfFree(a: string, c: char)
    requires c !in a
    ensures Split(a, c) == [a]
  {
    if a != [] {
      assert a[0] in a;
      SplitOfFree(a[1..], c);
      assert [a[0]] + a[1..] == a;
    }
  }

  lemma {:induction false} SplitAppendSep(a: string, c: char, b: string)
    requires c !in a
    ensures Split(a + [c] + b, c) == [a] + Split(b, c)
  {
    if a == [] {
      assert a + [c] + b == [c] + b;
      assert ([c] + b)[1..] == b;
    } else {
      assert (a + [c] + b)[1..] == a[1..] + [c] + b;
      SplitAppendSep(a[1..], c, b);
      assert [a[0]] + a[1..] == a;
    }
  }

  /** Splitting what was joined gives back the parts, when no part holds the separator. */
  lemma {:induction false} SplitJoin(parts: seq<string>, c: char)
    requires |parts| >= 1
    requires forall k :: 0 <= k < |parts| ==> c !in parts[k]
    ensures Split(Join([c], parts), c) == parts
  {
    if |parts| == 1 {
      SplitOfFree(parts[0], c);
    } else {
      SplitJoin(parts[1..], c);
      SplitAppendSep(parts[0], c, Join([c], parts[1..]));
      assert [parts[0]] + parts[1..] == parts;
    }
  }
}
