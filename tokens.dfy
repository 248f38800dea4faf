/** The tokens the tokenizer produces (the dataclasses of data.py) and their preview strings
    (their __str__ methods). */
module Tokens {
  import opened Strings

  /** One unit of playback. A span that matched no directive stays the raw string itself. */
  datatype Token =
    | Raw(text: string)
    | SingleKey(key: string)
    | MultiKeys(keys: seq<string>)
    | TimedPause(time: nat)                              // seconds, parsed from decimal digits
    | MouseScroll(scrollCount: nat, scrollDirection: int)
    | RepeatedKey(key: string, count: nat)

  /** str(token). A timed pause prints its time as Python prints a whole float ("5.0"). */
  function Render(t: Token): string {
    match t
    case Raw(text) => text
    case SingleKey(key) => if Upper(key) == "SPACE" then " " else Upper(key)
    case MultiKeys(keys) => Upper(Join("+", keys))
    case TimedPause(time) => Upper("PAUSE:" + NatToString(time) + ".0")
    case MouseScroll(c, d) => Upper("SCROLL:C" + IntToString(c) + "|D" + IntToString(d))
    case RepeatedKey(key, count) => if count == 1 then Upper(key) else Upper(key) + "x" + NatToString(count)
  }

  /** One entry of the playback preview: "[ " + str(token) + " ]". */
  function PreviewEntry(t: Token): string {
    "[ " + Render(t) + " ]"
  }

  /** The preview list built from a token list, one entry per token. */
  function PreviewOf(ts: seq<Token>): (p: seq<string>)
    ensures |p| == |ts|
    ensures forall i :: 0 <= i < |ts| ==> p[i] == PreviewEntry(ts[i])
  {
    if ts == [] then [] else [PreviewEntry(ts[0])] + PreviewOf(ts[1..])
  }

  /** The preview of a longer list is the preview of its prefix plus the last token's entry. */
  lemma {:induction false} PreviewOfAppend(ts: seq<Token>, t: Token)
    ensures PreviewOf(ts + [t]) == PreviewOf(ts) + [PreviewEntry(t)]
  {
    if ts != [] {
      assert (ts + [t])[1..] == ts[1..] + [t];
      PreviewOfAppend(ts[1..], t);
    } else {
      assert ts + [t] == [t];
    }
  }

  // ---------------------------------------------------------------- reading a preview back

  /** The count shown by a rendered repeated key: the digits after the lower-case 'x', else 1. */
  function CountShown(r: string): nat {
    if 'x' in r then
      var i := IndexOf(r, 'x');
      if AllDigits(r[i + 1..]) then DigitsValue(r[i + 1..]) else 0
    else 1
  }

  function IndexOf(s: string, c: char): (i: nat)
    requires c in s
    ensures i < |s| && s[i] == c && c !in s[..i]
  {
    if s[0] == c then 0 else 1 + IndexOf(s[1..], c)
  }

  lemma UpperHasNoLowerX(k: string)
    ensures 'x' !in Upper(k)
  {
  }

  /** A rendered repeated key carries the lower-case 'x' exactly when its count is not 1, and
      the count it shows is the token's count. */
  lemma RepeatedKeyRenderShowsCount(k: string, n: nat)
    ensures 'x' in Render(RepeatedKey(k, n)) <==> n != 1
    ensures CountShown(Render(RepeatedKey(k, n))) == n
  {
    UpperHasNoLowerX(k);
    var r := Render(RepeatedKey(k, n));
    if n != 1 {
      var u := Upper(k);
      assert r == u + "x" + NatToString(n);
      assert r[|u|] == 'x';
      var i := IndexOf(r, 'x');
      assert r[..|u|] == u;
      assert i == |u|;
      assert r[i + 1..] == NatToString(n);
      DigitsValueOfNatToString(n);
    } else {
      assert r == Upper(k);
    }
  }

  /** A space key previews as a blank. */
  lemma SpaceRendersAsBlank()
    ensures Render(SingleKey("space")) == " "
  {
    assert Upper("space") == "SPACE";
  }

  lemma UpperJoin(parts: seq<string>, c: char)
    requires c == UpperChar(c)
    ensures Upper(Join([c], parts)) == Join([c], UpperAll(parts))
  {
    if |parts| > 1 {
      UpperJoin(parts[1..], c);
      UpperAppend(parts[0] + [c], Join([c], parts[1..]));
      UpperAppend(parts[0], [c]);
      assert UpperAll(parts)[1..] == UpperAll(parts[1..]);
    }
  }

  function UpperAll(parts: seq<string>): (r: seq<string>)
    ensures |r| == |parts|
    ensures forall k :: 0 <= k < |parts| ==> r[k] == Upper(parts[k])
  {
    if parts == [] then [] else [Upper(parts[0])] + UpperAll(parts[1..])
  }

  /** Splitting a rendered chord at '+' gives its key names, upper-cased, in order. */
  lemma MultiKeysRenderSplits(keys: seq<string>)
    requires |keys| >= 1
    requires forall k :: 0 <= k < |keys| ==> '+' !in keys[k]
    ensures Split(Render(MultiKeys(keys)), '+') == UpperAll(keys)
  {
    UpperJoin(keys, '+');
    assert forall k :: 0 <= k < |keys| ==> '+' !in UpperAll(keys)[k];
    SplitJoin(UpperAll(keys), '+');
  }
}
