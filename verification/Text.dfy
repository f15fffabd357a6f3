/** The string operations of Go's `strings` package that the profile code relies on. */
module Text {

  /** White space as Go's unicode.IsSpace defines it. */
  predicate IsSpace(c: char) {
    c in {'\t', '\n', '\U{000B}', '\U{000C}', '\r', ' ', '\U{0085}', '\U{00A0}', '\U{1680}',
          '\U{2028}', '\U{2029}', '\U{202F}', '\U{205F}', '\U{3000}'}
    || '\U{2000}' <= c <= '\U{200A}'
  }

  function TrimLeft(s: string): (r: string)
    ensures |r| <= |s|
    ensures r != "" ==> !IsSpace(r[0])
    ensures s != "" && !IsSpace(s[0]) ==> r == s
  {
    if s != "" && IsSpace(s[0]) then TrimLeft(s[1..]) else s
  }

  function TrimRight(s: string): (r: string)
    ensures r <= s
    ensures r != "" ==> !IsSpace(r[|r| - 1])
    ensures s != "" && !IsSpace(s[|s| - 1]) ==> r == s
  {
    if s != "" && IsSpace(s[|s| - 1]) then TrimRight(s[..|s| - 1]) else s
  }

  /** strings.TrimSpace. */
  function TrimSpace(s: string): (r: string)
    ensures r != "" ==> !IsSpace(r[0]) && !IsSpace(r[|r| - 1])
  {
    TrimRight(TrimLeft(s))
  }

  /** Among the ASCII characters these are the blank and the control characters from tab to carriage
      return; no printed one is white space. */
  lemma AsciiSpaces(c: char)
    ensures c < '\U{0080}' ==> (IsSpace(c) <==> c == ' ' || '\t' <= c <= '\r')
  {
  }

  predicate AllSpaces(s: string) {
    forall i :: 0 <= i < |s| ==> IsSpace(s[i])
  }

  /** Trimming takes away white space at both ends and nothing else. */
  lemma TrimTakesSpaces(s: string) returns (before: string, after: string)
    ensures s == before + TrimSpace(s) + after && AllSpaces(before) && AllSpaces(after)
  {
    before := TrimLeftTakes(s);
    after := TrimRightTakes(TrimLeft(s));
  }

  lemma {:induction false} TrimLeftTakes(s: string) returns (before: string)
    ensures s == before + TrimLeft(s) && AllSpaces(before)
  {
    if s != "" && IsSpace(s[0]) {
      var rest := TrimLeftTakes(s[1..]);
      before := [s[0]] + rest;
    } else {
      before := "";
    }
  }

  lemma {:induction false} TrimRightTakes(s: string) returns (after: string)
    ensures s == TrimRight(s) + after && AllSpaces(after)
  {
    if s != "" && IsSpace(s[|s| - 1]) {
      var rest := TrimRightTakes(s[..|s| - 1]);
      after := rest + [s[|s| - 1]];
      assert s == s[..|s| - 1] + [s[|s| - 1]];
    } else {
      after := "";
    }
  }

  /** The two characters are the same up to the case of an ASCII letter. */
  predicate SameLetter(a: char, b: char) {
    a == b || ('A' <= a <= 'Z' && b as int == a as int + 32) || ('A' <= b <= 'Z' && a as int == b as int + 32)
  }

  predicate SameLetters(s: string, t: string) {
    |s| == |t| && forall i :: 0 <= i < |s| ==> SameLetter(s[i], t[i])
  }

  /** Lowering identifies spellings that differ in case, and leaves ASCII text without capitals alone. */
  lemma LowerIgnoresCase(s: string, t: string)
    ensures SameLetters(s, t) ==> ToLower(s) == ToLower(t)
    ensures (forall i :: 0 <= i < |s| ==> s[i] < 'A' || 'Z' < s[i] < '\U{0080}') ==> ToLower(s) == s
  {
  }

  lemma TrimIdempotent(s: string)
    ensures TrimSpace(TrimSpace(s)) == TrimSpace(s)
  {
  }

  /** Lower case of a letter. The two non-ASCII characters that Go maps into ASCII are
      included, so that comparison with an ASCII name is exact. */
  function LowerChar(c: char): char {
    if 'A' <= c <= 'Z' then (c as int + 32) as char
    else if c == '\U{0130}' then 'i'
    else if c == '\U{212A}' then 'k'
    else c
  }

  function ToLower(s: string): string {
    seq(|s|, i requires 0 <= i < |s| => LowerChar(s[i]))
  }

  datatype CutResult = NotFound | Found(before: string, after: string)

  /** strings.Cut(s, "/"): the parts around the first slash. */
  function Cut(s: string): (r: CutResult)
    ensures r.NotFound? <==> '/' !in s
    ensures r.Found? ==> s == r.before + "/" + r.after && '/' !in r.before
  {
    if s == "" then NotFound
    else if s[0] == '/' then Found("", s[1..])
    else match Cut(s[1..])
      case NotFound => NotFound
      case Found(b, a) => Found([s[0]] + b, a)
  }

  lemma {:induction false} CutJoin(before: string, after: string)
    requires '/' !in before
    ensures Cut(before + "/" + after) == Found(before, after)
  {
    if before == "" {
      assert before + "/" + after == "/" + after;
    } else {
      var s := before + "/" + after;
      assert s[1..] == before[1..] + "/" + after;
      CutJoin(before[1..], after);
    }
  }
}
