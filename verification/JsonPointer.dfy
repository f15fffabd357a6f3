/** The places that schema violations are reported at, printed as JSON Pointers (RFC 6901). */
module JsonPointer {

  // ---------- printing ----------

  /** strings.ReplaceAll for a pattern of one character. */
  function ReplaceAll(s: string, c: char, sub: string): string {
    if s == "" then ""
    else (if s[0] == c then sub else [s[0]]) + ReplaceAll(s[1..], c, sub)
  }

  function Escape(s: string): string {
    ReplaceAll(ReplaceAll(s, '~', "~0"), '/', "~1")
  }

  /** Both replacements in one pass. */
  function EscapeOnce(s: string): string {
    if s == "" then "" else EscapeChar(s[0]) + EscapeOnce(s[1..])
  }

  function EscapeChar(c: char): string {
    if c == '~' then "~0" else if c == '/' then "~1" else [c]
  }

  lemma {:induction false} ReplaceInSum(a: string, b: string, c: char, sub: string)
    ensures ReplaceAll(a + b, c, sub) == ReplaceAll(a, c, sub) + ReplaceAll(b, c, sub)
  {
    if a == "" {
      assert a + b == b;
    } else {
      assert (a + b)[1..] == a[1..] + b;
      ReplaceInSum(a[1..], b, c, sub);
    }
  }

  /** The two replacements, in the order in which they are made, are the one pass. */
  lemma {:induction false} EscapeIsOnePass(s: string)
    ensures Escape(s) == EscapeOnce(s)
  {
    if s != "" {
      var first := if s[0] == '~' then "~0" else [s[0]];
      ReplaceInSum(first, ReplaceAll(s[1..], '~', "~0"), '/', "~1");
      ReplaceFirst(s[0]);
      EscapeIsOnePass(s[1..]);
    }
  }

  lemma ReplaceFirst(c: char)
    ensures ReplaceAll(if c == '~' then "~0" else [c], '/', "~1") == EscapeChar(c)
  {
    assert ReplaceAll("", '/', "~1") == "";
    assert "~0"[1..] == "0" && "0"[1..] == "";
    assert ReplaceAll("0", '/', "~1") == "0";
    assert [c][1..] == "";
  }

  /** In the other order they are the one pass only for a token without a slash. */
  lemma {:induction false} OrderMatters(s: string)
    ensures ReplaceAll(ReplaceAll(s, '/', "~1"), '~', "~0") == EscapeOnce(s) <==> '/' !in s
  {
    var swapped := ReplaceAll(ReplaceAll(s, '/', "~1"), '~', "~0");
    if s != "" {
      var first := if s[0] == '/' then "~1" else [s[0]];
      ReplaceInSum(first, ReplaceAll(s[1..], '/', "~1"), '~', "~0");
      assert [s[0]][1..] == "" && "~1"[1..] == "1" && "1"[1..] == "";
      assert ReplaceAll("1", '~', "~0") == "1" + ReplaceAll("", '~', "~0");
      OrderMatters(s[1..]);
      SwappedIsLonger(s[1..]);
      if s[0] == '/' {
        assert swapped == "~01" + ReplaceAll(ReplaceAll(s[1..], '/', "~1"), '~', "~0");
        assert swapped[1] == '0' && EscapeOnce(s)[1] == '1';
      } else {
        var rest := ReplaceAll(ReplaceAll(s[1..], '/', "~1"), '~', "~0");
        assert swapped == EscapeChar(s[0]) + rest;
        assert swapped[|EscapeChar(s[0])|..] == rest && EscapeOnce(s)[|EscapeChar(s[0])|..] == EscapeOnce(s[1..]);
      }
    }
  }

  lemma SwappedIsLonger(s: string)
    ensures |EscapeOnce(s)| >= |s|
  {
  }

  function Print(tokens: seq<string>): string {
    if tokens == [] then "" else "/" + Escape(tokens[0]) + Print(tokens[1..])
  }

  method JsonPointerFromTokens(tokens: seq<string>) returns (p: string)
    ensures p == Print(tokens)
  {
    if |tokens| == 0 {
      return "";
    }
    p := "";
    for i := 0 to |tokens|
      invariant p == Print(tokens[..i])
    {
      PrintOneMore(tokens[..i], tokens[i]);
      assert tokens[..i + 1] == tokens[..i] + [tokens[i]];
      p := p + "/";
      p := p + Escape(tokens[i]);
    }
    assert tokens[..|tokens|] == tokens;
  }

  lemma {:induction false} PrintOneMore(tokens: seq<string>, token: string)
    ensures Print(tokens + [token]) == Print(tokens) + "/" + Escape(token)
    decreases |tokens|
  {
    hide Escape;
    if tokens == [] {
      assert [] + [token] == [token];
      assert Print([token]) == "/" + Escape(token) + Print([]);
    } else {
      assert (tokens + [token])[1..] == tokens[1..] + [token];
      PrintOneMore(tokens[1..], token);
    }
  }

  // ---------- reading, as section 4 of RFC 6901 prescribes ----------

  /** Every `~c` replaced by `sub`, from left to right. */
  function ReplacePair(s: string, c: char, sub: char): string {
    if s == "" then ""
    else if |s| >= 2 && s[0] == '~' && s[1] == c then [sub] + ReplacePair(s[2..], c, sub)
    else [s[0]] + ReplacePair(s[1..], c, sub)
  }

  /** First every `~1`, then every `~0`. */
  function Unescape(s: string): string {
    ReplacePair(ReplacePair(s, '1', '/'), '0', '~')
  }

  /** Section 3: a tilde is always followed by 0 or 1. */
  predicate ValidToken(s: string) {
    s == "" ||
    (if s[0] == '~' then |s| >= 2 && (s[1] == '0' || s[1] == '1') && ValidToken(s[2..]) else ValidToken(s[1..]))
  }

  /** The parts between slashes. */
  function Split(s: string): (parts: seq<string>)
    ensures |parts| >= 1
  {
    if s == "" then [""]
    else if s[0] == '/' then [""] + Split(s[1..])
    else
      var rest := Split(s[1..]);
      [[s[0]] + rest[0]] + rest[1..]
  }

  datatype Decoded = Malformed | Tokens(tokens: seq<string>)

  function UnescapeAll(parts: seq<string>): seq<string> {
    seq(|parts|, i requires 0 <= i < |parts| => Unescape(parts[i]))
  }

  predicate AllValid(parts: seq<string>) {
    forall i :: 0 <= i < |parts| ==> ValidToken(parts[i])
  }

  function Decode(p: string): Decoded {
    if p == "" then Tokens([])
    else if p[0] != '/' || !AllValid(Split(p[1..])) then Malformed
    else Tokens(UnescapeAll(Split(p[1..])))
  }

  // ---------- one undoes the other ----------

  lemma {:induction false} EscapedToken(s: string)
    ensures Unescape(Escape(s)) == s && ValidToken(Escape(s)) && '/' !in Escape(s)
  {
    EscapeIsOnePass(s);
    SlashesBack(s);
    TildesBack(s);
    EscapedIsValid(s);
  }

  lemma {:induction false} EscapedIsValid(s: string)
    ensures ValidToken(EscapeOnce(s)) && '/' !in EscapeOnce(s)
  {
    if s != "" {
      EscapedIsValid(s[1..]);
      var e, rest := EscapeOnce(s), EscapeOnce(s[1..]);
      if s[0] == '~' || s[0] == '/' { assert e[2..] == rest; } else { assert e[1..] == rest; }
    }
  }

  lemma {:induction false} SlashesBack(s: string)
    ensures ReplacePair(EscapeOnce(s), '1', '/') == ReplaceAll(s, '~', "~0")
  {
    if s != "" {
      SlashesBack(s[1..]);
      var e, rest := EscapeOnce(s), EscapeOnce(s[1..]);
      if s[0] == '/' {
        assert e[2..] == rest;
      } else if s[0] == '~' {
        assert e[1..] == "0" + rest;
        assert ("0" + rest)[1..] == rest;
        assert ReplacePair(e[1..], '1', '/') == "0" + ReplacePair(rest, '1', '/');
      } else {
        assert e[1..] == rest;
      }
    }
  }

  lemma {:induction false} TildesBack(s: string)
    ensures ReplacePair(ReplaceAll(s, '~', "~0"), '0', '~') == s
  {
    if s != "" {
      TildesBack(s[1..]);
      var e, rest := ReplaceAll(s, '~', "~0"), ReplaceAll(s[1..], '~', "~0");
      if s[0] == '~' { assert e[2..] == rest; } else { assert e[1..] == rest; }
    }
  }

  lemma {:induction false} SplitToken(token: string, rest: string)
    requires '/' !in token
    ensures Split(token + "/" + rest) == [token] + Split(rest)
    ensures Split(token) == [token]
  {
    var s := token + "/" + rest;
    if token == "" {
      assert s == "/" + rest;
      assert s[1..] == rest;
    } else {
      assert token[0] in token && s[1..] == token[1..] + "/" + rest;
      SplitToken(token[1..], rest);
      assert Split(s) == [[s[0]] + Split(s[1..])[0]] + Split(s[1..])[1..];
      assert [token[0]] + token[1..] == token;
    }
  }

  /** Reading what was printed gives the tokens back, for every list of tokens. */
  lemma {:induction false} DecodePrinted(tokens: seq<string>)
    ensures Decode(Print(tokens)) == Tokens(tokens)
    decreases |tokens|
  {
    hide Escape, Unescape, ValidToken;
    if tokens != [] {
      var first, rest := Escape(tokens[0]), tokens[1..];
      EscapedToken(tokens[0]);
      DecodePrinted(rest);
      if rest == [] {
        assert Print(tokens)[1..] == first;
        SplitToken(first, "");
        assert UnescapeAll([first]) == tokens;
      } else {
        var tail := Print(rest)[1..];
        assert Print(rest) == "/" + tail;
        assert Print(tokens)[1..] == first + "/" + tail;
        SplitToken(first, tail);
        assert UnescapeAll([first] + Split(tail)) == [tokens[0]] + UnescapeAll(Split(tail));
      }
    }
  }

  /** Different places are printed differently. */
  lemma {:induction false} PrintInjective(a: seq<string>, b: seq<string>)
    ensures Print(a) == Print(b) <==> a == b
  {
    DecodePrinted(a);
    DecodePrinted(b);
  }

  // ---------- and the other way round ----------

  lemma {:induction false} ValidTokenIsEscaped(t: string) returns (s: string)
    requires ValidToken(t) && '/' !in t
    ensures Escape(s) == t
  {
    if t == "" {
      s := "";
    } else if t[0] == '~' {
      var rest := ValidTokenIsEscaped(t[2..]);
      s := [if t[1] == '0' then '~' else '/'] + rest;
      assert s[1..] == rest;
      EscapeIsOnePass(rest);
      EscapeIsOnePass(s);
    } else {
      var rest := ValidTokenIsEscaped(t[1..]);
      s := [t[0]] + rest;
      assert s[1..] == rest && t[0] in t;
      EscapeIsOnePass(rest);
      EscapeIsOnePass(s);
    }
  }

  function Join(parts: seq<string>): string {
    if parts == [] then "" else "/" + parts[0] + Join(parts[1..])
  }

  lemma {:induction false} JoinOfSplit(s: string)
    ensures Join(Split(s)) == "/" + s
  {
    if s == "" {
      assert Join([""]) == "/" + Join([]);
    } else {
      var rest := Split(s[1..]);
      JoinOfSplit(s[1..]);
      if s[0] == '/' {
        assert ([""] + rest)[1..] == rest;
      } else {
        JoinLonger(s[0], rest, s[1..]);
        assert [s[0]] + s[1..] == s;
      }
    }
  }

  lemma JoinLonger(c: char, parts: seq<string>, s: string)
    requires parts != [] && Join(parts) == "/" + s
    ensures Join([[c] + parts[0]] + parts[1..]) == "/" + ([c] + s)
  {
    var longer := [[c] + parts[0]] + parts[1..];
    assert longer[1..] == parts[1..];
    AfterSlash(parts[0], Join(parts[1..]), s);
    assert [c] + parts[0] + Join(parts[1..]) == [c] + (parts[0] + Join(parts[1..]));
  }

  lemma AfterSlash(part: string, rest: string, s: string)
    requires "/" + part + rest == "/" + s
    ensures part + rest == s
  {
    assert ("/" + part + rest)[1..] == part + rest;
  }

  lemma {:induction false} PartsHaveNoSlash(s: string)
    ensures forall i :: 0 <= i < |Split(s)| ==> '/' !in Split(s)[i]
  {
    if s != "" { PartsHaveNoSlash(s[1..]); }
  }

  lemma {:induction false} PrintParts(parts: seq<string>)
    requires AllValid(parts) && forall i :: 0 <= i < |parts| ==> '/' !in parts[i]
    ensures Print(UnescapeAll(parts)) == Join(parts)
    decreases |parts|
  {
    hide Escape, Unescape, ValidToken;
    if parts != [] {
      var s := ValidTokenIsEscaped(parts[0]);
      EscapedToken(s);
      PrintParts(parts[1..]);
      assert UnescapeAll(parts)[1..] == UnescapeAll(parts[1..]);
    }
  }

  /** Every well formed pointer is the print of what it reads as: printing and reading are inverse
      to each other. */
  lemma {:induction false} PrintDecoded(p: string)
    requires Decode(p).Tokens?
    ensures Print(Decode(p).tokens) == p
  {
    if p != "" {
      JoinOfSplit(p[1..]);
      PartsHaveNoSlash(p[1..]);
      PrintParts(Split(p[1..]));
    }
  }

  // ---------- the report ----------

  /** The tree of causes that the schema library returns; a cause may be missing. */
  datatype ErrorTree = Missing | Violation(location: seq<string>, message: string, causes: seq<ErrorTree>)

  datatype Issue = Issue(path: string, message: string)

  /** The leaves, from left to right. */
  function Leaves(e: ErrorTree): seq<ErrorTree> {
    match e
    case Missing => []
    case Violation(_, _, causes) => if causes == [] then [e] else LeavesOfAll(causes)
  }

  function LeavesOfAll(causes: seq<ErrorTree>): seq<ErrorTree> {
    if causes == [] then [] else Leaves(causes[0]) + LeavesOfAll(causes[1..])
  }

  /** A node of the tree, by the causes that lead to it. */
  function NodeAt(e: ErrorTree, at: seq<nat>): ErrorTree {
    if at == [] then e
    else if e.Violation? && at[0] < |e.causes| then NodeAt(e.causes[at[0]], at[1..])
    else Missing
  }

  predicate IsLeafAt(e: ErrorTree, at: seq<nat>) {
    NodeAt(e, at).Violation? && NodeAt(e, at).causes == []
  }

  /** Where the two ways part, `a` goes further to the left. */
  predicate LeftOf(a: seq<nat>, b: seq<nat>) {
    a != [] && b != [] && (a[0] < b[0] || (a[0] == b[0] && LeftOf(a[1..], b[1..])))
  }

  ghost predicate FromLeftToRight(ats: seq<seq<nat>>) {
    forall i, j :: 0 <= i < j < |ats| ==> LeftOf(ats[i], ats[j])
  }

  ghost predicate ListsLeaves(e: ErrorTree, ats: seq<seq<nat>>, leaves: seq<ErrorTree>) {
    |ats| == |leaves| && FromLeftToRight(ats) &&
    (forall i :: 0 <= i < |ats| ==> IsLeafAt(e, ats[i]) && NodeAt(e, ats[i]) == leaves[i]) &&
    forall at :: IsLeafAt(e, at) ==> at in ats
  }

  /** The same for a list of causes, whose first one has the number `first`. */
  ghost predicate ListsCauses(causes: seq<ErrorTree>, first: nat, ats: seq<seq<nat>>, leaves: seq<ErrorTree>) {
    |ats| == |leaves| && FromLeftToRight(ats) &&
    (forall i :: 0 <= i < |ats| ==> IsCauseAt(causes, first, ats[i], leaves[i])) &&
    forall k: nat, at :: k < |causes| && IsLeafAt(causes[k], at) ==> [first + k] + at in ats
  }

  predicate IsCauseAt(causes: seq<ErrorTree>, first: nat, at: seq<nat>, leaf: ErrorTree) {
    at != [] && first <= at[0] < first + |causes| &&
    IsLeafAt(causes[at[0] - first], at[1..]) && NodeAt(causes[at[0] - first], at[1..]) == leaf
  }

  /** The list of leaves has every node without causes, from left to right. */
  lemma {:induction false} LeavesInOrder(e: ErrorTree) returns (ats: seq<seq<nat>>)
    ensures ListsLeaves(e, ats, Leaves(e))
    decreases e
  {
    match e
    case Missing => ats := [];
    case Violation(_, _, causes) =>
      if causes == [] {
        ats := [[]];
        forall at | IsLeafAt(e, at) ensures at in ats { assert at == []; }
      } else {
        ats := CausesInOrder(causes, 0);
        forall at | IsLeafAt(e, at) ensures at in ats {
          assert at != [] && at == [at[0]] + at[1..];
          assert IsLeafAt(causes[at[0]], at[1..]);
          assert [0 + at[0]] + at[1..] in ats;
        }
      }
  }

  lemma {:induction false} CausesInOrder(causes: seq<ErrorTree>, first: nat) returns (ats: seq<seq<nat>>)
    ensures ListsCauses(causes, first, ats, LeavesOfAll(causes))
    decreases causes
  {
    hide ListsLeaves, ListsCauses;
    if causes == [] {
      ats := [];
      NoCauses(first);
    } else {
      var here := LeavesInOrder(causes[0]);
      var rest := CausesInOrder(causes[1..], first + 1);
      var mine := Prefixed(here, first);
      ats := mine + rest;
      FirstCauseThenRest(causes, first, here, Leaves(causes[0]), rest, LeavesOfAll(causes[1..]));
    }
  }

  lemma NoCauses(first: nat)
    ensures ListsCauses([], first, [], [])
  {
  }

  function Prefixed(ats: seq<seq<nat>>, first: nat): seq<seq<nat>> {
    seq(|ats|, i requires 0 <= i < |ats| => [first] + ats[i])
  }

  lemma FirstCauseThenRest(causes: seq<ErrorTree>, first: nat, here: seq<seq<nat>>, leaves: seq<ErrorTree>, rest: seq<seq<nat>>, more: seq<ErrorTree>)
    requires causes != [] && ListsLeaves(causes[0], here, leaves) && ListsCauses(causes[1..], first + 1, rest, more)
    ensures ListsCauses(causes, first, Prefixed(here, first) + rest, leaves + more)
  {
    hide IsLeafAt, NodeAt, LeftOf, FromLeftToRight, IsCauseAt, Prefixed;
    var mine := Prefixed(here, first);
    assert |mine| == |here| by { PrefixedAt(here, first); }
    forall i | 0 <= i < |here| ensures IsCauseAt(causes, first, mine[i], leaves[i]) {
      PrefixedAt(here, first);
      FirstCauseAt(causes, first, mine[i], leaves[i]);
    }
    forall i | 0 <= i < |rest| ensures IsCauseAt(causes, first, rest[i], more[i]) {
      LaterCauseAt(causes, first, rest[i], more[i]);
    }
    forall k: nat, at | k < |causes| && IsLeafAt(causes[k], at) ensures [first + k] + at in mine + rest {
      if k == 0 { InPrefixed(here, first, at); } else { InRest(causes, first, rest, k, at); }
    }
    forall i | 0 <= i < |rest| ensures rest[i] != [] && first < rest[i][0] { IsLater(causes, first, rest[i], more[i]); }
    FirstIsLeft(here, first, rest);
  }

  lemma PrefixedAt(here: seq<seq<nat>>, first: nat)
    ensures |Prefixed(here, first)| == |here|
    ensures forall i :: 0 <= i < |here| ==>
      Prefixed(here, first)[i] != [] && Prefixed(here, first)[i][0] == first && Prefixed(here, first)[i][1..] == here[i]
  {
  }

  lemma FirstCauseAt(causes: seq<ErrorTree>, first: nat, at: seq<nat>, leaf: ErrorTree)
    requires causes != [] && at != [] && at[0] == first && IsLeafAt(causes[0], at[1..]) && NodeAt(causes[0], at[1..]) == leaf
    ensures IsCauseAt(causes, first, at, leaf)
  {
  }

  lemma LaterCauseAt(causes: seq<ErrorTree>, first: nat, at: seq<nat>, leaf: ErrorTree)
    requires causes != [] && IsCauseAt(causes[1..], first + 1, at, leaf)
    ensures IsCauseAt(causes, first, at, leaf)
  {
    assert causes[1..][at[0] - (first + 1)] == causes[at[0] - first];
  }

  lemma IsLater(causes: seq<ErrorTree>, first: nat, at: seq<nat>, leaf: ErrorTree)
    requires causes != [] && IsCauseAt(causes[1..], first + 1, at, leaf)
    ensures at != [] && first < at[0]
  {
  }

  lemma InPrefixed(here: seq<seq<nat>>, first: nat, at: seq<nat>)
    requires at in here
    ensures [first] + at in Prefixed(here, first)
  {
    var i :| 0 <= i < |here| && here[i] == at;
    assert Prefixed(here, first)[i] == [first] + at;
  }

  lemma InRest(causes: seq<ErrorTree>, first: nat, rest: seq<seq<nat>>, k: nat, at: seq<nat>)
    requires 0 < k < |causes| && IsLeafAt(causes[k], at)
    requires forall l: nat, to :: l < |causes| - 1 && IsLeafAt(causes[1..][l], to) ==> [first + 1 + l] + to in rest
    ensures [first + k] + at in rest
  {
    assert causes[1..][k - 1] == causes[k];
    assert [first + 1 + (k - 1)] + at in rest;
  }

  lemma FirstIsLeft(here: seq<seq<nat>>, first: nat, rest: seq<seq<nat>>)
    requires FromLeftToRight(here) && FromLeftToRight(rest) && forall i :: 0 <= i < |rest| ==> rest[i] != [] && first < rest[i][0]
    ensures FromLeftToRight(Prefixed(here, first) + rest)
  {
    var mine := Prefixed(here, first);
    forall i, j | 0 <= i < j < |here| ensures LeftOf(mine[i], mine[j]) {
      assert mine[i][1..] == here[i] && mine[j][1..] == here[j];
    }
    forall i, j | 0 <= i < |here| && 0 <= j < |rest| ensures LeftOf(mine[i], rest[j]) {}
    var all := mine + rest;
    forall i, j | 0 <= i < j < |all| ensures LeftOf(all[i], all[j]) {
      if j < |mine| { assert LeftOf(mine[i], mine[j]); }
      else if i < |mine| { assert LeftOf(mine[i], rest[j - |mine|]); }
      else { assert LeftOf(rest[i - |mine|], rest[j - |mine|]); }
    }
  }

  /** One issue for each leaf. */
  predicate Reports(issues: seq<Issue>, leaves: seq<ErrorTree>, trim: string -> string) {
    |issues| == |leaves| &&
    forall i :: 0 <= i < |leaves| ==>
      leaves[i].Violation? && issues[i] == Issue(Print(leaves[i].location), trim(leaves[i].message))
  }

  method FlattenValidationError(root: ErrorTree, trim: string -> string) returns (out: seq<Issue>)
    ensures Leaves(root) != [] ==> Reports(out, Leaves(root), trim)
    ensures Leaves(root) == [] ==> out == if root.Missing? then [] else [Issue("", trim(root.message))]
  {
    if root.Missing? {
      return [];
    }
    out := Walk(root, trim, [], []);
    assert [] + Leaves(root) == Leaves(root);
    if |out| == 0 {
      out := [Issue("", trim(root.message))];
    }
  }

  method Walk(e: ErrorTree, trim: string -> string, out: seq<Issue>, ghost before: seq<ErrorTree>) returns (r: seq<Issue>)
    requires Reports(out, before, trim)
    ensures Reports(r, before + Leaves(e), trim)
    decreases e, 0
  {
    hide Print;
    if e.Missing? {
      assert before + [] == before;
      return out;
    }
    if |e.causes| == 0 {
      var path := JsonPointerFromTokens(e.location);
      return out + [Issue(path, trim(e.message))];
    }
    r := out;
    ghost var done := [];
    for i := 0 to |e.causes|
      invariant done + LeavesOfAll(e.causes[i..]) == LeavesOfAll(e.causes)
      invariant Reports(r, before + done, trim)
    {
      r := Walk(e.causes[i], trim, r, before + done);
      NextCause(e.causes, i, before, done);
      done := done + Leaves(e.causes[i]);
    }
    assert done + [] == done;
  }

  lemma NextCause(causes: seq<ErrorTree>, i: nat, before: seq<ErrorTree>, done: seq<ErrorTree>)
    requires i < |causes|
    ensures done + LeavesOfAll(causes[i..]) == done + Leaves(causes[i]) + LeavesOfAll(causes[i + 1..])
    ensures before + done + Leaves(causes[i]) == before + (done + Leaves(causes[i]))
  {
    assert causes[i..][0] == causes[i] && causes[i..][1..] == causes[i + 1..];
  }

  predicate NothingMissing(e: ErrorTree)
    decreases e
  {
    e.Violation? && forall c :: c in e.causes ==> NothingMissing(c)
  }

  /** In a tree without missing causes there is always a leaf, so the report is never the fallback. */
  lemma {:induction false} AlwaysALeaf(e: ErrorTree)
    requires NothingMissing(e)
    ensures Leaves(e) != []
    decreases e
  {
    if e.causes != [] { AlwaysALeaf(e.causes[0]); }
  }
}
