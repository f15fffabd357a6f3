/** References to the records of other systems: how a request's list is validated, and how it is
    compared with the references a profile already has. */
module ExternalRefs {
  import opened Text
  import opened Lists

  datatype Ref = Ref(sourceSystem: string, externalId: string)

  function Trimmed(r: Ref): Ref {
    Ref(TrimSpace(r.sourceSystem), TrimSpace(r.externalId))
  }

  function TrimmedAll(refs: seq<Ref>): seq<Ref> {
    seq(|refs|, i requires 0 <= i < |refs| => Trimmed(refs[i]))
  }

  lemma TrimIdempotentRef(r: Ref)
    ensures Trimmed(Trimmed(r)) == Trimmed(r)
  {
    TrimIdempotent(r.sourceSystem);
    TrimIdempotent(r.externalId);
  }

  // ---------- validation ----------

  datatype RefsError = Blank(at: nat) | Duplicate(at: nat)
  datatype RefsCheck = RefsOk | RefsBad(error: RefsError)

  /** The text under which duplicates are looked up. */
  function Key(r: Ref): string {
    Trimmed(r).sourceSystem + "\n" + Trimmed(r).externalId
  }

  predicate IsBlank(r: Ref) {
    Trimmed(r).sourceSystem == "" || Trimmed(r).externalId == ""
  }

  ghost predicate RepeatsKey(refs: seq<Ref>, i: nat)
    requires i < |refs|
  {
    exists j :: 0 <= j < i && Key(refs[j]) == Key(refs[i])
  }

  ghost predicate ValidRefs(refs: seq<Ref>) {
    forall i :: 0 <= i < |refs| ==> !IsBlank(refs[i]) && !RepeatsKey(refs, i)
  }

  ghost predicate IsFirstError(refs: seq<Ref>, e: RefsError) {
    var i := e.at;
    i < |refs| && ValidRefs(refs[..i]) &&
    (if e.Blank? then IsBlank(refs[i]) else !IsBlank(refs[i]) && RepeatsKey(refs, i))
  }

  method ValidateExternalRefs(refs: seq<Ref>) returns (r: RefsCheck)
    ensures r.RefsOk? <==> ValidRefs(refs)
    ensures r.RefsBad? ==> IsFirstError(refs, r.error)
  {
    hide KeysOf, IsBlank, Key;
    r := RefsOk;
    var seen: set<string> := {};
    NoKeysYet(refs);
    for i := 0 to |refs|
      invariant r == RefsOk && seen == KeysOf(refs, i)
      invariant forall j :: 0 <= j < i ==> !IsBlank(refs[j]) && !RepeatsKey(refs, j)
    {
      ValidPrefix(refs, i);
      if IsBlank(refs[i]) {
        return RefsBad(Blank(i));
      }
      SeenKeys(refs, i);
      if Key(refs[i]) in seen {
        return RefsBad(Duplicate(i));
      }
      seen := seen + {Key(refs[i])};
    }
  }

  /** What a list must be to be accepted: no part is blank, and no two references have the same parts,
      without the spaces around them and joined by a line break. */
  lemma ValidRefsMeans(refs: seq<Ref>)
    ensures ValidRefs(refs) <==>
      (forall i :: 0 <= i < |refs| ==> TrimSpace(refs[i].sourceSystem) != "" && TrimSpace(refs[i].externalId) != "") &&
      forall i, j :: 0 <= j < i < |refs| ==>
        TrimSpace(refs[j].sourceSystem) + "\n" + TrimSpace(refs[j].externalId) != TrimSpace(refs[i].sourceSystem) + "\n" + TrimSpace(refs[i].externalId)
  {
    hide TrimSpace;
    forall i, j | 0 <= j < i < |refs| && Key(refs[j]) == Key(refs[i]) ensures RepeatsKey(refs, i) {}
    if ValidRefs(refs) {
      forall i, j | 0 <= j < i < |refs| ensures Key(refs[j]) != Key(refs[i]) { assert !RepeatsKey(refs, i); }
    }
  }

  /** The keys of the first `n` references. */
  function KeysOf(refs: seq<Ref>, n: nat): set<string>
    requires n <= |refs|
  {
    set j | 0 <= j < n :: Key(refs[j])
  }

  lemma SeenKeys(refs: seq<Ref>, i: nat)
    requires i < |refs|
    ensures KeysOf(refs, i + 1) == KeysOf(refs, i) + {Key(refs[i])}
    ensures Key(refs[i]) in KeysOf(refs, i) <==> RepeatsKey(refs, i)
  {
  }

  lemma NoKeysYet(refs: seq<Ref>)
    ensures KeysOf(refs, 0) == {}
  {
  }

  lemma ValidPrefix(refs: seq<Ref>, n: nat)
    requires n <= |refs| && forall j :: 0 <= j < n ==> !IsBlank(refs[j]) && !RepeatsKey(refs, j)
    ensures ValidRefs(refs[..n])
  {
    forall i | 0 <= i < n ensures !RepeatsKey(refs[..n], i) {
      assert !RepeatsKey(refs, i);
    }
  }

  /** `a`'s source system reads on, after a line break, where `b`'s stops, and `b`'s id begins
      with the rest. */
  ghost predicate RunsOver(a: Ref, b: Ref) {
    exists rest ::
      Trimmed(a).sourceSystem == Trimmed(b).sourceSystem + "\n" + rest &&
      Trimmed(b).externalId == rest + "\n" + Trimmed(a).externalId
  }

  /** Two references count as duplicates exactly when they are equal up to spaces, or when a
      line break inside a name makes their keys coincide. */
  lemma KeysCoincide(a: Ref, b: Ref)
    ensures Key(a) == Key(b) <==> Trimmed(a) == Trimmed(b) || RunsOver(a, b) || RunsOver(b, a)
  {
    if Key(a) == Key(b) {
      var x, y := Trimmed(a), Trimmed(b);
      if |x.sourceSystem| == |y.sourceSystem| {
        assert x.sourceSystem == Key(a)[..|x.sourceSystem|] == y.sourceSystem;
        assert x.externalId == Key(a)[|x.sourceSystem| + 1..] == y.externalId;
      } else if |x.sourceSystem| > |y.sourceSystem| {
        LongerRunsOver(a, b);
      } else {
        LongerRunsOver(b, a);
      }
    }
    if RunsOver(a, b) { RunningOverCoincides(a, b); }
    if RunsOver(b, a) { RunningOverCoincides(b, a); }
  }

  lemma LongerRunsOver(a: Ref, b: Ref)
    requires Key(a) == Key(b) && |Trimmed(a).sourceSystem| > |Trimmed(b).sourceSystem|
    ensures RunsOver(a, b)
  {
    var x, y := Trimmed(a), Trimmed(b);
    var n := |y.sourceSystem|;
    var rest := x.sourceSystem[n + 1..];
    assert Key(a)[..n] == y.sourceSystem && Key(a)[n] == '\n';
    assert x.sourceSystem == y.sourceSystem + "\n" + rest by {
      assert x.sourceSystem == Key(a)[..|x.sourceSystem|];
    }
    assert y.externalId == Key(b)[n + 1..];
    assert Key(a)[n + 1..] == rest + "\n" + x.externalId;
  }

  lemma RunningOverCoincides(a: Ref, b: Ref)
    requires RunsOver(a, b)
    ensures Key(a) == Key(b)
  {
    var rest :| Trimmed(a).sourceSystem == Trimmed(b).sourceSystem + "\n" + rest &&
      Trimmed(b).externalId == rest + "\n" + Trimmed(a).externalId;
    calc {
      Key(a);
      Trimmed(b).sourceSystem + "\n" + rest + "\n" + Trimmed(a).externalId;
      Trimmed(b).sourceSystem + "\n" + (rest + "\n" + Trimmed(a).externalId);
      Key(b);
    }
  }

  /** Validation lets no reference through twice. */
  lemma ValidRefsAreDistinct(refs: seq<Ref>)
    requires ValidRefs(refs)
    ensures Distinct(TrimmedAll(refs))
  {
    forall i, j | 0 <= i < j < |refs| ensures Trimmed(refs[i]) != Trimmed(refs[j]) {
      assert !RepeatsKey(refs, j);
    }
  }

  // ---------- comparison ----------

  /** Go's order on strings: by the first character that differs. */
  predicate Less(a: string, b: string) {
    b != "" && (a == "" || a[0] < b[0] || (a[0] == b[0] && Less(a[1..], b[1..])))
  }

  lemma {:induction false} LessTotal(a: string, b: string)
    ensures Less(a, b) || a == b || Less(b, a)
    ensures !(Less(a, b) && Less(b, a)) && !Less(a, a)
  {
    if a != "" && b != "" {
      LessTotal(a[1..], b[1..]);
      assert a == [a[0]] + a[1..] && b == [b[0]] + b[1..];
    }
    if a != "" { LessTotal(a[1..], a[1..]); }
  }

  lemma {:induction false} LessTransitive(a: string, b: string, c: string)
    requires Less(a, b) && Less(b, c)
    ensures Less(a, c)
  {
    if a != "" && b[0] == a[0] && c[0] == b[0] { LessTransitive(a[1..], b[1..], c[1..]); }
  }

  predicate RefLess(a: Ref, b: Ref) {
    Less(a.sourceSystem, b.sourceSystem) ||
    (a.sourceSystem == b.sourceSystem && Less(a.externalId, b.externalId))
  }

  lemma RefLessTotal(a: Ref, b: Ref)
    ensures RefLess(a, b) || a == b || RefLess(b, a)
    ensures !(RefLess(a, b) && RefLess(b, a))
  {
    LessTotal(a.sourceSystem, b.sourceSystem);
    LessTotal(a.externalId, b.externalId);
  }

  lemma RefLessTransitive(a: Ref, b: Ref, c: Ref)
    requires !RefLess(b, a) && !RefLess(c, b)
    ensures !RefLess(c, a)
  {
    RefLessTotal(a, b);
    RefLessTotal(b, c);
    if RefLess(a, b) && RefLess(b, c) {
      if Less(a.sourceSystem, b.sourceSystem) && Less(b.sourceSystem, c.sourceSystem) {
        LessTransitive(a.sourceSystem, b.sourceSystem, c.sourceSystem);
      }
      if Less(a.externalId, b.externalId) && Less(b.externalId, c.externalId) {
        LessTransitive(a.externalId, b.externalId, c.externalId);
      }
      assert RefLess(a, c);
      RefLessTotal(a, c);
    }
  }

  predicate NotAfter(a: Ref, b: Ref) {
    !RefLess(b, a)
  }

  /** sort.Slice: some ascending arrangement of `s`. */
  method SortRefs(s: seq<Ref>) returns (r: seq<Ref>)
    ensures multiset(r) == multiset(s) && Ascending(r, NotAfter)
  {
    r := [];
    for i := 0 to |s|
      invariant multiset(r) == multiset(s[..i]) && Ascending(r, NotAfter)
    {
      assert s[..i + 1] == s[..i] + [s[i]];
      r := InsertRef(r, s[i]);
    }
    assert s[..|s|] == s;
  }

  method InsertRef(s: seq<Ref>, x: Ref) returns (r: seq<Ref>)
    requires Ascending(s, NotAfter)
    ensures multiset(r) == multiset(s + [x]) && Ascending(r, NotAfter)
  {
    hide RefLess;
    var k := 0;
    while k < |s| && !RefLess(x, s[k])
      invariant 0 <= k <= |s|
      invariant forall j :: 0 <= j < k ==> !RefLess(x, s[j])
    {
      k := k + 1;
    }
    InsertKeepsOrder(s, k, x);
    assert s == s[..k] + s[k..];
    r := s[..k] + [x] + s[k..];
  }

  lemma InsertKeepsOrder(r: seq<Ref>, k: nat, x: Ref)
    requires Ascending(r, NotAfter) && k <= |r|
    requires forall j :: 0 <= j < k ==> !RefLess(x, r[j])
    requires k < |r| ==> RefLess(x, r[k])
    ensures Ascending(r[..k] + [x] + r[k..], NotAfter)
  {
    forall j | k <= j < |r| ensures !RefLess(r[j], x) {
      RefLessTotal(x, r[k]);
      if j > k { RefLessTransitive(x, r[k], r[j]); }
    }
  }

  lemma {:induction false} AscendingUnique(a: seq<Ref>, b: seq<Ref>)
    requires Ascending(a, NotAfter) && Ascending(b, NotAfter) && multiset(a) == multiset(b)
    ensures a == b
    decreases |a|
  {
    hide RefLess;
    assert |a| == |multiset(a)| && |b| == |multiset(b)|;
    if a != [] {
      SameHead(a, b);
      SameHead(b, a);
      RefLessTotal(a[0], b[0]);
      assert a[0] == b[0];
      assert a == [a[0]] + a[1..] && b == [b[0]] + b[1..];
      assert multiset(a[1..]) == multiset(a) - multiset{a[0]};
      assert multiset(b[1..]) == multiset(b) - multiset{b[0]};
      AscendingUnique(a[1..], b[1..]);
    }
  }

  lemma SameHead(a: seq<Ref>, b: seq<Ref>)
    requires Ascending(a, NotAfter) && multiset(a) == multiset(b) && a != [] && b != []
    ensures !RefLess(b[0], a[0])
  {
    assert b[0] in multiset(a);
    var i :| 0 <= i < |a| && a[i] == b[0];
    RefLessTotal(a[0], a[0]);
  }

  /** Sorting both lists and comparing them place by place tells whether they hold different
      references. */
  method ExternalRefsChanged(have: seq<Ref>, want: seq<Ref>) returns (changed: bool)
    ensures changed <==> multiset(have) != multiset(want)
  {
    if |have| != |want| {
      assert |multiset(have)| == |have| && |multiset(want)| == |want|;
      return true;
    }
    var a := SortRefs(have);
    var b := SortRefs(want);
    assert |a| == |multiset(a)| == |have| && |b| == |multiset(b)| == |want|;
    if multiset(have) == multiset(want) { AscendingUnique(a, b); }
    for i := 0 to |a|
      invariant forall j :: 0 <= j < i ==> a[j] == b[j]
    {
      if a[i].sourceSystem != b[i].sourceSystem || a[i].externalId != b[i].externalId {
        return true;
      }
    }
    assert a == b;
    return false;
  }

  ghost predicate RefsDiffer(have: set<Ref>, want: seq<Ref>) {
    multiset(have) != multiset(want)
  }

  /** Against what a profile has, a change is reported exactly when the sets differ, provided the
      wanted references are trimmed and hold no duplicate; an untrimmed one always counts as a
      change. */
  lemma ChangeMeansSetsDiffer(have: set<Ref>, want: seq<Ref>)
    requires ValidRefs(want) && forall r :: r in have ==> Trimmed(r) == r
    ensures RefsDiffer(have, want) <==> TrimmedAll(want) != want || have != (set r | r in want)
  {
    ValidRefsAreDistinct(want);
    if TrimmedAll(want) != want {
      var i :| 0 <= i < |want| && Trimmed(want[i]) != want[i];
      assert want[i] in multiset(want) && want[i] !in multiset(have);
    } else {
      DistinctMultiset(want);
      var wanted := set r | r in want;
      assert multiset(want) == multiset(wanted);
      if have != wanted {
        var r :| (r in have) != (r in wanted);
        assert (r in multiset(have)) != (r in multiset(wanted));
      }
    }
  }
}
