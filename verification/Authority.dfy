/** Which of two sources may decide the value of a field. */
module Authority {
  import opened Text
  import opened JsonValues

  function PriorityTable(): map<string, int> {
    map[
      "manual" := 1000,
      "hris" := 400,
      "crm" := 350,
      "ad" := 300,
      "import" := 200,
      "api" := 100,
      "sync" := 80,
      "internal" := 50
    ]
  }

  const UNKNOWN_PRIORITY := 30
  const MANUAL_PRIORITY := 1000
  const DEFAULT_SOURCE := "api"

  /** The name under which two spellings of a source are the same source. */
  function Canonical(source: string): string {
    TrimSpace(ToLower(source))
  }

  function PriorityOf(source: string): int {
    var s := Canonical(source);
    if s == "" then PriorityTable()[DEFAULT_SOURCE]
    else if s in PriorityTable() then PriorityTable()[s]
    else UNKNOWN_PRIORITY
  }

  /** No source is stronger than "manual", and none other is as strong. */
  lemma ManualIsStrongest(source: string)
    ensures UNKNOWN_PRIORITY <= PriorityOf(source) <= MANUAL_PRIORITY
    ensures PriorityOf(source) == MANUAL_PRIORITY <==> Canonical(source) == "manual"
  {
  }

  /** The order of the sources: each named one is stronger than all that follow, a blank one counts
      as "api", and one of another name is weaker than all named ones. */
  lemma SourcesRank(source: string)
    ensures
      PriorityOf("manual") > PriorityOf("hris") > PriorityOf("crm") > PriorityOf("ad") > PriorityOf("import") > PriorityOf("api") >
      PriorityOf("sync") > PriorityOf("internal")
    ensures TrimSpace(source) == "" ==> PriorityOf(source) == PriorityOf("api")
    ensures TrimSpace(source) != "" && Canonical(source) !in {"manual", "hris", "crm", "ad", "import", "api", "sync", "internal"} ==>
      PriorityOf(source) < PriorityOf("internal")
  {
    hide Canonical;
    BlankIsNoName(source);
    NamesAreCanonical();
  }

  /** A name of small letters is its own canonical spelling. */
  lemma SmallLetters(name: string)
    requires name != "" && forall i :: 0 <= i < |name| ==> 'a' <= name[i] <= 'z'
    ensures Canonical(name) == name
  {
    LowerIgnoresCase(name, name);
  }

  lemma NamesAreCanonical()
    ensures Canonical("manual") == "manual" && Canonical("hris") == "hris" && Canonical("crm") == "crm" && Canonical("ad") == "ad"
    ensures Canonical("import") == "import" && Canonical("api") == "api" && Canonical("sync") == "sync" && Canonical("internal") == "internal"
  {
    hide Canonical;
    SmallLetters("manual");
    SmallLetters("hris");
    SmallLetters("crm");
    SmallLetters("ad");
    SmallLetters("import");
    SmallLetters("api");
    SmallLetters("sync");
    SmallLetters("internal");
  }

  lemma BlankIsNoName(source: string)
    ensures TrimSpace(source) == "" <==> Canonical(source) == ""
  {
    LowerKeepsBlanks(source);
  }

  lemma LowerKeepsBlanks(s: string)
    ensures TrimSpace(ToLower(s)) == "" <==> TrimSpace(s) == ""
  {
    BlankMeans(s);
    BlankMeans(ToLower(s));
    assert forall i :: 0 <= i < |s| ==> (IsSpace(ToLower(s)[i]) <==> IsSpace(s[i]));
  }

  lemma BlankMeans(s: string)
    ensures TrimSpace(s) == "" <==> AllSpaces(s)
  {
    var before, after := TrimTakesSpaces(s);
    if TrimSpace(s) != "" {
      assert s[|before|] == TrimSpace(s)[0];
    }
  }

  /** Spellings that differ in case or in spaces around the name are one source. */
  lemma SpellingsAreOneSource(source: string, other: string, before: string, after: string)
    requires SameLetters(source, other) && AllSpaces(before) && AllSpaces(after)
    ensures Canonical(before + other + after) == Canonical(source) && PriorityOf(before + other + after) == PriorityOf(source)
  {
    LowerIgnoresCase(source, other);
    LowerOfSum(before, other, after);
    TrimPadded(ToLower(before), ToLower(other), ToLower(after));
  }

  /** Trimming before lowering makes no difference. */
  lemma TrimmedIsSameSource(source: string)
    ensures Canonical(TrimSpace(source)) == Canonical(source)
  {
    var before, after := TrimTakesSpaces(source);
    LowerIgnoresCase(TrimSpace(source), TrimSpace(source));
    SpellingsAreOneSource(TrimSpace(source), TrimSpace(source), before, after);
  }

  lemma LowerOfSum(a: string, b: string, c: string)
    requires AllSpaces(a) && AllSpaces(c)
    ensures ToLower(a + b + c) == ToLower(a) + ToLower(b) + ToLower(c) && AllSpaces(ToLower(a)) && AllSpaces(ToLower(c))
  {
  }

  lemma {:induction false} TrimPadded(before: string, s: string, after: string)
    requires AllSpaces(before) && AllSpaces(after)
    ensures TrimSpace(before + s + after) == TrimSpace(s)
    decreases |before| + |after|
  {
    var all := before + s + after;
    if before != "" {
      assert all[1..] == before[1..] + s + after && all[0] == before[0];
      TrimPadded(before[1..], s, after);
    } else if after != "" {
      var n := |after| - 1;
      assert all == before + s + after[..n] + [after[n]];
      TrimPadded(before, s, after[..n]);
      TrimLastSpace(before + s + after[..n], after[n]);
    } else {
      assert all == s;
    }
  }

  lemma {:induction false} TrimLastSpace(s: string, c: char)
    requires IsSpace(c)
    ensures TrimSpace(s + [c]) == TrimSpace(s)
  {
    if s == "" {
      assert s + [c] == [c] && [c][1..] == "";
    } else if IsSpace(s[0]) {
      assert (s + [c])[1..] == s[1..] + [c] && (s + [c])[0] == s[0];
      TrimLastSpace(s[1..], c);
    } else {
      assert (s + [c])[0] == s[0];
      assert (s + [c])[..|s|] == s && TrimRight(s + [c]) == TrimRight(s);
    }
  }

  datatype Decision = Equal | Apply | Conflict(reason: string)

  const LOWER_PRIORITY := "incoming source has lower priority than existing"
  const SAME_PRIORITY := "same priority and different values from different sources"

  function MergeFieldAuthority(existing: Json, incoming: Json, existingSource: string, incomingSource: string): Decision {
    if existing == incoming then Equal
    else
      var ex := Canonical(existingSource);
      var inc := Canonical(incomingSource);
      if ex != "" && ex == inc then Apply
      else
        var pIn := PriorityOf(incomingSource);
        var pEx := PriorityOf(existingSource);
        if pIn > pEx then Apply
        else if pIn < pEx then Conflict(LOWER_PRIORITY)
        else Conflict(SAME_PRIORITY)
  }
}
