/** Merging a duplicate profile into its target, and the first document of a profile. */
module DuplicateMerge {
  import opened Text
  import opened JsonValues
  import opened Maps
  import opened Authority
  import opened DocumentPaths
  import opened ProfileViews
  import opened AuthorityMerge

  // ---------- duplicate merge ----------

  predicate SourceTakes(flatT: Object, authT: Sources, authS: Sources, path: string) {
    path !in flatT || PriorityOf(EffectiveSource(path, authS)) > PriorityOf(EffectiveSource(path, authT))
  }

  /** The source profile's values that replace or extend the target's. */
  function Taken(flatT: Object, authT: Sources, flatS: Object, authS: Sources): Object {
    map p | p in flatS && SourceTakes(flatT, authT, authS, p) :: flatS[p]
  }

  ghost predicate DuplicateOutcome(target: Object, source: Object, out: Object) {
    exists flatT, flatS, data :: DuplicateOutcomeVia(target, source, out, flatT, flatS, data)
  }

  ghost predicate DuplicateOutcomeVia(target: Object, source: Object, out: Object,
                                      flatT: Object, flatS: Object, data: Object) {
    var (dataT, metaT) := SplitMeta(target);
    var (dataS, metaS) := SplitMeta(source);
    var taken := Taken(flatT, AuthorityOf(metaT), flatS, AuthorityOf(metaS));
    IsFlattened(dataT, flatT) && IsFlattened(dataS, flatS) &&
    IsUnflattened(flatT + taken, data) &&
    out == WithMeta(data, SetAuthorityPaths(metaT, EffectiveSources(taken, AuthorityOf(metaS))))
  }

  method MergeDocumentsForDuplicate(target: Object, source: Object) returns (out: Object)
    ensures DuplicateOutcome(target, source, out)
  {
    hide SetAuthorityPath, SetAuthorityPaths, Taken, SourceTakes, EffectiveSources, EffectiveSource, AuthorityOf, IsFlattened, IsUnflattened;
    var (dataT, metaT) := SplitMeta(target);
    var (dataS, metaS) := SplitMeta(source);
    var flatT := FlattenDocument(dataT);
    var flatS := FlattenDocument(dataS);
    var authT := ReadAuthorityPaths(metaT);
    var authS := ReadAuthorityPaths(metaS);
    var outFlat, metaOut := flatT, metaT;
    ghost var done: Object := map[];
    var rest := flatS.Keys;
    TakeNone(flatT, metaT, authT, authS);
    while rest != {}
      invariant Visited(flatS, rest, done)
      invariant outFlat == flatT + Taken(flatT, authT, done, authS)
      invariant metaOut == SetAuthorityPaths(metaT, EffectiveSources(Taken(flatT, authT, done, authS), authS))
    {
      var path :| path in rest;
      VisitNext(flatS, rest, done, path);
      rest := rest - {path};
      var sv := flatS[path];
      var taken := TakesField(outFlat, flatT, authT, authS, path, done);
      TakeOneMore(flatT, authT, done, authS, path, sv, taken);
      if taken {
        ghost var before := Taken(flatT, authT, done, authS);
        SetOneMore(metaT, EffectiveSources(before, authS), path, EffectiveSource(path, authS));
        AddThenSet(flatT, before, path, sv);
        outFlat := outFlat[path := sv];
        metaOut := SetAuthorityPath(metaOut, path, EffectiveSource(path, authS));
      }
      done := done[path := sv];
    }
    VisitedAll(flatS, done);
    var data := UnflattenDocument(outFlat);
    out := WithMeta(data, metaOut);
    assert DuplicateOutcomeVia(target, source, out, flatT, flatS, data);
  }

  /** The comparison on one path of the source profile. */
  method TakesField(outFlat: Object, ghost flatT: Object, authT: Sources, authS: Sources, path: string, ghost done: Object)
    returns (taken: bool)
    requires path !in done && outFlat == flatT + Taken(flatT, authT, done, authS)
    ensures taken == SourceTakes(flatT, authT, authS, path)
  {
    if path !in outFlat {
      taken := true;
    } else {
      var pt := PriorityOf(EffectiveSource(path, authT));
      var ps := PriorityOf(EffectiveSource(path, authS));
      taken := ps > pt;
    }
  }

  lemma TakeNone(flatT: Object, metaT: Object, authT: Sources, authS: Sources)
    ensures flatT == flatT + Taken(flatT, authT, map[], authS)
    ensures metaT == SetAuthorityPaths(metaT, EffectiveSources(Taken(flatT, authT, map[], authS), authS))
  {
  }

  lemma TakeOneMore(flatT: Object, authT: Sources, done: Object, authS: Sources, path: string, v: Json, taken: bool)
    requires path !in done && taken == SourceTakes(flatT, authT, authS, path)
    ensures
      var before := Taken(flatT, authT, done, authS);
      Taken(flatT, authT, done[path := v], authS) == (if taken then before[path := v] else before) &&
      EffectiveSources(before[path := v], authS) == EffectiveSources(before, authS)[path := EffectiveSource(path, authS)]
  {
    hide SourceTakes, EffectiveSource;
  }

  /** Every regular duplicate merge, whatever the order of its loop, is the left-biased maximum
      on priority of what readers see of the two profiles. */
  lemma DuplicateMergeIsMaximum(target: Object, source: Object, out: Object)
    requires RegularPair(target, source) && DuplicateOutcome(target, source, out)
    ensures StoredWellFormed(out)
    ensures View(out) == MergeView(View(target), View(source))
  {
    var flatT, flatS, data :| DuplicateOutcomeVia(target, source, out, flatT, flatS, data);
    OutcomeFlats(target, source, flatT, flatS);
    DuplicateStored(flatT, SplitMeta(target).1, flatS, AuthorityOf(SplitMeta(source).1), data);
  }

  lemma DuplicateStored(flatT: Object, metaT: Object, flatS: Object, authS: Sources, data: Object)
    requires WellFormedFlat(flatT) && WellFormedFlat(flatS) && NoClash(flatT.Keys + flatS.Keys)
    requires IsUnflattened(flatT + Taken(flatT, AuthorityOf(metaT), flatS, authS), data)
    ensures
      var out := WithMeta(data, SetAuthorityPaths(metaT, EffectiveSources(Taken(flatT, AuthorityOf(metaT), flatS, authS), authS)));
      StoredWellFormed(out) && View(out) == MergeView(ViewOf(flatT, AuthorityOf(metaT)), ViewOf(flatS, authS))
  {
    var authT := AuthorityOf(metaT);
    var taken := Taken(flatT, authT, flatS, authS);
    UnionWellFormed(flatT, flatS, flatT + taken);
    var sources := EffectiveSources(taken, authS);
    forall p | p in sources ensures TrimSpace(sources[p]) == sources[p] {
      SourcesAreTrimmed(p, authS, "");
    }
    EffectiveIdempotent(taken, authS);
    hide Taken, EffectiveSources, EffectiveSource, TrimSpace, AuthorityOf, SetAuthorityPaths, View, ViewOf, WellFormedFlat, MergeView;
    SetThenRead(metaT, sources);
    StoredView(flatT + taken, data, SetAuthorityPaths(metaT, sources));
    assert taken.Keys == sources.Keys by { SourcesKeys(taken, authS); }
    ViewAfterWriting(flatT, authT, taken, sources);
    TakenIsMerged(flatT, authT, flatS, authS);
  }

  lemma SourcesKeys(flat: Object, auth: Sources)
    ensures EffectiveSources(flat, auth).Keys == flat.Keys
  {
  }

  lemma EffectiveIdempotent(flat: Object, auth: Sources)
    ensures forall p :: p in flat ==>
      EffectiveSource(p, EffectiveSources(flat, auth)) == EffectiveSources(flat, auth)[p]
  {
    forall p | p in flat
      ensures EffectiveSource(p, EffectiveSources(flat, auth)) == EffectiveSources(flat, auth)[p]
    {
      SourcesAreTrimmed(p, auth, "");
    }
  }

  lemma TakenIsMerged(flatT: Object, authT: Sources, flatS: Object, authS: Sources)
    ensures
      var taken := Taken(flatT, authT, flatS, authS);
      ViewOf(flatT, authT) + EntriesOf(taken, EffectiveSources(taken, authS)) ==
      MergeView(ViewOf(flatT, authT), ViewOf(flatS, authS))
  {
    var taken, t, s := Taken(flatT, authT, flatS, authS), ViewOf(flatT, authT), ViewOf(flatS, authS);
    var entries := EntriesOf(taken, EffectiveSources(taken, authS));
    forall p
      ensures p in entries <==> p in s && (p !in t || Rank(s[p]) > Rank(t[p]))
      ensures p in entries ==> entries[p] == s[p]
    {
    }
    hide Taken, SourceTakes, ViewOf, EntriesOf, EffectiveSources, Rank;
    MergeByReplacing(t, s, entries);
  }

  lemma MergeByReplacing(t: Profile, s: Profile, entries: Profile)
    requires forall p :: p in entries <==> p in s && (p !in t || Rank(s[p]) > Rank(t[p]))
    requires forall p :: p in entries ==> entries[p] == s[p]
    ensures t + entries == MergeView(t, s)
  {
  }

  // ---------- the first document ----------

  ghost predicate InitialOutcome(doc: Object, writeSource: string, out: Object) {
    exists flat, data :: InitialOutcomeVia(doc, writeSource, out, flat, data)
  }

  ghost predicate InitialOutcomeVia(doc: Object, writeSource: string, out: Object, flat: Object, data: Object) {
    IsFlattened(SplitMeta(doc).0, flat) &&
    IsUnflattened(flat, data) &&
    out == WithMeta(data, SetAuthorityPaths(map[], AllFrom(flat, WriteSource(writeSource))))
  }

  method InitialDocumentWithAuthority(doc: Object, writeSource: string) returns (out: Object)
    ensures InitialOutcome(doc, writeSource, out)
  {
    hide SetAuthorityPath, IsFlattened, IsUnflattened, WriteSource;
    var source := WriteSource(writeSource);
    var flat := FlattenDocument(SplitMeta(doc).0);
    var meta: Object := map[];
    ghost var done: Object := map[];
    var rest := flat.Keys;
    while rest != {}
      invariant Visited(flat, rest, done)
      invariant meta == SetAuthorityPaths(map[], AllFrom(done, source))
    {
      var path :| path in rest;
      VisitNext(flat, rest, done, path);
      rest := rest - {path};
      SetOneMore(map[], AllFrom(done, source), path, source);
      AllFromOneMore(done, source, path, flat[path]);
      meta := SetAuthorityPath(meta, path, source);
      done := done[path := flat[path]];
    }
    VisitedAll(flat, done);
    var data := UnflattenDocument(flat);
    out := WithMeta(data, meta);
    assert InitialOutcomeVia(doc, writeSource, out, flat, data);
  }

  /** The first document of a profile, made from the paths `flat`, is what an update of the empty
      profile gives. */
  lemma CreateIsAnUpdate(doc: Object, writeSource: string, out: Object, flat: Object, data: Object)
    requires InitialOutcomeVia(doc, writeSource, out, flat, data) && WellFormedFlat(flat)
    ensures StoredWellFormed(out)
    ensures View(out) == UpdateView(map[], flat, WriteSource(writeSource))
  {
    var source := WriteSource(writeSource);
    SourcesAreTrimmed("", map[], writeSource);
    InitialStored(flat, source, data);
  }

  lemma InitialStored(flat: Object, source: string, data: Object)
    requires WellFormedFlat(flat) && IsUnflattened(flat, data)
    requires source != "" && TrimSpace(source) == source
    ensures
      var out := WithMeta(data, SetAuthorityPaths(map[], AllFrom(flat, source)));
      StoredWellFormed(out) && View(out) == UpdateView(map[], flat, source)
  {
    hide AllFrom, AuthorityOf, EffectiveSource, SetAuthorityPaths, View, WellFormedFlat, UpdateView, IsUnflattened, TrimSpace;
    var sources, auth := AllFrom(flat, source), AuthorityOf(map[]);
    SameSource(flat, source);
    SetThenRead(map[], sources);
    StoredView(flat, data, SetAuthorityPaths(map[], sources));
    EffectiveOfAll(flat, source);
    assert map[] + flat == flat;
    ViewAfterWriting(map[], auth, flat, sources);
    InitialView(flat, source, ViewOf(map[], auth));
  }

  lemma SameSource(flat: Object, source: string)
    ensures AllFrom(flat, source).Keys == flat.Keys
    ensures forall p :: p in flat ==> AllFrom(flat, source)[p] == source
  {
  }

  lemma InitialView(flat: Object, source: string, v: Profile)
    requires v.Keys == {}
    ensures v + EntriesOf(flat, AllFrom(flat, source)) == UpdateView(map[], flat, source)
  {
    hide MergeFieldAuthority;
    forall p | p in flat ensures DecisionFor(map[], p, flat[p], source).Apply? {}
  }
}
