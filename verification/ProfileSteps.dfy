/** How one stored document follows from the one before it. */
module ProfileSteps {
  import opened Basics
  import opened JsonValues
  import opened Authority
  import opened DocumentPaths
  import opened ProfileViews
  import opened AuthorityMerge
  import opened DuplicateMerge
  import opened History

  ghost predicate IsFirst(doc: Object) {
    exists document, source :: InitialOutcome(document, source, doc)
  }

  /** What a version may do to the document of the version before: nothing, as an upgrade or a
      change of the references alone; an update by the paths `inc`; a resolution; or a merge. */
  datatype Change =
    | Unchanged
    | Updated(inc: Object, source: string)
    | ResolvedAt(path: string, value: Json)
    | MergedWith(other: Object)

  ghost predicate Makes(doc: Object, c: Change, doc': Object) {
    match c
    case Unchanged => doc' == doc
    case Updated(inc, source) => ByUpdate(doc, inc, source, doc')
    case ResolvedAt(path, value) => ResolveOutcome(doc, path, value, doc')
    case MergedWith(other) => DuplicateOutcome(doc, other, doc')
  }

  ghost predicate ByUpdate(doc: Object, inc: Object, source: string, doc': Object) {
    exists incoming, conflicts, changed :: OutcomeFrom(doc, incoming, source, doc', conflicts, changed, inc)
  }

  /** The change brings data that can be stored beside what is there. */
  ghost predicate IsRegularChange(doc: Object, c: Change) {
    match c
    case Unchanged => true
    case Updated(inc, _) => RegularUpdate(doc, inc)
    case ResolvedAt(path, value) => RegularResolution(doc, path, value)
    case MergedWith(other) => RegularPair(doc, other)
  }

  /** The change is no manual decision about `path`. */
  predicate Spares(c: Change, path: string) {
    match c
    case Updated(inc, source) => path in inc ==> Canonical(WriteSource(source)) != MANUAL
    case ResolvedAt(at, _) => at != path
    case _ => true
  }

  ghost predicate Follows(doc: Object, doc': Object) {
    exists c :: Makes(doc, c, doc')
  }

  /** `doc'` follows by a regular change, which spares the path if one is given. */
  ghost predicate FollowsRegularly(doc: Object, doc': Object, spared: Option<string>) {
    exists c :: Makes(doc, c, doc') && IsRegularChange(doc, c) && (spared.Some? ==> Spares(c, spared.value))
  }

  /** The operation on profiles that a change of documents is. */
  ghost function OperationOf(c: Change): Operation
    requires c.MergedWith? ==> StoredWellFormed(c.other)
  {
    match c
    case Unchanged => Upgrade
    case Updated(inc, source) => Update(inc, WriteSource(source))
    case ResolvedAt(path, value) => Resolve(path, value)
    case MergedWith(other) => MergeFrom(View(other))
  }

  /** A regular change of a document is the operation on what readers see of it. */
  lemma ChangePerforms(doc: Object, c: Change, doc': Object)
    requires StoredWellFormed(doc) && Makes(doc, c, doc') && IsRegularChange(doc, c)
    ensures StoredWellFormed(doc') && (c.MergedWith? ==> StoredWellFormed(c.other))
    ensures View(doc') == Perform(View(doc), OperationOf(c))
  {
    hide View, WellFormed, UpdateView, MergeView, OutcomeFrom, ResolveOutcomeVia, DuplicateOutcome, NoClash, RegularResolution, WellFormedFlat;
    match c
    case Unchanged =>
    case Updated(inc, source) =>
      var incoming, conflicts, changed :| OutcomeFrom(doc, incoming, source, doc', conflicts, changed, inc);
      UpdateIsPointwise(doc, incoming, source, doc', conflicts, changed, inc);
    case ResolvedAt(path, value) => ResolutionPerforms(doc, path, value, doc');
    case MergedWith(other) => DuplicateMergeIsMaximum(doc, other, doc');
  }

  lemma ResolutionPerforms(doc: Object, path: string, value: Json, doc': Object)
    requires RegularResolution(doc, path, value) && ResolveOutcome(doc, path, value, doc')
    ensures StoredWellFormed(doc') && View(doc') == View(doc)[path := Entry(value, MANUAL)]
  {
    hide View, WellFormed;
    var flat, data :| ResolveOutcomeVia(doc, path, value, doc', flat, data);
    var back := FlattenedExists(data);
    ResolutionWritesThePath(doc, path, value, doc', flat, data, back);
  }

  /** The path is in the profile, decided by hand. */
  predicate ByHand(v: Profile, path: string) {
    path in v && Canonical(v[path].source) == MANUAL
  }

  /** A regular step loses no path and weakens no source; what is decided by hand at a spared path
      stays as it is. */
  lemma RegularStepSucceeds(doc: Object, doc': Object, spared: Option<string>)
    requires StoredWellFormed(doc) && FollowsRegularly(doc, doc', spared)
    ensures StoredWellFormed(doc') && Succeeds(View(doc), View(doc'))
    ensures spared.Some? && ByHand(View(doc), spared.value) ==>
      spared.value in View(doc') && View(doc')[spared.value] == View(doc)[spared.value]
  {
    hide View, WellFormed, Succeeds, Perform, Makes, IsRegularChange, PriorityOf, Canonical, Spares, NotManualAt;
    var c :| Makes(doc, c, doc') && IsRegularChange(doc, c) && (spared.Some? ==> Spares(c, spared.value));
    ChangePerforms(doc, c, doc');
    StepSucceeds(View(doc), OperationOf(c));
    if spared.Some? && ByHand(View(doc), spared.value) {
      ManualIsStrongest(View(doc)[spared.value].source);
      SparesIsNotManual(c, spared.value);
      PinnedByOne(View(doc), OperationOf(c), spared.value);
    }
  }

  lemma SparesIsNotManual(c: Change, path: string)
    requires Spares(c, path) && (c.MergedWith? ==> StoredWellFormed(c.other))
    ensures NotManualAt(OperationOf(c), path)
  {
    hide Canonical, WellFormed, View;
  }

  /** Along documents that follow one another regularly, no later profile loses a path or
      weakens a source of an earlier one, and a spared path keeps what was decided by hand. */
  lemma {:induction false} RegularChainSucceeds(docs: seq<Object>, spared: Option<string>, i: nat, j: nat)
    requires i <= j < |docs| && StoredWellFormed(docs[i])
    requires forall k :: i <= k < j ==> FollowsRegularly(docs[k], docs[k + 1], spared)
    ensures StoredWellFormed(docs[j]) && Succeeds(View(docs[i]), View(docs[j]))
    ensures spared.Some? && ByHand(View(docs[i]), spared.value) ==>
      spared.value in View(docs[j]) && View(docs[j])[spared.value] == View(docs[i])[spared.value]
    decreases j - i
  {
    hide View, WellFormed, FollowsRegularly, Canonical;
    if i < j {
      RegularStepSucceeds(docs[i], docs[i + 1], spared);
      RegularChainSucceeds(docs, spared, i + 1, j);
      SucceedsTransitive(View(docs[i]), View(docs[i + 1]), View(docs[j]));
    } else {
      StepSucceeds(View(docs[i]), Upgrade);
    }
  }
}
