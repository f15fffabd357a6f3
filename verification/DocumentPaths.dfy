/** Profile documents and their flat form: a root field `k` is the path "default/k", the field
    `f` of a namespace object `k` is the path "k/f". Flattening and unflattening run over Go
    maps, so each is specified by the relation between an input and every possible output. */
module DocumentPaths {
  import opened Text
  import opened JsonValues
  import opened Maps

  const META := "_meta"
  const DEFAULT := "default"
  const AUTHORITY := "authority"
  const SOURCE := "source"

  function Path(ns: string, field: string): string {
    ns + "/" + field
  }

  /** The key `k` of `doc` contributes the value `v` at the path `p`. */
  ghost predicate Contributes(doc: Object, k: string, p: string, v: Json) {
    k in doc && k != META &&
    match doc[k]
    case Obj(m) => exists f :: f in m && p == Path(k, f) && v == m[f]
    case _ => p == Path(DEFAULT, k) && v == doc[k]
  }

  /** `flat` is a flattening of `doc`: it has every path of `doc`, and at each path one of the
      values `doc` has there. */
  ghost predicate IsFlattened(doc: Object, flat: Object) {
    (forall k, p, v :: Contributes(doc, k, p, v) ==> p in flat) &&
    (forall p :: p in flat ==> exists k :: Contributes(doc, k, p, flat[p]))
  }

  method FlattenDocument(doc: Object) returns (out: Object)
    ensures IsFlattened(doc, out)
  {
    out := map[];
    var rest := doc.Keys;
    ghost var done: Object := map[];
    while rest != {}
      invariant Visited(doc, rest, done)
      invariant IsFlattened(done, out)
    {
      var k :| k in rest;
      VisitNext(doc, rest, done, k);
      rest := rest - {k};
      ghost var next := done[k := doc[k]];
      if k == META {
        FlattenNothing(done, k, doc[k], out);
      } else {
        match doc[k]
        case Obj(m) =>
          var fields := m.Keys;
          ghost var seen: Object := map[];
          FlattenNothing(done, k, Obj(map[]), out);
          while fields != {}
            invariant Visited(m, fields, seen)
            invariant IsFlattened(done[k := Obj(seen)], out)
          {
            var f :| f in fields;
            VisitNext(m, fields, seen, f);
            fields := fields - {f};
            FlattenField(done, k, seen, f, m[f], out);
            out := out[Path(k, f) := m[f]];
            seen := seen[f := m[f]];
          }
          VisitedAll(m, seen);
        case _ =>
          FlattenKey(done, k, doc[k], out);
          out := out[Path(DEFAULT, k) := doc[k]];
      }
      done := next;
    }
    VisitedAll(doc, done);
  }

  /** The metadata key and an empty namespace leave no trace. */
  lemma FlattenNothing(done: Object, k: string, v: Json, out: Object)
    requires k !in done && (k == META || v == Obj(map[]))
    requires IsFlattened(done, out)
    ensures IsFlattened(done[k := v], out)
  {
    var after := done[k := v];
    forall k', p, v' | Contributes(after, k', p, v') ensures p in out {
      assert Contributes(done, k', p, v');
    }
    forall p | p in out ensures exists k' :: Contributes(after, k', p, out[p]) {
      var k' :| Contributes(done, k', p, out[p]);
      assert Contributes(after, k', p, out[p]);
    }
  }

  /** One step of the inner loop. */
  lemma FlattenField(done: Object, k: string, seen: Object, f: string, v: Json, out: Object)
    requires k != META && f !in seen
    requires IsFlattened(done[k := Obj(seen)], out)
    ensures IsFlattened(done[k := Obj(seen[f := v])], out[Path(k, f) := v])
  {
    var before, after := done[k := Obj(seen)], done[k := Obj(seen[f := v])];
    var out' := out[Path(k, f) := v];
    forall k', p, v' | Contributes(after, k', p, v') ensures p in out' {
      if p != Path(k, f) { assert Contributes(before, k', p, v'); }
    }
    forall p | p in out' ensures exists k' :: Contributes(after, k', p, out'[p]) {
      if p == Path(k, f) {
        assert Contributes(after, k, p, v);
      } else {
        var k' :| Contributes(before, k', p, out[p]);
        assert Contributes(after, k', p, out'[p]);
      }
    }
  }

  /** One step of the outer loop, for a root field. */
  lemma FlattenKey(done: Object, k: string, v: Json, out: Object)
    requires k != META && k !in done && !v.Obj?
    requires IsFlattened(done, out)
    ensures IsFlattened(done[k := v], out[Path(DEFAULT, k) := v])
  {
    var after := done[k := v];
    var out' := out[Path(DEFAULT, k) := v];
    forall k', p, v' | Contributes(after, k', p, v') ensures p in out' {
      if k' != k { assert Contributes(done, k', p, v'); }
    }
    forall p | p in out' ensures exists k' :: Contributes(after, k', p, out'[p]) {
      if p == Path(DEFAULT, k) {
        assert Contributes(after, k, p, v);
      } else {
        var k' :| Contributes(done, k', p, out[p]);
        assert Contributes(after, k', p, out'[p]);
      }
    }
  }

  // ---------- unflatten ----------

  /** `flat` has a root field called `n`. */
  predicate HasRoot(flat: Object, n: string) {
    n != "" && Path(DEFAULT, n) in flat
  }

  /** `flat` has the field `f` in the namespace `n`. */
  predicate HasField(flat: Object, n: string, f: string) {
    n != DEFAULT && '/' !in n && f != "" && Path(n, f) in flat
  }

  ghost predicate HasNamespace(flat: Object, n: string) {
    exists f :: HasField(flat, n, f)
  }

  /** `v` may stand under the name `n` once `flat` is unflattened. When `n` is both a root field
      and a namespace, writing the root field discards the fields written before, and the fields
      written after it go into its value if that is an object and replace it otherwise. */
  ghost predicate MayStandFor(flat: Object, n: string, v: Json) {
    if !HasNamespace(flat, n) then
      HasRoot(flat, n) && v == flat[Path(DEFAULT, n)]
    else if !HasRoot(flat, n) then
      v.Obj? &&
      (forall f :: f in v.fields <==> HasField(flat, n, f)) &&
      (forall f :: f in v.fields ==> v.fields[f] == flat[Path(n, f)])
    else
      var root := flat[Path(DEFAULT, n)];
      v == root ||
      (v.Obj? &&
       (if root.Obj? then root.fields.Keys <= v.fields.Keys else v.fields.Keys != {}) &&
       forall f :: f in v.fields ==>
         (HasField(flat, n, f) && v.fields[f] == flat[Path(n, f)]) ||
         (root.Obj? && f in root.fields && v.fields[f] == root.fields[f]))
  }

  /** `out` is an unflattening of `flat`. */
  ghost predicate IsUnflattened(flat: Object, out: Object) {
    forall n ::
      (n in out <==> HasRoot(flat, n) || HasNamespace(flat, n)) &&
      (n in out ==> MayStandFor(flat, n, out[n]))
  }

  /** Writing one path into the document under construction. */
  function PutPath(out: Object, path: string, v: Json): Object {
    match Cut(path)
    case NotFound => out
    case Found(ns, field) =>
      if field == "" then out
      else if ns == DEFAULT then out[field := v]
      else
        var bucket := if ns in out && out[ns].Obj? then out[ns].fields else map[];
        out[ns := Obj(bucket[field := v])]
  }

  method UnflattenDocument(flat: Object) returns (out: Object)
    ensures IsUnflattened(flat, out)
  {
    out := map[];
    var rest := flat.Keys;
    ghost var done: Object := map[];
    while rest != {}
      invariant Visited(flat, rest, done)
      invariant IsUnflattened(done, out)
    {
      var path :| path in rest;
      VisitNext(flat, rest, done, path);
      rest := rest - {path};
      UnflattenStep(done, out, path, flat[path]);
      done := done[path := flat[path]];
      out := PutPath(out, path, flat[path]);
    }
    VisitedAll(flat, done);
  }

  lemma {:induction false} UnflattenedExists(flat: Object) returns (out: Object)
    ensures IsUnflattened(flat, out)
    decreases |flat|
  {
    hide IsUnflattened, PutPath;
    if flat.Keys == {} {
      NothingUnflattened(flat);
      out := map[];
    } else {
      var path :| path in flat;
      var rest := flat - {path};
      assert rest.Keys == flat.Keys - {path} && |rest.Keys| == |rest| && |flat.Keys| == |flat|;
      var before := UnflattenedExists(rest);
      UnflattenStep(rest, before, path, flat[path]);
      assert rest[path := flat[path]] == flat;
      out := PutPath(before, path, flat[path]);
    }
  }

  lemma NothingUnflattened(flat: Object)
    requires flat.Keys == {}
    ensures IsUnflattened(flat, map[])
  {
  }

  /** The names that one path concerns. */
  lemma PathNames(flat: Object, path: string, v: Json, n: string)
    requires path !in flat
    ensures
      var flat' := flat[path := v];
      match Cut(path)
      case NotFound => (HasRoot(flat', n) <==> HasRoot(flat, n)) &&
                       forall f :: HasField(flat', n, f) <==> HasField(flat, n, f)
      case Found(ns, field) =>
        (HasRoot(flat', n) <==> HasRoot(flat, n) || (ns == DEFAULT && field == n && n != "")) &&
        forall f :: HasField(flat', n, f) <==>
          HasField(flat, n, f) || (ns != DEFAULT && ns == n && field == f && f != "")
  {
    CutJoin(DEFAULT, n);
    forall f | '/' !in n ensures Cut(Path(n, f)) == Found(n, f) { CutJoin(n, f); }
  }

  lemma UnflattenStep(flat: Object, out: Object, path: string, v: Json)
    requires path !in flat && IsUnflattened(flat, out)
    ensures IsUnflattened(flat[path := v], PutPath(out, path, v))
  {
    var flat', out' := flat[path := v], PutPath(out, path, v);
    forall n
      ensures n in out' <==> HasRoot(flat', n) || HasNamespace(flat', n)
      ensures n in out' ==> MayStandFor(flat', n, out'[n])
    {
      PathNames(flat, path, v, n);
      UnflattenName(flat, out, path, v, n);
    }
  }

  /** The path writes a field of the namespace `n`. */
  predicate IntoNamespace(path: string, n: string) {
    Cut(path).Found? && Cut(path).before != DEFAULT && Cut(path).before == n && Cut(path).after != ""
  }

  /** The path writes the root field `n`. */
  predicate IntoRoot(path: string, n: string) {
    Cut(path) == Found(DEFAULT, n) && n != ""
  }

  lemma UnflattenName(flat: Object, out: Object, path: string, v: Json, n: string)
    requires path !in flat && IsUnflattened(flat, out)
    ensures
      var flat', out' := flat[path := v], PutPath(out, path, v);
      (n in out' <==> HasRoot(flat', n) || HasNamespace(flat', n)) &&
      (n in out' ==> MayStandFor(flat', n, out'[n]))
  {
    hide MayStandFor, HasRoot, HasNamespace, PutPath, Path, Cut;
    if IntoNamespace(path, n) {
      UnflattenField(flat, out, path, v, n, Cut(path).after);
    } else if IntoRoot(path, n) {
      UnflattenRoot(flat, path, v, n);
      PutRoot(out, path, v, n);
    } else {
      PutElsewhere(out, path, v, n);
      NamesElsewhere(flat, path, v, n);
      if n in out { MayStillStandFor(flat, flat[path := v], n, out[n]); }
    }
  }

  lemma PutRoot(out: Object, path: string, v: Json, n: string)
    requires IntoRoot(path, n)
    ensures n in PutPath(out, path, v) && PutPath(out, path, v)[n] == v
  {
  }

  lemma PutElsewhere(out: Object, path: string, v: Json, n: string)
    requires !IntoNamespace(path, n) && !IntoRoot(path, n)
    ensures n in PutPath(out, path, v) <==> n in out
    ensures n in out ==> PutPath(out, path, v)[n] == out[n]
  {
  }

  lemma NamesElsewhere(flat: Object, path: string, v: Json, n: string)
    requires path !in flat && !IntoNamespace(path, n) && !IntoRoot(path, n)
    ensures HasRoot(flat[path := v], n) <==> HasRoot(flat, n)
    ensures HasNamespace(flat[path := v], n) <==> HasNamespace(flat, n)
    ensures forall f :: HasField(flat[path := v], n, f) <==> HasField(flat, n, f)
  {
    hide HasRoot, HasField, Path, Cut;
    PathNames(flat, path, v, n);
  }

  lemma UnflattenRoot(flat: Object, path: string, v: Json, n: string)
    requires path !in flat && IntoRoot(path, n)
    ensures HasRoot(flat[path := v], n) && MayStandFor(flat[path := v], n, v)
  {
  }

  lemma MayStillStandFor(flat: Object, flat': Object, n: string, v: Json)
    requires MayStandFor(flat, n, v) && (HasRoot(flat', n) <==> HasRoot(flat, n))
    requires forall f :: HasField(flat', n, f) <==> HasField(flat, n, f)
    requires forall p :: p in flat ==> p in flat' && flat'[p] == flat[p]
    ensures MayStandFor(flat', n, v)
  {
    hide Path;
    assert HasNamespace(flat', n) <==> HasNamespace(flat, n);
  }

  lemma UnflattenField(flat: Object, out: Object, path: string, v: Json, n: string, field: string)
    requires path !in flat && IntoNamespace(path, n) && field == Cut(path).after
    requires n in out <==> HasRoot(flat, n) || HasNamespace(flat, n)
    requires n in out ==> MayStandFor(flat, n, out[n])
    ensures
      var flat', out' := flat[path := v], PutPath(out, path, v);
      n in out' && HasNamespace(flat', n) && MayStandFor(flat', n, out'[n])
  {
    var flat' := flat[path := v];
    assert path == Path(n, field);
    CutJoin(n, field);
    PathNames(flat, path, v, n);
    assert HasField(flat', n, field);
    assert field in PutPath(out, path, v)[n].fields;
  }

  // ---------- round trips ----------

  /** The documents that survive flattening: no metadata, no object called "default", no empty
      object, no slash in the name of an object, no empty field name. */
  predicate WellFormed(doc: Object) {
    forall k :: k in doc ==>
      k != META &&
      match doc[k]
      case Obj(m) => k != DEFAULT && '/' !in k && m != map[] && "" !in m
      case _ => k != ""
  }

  /** The flat maps that survive unflattening: every path names a field, no root field holds an
      object, the metadata key is not used, no name is both a root field and a namespace. */
  predicate WellFormedFlat(flat: Object) {
    (forall p :: p in flat ==>
      var c := Cut(p);
      c.Found? && c.after != "" && c.before != META &&
      (c.before == DEFAULT ==> c.after != META && !flat[p].Obj?)) &&
    NoClash(flat.Keys)
  }

  /** No name is both a root field and a namespace. */
  predicate NoClash(paths: set<string>) {
    forall p, q :: p in paths && q in paths ==> !Clash(p, q)
  }

  /** `p` is a root field whose name is the namespace of `q`. */
  predicate Clash(p: string, q: string) {
    Cut(p).Found? && Cut(q).Found? &&
    Cut(p).before == DEFAULT && Cut(q).before != DEFAULT && Cut(p).after == Cut(q).before
  }

  /** Flattening a document and unflattening the result gives the document back, for every order
      of the two loops, exactly when the document is well formed; otherwise no order does. */
  lemma RoundTripDocument(doc: Object, flat: Object, back: Object)
    requires IsFlattened(doc, flat) && IsUnflattened(flat, back)
    ensures back == doc <==> WellFormed(doc)
  {
    if WellFormed(doc) { RoundTripDocumentHolds(doc, flat, back); }
    if back == doc { RoundTripDocumentNeeds(doc, flat); }
  }

  lemma RoundTripDocumentHolds(doc: Object, flat: Object, back: Object)
    requires IsFlattened(doc, flat) && IsUnflattened(flat, back) && WellFormed(doc)
    ensures back == doc
  {
    hide IsFlattened, WellFormed, HasRoot, HasNamespace, MayStandFor;
    forall n
      ensures n in back <==> n in doc
      ensures n in doc ==> back[n] == doc[n]
    {
      FlatNames(doc, flat, n);
      NameBack(doc, flat, back, n);
    }
  }

  lemma NameBack(doc: Object, flat: Object, back: Object, n: string)
    requires WellFormed(doc)
    requires n in back <==> HasRoot(flat, n) || HasNamespace(flat, n)
    requires n in back ==> MayStandFor(flat, n, back[n])
    requires HasRoot(flat, n) <==> n in doc && !doc[n].Obj?
    requires HasRoot(flat, n) ==> flat[Path(DEFAULT, n)] == doc[n]
    requires forall f :: HasField(flat, n, f) <==> n in doc && doc[n].Obj? && f in doc[n].fields
    requires forall f :: HasField(flat, n, f) ==> flat[Path(n, f)] == doc[n].fields[f]
    ensures n in back <==> n in doc
    ensures n in doc ==> back[n] == doc[n]
  {
    hide Path, HasRoot;
    if n in doc && doc[n].Obj? {
      var f :| f in doc[n].fields;
      assert HasField(flat, n, f);
      assert back[n].fields == doc[n].fields;
    }
  }

  /** What the flat form of a well formed document says about one name. */
  lemma FlatNames(doc: Object, flat: Object, n: string)
    requires IsFlattened(doc, flat) && WellFormed(doc)
    ensures HasRoot(flat, n) <==> n in doc && !doc[n].Obj?
    ensures HasRoot(flat, n) ==> flat[Path(DEFAULT, n)] == doc[n]
    ensures forall f :: HasField(flat, n, f) <==> n in doc && doc[n].Obj? && f in doc[n].fields
    ensures forall f :: HasField(flat, n, f) ==> flat[Path(n, f)] == doc[n].fields[f]
  {
    if HasRoot(flat, n) { ContributorOf(doc, flat, DEFAULT, n); }
    if n in doc && !doc[n].Obj? { assert Contributes(doc, n, Path(DEFAULT, n), doc[n]); }
    forall f
      ensures HasField(flat, n, f) <==> n in doc && doc[n].Obj? && f in doc[n].fields
      ensures HasField(flat, n, f) ==> flat[Path(n, f)] == doc[n].fields[f]
    {
      if HasField(flat, n, f) { ContributorOf(doc, flat, n, f); }
      if n in doc && doc[n].Obj? && f in doc[n].fields {
        assert Contributes(doc, n, Path(n, f), doc[n].fields[f]);
      }
    }
  }

  /** Where a path came from, in a document whose objects have no slash in their names. */
  lemma ContributorOf(doc: Object, flat: Object, ns: string, f: string)
    requires IsFlattened(doc, flat) && Path(ns, f) in flat && '/' !in ns
    requires forall k :: k in doc && doc[k].Obj? ==> '/' !in k
    ensures
      var v := flat[Path(ns, f)];
      (ns == DEFAULT && f in doc && f != META && !doc[f].Obj? && v == doc[f]) ||
      (ns in doc && ns != META && doc[ns].Obj? && f in doc[ns].fields && v == doc[ns].fields[f])
  {
    var p := Path(ns, f);
    var k :| Contributes(doc, k, p, flat[p]);
    if doc[k].Obj? {
      var g :| g in doc[k].fields && p == Path(k, g) && flat[p] == doc[k].fields[g];
      PathInjective(ns, f, k, g);
    } else {
      PathInjective(ns, f, DEFAULT, k);
    }
  }

  lemma PathInjective(ns: string, f: string, ns': string, f': string)
    requires Path(ns, f) == Path(ns', f') && '/' !in ns && '/' !in ns'
    ensures ns == ns' && f == f'
  {
    CutJoin(ns, f);
    CutJoin(ns', f');
  }

  lemma RoundTripDocumentNeeds(doc: Object, flat: Object)
    requires IsFlattened(doc, flat) && IsUnflattened(flat, doc)
    ensures WellFormed(doc)
  {
    hide Path;
    NoSlashAtAll(doc, flat);
    NoDefaultObject(doc, flat);
    forall k | k in doc
      ensures k != META
      ensures doc[k].Obj? ==> k != DEFAULT && '/' !in k && doc[k].fields != map[] && "" !in doc[k].fields
      ensures !doc[k].Obj? ==> k != ""
    {
      if HasRoot(flat, k) { ContributorOf(doc, flat, DEFAULT, k); }
      if HasNamespace(flat, k) {
        var f :| HasField(flat, k, f);
        ContributorOf(doc, flat, k, f);
      }
    }
  }

  lemma NoSlashAtAll(doc: Object, flat: Object)
    requires IsFlattened(doc, flat) && IsUnflattened(flat, doc)
    ensures forall k :: k in doc && doc[k].Obj? ==> '/' !in k
  {
    hide IsFlattened, IsUnflattened;
    forall k | k in doc && doc[k].Obj? ensures '/' !in k {
      forall k' | IsSlashObject(doc, k') ensures Nested(doc, k') { SlashObjectNests(doc, flat, k'); }
      NoSlashObject(doc, k, {});
    }
  }

  ghost predicate IsSlashObject(doc: Object, k: string) {
    k in doc && '/' in k && doc[k].Obj?
  }

  /** The slash-named object `k` lies inside another one. */
  ghost predicate Nested(doc: Object, k: string) {
    k in doc && exists k' :: IsSlashObject(doc, k') && doc[k] < doc[k']
  }

  lemma SlashObjectNests(doc: Object, flat: Object, k: string)
    requires IsFlattened(doc, flat) && IsUnflattened(flat, doc)
    requires IsSlashObject(doc, k)
    ensures Nested(doc, k)
  {
    hide IsFlattened, IsUnflattened;
    RootOnly(flat, doc, k);
    var k', f := ObjectContributor(doc, flat, k);
    if '/' !in k' {
      PathInjective(DEFAULT, k, k', f);
      NoDefaultObject(doc, flat);
    }
    assert IsSlashObject(doc, k');
  }

  /** Objects cannot nest for ever inside one document. */
  lemma {:induction false} NoSlashObject(doc: Object, k: string, below: set<string>)
    requires forall x {:trigger Nested(doc, x)} :: IsSlashObject(doc, x) ==> Nested(doc, x)
    requires k in doc && below <= doc.Keys && forall b :: b in below ==> doc[b] < doc[k]
    ensures !IsSlashObject(doc, k)
    decreases doc.Keys - below
  {
    if IsSlashObject(doc, k) {
      assert Nested(doc, k);
      var k' :| IsSlashObject(doc, k') && doc[k] < doc[k'];
      NoSlashObject(doc, k', below + {k});
    }
  }

  /** An object called "default" would have to be its own field "default". */
  lemma NoDefaultObject(doc: Object, flat: Object)
    requires IsFlattened(doc, flat) && IsUnflattened(flat, doc)
    ensures DEFAULT in doc ==> !doc[DEFAULT].Obj?
  {
    if DEFAULT in doc && doc[DEFAULT].Obj? {
      RootOnly(flat, doc, DEFAULT);
      var k, f := ObjectContributor(doc, flat, DEFAULT);
      OneSlash(k, f);
    }
  }

  /** A name that cannot be a namespace came from a root path. */
  lemma RootOnly(flat: Object, out: Object, n: string)
    requires IsUnflattened(flat, out) && n in out && (n == DEFAULT || '/' in n)
    ensures HasRoot(flat, n) && out[n] == flat[Path(DEFAULT, n)]
  {
    assert !HasNamespace(flat, n);
  }

  /** An object at a root path came from inside another object. */
  lemma ObjectContributor(doc: Object, flat: Object, n: string) returns (k: string, f: string)
    requires IsFlattened(doc, flat) && Path(DEFAULT, n) in flat && flat[Path(DEFAULT, n)].Obj?
    ensures k in doc && doc[k].Obj? && f in doc[k].fields
    ensures Path(DEFAULT, n) == Path(k, f) && flat[Path(DEFAULT, n)] == doc[k].fields[f]
  {
    var p := Path(DEFAULT, n);
    k :| Contributes(doc, k, p, flat[p]);
    f :| f in doc[k].fields && p == Path(k, f) && flat[p] == doc[k].fields[f];
  }

  lemma OneSlash(k: string, f: string)
    requires Path(DEFAULT, DEFAULT) == Path(k, f)
    ensures k == DEFAULT && f == DEFAULT
  {
    assert Path(DEFAULT, DEFAULT) == "default/default";
    assert Path(k, f)[|k|] == '/';
    assert k == Path(k, f)[..|k|] && f == Path(k, f)[|k| + 1..];
  }

  /** The other way round: unflattening and flattening again, for every order of the two loops. */
  lemma RoundTripFlat(flat: Object, doc: Object, back: Object)
    requires IsUnflattened(flat, doc) && IsFlattened(doc, back)
    ensures back == flat <==> WellFormedFlat(flat)
  {
    if WellFormedFlat(flat) { RoundTripFlatHolds(flat, doc, back); }
    if back == flat {
      RoundTripDocumentNeeds(doc, flat);
      FlattenedWellFormed(doc, flat);
    }
  }

  lemma RoundTripFlatHolds(flat: Object, doc: Object, back: Object)
    requires IsUnflattened(flat, doc) && IsFlattened(doc, back) && WellFormedFlat(flat)
    ensures WellFormed(doc) && back == flat
  {
    UnflattenedWellFormed(flat, doc);
    forall p | p in back || p in flat
      ensures p in back && p in flat && back[p] == flat[p]
    {
      if p in back { PathsAreNamed(doc, back, p); }
      SamePath(flat, doc, back, p);
    }
  }

  lemma SamePath(flat: Object, doc: Object, back: Object, p: string)
    requires WellFormedFlat(flat) && IsUnflattened(flat, doc)
    requires WellFormed(doc) && IsFlattened(doc, back)
    requires Cut(p).Found? && Cut(p).after != ""
    ensures p in back <==> p in flat
    ensures p in flat ==> back[p] == flat[p]
  {
    var Found(ns, f) := Cut(p);
    assert p == Path(ns, f);
    if ns == DEFAULT {
      FlatNames(doc, back, f);
      NameKind(flat, doc, f);
    } else {
      FlatNames(doc, back, ns);
      NameKind(flat, doc, ns);
      assert HasField(flat, ns, f) <==> p in flat;
      assert HasField(back, ns, f) <==> p in back;
    }
  }

  /** In a well formed flat map a name is a root field, a namespace, or absent. */
  lemma NameKind(flat: Object, doc: Object, n: string)
    requires WellFormedFlat(flat) && IsUnflattened(flat, doc)
    ensures HasRoot(flat, n) <==> n in doc && !doc[n].Obj?
    ensures HasRoot(flat, n) ==> doc[n] == flat[Path(DEFAULT, n)]
    ensures forall f :: HasField(flat, n, f) <==> n in doc && doc[n].Obj? && f in doc[n].fields
    ensures forall f :: HasField(flat, n, f) ==> doc[n].fields[f] == flat[Path(n, f)]
  {
    CutJoin(DEFAULT, n);
    if HasNamespace(flat, n) {
      var f :| HasField(flat, n, f);
      CutJoin(n, f);
      assert HasRoot(flat, n) ==> Clash(Path(DEFAULT, n), Path(n, f));
    }
  }

  /** What unflattening makes of a well formed flat map is a well formed document. */
  lemma UnflattenedWellFormed(flat: Object, doc: Object)
    requires WellFormedFlat(flat) && IsUnflattened(flat, doc)
    ensures WellFormed(doc)
  {
    forall k | k in doc
      ensures k != META
      ensures doc[k].Obj? ==> k != DEFAULT && '/' !in k && doc[k].fields != map[] && "" !in doc[k].fields
      ensures !doc[k].Obj? ==> k != ""
    {
      NameKind(flat, doc, k);
      CutJoin(DEFAULT, k);
      if HasNamespace(flat, k) {
        var f :| HasField(flat, k, f);
        CutJoin(k, f);
      }
    }
  }

  /** Flattening a well formed document yields paths that name a namespace and a field. */
  lemma PathsAreNamed(doc: Object, flat: Object, p: string)
    requires WellFormed(doc) && IsFlattened(doc, flat) && p in flat
    ensures Cut(p).Found? && Cut(p).after != "" && Cut(p).before != META
    ensures Cut(p).before == DEFAULT ==> HasRoot(flat, Cut(p).after)
    ensures Cut(p).before != DEFAULT ==> HasField(flat, Cut(p).before, Cut(p).after)
  {
    hide Cut;
    var k :| Contributes(doc, k, p, flat[p]);
    if doc[k].Obj? {
      var f :| f in doc[k].fields && p == Path(k, f);
      CutJoin(k, f);
    } else {
      CutJoin(DEFAULT, k);
    }
  }

  lemma FlattenedWellFormed(doc: Object, flat: Object)
    requires WellFormed(doc) && IsFlattened(doc, flat)
    ensures WellFormedFlat(flat)
  {
    forall p | p in flat
      ensures Cut(p).Found? && Cut(p).after != "" && Cut(p).before != META
      ensures Cut(p).before == DEFAULT ==> Cut(p).after != META && !flat[p].Obj?
    {
      PathsAreNamed(doc, flat, p);
      FlatNames(doc, flat, Cut(p).after);
    }
    forall p, q | p in flat && q in flat ensures !Clash(p, q) {
      PathsAreNamed(doc, flat, p);
      PathsAreNamed(doc, flat, q);
      FlatNames(doc, flat, Cut(p).after);
    }
  }

  // ---------- the flat form as a function ----------

  /** A well formed document has one flat form, whatever the order of the loop. */
  lemma FlattenedUnique(doc: Object, flat: Object, flat': Object)
    requires WellFormed(doc) && IsFlattened(doc, flat) && IsFlattened(doc, flat')
    ensures flat == flat'
  {
    forall p
      ensures p in flat <==> p in flat'
      ensures p in flat ==> p in flat' && flat[p] == flat'[p]
    {
      if p in flat { PathsAreNamed(doc, flat, p); }
      if p in flat' { PathsAreNamed(doc, flat', p); }
      if p in flat || p in flat' {
        var n := if Cut(p).before == DEFAULT then Cut(p).after else Cut(p).before;
        FlatNames(doc, flat, n);
        FlatNames(doc, flat', n);
        assert p == Path(Cut(p).before, Cut(p).after);
      }
    }
  }

  /** Every document has a flat form. */
  lemma FlattenedExists(doc: Object) returns (flat: Object)
    ensures IsFlattened(doc, flat)
    decreases |doc|
  {
    if doc == map[] {
      flat := map[];
    } else {
      var k :| k in doc;
      var rest := map k' | k' in doc && k' != k :: doc[k'];
      assert rest.Keys == doc.Keys - {k};
      assert doc == rest[k := doc[k]];
      flat := FlattenedExists(rest);
      if k == META {
        FlattenNothing(rest, k, doc[k], flat);
      } else if doc[k].Obj? {
        flat := NamespaceFlattenedExists(rest, k, doc[k].fields, flat);
      } else {
        FlattenKey(rest, k, doc[k], flat);
        flat := flat[Path(DEFAULT, k) := doc[k]];
      }
    }
  }

  lemma NamespaceFlattenedExists(done: Object, k: string, m: Object, flat: Object) returns (flat': Object)
    requires k != META && k !in done && IsFlattened(done, flat)
    ensures IsFlattened(done[k := Obj(m)], flat')
    decreases |m|
  {
    if m == map[] {
      FlattenNothing(done, k, Obj(m), flat);
      flat' := flat;
    } else {
      var f :| f in m;
      var rest := map f' | f' in m && f' != f :: m[f'];
      assert rest.Keys == m.Keys - {f};
      assert m == rest[f := m[f]];
      flat' := NamespaceFlattenedExists(done, k, rest, flat);
      FlattenField(done, k, rest, f, m[f], flat');
      flat' := flat'[Path(k, f) := m[f]];
    }
  }

  /** A flat form of the document: the only one, when no path is contributed twice. */
  ghost function Flat(doc: Object): (flat: Object)
    ensures IsFlattened(doc, flat)
  {
    assert exists f :: IsFlattened(doc, f) by { var f := FlattenedExists(doc); }
    var f :| IsFlattened(doc, f);
    f
  }

  // ---------- metadata ----------

  /** The data of a stored document and its metadata. No metadata and empty metadata are the
      same thing to every caller, so both are the empty map. */
  function SplitMeta(doc: Object): (r: (Object, Object)) {
    if META in doc && doc[META].Obj? then (doc - {META}, doc[META].fields) else (doc, map[])
  }

  function WithMeta(data: Object, meta: Object): Object {
    if meta.Keys == {} then data else data[META := Obj(meta)]
  }

  function AuthorityRoot(meta: Object): Object {
    if AUTHORITY in meta && meta[AUTHORITY].Obj? then meta[AUTHORITY].fields else map[]
  }

  function SourceEntry(source: string): Json {
    Obj(map[SOURCE := Str(TrimSpace(source))])
  }

  function EntrySource(entry: Json): string
    requires entry.Obj?
  {
    if SOURCE in entry.fields && entry.fields[SOURCE].Str? then TrimSpace(entry.fields[SOURCE].s) else ""
  }

  /** The source recorded for each path; an entry that is no object counts as absent. */
  function AuthorityOf(meta: Object): map<string, string> {
    ReadRoot(AuthorityRoot(meta))
  }

  function ReadRoot(root: Object): map<string, string> {
    map p | p in root && root[p].Obj? :: EntrySource(root[p])
  }

  method ReadAuthorityPaths(meta: Object) returns (out: map<string, string>)
    ensures out == AuthorityOf(meta)
  {
    var root := AuthorityRoot(meta);
    out := map[];
    var rest := root.Keys;
    while rest != {}
      invariant rest <= root.Keys
      invariant out == map p | p in root && root[p].Obj? && p !in rest :: EntrySource(root[p])
    {
      var path :| path in rest;
      rest := rest - {path};
      if root[path].Obj? {
        out := out[path := EntrySource(root[path])];
      }
    }
  }

  function SetAuthorityPath(meta: Object, path: string, source: string): Object {
    meta[AUTHORITY := Obj(AuthorityRoot(meta)[path := SourceEntry(source)])]
  }

  /** The metadata after the sources of several paths have been set. */
  function SetAuthorityPaths(meta: Object, sources: map<string, string>): Object {
    if sources.Keys == {} then meta
    else meta[AUTHORITY := Obj(AuthorityRoot(meta) + Entries(sources))]
  }

  function Entries(sources: map<string, string>): Object {
    map p | p in sources :: SourceEntry(sources[p])
  }

  lemma SetOneMore(meta: Object, sources: map<string, string>, path: string, source: string)
    ensures SetAuthorityPath(SetAuthorityPaths(meta, sources), path, source) ==
            SetAuthorityPaths(meta, sources[path := source])
  {
    var root, entry := AuthorityRoot(meta), SourceEntry(source);
    EntriesOneMore(sources, path, source);
    AddThenSet(root, Entries(sources), path, entry);
    assert path in sources[path := source];
    if sources.Keys == {} {
      assert root + Entries(sources) == root;
    } else {
      SetTwice(meta, Obj(root + Entries(sources)), Obj((root + Entries(sources))[path := entry]));
    }
  }

  lemma EntriesOneMore(sources: map<string, string>, path: string, source: string)
    ensures Entries(sources[path := source]) == Entries(sources)[path := SourceEntry(source)]
  {
  }

  lemma SetTwice(meta: Object, x: Json, y: Json)
    ensures meta[AUTHORITY := x][AUTHORITY := y] == meta[AUTHORITY := y]
  {
  }

  /** Setting sources replaces the entries of their paths, by the trimmed source and nothing else, and
      leaves the entries of other paths and all other metadata alone. */
  lemma SettingSources(meta: Object, sources: map<string, string>, path: string)
    ensures
      var (before, after) := (AuthorityRoot(meta), AuthorityRoot(SetAuthorityPaths(meta, sources)));
      (path in sources ==> path in after && after[path] == Obj(map["source" := Str(TrimSpace(sources[path]))])) &&
      (path !in sources ==> (path in after <==> path in before) && (path in before ==> after[path] == before[path]))
    ensures forall k :: k != "authority" ==>
      (k in SetAuthorityPaths(meta, sources) <==> k in meta) && (k in meta ==> SetAuthorityPaths(meta, sources)[k] == meta[k])
  {
    hide TrimSpace;
    assert AUTHORITY == "authority" && SOURCE == "source";
    var after := SetAuthorityPaths(meta, sources);
    if sources.Keys != {} {
      assert AuthorityRoot(after) == AuthorityRoot(meta) + Entries(sources);
    }
  }

  /** Reading the sources back after setting some of them. */
  lemma SetThenRead(meta: Object, sources: map<string, string>)
    requires forall p :: p in sources ==> TrimSpace(sources[p]) == sources[p]
    ensures AuthorityOf(SetAuthorityPaths(meta, sources)) == AuthorityOf(meta) + sources
  {
    assert AuthorityRoot(SetAuthorityPaths(meta, sources)) == AuthorityRoot(meta) + Entries(sources);
    forall p | p in sources ensures EntrySource(SourceEntry(sources[p])) == sources[p] {
      ReadEntry(sources[p]);
    }
    ReadEntries(AuthorityRoot(meta), Entries(sources), sources);
  }

  lemma ReadEntry(source: string)
    ensures EntrySource(SourceEntry(source)) == TrimSpace(source)
  {
    TrimIdempotent(source);
  }

  lemma ReadEntries(root: Object, entries: Object, sources: map<string, string>)
    requires entries.Keys == sources.Keys
    requires forall p :: p in entries ==> entries[p].Obj? && EntrySource(entries[p]) == sources[p]
    ensures ReadRoot(root + entries) == ReadRoot(root) + sources
  {
  }

  /** A stored document: data that survives flattening, and metadata. */
  predicate StoredWellFormed(doc: Object) {
    WellFormed(SplitMeta(doc).0)
  }

  lemma SplitWithMeta(data: Object, meta: Object)
    requires WellFormed(data)
    ensures SplitMeta(WithMeta(data, meta)) == (data, meta)
  {
    assert META !in data;
    assert data[META := Obj(meta)] - {META} == data;
  }

  // ---------- conflict keys ----------

  /** The namespace and field under which a conflict at a path is recorded. */
  function SplitNsField(path: string): (r: (string, string)) {
    match Cut(path)
    case NotFound => (DEFAULT, path)
    case Found(ns, field) => (ns, field)
  }

  function JoinNsField(ns: string, field: string): string {
    Path(ns, field)
  }

  /** Joining what was split gives the path back exactly when the path has a slash, as every
      path of a flat document has. */
  lemma JoinSplit(path: string)
    ensures JoinNsField(SplitNsField(path).0, SplitNsField(path).1) == path <==> '/' in path
  {
    if '/' !in path {
      assert '/' == Path(DEFAULT, path)[|DEFAULT|];
    }
  }

  lemma FlattenedPathsHaveSlash(doc: Object, flat: Object, path: string)
    requires IsFlattened(doc, flat) && path in flat
    ensures '/' in path
  {
    var k :| Contributes(doc, k, path, flat[path]);
    if doc[k].Obj? {
      var f :| f in doc[k].fields && path == Path(k, f);
      assert path[|k|] == '/';
    } else {
      assert path[|DEFAULT|] == '/';
    }
  }
}
