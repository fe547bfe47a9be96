/**
 * What the reconciliation promises: `injectValues` reports exactly the
 * changes it makes and is idempotent; a triple missing from the store is
 * created once, an existing one reused; missing roles are fatal before
 * anything is loaded; role attachment only adds; and a second load of the
 * same configuration changes nothing.
 */
module ReconcilerProperties {
  import opened Wrappers
  import opened Php
  import opened OrderedMaps
  import opened PermissionConfiguration
  import opened PermissionProcessor
  import opened Reconciler

  // ---------------------------------------------------------------------------
  // injectValues
  // ---------------------------------------------------------------------------

  /** `injectValues` answers true exactly when it changes the record. */
  lemma InjectReportsChange(p: PermissionRecord, c: PermissionConfig)
    ensures Differs(p, c) <==> Injected(p, c) != p
  {
    if ContextsDiffer(p, c) {
      assert Injected(p, c).contexts == c.contexts != p.contexts;
    }
  }

  /**
   * Afterwards every compared value agrees with the configuration (the
   * contexts as joined strings), the triple is untouched and no capability
   * is gained or lost.
   */
  lemma InjectAgrees(p: PermissionRecord, c: PermissionConfig)
    ensures var q := Injected(p, c);
            && Implode(":", q.contexts) == Implode(":", c.contexts)
            && (q.labelText.Some? <==> p.labelText.Some?)
            && (q.labelText.Some? ==> q.labelText.value == c.labelText)
            && (q.detailLabel.Some? <==> p.detailLabel.Some?)
            && (q.detailLabel.Some? ==> q.detailLabel.value == c.detailLabel)
            && (q.translationDomain.Some? <==> p.translationDomain.Some?)
            && (q.translationDomain.Some? ==> q.translationDomain.value == c.translationDomain)
            && IdentityOf(q) == IdentityOf(p)
  {
  }

  /** A second `injectValues` with the same configuration changes nothing and answers false. */
  lemma InjectIdempotent(p: PermissionRecord, c: PermissionConfig)
    ensures !Differs(Injected(p, c), c)
    ensures Injected(Injected(p, c), c) == Injected(p, c)
  {
    InjectAgrees(p, c);
    InjectReportsChange(Injected(p, c), c);
  }

  /**
   * Contexts are compared joined: a record holding the one context "a:b" is
   * not updated by a configuration listing "a" and "b".
   */
  lemma ContextsComparedJoined(p: PermissionRecord, c: PermissionConfig)
    requires p.contexts == [Str("a:b")] && c.contexts == [Str("a"), Str("b")]
    requires !OptionDiffers(p.labelText, c.labelText)
    requires !OptionDiffers(p.detailLabel, c.detailLabel)
    requires !OptionDiffers(p.translationDomain, c.translationDomain)
    ensures !Differs(p, c) && Injected(p, c) == p
  {
    assert Implode(":", c.contexts) == "a" + ":" + "b";
  }

  // ---------------------------------------------------------------------------
  // One step of addPermission
  // ---------------------------------------------------------------------------

  /**
   * A triple absent from the index gets a new record with exactly that
   * operation, class and field; it joins the upsert batch and
   * `hasNewPermissions` becomes true.
   */
  lemma AbsentTripleCreatesRecord(caps: Capabilities, index: map<Identity, nat>, s: PermState, v: Visit)
    requires IndexSound(index, s.heap) && v.id !in index
    ensures var r := VisitPermission(caps, index, s, v);
            && |r.heap| == |s.heap| + 1 && r.heap[..|s.heap|] == s.heap
            && IdentityOf(r.heap[|s.heap|]) == v.id
            && !Differs(r.heap[|s.heap|], v.cfg)
            && r.upserts == s.upserts + [|s.heap|]
            && r.full == s.full[v.id := |s.heap|]
            && r.hasNew && r.hasUpdated == s.hasUpdated
  {
    InjectIdempotent(NewRecord(caps, v.id), v.cfg);
    var r := VisitPermission(caps, index, s, v);
    assert r.heap[..|s.heap|] == s.heap;
  }

  /**
   * A triple present in the index reuses its record: no record is created,
   * the record joins the upsert batch, and `hasUpdatedPermissions` becomes
   * true only when `injectValues` reports a change.
   */
  lemma ExistingTripleReusesRecord(caps: Capabilities, index: map<Identity, nat>, s: PermState, v: Visit)
    requires IndexSound(index, s.heap) && v.id in index
    ensures var r := VisitPermission(caps, index, s, v);
            var ref := index[v.id];
            && r.heap == s.heap[ref := Injected(s.heap[ref], v.cfg)]
            && !Differs(r.heap[ref], v.cfg)
            && r.upserts == s.upserts + [ref]
            && r.full == s.full[v.id := ref]
            && r.hasNew == s.hasNew
            && (r.hasUpdated <==> s.hasUpdated || Injected(s.heap[ref], v.cfg) != s.heap[ref])
  {
    InjectIdempotent(s.heap[index[v.id]], v.cfg);
    InjectReportsChange(s.heap[index[v.id]], v.cfg);
  }

  // ---------------------------------------------------------------------------
  // The index
  // ---------------------------------------------------------------------------

  /** Every stored triple is in the index. */
  lemma IndexHas(records: seq<PermissionRecord>, j: nat)
    requires j < |records|
    ensures IdentityOf(records[j]) in Index(records)
  {
    IndexFacts(records);
  }

  /** No record after the one the index names has the same triple. */
  lemma IndexNamesLast(records: seq<PermissionRecord>, t: Identity, j: nat)
    requires t in Index(records) && Index(records)[t] < j < |records|
    ensures IdentityOf(records[j]) != t
  {
    IndexFacts(records);
  }

  /** The last stored record with a triple is the one the index names. */
  lemma IndexLastWins(records: seq<PermissionRecord>, j: nat)
    requires j < |records|
    requires forall k :: j < k < |records| ==> IdentityOf(records[k]) != IdentityOf(records[j])
    ensures IdentityOf(records[j]) in Index(records) && Index(records)[IdentityOf(records[j])] == j
  {
    IndexFacts(records);
  }

  // ---------------------------------------------------------------------------
  // Distinct triples in a well-formed configuration
  // ---------------------------------------------------------------------------

  predicate DistinctIds(vs: seq<Visit>) {
    forall i, j :: 0 <= i < j < |vs| ==> vs[i].id != vs[j].id
  }

  lemma DistinctConcat(a: seq<Visit>, b: seq<Visit>)
    requires DistinctIds(a) && DistinctIds(b)
    requires forall i, j :: 0 <= i < |a| && 0 <= j < |b| ==> a[i].id != b[j].id
    ensures DistinctIds(a + b)
  {
    forall i, j | 0 <= i < j < |a + b| ensures (a + b)[i].id != (a + b)[j].id {
      if j < |a| {
      } else if i >= |a| {
        assert (a + b)[i] == b[i - |a|] && (a + b)[j] == b[j - |a|];
      } else {
        assert (a + b)[j] == b[j - |a|];
      }
    }
  }

  predicate FieldId(id: Identity, cls: string, fields: seq<(string, FieldConfig)>) {
    id.cls == Some(cls) && id.field.Some? && id.field.value in Keys(fields)
  }

  predicate ClassId(id: Identity, classes: seq<(string, ClassConfig)>) {
    id.cls.Some? && id.cls.value in Keys(classes)
  }

  /** Every visit of the field scopes of class `cls` carries `cls` and one of its field names. */
  lemma {:induction false} FieldVisitsIds(cls: string, fields: seq<(string, FieldConfig)>)
    ensures forall i :: 0 <= i < |FieldVisits(cls, fields)| ==> FieldId(FieldVisits(cls, fields)[i].id, cls, fields)
    decreases |fields|
  {
    if fields != [] {
      var n := |fields| - 1;
      FieldVisitsIds(cls, fields[..n]);
      var a: seq<Visit> := FieldVisits(cls, fields[..n]);
      var b: seq<Visit> := ScopeVisits(Some(cls), Some(fields[n].0), fields[n].1.permissions);
      assert FieldVisits(cls, fields) == a + b;
      forall i | 0 <= i < |a + b|
        ensures FieldId((a + b)[i].id, cls, fields)
      {
        if i < |a| {
          assert (a + b)[i] == a[i];
          assert a[i].id.field.value in Keys(fields[..n]);
          var k :| 0 <= k < n && Keys(fields[..n])[k] == a[i].id.field.value;
          assert Keys(fields)[k] == fields[k].0 == fields[..n][k].0;
        } else {
          assert (a + b)[i] == b[i - |a|];
          assert Keys(fields)[n] == fields[n].0;
        }
      }
    }
  }

  lemma {:induction false} FieldVisitsDistinct(cls: string, fields: seq<(string, FieldConfig)>)
    requires DistinctKeys(fields)
    requires forall j :: 0 <= j < |fields| ==> DistinctKeys(fields[j].1.permissions)
    ensures DistinctIds(FieldVisits(cls, fields))
    decreases |fields|
  {
    if fields != [] {
      var n := |fields| - 1;
      FieldVisitsDistinct(cls, fields[..n]);
      FieldVisitsIds(cls, fields[..n]);
      var a: seq<Visit> := FieldVisits(cls, fields[..n]);
      var b: seq<Visit> := ScopeVisits(Some(cls), Some(fields[n].0), fields[n].1.permissions);
      assert DistinctKeys(fields[n].1.permissions);
      forall i, j | 0 <= i < |a| && 0 <= j < |b| ensures a[i].id != b[j].id {
        var k :| 0 <= k < n && Keys(fields[..n])[k] == a[i].id.field.value;
        assert fields[k].0 != fields[n].0;
      }
      DistinctConcat(a, b);
    }
  }

  /** Every visit of the class scopes carries the name of one of the classes. */
  lemma {:induction false} ClassVisitsIds(classes: seq<(string, ClassConfig)>)
    ensures forall i :: 0 <= i < |ClassVisits(classes)| ==> ClassId(ClassVisits(classes)[i].id, classes)
    decreases |classes|
  {
    if classes != [] {
      var n := |classes| - 1;
      ClassVisitsIds(classes[..n]);
      FieldVisitsIds(classes[n].0, classes[n].1.fields);
      var a: seq<Visit> := ClassVisits(classes[..n]);
      var b: seq<Visit> := ClassScopeVisits(classes[n].0, classes[n].1);
      var g: seq<Visit> := ScopeVisits(Some(classes[n].0), None, classes[n].1.permissions);
      var f: seq<Visit> := FieldVisits(classes[n].0, classes[n].1.fields);
      assert ClassVisits(classes) == a + b;
      forall i | 0 <= i < |a + b|
        ensures ClassId((a + b)[i].id, classes)
      {
        if i < |a| {
          assert (a + b)[i] == a[i];
          var k :| 0 <= k < n && Keys(classes[..n])[k] == a[i].id.cls.value;
          assert Keys(classes)[k] == classes[k].0 == classes[..n][k].0;
        } else {
          assert (a + b)[i] == b[i - |a|];
          assert Keys(classes)[n] == classes[n].0;
          if i - |a| < |g| {
            assert b[i - |a|] == g[i - |a|];
          } else {
            assert b[i - |a|] == f[i - |a| - |g|];
          }
        }
      }
    }
  }

  lemma ClassScopeDistinct(cls: string, c: ClassConfig)
    requires ClassWellFormed(c)
    ensures DistinctIds(ClassScopeVisits(cls, c))
  {
    FieldVisitsDistinct(cls, c.fields);
    FieldVisitsIds(cls, c.fields);
    DistinctConcat(ScopeVisits(Some(cls), None, c.permissions), FieldVisits(cls, c.fields));
  }

  lemma {:induction false} ClassVisitsDistinct(classes: seq<(string, ClassConfig)>)
    requires DistinctKeys(classes)
    requires forall i :: 0 <= i < |classes| ==> ClassWellFormed(classes[i].1)
    ensures DistinctIds(ClassVisits(classes))
    decreases |classes|
  {
    if classes != [] {
      var n := |classes| - 1;
      ClassVisitsDistinct(classes[..n]);
      ClassVisitsIds(classes[..n]);
      ClassScopeDistinct(classes[n].0, classes[n].1);
      FieldVisitsIds(classes[n].0, classes[n].1.fields);
      var a: seq<Visit> := ClassVisits(classes[..n]);
      var g: seq<Visit> := ScopeVisits(Some(classes[n].0), None, classes[n].1.permissions);
      var f: seq<Visit> := FieldVisits(classes[n].0, classes[n].1.fields);
      var b: seq<Visit> := g + f;
      forall i, j | 0 <= i < |a| && 0 <= j < |b| ensures a[i].id != b[j].id {
        var k :| 0 <= k < n && Keys(classes[..n])[k] == a[i].id.cls.value;
        assert classes[k].0 != classes[n].0;
        if j < |g| {
          assert b[j] == g[j];
        } else {
          assert b[j] == f[j - |g|];
        }
      }
      DistinctConcat(a, b);
    }
  }

  /**
   * Permissions are keyed by operation, classes by name and fields by name,
   * so in a well-formed configuration no triple is visited twice.
   */
  lemma VisitIdsDistinct(r: Resolved)
    requires ResolvedWellFormed(r)
    ensures DistinctIds(Visits(r))
  {
    ClassVisitsDistinct(r.classes);
    ClassVisitsIds(r.classes);
    DistinctConcat(ScopeVisits(None, None, r.permissions), ClassVisits(r.classes));
  }

  // ---------------------------------------------------------------------------
  // The first load settles every visited permission
  // ---------------------------------------------------------------------------

  function Ids(vs: seq<Visit>): (r: seq<Identity>)
    ensures |r| == |vs| && forall i :: 0 <= i < |vs| ==> r[i] == vs[i].id
  {
    seq(|vs|, i requires 0 <= i < |vs| => vs[i].id)
  }

  /** Stored records keep their triples. */
  predicate StoredKept(store: seq<PermissionRecord>, heap: seq<PermissionRecord>) {
    |store| <= |heap| && forall j :: 0 <= j < |store| ==> IdentityOf(heap[j]) == IdentityOf(store[j])
  }

  /** Each record beyond the stored ones has a triple the index lacks, and is the one `full` names for it. */
  predicate NewTracked(index: map<Identity, nat>, n: nat, heap: seq<PermissionRecord>, full: map<Identity, nat>) {
    forall j :: n <= j < |heap| ==>
      IdentityOf(heap[j]) !in index && IdentityOf(heap[j]) in full && full[IdentityOf(heap[j])] == j
  }

  /** `full` holds only triples of the first `k` visits. */
  predicate FullVisited(full: map<Identity, nat>, vs: seq<Visit>, k: nat)
    requires k <= |vs|
  {
    forall t :: t in full ==> t in Ids(vs[..k])
  }

  /**
   * Each of the first `k` visited triples names, as the index does when the
   * triple is stored, a record that agrees with its configuration.
   */
  predicate VisitsSettled(index: map<Identity, nat>, vs: seq<Visit>, k: nat, heap: seq<PermissionRecord>, full: map<Identity, nat>)
    requires k <= |vs|
  {
    forall i :: 0 <= i < k ==>
      && vs[i].id in full && full[vs[i].id] < |heap|
      && (vs[i].id in index ==> full[vs[i].id] == index[vs[i].id])
      && !Differs(heap[full[vs[i].id]], vs[i].cfg)
  }

  /** The state of the walk after the first `k` visits, started on the stored records `store`. */
  predicate Tracked(store: seq<PermissionRecord>, vs: seq<Visit>, k: nat, s: PermState)
    requires k <= |vs|
  {
    && StoredKept(store, s.heap)
    && NewTracked(Index(store), |store|, s.heap, s.full)
    && FullSound(s.full, s.heap)
    && FullVisited(s.full, vs, k)
    && VisitsSettled(Index(store), vs, k, s.heap, s.full)
  }

  /** The triple of the next visit is not yet in `full`, and the visited triples grow by it. */
  lemma NextTripleUnvisited(vs: seq<Visit>, k: nat, full: map<Identity, nat>, ref: nat)
    requires DistinctIds(vs) && k < |vs| && FullVisited(full, vs, k)
    ensures vs[k].id !in full
    ensures FullVisited(full[vs[k].id := ref], vs, k + 1)
  {
    forall t | t in full ensures t in Ids(vs[..k + 1]) {
      var i :| 0 <= i < k && Ids(vs[..k])[i] == t;
      assert Ids(vs[..k + 1])[i] == t;
    }
    assert Ids(vs[..k + 1])[k] == vs[k].id;
  }

  lemma AppendKeepsSettled(index: map<Identity, nat>, vs: seq<Visit>, k: nat, s: PermState, r: PermState)
    requires k < |vs| && VisitsSettled(index, vs, k, s.heap, s.full) && vs[k].id !in s.full
    requires |r.heap| == |s.heap| + 1 && r.heap[..|s.heap|] == s.heap
    requires vs[k].id !in index && !Differs(r.heap[|s.heap|], vs[k].cfg)
    requires r.full == s.full[vs[k].id := |s.heap|]
    ensures VisitsSettled(index, vs, k + 1, r.heap, r.full)
  {
    forall i | 0 <= i < k ensures r.heap[r.full[vs[i].id]] == s.heap[s.full[vs[i].id]] {
      assert r.heap[s.full[vs[i].id]] == r.heap[..|s.heap|][s.full[vs[i].id]];
    }
  }

  lemma AppendKeepsNew(index: map<Identity, nat>, n: nat, s: PermState, r: PermState, t: Identity)
    requires NewTracked(index, n, s.heap, s.full) && t !in s.full && t !in index
    requires |r.heap| == |s.heap| + 1 && r.heap[..|s.heap|] == s.heap && IdentityOf(r.heap[|s.heap|]) == t
    requires r.full == s.full[t := |s.heap|]
    ensures NewTracked(index, n, r.heap, r.full)
  {
    forall j | n <= j < |s.heap| ensures r.heap[j] == s.heap[j] {
      assert r.heap[j] == r.heap[..|s.heap|][j];
    }
  }

  lemma AppendKeepsStored(store: seq<PermissionRecord>, s: seq<PermissionRecord>, r: seq<PermissionRecord>)
    requires StoredKept(store, s) && |r| == |s| + 1 && r[..|s|] == s
    ensures StoredKept(store, r)
  {
    forall j | 0 <= j < |store| ensures r[j] == s[j] {
      assert r[j] == r[..|s|][j];
    }
  }

  lemma AppendKeepsFullSound(s: PermState, r: PermState, t: Identity)
    requires FullSound(s.full, s.heap)
    requires |r.heap| == |s.heap| + 1 && r.heap[..|s.heap|] == s.heap && IdentityOf(r.heap[|s.heap|]) == t
    requires r.full == s.full[t := |s.heap|]
    ensures FullSound(r.full, r.heap)
  {
    forall j | 0 <= j < |s.heap| ensures r.heap[j] == s.heap[j] {
      assert r.heap[j] == r.heap[..|s.heap|][j];
    }
  }

  lemma AbsentStepTracked(store: seq<PermissionRecord>, vs: seq<Visit>, k: nat, s: PermState, r: PermState)
    requires DistinctIds(vs) && k < |vs| && Tracked(store, vs, k, s)
    requires vs[k].id !in Index(store)
    requires |r.heap| == |s.heap| + 1 && r.heap[..|s.heap|] == s.heap
    requires IdentityOf(r.heap[|s.heap|]) == vs[k].id && !Differs(r.heap[|s.heap|], vs[k].cfg)
    requires r.full == s.full[vs[k].id := |s.heap|]
    ensures Tracked(store, vs, k + 1, r)
  {
    NextTripleUnvisited(vs, k, s.full, |s.heap|);
    AppendKeepsStored(store, s.heap, r.heap);
    AppendKeepsNew(Index(store), |store|, s, r, vs[k].id);
    AppendKeepsFullSound(s, r, vs[k].id);
    AppendKeepsSettled(Index(store), vs, k, s, r);
  }

  lemma ReuseKeepsSettled(index: map<Identity, nat>, vs: seq<Visit>, k: nat, s: PermState, r: PermState, ref: nat)
    requires k < |vs| && VisitsSettled(index, vs, k, s.heap, s.full) && vs[k].id !in s.full
    requires FullSound(s.full, s.heap) && ref < |s.heap| && IdentityOf(s.heap[ref]) == vs[k].id
    requires |r.heap| == |s.heap| && forall j :: 0 <= j < |s.heap| && j != ref ==> r.heap[j] == s.heap[j]
    requires vs[k].id in index && index[vs[k].id] == ref && !Differs(r.heap[ref], vs[k].cfg)
    requires r.full == s.full[vs[k].id := ref]
    ensures VisitsSettled(index, vs, k + 1, r.heap, r.full)
  {
    forall i | 0 <= i < k ensures s.full[vs[i].id] != ref {
      assert IdentityOf(s.heap[s.full[vs[i].id]]) == vs[i].id;
    }
  }

  lemma ReuseKeepsFullSound(s: PermState, r: PermState, ref: nat, t: Identity)
    requires FullSound(s.full, s.heap) && ref < |s.heap| && IdentityOf(s.heap[ref]) == t
    requires |r.heap| == |s.heap| && IdentityOf(r.heap[ref]) == t
    requires forall j :: 0 <= j < |s.heap| && j != ref ==> r.heap[j] == s.heap[j]
    requires r.full == s.full[t := ref]
    ensures FullSound(r.full, r.heap)
  {
  }

  lemma ExistingStepTracked(store: seq<PermissionRecord>, vs: seq<Visit>, k: nat, s: PermState, r: PermState)
    requires DistinctIds(vs) && k < |vs| && Tracked(store, vs, k, s)
    requires vs[k].id in Index(store)
    requires var ref := Index(store)[vs[k].id];
             && |r.heap| == |s.heap|
             && (forall j :: 0 <= j < |s.heap| && j != ref ==> r.heap[j] == s.heap[j])
             && IdentityOf(r.heap[ref]) == vs[k].id && !Differs(r.heap[ref], vs[k].cfg)
             && r.full == s.full[vs[k].id := ref]
    ensures Tracked(store, vs, k + 1, r)
  {
    var index := Index(store);
    var ref := index[vs[k].id];
    NextTripleUnvisited(vs, k, s.full, ref);
    assert ref < |store| && IdentityOf(store[ref]) == vs[k].id == IdentityOf(s.heap[ref]);
    assert StoredKept(store, r.heap);
    assert NewTracked(index, |store|, r.heap, r.full);
    ReuseKeepsFullSound(s, r, ref, vs[k].id);
    ReuseKeepsSettled(index, vs, k, s, r, ref);
  }

  lemma TrackedStep(caps: Capabilities, store: seq<PermissionRecord>, vs: seq<Visit>, k: nat, s: PermState)
    requires DistinctIds(vs) && k < |vs|
    requires IndexSound(Index(store), s.heap) && Tracked(store, vs, k, s)
    ensures Tracked(store, vs, k + 1, VisitPermission(caps, Index(store), s, vs[k]))
  {
    var index := Index(store);
    var r := VisitPermission(caps, index, s, vs[k]);
    if vs[k].id !in index {
      AbsentTripleCreatesRecord(caps, index, s, vs[k]);
      AbsentStepTracked(store, vs, k, s, r);
    } else {
      ExistingTripleReusesRecord(caps, index, s, vs[k]);
      InjectAgrees(s.heap[index[vs[k].id]], vs[k].cfg);
      ExistingStepTracked(store, vs, k, s, r);
    }
  }

  lemma {:induction false} TrackedWalk(caps: Capabilities, store: seq<PermissionRecord>, vs: seq<Visit>, k: nat)
    requires DistinctIds(vs) && k <= |vs|
    ensures Tracked(store, vs, k, VisitAll(caps, Index(store), StartPerm(store), vs[..k]))
  {
    if k == 0 {
      assert vs[..0] == [];
    } else {
      TrackedWalk(caps, store, vs, k - 1);
      assert vs[..k][..k - 1] == vs[..k - 1];
      TrackedStep(caps, store, vs, k - 1, VisitAll(caps, Index(store), StartPerm(store), vs[..k - 1]));
    }
  }

  /**
   * After a load over visits with distinct triples, the index of the records
   * names, for every visited triple, the record `$fullPermissions` holds for
   * it, and that record agrees with the triple's configuration.
   */
  lemma FirstLoadSettles(caps: Capabilities, store: seq<PermissionRecord>, vs: seq<Visit>)
    requires DistinctIds(vs)
    ensures var s := VisitAll(caps, Index(store), StartPerm(store), vs);
            forall i :: 0 <= i < |vs| ==>
              && vs[i].id in s.full && vs[i].id in Index(s.heap)
              && Index(s.heap)[vs[i].id] == s.full[vs[i].id]
              && !Differs(s.heap[s.full[vs[i].id]], vs[i].cfg)
  {
    var index := Index(store);
    var s := VisitAll(caps, index, StartPerm(store), vs);
    TrackedWalk(caps, store, vs, |vs|);
    assert vs[..|vs|] == vs;
    forall i | 0 <= i < |vs|
      ensures vs[i].id in Index(s.heap) && Index(s.heap)[vs[i].id] == s.full[vs[i].id]
    {
      var t := vs[i].id;
      var p := s.full[t];
      assert IdentityOf(s.heap[p]) == t;
      forall q | p < q < |s.heap| ensures IdentityOf(s.heap[q]) != t {
        if p < |store| {
          IndexHas(store, p);
          assert IdentityOf(store[p]) == t && t in index;
          assert index[t] == p;
          if q < |store| {
            assert IdentityOf(s.heap[q]) == IdentityOf(store[q]);
            IndexNamesLast(store, t, q);
          }
        } else {
          assert s.full[IdentityOf(s.heap[q])] == q;
        }
      }
      IndexLastWins(s.heap, p);
    }
  }

  predicate DistinctTriples(records: seq<PermissionRecord>) {
    forall j, k :: 0 <= j < k < |records| ==> IdentityOf(records[j]) != IdentityOf(records[k])
  }

  /**
   * No duplicate identity: when the stored triples are distinct and no
   * triple is visited twice, the records after the load have distinct
   * triples too, and every record beyond the stored ones is new.
   */
  lemma LoadKeepsTriplesDistinct(caps: Capabilities, store: seq<PermissionRecord>, vs: seq<Visit>)
    requires DistinctTriples(store) && DistinctIds(vs)
    ensures var s := VisitAll(caps, Index(store), StartPerm(store), vs);
            && DistinctTriples(s.heap)
            && forall j :: |store| <= j < |s.heap| ==> IdentityOf(s.heap[j]) !in Index(store)
  {
    var index := Index(store);
    var s := VisitAll(caps, index, StartPerm(store), vs);
    TrackedWalk(caps, store, vs, |vs|);
    assert vs[..|vs|] == vs;
    forall j, k | 0 <= j < k < |s.heap| ensures IdentityOf(s.heap[j]) != IdentityOf(s.heap[k]) {
      if k < |store| {
        assert IdentityOf(store[j]) != IdentityOf(store[k]);
      } else if j < |store| {
        IndexHas(store, j);
        assert IdentityOf(s.heap[j]) == IdentityOf(store[j]) && IdentityOf(store[j]) in index;
      }
    }
  }

  /**
   * A walk over visits whose records are all found in the index and already
   * agree with their configurations changes no record and sets no flag;
   * `$fullPermissions` names the indexed records.
   */
  lemma {:induction false} SettledWalkChangesNothing(caps: Capabilities, index: map<Identity, nat>, s: PermState, vs: seq<Visit>)
    requires IndexSound(index, s.heap)
    requires forall i :: 0 <= i < |vs| ==> vs[i].id in index && !Differs(s.heap[index[vs[i].id]], vs[i].cfg)
    ensures var r := VisitAll(caps, index, s, vs);
            r.heap == s.heap && r.hasNew == s.hasNew && r.hasUpdated == s.hasUpdated
    decreases |vs|
  {
    if vs != [] {
      var n := |vs| - 1;
      SettledPrefix(index, s.heap, vs);
      SettledWalkChangesNothing(caps, index, s, vs[..n]);
      SettledVisitChangesNothing(caps, index, VisitAll(caps, index, s, vs[..n]), vs[n]);
    }
  }

  /** Every visit of a settled walk's prefix is settled too. */
  lemma SettledPrefix(index: map<Identity, nat>, heap: seq<PermissionRecord>, vs: seq<Visit>)
    requires IndexSound(index, heap) && |vs| > 0
    requires forall i :: 0 <= i < |vs| ==> vs[i].id in index && !Differs(heap[index[vs[i].id]], vs[i].cfg)
    ensures var pre := vs[..|vs| - 1];
            forall i :: 0 <= i < |pre| ==> pre[i].id in index && !Differs(heap[index[pre[i].id]], pre[i].cfg)
  {
    var pre := vs[..|vs| - 1];
    forall i | 0 <= i < |pre| ensures pre[i] == vs[i] {
    }
  }

  /** A settled triple's visit leaves the records and both permission flags as they were. */
  lemma SettledVisitChangesNothing(caps: Capabilities, index: map<Identity, nat>, s: PermState, v: Visit)
    requires IndexSound(index, s.heap) && v.id in index && !Differs(s.heap[index[v.id]], v.cfg)
    ensures var r := VisitPermission(caps, index, s, v);
            r.heap == s.heap && r.hasNew == s.hasNew && r.hasUpdated == s.hasUpdated
  {
    ExistingTripleReusesRecord(caps, index, s, v);
    InjectReportsChange(s.heap[index[v.id]], v.cfg);
  }

  lemma {:induction false} SettledWalkFull(caps: Capabilities, index: map<Identity, nat>, s: PermState, vs: seq<Visit>)
    requires IndexSound(index, s.heap)
    requires forall i :: 0 <= i < |vs| ==> vs[i].id in index
    ensures var r := VisitAll(caps, index, s, vs);
            forall i :: 0 <= i < |vs| ==> vs[i].id in r.full && r.full[vs[i].id] == index[vs[i].id]
    decreases |vs|
  {
    if vs != [] {
      var n := |vs| - 1;
      forall i | 0 <= i < n
        ensures vs[..n][i].id in index
      {
        assert vs[..n][i] == vs[i];
      }
      SettledWalkFull(caps, index, s, vs[..n]);
      var m := VisitAll(caps, index, s, vs[..n]);
      var r := VisitPermission(caps, index, m, vs[n]);
      assert r == VisitAll(caps, index, s, vs);
      ExistingTripleReusesRecord(caps, index, m, vs[n]);
      SettledStep(m.full, index, vs);
    }
  }

  /** Filing the last visit under its indexed record keeps the earlier visits settled. */
  lemma SettledStep(full: map<Identity, nat>, index: map<Identity, nat>, vs: seq<Visit>)
    requires |vs| > 0 && forall i :: 0 <= i < |vs| ==> vs[i].id in index
    requires var pre := vs[..|vs| - 1];
             forall i :: 0 <= i < |pre| ==> pre[i].id in full && full[pre[i].id] == index[pre[i].id]
    ensures var r := full[vs[|vs| - 1].id := index[vs[|vs| - 1].id]];
            forall i :: 0 <= i < |vs| ==> vs[i].id in r && r[vs[i].id] == index[vs[i].id]
  {
    var n := |vs| - 1;
    forall i | 0 <= i < n
      ensures vs[i].id in full && full[vs[i].id] == index[vs[i].id]
    {
      assert vs[..n][i] == vs[i];
    }
  }

  // ---------------------------------------------------------------------------
  // Role attachment only adds
  // ---------------------------------------------------------------------------

  /** `after` extends `before`, and each added permission was not held when it was added. */
  predicate Grew(before: seq<nat>, after: seq<nat>) {
    before <= after && forall a :: |before| <= a < |after| ==> after[a] !in after[..a]
  }

  /** Roles keep their names and organizations, and their permissions only grow. */
  predicate RolesGrew(before: seq<RoleRecord>, after: seq<RoleRecord>) {
    && |after| == |before|
    && forall j :: 0 <= j < |before| ==>
         && after[j].name == before[j].name && after[j].organization == before[j].organization
         && Grew(before[j].grants, after[j].grants)
  }

  lemma GrewTransitive(a: seq<nat>, b: seq<nat>, c: seq<nat>)
    requires Grew(a, b) && Grew(b, c)
    ensures Grew(a, c)
  {
    forall x | |a| <= x < |c| ensures c[x] !in c[..x] {
      if x < |b| {
        assert c[x] == b[x] && c[..x] == b[..x];
      }
    }
  }

  lemma RolesGrewTransitive(a: seq<RoleRecord>, b: seq<RoleRecord>, c: seq<RoleRecord>)
    requires RolesGrew(a, b) && RolesGrew(b, c)
    ensures RolesGrew(a, c)
  {
    forall j | 0 <= j < |a| ensures Grew(a[j].grants, c[j].grants) {
      GrewTransitive(a[j].grants, b[j].grants, c[j].grants);
    }
  }

  lemma RolesGrewReflexive(a: seq<RoleRecord>)
    ensures RolesGrew(a, a)
  {
  }

  lemma GrantGrows(s: RoleState, perm: nat, ref: nat)
    requires ref < |s.roles|
    ensures RolesGrew(s.roles, Grant(s, perm, ref).roles)
    ensures perm in Grant(s, perm, ref).roles[ref].grants
  {
    var g := s.roles[ref].grants;
    if perm !in g {
      assert (g + [perm])[..|g|] == g;
    }
  }

  /** Membership in a role's permissions survives growth. */
  lemma HeldSurvives(before: seq<RoleRecord>, after: seq<RoleRecord>, j: nat, perm: nat)
    requires RolesGrew(before, after) && j < |before| && perm in before[j].grants
    ensures perm in after[j].grants
  {
    var k :| 0 <= k < |before[j].grants| && before[j].grants[k] == perm;
    assert after[j].grants[k] == perm;
  }

  lemma {:induction false} GrantAllGrows(s: RoleState, roleMap: map<string, nat>, perm: nat, names: seq<Scalar>)
    requires NamesResolve(roleMap, names, |s.roles|)
    ensures var r := GrantAll(s, roleMap, perm, names);
            && RolesGrew(s.roles, r.roles)
            && forall x :: x in names ==> perm in r.roles[roleMap[x.s]].grants
    decreases |names|
  {
    if names == [] {
      RolesGrewReflexive(s.roles);
    } else {
      var n := |names| - 1;
      GrantAllGrows(s, roleMap, perm, names[..n]);
      var m := GrantAll(s, roleMap, perm, names[..n]);
      var r := Grant(m, perm, roleMap[names[n].s]);
      GrantGrows(m, perm, roleMap[names[n].s]);
      RolesGrewTransitive(s.roles, m.roles, r.roles);
      forall x | x in names ensures perm in r.roles[roleMap[x.s]].grants {
        if x != names[n] {
          assert x in names[..n];
          HeldSurvives(m.roles, r.roles, roleMap[x.s], perm);
        }
      }
    }
  }

  /** Every pair the visits ask for is held: `full[id]` is among the permissions of each attached role. */
  ghost predicate Holds(roles: seq<RoleRecord>, full: map<Identity, nat>, roleMap: map<string, nat>, vs: seq<Visit>) {
    forall i, x :: HoldsAt(roles, full, roleMap, vs, i, x)
  }

  /** The pair of the visit at `i` and its attached role `x` is held. */
  predicate HoldsAt(roles: seq<RoleRecord>, full: map<Identity, nat>, roleMap: map<string, nat>, vs: seq<Visit>,
                    i: int, x: Scalar) {
    0 <= i < |vs| && x in vs[i].cfg.attachedRoles ==>
      && vs[i].id in full && x.Str? && x.s in roleMap && roleMap[x.s] < |roles|
      && full[vs[i].id] in roles[roleMap[x.s]].grants
  }

  /** The role walk only adds permissions to roles, never one a role already holds. */
  lemma {:induction false} AttachAllGrows(s: RoleState, full: map<Identity, nat>, roleMap: map<string, nat>, vs: seq<Visit>)
    requires Ready(full, roleMap, vs, |s.roles|)
    ensures RolesGrew(s.roles, AttachAll(s, full, roleMap, vs).roles)
    decreases |vs|
  {
    if vs == [] {
      RolesGrewReflexive(s.roles);
    } else {
      var n := |vs| - 1;
      assert forall i :: 0 <= i < n ==> vs[..n][i] == vs[i];
      ReadyPrefix(full, roleMap, vs, n, |s.roles|);
      assert ReadyAt(full, roleMap, vs, n, |s.roles|);
      AttachAllGrows(s, full, roleMap, vs[..n]);
      var m := AttachAll(s, full, roleMap, vs[..n]);
      var v := vs[n];
      if v.cfg.attachedRoles != [] {
        GrantAllGrows(m, roleMap, full[v.id], v.cfg.attachedRoles);
        RolesGrewTransitive(s.roles, m.roles, AttachAll(s, full, roleMap, vs).roles);
      }
    }
  }

  /** After the role walk every role holds every permission it is attached to. */
  lemma {:induction false} AttachAllHolds(s: RoleState, full: map<Identity, nat>, roleMap: map<string, nat>, vs: seq<Visit>)
    requires Ready(full, roleMap, vs, |s.roles|)
    ensures Holds(AttachAll(s, full, roleMap, vs).roles, full, roleMap, vs)
    decreases |vs|
  {
    if vs != [] {
      var n := |vs| - 1;
      ReadyPrefix(full, roleMap, vs, n, |s.roles|);
      assert ReadyAt(full, roleMap, vs, n, |s.roles|);
      AttachAllHolds(s, full, roleMap, vs[..n]);
      var m := AttachAll(s, full, roleMap, vs[..n]);
      var v := vs[n];
      var r := AttachAll(s, full, roleMap, vs);
      if v.cfg.attachedRoles != [] {
        GrantAllGrows(m, roleMap, full[v.id], v.cfg.attachedRoles);
      }
      forall i, x ensures HoldsAt(r.roles, full, roleMap, vs, i, x) {
        if 0 <= i < |vs| && x in vs[i].cfg.attachedRoles {
          assert ReadyAt(full, roleMap, vs, i, |s.roles|);
          if i < n {
            assert vs[..n][i] == vs[i];
            assert HoldsAt(m.roles, full, roleMap, vs[..n], i, x);
            if v.cfg.attachedRoles != [] {
              HeldSurvives(m.roles, r.roles, roleMap[x.s], full[vs[i].id]);
            }
          }
        }
      }
    }
  }

  lemma HoldsPrefix(roles: seq<RoleRecord>, full: map<Identity, nat>, roleMap: map<string, nat>, vs: seq<Visit>, n: nat)
    requires n <= |vs| && Holds(roles, full, roleMap, vs)
    ensures Holds(roles, full, roleMap, vs[..n])
  {
    forall i, x ensures HoldsAt(roles, full, roleMap, vs[..n], i, x) {
      if 0 <= i < n {
        assert vs[..n][i] == vs[i];
        assert HoldsAt(roles, full, roleMap, vs, i, x);
      }
    }
  }

  lemma {:induction false} GrantAllHeldUnchanged(s: RoleState, roleMap: map<string, nat>, perm: nat, names: seq<Scalar>)
    requires NamesResolve(roleMap, names, |s.roles|)
    requires forall x :: x in names ==> perm in s.roles[roleMap[x.s]].grants
    ensures GrantAll(s, roleMap, perm, names) == s
    decreases |names|
  {
    if names != [] {
      GrantAllHeldUnchanged(s, roleMap, perm, names[..|names| - 1]);
    }
  }

  /** When every pair is already held, the role walk changes nothing and collects no update. */
  lemma {:induction false} AttachHeldUnchanged(s: RoleState, full: map<Identity, nat>, roleMap: map<string, nat>, vs: seq<Visit>)
    requires Ready(full, roleMap, vs, |s.roles|) && Holds(s.roles, full, roleMap, vs)
    ensures AttachAll(s, full, roleMap, vs) == s
    decreases |vs|
  {
    if vs != [] {
      var n := |vs| - 1;
      ReadyPrefix(full, roleMap, vs, n, |s.roles|);
      assert ReadyAt(full, roleMap, vs, n, |s.roles|);
      HoldsPrefix(s.roles, full, roleMap, vs, n);
      AttachHeldUnchanged(s, full, roleMap, vs[..n]);
      if vs[n].cfg.attachedRoles != [] {
        forall x | x in vs[n].cfg.attachedRoles
          ensures x.Str? && x.s in roleMap && full[vs[n].id] in s.roles[roleMap[x.s]].grants
        {
          assert HoldsAt(s.roles, full, roleMap, vs, n, x);
        }
        GrantAllHeldUnchanged(s, roleMap, full[vs[n].id], vs[n].cfg.attachedRoles);
      }
    }
  }

  // ---------------------------------------------------------------------------
  // The role batch
  // ---------------------------------------------------------------------------

  /** Every name of the role map leads to a role with that name. */
  predicate RoleMapped(roleMap: map<string, nat>, roles: seq<RoleRecord>) {
    forall n :: n in roleMap ==> roleMap[n] < |roles| && roles[roleMap[n]].name == n
  }
  /** The role map of `getUsedRoles` leads each name to a role of that name. */
  lemma RoleMapIsRoleMapped(roles: seq<RoleRecord>, found: seq<nat>)
    requires RefsBelow(found, |roles|)
    ensures RoleMapped(RoleMap(RoleKeys(roles), found), roles)
  {
    RoleMapFacts(RoleKeys(roles), found);
  }


  /**
   * `$updates` holds exactly the roles that changed since `before`, each
   * once and under its name, and the role flag says whether it is non-empty.
   */
  predicate UpdatesTrack(before: seq<RoleRecord>, roleMap: map<string, nat>, s: RoleState) {
    && |s.roles| == |before|
    && DistinctKeys(s.updates)
    && (forall e :: e in s.updates ==>
          e.0 in roleMap && roleMap[e.0] == e.1 && e.1 < |before| && s.roles[e.1] != before[e.1])
    && (forall j :: 0 <= j < |before| && s.roles[j] != before[j] ==> (s.roles[j].name, j) in s.updates)
    && (s.hasUpdated <==> s.updates != [])
  }

  lemma GrantTracksUpdates(before: seq<RoleRecord>, roleMap: map<string, nat>, s: RoleState, perm: nat, ref: nat)
    requires UpdatesTrack(before, roleMap, s) && RolesGrew(before, s.roles)
    requires ref < |s.roles| && s.roles[ref].name in roleMap && roleMap[s.roles[ref].name] == ref
    ensures UpdatesTrack(before, roleMap, Grant(s, perm, ref))
  {
    var role := s.roles[ref];
    if perm !in role.grants {
      var granted := role.(grants := role.grants + [perm]);
      assert granted != before[ref] by {
        assert |granted.grants| > |before[ref].grants|;
      }
      TrackedAfterGrant(before, roleMap, s.roles, s.updates, granted, ref);
    }
  }

  /** Granting to the mapped role `ref` a record that differs from `before` keeps `$updates` tracking. */
  lemma TrackedAfterGrant(before: seq<RoleRecord>, roleMap: map<string, nat>, roles: seq<RoleRecord>,
                          updates: seq<(string, nat)>, granted: RoleRecord, ref: nat)
    requires UpdatesTrack(before, roleMap, RoleState(roles, updates, updates != []))
    requires ref < |roles| && granted.name == roles[ref].name && granted != before[ref]
    requires granted.name in roleMap && roleMap[granted.name] == ref
    ensures UpdatesTrack(before, roleMap, RoleState(roles[ref := granted], Put(updates, granted.name, ref), true))
  {
    var name := granted.name;
    PutKeeps(updates, name, ref);
    PutFacts(updates, name, ref);
    GrantUpdatesSound(before, roleMap, roles, updates, roles[ref := granted], Put(updates, name, ref), name, ref);
    GrantChangesListed(before, roleMap, roles, updates, roles[ref := granted], Put(updates, name, ref), name, ref);
  }

  /** Each entry of the new batch names a mapped role that differs from `before`. */
  lemma GrantUpdatesSound(before: seq<RoleRecord>, roleMap: map<string, nat>, roles: seq<RoleRecord>,
                          updates: seq<(string, nat)>, roles': seq<RoleRecord>, updates': seq<(string, nat)>,
                          name: string, ref: nat)
    requires |roles'| == |roles| == |before| && ref < |before|
    requires forall j :: 0 <= j < |before| && j != ref ==> roles'[j] == roles[j]
    requires roles'[ref] != before[ref] && name in roleMap && roleMap[name] == ref
    requires forall e :: e in updates ==>
               e.0 in roleMap && roleMap[e.0] == e.1 && e.1 < |before| && roles[e.1] != before[e.1]
    requires forall e :: e in updates' ==> e == (name, ref) || e in updates
    ensures forall e :: e in updates' ==>
              e.0 in roleMap && roleMap[e.0] == e.1 && e.1 < |before| && roles'[e.1] != before[e.1]
  {
  }

  /** Each role that now differs from `before` is in the new batch. */
  lemma GrantChangesListed(before: seq<RoleRecord>, roleMap: map<string, nat>, roles: seq<RoleRecord>,
                           updates: seq<(string, nat)>, roles': seq<RoleRecord>, updates': seq<(string, nat)>,
                           name: string, ref: nat)
    requires |roles'| == |roles| == |before| && ref < |before| && roles'[ref].name == name
    requires forall j :: 0 <= j < |before| && j != ref ==> roles'[j] == roles[j]
    requires name in roleMap && roleMap[name] == ref
    requires forall e :: e in updates ==> e.0 in roleMap && roleMap[e.0] == e.1
    requires forall j :: 0 <= j < |before| && roles[j] != before[j] ==> (roles[j].name, j) in updates
    requires (name, ref) in updates' && forall e :: e in updates && e.0 != name ==> e in updates'
    ensures forall j :: 0 <= j < |before| && roles'[j] != before[j] ==> (roles'[j].name, j) in updates'
  {
    forall j | 0 <= j < |before| && roles'[j] != before[j] ensures (roles'[j].name, j) in updates' {
      if j != ref {
        var e := (roles[j].name, j);
        assert e in updates;
        assert e.0 != name;
      }
    }
  }

  lemma {:induction false} GrantAllTracksUpdates(before: seq<RoleRecord>, roleMap: map<string, nat>, s: RoleState,
                                                 perm: nat, names: seq<Scalar>)
    requires UpdatesTrack(before, roleMap, s) && RolesGrew(before, s.roles) && RoleMapped(roleMap, before)
    requires NamesResolve(roleMap, names, |s.roles|)
    ensures UpdatesTrack(before, roleMap, GrantAll(s, roleMap, perm, names))
    decreases |names|
  {
    if names != [] {
      var n := |names| - 1;
      GrantAllTracksUpdates(before, roleMap, s, perm, names[..n]);
      var m := GrantAll(s, roleMap, perm, names[..n]);
      GrantAllGrows(s, roleMap, perm, names[..n]);
      RolesGrewTransitive(before, s.roles, m.roles);
      GrantTracksUpdates(before, roleMap, m, perm, roleMap[names[n].s]);
    }
  }

  lemma {:induction false} AttachAllTracksUpdates(before: seq<RoleRecord>, roleMap: map<string, nat>, s: RoleState,
                                                  full: map<Identity, nat>, vs: seq<Visit>)
    requires UpdatesTrack(before, roleMap, s) && RolesGrew(before, s.roles) && RoleMapped(roleMap, before)
    requires Ready(full, roleMap, vs, |s.roles|)
    ensures UpdatesTrack(before, roleMap, AttachAll(s, full, roleMap, vs))
    decreases |vs|
  {
    if vs != [] {
      var n := |vs| - 1;
      assert forall i :: 0 <= i < n ==> vs[..n][i] == vs[i];
      ReadyPrefix(full, roleMap, vs, n, |s.roles|);
      assert ReadyAt(full, roleMap, vs, n, |s.roles|);
      AttachAllTracksUpdates(before, roleMap, s, full, vs[..n]);
      var m := AttachAll(s, full, roleMap, vs[..n]);
      AttachAllGrows(s, full, roleMap, vs[..n]);
      RolesGrewTransitive(before, s.roles, m.roles);
      if vs[n].cfg.attachedRoles != [] {
        GrantAllTracksUpdates(before, roleMap, m, full[vs[n].id], vs[n].cfg.attachedRoles);
      }
    }
  }

  /** The refs of a tracked batch are distinct, and they are exactly the changed roles. */
  lemma BatchOfTrackedUpdates(before: seq<RoleRecord>, roleMap: map<string, nat>, s: RoleState)
    requires UpdatesTrack(before, roleMap, s) && RoleMapped(roleMap, before) && RolesGrew(before, s.roles)
    ensures var b := Values(s.updates);
            && (forall j :: 0 <= j < |before| ==> (s.roles[j] != before[j] <==> j in b))
            && (forall a, c :: 0 <= a < c < |b| ==> b[a] != b[c])
  {
    var b := Values(s.updates);
    forall a, c | 0 <= a < c < |b| ensures b[a] != b[c] {
      assert s.updates[a] in s.updates && s.updates[c] in s.updates;
      assert s.updates[a].0 != s.updates[c].0;
    }
    forall j | 0 <= j < |before| ensures s.roles[j] != before[j] <==> j in b {
      if s.roles[j] != before[j] {
        var e := (s.roles[j].name, j);
        var a :| 0 <= a < |s.updates| && s.updates[a] == e;
        assert b[a] == j;
      }
      if j in b {
        var a :| 0 <= a < |b| && b[a] == j;
        assert s.updates[a] in s.updates;
      }
    }
  }

  // ---------------------------------------------------------------------------
  // One load
  // ---------------------------------------------------------------------------

  /** An organisation-less role with the given name exists. */
  predicate RoleExists(roles: seq<RoleRecord>, x: Scalar) {
    x.Str? && exists j :: 0 <= j < |roles| && roles[j].name == x.s && roles[j].organization == None
  }

  /** The names the role query finds are exactly the used names of existing roles. */
  lemma FoundNamesExist(roles: seq<RoleRecord>, used: seq<Scalar>, x: Scalar)
    requires x in used
    ensures var keys := RoleKeys(roles);
            (x.Str? && x.s in FoundNames(keys, FoundRoles(keys, used))) <==> RoleExists(roles, x)
  {
    var keys := RoleKeys(roles);
    var found := FoundRoles(keys, used);
    var names := FoundNames(keys, found);
    if x.Str? && x.s in names {
      var k :| 0 <= k < |names| && names[k] == x.s;
      assert roles[found[k]].name == x.s;
    }
    if RoleExists(roles, x) {
      var j :| 0 <= j < |roles| && roles[j].name == x.s && roles[j].organization == None;
      assert j in found;
      var k :| 0 <= k < |found| && found[k] == j;
      assert names[k] == x.s;
    }
  }

  /**
   * Missing roles are fatal: when a used name has no organisation-less role
   * the load fails before any permission is touched, and the error lists
   * exactly the used names without a role.
   */
  lemma MissingRolesAreFatal(caps: Capabilities, store: seq<PermissionRecord>, roles: seq<RoleRecord>,
                             r: Resolved, upsertAccepted: bool)
    ensures var run := Reconcile(caps, store, roles, r, upsertAccepted);
            var used := RolesOf(Visits(r));
            && ((exists x :: x in used && !RoleExists(roles, x)) <==> run.result.Err? && run.result.error.MissingRoles?)
            && (run.result.Err? && run.result.error.MissingRoles? ==>
                  && run.permissions == store && run.roles == roles
                  && !run.hasNew && !run.hasUpdated && !run.hasUpdatedRoles
                  && forall x :: x in run.result.error.names <==> x in used && !RoleExists(roles, x))
  {
    var used := RolesOf(Visits(r));
    var keys := RoleKeys(roles);
    var names := FoundNames(keys, FoundRoles(keys, used));
    var missing := Missing(used, names);
    forall x | x in used ensures x in missing <==> !RoleExists(roles, x) {
      FoundNamesExist(roles, used, x);
    }
    if missing != [] {
      assert missing[0] in missing;
    }
  }

  /**
   * After a successful load the batch handed to the role store is exactly
   * the roles that gained a permission, each once; it is empty (no store
   * call) exactly when `hasUpdatedRoles` was not set by this run; and roles
   * only gained permissions they did not hold.
   */
  lemma RoleBatchIsTheChangedRoles(caps: Capabilities, store: seq<PermissionRecord>, roles: seq<RoleRecord>,
                                   r: Resolved, upsertAccepted: bool)
    ensures var run := Reconcile(caps, store, roles, r, upsertAccepted);
            run.result.Ok? ==>
              var batch := run.result.value;
              && RolesGrew(roles, run.roles)
              && (run.hasUpdatedRoles <==> batch != [])
              && (forall j :: 0 <= j < |roles| ==> (run.roles[j] != roles[j] <==> j in batch))
              && (forall a, c :: 0 <= a < c < |batch| ==> batch[a] != batch[c])
  {
    var vs := Visits(r);
    var used := RolesOf(vs);
    var keys := RoleKeys(roles);
    var found := FoundRoles(keys, used);
    var missing := Missing(used, FoundNames(keys, found));
    if missing != [] {
      ReconcileMissing(caps, store, roles, r, upsertAccepted);
    } else {
      var ps := VisitAll(caps, Index(store), StartPerm(store), vs);
      if ps.upserts != [] && !upsertAccepted {
        ReconcileRejected(caps, store, roles, r, upsertAccepted);
      } else {
        ReconcileAttached(caps, store, roles, r, upsertAccepted);
        RoleMapIsRoleMapped(roles, found);
        AttachFromEmptyBatch(roles, ps.full, RoleMap(keys, found), vs);
      }
    }
  }

  /** The role walk of one load, started from an empty batch, in the terms of the theorem above. */
  lemma AttachFromEmptyBatch(roles: seq<RoleRecord>, full: map<Identity, nat>, roleMap: map<string, nat>, vs: seq<Visit>)
    requires RoleMapped(roleMap, roles) && Ready(full, roleMap, vs, |roles|)
    ensures var rs := AttachAll(RoleState(roles, [], false), full, roleMap, vs);
            var batch := Values(rs.updates);
            && RolesGrew(roles, rs.roles)
            && (rs.hasUpdated <==> batch != [])
            && (forall j :: 0 <= j < |roles| ==> (rs.roles[j] != roles[j] <==> j in batch))
            && (forall a, c :: 0 <= a < c < |batch| ==> batch[a] != batch[c])
  {
    var s0 := RoleState(roles, [], false);
    var rs := AttachAll(s0, full, roleMap, vs);
    RolesGrewReflexive(roles);
    AttachAllGrows(s0, full, roleMap, vs);
    AttachAllTracksUpdates(roles, roleMap, s0, full, vs);
    BatchOfTrackedUpdates(roles, roleMap, rs);
  }

  /** Role attachment looks only at names and organizations, which it keeps. */
  lemma RoleKeysKept(before: seq<RoleRecord>, after: seq<RoleRecord>)
    requires RolesGrew(before, after)
    ensures RoleKeys(after) == RoleKeys(before)
  {
  }

  /**
   * Loading the same configuration a second time, on the records the first
   * load left, creates nothing, updates nothing, attaches nothing and hands
   * no batch to the role store.
   */
  lemma ReloadChangesNothing(caps: Capabilities, store: seq<PermissionRecord>, roles: seq<RoleRecord>, r: Resolved)
    requires ResolvedWellFormed(r)
    requires Reconcile(caps, store, roles, r, true).result.Ok?
    ensures var first := Reconcile(caps, store, roles, r, true);
            Reconcile(caps, first.permissions, first.roles, r, true)
              == Run(first.permissions, first.roles, false, false, false, Ok([]))
  {
    var vs := Visits(r);
    VisitIdsDistinct(r);
    var used := RolesOf(vs);
    var keys := RoleKeys(roles);
    var found := FoundRoles(keys, used);
    var roleMap := RoleMap(keys, found);
    assert Missing(used, FoundNames(keys, found)) == [];
    // The first load.
    var ps := VisitAll(caps, Index(store), StartPerm(store), vs);
    VisitAllCovers(caps, Index(store), StartPerm(store), vs);
    ReadyWhenNoneMissing(vs, ps.full, keys, used);
    var s0 := RoleState(roles, [], false);
    var rs := AttachAll(s0, ps.full, roleMap, vs);
    assert Reconcile(caps, store, roles, r, true) == Run(ps.heap, rs.roles, ps.hasNew, ps.hasUpdated, rs.hasUpdated, Ok(Values(rs.updates)));
    FirstLoadSettles(caps, store, vs);
    AttachAllGrows(s0, ps.full, roleMap, vs);
    AttachAllHolds(s0, ps.full, roleMap, vs);
    RoleKeysKept(roles, rs.roles);
    // The second load sees the same roles and finds every visited triple settled.
    var index2 := Index(ps.heap);
    var ps2 := VisitAll(caps, index2, StartPerm(ps.heap), vs);
    SettledWalkChangesNothing(caps, index2, StartPerm(ps.heap), vs);
    SettledWalkFull(caps, index2, StartPerm(ps.heap), vs);
    VisitAllCovers(caps, index2, StartPerm(ps.heap), vs);
    ReadyWhenNoneMissing(vs, ps2.full, keys, used);
    forall i, x ensures HoldsAt(rs.roles, ps2.full, roleMap, vs, i, x) {
      assert HoldsAt(rs.roles, ps.full, roleMap, vs, i, x);
    }
    var s1 := RoleState(rs.roles, [], false);
    AttachHeldUnchanged(s1, ps2.full, roleMap, vs);
    assert Reconcile(caps, ps.heap, rs.roles, r, true) == Run(ps.heap, rs.roles, false, false, false, Ok(Values([])));
  }

  // ---------------------------------------------------------------------------
  // The cache id
  // ---------------------------------------------------------------------------

  /**
   * Distinct triples share a cache id: a missing class and an empty class
   * name both contribute nothing, and a colon inside a name moves the
   * separator.
   */
  lemma CacheIdCollides()
    ensures Identity("view", None, None) != Identity("view", Some(""), None)
    ensures CacheId(Identity("view", None, None)) == CacheId(Identity("view", Some(""), None))
    ensures Identity("view", Some("Post"), Some("a:b")) != Identity("view", Some("Post:a"), Some("b"))
    ensures CacheId(Identity("view", Some("Post"), Some("a:b"))) == CacheId(Identity("view", Some("Post:a"), Some("b")))
  {
    assert CacheId(Identity("view", None, None)) == "view::";
    assert CacheId(Identity("view", Some(""), None)) == "view::";
    assert CacheId(Identity("view", Some("Post"), Some("a:b"))) == "view:Post:a:b";
    assert CacheId(Identity("view", Some("Post:a"), Some("b"))) == "view:Post:a:b";
  }

  /** Two classes with one field each, each field with one permission. */
  function TwoFieldDocument(o: string, c1: string, f1: string, p1: PermissionConfig,
                            c2: string, f2: string, p2: PermissionConfig): Resolved {
    Resolved([], [(c1, ClassConfig([], [(f1, FieldConfig([(o, p1)]))])),
                  (c2, ClassConfig([], [(f2, FieldConfig([(o, p2)]))]))])
  }

  lemma TwoFieldVisits(o: string, c1: string, f1: string, p1: PermissionConfig,
                       c2: string, f2: string, p2: PermissionConfig)
    ensures Visits(TwoFieldDocument(o, c1, f1, p1, c2, f2, p2))
              == [Visit(Identity(o, Some(c1), Some(f1)), p1), Visit(Identity(o, Some(c2), Some(f2)), p2)]
  {
    var cs := TwoFieldDocument(o, c1, f1, p1, c2, f2, p2).classes;
    var fs1, fs2 := [(f1, FieldConfig([(o, p1)]))], [(f2, FieldConfig([(o, p2)]))];
    assert fs1[..0] == [] && fs2[..0] == [] && cs[..1][..0] == [];
    assert FieldVisits(c1, fs1) == [Visit(Identity(o, Some(c1), Some(f1)), p1)];
    assert FieldVisits(c2, fs2) == [Visit(Identity(o, Some(c2), Some(f2)), p2)];
    assert ClassVisits(cs[..1]) == [Visit(Identity(o, Some(c1), Some(f1)), p1)];
  }

  /** Loading two distinct new triples into an empty store creates one record for each, in order. */
  lemma FreshWalkOfTwo(caps: Capabilities, v1: Visit, v2: Visit)
    requires v1.id != v2.id
    ensures var ps := VisitAll(caps, Index([]), StartPerm([]), [v1, v2]);
            && |ps.heap| == 2 && ps.upserts == [0, 1]
            && IdentityOf(ps.heap[0]) == v1.id && IdentityOf(ps.heap[1]) == v2.id
  {
    IndexFacts([]);
    var index := Index([]);
    assert index == map[];
    var s0 := StartPerm([]);
    assert [v1, v2][..1] == [v1] && [v1][..0] == [];
    AbsentTripleCreatesRecord(caps, index, s0, v1);
    var s1 := VisitPermission(caps, index, s0, v1);
    assert VisitAll(caps, index, s0, [v1]) == s1;
    AbsentTripleCreatesRecord(caps, index, s1, v2);
  }

  /**
   * When two triples of a document share a cache id, loading it into an
   * empty store files the id under the second triple's record, so the role
   * lookup for the first triple returns the second triple's permission.
   */
  lemma CacheLookupInLoad(caps: Capabilities, o: string, c1: string, f1: string, p1: PermissionConfig,
                          c2: string, f2: string, p2: PermissionConfig)
    requires Identity(o, Some(c1), Some(f1)) != Identity(o, Some(c2), Some(f2))
    requires CacheId(Identity(o, Some(c1), Some(f1))) == CacheId(Identity(o, Some(c2), Some(f2)))
    ensures var ps := VisitAll(caps, Index([]), StartPerm([]), Visits(TwoFieldDocument(o, c1, f1, p1, c2, f2, p2)));
            ps.upserts == [0, 1] && |ps.heap| == 2 &&
            var full := CacheFull(ps.heap, ps.upserts);
            var key := CacheId(Identity(o, Some(c1), Some(f1)));
            && key in full
            && IdentityOf(ps.heap[full[key]]) == Identity(o, Some(c2), Some(f2))
  {
    var v1, v2 := Visit(Identity(o, Some(c1), Some(f1)), p1), Visit(Identity(o, Some(c2), Some(f2)), p2);
    TwoFieldVisits(o, c1, f1, p1, c2, f2, p2);
    FreshWalkOfTwo(caps, v1, v2);
    var ps := VisitAll(caps, Index([]), StartPerm([]), [v1, v2]);
    var heap := ps.heap;
    var refs: seq<nat> := [0, 1];
    assert refs[..1] == [0] && refs[..1][..0] == [];
    assert CacheFull(heap, [0]) == map[CacheId(IdentityOf(heap[0])) := 0];
    assert CacheFull(heap, refs) == CacheFull(heap, [0])[CacheId(IdentityOf(heap[1])) := 1];
  }

  /**
   * The document with the field `a:b` of class `Post` and the field `b` of
   * class `Post:a`: the lookup `createCacheId` performs for the first
   * returns the record of the second, so that record is the one attached to
   * the first permission's roles.
   */
  lemma CacheLookupFindsOtherTriple(caps: Capabilities, p1: PermissionConfig, p2: PermissionConfig)
    ensures var t1, t2 := Identity("view", Some("Post"), Some("a:b")), Identity("view", Some("Post:a"), Some("b"));
            var ps := VisitAll(caps, Index([]), StartPerm([]), Visits(TwoFieldDocument("view", "Post", "a:b", p1, "Post:a", "b", p2)));
            ps.upserts == [0, 1] && |ps.heap| == 2 &&
            var full := CacheFull(ps.heap, ps.upserts);
            && CacheId(t1) in full
            && IdentityOf(ps.heap[full[CacheId(t1)]]) == t2 != t1
  {
    CacheIdCollides();
    CacheLookupInLoad(caps, "view", "Post", "a:b", p1, "Post:a", "b", p2);
  }

  // ---------------------------------------------------------------------------
  // The used roles, as written
  // ---------------------------------------------------------------------------

  lemma {:induction false} MergeIntoList(acc: ScalarArray, a: ScalarArray)
    requires AllIntKeys(acc) && AllIntKeys(a)
    ensures AllIntKeys(MergeInto(acc, a))
    ensures EntryValues(MergeInto(acc, a)) == EntryValues(acc) + EntryValues(a)
    decreases |a|
  {
    if a != [] {
      var n := |a| - 1;
      assert AllIntKeys(a[..n]) by {
        assert forall i :: 0 <= i < n ==> a[..n][i] == a[i];
      }
      MergeIntoList(acc, a[..n]);
      var m := MergeInto(acc, a[..n]);
      var r := m + [(IntKey(IntKeyCount(m)), a[n].1)];
      assert MergeInto(acc, a) == r;
      assert EntryValues(r) == EntryValues(m) + [a[n].1];
      assert EntryValues(a) == EntryValues(a[..n]) + [a[n].1];
    }
  }

  /**
   * On lists, which is how roles are written in practice, `array_merge` only
   * concatenates: the as-written collection then yields every attached role.
   */
  lemma {:induction false} ListsMergeToConcatenation(arrays: seq<ScalarArray>)
    requires forall i :: 0 <= i < |arrays| ==> AllIntKeys(arrays[i])
    ensures AllIntKeys(ArrayMerge(arrays))
    ensures EntryValues(ArrayMerge(arrays)) == ConcatValues(arrays)
    decreases |arrays|
  {
    if arrays != [] {
      var n := |arrays| - 1;
      assert forall i :: 0 <= i < n ==> arrays[..n][i] == arrays[i];
      ListsMergeToConcatenation(arrays[..n]);
      MergeIntoList(ArrayMerge(arrays[..n]), arrays[n]);
    }
  }

  /** The values of every array of every scope, scope after scope. */
  function ScopeValues(scopes: seq<seq<ScalarArray>>): seq<Scalar>
    decreases |scopes|
  {
    if scopes == [] then [] else ScopeValues(scopes[..|scopes| - 1]) + ConcatValues(scopes[|scopes| - 1])
  }

  /** With every `attached_roles` written as a list, the as-written used roles are all of them, in walk order. */
  lemma {:induction false} ListScopesMergeToConcatenation(scopes: seq<seq<ScalarArray>>)
    requires forall i, j :: 0 <= i < |scopes| && 0 <= j < |scopes[i]| ==> AllIntKeys(scopes[i][j])
    ensures AllIntKeys(UsedRolesAsWritten(scopes))
    ensures EntryValues(UsedRolesAsWritten(scopes)) == ScopeValues(scopes)
    decreases |scopes|
  {
    var merged := seq(|scopes|, i requires 0 <= i < |scopes| => ArrayMerge(scopes[i]));
    forall i | 0 <= i < |scopes|
      ensures AllIntKeys(merged[i]) && EntryValues(merged[i]) == ConcatValues(scopes[i])
    {
      ListsMergeToConcatenation(scopes[i]);
    }
    if scopes != [] {
      var n := |scopes| - 1;
      ListScopesMergeToConcatenation(scopes[..n]);
      var pre := scopes[..n];
      assert seq(|pre|, i requires 0 <= i < |pre| => ArrayMerge(pre[i])) == merged[..n];
      assert UsedRolesAsWritten(scopes[..n]) == ArrayMerge(merged[..n]);
      MergeIntoList(ArrayMerge(merged[..n]), merged[n]);
    }
  }

  /** A later entry under the same string key replaces the earlier one. */
  lemma MergeShadows(k: string, x: Scalar, y: Scalar)
    ensures UsedRolesAsWritten([[[(StrKey(k), x)], [(StrKey(k), y)]]]) == [(StrKey(k), y)]
  {
    var a1: ScalarArray, a2: ScalarArray := [(StrKey(k), x)], [(StrKey(k), y)];
    var none: seq<ScalarArray> := [];
    assert [a1, a2][..1] == [a1] && [a1][..0] == none;
    assert ArrayMerge([a1]) == MergeInto([], a1) == a1;
    assert ArrayMerge([a1, a2]) == MergeInto(a1, a2) == AssignKey(a1, StrKey(k), y) == a2;
    var scopes: seq<seq<ScalarArray>> := [[a1, a2]];
    assert seq(|scopes|, i requires 0 <= i < |scopes| => ArrayMerge(scopes[i])) == [a2];
    assert [a2][..0] == none;
    assert ArrayMerge([a2]) == MergeInto([], a2) == a2;
  }

  /**
   * As written, two permissions that attach roles under the same string key
   * (`view: {attached_roles: {k: hidden}}`, `edit: {attached_roles: {k: editor}}`)
   * let the second role hide the first from `validateUsedRoles`: with only
   * `editor` stored, validation passes, although `hidden` stays attached and
   * has no role for `addRolePermission` to look up. The used roles the rest of
   * the model collects keep both, so that load fails as missing roles, before
   * any permission is written.
   */
  lemma ShadowedRoleEscapesValidation(k: string, hidden: string, editor: string,
                                      caps: Capabilities, store: seq<PermissionRecord>, upsertAccepted: bool)
    requires '-' !in k && hidden != editor
    ensures var view := Arr([Item(StrKey("attached_roles"), Arr([Item(StrKey(k), Leaf(Str(hidden)))]))]);
            var edit := Arr([Item(StrKey("attached_roles"), Arr([Item(StrKey(k), Leaf(Str(editor)))]))]);
            var pv, pe := [RootName, "permissions", "view"], [RootName, "permissions", "edit"];
            var roles := [RoleRecord(editor, None, [])];
            var keys := RoleKeys(roles);
            (&& AttachedRoleArray(pv, view) == Ok([(StrKey(k), Str(hidden))])
             && AttachedRoleArray(pe, edit) == Ok([(StrKey(k), Str(editor))])
             && NormalizePermission(pv, view) == Ok(PermissionConfig(Null, Null, Null, [], [Str(hidden)]))
             && NormalizePermission(pe, edit) == Ok(PermissionConfig(Null, Null, Null, [], [Str(editor)]))
             && EntryValues(UsedRolesAsWritten([[[(StrKey(k), Str(hidden))], [(StrKey(k), Str(editor))]]])) == [Str(editor)]
             && Missing([Str(editor)], FoundNames(keys, FoundRoles(keys, [Str(editor)]))) == []
             && hidden !in RoleMap(keys, FoundRoles(keys, [Str(editor)])))
    ensures var roles := [RoleRecord(editor, None, [])];
            var r := Resolved([("view", PermissionConfig(Null, Null, Null, [], [Str(hidden)])),
                               ("edit", PermissionConfig(Null, Null, Null, [], [Str(editor)]))], []);
            Reconcile(caps, store, roles, r, upsertAccepted) == Run(store, roles, false, false, false, Err(MissingRoles([Str(hidden)])))
  {
    var pv, pe := [RootName, "permissions", "view"], [RootName, "permissions", "edit"];
    KeyedRoleEntry(pv, k, hidden);
    KeyedRoleEntry(pe, k, editor);
    MergeShadows(k, Str(hidden), Str(editor));
    var roles := [RoleRecord(editor, None, [])];
    ShadowedValidation(roles, hidden, editor);
    var c1, c2 := PermissionConfig(Null, Null, Null, [], [Str(hidden)]), PermissionConfig(Null, Null, Null, [], [Str(editor)]);
    var r := Resolved([("view", c1), ("edit", c2)], []);
    BothRolesChecked(roles, hidden, editor, "view", c1, "edit", c2);
    ReconcileMissing(caps, store, roles, r, upsertAccepted);
  }

  /** Validation against the merged names: `editor` is found, `hidden` is not in the role map. */
  lemma ShadowedValidation(roles: seq<RoleRecord>, hidden: string, editor: string)
    requires roles == [RoleRecord(editor, None, [])] && hidden != editor
    ensures var keys := RoleKeys(roles);
            && Missing([Str(editor)], FoundNames(keys, FoundRoles(keys, [Str(editor)]))) == []
            && hidden !in RoleMap(keys, FoundRoles(keys, [Str(editor)]))
  {
    SingleRoleFound(editor, [Str(editor)]);
    SingleRoleMap(editor);
    NoneMissing([Str(editor)], [editor]);
  }

  /** The role map of a single found role. */
  lemma SingleRoleMap(name: string)
    ensures RoleMap([(name, None)], [0]) == map[name := 0]
  {
    var found: seq<nat> := [0];
    assert found[..0] == [];
  }

  /** Every used name is a found role's name: nothing is missing. */
  lemma NoneMissing(used: seq<Scalar>, names: seq<string>)
    requires forall i :: 0 <= i < |used| ==> used[i].Str? && used[i].s in names
    ensures Missing(used, names) == []
  {
  }

  /** A single organisation-less role is found exactly when its name is used. */
  lemma SingleRoleFound(name: string, used: seq<Scalar>)
    requires Str(name) in used
    ensures var keys := RoleKeys([RoleRecord(name, None, [])]);
            && keys == [(name, None)]
            && FoundRoles(keys, used) == [0]
            && FoundNames(keys, [0]) == [name]
  {
    var keys := RoleKeys([RoleRecord(name, None, [])]);
    assert keys == [(name, None)];
    assert keys[..0] == [];
    assert FoundRoles(keys[..0], used) == [];
  }

  /** Against a single organisation-less role, a used name other than its own is missing. */
  lemma OtherNameMissing(hidden: string, editor: string)
    requires hidden != editor
    ensures var keys := RoleKeys([RoleRecord(editor, None, [])]);
            var used := [Str(hidden), Str(editor)];
            && FoundRoles(keys, used) == [0]
            && Missing(used, FoundNames(keys, [0])) == [Str(hidden)]
  {
    var used := [Str(hidden), Str(editor)];
    SingleRoleFound(editor, used);
    assert used[..1] == [Str(hidden)] && used[..1][..0] == [];
    assert Missing(used[..1], [editor]) == [Str(hidden)];
  }

  /** The used roles of two global permissions: the first one's, then the second one's. */
  lemma TwoPermissionRoles(o1: string, c1: PermissionConfig, o2: string, c2: PermissionConfig)
    ensures RolesOf(Visits(Resolved([(o1, c1), (o2, c2)], []))) == c1.attachedRoles + c2.attachedRoles
  {
    var vs := Visits(Resolved([(o1, c1), (o2, c2)], []));
    assert ClassVisits([]) == [];
    assert vs == [Visit(Identity(o1, None, None), c1), Visit(Identity(o2, None, None), c2)];
    assert vs[..1] == [vs[0]] && vs[..1][..0] == [];
    assert RolesOf(vs[..1]) == c1.attachedRoles;
  }

  /** The used roles of both permissions, concatenated, leave `hidden` missing. */
  lemma BothRolesChecked(roles: seq<RoleRecord>, hidden: string, editor: string,
                         o1: string, c1: PermissionConfig, o2: string, c2: PermissionConfig)
    requires roles == [RoleRecord(editor, None, [])] && hidden != editor
    requires c1.attachedRoles == [Str(hidden)] && c2.attachedRoles == [Str(editor)]
    ensures UsedRoles(roles, Resolved([(o1, c1), (o2, c2)], [])) == Err([Str(hidden)])
  {
    var r := Resolved([(o1, c1), (o2, c2)], []);
    TwoPermissionRoles(o1, c1, o2, c2);
    OtherNameMissing(hidden, editor);
    var used := RolesOf(Visits(r));
    assert used == [Str(hidden), Str(editor)];
    var keys := RoleKeys(roles);
    var found := FoundRoles(keys, used);
    assert found == [0];
    assert Missing(used, FoundNames(keys, found)) == [Str(hidden)];
  }
}
