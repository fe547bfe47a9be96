/**
 * How the walks of `BasePermissionLoader` compose: the loader walks the
 * global scope, then each class and each of its fields, one loop per level,
 * while the reconciliation functions walk the flattened sequence of visits.
 * These lemmas let a loop over one scope at a time be compared with a walk
 * over all of them, and relate a walk that starts from flags or entries set
 * earlier with one that starts from nothing.
 */
module Walks {
  import opened Wrappers
  import opened Php
  import opened PermissionConfiguration
  import opened PermissionProcessor
  import opened Reconciler

  // ---------------------------------------------------------------------------
  // Scopes and prefixes
  // ---------------------------------------------------------------------------

  /** One more permission of a scope appends one visit. */
  lemma ScopeVisitsSnoc(cls: Option<string>, field: Option<string>, ps: Permissions, i: nat)
    requires i < |ps|
    ensures ScopeVisits(cls, field, ps[..i + 1]) == ScopeVisits(cls, field, ps[..i]) + [Visit(Identity(ps[i].0, cls, field), ps[i].1)]
  {
  }

  /** One more field appends that field's scope. */
  lemma FieldVisitsSnoc(cls: string, fields: seq<(string, FieldConfig)>, j: nat)
    requires j < |fields|
    ensures FieldVisits(cls, fields[..j + 1])
              == FieldVisits(cls, fields[..j]) + ScopeVisits(Some(cls), Some(fields[j].0), fields[j].1.permissions)
  {
    assert fields[..j + 1][..j] == fields[..j];
  }

  /** One more class appends that class's scopes. */
  lemma ClassVisitsSnoc(classes: seq<(string, ClassConfig)>, i: nat)
    requires i < |classes|
    ensures ClassVisits(classes[..i + 1]) == ClassVisits(classes[..i]) + ClassScopeVisits(classes[i].0, classes[i].1)
  {
    assert classes[..i + 1][..i] == classes[..i];
  }

  // ---------------------------------------------------------------------------
  // Used roles
  // ---------------------------------------------------------------------------

  /** The used roles of two walks in a row are those of the first, then those of the second. */
  lemma {:induction false} RolesOfConcat(a: seq<Visit>, b: seq<Visit>)
    ensures RolesOf(a + b) == RolesOf(a) + RolesOf(b)
    decreases |b|
  {
    if b == [] {
      assert a + b == a;
    } else {
      var n := |b| - 1;
      assert (a + b)[..|a + b| - 1] == a + b[..n];
      RolesOfConcat(a, b[..n]);
    }
  }

  lemma ConcatEmpty<T>(a: seq<T>)
    ensures [] + a == a && a + [] == a
  {
  }

  lemma UnionEmpty<K, V>(m: map<K, V>)
    ensures map[] + m == m
  {
  }

  lemma ConcatAssoc3<T>(a: seq<T>, b: seq<T>, c: seq<T>)
    ensures (a + b) + c == a + (b + c)
  {
  }

  lemma ConcatAssoc<T>(a: seq<T>, b: seq<T>, c: seq<T>, d: seq<T>)
    ensures ((a + b) + c) + d == a + ((b + c) + d)
  {
  }

  /** One more field adds the used roles of that field's scope. */
  lemma RolesOfFieldSnoc(cls: string, fields: seq<(string, FieldConfig)>, j: nat)
    requires j < |fields|
    ensures RolesOf(FieldVisits(cls, fields[..j + 1]))
              == RolesOf(FieldVisits(cls, fields[..j])) + RolesOf(ScopeVisits(None, None, fields[j].1.permissions))
  {
    FieldVisitsSnoc(cls, fields, j);
    RolesOfScope(Some(cls), Some(fields[j].0), fields[j].1.permissions);
    RolesOfConcat(FieldVisits(cls, fields[..j]), ScopeVisits(Some(cls), Some(fields[j].0), fields[j].1.permissions));
  }

  /** One more class adds the used roles of its own scope, then those of its fields. */
  lemma RolesOfClassSnoc(classes: seq<(string, ClassConfig)>, i: nat)
    requires i < |classes|
    ensures RolesOf(ClassVisits(classes[..i + 1]))
              == RolesOf(ClassVisits(classes[..i])) + RolesOf(ScopeVisits(None, None, classes[i].1.permissions))
                 + RolesOf(FieldVisits(classes[i].0, classes[i].1.fields))
  {
    var (cls, c) := classes[i];
    ClassVisitsSnoc(classes, i);
    RolesOfScope(Some(cls), None, c.permissions);
    RolesOfConcat(ScopeVisits(Some(cls), None, c.permissions), FieldVisits(cls, c.fields));
    RolesOfConcat(ClassVisits(classes[..i]), ClassScopeVisits(cls, c));
  }

  /** The used roles of a scope do not depend on which class and field it belongs to. */
  lemma {:induction false} RolesOfScope(cls: Option<string>, field: Option<string>, ps: Permissions)
    ensures RolesOf(ScopeVisits(cls, field, ps)) == RolesOf(ScopeVisits(None, None, ps))
    decreases |ps|
  {
    if ps != [] {
      var n := |ps| - 1;
      assert ScopeVisits(cls, field, ps)[..n] == ScopeVisits(cls, field, ps[..n]);
      assert ScopeVisits(None, None, ps)[..n] == ScopeVisits(None, None, ps[..n]);
      RolesOfScope(cls, field, ps[..n]);
    }
  }

  /** One more found role files that role under its name, replacing an earlier one. */
  lemma RoleMapSnoc(keys: seq<(string, Option<string>)>, found: seq<nat>, i: nat)
    requires RefsBelow(found, |keys|) && i < |found|
    ensures RefsBelow(found[..i], |keys|) && RefsBelow(found[..i + 1], |keys|)
    ensures RoleMap(keys, found[..i + 1]) == RoleMap(keys, found[..i])[keys[found[i]].0 := found[i]]
  {
    assert found[..i + 1][..i] == found[..i];
  }

  // ---------------------------------------------------------------------------
  // The permission walk
  // ---------------------------------------------------------------------------

  /** Walking two sequences of visits in a row is walking their concatenation. */
  lemma {:induction false} VisitAllConcat(caps: Capabilities, index: map<Identity, nat>, s: PermState,
                                          a: seq<Visit>, b: seq<Visit>)
    requires IndexSound(index, s.heap)
    ensures VisitAll(caps, index, s, a + b) == VisitAll(caps, index, VisitAll(caps, index, s, a), b)
    decreases |b|
  {
    if b == [] {
      assert a + b == a;
    } else {
      var n := |b| - 1;
      assert (a + b)[..|a + b| - 1] == a + b[..n];
      assert (a + b)[|a + b| - 1] == b[n];
      VisitAllConcat(caps, index, s, a, b[..n]);
    }
  }

  /** One more visit is one more step of the walk. */
  lemma VisitAllStep(caps: Capabilities, index: map<Identity, nat>, s: PermState, vs: seq<Visit>, i: nat)
    requires IndexSound(index, s.heap) && i < |vs|
    ensures VisitAll(caps, index, s, vs[..i + 1]) == VisitPermission(caps, index, VisitAll(caps, index, s, vs[..i]), vs[i])
  {
    assert vs[..i + 1][..i] == vs[..i];
  }

  /**
   * A walk that starts with entries in `$fullPermissions` and flags already
   * set ends as a walk from none would, with those entries under the new
   * ones and those flags still set.
   */
  lemma {:induction false} VisitAllOffset(caps: Capabilities, index: map<Identity, nat>, s: PermState, vs: seq<Visit>)
    requires IndexSound(index, s.heap)
    ensures var t := VisitAll(caps, index, PermState(s.heap, s.upserts, map[], false, false), vs);
            VisitAll(caps, index, s, vs)
              == PermState(t.heap, t.upserts, s.full + t.full, s.hasNew || t.hasNew, s.hasUpdated || t.hasUpdated)
    decreases |vs|
  {
    if vs == [] {
      assert s.full + map[] == s.full;
    } else {
      var n := |vs| - 1;
      VisitAllOffset(caps, index, s, vs[..n]);
      var t := VisitAll(caps, index, PermState(s.heap, s.upserts, map[], false, false), vs[..n]);
      StepOffset(caps, index, t, s.full, s.hasNew, s.hasUpdated, vs[n]);
    }
  }

  /**
   * `addPermission` collects a scope's entries in a map of its own, which
   * `loadPermissions` merges into the ones collected before (a later entry
   * replacing an earlier one): that is the walk went on through the scope.
   */
  lemma MergeScope(caps: Capabilities, index: map<Identity, nat>, x: PermState, vs: seq<Visit>)
    requires IndexSound(index, x.heap)
    ensures var t := VisitAll(caps, index, PermState(x.heap, x.upserts, map[], x.hasNew, x.hasUpdated), vs);
            VisitAll(caps, index, x, vs) == PermState(t.heap, t.upserts, x.full + t.full, t.hasNew, t.hasUpdated)
  {
    VisitAllOffset(caps, index, x, vs);
    VisitAllOffset(caps, index, PermState(x.heap, x.upserts, map[], x.hasNew, x.hasUpdated), vs);
    var t0 := VisitAll(caps, index, PermState(x.heap, x.upserts, map[], false, false), vs);
    UnionEmpty(t0.full);
  }

  /** `MergeScope` for a scope walked after the visits `done`. */
  lemma MergeScopeAfter(caps: Capabilities, index: map<Identity, nat>, s0: PermState, done: seq<Visit>, vs: seq<Visit>)
    requires IndexSound(index, s0.heap)
    ensures var x := VisitAll(caps, index, s0, done);
            var t := VisitAll(caps, index, PermState(x.heap, x.upserts, map[], x.hasNew, x.hasUpdated), vs);
            VisitAll(caps, index, s0, done + vs) == PermState(t.heap, t.upserts, x.full + t.full, t.hasNew, t.hasUpdated)
  {
    VisitAllConcat(caps, index, s0, done, vs);
    MergeScope(caps, index, VisitAll(caps, index, s0, done), vs);
  }

  /** One step of `VisitAllOffset`. */
  lemma StepOffset(caps: Capabilities, index: map<Identity, nat>, t: PermState,
                   full: map<Identity, nat>, hasNew: bool, hasUpdated: bool, v: Visit)
    requires IndexSound(index, t.heap)
    ensures var u := VisitPermission(caps, index, t, v);
            VisitPermission(caps, index, PermState(t.heap, t.upserts, full + t.full, hasNew || t.hasNew, hasUpdated || t.hasUpdated), v)
              == PermState(u.heap, u.upserts, full + u.full, hasNew || u.hasNew, hasUpdated || u.hasUpdated)
  {
    var ref := if v.id in index then index[v.id] else |t.heap|;
    var p := if v.id in index then Injected(t.heap[ref], v.cfg) else Injected(NewRecord(caps, v.id), v.cfg);
    UpdateUnion(full, t.full, IdentityOf(p), ref);
  }

  lemma UpdateUnion<K, V>(a: map<K, V>, b: map<K, V>, k: K, v: V)
    ensures (a + b)[k := v] == a + b[k := v]
  {
  }

  // ---------------------------------------------------------------------------
  // The role walk
  // ---------------------------------------------------------------------------

  /** Both lookups succeed on a concatenation exactly when they do on each part. */
  lemma ReadyConcat(full: map<Identity, nat>, roleMap: map<string, nat>, a: seq<Visit>, b: seq<Visit>, n: nat)
    ensures Ready(full, roleMap, a + b, n) <==> Ready(full, roleMap, a, n) && Ready(full, roleMap, b, n)
  {
    if Ready(full, roleMap, a, n) && Ready(full, roleMap, b, n) {
      forall i | 0 <= i < |a + b|
        ensures ReadyAt(full, roleMap, a + b, i, n)
      {
        if i < |a| {
          assert ReadyAt(full, roleMap, a, i, n);
        } else {
          assert ReadyAt(full, roleMap, b, i - |a|, n);
        }
      }
    }
    if Ready(full, roleMap, a + b, n) {
      forall i | 0 <= i < |a|
        ensures ReadyAt(full, roleMap, a, i, n)
      {
        assert ReadyAt(full, roleMap, a + b, i, n);
      }
      forall i | 0 <= i < |b|
        ensures ReadyAt(full, roleMap, b, i, n)
      {
        assert ReadyAt(full, roleMap, a + b, |a| + i, n);
      }
    }
  }

  /** The lookups succeed for one field when they do for the whole class. */
  lemma {:induction false} ReadyField(full: map<Identity, nat>, roleMap: map<string, nat>, cls: string,
                                      fields: seq<(string, FieldConfig)>, j: nat, n: nat)
    requires j < |fields| && Ready(full, roleMap, FieldVisits(cls, fields), n)
    ensures Ready(full, roleMap, ScopeVisits(Some(cls), Some(fields[j].0), fields[j].1.permissions), n)
    decreases |fields|
  {
    var k := |fields| - 1;
    ReadyConcat(full, roleMap, FieldVisits(cls, fields[..k]),
                ScopeVisits(Some(cls), Some(fields[k].0), fields[k].1.permissions), n);
    if j < k {
      ReadyField(full, roleMap, cls, fields[..k], j, n);
    }
  }

  /** The lookups succeed for one class when they do for all of them. */
  lemma {:induction false} ReadyClass(full: map<Identity, nat>, roleMap: map<string, nat>,
                                      classes: seq<(string, ClassConfig)>, i: nat, n: nat)
    requires i < |classes| && Ready(full, roleMap, ClassVisits(classes), n)
    ensures Ready(full, roleMap, ClassScopeVisits(classes[i].0, classes[i].1), n)
    decreases |classes|
  {
    var k := |classes| - 1;
    ReadyConcat(full, roleMap, ClassVisits(classes[..k]), ClassScopeVisits(classes[k].0, classes[k].1), n);
    if i < k {
      ReadyClass(full, roleMap, classes[..k], i, n);
    }
  }

  /** One more visit is one more step of the role walk. */
  lemma AttachAllStep(s: RoleState, full: map<Identity, nat>, roleMap: map<string, nat>, vs: seq<Visit>, i: nat)
    requires i < |vs| && Ready(full, roleMap, vs, |s.roles|)
    ensures Ready(full, roleMap, vs[..i], |s.roles|) && Ready(full, roleMap, vs[..i + 1], |s.roles|)
    ensures vs[i].cfg.attachedRoles != [] ==> vs[i].id in full && NamesResolve(roleMap, vs[i].cfg.attachedRoles, |s.roles|)
    ensures AttachAll(s, full, roleMap, vs[..i + 1])
              == if vs[i].cfg.attachedRoles == [] then AttachAll(s, full, roleMap, vs[..i])
                 else GrantAll(AttachAll(s, full, roleMap, vs[..i]), roleMap, full[vs[i].id], vs[i].cfg.attachedRoles)
  {
    ReadyPrefix(full, roleMap, vs, i, |s.roles|);
    ReadyPrefix(full, roleMap, vs, i + 1, |s.roles|);
    assert ReadyAt(full, roleMap, vs, i, |s.roles|);
    assert vs[..i + 1][..i] == vs[..i];
  }

  /** One more name is one more grant. */
  lemma GrantAllStep(s: RoleState, roleMap: map<string, nat>, perm: nat, names: seq<Scalar>, k: nat)
    requires k < |names| && NamesResolve(roleMap, names, |s.roles|)
    ensures NamesResolve(roleMap, names[..k], |s.roles|) && NamesResolve(roleMap, names[..k + 1], |s.roles|)
    ensures names[k].Str? && names[k].s in roleMap && roleMap[names[k].s] < |s.roles|
    ensures GrantAll(s, roleMap, perm, names[..k + 1]) == Grant(GrantAll(s, roleMap, perm, names[..k]), perm, roleMap[names[k].s])
  {
    assert names[k] in names;
    assert names[..k + 1][..k] == names[..k];
  }

  /** Walking two sequences of visits in a row is walking their concatenation. */
  lemma {:induction false} AttachAllConcat(s: RoleState, full: map<Identity, nat>, roleMap: map<string, nat>,
                                           a: seq<Visit>, b: seq<Visit>)
    requires Ready(full, roleMap, a, |s.roles|) && Ready(full, roleMap, b, |s.roles|)
    ensures Ready(full, roleMap, a + b, |s.roles|)
    ensures AttachAll(s, full, roleMap, a + b) == AttachAll(AttachAll(s, full, roleMap, a), full, roleMap, b)
    decreases |b|
  {
    ReadyConcat(full, roleMap, a, b, |s.roles|);
    if b == [] {
      assert a + b == a;
    } else {
      var n := |b| - 1;
      assert (a + b)[..|a + b| - 1] == a + b[..n];
      assert (a + b)[|a + b| - 1] == b[n];
      assert b == b[..n] + [b[n]];
      ReadyConcat(full, roleMap, b[..n], [b[n]], |s.roles|);
      AttachAllConcat(s, full, roleMap, a, b[..n]);
    }
  }

  /** The visits of the whole walk up to (not including) class `i`. */
  ghost function ClassPrefix(r: Resolved, i: nat): seq<Visit>
    requires i <= |r.classes|
  {
    ScopeVisits(None, None, r.permissions) + ClassVisits(r.classes[..i])
  }

  /** The visits of one class up to (not including) field `j`. */
  ghost function FieldPrefix(cls: string, c: ClassConfig, j: nat): seq<Visit>
    requires j <= |c.fields|
  {
    ScopeVisits(Some(cls), None, c.permissions) + FieldVisits(cls, c.fields[..j])
  }

  /** The walk before any class is the global scope, and before no class is missing, the whole walk. */
  lemma ClassPrefixEnds(r: Resolved)
    ensures ClassPrefix(r, 0) == ScopeVisits(None, None, r.permissions)
    ensures ClassPrefix(r, |r.classes|) == Visits(r)
  {
    assert r.classes[..0] == [];
    assert r.classes[..|r.classes|] == r.classes;
    ConcatEmpty(ScopeVisits(None, None, r.permissions));
  }

  /** The same for the fields of one class. */
  lemma FieldPrefixEnds(cls: string, c: ClassConfig)
    ensures FieldPrefix(cls, c, 0) == ScopeVisits(Some(cls), None, c.permissions)
    ensures FieldPrefix(cls, c, |c.fields|) == ClassScopeVisits(cls, c)
  {
    assert c.fields[..0] == [];
    assert c.fields[..|c.fields|] == c.fields;
    ConcatEmpty(ScopeVisits(Some(cls), None, c.permissions));
  }

  /** The role walk over one more class is the walk so far, then that class. */
  lemma AttachClassStep(s: RoleState, full: map<Identity, nat>, roleMap: map<string, nat>, r: Resolved, i: nat)
    requires i < |r.classes| && Ready(full, roleMap, Visits(r), |s.roles|)
    requires Ready(full, roleMap, ClassPrefix(r, i), |s.roles|)
    ensures Ready(full, roleMap, ClassScopeVisits(r.classes[i].0, r.classes[i].1), |s.roles|)
    ensures Ready(full, roleMap, ClassPrefix(r, i + 1), |s.roles|)
    ensures AttachAll(s, full, roleMap, ClassPrefix(r, i + 1))
              == AttachAll(AttachAll(s, full, roleMap, ClassPrefix(r, i)), full, roleMap,
                           ClassScopeVisits(r.classes[i].0, r.classes[i].1))
  {
    var global := ScopeVisits(None, None, r.permissions);
    var cs := ClassScopeVisits(r.classes[i].0, r.classes[i].1);
    ReadyConcat(full, roleMap, global, ClassVisits(r.classes), |s.roles|);
    ReadyClass(full, roleMap, r.classes, i, |s.roles|);
    AttachAllConcat(s, full, roleMap, ClassPrefix(r, i), cs);
    ClassVisitsSnoc(r.classes, i);
    ConcatAssoc3(global, ClassVisits(r.classes[..i]), cs);
  }

  /** The role walk over one more field is the walk so far, then that field. */
  lemma AttachFieldStep(s: RoleState, full: map<Identity, nat>, roleMap: map<string, nat>,
                        cls: string, c: ClassConfig, j: nat)
    requires j < |c.fields| && Ready(full, roleMap, ClassScopeVisits(cls, c), |s.roles|)
    requires Ready(full, roleMap, FieldPrefix(cls, c, j), |s.roles|)
    ensures Ready(full, roleMap, ScopeVisits(Some(cls), Some(c.fields[j].0), c.fields[j].1.permissions), |s.roles|)
    ensures Ready(full, roleMap, FieldPrefix(cls, c, j + 1), |s.roles|)
    ensures AttachAll(s, full, roleMap, FieldPrefix(cls, c, j + 1))
              == AttachAll(AttachAll(s, full, roleMap, FieldPrefix(cls, c, j)), full, roleMap,
                           ScopeVisits(Some(cls), Some(c.fields[j].0), c.fields[j].1.permissions))
  {
    var own := ScopeVisits(Some(cls), None, c.permissions);
    var fs := ScopeVisits(Some(cls), Some(c.fields[j].0), c.fields[j].1.permissions);
    ReadyConcat(full, roleMap, own, FieldVisits(cls, c.fields), |s.roles|);
    ReadyField(full, roleMap, cls, c.fields, j, |s.roles|);
    AttachAllConcat(s, full, roleMap, FieldPrefix(cls, c, j), fs);
    FieldVisitsSnoc(cls, c.fields, j);
    ConcatAssoc3(own, FieldVisits(cls, c.fields[..j]), fs);
  }

  /** A role walk that starts with the role flag set ends with it set, and otherwise as from unset. */
  lemma {:induction false} GrantAllOffset(s: RoleState, roleMap: map<string, nat>, perm: nat, names: seq<Scalar>)
    requires NamesResolve(roleMap, names, |s.roles|)
    ensures var t := GrantAll(s.(hasUpdated := false), roleMap, perm, names);
            GrantAll(s, roleMap, perm, names) == t.(hasUpdated := s.hasUpdated || t.hasUpdated)
    decreases |names|
  {
    if names != [] {
      GrantAllOffset(s, roleMap, perm, names[..|names| - 1]);
    }
  }

  lemma {:induction false} AttachAllOffset(s: RoleState, full: map<Identity, nat>, roleMap: map<string, nat>, vs: seq<Visit>)
    requires Ready(full, roleMap, vs, |s.roles|)
    ensures var t := AttachAll(s.(hasUpdated := false), full, roleMap, vs);
            AttachAll(s, full, roleMap, vs) == t.(hasUpdated := s.hasUpdated || t.hasUpdated)
    decreases |vs|
  {
    if vs != [] {
      var n := |vs| - 1;
      ReadyPrefix(full, roleMap, vs, n, |s.roles|);
      assert ReadyAt(full, roleMap, vs, n, |s.roles|);
      AttachAllOffset(s, full, roleMap, vs[..n]);
      var m := AttachAll(s, full, roleMap, vs[..n]);
      var v := vs[n];
      if v.cfg.attachedRoles != [] {
        var t := AttachAll(s.(hasUpdated := false), full, roleMap, vs[..n]);
        GrantAllOffset(m, roleMap, full[v.id], v.cfg.attachedRoles);
        GrantAllOffset(t, roleMap, full[v.id], v.cfg.attachedRoles);
        assert m.(hasUpdated := false) == t.(hasUpdated := false);
      }
    }
  }
}
