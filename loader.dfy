/**
 * `BasePermissionLoader`: the loader object that reconciles a permission
 * configuration with the permission and role stores. Its methods follow the
 * PHP methods loop for loop; each is proved equal to the walk of the
 * reconciliation functions it stands for, so every property proved about
 * those functions holds of the loader.
 *
 * The two stores are sequences of records; a record's position is its
 * identity, and a new permission record is appended.
 */
module Loader {
  import opened Wrappers
  import opened Php
  import opened OrderedMaps
  import opened PermissionConfiguration
  import opened PermissionProcessor
  import opened Reconciler
  import opened Walks

  class PermissionLoader {
    /** Which optional values the permission record class has. */
    const caps: Capabilities
    /** The records of the permission domain. */
    var permissionStore: seq<PermissionRecord>
    /** The records of the role domain. */
    var roleStore: seq<RoleRecord>
    var hasNewPermissions: bool
    var hasUpdatedPermissions: bool
    var hasUpdatedRoles: bool

    constructor (caps: Capabilities, permissions: seq<PermissionRecord>, roles: seq<RoleRecord>)
      ensures this.caps == caps && permissionStore == permissions && roleStore == roles
      ensures !hasNewPermissions && !hasUpdatedPermissions && !hasUpdatedRoles
    {
      this.caps := caps;
      permissionStore := permissions;
      roleStore := roles;
      hasNewPermissions := false;
      hasUpdatedPermissions := false;
      hasUpdatedRoles := false;
    }

    /** `injectValues`: copy each differing value, and say whether any did. */
    static method InjectValues(p: PermissionRecord, c: PermissionConfig) returns (q: PermissionRecord, updated: bool)
      ensures q == Injected(p, c) && updated == Differs(p, c)
    {
      q := p;
      updated := false;
      if Implode(":", q.contexts) != Implode(":", c.contexts) {
        q := q.(contexts := c.contexts);
        updated := true;
      }
      if q.labelText.Some? && q.labelText.value != c.labelText {
        q := q.(labelText := Some(c.labelText));
        updated := true;
      }
      if q.detailLabel.Some? && q.detailLabel.value != c.detailLabel {
        q := q.(detailLabel := Some(c.detailLabel));
        updated := true;
      }
      if q.translationDomain.Some? && q.translationDomain.value != c.translationDomain {
        q := q.(translationDomain := Some(c.translationDomain));
        updated := true;
      }
    }

    /** `getPermissions`: every stored record filed under its triple. */
    method GetPermissions() returns (index: map<Identity, nat>)
      ensures index == Index(permissionStore)
    {
      index := map[];
      var i := 0;
      while i < |permissionStore|
        invariant 0 <= i <= |permissionStore|
        invariant index == Index(permissionStore[..i])
      {
        assert permissionStore[..i + 1][..i] == permissionStore[..i];
        index := index[IdentityOf(permissionStore[i]) := i];
        i := i + 1;
      }
      assert permissionStore[..i] == permissionStore;
    }

    /** `doFindUsedRoles`: the attached roles of one scope's permissions, in order. */
    static method DoFindUsedRoles(ps: Permissions) returns (roles: seq<Scalar>)
      ensures roles == RolesOf(ScopeVisits(None, None, ps))
    {
      roles := [];
      var i := 0;
      while i < |ps|
        invariant 0 <= i <= |ps|
        invariant roles == RolesOf(ScopeVisits(None, None, ps[..i]))
      {
        var cfg := ps[i].1;
        ScopeVisitsSnoc(None, None, ps, i);
        assert ScopeVisits(None, None, ps[..i + 1])[..i] == ScopeVisits(None, None, ps[..i]);
        if cfg.attachedRoles != [] {
          roles := roles + cfg.attachedRoles;
        } else {
          assert roles + cfg.attachedRoles == roles;
        }
        i := i + 1;
      }
      assert ps[..i] == ps;
    }

    /** `findUsedRoles`: the used roles of every scope, in walk order. */
    static method FindUsedRoles(r: Resolved) returns (used: seq<Scalar>)
      ensures used == RolesOf(Visits(r))
    {
      used := DoFindUsedRoles(r.permissions);
      var i := 0;
      while i < |r.classes|
        invariant 0 <= i <= |r.classes|
        invariant used == RolesOf(ScopeVisits(None, None, r.permissions)) + RolesOf(ClassVisits(r.classes[..i]))
      {
        var cls := r.classes[i].0;
        var classConfig := r.classes[i].1;
        ghost var before := used;
        var roles := DoFindUsedRoles(classConfig.permissions);
        used := used + roles;
        ghost var own := used;
        var j := 0;
        assert classConfig.fields[..j] == [];
        while j < |classConfig.fields|
          invariant 0 <= j <= |classConfig.fields|
          invariant used == own + RolesOf(FieldVisits(cls, classConfig.fields[..j]))
        {
          roles := DoFindUsedRoles(classConfig.fields[j].1.permissions);
          RolesOfFieldSnoc(cls, classConfig.fields, j);
          ConcatAssoc3(own, RolesOf(FieldVisits(cls, classConfig.fields[..j])), roles);
          used := used + roles;
          j := j + 1;
        }
        assert classConfig.fields[..j] == classConfig.fields;
        RolesOfClassSnoc(r.classes, i);
        ConcatAssoc(RolesOf(ScopeVisits(None, None, r.permissions)), RolesOf(ClassVisits(r.classes[..i])),
                    RolesOf(ScopeVisits(None, None, classConfig.permissions)), RolesOf(FieldVisits(cls, classConfig.fields)));
        i := i + 1;
      }
      assert r.classes[..i] == r.classes;
      RolesOfConcat(ScopeVisits(None, None, r.permissions), ClassVisits(r.classes));
    }

    /** `validateUsedRoles`: the used names that no found role has, in order. */
    method ValidateUsedRoles(found: seq<nat>, used: seq<Scalar>) returns (missing: seq<Scalar>)
      requires RefsBelow(found, |roleStore|)
      ensures missing == Missing(used, FoundNames(RoleKeys(roleStore), found))
    {
      var names: seq<string> := [];
      var i := 0;
      while i < |found|
        invariant 0 <= i <= |found|
        invariant |names| == i && forall k :: 0 <= k < i ==> names[k] == roleStore[found[k]].name
      {
        names := names + [roleStore[found[i]].name];
        i := i + 1;
      }
      assert names == FoundNames(RoleKeys(roleStore), found);
      missing := [];
      i := 0;
      while i < |used|
        invariant 0 <= i <= |used|
        invariant missing == Missing(used[..i], names)
      {
        assert used[..i + 1][..i] == used[..i];
        var x := used[i];
        if !(x.Str? && x.s in names) {
          missing := missing + [x];
        }
        i := i + 1;
      }
      assert used[..i] == used;
    }

    /**
     * `getUsedRoles`: the organisation-less roles the configuration names,
     * by name, or the used names that have none.
     */
    method GetUsedRoles(r: Resolved) returns (res: Result<map<string, nat>, seq<Scalar>>)
      ensures res == UsedRoles(roleStore, r)
    {
      var keys := RoleKeys(roleStore);
      var used := FindUsedRoles(r);
      var found: seq<nat> := [];
      if used != [] {
        // The repository query `findBy(['organization' => null, 'name' => $usedRoles])`.
        found := FoundRoles(keys, used);
      }
      var missing := ValidateUsedRoles(found, used);
      if missing != [] {
        return Err(missing);
      }
      var mapRoles: map<string, nat> := map[];
      var i := 0;
      while i < |found|
        invariant 0 <= i <= |found|
        invariant RefsBelow(found[..i], |keys|) && mapRoles == RoleMap(keys, found[..i])
      {
        RoleMapSnoc(keys, found, i);
        mapRoles := mapRoles[roleStore[found[i]].name := found[i]];
        i := i + 1;
      }
      assert found[..i] == found;
      return Ok(mapRoles);
    }

    /**
     * The body of the loop of `addPermission`: create the record of a triple
     * missing from the index, or update the indexed one; add it to the
     * upsert batch and to the scope's records; raise the matching flag.
     */
    method AddOne(index: map<Identity, nat>, s: PermState, v: Visit) returns (r: PermState)
      requires IndexSound(index, s.heap)
      ensures r == VisitPermission(caps, index, s, v)
    {
      var perm: PermissionRecord;
      var ref: nat;
      var heap := s.heap;
      var hasNew := s.hasNew;
      var hasUpdated := s.hasUpdated;
      if v.id !in index {
        var injected;
        perm, injected := InjectValues(NewRecord(caps, v.id), v.cfg);
        ref := |heap|;
        heap := heap + [perm];
        hasNew := true;
      } else {
        ref := index[v.id];
        var res;
        perm, res := InjectValues(heap[ref], v.cfg);
        heap := heap[ref := perm];
        if res {
          hasUpdated := true;
        }
      }
      r := PermState(heap, s.upserts + [ref], s.full[IdentityOf(perm) := ref], hasNew, hasUpdated);
    }

    /**
     * `addPermission` for one scope: create or update the scope's records and
     * add each to the upsert batch (passed by reference). The walk starts
     * from `s`, whose `full` is the scope's own, fresh `$permissions` map.
     */
    method AddPermission(index: map<Identity, nat>, cls: Option<string>, field: Option<string>, ps: Permissions,
                         s: PermState) returns (t: PermState)
      requires IndexSound(index, s.heap)
      ensures t == VisitAll(caps, index, s, ScopeVisits(cls, field, ps))
    {
      ghost var vs := ScopeVisits(cls, field, ps);
      t := s;
      var i := 0;
      while i < |ps|
        invariant 0 <= i <= |ps|
        invariant t == VisitAll(caps, index, s, vs[..i])
      {
        VisitAllStep(caps, index, s, vs, i);
        t := AddOne(index, t, Visit(Identity(ps[i].0, cls, field), ps[i].1));
        i := i + 1;
      }
      assert vs[..i] == vs;
    }

    /**
     * `$fullPermissions = array_merge($fullPermissions, $this->addPermission(...))`:
     * one scope walked with a fresh map, whose entries are then merged over
     * the ones collected before.
     */
    method MergePermissions(index: map<Identity, nat>, cls: Option<string>, field: Option<string>, ps: Permissions,
                            s: PermState) returns (t: PermState)
      requires IndexSound(index, s.heap)
      ensures t == VisitAll(caps, index, s, ScopeVisits(cls, field, ps))
    {
      var scope := AddPermission(index, cls, field, ps, PermState(s.heap, s.upserts, map[], s.hasNew, s.hasUpdated));
      MergeScope(caps, index, s, ScopeVisits(cls, field, ps));
      t := PermState(scope.heap, scope.upserts, s.full + scope.full, scope.hasNew, scope.hasUpdated);
    }

    /**
     * The part of `loadPermissions` for one class: the class's own scope,
     * then the scope of each of its fields, in order.
     */
    method LoadClassPermissions(index: map<Identity, nat>, cls: string, c: ClassConfig, s: PermState)
      returns (t: PermState)
      requires IndexSound(index, s.heap)
      ensures t == VisitAll(caps, index, s, ClassScopeVisits(cls, c))
    {
      ghost var own := ScopeVisits(Some(cls), None, c.permissions);
      t := MergePermissions(index, Some(cls), None, c.permissions, s);
      ConcatEmpty(own);
      var j := 0;
      assert c.fields[..j] == [];
      while j < |c.fields|
        invariant 0 <= j <= |c.fields|
        invariant t == VisitAll(caps, index, s, own + FieldVisits(cls, c.fields[..j]))
      {
        ghost var prior := own + FieldVisits(cls, c.fields[..j]);
        ghost var fieldScope := ScopeVisits(Some(cls), Some(c.fields[j].0), c.fields[j].1.permissions);
        VisitAllConcat(caps, index, s, prior, fieldScope);
        t := MergePermissions(index, Some(cls), Some(c.fields[j].0), c.fields[j].1.permissions, t);
        FieldVisitsSnoc(cls, c.fields, j);
        ConcatAssoc3(own, FieldVisits(cls, c.fields[..j]), fieldScope);
        j := j + 1;
      }
      assert c.fields[..j] == c.fields;
    }

    /**
     * The walk of `loadPermissions`: the global scope, then each class and
     * each of its fields, collecting the upsert batch and `$fullPermissions`.
     */
    method WalkPermissions(index: map<Identity, nat>, r: Resolved, s: PermState) returns (t: PermState)
      requires IndexSound(index, s.heap)
      ensures t == VisitAll(caps, index, s, Visits(r))
    {
      ghost var global := ScopeVisits(None, None, r.permissions);
      t := MergePermissions(index, None, None, r.permissions, s);
      ConcatEmpty(global);
      var i := 0;
      assert r.classes[..i] == [];
      while i < |r.classes|
        invariant 0 <= i <= |r.classes|
        invariant t == VisitAll(caps, index, s, global + ClassVisits(r.classes[..i]))
      {
        ghost var base := global + ClassVisits(r.classes[..i]);
        ghost var cs := ClassScopeVisits(r.classes[i].0, r.classes[i].1);
        VisitAllConcat(caps, index, s, base, cs);
        t := LoadClassPermissions(index, r.classes[i].0, r.classes[i].1, t);
        ClassVisitsSnoc(r.classes, i);
        ConcatAssoc3(global, ClassVisits(r.classes[..i]), cs);
        i := i + 1;
      }
      assert global + ClassVisits(r.classes[..i]) == Visits(r) by {
        assert r.classes[..i] == r.classes;
      }
    }

    /**
     * `loadPermissions`: walk the configuration; hand the upsert batch to
     * the permission store, whose answer is `upsertAccepted`; answer every
     * visited record under its triple. A rejected batch leaves the stored
     * records as they were and fails the load.
     */
    method LoadPermissions(index: map<Identity, nat>, r: Resolved, upsertAccepted: bool)
      returns (res: Result<map<Identity, nat>, LoadError>)
      modifies this`permissionStore, this`hasNewPermissions, this`hasUpdatedPermissions
      requires IndexSound(index, permissionStore)
      ensures var ps := VisitAll(caps, index, StartPerm(old(permissionStore)), Visits(r));
              && hasNewPermissions == (old(hasNewPermissions) || ps.hasNew)
              && hasUpdatedPermissions == (old(hasUpdatedPermissions) || ps.hasUpdated)
              && if ps.upserts != [] && !upsertAccepted
                 then permissionStore == old(permissionStore) && res == Err(UpsertRejected)
                 else permissionStore == ps.heap && res == Ok(ps.full)
    {
      // The records and the flags are carried through the walk in a state
      // value and written back after it.
      var t := WalkPermissions(index, r, PermState(permissionStore, [], map[], hasNewPermissions, hasUpdatedPermissions));
      VisitAllOffset(caps, index, PermState(permissionStore, [], map[], hasNewPermissions, hasUpdatedPermissions), Visits(r));
      UnionEmpty(VisitAll(caps, index, StartPerm(permissionStore), Visits(r)).full);
      hasNewPermissions, hasUpdatedPermissions := t.hasNew, t.hasUpdated;
      if t.upserts != [] && !upsertAccepted {
        // The store rejects the batch: the stored records are kept.
        return Err(UpsertRejected);
      }
      permissionStore := t.heap;
      return Ok(t.full);
    }

    /**
     * The inner loop of `addRolePermission`: each named role gains the
     * permission unless it holds it, and is then filed under its name.
     */
    static method GrantRoles(roleMap: map<string, nat>, perm: nat, names: seq<Scalar>, s: RoleState)
      returns (t: RoleState)
      requires NamesResolve(roleMap, names, |s.roles|)
      ensures t == GrantAll(s, roleMap, perm, names)
    {
      t := s;
      var k := 0;
      while k < |names|
        invariant 0 <= k <= |names|
        invariant NamesResolve(roleMap, names[..k], |s.roles|)
        invariant t == GrantAll(s, roleMap, perm, names[..k])
      {
        GrantAllStep(s, roleMap, perm, names, k);
        var ref := roleMap[names[k].s];
        var role := t.roles[ref];
        if perm !in role.grants {
          t := RoleState(t.roles[ref := role.(grants := role.grants + [perm])], Put(t.updates, role.name, ref), true);
        }
        k := k + 1;
      }
      assert names[..k] == names;
    }

    /**
     * `addRolePermission` for one scope: each role attached to one of the
     * scope's permissions gains that permission unless it holds it, and is
     * then filed in the role batch (passed by reference) under its name.
     */
    static method AddRolePermission(full: map<Identity, nat>, roleMap: map<string, nat>, cls: Option<string>,
                                    field: Option<string>, ps: Permissions, s: RoleState) returns (t: RoleState)
      requires Ready(full, roleMap, ScopeVisits(cls, field, ps), |s.roles|)
      ensures t == AttachAll(s, full, roleMap, ScopeVisits(cls, field, ps))
    {
      ghost var vs := ScopeVisits(cls, field, ps);
      t := s;
      var i := 0;
      while i < |ps|
        invariant 0 <= i <= |ps|
        invariant Ready(full, roleMap, vs[..i], |s.roles|)
        invariant t == AttachAll(s, full, roleMap, vs[..i])
      {
        AttachAllStep(s, full, roleMap, vs, i);
        var names := ps[i].1.attachedRoles;
        if names != [] {
          t := GrantRoles(roleMap, full[Identity(ps[i].0, cls, field)], names, t);
        }
        i := i + 1;
      }
      assert vs[..i] == vs;
    }

    /** The part of `loadRolePermissions` for one class: its own scope, then each of its fields. */
    static method LoadClassRolePermissions(full: map<Identity, nat>, roleMap: map<string, nat>, cls: string,
                                           c: ClassConfig, s: RoleState) returns (t: RoleState)
      requires Ready(full, roleMap, ClassScopeVisits(cls, c), |s.roles|)
      ensures t == AttachAll(s, full, roleMap, ClassScopeVisits(cls, c))
    {
      ReadyConcat(full, roleMap, ScopeVisits(Some(cls), None, c.permissions), FieldVisits(cls, c.fields), |s.roles|);
      t := AddRolePermission(full, roleMap, Some(cls), None, c.permissions, s);
      FieldPrefixEnds(cls, c);
      var j := 0;
      while j < |c.fields|
        invariant 0 <= j <= |c.fields|
        invariant Ready(full, roleMap, FieldPrefix(cls, c, j), |s.roles|)
        invariant t == AttachAll(s, full, roleMap, FieldPrefix(cls, c, j))
      {
        AttachFieldStep(s, full, roleMap, cls, c, j);
        t := AddRolePermission(full, roleMap, Some(cls), Some(c.fields[j].0), c.fields[j].1.permissions, t);
        j := j + 1;
      }
    }

    /** The walk of `loadRolePermissions`: the global scope, then each class and each of its fields. */
    static method WalkRolePermissions(full: map<Identity, nat>, roleMap: map<string, nat>, r: Resolved, s: RoleState)
      returns (t: RoleState)
      requires Ready(full, roleMap, Visits(r), |s.roles|)
      ensures t == AttachAll(s, full, roleMap, Visits(r))
    {
      ReadyConcat(full, roleMap, ScopeVisits(None, None, r.permissions), ClassVisits(r.classes), |s.roles|);
      t := AddRolePermission(full, roleMap, None, None, r.permissions, s);
      ClassPrefixEnds(r);
      var i := 0;
      while i < |r.classes|
        invariant 0 <= i <= |r.classes|
        invariant Ready(full, roleMap, ClassPrefix(r, i), |s.roles|)
        invariant t == AttachAll(s, full, roleMap, ClassPrefix(r, i))
      {
        AttachClassStep(s, full, roleMap, r, i);
        t := LoadClassRolePermissions(full, roleMap, r.classes[i].0, r.classes[i].1, t);
        i := i + 1;
      }
    }

    /**
     * `loadRolePermissions`: attach the permissions to their roles over every
     * scope, and hand the changed roles, once each, to the role store (no
     * call when none changed, which is the empty batch).
     */
    method LoadRolePermissions(full: map<Identity, nat>, roleMap: map<string, nat>, r: Resolved)
      returns (batch: seq<nat>)
      modifies this`roleStore, this`hasUpdatedRoles
      requires Ready(full, roleMap, Visits(r), |roleStore|)
      ensures var t := AttachAll(RoleState(old(roleStore), [], false), full, roleMap, Visits(r));
              && roleStore == t.roles && hasUpdatedRoles == (old(hasUpdatedRoles) || t.hasUpdated)
              && batch == Values(t.updates)
    {
      // The roles and the flag are carried through the walk in a state value
      // and written back after it.
      var t := WalkRolePermissions(full, roleMap, r, RoleState(roleStore, [], hasUpdatedRoles));
      AttachAllOffset(RoleState(roleStore, [], hasUpdatedRoles), full, roleMap, Visits(r));
      roleStore, hasUpdatedRoles := t.roles, t.hasUpdated;
      // `array_values($updates)`.
      batch := Values(t.updates);
    }

    /**
     * `doLoad`: check the used roles, then create or update and upsert the
     * permissions, then attach them to their roles; the loader's flags only
     * ever go from false to true.
     */
    method DoLoad(r: Resolved, upsertAccepted: bool) returns (res: Result<seq<nat>, LoadError>)
      modifies this`permissionStore, this`roleStore, this`hasNewPermissions, this`hasUpdatedPermissions,
               this`hasUpdatedRoles
      ensures Run(permissionStore, roleStore, hasNewPermissions, hasUpdatedPermissions, hasUpdatedRoles, res)
                == Sticky(Reconcile(caps, old(permissionStore), old(roleStore), r, upsertAccepted),
                          old(hasNewPermissions), old(hasUpdatedPermissions), old(hasUpdatedRoles))
    {
      ghost var vs := Visits(r);
      ghost var store, roleRecords := permissionStore, roleStore;
      var roles := GetUsedRoles(r);
      if roles.Err? {
        ReconcileMissing(caps, store, roleRecords, r, upsertAccepted);
        return Err(MissingRoles(roles.error));
      }
      var index := GetPermissions();
      var full := LoadPermissions(index, r, upsertAccepted);
      if full.Err? {
        ReconcileRejected(caps, store, roleRecords, r, upsertAccepted);
        return Err(UpsertRejected);
      }
      ReconcileAttached(caps, store, roleRecords, r, upsertAccepted);
      var batch := LoadRolePermissions(full.value, roles.value, r);
      return Ok(batch);
    }

    /**
     * `load`: normalise the document against the configuration schema,
     * process it, and load the result. `loadContent` is not part of this
     * model: the document is the already-parsed content.
     */
    method Load(doc: Node, upsertAccepted: bool) returns (res: Result<seq<nat>, LoadError>)
      modifies this`permissionStore, this`roleStore, this`hasNewPermissions, this`hasUpdatedPermissions,
               this`hasUpdatedRoles
      ensures Run(permissionStore, roleStore, hasNewPermissions, hasUpdatedPermissions, hasUpdatedRoles, res)
                == Sticky(LoadDocument(caps, old(permissionStore), old(roleStore), doc, upsertAccepted),
                          old(hasNewPermissions), old(hasUpdatedPermissions), old(hasUpdatedRoles))
    {
      var config := Normalize(doc);
      if config.Err? {
        return Err(Schema(config.error));
      }
      var r := Process(config.value);
      res := DoLoad(r, upsertAccepted);
    }
  }
}
