/**
 * The reconciliation of a processed permission configuration with the
 * permission and role records of the store (Permission/BasePermissionLoader.php),
 * stated as functions over values.
 *
 * The store is abstract: it hands out permission and role records, and a
 * record's identity is its position in the sequence of records the store
 * knows. New permission records are appended. `PermissionLoader` in loader.dfy
 * runs the same steps imperatively and is proved equal to these functions.
 */
module Reconciler {
  import opened Wrappers
  import opened Php
  import opened OrderedMaps
  import opened PermissionConfiguration
  import opened PermissionProcessor

  // ---------------------------------------------------------------------------
  // Permission records
  // ---------------------------------------------------------------------------

  /**
   * The triple a permission is known by. `PermissionUtils::getMapAction` is
   * taken to be injective, so the index is keyed by the raw class and field.
   */
  datatype Identity = Identity(operation: string, cls: Option<string>, field: Option<string>)

  /**
   * A permission record. An optional value is `None` when the record class
   * lacks the capability (`LabelableInterface`, `getDetailLabel`,
   * `getTranslationDomain`); `Some(v)` holds its current value, which is
   * what its getter returns: exactly what the setter last received.
   */
  datatype PermissionRecord = PermissionRecord(
    operation: string,
    cls: Option<string>,
    field: Option<string>,
    contexts: seq<Scalar>,
    labelText: Option<Scalar>,
    detailLabel: Option<Scalar>,
    translationDomain: Option<Scalar>)

  /** Which optional capabilities the records made by `newInstance` have. */
  datatype Capabilities = Capabilities(labelable: bool, detailLabel: bool, translationDomain: bool)

  function IdentityOf(p: PermissionRecord): Identity {
    Identity(p.operation, p.cls, p.field)
  }

  /** A record fresh from `newInstance`, with its operation, class and field set. */
  function NewRecord(caps: Capabilities, id: Identity): (p: PermissionRecord)
    ensures IdentityOf(p) == id && p.contexts == []
    ensures p.labelText.Some? == caps.labelable
    ensures p.detailLabel.Some? == caps.detailLabel
    ensures p.translationDomain.Some? == caps.translationDomain
  {
    PermissionRecord(id.operation, id.cls, id.field, [],
      if caps.labelable then Some(Null) else None,
      if caps.detailLabel then Some(Null) else None,
      if caps.translationDomain then Some(Null) else None)
  }

  /** Contexts are compared as the strings `implode(':', …)` makes of them. */
  predicate ContextsDiffer(p: PermissionRecord, c: PermissionConfig) {
    Implode(":", p.contexts) != Implode(":", c.contexts)
  }

  /** A capability-guarded value differs (strictly) from the configured one. */
  predicate OptionDiffers(x: Option<Scalar>, v: Scalar) {
    x.Some? && x.value != v
  }

  function Assigned(x: Option<Scalar>, v: Scalar): Option<Scalar> {
    if OptionDiffers(x, v) then Some(v) else x
  }

  /** What `injectValues` answers: whether any compared value differs. */
  predicate Differs(p: PermissionRecord, c: PermissionConfig) {
    || ContextsDiffer(p, c)
    || OptionDiffers(p.labelText, c.labelText)
    || OptionDiffers(p.detailLabel, c.detailLabel)
    || OptionDiffers(p.translationDomain, c.translationDomain)
  }

  /** The record after `injectValues`: each differing value is replaced by the configured one. */
  function Injected(p: PermissionRecord, c: PermissionConfig): PermissionRecord {
    p.(contexts := if ContextsDiffer(p, c) then c.contexts else p.contexts,
       labelText := Assigned(p.labelText, c.labelText),
       detailLabel := Assigned(p.detailLabel, c.detailLabel),
       translationDomain := Assigned(p.translationDomain, c.translationDomain))
  }

  // ---------------------------------------------------------------------------
  // The index of existing records
  // ---------------------------------------------------------------------------

  /** The index maps a triple to a record that has it; `ref < n` for all refs. */
  predicate IndexSound(index: map<Identity, nat>, heap: seq<PermissionRecord>) {
    forall t :: t in index ==> index[t] < |heap| && IdentityOf(heap[index[t]]) == t
  }

  /**
   * `getPermissions`: every stored record under its triple; where several
   * records share a triple the last one wins.
   */
  function Index(records: seq<PermissionRecord>): (r: map<Identity, nat>)
    ensures IndexSound(r, records)
    decreases |records|
  {
    if records == [] then map[]
    else
      var n := |records| - 1;
      assert forall j :: 0 <= j < n ==> records[..n][j] == records[j];
      Index(records[..n])[IdentityOf(records[n]) := n]
  }

  /** Every stored triple is in the index, under the last record that has it. */
  lemma {:induction false} IndexFacts(records: seq<PermissionRecord>)
    ensures forall j :: 0 <= j < |records| ==> IdentityOf(records[j]) in Index(records)
    ensures forall t, j :: t in Index(records) && Index(records)[t] < j < |records| ==> IdentityOf(records[j]) != t
    decreases |records|
  {
    if records != [] {
      var n := |records| - 1;
      IndexFacts(records[..n]);
      var m := Index(records[..n]);
      var k := IdentityOf(records[n]);
      assert Index(records) == m[k := n];
      forall j | 0 <= j < |records| ensures IdentityOf(records[j]) in Index(records) {
        if j < n {
          assert records[..n][j] == records[j];
        }
      }
      forall t, j | t in Index(records) && Index(records)[t] < j < |records| ensures IdentityOf(records[j]) != t {
        if t != k {
          assert t in m && Index(records)[t] == m[t];
          if j < n {
            assert records[..n][j] == records[j];
          }
        }
      }
    }
  }

  // ---------------------------------------------------------------------------
  // The walk over the scopes
  // ---------------------------------------------------------------------------

  /** One permission of one scope: its triple and its configuration. */
  datatype Visit = Visit(id: Identity, cfg: PermissionConfig)

  /** The permissions of one scope, in configuration order. */
  function ScopeVisits(cls: Option<string>, field: Option<string>, ps: Permissions): (r: seq<Visit>)
    ensures |r| == |ps|
    ensures forall i :: 0 <= i < |ps| ==> r[i] == Visit(Identity(ps[i].0, cls, field), ps[i].1)
  {
    seq(|ps|, i requires 0 <= i < |ps| => Visit(Identity(ps[i].0, cls, field), ps[i].1))
  }

  /** The field scopes of one class, in configuration order. */
  function FieldVisits(cls: string, fields: seq<(string, FieldConfig)>): seq<Visit>
    decreases |fields|
  {
    if fields == [] then []
    else
      var n := |fields| - 1;
      FieldVisits(cls, fields[..n]) + ScopeVisits(Some(cls), Some(fields[n].0), fields[n].1.permissions)
  }

  /** One class: its own scope, then each of its fields. */
  function ClassScopeVisits(cls: string, c: ClassConfig): seq<Visit> {
    ScopeVisits(Some(cls), None, c.permissions) + FieldVisits(cls, c.fields)
  }

  function ClassVisits(classes: seq<(string, ClassConfig)>): seq<Visit>
    decreases |classes|
  {
    if classes == [] then []
    else
      var n := |classes| - 1;
      ClassVisits(classes[..n]) + ClassScopeVisits(classes[n].0, classes[n].1)
  }

  /** The fixed order of the walk: the global scope, then each class with its fields. */
  function Visits(r: Resolved): seq<Visit> {
    ScopeVisits(None, None, r.permissions) + ClassVisits(r.classes)
  }

  // ---------------------------------------------------------------------------
  // Loading the permissions
  // ---------------------------------------------------------------------------

  /**
   * The state of `loadPermissions`: the records in memory, the upsert batch
   * (refs), `$fullPermissions` and the two permission flags of this run.
   */
  datatype PermState = PermState(
    heap: seq<PermissionRecord>,
    upserts: seq<nat>,
    full: map<Identity, nat>,
    hasNew: bool,
    hasUpdated: bool)

  /** `addPermission` for one permission; the index is the one built before the walk. */
  function VisitPermission(caps: Capabilities, index: map<Identity, nat>, s: PermState, v: Visit): (r: PermState)
    requires IndexSound(index, s.heap)
    ensures IndexSound(index, r.heap)
    ensures |r.heap| == |s.heap| + (if v.id in index then 0 else 1)
  {
    if v.id !in index then
      var p := Injected(NewRecord(caps, v.id), v.cfg);
      var ref := |s.heap|;
      PermState(s.heap + [p], s.upserts + [ref], s.full[IdentityOf(p) := ref], true, s.hasUpdated)
    else
      var ref := index[v.id];
      var p := s.heap[ref];
      var p' := Injected(p, v.cfg);
      PermState(s.heap[ref := p'], s.upserts + [ref], s.full[IdentityOf(p') := ref],
                s.hasNew, s.hasUpdated || Differs(p, v.cfg))
  }

  /** Every visited triple has an entry. */
  predicate Covers(vs: seq<Visit>, full: map<Identity, nat>) {
    forall i :: 0 <= i < |vs| ==> vs[i].id in full
  }

  /** `$fullPermissions` names, under each triple, a record with that triple. */
  predicate FullSound(full: map<Identity, nat>, heap: seq<PermissionRecord>) {
    forall t :: t in full ==> full[t] < |heap| && IdentityOf(heap[full[t]]) == t
  }

  /** The walk of `loadPermissions` over a sequence of visits. */
  function VisitAll(caps: Capabilities, index: map<Identity, nat>, s: PermState, vs: seq<Visit>): (r: PermState)
    requires IndexSound(index, s.heap)
    ensures IndexSound(index, r.heap) && |s.heap| <= |r.heap|
    ensures |r.upserts| == |s.upserts| + |vs|
    decreases |vs|
  {
    if vs == [] then s
    else
      var n := |vs| - 1;
      VisitPermission(caps, index, VisitAll(caps, index, s, vs[..n]), vs[n])
  }

  /**
   * After the walk, `$fullPermissions` names under each triple a record that
   * has that triple: the later lookup by triple finds the record that was
   * created or updated for it.
   */
  lemma {:induction false} VisitAllFullSound(caps: Capabilities, index: map<Identity, nat>, s: PermState, vs: seq<Visit>)
    requires IndexSound(index, s.heap) && FullSound(s.full, s.heap)
    ensures FullSound(VisitAll(caps, index, s, vs).full, VisitAll(caps, index, s, vs).heap)
    decreases |vs|
  {
    if vs != [] {
      VisitAllFullSound(caps, index, s, vs[..|vs| - 1]);
    }
  }

  /** After the walk, `$fullPermissions` has an entry for every visited triple. */
  lemma {:induction false} VisitAllCovers(caps: Capabilities, index: map<Identity, nat>, s: PermState, vs: seq<Visit>)
    requires IndexSound(index, s.heap)
    ensures Covers(vs, VisitAll(caps, index, s, vs).full)
    decreases |vs|
  {
    if vs != [] {
      var n := |vs| - 1;
      VisitAllCovers(caps, index, s, vs[..n]);
      var m := VisitAll(caps, index, s, vs[..n]);
      var r := VisitPermission(caps, index, m, vs[n]);
      assert r == VisitAll(caps, index, s, vs);
      forall i | 0 <= i < |vs| ensures vs[i].id in r.full {
        if i < n {
          assert vs[i] == vs[..n][i];
        }
      }
    }
  }

  // ---------------------------------------------------------------------------
  // Roles
  // ---------------------------------------------------------------------------

  /** A role record: its name, its organization and the permissions (refs) it holds. */
  datatype RoleRecord = RoleRecord(name: string, organization: Option<string>, grants: seq<nat>)

  /** What the role query looks at: each role's name and organization. */
  function RoleKeys(roles: seq<RoleRecord>): (r: seq<(string, Option<string>)>)
    ensures |r| == |roles|
    ensures forall j :: 0 <= j < |roles| ==> r[j] == (roles[j].name, roles[j].organization)
  {
    seq(|roles|, j requires 0 <= j < |roles| => (roles[j].name, roles[j].organization))
  }

  /** `getUsedRoles`: the role names in the attached roles of every visit, in walk order. */
  function RolesOf(vs: seq<Visit>): (r: seq<Scalar>)
    ensures forall i, x :: 0 <= i < |vs| && x in vs[i].cfg.attachedRoles ==> x in r
    ensures forall x :: x in r ==> exists i :: 0 <= i < |vs| && x in vs[i].cfg.attachedRoles
    decreases |vs|
  {
    if vs == [] then []
    else
      var n := |vs| - 1;
      RolesOf(vs[..n]) + vs[n].cfg.attachedRoles
  }

  /** `findBy(['organization' => null, 'name' => used])`: the organisation-less roles whose name is used. */
  function FoundRoles(keys: seq<(string, Option<string>)>, used: seq<Scalar>): (r: seq<nat>)
    ensures RefsBelow(r, |keys|)
    ensures forall j: nat :: j in r <==> j < |keys| && keys[j].1 == None && Str(keys[j].0) in used
    decreases |keys|
  {
    if keys == [] then []
    else
      var n := |keys| - 1;
      FoundRoles(keys[..n], used) + (if keys[n].1 == None && Str(keys[n].0) in used then [n] else [])
  }

  predicate RefsBelow(refs: seq<nat>, n: nat) {
    forall i :: 0 <= i < |refs| ==> refs[i] < n
  }

  function FoundNames(keys: seq<(string, Option<string>)>, found: seq<nat>): (r: seq<string>)
    requires RefsBelow(found, |keys|)
    ensures |r| == |found| && forall i :: 0 <= i < |found| ==> r[i] == keys[found[i]].0
  {
    seq(|found|, i requires 0 <= i < |found| => keys[found[i]].0)
  }

  /** `validateUsedRoles`: the used names that no found role has (strict comparison), in order. */
  function Missing(used: seq<Scalar>, names: seq<string>): (r: seq<Scalar>)
    ensures forall x :: x in r <==> x in used && !(x.Str? && x.s in names)
    ensures |r| <= |used|
    decreases |used|
  {
    if used == [] then []
    else
      var n := |used| - 1;
      var x := used[n];
      Missing(used[..n], names) + (if x.Str? && x.s in names then [] else [x])
  }

  /** `$mapRoles`: the found roles by name; for a repeated name the last one wins. */
  function RoleMap(keys: seq<(string, Option<string>)>, found: seq<nat>): map<string, nat>
    requires RefsBelow(found, |keys|)
    decreases |found|
  {
    if found == [] then map[]
    else
      var n := |found| - 1;
      assert RefsBelow(found[..n], |keys|) by {
        assert forall i :: 0 <= i < n ==> found[..n][i] == found[i];
      }
      RoleMap(keys, found[..n])[keys[found[n]].0 := found[n]]
  }

  /** The role map has exactly the names of the found roles, each leading to a found role of that name. */
  lemma {:induction false} RoleMapFacts(keys: seq<(string, Option<string>)>, found: seq<nat>)
    requires RefsBelow(found, |keys|)
    ensures forall name :: name in RoleMap(keys, found) <==> exists i :: 0 <= i < |found| && keys[found[i]].0 == name
    ensures forall name :: name in RoleMap(keys, found) ==>
              RoleMap(keys, found)[name] in found && keys[RoleMap(keys, found)[name]].0 == name
    decreases |found|
  {
    if found != [] {
      var n := |found| - 1;
      assert forall i :: 0 <= i < n ==> found[..n][i] == found[i];
      RoleMapFacts(keys, found[..n]);
    }
  }

  /** The state of `loadRolePermissions`: the roles in memory, `$updates` and this run's role flag. */
  datatype RoleState = RoleState(roles: seq<RoleRecord>, updates: seq<(string, nat)>, hasUpdated: bool)

  /** The inner step of `addRolePermission`: a role gains the permission unless it holds it. */
  function Grant(s: RoleState, perm: nat, ref: nat): (r: RoleState)
    requires ref < |s.roles|
    ensures |r.roles| == |s.roles|
  {
    var role := s.roles[ref];
    if perm in role.grants then s
    else RoleState(s.roles[ref := role.(grants := role.grants + [perm])], Put(s.updates, role.name, ref), true)
  }

  /** Every name resolves to a role: the lookup `$roles[$roleName]` succeeds. */
  predicate NamesResolve(roleMap: map<string, nat>, names: seq<Scalar>, n: nat) {
    forall x :: x in names ==> x.Str? && x.s in roleMap && roleMap[x.s] < n
  }

  function GrantAll(s: RoleState, roleMap: map<string, nat>, perm: nat, names: seq<Scalar>): (r: RoleState)
    requires NamesResolve(roleMap, names, |s.roles|)
    ensures |r.roles| == |s.roles|
    decreases |names|
  {
    if names == [] then s
    else
      var n := |names| - 1;
      Grant(GrantAll(s, roleMap, perm, names[..n]), perm, roleMap[names[n].s])
  }

  /** Both lookups of `addRolePermission` succeed for the visit at `i` when it attaches roles. */
  predicate ReadyAt(full: map<Identity, nat>, roleMap: map<string, nat>, vs: seq<Visit>, i: int, n: nat) {
    0 <= i < |vs| && vs[i].cfg.attachedRoles != [] ==>
      vs[i].id in full && NamesResolve(roleMap, vs[i].cfg.attachedRoles, n)
  }

  /** Both lookups of `addRolePermission` succeed for every visit. */
  predicate Ready(full: map<Identity, nat>, roleMap: map<string, nat>, vs: seq<Visit>, n: nat) {
    forall i :: 0 <= i < |vs| ==> ReadyAt(full, roleMap, vs, i, n)
  }

  /** The lookups succeed on a prefix when they do on the whole. */
  lemma ReadyPrefix(full: map<Identity, nat>, roleMap: map<string, nat>, vs: seq<Visit>, i: nat, n: nat)
    requires i <= |vs| && Ready(full, roleMap, vs, n)
    ensures Ready(full, roleMap, vs[..i], n)
  {
    forall k | 0 <= k < i
      ensures ReadyAt(full, roleMap, vs[..i], k, n)
    {
      assert ReadyAt(full, roleMap, vs, k, n);
    }
  }

  /** The walk of `loadRolePermissions` over a sequence of visits. */
  function AttachAll(s: RoleState, full: map<Identity, nat>, roleMap: map<string, nat>, vs: seq<Visit>): (r: RoleState)
    requires Ready(full, roleMap, vs, |s.roles|)
    ensures |r.roles| == |s.roles|
    decreases |vs|
  {
    if vs == [] then s
    else
      var n := |vs| - 1;
      ReadyPrefix(full, roleMap, vs, n, |s.roles|);
      var s' := AttachAll(s, full, roleMap, vs[..n]);
      var v := vs[n];
      assert ReadyAt(full, roleMap, vs, n, |s.roles|);
      if v.cfg.attachedRoles == [] then s' else GrantAll(s', roleMap, full[v.id], v.cfg.attachedRoles)
  }

  /** `array_values($updates)`: the batch handed to the role store. */
  function Values(updates: seq<(string, nat)>): (r: seq<nat>)
    ensures |r| == |updates| && forall i :: 0 <= i < |updates| ==> r[i] == updates[i].1
  {
    seq(|updates|, i requires 0 <= i < |updates| => updates[i].1)
  }

  // ---------------------------------------------------------------------------
  // One load
  // ---------------------------------------------------------------------------

  datatype LoadError =
    | Schema(error: SchemaError)
    | MissingRoles(names: seq<Scalar>)
    | UpsertRejected

  /**
   * The outcome of `doLoad`: the permission and role records afterwards,
   * this run's three flags, and either the role batch handed to the role
   * store (empty when no call is made) or the error raised.
   */
  datatype Run = Run(
    permissions: seq<PermissionRecord>,
    roles: seq<RoleRecord>,
    hasNew: bool,
    hasUpdated: bool,
    hasUpdatedRoles: bool,
    result: Result<seq<nat>, LoadError>)

  /** A run on a loader whose flags were already set: the flags only ever go from false to true. */
  function Sticky(run: Run, hasNew: bool, hasUpdated: bool, hasUpdatedRoles: bool): Run {
    run.(hasNew := hasNew || run.hasNew, hasUpdated := hasUpdated || run.hasUpdated,
         hasUpdatedRoles := hasUpdatedRoles || run.hasUpdatedRoles)
  }

  function StartPerm(store: seq<PermissionRecord>): PermState {
    PermState(store, [], map[], false, false)
  }

  /**
   * `getUsedRoles`: the stored role of each used name, or, when some used
   * name has no stored role, the names without one.
   */
  function UsedRoles(roles: seq<RoleRecord>, r: Resolved): Result<map<string, nat>, seq<Scalar>> {
    var used := RolesOf(Visits(r));
    var keys := RoleKeys(roles);
    var found := FoundRoles(keys, used);
    var missing := Missing(used, FoundNames(keys, found));
    if missing != [] then Err(missing) else Ok(RoleMap(keys, found))
  }

  /**
   * `doLoad`: the used roles are checked first; then the permissions are
   * created or updated and upserted; then the roles are attached. When the
   * store rejects the upsert batch the records stay as stored and the error
   * is reported; the flags set during the walk stay set.
   */
  function Reconcile(caps: Capabilities, store: seq<PermissionRecord>, roles: seq<RoleRecord>,
                     r: Resolved, upsertAccepted: bool): Run
  {
    match UsedRoles(roles, r)
    case Err(missing) => Run(store, roles, false, false, false, Err(MissingRoles(missing)))
    case Ok(roleMap) =>
      var vs := Visits(r);
      var ps := VisitAll(caps, Index(store), StartPerm(store), vs);
      VisitAllCovers(caps, Index(store), StartPerm(store), vs);
      ReadyWhenNoneMissing(vs, ps.full, RoleKeys(roles), RolesOf(vs));
      if ps.upserts != [] && !upsertAccepted then
        Run(store, roles, ps.hasNew, ps.hasUpdated, false, Err(UpsertRejected))
      else
        var rs := AttachAll(RoleState(roles, [], false), ps.full, roleMap, vs);
        Run(ps.heap, rs.roles, ps.hasNew, ps.hasUpdated, rs.hasUpdated, Ok(Values(rs.updates)))
  }

  /** The three outcomes of `doLoad`, one at a time. */
  lemma ReconcileMissing(caps: Capabilities, store: seq<PermissionRecord>, roles: seq<RoleRecord>,
                         r: Resolved, upsertAccepted: bool)
    requires UsedRoles(roles, r).Err?
    ensures Reconcile(caps, store, roles, r, upsertAccepted)
              == Run(store, roles, false, false, false, Err(MissingRoles(UsedRoles(roles, r).error)))
  {
  }

  lemma ReconcileRejected(caps: Capabilities, store: seq<PermissionRecord>, roles: seq<RoleRecord>,
                          r: Resolved, upsertAccepted: bool)
    requires UsedRoles(roles, r).Ok?
    requires VisitAll(caps, Index(store), StartPerm(store), Visits(r)).upserts != [] && !upsertAccepted
    ensures var ps := VisitAll(caps, Index(store), StartPerm(store), Visits(r));
            Reconcile(caps, store, roles, r, upsertAccepted) == Run(store, roles, ps.hasNew, ps.hasUpdated, false, Err(UpsertRejected))
  {
  }

  lemma ReconcileAttached(caps: Capabilities, store: seq<PermissionRecord>, roles: seq<RoleRecord>,
                          r: Resolved, upsertAccepted: bool)
    requires UsedRoles(roles, r).Ok?
    requires var ps := VisitAll(caps, Index(store), StartPerm(store), Visits(r)); ps.upserts == [] || upsertAccepted
    ensures var ps := VisitAll(caps, Index(store), StartPerm(store), Visits(r));
            var roleMap := UsedRoles(roles, r).value;
            && Ready(ps.full, roleMap, Visits(r), |roles|)
            && var rs := AttachAll(RoleState(roles, [], false), ps.full, roleMap, Visits(r));
               Reconcile(caps, store, roles, r, upsertAccepted)
                 == Run(ps.heap, rs.roles, ps.hasNew, ps.hasUpdated, rs.hasUpdated, Ok(Values(rs.updates)))
  {
    var vs := Visits(r);
    VisitAllCovers(caps, Index(store), StartPerm(store), vs);
    ReadyWhenNoneMissing(vs, VisitAll(caps, Index(store), StartPerm(store), vs).full, RoleKeys(roles), RolesOf(vs));
  }

  /** Once no used role is missing, every lookup of the role walk succeeds. */
  lemma ReadyWhenNoneMissing(vs: seq<Visit>, full: map<Identity, nat>, keys: seq<(string, Option<string>)>,
                             used: seq<Scalar>)
    requires Covers(vs, full)
    requires forall i, x :: 0 <= i < |vs| && x in vs[i].cfg.attachedRoles ==> x in used
    requires Missing(used, FoundNames(keys, FoundRoles(keys, used))) == []
    ensures Ready(full, RoleMap(keys, FoundRoles(keys, used)), vs, |keys|)
  {
    var found := FoundRoles(keys, used);
    var roleMap := RoleMap(keys, found);
    forall i | 0 <= i < |vs| ensures ReadyAt(full, roleMap, vs, i, |keys|) {
      forall x | x in vs[i].cfg.attachedRoles ensures x.Str? && x.s in roleMap && roleMap[x.s] < |keys| {
        UsedRoleMapped(keys, used, x);
      }
    }
  }

  /** A used role that is not missing is in the role map. */
  lemma UsedRoleMapped(keys: seq<(string, Option<string>)>, used: seq<Scalar>, x: Scalar)
    requires x in used && Missing(used, FoundNames(keys, FoundRoles(keys, used))) == []
    ensures var roleMap := RoleMap(keys, FoundRoles(keys, used));
            x.Str? && x.s in roleMap && roleMap[x.s] < |keys|
  {
    var found := FoundRoles(keys, used);
    var names := FoundNames(keys, found);
    assert x !in Missing(used, names);
    var k :| 0 <= k < |found| && names[k] == x.s;
    RoleMapFacts(keys, found);
    assert keys[found[k]].0 == x.s;
  }

  /** `load`: normalise the document, include the templates, reconcile. */
  function LoadDocument(caps: Capabilities, store: seq<PermissionRecord>, roles: seq<RoleRecord>,
                        doc: Node, upsertAccepted: bool): Run
  {
    match Normalize(doc)
    case Err(e) => Run(store, roles, false, false, false, Err(Schema(e)))
    case Ok(config) => Reconcile(caps, store, roles, ResolveConfig(config), upsertAccepted)
  }

  // ---------------------------------------------------------------------------
  // The cache id, as written
  // ---------------------------------------------------------------------------

  /** PHP concatenation of a nullable string: null contributes nothing. */
  function Text(x: Option<string>): string {
    match x
    case None => ""
    case Some(s) => s
  }

  /** `createCacheId` / `getCacheId`: `operation:class:field`. */
  function CacheId(id: Identity): string {
    id.operation + ":" + Text(id.cls) + ":" + Text(id.field)
  }

  /**
   * `$fullPermissions` as written: every upserted record filed under its
   * cache id, a later record replacing an earlier one with the same id
   * (assignment inside `addPermission`, `array_merge` across scopes).
   */
  function CacheFull(heap: seq<PermissionRecord>, refs: seq<nat>): (r: map<string, nat>)
    requires forall i :: 0 <= i < |refs| ==> refs[i] < |heap|
    ensures forall k :: k in r <==> exists i :: 0 <= i < |refs| && CacheId(IdentityOf(heap[refs[i]])) == k
    ensures forall k :: k in r ==> r[k] in refs && CacheId(IdentityOf(heap[r[k]])) == k
    decreases |refs|
  {
    if refs == [] then map[]
    else
      var n := |refs| - 1;
      var m := CacheFull(heap, refs[..n]);
      assert forall i :: 0 <= i < n ==> refs[..n][i] == refs[i];
      m[CacheId(IdentityOf(heap[refs[n]])) := refs[n]]
  }

  // ---------------------------------------------------------------------------
  // The used roles, as written
  // ---------------------------------------------------------------------------

  /** Every key of the array is an integer: a list as `array_merge` builds it. */
  predicate AllIntKeys(a: ScalarArray) {
    forall i :: 0 <= i < |a| ==> a[i].0.IntKey?
  }

  /** The number of integer keys of an array `array_merge` built: its next index. */
  function IntKeyCount(a: ScalarArray): nat
    decreases |a|
  {
    if a == [] then 0 else IntKeyCount(a[..|a| - 1]) + (if a[|a| - 1].0.IntKey? then 1 else 0)
  }

  /** `$a[k] = x`: replaced in place when `k` is present, appended otherwise. */
  function AssignKey(a: ScalarArray, k: Key, x: Scalar): ScalarArray
    decreases |a|
  {
    if a == [] then [(k, x)]
    else if a[0].0 == k then [(k, x)] + a[1..]
    else [a[0]] + AssignKey(a[1..], k, x)
  }

  /** One entry of `array_merge`: an integer key is renumbered and appended, a string key assigned. */
  function MergeEntry(acc: ScalarArray, e: (Key, Scalar)): ScalarArray {
    if e.0.IntKey? then acc + [(IntKey(IntKeyCount(acc)), e.1)] else AssignKey(acc, e.0, e.1)
  }

  /** The entries of `a`, in order, merged into `acc`. */
  function MergeInto(acc: ScalarArray, a: ScalarArray): ScalarArray
    decreases |a|
  {
    if a == [] then acc else MergeEntry(MergeInto(acc, a[..|a| - 1]), a[|a| - 1])
  }

  /** `array_merge(...$arrays)`; no arrays give the empty array. */
  function ArrayMerge(arrays: seq<ScalarArray>): ScalarArray
    decreases |arrays|
  {
    if arrays == [] then [] else MergeInto(ArrayMerge(arrays[..|arrays| - 1]), arrays[|arrays| - 1])
  }

  /**
   * `findUsedRoles` as written: per scope, `doFindUsedRoles` merges the keyed
   * `attached_roles` arrays of its permissions; the scopes' results are merged
   * in turn.
   */
  function UsedRolesAsWritten(scopes: seq<seq<ScalarArray>>): ScalarArray {
    ArrayMerge(seq(|scopes|, i requires 0 <= i < |scopes| => ArrayMerge(scopes[i])))
  }

  /** The values of several arrays, one after the other. */
  function ConcatValues(arrays: seq<ScalarArray>): seq<Scalar>
    decreases |arrays|
  {
    if arrays == [] then [] else ConcatValues(arrays[..|arrays| - 1]) + EntryValues(arrays[|arrays| - 1])
  }
}
