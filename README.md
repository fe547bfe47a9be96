# Permission reconciliation of klipperdev/data-loader-security, in Dafny

The library provisions the permission and role records of an authorization
model from a declarative document. A load runs in three stages:

1. **Normalisation** (`PermissionConfiguration`) checks the parsed document
   against the configuration tree. It turns the shorthand forms into full
   entries: a bare list or an empty value becomes `{attached_roles: …}`, and
   a field entry without `permissions` becomes `{permissions: entry}`. It
   fills in the defaults. It normalises keys as Symfony's
   `ArrayNode::preNormalize` does: in every array node except the three
   keyed maps (`normalizeKeys(false)`), a key holding '-' and no '_' takes
   its underscore form unless that form is already a key, so `detail-label`
   reads as `detail_label`. The keyed maps keep their keys exactly as
   written, and the scalar arrays `contexts` and `attached_roles` keep each
   entry under its own key (`configuration.dfy`, module
   `PermissionConfiguration`).
2. **Template inclusion** (`PermissionProcessor`) drops
   `permission_templates`. Every permission whose operation names a template
   receives the template's non-empty values wherever its own value is empty.
   This happens in the global scope, in each class and in each field
   (`processor.dfy`, module `PermissionProcessor`).
3. **Reconciliation** (`BasePermissionLoader`) works against the stores:
   - It checks that every role named anywhere exists and is organisation-less.
   - It indexes the stored permissions by their (operation, class, field) triple.
   - It walks the scopes in a fixed order, creating the records that are missing and updating the rest through `injectValues`.
   - It hands the upsert batch to the permission store.
   - It gives each attached role every permission it lacks, and hands the changed roles to the role store.
   - Three flags tell the caller whether anything was created or updated.

The reconciliation is stated twice:
- as functions over values (`reconciler.dfy`, module `Reconciler`);
- as the loader class, `Loader.PermissionLoader` (`loader.dfy`). Its methods follow the PHP methods loop for loop. Each one is proved equal to the function it stands for, so every theorem about the functions also holds of the loader.

The properties are in `reconciler_properties.dfy`. The auxiliary lemmas about walk order are in `walks.dfy`.

**The store is abstract.**
- The permission and role stores are sequences of records.
- A record's identity is its position in its sequence, and a new permission record is appended.
- The store's answer to the upsert batch is the parameter `upsertAccepted`.
- PHP arrays with string keys are ordered sequences of key/value pairs (`ordered_maps.dfy`). Assigning to a key replaces its value in place, and assigning to a new key appends it.
- PHP scalars and `empty()`, string conversion and `implode` are in `php.dfy`.

**Where the description of the library and its code differ, the model follows the code:**
- The upsert batch holds every visited permission, including records that did not change (`$upserts[] = $perm` in both branches of `addPermission`). The description speaks only of touched records.
- Stored and configured contexts are compared as the strings `implode(':', …)` makes of them, not as sequences. So `["a:b"]` and `["a", "b"]` count as equal (`ReconcilerProperties.ContextsComparedJoined`).

## Model

| member | source | states |
|---|---|---|
| OrderedMaps.Get | Permission/PermissionProcessor.php:70-71 | `isset($m[$k])` lookup: no value exactly when the key is absent; otherwise the value of an entry with that key |
| OrderedMaps.PutFacts | Permission/BasePermissionLoader.php:166 | PHP key assignment: an existing key keeps its place, a new key is appended at the end, distinct keys stay distinct and no other entry appears |
| OrderedMaps.PutKeeps | Permission/BasePermissionLoader.php:166 | the assigned pair is present afterwards and every entry under another key survives |
| OrderedMaps.GetPut | Permission/BasePermissionLoader.php:166 | reading a key after an assignment gives the assigned value for that key and the old value for any other |
| PermissionConfiguration.ExtraKeys | Permission/PermissionConfiguration.php:108-118 | the undeclared keys of a node: none exactly when every key is one of the declared options |
| PermissionConfiguration.ScalarItems | Permission/PermissionConfiguration.php:112-117 | a prototyped scalar array is accepted exactly when every entry is a scalar, and then holds each entry's scalar under that entry's own key, in document order |
| PermissionConfiguration.KeyedMap | Permission/PermissionConfiguration.php:96-97 | a keyed map has distinct keys, no more entries than the document, and contains every key of the document |
| PermissionConfiguration.KeyedNode | Permission/PermissionConfiguration.php:95-98 | a present keyed node that is accepted has at least one element and distinct keys |
| PermissionConfiguration.KeyedOption | Permission/PermissionConfiguration.php:58-59 | an accepted optional keyed node has distinct keys, and at least one element when it is present |
| PermissionConfiguration.NormalizePermissions | Permission/PermissionConfiguration.php:89-98 | an accepted `permissions` node is keyed by operation with distinct keys and holds at least one entry |
| PermissionConfiguration.NormalizeField | Permission/PermissionConfiguration.php:63-74 | an accepted field has distinct operation keys |
| PermissionConfiguration.NormalizeClass | Permission/PermissionConfiguration.php:55-77 | an accepted class has distinct operations and distinct fields, and every field has distinct operations |
| PermissionConfiguration.Normalize | Permission/PermissionConfiguration.php:26-41 | an accepted document has distinct keys in every keyed collection |
| PermissionConfiguration.BareListShorthand | Permission/PermissionConfiguration.php:100-106 | a bare list of scalars becomes an entry whose attached roles are those scalars in order, with null scalar options and no contexts |
| PermissionConfiguration.EmptyEntryShorthand | Permission/PermissionConfiguration.php:100-106 | null or `[]` becomes the all-default entry; any other empty scalar is rejected as the value of `attached_roles` |
| PermissionConfiguration.MapEntryUnchanged | Permission/PermissionConfiguration.php:101-102 | an entry whose keys are not 0..n-1 is not wrapped by the shorthand; only its keys are normalised |
| PermissionConfiguration.MissingOptionsDefault | Permission/PermissionConfiguration.php:109-117 | in an accepted entry each missing scalar option is null and each missing list option is empty |
| PermissionConfiguration.NestedListValueRejected | Permission/PermissionConfiguration.php:112-117 | `contexts` and `attached_roles` hold scalars only: a nested array in either fails the normalisation |
| PermissionConfiguration.FieldShorthand | Permission/PermissionConfiguration.php:64-70 | a field entry without a `permissions` key normalises as `{permissions: entry}`, with the entry's keys normalised before the wrap |
| PermissionConfiguration.PlainNameKept | Permission/PermissionConfiguration.php:108-117 | key normalisation neither renames a name holding no '-' and no '_' nor renames another key to it, so the option is read as written |
| PermissionConfiguration.DashedKeyRead | Permission/PermissionConfiguration.php:108-117 | an option name spelled with '-' (and no '_') is read under its underscore name, as long as the node does not also spell it that way |
| PermissionConfiguration.ListUnchanged | Permission/PermissionConfiguration.php:100-106 | key normalisation leaves a list (keys 0..n-1) as it is, so the shorthand test sees what was written |
| PermissionConfiguration.DashedOptionName | Permission/PermissionConfiguration.php:108-111 | `{detail-label: x}` is the entry with detail label x and every other option defaulted |
| PermissionConfiguration.UnderscoreSpellingWins | Permission/PermissionConfiguration.php:108-118 | with both `detail-label` and `detail_label` present, the dashed key is not renamed and the entry is rejected for that unrecognised key |
| PermissionConfiguration.DashedRootKey | Permission/PermissionConfiguration.php:31-37 | a document holding only `permission-classes` normalises as one holding only `permission_classes` |
| PermissionConfiguration.FieldShorthandRenamesOperations | Permission/PermissionConfiguration.php:63-73 | a shorthand field's operation keys are normalised before the wrap (`{can-edit: ~}` is the operation `can_edit`), while under an explicit `permissions` key they are kept (`can-edit`) |
| PermissionConfiguration.AttachedRoleArrayValues | Permission/PermissionConfiguration.php:115-116 | the attached roles of an accepted entry are the values of its keyed `attached_roles` array, in order |
| PermissionConfiguration.KeyedRoleEntry | Permission/PermissionConfiguration.php:115-116 | `{attached_roles: {k: x}}` keeps the role x under the string key k, and the entry attaches exactly x |
| PermissionConfiguration.KeysKeptAsWritten | Permission/PermissionConfiguration.php:96-97 | with distinct document keys the map has exactly those keys, as written and in document order, each holding the normalised value of its own entry |
| PermissionProcessor.IncludeTemplates | Permission/PermissionProcessor.php:69-80 | inclusion keeps the operations and their order, and fills each entry from the template of its own operation |
| PermissionProcessor.ResolveClasses | Permission/PermissionProcessor.php:50-56 | every class keeps its name and has inclusion applied to its own permissions and to the permissions of each of its fields |
| PermissionProcessor.IncludeTemplateValues | Permission/PermissionProcessor.php:67-81 | the in-place loop over one scope leaves exactly the included permissions |
| PermissionProcessor.Process | Permission/PermissionProcessor.php:42-59 | the result has no templates and has inclusion applied to the global scope, every class scope and every field scope |
| PermissionProcessor.FillOnlyIntoEmpty | Permission/PermissionProcessor.php:73-77 | each option keeps its value, or was empty and received the template's non-empty value |
| PermissionProcessor.FillNeverOverwrites | Permission/PermissionProcessor.php:74-76 | a non-empty option of the permission is never replaced by the template |
| PermissionProcessor.FillCompletes | Permission/PermissionProcessor.php:73-77 | every empty option for which the template has a non-empty value receives that value |
| PermissionProcessor.OnlyTemplatedOperationsChange | Permission/PermissionProcessor.php:69-70 | an entry whose operation names no template is unchanged |
| PermissionProcessor.AppliedIdempotent | Permission/PermissionProcessor.php:73-78 | filling one permission from its template twice equals filling it once |
| PermissionProcessor.IncludeTemplatesIdempotent | Permission/PermissionProcessor.php:69-80 | including the templates twice equals including them once |
| PermissionProcessor.ResolvePreservesWellFormed | Permission/PermissionProcessor.php:45-56 | processing keeps every key set, so distinct operations, classes and fields stay distinct |
| Reconciler.NewRecord | Permission/BasePermissionLoader.php:229-232 | a fresh record has exactly the visited triple and no contexts, and has the optional values its class provides |
| Reconciler.Index | Permission/BasePermissionLoader.php:296-300 | every entry of the index names a stored record with that triple |
| Reconciler.IndexFacts | Permission/BasePermissionLoader.php:296-300 | every stored triple is in the index, and no later record has the triple the index names it under (the last one wins) |
| Reconciler.VisitPermission | Permission/BasePermissionLoader.php:227-246 | one permission keeps the index sound and adds a record exactly when its triple is not indexed |
| Reconciler.VisitAll | Permission/BasePermissionLoader.php:184-195 | the walk keeps the index sound, never drops a record, and adds a ref to the upsert batch for every visit |
| Reconciler.VisitAllFullSound | Permission/BasePermissionLoader.php:246 | after the walk `$fullPermissions` names, under each triple, a record with that triple (the corrected lookup of the finding below) |
| Reconciler.VisitAllCovers | Permission/BasePermissionLoader.php:158-159 | after the walk `$fullPermissions` has an entry for every visited triple, so the lookup of `addRolePermission` always hits |
| Reconciler.RolesOf | Permission/BasePermissionLoader.php:370-404 | the used roles are exactly the attached roles of the visits: each one appears and nothing else does |
| Reconciler.FoundRoles | Permission/BasePermissionLoader.php:319-324 | a stored role is found exactly when it has no organization and its name is used |
| Reconciler.Missing | Permission/BasePermissionLoader.php:350-354 | a name is reported missing exactly when it is used and is not strictly equal to any found name |
| Reconciler.RoleMapFacts | Permission/BasePermissionLoader.php:328-330 | `$mapRoles` has exactly the names of the found roles, each leading to a found role of that name |
| Reconciler.ReadyWhenNoneMissing | Permission/BasePermissionLoader.php:157-162 | once no used role is missing, both lookups of the role walk (`$permissions[$id]`, `$roles[$roleName]`) succeed for every visit |
| Reconciler.ReconcileMissing | Permission/BasePermissionLoader.php:106-108 | when a used role is missing the load stops with those names, leaving the stores and the flags untouched |
| Reconciler.ReconcileRejected | Permission/BasePermissionLoader.php:197-203 | when the store rejects a non-empty upsert batch the load fails with the walk's flags set and no role attached |
| Reconciler.ReconcileAttached | Permission/BasePermissionLoader.php:109-113 | otherwise the role walk can run, and the load returns the walked records, the attached roles and the role batch |
| Reconciler.CacheFull | Permission/BasePermissionLoader.php:246 | `$fullPermissions` as written: its keys are exactly the cache ids of the upserted records, each naming an upserted record with that cache id |
| ReconcilerProperties.InjectReportsChange | Permission/BasePermissionLoader.php:258-285 | `injectValues` answers true exactly when it changes the record |
| ReconcilerProperties.InjectAgrees | Permission/BasePermissionLoader.php:262-282 | afterwards the contexts agree when joined, each present optional value equals the configured one, no capability is gained or lost, and the triple is kept |
| ReconcilerProperties.InjectIdempotent | Permission/BasePermissionLoader.php:262-282 | a second `injectValues` with the same configuration changes nothing and answers false |
| ReconcilerProperties.ContextsComparedJoined | Permission/BasePermissionLoader.php:262 | the contexts `["a:b"]` and `["a", "b"]` count as equal, so such a record is left as it is |
| ReconcilerProperties.AbsentTripleCreatesRecord | Permission/BasePermissionLoader.php:227-235 | an unindexed triple gets one new appended record with exactly that triple, agreeing with its configuration, in the upsert batch; `hasNewPermissions` is set and the update flag is kept |
| ReconcilerProperties.ExistingTripleReusesRecord | Permission/BasePermissionLoader.php:236-243 | an indexed triple reuses its record: no record is created, the record is updated in place and upserted, and the update flag is set exactly when `injectValues` changed it |
| ReconcilerProperties.IndexHas | Permission/BasePermissionLoader.php:296-300 | every stored triple is indexed |
| ReconcilerProperties.IndexNamesLast | Permission/BasePermissionLoader.php:296-300 | no record after the indexed one has its triple |
| ReconcilerProperties.IndexLastWins | Permission/BasePermissionLoader.php:296-300 | the last stored record with a triple is the one indexed for it |
| ReconcilerProperties.VisitIdsDistinct | Permission/BasePermissionLoader.php:187-194 | in a well-formed configuration the walk visits no triple twice |
| ReconcilerProperties.FirstLoadSettles | Permission/BasePermissionLoader.php:227-246 | after a walk over distinct triples the new index and `$fullPermissions` name the same record for every visited triple, and that record agrees with its configuration |
| ReconcilerProperties.LoadKeepsTriplesDistinct | Permission/BasePermissionLoader.php:227-235 | no duplicate identity: distinct stored triples stay distinct after the walk, and every added record has a triple that was not stored |
| ReconcilerProperties.SettledWalkChangesNothing | Permission/BasePermissionLoader.php:236-243 | a walk whose records all exist and already agree changes no record and sets no flag |
| ReconcilerProperties.SettledVisitChangesNothing | Permission/BasePermissionLoader.php:236-243 | visiting an indexed triple whose record already agrees changes no record and sets no flag |
| ReconcilerProperties.SettledWalkFull | Permission/BasePermissionLoader.php:237-246 | a walk over indexed triples puts the indexed records in `$fullPermissions` |
| ReconcilerProperties.GrantGrows | Permission/BasePermissionLoader.php:164-165 | a grant keeps every role's name and organization and only adds the permission, which the role afterwards holds |
| ReconcilerProperties.GrantAllGrows | Permission/BasePermissionLoader.php:161-168 | after a permission's inner loop every named role holds it and no role lost or duplicated a permission |
| ReconcilerProperties.AttachAllGrows | Permission/BasePermissionLoader.php:154-172 | the role walk only adds permissions to roles, never one a role already holds |
| ReconcilerProperties.AttachAllHolds | Permission/BasePermissionLoader.php:154-172 | after the role walk every attached role holds the permission it is attached to |
| ReconcilerProperties.GrantAllHeldUnchanged | Permission/BasePermissionLoader.php:164 | when every named role already holds the permission the inner loop changes nothing |
| ReconcilerProperties.AttachHeldUnchanged | Permission/BasePermissionLoader.php:164-167 | when every attachment is already held the role walk changes no role and collects no update |
| ReconcilerProperties.RoleMapIsRoleMapped | Permission/BasePermissionLoader.php:328-330 | every name of `$mapRoles` leads to a stored role of that name |
| ReconcilerProperties.GrantTracksUpdates | Permission/BasePermissionLoader.php:164-167 | a grant keeps `$updates` exactly the changed roles, once each under its name, with the role flag set exactly when it is non-empty |
| ReconcilerProperties.GrantAllTracksUpdates | Permission/BasePermissionLoader.php:161-168 | the inner loop keeps that invariant of `$updates` |
| ReconcilerProperties.AttachAllTracksUpdates | Permission/BasePermissionLoader.php:154-172 | the role walk keeps that invariant of `$updates` |
| ReconcilerProperties.BatchOfTrackedUpdates | Permission/BasePermissionLoader.php:137-138 | `array_values($updates)` holds each changed role once and no other |
| ReconcilerProperties.FoundNamesExist | Permission/BasePermissionLoader.php:319-324 | a used name is among the found names exactly when an organisation-less role of that name is stored |
| ReconcilerProperties.MissingRolesAreFatal | Permission/BasePermissionLoader.php:341-361 | the load fails on missing roles exactly when some used name has no organisation-less role; the error lists exactly those names, and nothing was loaded or flagged |
| ReconcilerProperties.RoleBatchIsTheChangedRoles | Permission/BasePermissionLoader.php:123-142 | after a successful load roles only grew, the batch is exactly the changed roles, each once, and it is empty (no store call) exactly when the role flag was not set |
| ReconcilerProperties.ReloadChangesNothing | Permission/BasePermissionLoader.php:106-114 | loading the same configuration again on what the first load left creates, updates and attaches nothing, sets no flag and hands back an empty batch |
| ReconcilerProperties.CacheIdCollides | Permission/BasePermissionLoader.php:411-426 | two pairs of distinct triples have the same cache id (null against empty class, a colon inside a name) |
| ReconcilerProperties.FreshWalkOfTwo | Permission/BasePermissionLoader.php:227-235 | loading two distinct new triples into an empty store creates one record for each, in visit order, both upserted |
| ReconcilerProperties.CacheLookupInLoad | Permission/BasePermissionLoader.php:158-159 | when two triples of a loaded document share a cache id, the lookup for the first returns the record of the second |
| ReconcilerProperties.CacheLookupFindsOtherTriple | Permission/BasePermissionLoader.php:158-159 | loading the classes `Post` (field `a:b`) and `Post:a` (field `b`) into an empty store, the lookup for the first triple returns the record of the second |
| ReconcilerProperties.MergeIntoList | Permission/BasePermissionLoader.php:399-403 | `array_merge` of a list into a list appends its values and leaves a list |
| ReconcilerProperties.ListsMergeToConcatenation | Permission/BasePermissionLoader.php:393-404 | when every `attached_roles` array is a list, merging them yields all their values, in order |
| ReconcilerProperties.ListScopesMergeToConcatenation | Permission/BasePermissionLoader.php:370-404 | when every `attached_roles` array is a list, the used roles as written are every attached role of every scope, in walk order |
| ReconcilerProperties.MergeShadows | Permission/BasePermissionLoader.php:403 | a later entry under the same string key replaces the earlier one |
| ReconcilerProperties.ShadowedRoleEscapesValidation | Permission/BasePermissionLoader.php:370-404 | two permissions attaching roles under the same key leave only the second role for validation, which passes although the first role is attached and has no stored role; the model's used roles keep both, so that load fails with the first role missing |
| Loader.PermissionLoader.constructor | Permission/BasePermissionLoader.php:50-60 | the loader starts over the given stores with all three flags false |
| Loader.PermissionLoader.InjectValues | Permission/BasePermissionLoader.php:258-285 | the setter sequence leaves the injected record and answers whether any compared value differed |
| Loader.PermissionLoader.GetPermissions | Permission/BasePermissionLoader.php:290-303 | the loop builds the index of the stored records |
| Loader.PermissionLoader.DoFindUsedRoles | Permission/BasePermissionLoader.php:393-404 | the attached roles of one scope's permissions, in order |
| Loader.PermissionLoader.FindUsedRoles | Permission/BasePermissionLoader.php:370-384 | the attached roles of every scope, in walk order |
| Loader.PermissionLoader.ValidateUsedRoles | Permission/BasePermissionLoader.php:341-361 | exactly the used names that no found role has, in order |
| Loader.PermissionLoader.GetUsedRoles | Permission/BasePermissionLoader.php:312-333 | the found roles by name, or every used name without a role |
| Loader.PermissionLoader.AddOne | Permission/BasePermissionLoader.php:223-246 | one iteration of `addPermission` is one step of the reconciliation walk |
| Loader.PermissionLoader.AddPermission | Permission/BasePermissionLoader.php:219-250 | one scope is walked as the reconciliation walk over that scope's visits |
| Loader.PermissionLoader.MergePermissions | Permission/BasePermissionLoader.php:187-205 | a scope walked with a fresh map and merged over the earlier entries equals the walk continued over that scope |
| Loader.PermissionLoader.LoadClassPermissions | Permission/BasePermissionLoader.php:190-194 | one class is walked as its own scope, then each of its fields |
| Loader.PermissionLoader.WalkPermissions | Permission/BasePermissionLoader.php:184-195 | the nested loops walk the global scope, then each class and field, in the order of the reconciliation walk |
| Loader.PermissionLoader.LoadPermissions | Permission/BasePermissionLoader.php:182-206 | the flags gain the walk's flags; a rejected non-empty batch keeps the stored records and fails, otherwise the store holds the walked records and `$fullPermissions` is returned |
| Loader.PermissionLoader.GrantRoles | Permission/BasePermissionLoader.php:161-168 | the inner loop grants one permission to each named role that lacks it and files it under its name |
| Loader.PermissionLoader.AddRolePermission | Permission/BasePermissionLoader.php:154-172 | one scope is walked as the role walk over that scope's visits |
| Loader.PermissionLoader.LoadClassRolePermissions | Permission/BasePermissionLoader.php:130-134 | one class is walked as its own scope, then each of its fields |
| Loader.PermissionLoader.WalkRolePermissions | Permission/BasePermissionLoader.php:125-135 | the nested loops walk the scopes in the order of the role walk |
| Loader.PermissionLoader.LoadRolePermissions | Permission/BasePermissionLoader.php:123-142 | the store holds the roles after the role walk, the role flag gains the walk's flag, and the batch is the changed roles |
| Loader.PermissionLoader.DoLoad | Permission/BasePermissionLoader.php:106-114 | the stores, flags and result are those of the reconciliation, with flags that only go from false to true |
| Loader.PermissionLoader.Load | Permission/BasePermissionLoader.php:62-68 | normalise, process and load: the outcome of the whole load with sticky flags, or the schema error with nothing changed |

## Left out

- `loadContent` is abstract in the source. YAML parsing is not part of this model: `Load` takes the parsed document as a tree of arrays and scalars.
- The Symfony `Processor` merges several documents; the model normalises one.
- Symfony's handling of `true` on an array node is not modelled.
- The re-keying of list prototypes by the `useAttributeAsKey` attribute (`operation`, `class`, `field` inside an entry) is not modelled, and neither is its error case. Symfony's `PrototypedArrayNode` rejects a list element that is an array without that attribute (`permissions: [{label: x}]` fails with "The attribute "operation" must be set"). The model's keyed maps instead accept such an element under its index as the name (`"0"`).
- The order in which the schema reports several errors is not modelled. An error is a path and a reason.
- Floating-point scalars are not modelled.
- `PermissionUtils::getMapAction` is not part of this model. It is taken to be injective, so the index is keyed by the raw (operation, class, field) triple.
- The stores are modelled as sequences of records:
  - `findAll` reads a sequence;
  - `findBy` is a filter;
  - `newInstance` makes a record with empty contexts and null optional values.
- The store's answer to `upserts` is the parameter `upsertAccepted`. What it does to each record is not modelled.
- Loader.PermissionLoader.LoadPermissions: a rejected batch leaves the stored records as they were. In the source the objects handed out by the store have already been changed by `injectValues`, and what the store then holds is not knowable here.
- The `ResourceList` that `domainRole->updates` returns is not modelled. The loader returns the batch it hands over (empty when no call is made), and the role store holds the updated roles.
- Exceptions (`RuntimeException`, `ConsoleResourceException`, the schema's exceptions) are error values. Their message texts are not modelled.
- Objects are values held in sequences and addressed by their position, so aliasing is not modelled. The walks carry the records and flags in a state value and write them back to the loader's fields once.
- The reflective capability checks (`instanceof LabelableInterface`, `method_exists`) are fixed per record: they are optional fields, and `Capabilities` decides them for new records.
- The getters `hasNewPermissions`, `hasUpdatedPermissions` and `hasUpdatedRoles` are the loader's fields, read directly.
- PermissionConfiguration.NormalizePermission: the normalised entry keeps the values of `contexts` and `attached_roles` only. Their string keys matter only to the `array_merge` of the used roles, which `Reconciler.UsedRolesAsWritten` models as written (see Findings), and to what `setContexts` stores, which `implode` then compares without keys.
- Reconciler.RolesOf: the used roles are every attached role, so a role attached under a string key that a later permission reuses is still checked. As written, `array_merge` drops it (see Findings).
- Loader.PermissionLoader.DoFindUsedRoles: collects the attached roles by concatenation, not through the keyed `array_merge`, for the reason given for `Reconciler.RolesOf`.
- Loader.PermissionLoader.FindUsedRoles: concatenates the scopes' roles, for the same reason.
- ReconcilerProperties.MissingRolesAreFatal: holds of the corrected used roles; as written, a role shadowed by an equal key escapes the check (`ReconcilerProperties.ShadowedRoleEscapesValidation`).
- Reconciler.PermissionRecord: a record's getters are taken to return exactly what its setters last received. The strict `!==` comparisons of `injectValues` (Permission/BasePermissionLoader.php:267, :273, :279) run against an entity class that is not part of this model. An entity that converts values (a string-typed label that stores `5` as `"5"`) would report a change on every load.
- ReconcilerProperties.InjectIdempotent: holds under that assumption about the getters, and so does ReconcilerProperties.ReloadChangesNothing.
- Reconciler.CacheFull and the cache id are modelled as written, but the rest of the model keys `$fullPermissions` by the triple itself (see Findings).
- The console commands are not part of this model.

## Findings

| source | as written | input that shows it | evidently intended | confidence | as-written member | corrected member |
|---|---|---|---|---|---|---|
| Permission/BasePermissionLoader.php:411-426 | `$fullPermissions` and the lookup in `addRolePermission` are keyed by the string `operation:class:field`, which is not injective | the field `a:b` of class `Post` and the field `b` of class `Post:a` (also a null class against an empty one) have the same id, so the later record replaces the earlier one and the first triple's roles are attached to the second triple's permission | each permission is attached to the record of its own triple | low, not executed; it requires a colon in a class or field name or an empty class name | ReconcilerProperties.CacheLookupFindsOtherTriple | Reconciler.VisitAllFullSound |
| Permission/BasePermissionLoader.php:383, :403 | the used roles are collected with `array_merge`, and the `attached_roles` arrays keep the string keys the document gave them | `permissions: {view: {attached_roles: {a: ghost}}, edit: {attached_roles: {a: editor}}}` with only `editor` stored: the merge keeps `editor` alone, validation passes, the permissions are upserted, and `$roles['ghost']` at :162 is null when `hasPermission` is called on it | every attached role is checked before the stores are changed | medium, not executed; it requires `attached_roles` written as a map with a key shared between permissions | ReconcilerProperties.ShadowedRoleEscapesValidation | ReconcilerProperties.MissingRolesAreFatal |
