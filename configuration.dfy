/**
 * The permission configuration schema (Permission/PermissionConfiguration.php)
 * and the normalisation the Symfony config tree applies to a parsed document:
 * the dash-to-underscore renaming of keys in the nodes that keep Symfony's
 * key normalisation, the list shorthand of a permission entry, the
 * `permissions` wrap of a field entry, null defaults of the scalar options,
 * and maps keyed by operation, class and field name with keys kept exactly
 * as written.
 */
module PermissionConfiguration {
  import opened Wrappers
  import opened Php
  import opened OrderedMaps

  // ---------------------------------------------------------------------------
  // The parsed document: a tree of PHP arrays and scalars
  // ---------------------------------------------------------------------------

  datatype Key = IntKey(n: int) | StrKey(s: string)

  /** A parsed value: a scalar, or a PHP array given by its entries in order. */
  datatype Node = Leaf(scalar: Scalar) | Arr(items: seq<Item>)
  datatype Item = Item(key: Key, value: Node)

  /** The string a PHP array key stands for when used as a name. */
  function KeyName(k: Key): string {
    match k
    case IntKey(n) => IntToString(n)
    case StrKey(s) => s
  }

  function KeyNames(items: seq<Item>): (r: seq<string>)
    ensures |r| == |items|
    ensures forall i :: 0 <= i < |items| ==> r[i] == KeyName(items[i].key)
  {
    seq(|items|, i requires 0 <= i < |items| => KeyName(items[i].key))
  }

  lemma KeyNamesSnoc(items: seq<Item>)
    requires items != []
    ensures KeyNames(items) == KeyNames(items[..|items| - 1]) + [KeyName(items[|items| - 1].key)]
  {
    assert forall i :: 0 <= i < |items| - 1 ==> items[..|items| - 1][i] == items[i];
  }

  predicate UniqueNames(items: seq<Item>) {
    forall i, j :: 0 <= i < j < |items| ==> KeyName(items[i].key) != KeyName(items[j].key)
  }

  /** PHP `empty()` on a parsed value. */
  predicate IsEmpty(v: Node) {
    match v
    case Leaf(x) => Empty(x)
    case Arr(items) => items == []
  }

  /** PHP `array_key_exists(name, $v)` for a string key. */
  predicate HasKey(items: seq<Item>, name: string) {
    exists i :: 0 <= i < |items| && items[i].key == StrKey(name)
  }

  /** The keys of the array are exactly 0, 1, ..., n-1 in this order. */
  predicate IsList(items: seq<Item>) {
    forall i :: 0 <= i < |items| ==> items[i].key == IntKey(i)
  }

  /** `$v[name]` for a string key, if present (the last entry if the key is repeated). */
  function Child(items: seq<Item>, name: string): Option<Node> {
    if items == [] then None
    else if items[|items| - 1].key == StrKey(name) then Some(items[|items| - 1].value)
    else Child(items[..|items| - 1], name)
  }

  /**
   * Two arrays with the same values, whose entries under `na` in `a` sit where
   * the entries under `nb` sit in `b`, agree on `$a[na]` and `$b[nb]`.
   */
  lemma {:induction false} ChildAgrees(a: seq<Item>, b: seq<Item>, na: string, nb: string)
    requires |a| == |b|
    requires forall i :: 0 <= i < |a| ==> a[i].value == b[i].value && (a[i].key == StrKey(na) <==> b[i].key == StrKey(nb))
    ensures Child(a, na) == Child(b, nb)
  {
    if a != [] {
      var n := |a| - 1;
      assert forall i :: 0 <= i < n ==> a[..n][i] == a[i] && b[..n][i] == b[i];
      ChildAgrees(a[..n], b[..n], na, nb);
    }
  }

  lemma {:induction false} ChildPresent(items: seq<Item>, name: string)
    ensures Child(items, name).Some? <==> HasKey(items, name)
  {
    if items != [] {
      var n := |items| - 1;
      ChildPresent(items[..n], name);
      assert forall i :: 0 <= i < n ==> items[..n][i] == items[i];
    }
  }

  lemma ChildOfPair(items: seq<Item>, name: string)
    requires |items| == 2
    ensures Child(items, name) == if items[1].key == StrKey(name) then Some(items[1].value)
                                  else if items[0].key == StrKey(name) then Some(items[0].value)
                                  else None
  {
    var init := items[..1];
    assert init == [items[0]] && init[..0] == [];
    assert Child(items, name) == if items[1].key == StrKey(name) then Some(items[1].value) else Child(init, name);
    assert Child(init, name) == if items[0].key == StrKey(name) then Some(items[0].value) else Child([], name);
  }

  lemma ChildOfSingleton(k: Key, v: Node, name: string)
    ensures Child([Item(k, v)], name) == if k == StrKey(name) then Some(v) else None
  {
    assert [Item(k, v)][..0] == [];
  }

  /** The keys of `items` that are not among the options a node declares. */
  function ExtraKeys(items: seq<Item>, allowed: set<string>): (r: seq<Key>)
    ensures r == [] <==> forall i :: 0 <= i < |items| ==> items[i].key.StrKey? && items[i].key.s in allowed
  {
    if items == [] then []
    else
      var rest := ExtraKeys(items[1..], allowed);
      assert forall i :: 1 <= i < |items| ==> items[i] == items[1..][i - 1];
      if items[0].key.StrKey? && items[0].key.s in allowed then rest else [items[0].key] + rest
  }

  // ---------------------------------------------------------------------------
  // Key normalisation (`ArrayNode::preNormalize`)
  // ---------------------------------------------------------------------------

  /** PHP `str_replace('-', '_', s)`. */
  function Underscored(s: string): string {
    seq(|s|, i requires 0 <= i < |s| => if s[i] == '-' then '_' else s[i])
  }

  /**
   * The key Symfony gives an entry of `items` before normalising a node that
   * keeps `normalizeKeys`: a name holding '-' and no '_' becomes its
   * underscore form, unless `items` already has that key.
   */
  function NormalizedKey(items: seq<Item>, k: Key): Key {
    var name := KeyName(k);
    if '-' in name && '_' !in name && !HasKey(items, Underscored(name)) then StrKey(Underscored(name)) else k
  }

  /** Every entry under its normalised key, in place, with its value untouched. */
  function PreNormalize(items: seq<Item>): seq<Item> {
    seq(|items|, i requires 0 <= i < |items| => Item(NormalizedKey(items, items[i].key), items[i].value))
  }

  function PreNormalizeNode(v: Node): Node {
    match v
    case Leaf(_) => v
    case Arr(items) => Arr(PreNormalize(items))
  }

  /** A name with neither '-' nor '_' is never renamed nor a renaming's result. */
  lemma PlainNameKept(items: seq<Item>, name: string)
    requires '_' !in name && '-' !in name
    ensures Child(PreNormalize(items), name) == Child(items, name)
  {
    var r := PreNormalize(items);
    forall i | 0 <= i < |items|
      ensures r[i].value == items[i].value && (r[i].key == StrKey(name) <==> items[i].key == StrKey(name))
    {
      var k := items[i].key;
      if NormalizedKey(items, k) != k {
        var u := Underscored(KeyName(k));
        assert '-' in KeyName(k);
        var j :| 0 <= j < |KeyName(k)| && KeyName(k)[j] == '-';
        assert u[j] == '_';
        assert r[i].key == StrKey(u) && StrKey(u) != StrKey(name);
      }
    }
    ChildAgrees(r, items, name, name);
  }

  /**
   * An option spelled with dashes is read under its underscore name, as long
   * as the entry does not also spell it with underscores.
   */
  lemma DashedKeyRead(items: seq<Item>, d: string)
    requires '-' in d && '_' !in d && !HasKey(items, Underscored(d))
    requires forall i :: 0 <= i < |items| ==> items[i].key.StrKey?
    ensures Child(PreNormalize(items), Underscored(d)) == Child(items, d)
  {
    var u := Underscored(d);
    var r := PreNormalize(items);
    forall i | 0 <= i < |items|
      ensures r[i].value == items[i].value && (r[i].key == StrKey(u) <==> items[i].key == StrKey(d))
    {
      assert r[i] == Item(NormalizedKey(items, items[i].key), items[i].value);
      DashedKeyAt(items, d, i);
    }
    ChildAgrees(r, items, u, d);
  }

  lemma DashedKeyAt(items: seq<Item>, d: string, i: nat)
    requires '-' in d && '_' !in d && !HasKey(items, Underscored(d))
    requires i < |items| && items[i].key.StrKey?
    ensures NormalizedKey(items, items[i].key) == StrKey(Underscored(d)) <==> items[i].key == StrKey(d)
  {
    var k := items[i].key;
    var name := KeyName(k);
    if '-' in name && '_' !in name && !HasKey(items, Underscored(name)) {
      if Underscored(name) == Underscored(d) {
        UnderscoredInjective(name, d);
      }
    }
  }

  lemma UnderscoredInjective(a: string, b: string)
    requires '_' !in a && '_' !in b && Underscored(a) == Underscored(b)
    ensures a == b
  {
    assert |a| == |Underscored(a)| == |Underscored(b)| == |b|;
    forall j | 0 <= j < |a| ensures a[j] == b[j] {
      assert Underscored(a)[j] == Underscored(b)[j];
      assert a[j] in a && b[j] in b;
    }
  }

  /** The keys 0..n-1 of a list hold no '-': a list is left as it is. */
  lemma ListUnchanged(items: seq<Item>)
    requires IsList(items)
    ensures PreNormalize(items) == items
  {
    forall i | 0 <= i < |items| ensures PreNormalize(items)[i] == items[i] {
      NatToStringNoDash(i);
      assert KeyName(items[i].key) == NatToString(i);
    }
  }

  /** Renaming only produces string keys, so it never turns a map into a list. */
  lemma ListAfterRenaming(items: seq<Item>)
    requires IsList(PreNormalize(items))
    ensures IsList(items)
  {
    forall i | 0 <= i < |items| ensures items[i].key == IntKey(i) {
      assert PreNormalize(items)[i].key == IntKey(i);
    }
  }

  // ---------------------------------------------------------------------------
  // The normalised configuration
  // ---------------------------------------------------------------------------

  datatype Reason = InvalidType | UnrecognizedOptions(keys: seq<Key>) | TooFewElements
  datatype SchemaError = SchemaError(path: seq<string>, reason: Reason)

  /** One permission entry after normalisation: every option is present. */
  datatype PermissionConfig = PermissionConfig(
    labelText: Scalar,
    detailLabel: Scalar,
    translationDomain: Scalar,
    contexts: seq<Scalar>,
    attachedRoles: seq<Scalar>)

  /** Permission entries keyed by operation, in document order. */
  type Permissions = seq<(string, PermissionConfig)>

  datatype FieldConfig = FieldConfig(permissions: Permissions)
  datatype ClassConfig = ClassConfig(permissions: Permissions, fields: seq<(string, FieldConfig)>)
  datatype Config = Config(
    templates: Permissions,
    permissions: Permissions,
    classes: seq<(string, ClassConfig)>)

  const Defaults := PermissionConfig(Null, Null, Null, [], [])
  const PermissionOptions := {"label", "detail_label", "translation_domain", "contexts", "attached_roles"}
  const ClassOptions := {"permissions", "fields"}
  const RootOptions := {"permission_templates", "permissions", "permission_classes"}
  const RootName := "klipper_permissions"

  predicate ClassWellFormed(c: ClassConfig) {
    && DistinctKeys(c.permissions)
    && DistinctKeys(c.fields)
    && forall j :: 0 <= j < |c.fields| ==> DistinctKeys(c.fields[j].1.permissions)
  }

  /** Every keyed collection of the configuration has distinct keys. */
  predicate WellFormed(c: Config) {
    && DistinctKeys(c.templates)
    && DistinctKeys(c.permissions)
    && DistinctKeys(c.classes)
    && forall i :: 0 <= i < |c.classes| ==> ClassWellFormed(c.classes[i].1)
  }

  // ---------------------------------------------------------------------------
  // Leaf nodes
  // ---------------------------------------------------------------------------

  /** A scalar option (`scalarNode(...)->defaultNull()`). */
  function ScalarOption(path: seq<string>, items: seq<Item>, name: string): Result<Scalar, SchemaError> {
    match Child(items, name)
    case None => Ok(Null)
    case Some(Leaf(x)) => Ok(x)
    case Some(Arr(_)) => Err(SchemaError(path + [name], InvalidType))
  }

  /** A normalised array of scalars: each value under the key Symfony keeps for it. */
  type ScalarArray = seq<(Key, Scalar)>

  /** The values of a scalar array, in order, its keys dropped. */
  function EntryValues(entries: ScalarArray): seq<Scalar> {
    seq(|entries|, i requires 0 <= i < |entries| => entries[i].1)
  }

  /** The entries of a prototyped array of scalars, each under its own key, in order. */
  function ScalarItems(path: seq<string>, items: seq<Item>): (r: Result<ScalarArray, SchemaError>)
    ensures r.Ok? ==> |r.value| == |items| && forall i :: 0 <= i < |items| ==> items[i] == Item(r.value[i].0, Leaf(r.value[i].1))
    ensures r.Ok? <==> forall i :: 0 <= i < |items| ==> items[i].value.Leaf?
  {
    if items == [] then Ok([])
    else
      var last := items[|items| - 1];
      assert forall i :: 0 <= i < |items| - 1 ==> items[i] == items[..|items| - 1][i];
      match ScalarItems(path, items[..|items| - 1])
      case Err(e) => Err(e)
      case Ok(init) =>
        match last.value
        case Leaf(x) => Ok(init + [(last.key, x)])
        case Arr(_) => Err(SchemaError(path + [KeyName(last.key)], InvalidType))
  }

  /**
   * A list option (`arrayNode(...)->prototype('scalar')`): its keys are
   * normalised, and absent or null is the empty array.
   */
  function ScalarListOption(path: seq<string>, items: seq<Item>, name: string): Result<ScalarArray, SchemaError> {
    match Child(items, name)
    case None => Ok([])
    case Some(Leaf(x)) => if x == Null then Ok([]) else Err(SchemaError(path + [name], InvalidType))
    case Some(Arr(entries)) => ScalarItems(path + [name], PreNormalize(entries))
  }

  // ---------------------------------------------------------------------------
  // Permission entries
  // ---------------------------------------------------------------------------

  /**
   * A permission entry once its keys are normalised and the shorthand is
   * applied: an empty value, or a list with keys 0..n-1, stands for
   * `{attached_roles: value}`. A non-empty scalar is not an array and is
   * rejected.
   */
  function EntryItems(path: seq<string>, v: Node): Result<seq<Item>, SchemaError> {
    var w := PreNormalizeNode(v);
    if IsEmpty(w) || (w.Arr? && IsList(w.items)) then Ok([Item(StrKey("attached_roles"), w)])
    else if w.Leaf? then Err(SchemaError(path, InvalidType))
    else Ok(w.items)
  }

  function NormalizePermission(path: seq<string>, v: Node): Result<PermissionConfig, SchemaError> {
    var items :- EntryItems(path, v);
    var labelText :- ScalarOption(path, items, "label");
    var detailLabel :- ScalarOption(path, items, "detail_label");
    var translationDomain :- ScalarOption(path, items, "translation_domain");
    var contexts :- ScalarListOption(path, items, "contexts");
    var attachedRoles :- ScalarListOption(path, items, "attached_roles");
    var extra := ExtraKeys(items, PermissionOptions);
    if extra != [] then Err(SchemaError(path, UnrecognizedOptions(extra)))
    else Ok(PermissionConfig(labelText, detailLabel, translationDomain, EntryValues(contexts), EntryValues(attachedRoles)))
  }

  /**
   * `$permConfig['attached_roles']` as the tree leaves it: the entry's roles
   * under their keys, which the normalised `PermissionConfig` drops.
   */
  function AttachedRoleArray(path: seq<string>, v: Node): Result<ScalarArray, SchemaError> {
    var items :- EntryItems(path, v);
    ScalarListOption(path, items, "attached_roles")
  }

  /** The attached roles of a normalised entry are the values of that keyed array. */
  lemma AttachedRoleArrayValues(path: seq<string>, v: Node)
    requires NormalizePermission(path, v).Ok?
    ensures AttachedRoleArray(path, v).Ok?
    ensures EntryValues(AttachedRoleArray(path, v).value) == NormalizePermission(path, v).value.attachedRoles
  {
  }

  // ---------------------------------------------------------------------------
  // Keyed maps (`useAttributeAsKey(...)->normalizeKeys(false)`)
  // ---------------------------------------------------------------------------

  /** Each entry normalised by `f` and stored under its key as written. */
  function KeyedMap<T>(path: seq<string>, items: seq<Item>, f: (seq<string>, Node) -> Result<T, SchemaError>)
    : (r: Result<seq<(string, T)>, SchemaError>)
    ensures r.Ok? ==> DistinctKeys(r.value) && |r.value| <= |items|
    ensures r.Ok? ==> forall i :: 0 <= i < |items| ==> KeyName(items[i].key) in Keys(r.value)
  {
    if items == [] then Ok([])
    else
      var init := items[..|items| - 1];
      var last := items[|items| - 1];
      match KeyedMap(path, init, f)
      case Err(e) => Err(e)
      case Ok(m) =>
        var name := KeyName(last.key);
        match f(path + [name], last.value)
        case Err(e) => Err(e)
        case Ok(x) =>
          var r := Put(m, name, x);
          PutFacts(m, name, x);
          PutKeeps(m, name, x);
          assert name in Keys(r);
          assert forall i :: 0 <= i < |items| - 1 ==> KeyName(items[i].key) in Keys(r) by {
            forall i | 0 <= i < |items| - 1 ensures KeyName(items[i].key) in Keys(r) {
              assert items[i] == init[i];
            }
          }
          Ok(r)
  }

  lemma KeyedMapStep<T>(path: seq<string>, items: seq<Item>, f: (seq<string>, Node) -> Result<T, SchemaError>)
    requires items != [] && KeyedMap(path, items, f).Ok?
    ensures var n := |items| - 1;
            var name := KeyName(items[n].key);
            && KeyedMap(path, items[..n], f).Ok?
            && f(path + [name], items[n].value).Ok?
            && KeyedMap(path, items, f).value
               == Put(KeyedMap(path, items[..n], f).value, name, f(path + [name], items[n].value).value)
  {
  }

  /** Every value of a keyed map is something `f` produced. */
  lemma {:induction false} KeyedMapValues<T>(path: seq<string>, items: seq<Item>,
                                             f: (seq<string>, Node) -> Result<T, SchemaError>)
    requires KeyedMap(path, items, f).Ok?
    ensures forall e :: e in KeyedMap(path, items, f).value ==> exists p, w :: f(p, w) == Ok(e.1)
  {
    if items != [] {
      var init := items[..|items| - 1];
      KeyedMapValues(path, init, f);
      KeyedMapStep(path, items, f);
      var name := KeyName(items[|items| - 1].key);
      PutOnly(KeyedMap(path, init, f).value, name, f(path + [name], items[|items| - 1].value).value);
    }
  }

  /**
   * A present keyed node: null is the empty array, any other scalar is
   * rejected, and the result must hold at least one element.
   */
  function KeyedNode<T>(path: seq<string>, v: Node, f: (seq<string>, Node) -> Result<T, SchemaError>)
    : (r: Result<seq<(string, T)>, SchemaError>)
    ensures r.Ok? ==> |r.value| >= 1 && DistinctKeys(r.value)
  {
    match v
    case Leaf(x) => if x == Null then Err(SchemaError(path, TooFewElements)) else Err(SchemaError(path, InvalidType))
    case Arr(items) =>
      var m :- KeyedMap(path, items, f);
      if |m| == 0 then Err(SchemaError(path, TooFewElements)) else Ok(m)
  }

  /** An optional keyed child: absent is the empty map, present must satisfy `KeyedNode`. */
  function KeyedOption<T>(path: seq<string>, items: seq<Item>, name: string,
                          f: (seq<string>, Node) -> Result<T, SchemaError>)
    : (r: Result<seq<(string, T)>, SchemaError>)
    ensures r.Ok? ==> DistinctKeys(r.value)
    ensures r.Ok? && Child(items, name).Some? ==> |r.value| >= 1
  {
    match Child(items, name)
    case None => Ok([])
    case Some(w) => KeyedNode(path + [name], w, f)
  }

  lemma KeyedOptionValues<T>(path: seq<string>, items: seq<Item>, name: string,
                             f: (seq<string>, Node) -> Result<T, SchemaError>)
    requires KeyedOption(path, items, name, f).Ok?
    ensures forall e :: e in KeyedOption(path, items, name, f).value ==> exists p, w :: f(p, w) == Ok(e.1)
  {
    match Child(items, name)
    case None =>
    case Some(w) => KeyedMapValues(path + [name], w.items, f);
  }

  function NormalizePermissions(path: seq<string>, v: Node): (r: Result<Permissions, SchemaError>)
    ensures r.Ok? ==> |r.value| >= 1 && DistinctKeys(r.value)
  {
    KeyedNode(path, v, NormalizePermission)
  }

  // ---------------------------------------------------------------------------
  // Fields, classes and the root
  // ---------------------------------------------------------------------------

  /** PHP `isset($v['permissions'])`: an array holding a non-null `permissions` value. */
  predicate HasPermissionsKey(v: Node) {
    v.Arr? && match Child(v.items, "permissions")
              case None => false
              case Some(p) => p != Leaf(Null)
  }

  /** A field entry without a `permissions` key stands for `{permissions: entry}`. */
  function FieldItems(v: Node): seq<Item> {
    if HasPermissionsKey(v) then v.items else [Item(StrKey("permissions"), v)]
  }

  /** A field entry: its keys are normalised before the wrap is decided. */
  function NormalizeField(path: seq<string>, v: Node): (r: Result<FieldConfig, SchemaError>)
    ensures r.Ok? ==> DistinctKeys(r.value.permissions)
  {
    var items := FieldItems(PreNormalizeNode(v));
    var permissions :- KeyedOption(path, items, "permissions", NormalizePermission);
    var extra := ExtraKeys(items, {"permissions"});
    if extra != [] then Err(SchemaError(path, UnrecognizedOptions(extra)))
    else Ok(FieldConfig(permissions))
  }

  function NormalizeClass(path: seq<string>, v: Node): (r: Result<ClassConfig, SchemaError>)
    ensures r.Ok? ==> ClassWellFormed(r.value)
  {
    match v
    case Leaf(x) => if x == Null then Ok(ClassConfig([], [])) else Err(SchemaError(path, InvalidType))
    case Arr(raw) =>
      var items := PreNormalize(raw);
      var permissions :- KeyedOption(path, items, "permissions", NormalizePermission);
      var fields :- KeyedOption(path, items, "fields", NormalizeField);
      var extra := ExtraKeys(items, ClassOptions);
      if extra != [] then Err(SchemaError(path, UnrecognizedOptions(extra)))
      else
        assert forall j :: 0 <= j < |fields| ==> DistinctKeys(fields[j].1.permissions) by {
          KeyedOptionValues(path, items, "fields", NormalizeField);
          forall j | 0 <= j < |fields| ensures DistinctKeys(fields[j].1.permissions) {
            assert fields[j] in fields;
            var p, w :| NormalizeField(p, w) == Ok(fields[j].1);
          }
        }
        Ok(ClassConfig(permissions, fields))
  }

  /** The whole document, normalised; absent top-level keys are empty maps. */
  function Normalize(doc: Node): (r: Result<Config, SchemaError>)
    ensures r.Ok? ==> WellFormed(r.value)
  {
    match doc
    case Leaf(x) => if x == Null then Ok(Config([], [], [])) else Err(SchemaError([RootName], InvalidType))
    case Arr(raw) =>
      var items := PreNormalize(raw);
      var templates :- KeyedOption([RootName], items, "permission_templates", NormalizePermission);
      var permissions :- KeyedOption([RootName], items, "permissions", NormalizePermission);
      var classes :- KeyedOption([RootName], items, "permission_classes", NormalizeClass);
      var extra := ExtraKeys(items, RootOptions);
      if extra != [] then Err(SchemaError([RootName], UnrecognizedOptions(extra)))
      else
        assert forall i :: 0 <= i < |classes| ==> ClassWellFormed(classes[i].1) by {
          KeyedOptionValues([RootName], items, "permission_classes", NormalizeClass);
          forall i | 0 <= i < |classes| ensures ClassWellFormed(classes[i].1) {
            assert classes[i] in classes;
            var p, w :| NormalizeClass(p, w) == Ok(classes[i].1);
          }
        }
        Ok(Config(templates, permissions, classes))
  }

  // ---------------------------------------------------------------------------
  // Properties of the normalisation
  // ---------------------------------------------------------------------------

  /** A bare list of scalars `[a, b, ...]` is the entry `{attached_roles: [a, b, ...]}`. */
  lemma BareListShorthand(path: seq<string>, items: seq<Item>)
    requires |items| > 0 && IsList(items)
    requires forall i :: 0 <= i < |items| ==> items[i].value.Leaf?
    ensures var r := NormalizePermission(path, Arr(items));
            && r.Ok?
            && r.value.labelText == Null && r.value.detailLabel == Null && r.value.translationDomain == Null
            && r.value.contexts == []
            && |r.value.attachedRoles| == |items|
            && forall i :: 0 <= i < |items| ==> items[i].value == Leaf(r.value.attachedRoles[i])
  {
    var entry := [Item(StrKey("attached_roles"), Arr(items))];
    ListUnchanged(items);
    assert EntryItems(path, Arr(items)) == Ok(entry);
    ChildOfSingleton(StrKey("attached_roles"), Arr(items), "label");
    ChildOfSingleton(StrKey("attached_roles"), Arr(items), "detail_label");
    ChildOfSingleton(StrKey("attached_roles"), Arr(items), "translation_domain");
    ChildOfSingleton(StrKey("attached_roles"), Arr(items), "contexts");
    ChildOfSingleton(StrKey("attached_roles"), Arr(items), "attached_roles");
    assert ExtraKeys(entry, PermissionOptions) == [];
  }

  /**
   * An empty entry is the shorthand too: null and `[]` give an entry with no
   * roles and null options; another empty scalar ("", "0", 0, false) is not
   * an array and is rejected as the value of `attached_roles`.
   */
  lemma EmptyEntryShorthand(path: seq<string>, v: Node)
    requires IsEmpty(v)
    ensures NormalizePermission(path, v) ==
            if v == Leaf(Null) || v.Arr? then Ok(Defaults)
            else Err(SchemaError(path + ["attached_roles"], InvalidType))
  {
    var entry := [Item(StrKey("attached_roles"), v)];
    assert PreNormalizeNode(v) == v;
    assert EntryItems(path, v) == Ok(entry);
    ChildOfSingleton(StrKey("attached_roles"), v, "label");
    ChildOfSingleton(StrKey("attached_roles"), v, "detail_label");
    ChildOfSingleton(StrKey("attached_roles"), v, "translation_domain");
    ChildOfSingleton(StrKey("attached_roles"), v, "contexts");
    ChildOfSingleton(StrKey("attached_roles"), v, "attached_roles");
    assert EntryValues([]) == [];
    if v.Arr? {
      assert PreNormalize([]) == [];
    }
    assert ExtraKeys(entry, PermissionOptions) == [];
  }

  /** An entry written as a map (keys other than 0..n-1) is not wrapped: only its keys are normalised. */
  lemma MapEntryUnchanged(path: seq<string>, items: seq<Item>)
    requires items != [] && !IsList(items)
    ensures EntryItems(path, Arr(items)) == Ok(PreNormalize(items))
  {
    if IsList(PreNormalize(items)) {
      ListAfterRenaming(items);
    }
  }

  /** The scalar options missing from an entry are null, the missing lists are empty. */
  lemma MissingOptionsDefault(path: seq<string>, v: Node)
    requires NormalizePermission(path, v).Ok?
    ensures EntryItems(path, v).Ok?
    ensures var items, c := EntryItems(path, v).value, NormalizePermission(path, v).value;
            && (Child(items, "label").None? ==> c.labelText == Null)
            && (Child(items, "detail_label").None? ==> c.detailLabel == Null)
            && (Child(items, "translation_domain").None? ==> c.translationDomain == Null)
            && (Child(items, "contexts").None? ==> c.contexts == [])
            && (Child(items, "attached_roles").None? ==> c.attachedRoles == [])
  {
  }

  /** `contexts` and `attached_roles` hold scalars only: a nested array is rejected. */
  lemma NestedListValueRejected(path: seq<string>, v: Node, name: string, entries: seq<Item>, i: nat)
    requires name == "contexts" || name == "attached_roles"
    requires EntryItems(path, v).Ok? && Child(EntryItems(path, v).value, name) == Some(Arr(entries))
    requires i < |entries| && entries[i].value.Arr?
    ensures NormalizePermission(path, v).Err?
  {
    var items := EntryItems(path, v).value;
    NestedListOptionRejected(path, items, name, entries, i);
  }

  /** A list option holding a nested array is rejected. */
  lemma NestedListOptionRejected(path: seq<string>, items: seq<Item>, name: string, entries: seq<Item>, i: nat)
    requires Child(items, name) == Some(Arr(entries)) && i < |entries| && entries[i].value.Arr?
    ensures ScalarListOption(path, items, name).Err?
  {
    assert PreNormalize(entries)[i].value.Arr?;
  }

  /**
   * A field entry without a `permissions` key is read as `{permissions: entry}`,
   * with the entry's keys, the operations, already normalised.
   */
  lemma FieldShorthand(path: seq<string>, v: Node)
    requires !HasPermissionsKey(v)
    ensures NormalizeField(path, v) ==
            match NormalizePermissions(path + ["permissions"], PreNormalizeNode(v))
            case Ok(p) => Ok(FieldConfig(p))
            case Err(e) => Err(e)
  {
    var w := PreNormalizeNode(v);
    if v.Arr? {
      PlainNameKept(v.items, "permissions");
    }
    assert !HasPermissionsKey(w);
    var items := [Item(StrKey("permissions"), w)];
    assert FieldItems(w) == items;
    ChildOfSingleton(StrKey("permissions"), w, "permissions");
    assert ExtraKeys(items, {"permissions"}) == [];
  }

  /**
   * A keyed map (`normalizeKeys(false)`) does not normalise its keys: when
   * the document's keys are distinct, the map has exactly those keys, as
   * written and in document order, each holding the normalised value of its
   * own entry.
   */
  lemma {:induction false} KeysKeptAsWritten<T>(path: seq<string>, items: seq<Item>,
                                                f: (seq<string>, Node) -> Result<T, SchemaError>)
    requires UniqueNames(items) && KeyedMap(path, items, f).Ok?
    ensures var m := KeyedMap(path, items, f).value;
            && |m| == |items|
            && Keys(m) == KeyNames(items)
            && forall i :: 0 <= i < |items| ==> f(path + [KeyName(items[i].key)], items[i].value) == Ok(m[i].1)
  {
    if items != [] {
      var n := |items| - 1;
      var init := items[..n];
      assert UniqueNames(init) by {
        forall i, j | 0 <= i < j < |init| ensures KeyName(init[i].key) != KeyName(init[j].key) {
          assert init[i] == items[i] && init[j] == items[j];
        }
      }
      KeysKeptAsWritten(path, init, f);
      KeyedMapStep(path, items, f);
      var m := KeyedMap(path, init, f).value;
      var name := KeyName(items[n].key);
      assert name !in Keys(m) by {
        forall i | 0 <= i < |init| ensures Keys(m)[i] != name {
          assert init[i] == items[i];
        }
      }
      var x := f(path + [name], items[n].value).value;
      var r := KeyedMap(path, items, f).value;
      PutAppends(m, name, x);
      assert r == m + [(name, x)];
      KeysSnoc(m, (name, x));
      KeyNamesSnoc(items);
      forall i | 0 <= i < n
        ensures f(path + [KeyName(items[i].key)], items[i].value) == Ok(r[i].1)
      {
        assert items[i] == init[i];
        assert r[i] == m[i];
      }
    }
  }

  /** An option may be spelled with dashes: `{detail-label: x}` is read as `{detail_label: x}`. */
  lemma DashedOptionName(path: seq<string>, x: Scalar)
    ensures NormalizePermission(path, Arr([Item(StrKey("detail-label"), Leaf(x))]))
            == Ok(PermissionConfig(Null, x, Null, [], []))
  {
    DashedRenamed("detail", "label", Leaf(x));
    assert "detail" + "-" + "label" == "detail-label" && "detail" + "_" + "label" == "detail_label";
    DetailLabelOnly(path, [Item(StrKey("detail-label"), Leaf(x))], x);
  }

  lemma DetailLabelOnly(path: seq<string>, raw: seq<Item>, x: Scalar)
    requires PreNormalize(raw) == [Item(StrKey("detail_label"), Leaf(x))]
    ensures NormalizePermission(path, Arr(raw)) == Ok(PermissionConfig(Null, x, Null, [], []))
  {
    var v := Leaf(x);
    var items := PreNormalize(raw);
    assert items[0].key != IntKey(0);
    assert EntryItems(path, Arr(raw)) == Ok(items);
    ChildOfSingleton(StrKey("detail_label"), v, "label");
    ChildOfSingleton(StrKey("detail_label"), v, "detail_label");
    ChildOfSingleton(StrKey("detail_label"), v, "translation_domain");
    ChildOfSingleton(StrKey("detail_label"), v, "contexts");
    ChildOfSingleton(StrKey("detail_label"), v, "attached_roles");
    assert EntryValues([]) == [];
    assert ExtraKeys(items, PermissionOptions) == [];
  }

  /** A single key `a-b`, with neither part holding '-' or '_', is renamed to `a_b`. */
  lemma DashedRenamed(a: string, b: string, v: Node)
    requires '-' !in a && '_' !in a && '-' !in b && '_' !in b
    ensures PreNormalize([Item(StrKey(a + "-" + b), v)]) == [Item(StrKey(a + "_" + b), v)]
  {
    UnderscoredJoin(a, b);
    var d, u := a + "-" + b, a + "_" + b;
    assert d[|a|] != u[|a|];
    assert !HasKey([Item(StrKey(d), v)], u);
  }

  /** A dashed spelling next to the underscore one is not renamed, and is an unknown option. */
  lemma UnderscoreSpellingWins(path: seq<string>, x: Scalar, y: Scalar)
    ensures NormalizePermission(path, Arr([
              Item(StrKey("detail-label"), Leaf(x)),
              Item(StrKey("detail_label"), Leaf(y))]))
            == Err(SchemaError(path, UnrecognizedOptions([StrKey("detail-label")])))
  {
    var items := [Item(StrKey("detail-label"), Leaf(x)), Item(StrKey("detail_label"), Leaf(y))];
    assert "detail" + "-" + "label" == "detail-label" && "detail" + "_" + "label" == "detail_label";
    BothSpellingsKept(items, "detail", "label");
    assert items[0].key != IntKey(0);
    assert EntryItems(path, Arr(items)) == Ok(items);
    ChildOfPair(items, "label");
    ChildOfPair(items, "detail_label");
    ChildOfPair(items, "translation_domain");
    ChildOfPair(items, "contexts");
    ChildOfPair(items, "attached_roles");
    assert ExtraKeys(items[1..], PermissionOptions) == [];
    assert ExtraKeys(items, PermissionOptions) == [StrKey("detail-label")];
  }

  /** Both `a-b` and `a_b` present: neither is renamed. */
  lemma BothSpellingsKept(items: seq<Item>, a: string, b: string)
    requires '-' !in a && '_' !in a && '-' !in b && '_' !in b
    requires |items| == 2 && items[0].key == StrKey(a + "-" + b) && items[1].key == StrKey(a + "_" + b)
    ensures PreNormalize(items) == items
  {
    UnderscoredJoin(a, b);
    assert HasKey(items, a + "_" + b) by {
      assert items[1].key == StrKey(a + "_" + b);
    }
    assert NormalizedKey(items, items[0].key) == items[0].key;
    assert NormalizedKey(items, items[1].key) == items[1].key;
    assert PreNormalize(items)[0] == items[0] && PreNormalize(items)[1] == items[1];
  }

  /** `str_replace('-', '_', a-b)` is `a_b`, which holds no '-' and is not `a-b`. */
  lemma UnderscoredJoin(a: string, b: string)
    requires '-' !in a && '_' !in a && '-' !in b && '_' !in b
    ensures Underscored(a + "-" + b) == a + "_" + b
    ensures '-' in a + "-" + b && '_' !in a + "-" + b && '-' !in a + "_" + b
  {
    var d, u := a + "-" + b, a + "_" + b;
    assert d[|a|] == '-' && u[|a|] == '_';
    forall i | 0 <= i < |d| ensures Underscored(d)[i] == u[i] && d[i] != '_' && u[i] != '-' {
      if i < |a| { assert d[i] == a[i] == u[i]; assert a[i] in a; }
      else if i > |a| { assert d[i] == b[i - |a| - 1] == u[i]; assert b[i - |a| - 1] in b; }
    }
  }

  /**
   * The top-level keys may be spelled with dashes too: a document holding only
   * `permission-classes` is read as one holding only `permission_classes`.
   */
  lemma DashedRootKey(classes: Node)
    ensures Normalize(Arr([Item(StrKey("permission-classes"), classes)]))
            == match KeyedNode([RootName, "permission_classes"], classes, NormalizeClass)
               case Ok(m) => Ok(Config([], [], m))
               case Err(e) => Err(e)
  {
    var raw := [Item(StrKey("permission-classes"), classes)];
    DashedRenamed("permission", "classes", classes);
    assert "permission" + "-" + "classes" == "permission-classes";
    assert "permission" + "_" + "classes" == "permission_classes";
    ClassesOnly(raw, classes);
  }

  lemma ClassesOnly(raw: seq<Item>, classes: Node)
    requires PreNormalize(raw) == [Item(StrKey("permission_classes"), classes)]
    ensures Normalize(Arr(raw))
            == match KeyedNode([RootName, "permission_classes"], classes, NormalizeClass)
               case Ok(m) => Ok(Config([], [], m))
               case Err(e) => Err(e)
  {
    var items := PreNormalize(raw);
    ChildOfSingleton(StrKey("permission_classes"), classes, "permission_templates");
    ChildOfSingleton(StrKey("permission_classes"), classes, "permissions");
    ChildOfSingleton(StrKey("permission_classes"), classes, "permission_classes");
    assert [RootName] + ["permission_classes"] == [RootName, "permission_classes"];
    assert ExtraKeys(items, RootOptions) == [];
  }

  lemma KeyedMapSingleton<T>(path: seq<string>, k: Key, v: Node, f: (seq<string>, Node) -> Result<T, SchemaError>)
    requires f(path + [KeyName(k)], v).Ok?
    ensures KeyedMap(path, [Item(k, v)], f) == Ok([(KeyName(k), f(path + [KeyName(k)], v).value)])
  {
    assert [Item(k, v)][..0] == [];
  }

  /**
   * The operations of a field written in shorthand have their keys normalised
   * before the wrap, while those under an explicit `permissions` key are kept
   * as written: `{can-edit: ~}` is the operation `can_edit`, and
   * `{permissions: {can-edit: ~}}` the operation `can-edit`.
   */
  lemma FieldShorthandRenamesOperations(path: seq<string>)
    ensures NormalizeField(path, Arr([Item(StrKey("can-edit"), Leaf(Null))]))
            == Ok(FieldConfig([("can_edit", Defaults)]))
    ensures NormalizeField(path, Arr([Item(StrKey("permissions"), Arr([Item(StrKey("can-edit"), Leaf(Null))]))]))
            == Ok(FieldConfig([("can-edit", Defaults)]))
  {
    ShorthandOperationRenamed(path);
    WrappedOperationKept(path);
  }

  lemma ShorthandOperationRenamed(path: seq<string>)
    ensures NormalizeField(path, Arr([Item(StrKey("can-edit"), Leaf(Null))]))
            == Ok(FieldConfig([("can_edit", Defaults)]))
  {
    var short := Arr([Item(StrKey("can-edit"), Leaf(Null))]);
    DashedRenamed("can", "edit", Leaf(Null));
    assert "can" + "-" + "edit" == "can-edit" && "can" + "_" + "edit" == "can_edit";
    ChildOfSingleton(StrKey("can-edit"), Leaf(Null), "permissions");
    FieldShorthand(path, short);
    var ops := path + ["permissions"];
    EmptyEntryShorthand(ops + [KeyName(StrKey("can_edit"))], Leaf(Null));
    KeyedMapSingleton(ops, StrKey("can_edit"), Leaf(Null), NormalizePermission);
  }

  lemma WrappedOperationKept(path: seq<string>)
    ensures NormalizeField(path, Arr([Item(StrKey("permissions"), Arr([Item(StrKey("can-edit"), Leaf(Null))]))]))
            == Ok(FieldConfig([("can-edit", Defaults)]))
  {
    var ops := Arr([Item(StrKey("can-edit"), Leaf(Null))]);
    var full := [Item(StrKey("permissions"), ops)];
    PlainNameKept(full, "permissions");
    assert PreNormalize(full) == full by {
      assert '-' !in "permissions";
      assert NormalizedKey(full, full[0].key) == full[0].key;
    }
    ChildOfSingleton(StrKey("permissions"), ops, "permissions");
    assert FieldItems(Arr(full)) == full;
    EmptyEntryShorthand(path + ["permissions"] + [KeyName(StrKey("can-edit"))], Leaf(Null));
    KeyedMapSingleton(path + ["permissions"], StrKey("can-edit"), Leaf(Null), NormalizePermission);
    assert ExtraKeys(full, {"permissions"}) == [];
  }

  /** `{attached_roles: {k: x}}`: one role under a string key, which the tree keeps. */
  lemma KeyedRoleEntry(path: seq<string>, k: string, x: string)
    requires '-' !in k
    ensures var v := Arr([Item(StrKey("attached_roles"), Arr([Item(StrKey(k), Leaf(Str(x)))]))]);
            && AttachedRoleArray(path, v) == Ok([(StrKey(k), Str(x))])
            && NormalizePermission(path, v) == Ok(PermissionConfig(Null, Null, Null, [], [Str(x)]))
  {
    var roles := Arr([Item(StrKey(k), Leaf(Str(x)))]);
    var items := [Item(StrKey("attached_roles"), roles)];
    PlainRolesEntry(path, Arr(items), roles);
    SingleKeyedScalar(path + ["attached_roles"], k, x);
    ChildOfSingleton(StrKey("attached_roles"), roles, "attached_roles");
    assert ScalarListOption(path, items, "attached_roles") == Ok([(StrKey(k), Str(x))]);
    assert EntryValues([(StrKey(k), Str(x))]) == [Str(x)];
  }

  lemma SingleKeyedScalar(path: seq<string>, k: string, x: string)
    requires '-' !in k
    ensures ScalarItems(path, PreNormalize([Item(StrKey(k), Leaf(Str(x)))])) == Ok([(StrKey(k), Str(x))])
  {
    var items := [Item(StrKey(k), Leaf(Str(x)))];
    assert PreNormalize(items) == items by {
      assert NormalizedKey(items, StrKey(k)) == StrKey(k);
      assert PreNormalize(items)[0] == items[0];
    }
    var r := ScalarItems(path, items);
    assert r.Ok?;
    assert r.value[0] == (StrKey(k), Str(x));
    assert r.value == [(StrKey(k), Str(x))];
  }

  /** An entry holding only `attached_roles`, spelled with underscores and given as a map. */
  lemma PlainRolesEntry(path: seq<string>, v: Node, roles: Node)
    requires v == Arr([Item(StrKey("attached_roles"), roles)])
    ensures EntryItems(path, v) == Ok(v.items)
    ensures NormalizePermission(path, v) ==
            match ScalarListOption(path, v.items, "attached_roles")
            case Ok(r) => Ok(PermissionConfig(Null, Null, Null, [], EntryValues(r)))
            case Err(e) => Err(e)
  {
    var items := v.items;
    assert PreNormalize(items) == items by {
      assert '-' !in "attached_roles";
      assert NormalizedKey(items, items[0].key) == items[0].key;
      assert PreNormalize(items)[0] == items[0];
    }
    assert items[0].key != IntKey(0);
    ChildOfSingleton(StrKey("attached_roles"), roles, "label");
    ChildOfSingleton(StrKey("attached_roles"), roles, "detail_label");
    ChildOfSingleton(StrKey("attached_roles"), roles, "translation_domain");
    ChildOfSingleton(StrKey("attached_roles"), roles, "contexts");
    ChildOfSingleton(StrKey("attached_roles"), roles, "attached_roles");
    assert EntryValues([]) == [];
    assert ExtraKeys(items, PermissionOptions) == [];
  }
}
