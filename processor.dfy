/**
 * Template inheritance (Permission/PermissionProcessor.php): the templates
 * are removed from the configuration, and every permission whose operation
 * names a template receives the template's non-empty values in the options
 * it leaves empty, in the global scope, in every class and in every field.
 */
module PermissionProcessor {
  import opened Wrappers
  import opened Php
  import opened OrderedMaps
  import opened PermissionConfiguration

  /** The configuration the loader receives: `permission_templates` is gone. */
  datatype Resolved = Resolved(permissions: Permissions, classes: seq<(string, ClassConfig)>)

  predicate ResolvedWellFormed(r: Resolved) {
    && DistinctKeys(r.permissions)
    && DistinctKeys(r.classes)
    && forall i :: 0 <= i < |r.classes| ==> ClassWellFormed(r.classes[i].1)
  }

  // ---------------------------------------------------------------------------
  // Specification
  // ---------------------------------------------------------------------------

  /**
   * The template values copied into one permission: an option takes the
   * template's value when that value is not empty and the permission's is.
   * (After normalisation every option is present, so "absent" cannot occur.)
   */
  function Fill(c: PermissionConfig, t: PermissionConfig): PermissionConfig {
    PermissionConfig(
      if !Empty(t.labelText) && Empty(c.labelText) then t.labelText else c.labelText,
      if !Empty(t.detailLabel) && Empty(c.detailLabel) then t.detailLabel else c.detailLabel,
      if !Empty(t.translationDomain) && Empty(c.translationDomain) then t.translationDomain else c.translationDomain,
      if t.contexts != [] && c.contexts == [] then t.contexts else c.contexts,
      if t.attachedRoles != [] && c.attachedRoles == [] then t.attachedRoles else c.attachedRoles)
  }

  /** One permission after inclusion: filled from the template of its operation, if any. */
  function Applied(templates: Permissions, operation: string, c: PermissionConfig): PermissionConfig {
    match Get(templates, operation)
    case None => c
    case Some(t) => Fill(c, t)
  }

  /** A permissions mapping after inclusion. */
  function IncludeTemplates(templates: Permissions, ps: Permissions): (r: Permissions)
    ensures |r| == |ps| && Keys(r) == Keys(ps)
    ensures forall i :: 0 <= i < |ps| ==> r[i] == (ps[i].0, Applied(templates, ps[i].0, ps[i].1))
  {
    if ps == [] then []
    else
      var n := |ps| - 1;
      IncludeTemplates(templates, ps[..n]) + [(ps[n].0, Applied(templates, ps[n].0, ps[n].1))]
  }

  function ResolveFields(templates: Permissions, fs: seq<(string, FieldConfig)>): (r: seq<(string, FieldConfig)>)
    ensures |r| == |fs| && Keys(r) == Keys(fs)
    ensures forall j :: 0 <= j < |fs| ==> r[j].1.permissions == IncludeTemplates(templates, fs[j].1.permissions)
  {
    seq(|fs|, j requires 0 <= j < |fs| => (fs[j].0, FieldConfig(IncludeTemplates(templates, fs[j].1.permissions))))
  }

  function ResolveClasses(templates: Permissions, cs: seq<(string, ClassConfig)>): (r: seq<(string, ClassConfig)>)
    ensures |r| == |cs| && Keys(r) == Keys(cs)
    ensures forall i :: 0 <= i < |cs| ==>
              && r[i].1.permissions == IncludeTemplates(templates, cs[i].1.permissions)
              && r[i].1.fields == ResolveFields(templates, cs[i].1.fields)
  {
    seq(|cs|, i requires 0 <= i < |cs| =>
      (cs[i].0, ClassConfig(IncludeTemplates(templates, cs[i].1.permissions), ResolveFields(templates, cs[i].1.fields))))
  }

  /** The processed configuration: templates applied to every scope, then dropped. */
  function ResolveConfig(c: Config): Resolved {
    Resolved(IncludeTemplates(c.templates, c.permissions), ResolveClasses(c.templates, c.classes))
  }

  // ---------------------------------------------------------------------------
  // The processor
  // ---------------------------------------------------------------------------

  /** `includeTemplateValues`: fills the permissions of one scope in place. */
  method IncludeTemplateValues(templates: Permissions, permissions: Permissions) returns (r: Permissions)
    ensures r == IncludeTemplates(templates, permissions)
  {
    r := permissions;
    var i := 0;
    while i < |r|
      invariant 0 <= i <= |r| == |permissions|
      invariant forall k :: 0 <= k < i ==> r[k] == (permissions[k].0, Applied(templates, permissions[k].0, permissions[k].1))
      invariant forall k :: i <= k < |r| ==> r[k] == permissions[k]
    {
      var (operation, config) := r[i];
      var template := Get(templates, operation);
      if template.Some? {
        var t := template.value;
        if !Empty(t.labelText) && Empty(config.labelText) {
          config := config.(labelText := t.labelText);
        }
        if !Empty(t.detailLabel) && Empty(config.detailLabel) {
          config := config.(detailLabel := t.detailLabel);
        }
        if !Empty(t.translationDomain) && Empty(config.translationDomain) {
          config := config.(translationDomain := t.translationDomain);
        }
        if t.contexts != [] && config.contexts == [] {
          config := config.(contexts := t.contexts);
        }
        if t.attachedRoles != [] && config.attachedRoles == [] {
          config := config.(attachedRoles := t.attachedRoles);
        }
        r := r[i := (operation, config)];
      }
      i := i + 1;
    }
  }

  /** `process`: removes the templates and fills the global, class and field scopes. */
  method Process(config: Config) returns (r: Resolved)
    ensures r == ResolveConfig(config)
  {
    var templates := config.templates;
    var permissions := IncludeTemplateValues(templates, config.permissions);
    var classes := config.classes;
    var i := 0;
    while i < |classes|
      invariant 0 <= i <= |classes| == |config.classes|
      invariant forall k :: 0 <= k < i ==> classes[k] == ResolveClasses(templates, config.classes)[k]
      invariant forall k :: i <= k < |classes| ==> classes[k] == config.classes[k]
    {
      var (name, classConfig) := classes[i];
      var classPermissions := IncludeTemplateValues(templates, classConfig.permissions);
      var fields := classConfig.fields;
      var j := 0;
      while j < |fields|
        invariant 0 <= j <= |fields| == |classConfig.fields|
        invariant forall k :: 0 <= k < j ==> fields[k] == ResolveFields(templates, classConfig.fields)[k]
        invariant forall k :: j <= k < |fields| ==> fields[k] == classConfig.fields[k]
      {
        var (field, fieldConfig) := fields[j];
        var fieldPermissions := IncludeTemplateValues(templates, fieldConfig.permissions);
        fields := fields[j := (field, FieldConfig(fieldPermissions))];
        j := j + 1;
      }
      assert fields == ResolveFields(templates, classConfig.fields);
      classes := classes[i := (name, ClassConfig(classPermissions, fields))];
      i := i + 1;
    }
    r := Resolved(permissions, classes);
  }

  // ---------------------------------------------------------------------------
  // Properties
  // ---------------------------------------------------------------------------

  /**
   * Fill only writes into empty options: every option of the result is the
   * permission's own value, or the template's non-empty value where the
   * permission's was empty.
   */
  lemma FillOnlyIntoEmpty(c: PermissionConfig, t: PermissionConfig)
    ensures var r := Fill(c, t);
            && (r.labelText == c.labelText || (Empty(c.labelText) && !Empty(t.labelText) && r.labelText == t.labelText))
            && (r.detailLabel == c.detailLabel || (Empty(c.detailLabel) && !Empty(t.detailLabel) && r.detailLabel == t.detailLabel))
            && (r.translationDomain == c.translationDomain
                || (Empty(c.translationDomain) && !Empty(t.translationDomain) && r.translationDomain == t.translationDomain))
            && (r.contexts == c.contexts || (c.contexts == [] && t.contexts != [] && r.contexts == t.contexts))
            && (r.attachedRoles == c.attachedRoles || (c.attachedRoles == [] && t.attachedRoles != [] && r.attachedRoles == t.attachedRoles))
  {
  }

  /** A non-empty option of the permission is never overwritten by the template. */
  lemma FillNeverOverwrites(c: PermissionConfig, t: PermissionConfig)
    ensures var r := Fill(c, t);
            && (!Empty(c.labelText) ==> r.labelText == c.labelText)
            && (!Empty(c.detailLabel) ==> r.detailLabel == c.detailLabel)
            && (!Empty(c.translationDomain) ==> r.translationDomain == c.translationDomain)
            && (c.contexts != [] ==> r.contexts == c.contexts)
            && (c.attachedRoles != [] ==> r.attachedRoles == c.attachedRoles)
  {
  }

  /** Every empty option for which the template has a value receives it. */
  lemma FillCompletes(c: PermissionConfig, t: PermissionConfig)
    ensures var r := Fill(c, t);
            && (Empty(c.labelText) && !Empty(t.labelText) ==> r.labelText == t.labelText)
            && (Empty(c.detailLabel) && !Empty(t.detailLabel) ==> r.detailLabel == t.detailLabel)
            && (Empty(c.translationDomain) && !Empty(t.translationDomain) ==> r.translationDomain == t.translationDomain)
            && (c.contexts == [] && t.contexts != [] ==> r.contexts == t.contexts)
            && (c.attachedRoles == [] && t.attachedRoles != [] ==> r.attachedRoles == t.attachedRoles)
  {
  }

  /** Only permissions whose operation names a template change. */
  lemma OnlyTemplatedOperationsChange(templates: Permissions, ps: Permissions, i: nat)
    requires i < |ps| && ps[i].0 !in Keys(templates)
    ensures IncludeTemplates(templates, ps)[i] == ps[i]
  {
  }

  /** Filling from the same template twice is filling once. */
  lemma AppliedIdempotent(templates: Permissions, operation: string, c: PermissionConfig)
    ensures Applied(templates, operation, Applied(templates, operation, c)) == Applied(templates, operation, c)
  {
  }

  /** Inclusion twice is inclusion once. */
  lemma {:induction false} IncludeTemplatesIdempotent(templates: Permissions, ps: Permissions)
    ensures IncludeTemplates(templates, IncludeTemplates(templates, ps)) == IncludeTemplates(templates, ps)
  {
    var once := IncludeTemplates(templates, ps);
    var twice := IncludeTemplates(templates, once);
    forall i | 0 <= i < |ps| ensures twice[i] == once[i] {
      AppliedIdempotent(templates, ps[i].0, ps[i].1);
    }
  }

  /** Processing keeps every key set, so a well-formed configuration stays well formed. */
  lemma ResolvePreservesWellFormed(c: Config)
    requires WellFormed(c)
    ensures ResolvedWellFormed(ResolveConfig(c))
  {
    var r := ResolveConfig(c);
    DistinctKeysByKeys(r.permissions, c.permissions);
    DistinctKeysByKeys(r.classes, c.classes);
    forall i | 0 <= i < |r.classes| ensures ClassWellFormed(r.classes[i].1) {
      var rc, cc := r.classes[i].1, c.classes[i].1;
      assert ClassWellFormed(cc);
      DistinctKeysByKeys(rc.permissions, cc.permissions);
      DistinctKeysByKeys(rc.fields, cc.fields);
      forall j | 0 <= j < |rc.fields| ensures DistinctKeys(rc.fields[j].1.permissions) {
        DistinctKeysByKeys(rc.fields[j].1.permissions, cc.fields[j].1.permissions);
      }
    }
  }
}
