/**
 * The IAM naming aspect of the SFTP stack (sftp/sftp_stack.py:22-94): for each
 * CloudFormation IAM resource it visits, it adds property overrides that prefix
 * Role, Policy, ManagedPolicy and InstanceProfile names and set the IAM path; and
 * the normalisation of the `IamRolePath` context value (sftp/sftp_stack.py:139-141).
 */
module IamNaming {
  import opened Types
  import opened PyText

  const RoleType: string := "AWS::IAM::Role"
  const PolicyType: string := "AWS::IAM::Policy"
  const ManagedPolicyType: string := "AWS::IAM::ManagedPolicy"
  const InstanceProfileType: string := "AWS::IAM::InstanceProfile"

  /** `IamNamingAspect.resource_types`. */
  const ResourceTypes: seq<string> := [RoleType, PolicyType, ManagedPolicyType, InstanceProfileType]

  /** The CloudFormation length limits the aspect truncates to. */
  const RoleNameLimit: nat := 64
  const PolicyNameLimit: nat := 128

  /** The aspect's four settings, fixed at construction; each defaults to "". */
  datatype Aspect = Aspect(rolePrefix: string, policyPrefix: string, instanceProfilePrefix: string, rolePath: string)

  /**
   * Reading the resource's own name attribute (`role_name`, `policy_name` or
   * `managed_policy_name`): a string, `None` (the name is not set), or an access that
   * raises.
   */
  datatype NameAttribute = Named(name: string) | Unset | Raises

  /** What `visit` reads from a construct. */
  datatype Construct = Construct(
    isCfnResource: bool, resourceType: string, path: string, addr: string, name: NameAttribute)

  /** One `add_property_override(property, value)` call. */
  datatype Override = Override(property: string, value: string)

  /** A construct and the property overrides added to it so far, in call order. */
  class Node {
    const construct: Construct
    var overrides: seq<Override>

    constructor (construct: Construct)
      ensures this.construct == construct && overrides == []
    {
      this.construct := construct;
      overrides := [];
    }
  }

  /** `s.startswith(prefix)`. */
  predicate StartsWith(s: string, prefix: string) {
    prefix <= s
  }

  /** `sub in s` on strings: `sub` occurs in `s` at some position. */
  predicate Contains(s: string, sub: string) {
    exists i | 0 <= i <= |s| - |sub| :: OccursAt(s, sub, i)
  }

  predicate OccursAt(s: string, sub: string, i: int) {
    0 <= i <= |s| - |sub| && s[i..i + |sub|] == sub
  }

  lemma EndsWithSub(front: string, sub: string)
    ensures Contains(front + sub, sub)
  {
    assert OccursAt(front + sub, sub, |front|);
  }

  /** A text lacking one of the characters of `sub` does not contain `sub`. */
  lemma MissingChar(s: string, sub: string, k: nat)
    requires k < |sub| && sub[k] !in s
    ensures !Contains(s, sub)
  {
    forall i | 0 <= i <= |s| - |sub| ensures !OccursAt(s, sub, i) {
      assert s[i..i + |sub|][k] == s[i + k];
    }
  }

  /** `x.replace(":", "")`. */
  function RemoveColons(s: string): (r: string)
    ensures ':' !in r
  {
    if s == [] then [] else (if s[0] == ':' then [] else [s[0]]) + RemoveColons(s[1..])
  }

  function RemoveAllColons(parts: seq<string>): seq<string> {
    if parts == [] then [] else [RemoveColons(parts[0])] + RemoveAllColons(parts[1..])
  }

  /** `IamNamingAspect._get_resource_id(path)`: split at "/", drop colons, join with "-". */
  function ResourceId(path: string): string {
    Join(RemoveAllColons(Split(path, '/')), "-")
  }

  /** What one character becomes: ':' is deleted, '/' turns into '-', everything else is kept. */
  function TranslateChar(c: char): string {
    if c == ':' then [] else if c == '/' then ['-'] else [c]
  }

  /** `TranslateChar` applied character by character. */
  function Translate(s: string): (r: string)
    ensures ':' !in r && '/' !in r
  {
    if s == [] then [] else TranslateChar(s[0]) + Translate(s[1..])
  }

  lemma {:induction false} TranslateConcat(a: string, b: string)
    ensures Translate(a + b) == Translate(a) + Translate(b)
  {
    if a == [] {
      assert a + b == b;
    } else {
      assert (a + b)[0] == a[0] && (a + b)[1..] == a[1..] + b;
      TranslateConcat(a[1..], b);
    }
  }

  lemma {:induction false} TranslateWithoutSlash(s: string)
    requires '/' !in s
    ensures Translate(s) == RemoveColons(s)
  {
    if s != [] {
      TranslateWithoutSlash(s[1..]);
    }
  }

  /**
   * The resource id is the path with every ':' deleted and every '/' replaced by '-',
   * so it holds neither character.
   */
  lemma {:induction false} ResourceIdTranslates(path: string)
    ensures ResourceId(path) == Translate(path)
    ensures ':' !in ResourceId(path) && '/' !in ResourceId(path)
    decreases |path|
  {
    if '/' !in path {
      ResourceIdWithoutSlash(path);
      TranslateWithoutSlash(path);
    } else {
      var i := IndexOf(path, '/');
      var head, rest := path[..i], path[i + 1..];
      ResourceIdStep(path, i);
      ResourceIdTranslates(rest);
      TranslateWithoutSlash(head);
      assert path == head + (['/'] + rest);
      TranslateSplit(head, rest);
    }
  }

  /** A path without slashes is one part. */
  lemma ResourceIdWithoutSlash(path: string)
    requires '/' !in path
    ensures ResourceId(path) == RemoveColons(path)
  {
    assert Split(path, '/') == [path];
    assert RemoveAllColons([path]) == [RemoveColons(path)] + RemoveAllColons([]);
  }

  /** Splitting off the part before the first slash. */
  lemma ResourceIdStep(path: string, i: nat)
    requires '/' in path && i == IndexOf(path, '/')
    ensures ResourceId(path) == RemoveColons(path[..i]) + (['-'] + ResourceId(path[i + 1..]))
  {
    var head, rest := path[..i], path[i + 1..];
    var parts := Split(rest, '/');
    assert Split(path, '/') == [head] + parts;
    var cleaned := RemoveAllColons(parts);
    assert RemoveAllColons([head] + parts) == [RemoveColons(head)] + cleaned;
    assert |cleaned| >= 1 by { assert |parts| >= 1; }
    JoinCons(RemoveColons(head), cleaned, "-");
  }

  lemma TranslateSplit(head: string, rest: string)
    ensures Translate(head + (['/'] + rest)) == Translate(head) + (['-'] + Translate(rest))
  {
    var tail := ['/'] + rest;
    TranslateConcat(head, tail);
    assert tail[0] == '/' && tail[1..] == rest;
  }

  lemma JoinCons(first: string, rest: seq<string>, sep: string)
    requires rest != []
    ensures Join([first] + rest, sep) == first + sep + Join(rest, sep)
  {
    assert ([first] + rest)[1..] == rest;
  }

  /** Which of the source's substring tests each listed type passes. */
  lemma TypeTests()
    ensures Contains(RoleType, "IAM::Role") && !Contains(RoleType, "IAM::Policy")
      && !Contains(RoleType, "IAM::ManagedPolicy") && !Contains(RoleType, "IAM::InstanceProfile")
    ensures !Contains(PolicyType, "IAM::Role") && Contains(PolicyType, "IAM::Policy")
    ensures !Contains(ManagedPolicyType, "IAM::Role") && !Contains(ManagedPolicyType, "IAM::Policy")
      && Contains(ManagedPolicyType, "IAM::ManagedPolicy")
    ensures !Contains(InstanceProfileType, "IAM::Role") && !Contains(InstanceProfileType, "IAM::Policy")
      && !Contains(InstanceProfileType, "IAM::ManagedPolicy") && Contains(InstanceProfileType, "IAM::InstanceProfile")
  {
    RoleTypeTests();
    PolicyTypeTests();
    ManagedPolicyTypeTests();
    InstanceProfileTypeTests();
  }

  lemma RoleTypeTests()
    ensures Contains(RoleType, "IAM::Role") && !Contains(RoleType, "IAM::Policy")
      && !Contains(RoleType, "IAM::ManagedPolicy") && !Contains(RoleType, "IAM::InstanceProfile")
  {
    assert Contains(RoleType, "IAM::Role") by {
      assert RoleType == "AWS::" + "IAM::Role";
      EndsWithSub("AWS::", "IAM::Role");
    }
    assert !Contains(RoleType, "IAM::Policy") by { MissingChar(RoleType, "IAM::Policy", 5); }
    assert !Contains(RoleType, "IAM::ManagedPolicy") by { MissingChar(RoleType, "IAM::ManagedPolicy", 6); }
    assert !Contains(RoleType, "IAM::InstanceProfile") by { MissingChar(RoleType, "IAM::InstanceProfile", 6); }
  }

  lemma PolicyTypeTests()
    ensures !Contains(PolicyType, "IAM::Role") && Contains(PolicyType, "IAM::Policy")
  {
    assert PolicyType == "AWS::" + "IAM::Policy";
    EndsWithSub("AWS::", "IAM::Policy");
    MissingChar(PolicyType, "IAM::Role", 5);
  }

  lemma ManagedPolicyTypeTests()
    ensures !Contains(ManagedPolicyType, "IAM::Role") && !Contains(ManagedPolicyType, "IAM::Policy")
      && Contains(ManagedPolicyType, "IAM::ManagedPolicy")
  {
    ManagedPolicyTypeNamesItself();
    ManagedPolicyLacksRole();
    ManagedPolicyLacksPolicy();
  }

  lemma ManagedPolicyTypeNamesItself()
    ensures Contains(ManagedPolicyType, "IAM::ManagedPolicy")
  {
    assert ManagedPolicyType == "AWS::" + "IAM::ManagedPolicy";
    EndsWithSub("AWS::", "IAM::ManagedPolicy");
  }

  lemma ManagedPolicyLacksRole()
    ensures !Contains(ManagedPolicyType, "IAM::Role")
  {
    MissingChar(ManagedPolicyType, "IAM::Role", 5);
  }

  /** The only 'P' of the managed-policy type is at 17, and no ':' precedes it. */
  lemma ManagedPolicyLacksPolicy()
    ensures !Contains(ManagedPolicyType, "IAM::Policy")
  {
    var s, sub := ManagedPolicyType, "IAM::Policy";
    assert 'P' !in s[..17] && 'P' !in s[18..] && s[16] == 'd';
    forall j | 0 <= j < |s| ensures s[j] == 'P' ==> j == 17 {
      if j < 17 {
        assert s[..17][j] == s[j];
      } else if j > 17 {
        assert s[18..][j - 18] == s[j];
      }
    }
    forall i | 0 <= i <= |s| - |sub| ensures !OccursAt(s, sub, i) {
      OccursAtChar(s, sub, i, 4);
      OccursAtChar(s, sub, i, 5);
      assert sub[4] == ':' && sub[5] == 'P';
      assert s[i + 5] == 'P' ==> i == 12;
    }
  }

  lemma InstanceProfileTypeNamesItself()
    ensures Contains(InstanceProfileType, "IAM::InstanceProfile")
  {
    assert InstanceProfileType == "AWS::" + "IAM::InstanceProfile";
    EndsWithSub("AWS::", "IAM::InstanceProfile");
  }

  lemma OccursAtChar(s: string, sub: string, i: int, k: nat)
    requires 0 <= i <= |s| - |sub| && k < |sub|
    ensures OccursAt(s, sub, i) ==> s[i + k] == sub[k]
  {
    assert s[i..i + |sub|][k] == s[i + k];
  }

  lemma InstanceProfileTypeTests()
    ensures !Contains(InstanceProfileType, "IAM::Role") && !Contains(InstanceProfileType, "IAM::Policy")
      && !Contains(InstanceProfileType, "IAM::ManagedPolicy") && Contains(InstanceProfileType, "IAM::InstanceProfile")
  {
    InstanceProfileTypeNamesItself();
    assert !Contains(InstanceProfileType, "IAM::Role") by { MissingChar(InstanceProfileType, "IAM::Role", 5); }
    assert !Contains(InstanceProfileType, "IAM::Policy") by { MissingChar(InstanceProfileType, "IAM::Policy", 10); }
    assert !Contains(InstanceProfileType, "IAM::ManagedPolicy") by { MissingChar(InstanceProfileType, "IAM::ManagedPolicy", 9); }
  }

  /** The `Path` override Role and InstanceProfile get: none when the role path is empty. */
  function PathOverride(aspect: Aspect): (os: seq<Override>)
    ensures os != [] <==> aspect.rolePath != ""
    ensures forall o :: o in os ==> o == Override("Path", aspect.rolePath)
  {
    if aspect.rolePath != "" then [Override("Path", aspect.rolePath)] else []
  }

  /** The override a Policy or ManagedPolicy gets, or the AttributeError of a name that is not a string. */
  function PolicyOverride(aspect: Aspect, name: NameAttribute, property: string, id: string): (r: Result<seq<Override>, string>)
    ensures r.Err? <==> !name.Named?
    ensures r.Ok? ==> forall o :: o in r.value ==> o == Override(property, Take(aspect.policyPrefix + id, PolicyNameLimit))
    ensures r.Ok? ==> (r.value == [] <==> StartsWith(name.name, aspect.policyPrefix))
  {
    if !name.Named? then Err("AttributeError")
    else if StartsWith(name.name, aspect.policyPrefix) then Ok([])
    else Ok([Override(property, Take(aspect.policyPrefix + id, PolicyNameLimit))])
  }

  /**
   * The overrides one `visit(node)` adds, in call order, or the exception it raises
   * before adding any.
   */
  function Overrides(aspect: Aspect, c: Construct): (r: Result<seq<Override>, string>)
    ensures !(c.isCfnResource && c.resourceType in ResourceTypes) ==> r == Ok([])
    ensures r.Ok? ==> |r.value| <= 2
    ensures r.Err? ==> r.error == "AttributeError"
  {
    if !(c.isCfnResource && c.resourceType in ResourceTypes) then Ok([])
    else
      var t, id := c.resourceType, ResourceId(c.path);
      if (aspect.rolePath != "" || aspect.rolePrefix != "") && Contains(t, "IAM::Role") then
        // a role name attribute that raises falls back to the node address
        var roleName := if c.name.Raises? then Named(c.addr) else c.name;
        if aspect.rolePrefix == "" then Ok(PathOverride(aspect))
        else if roleName.Unset? then Err("AttributeError")
        else if StartsWith(roleName.name, aspect.rolePrefix) then Ok(PathOverride(aspect))
        else Ok([Override("RoleName", Take(aspect.rolePrefix + id, RoleNameLimit))] + PathOverride(aspect))
      else if Contains(t, "IAM::Policy") then PolicyOverride(aspect, c.name, "PolicyName", id)
      else if Contains(t, "IAM::ManagedPolicy") then PolicyOverride(aspect, c.name, "ManagedPolicyName", id)
      else if Contains(t, "IAM::InstanceProfile") then
        Ok([Override("InstanceProfileName", Take(aspect.instanceProfilePrefix + id, PolicyNameLimit))]
          + PathOverride(aspect))
      else Ok([])
  }

  /**
   * `IamNamingAspect.visit(node)`: adds the overrides one at a time, or stops with the
   * AttributeError `error` having added none.
   */
  method Visit(aspect: Aspect, node: Node) returns (error: Option<string>)
    modifies node
    ensures Overrides(aspect, node.construct).Ok? ==>
      error == None && node.overrides == old(node.overrides) + Overrides(aspect, node.construct).value
    ensures Overrides(aspect, node.construct).Err? ==>
      error == Some(Overrides(aspect, node.construct).error) && node.overrides == old(node.overrides)
  {
    var c := node.construct;
    if !(c.isCfnResource && c.resourceType in ResourceTypes) {
      return None;
    }
    var t := c.resourceType;
    var id := ResourceId(c.path);
    var pathOverride := "";
    if Contains(t, "IAM::Role") || Contains(t, "IAM::InstanceProfile") {
      pathOverride := aspect.rolePath;
    }
    if (aspect.rolePath != "" || aspect.rolePrefix != "") && Contains(t, "IAM::Role") {
      var roleName := c.name;
      if roleName.Raises? {
        roleName := Named(c.addr);
      }
      if aspect.rolePrefix != "" {
        if roleName.Unset? {
          return Some("AttributeError");
        }
        if !StartsWith(roleName.name, aspect.rolePrefix) {
          node.overrides := node.overrides + [Override("RoleName", Take(aspect.rolePrefix + id, RoleNameLimit))];
        }
      }
      if pathOverride != "" {
        node.overrides := node.overrides + [Override("Path", pathOverride)];
      }
    } else if Contains(t, "IAM::Policy") {
      if !c.name.Named? {
        return Some("AttributeError");
      }
      if !StartsWith(c.name.name, aspect.policyPrefix) {
        node.overrides := node.overrides + [Override("PolicyName", Take(aspect.policyPrefix + id, PolicyNameLimit))];
      }
    } else if Contains(t, "IAM::ManagedPolicy") {
      if !c.name.Named? {
        return Some("AttributeError");
      }
      if !StartsWith(c.name.name, aspect.policyPrefix) {
        node.overrides := node.overrides + [Override("ManagedPolicyName", Take(aspect.policyPrefix + id, PolicyNameLimit))];
      }
    } else if Contains(t, "IAM::InstanceProfile") {
      node.overrides := node.overrides + [Override("InstanceProfileName", Take(aspect.instanceProfilePrefix + id, PolicyNameLimit))];
      if pathOverride != "" {
        node.overrides := node.overrides + [Override("Path", pathOverride)];
      }
    }
    return None;
  }

  /** Only CloudFormation resources of the four IAM types are touched. */
  lemma OtherResourcesUntouched(aspect: Aspect, c: Construct)
    requires !c.isCfnResource || c.resourceType !in ResourceTypes
    ensures Overrides(aspect, c) == Ok([])
  {
  }

  /**
   * A role is renamed to the prefixed resource id, cut to 64 characters, exactly when
   * the role prefix is set and its current name (the node address when reading it
   * raises) does not start with it; an unset name with a prefix raises.
   */
  lemma RoleNaming(aspect: Aspect, c: Construct)
    requires c.isCfnResource && c.resourceType == RoleType
    ensures var current := if c.name.Raises? then Named(c.addr) else c.name;
      var renamed := Override("RoleName", Take(aspect.rolePrefix + ResourceId(c.path), RoleNameLimit));
      && (Overrides(aspect, c).Err? <==> aspect.rolePrefix != "" && current.Unset?)
      && (Overrides(aspect, c).Ok? ==>
        (renamed in Overrides(aspect, c).value <==> aspect.rolePrefix != "" && !StartsWith(current.name, aspect.rolePrefix))
        && forall o :: o in Overrides(aspect, c).value ==> o == renamed || o == Override("Path", aspect.rolePath))
  {
    TypeTests();
  }

  /**
   * A policy or managed policy is renamed to the prefixed resource id, cut to 128
   * characters, exactly when its name does not start with the policy prefix, so never
   * with an empty prefix; a name that is not a string raises.
   */
  lemma PolicyNaming(aspect: Aspect, c: Construct)
    requires c.isCfnResource && (c.resourceType == PolicyType || c.resourceType == ManagedPolicyType)
    ensures var property := if c.resourceType == PolicyType then "PolicyName" else "ManagedPolicyName";
      && (Overrides(aspect, c).Err? <==> !c.name.Named?)
      && (c.name.Named? && StartsWith(c.name.name, aspect.policyPrefix) ==> Overrides(aspect, c) == Ok([]))
      && (c.name.Named? && !StartsWith(c.name.name, aspect.policyPrefix) ==>
        Overrides(aspect, c) == Ok([Override(property, Take(aspect.policyPrefix + ResourceId(c.path), PolicyNameLimit))]))
    ensures aspect.policyPrefix == "" && c.name.Named? ==> Overrides(aspect, c) == Ok([])
  {
    TypeTests();
  }

  /** An instance profile is always renamed, whatever its current name. */
  lemma InstanceProfileNaming(aspect: Aspect, c: Construct)
    requires c.isCfnResource && c.resourceType == InstanceProfileType
    ensures Overrides(aspect, c).Ok?
    ensures var os := Overrides(aspect, c).value;
      os != [] && os[0] == Override("InstanceProfileName", Take(aspect.instanceProfilePrefix + ResourceId(c.path), PolicyNameLimit))
  {
    TypeTests();
  }

  /**
   * Roles and instance profiles get a `Path` override equal to the role path exactly
   * when the role path is not empty; policies never get one.
   */
  lemma PathSetting(aspect: Aspect, c: Construct)
    requires c.isCfnResource && c.resourceType in ResourceTypes
    requires Overrides(aspect, c).Ok?
    ensures var os := Overrides(aspect, c).value;
      var pathSet := exists o :: o in os && o.property == "Path";
      && (c.resourceType in [RoleType, InstanceProfileType] ==>
        (pathSet <==> aspect.rolePath != "") && (pathSet ==> os[|os| - 1] == Override("Path", aspect.rolePath)))
      && (c.resourceType in [PolicyType, ManagedPolicyType] ==> !pathSet)
  {
    TypeTests();
  }

  /** Every name the aspect sets fits its CloudFormation limit and is a cut of one of the configured prefixes followed by the resource id. */
  lemma NamesFit(aspect: Aspect, c: Construct)
    requires Overrides(aspect, c).Ok?
    ensures forall o :: o in Overrides(aspect, c).value && o.property != "Path" ==>
      |o.value| <= PolicyNameLimit
      && (o.value <= aspect.rolePrefix + ResourceId(c.path) || o.value <= aspect.policyPrefix + ResourceId(c.path)
        || o.value <= aspect.instanceProfilePrefix + ResourceId(c.path))
    ensures forall o :: o in Overrides(aspect, c).value && o.property == "RoleName" ==> |o.value| <= RoleNameLimit
  {
    var id := ResourceId(c.path);
    OverridesShape(aspect, c);
    forall o | o in Overrides(aspect, c).value && o.property != "Path"
      ensures |o.value| <= PolicyNameLimit
        && (o.value <= aspect.rolePrefix + id || o.value <= aspect.policyPrefix + id || o.value <= aspect.instanceProfilePrefix + id)
    {
      if o.property == "RoleName" {
        assert o.value == Take(aspect.rolePrefix + id, RoleNameLimit);
      } else if o.property == "InstanceProfileName" {
        assert o.value == Take(aspect.instanceProfilePrefix + id, PolicyNameLimit);
      } else {
        assert o.value == Take(aspect.policyPrefix + id, PolicyNameLimit);
      }
    }
  }

  /** Each override is a path or one of the four prefixed, truncated names. */
  lemma OverridesShape(aspect: Aspect, c: Construct)
    requires Overrides(aspect, c).Ok?
    ensures var id := ResourceId(c.path);
      forall o :: o in Overrides(aspect, c).value ==>
        || o == Override("Path", aspect.rolePath)
        || o == Override("RoleName", Take(aspect.rolePrefix + id, RoleNameLimit))
        || o == Override("PolicyName", Take(aspect.policyPrefix + id, PolicyNameLimit))
        || o == Override("ManagedPolicyName", Take(aspect.policyPrefix + id, PolicyNameLimit))
        || o == Override("InstanceProfileName", Take(aspect.instanceProfilePrefix + id, PolicyNameLimit))
  {
  }

  /**
   * The role path the stack hands to the aspect: the `IamRolePath` context value, "/"
   * when it is absent or empty, with a "/" appended when it does not end in one.
   */
  method NormaliseRolePath(context: Option<string>) returns (path: string)
    ensures path != [] && path[|path| - 1] == '/'
    ensures context.None? || context == Some("") ==> path == "/"
    ensures context.Some? && context.value != "" ==>
      path == context.value || path == context.value + "/"
    ensures context.Some? && context.value != "" && context.value[|context.value| - 1] == '/' ==> path == context.value
  {
    path := if context.Some? && context.value != "" then context.value else "/";
    if path[|path| - 1] != '/' {
      path := path + "/";
    }
  }

  /** Normalising a normalised path changes nothing. */
  method NormaliseTwice(context: Option<string>) returns (once: string, twice: string)
    ensures twice == once
  {
    once := NormaliseRolePath(context);
    twice := NormaliseRolePath(Some(once));
  }
}
