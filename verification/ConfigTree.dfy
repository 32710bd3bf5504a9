/**
  The channel configuration tree: groups that hold policies, values and subgroups.
  Every element carries a version and the name of the policy that guards its modification.
 */
module ConfigTree {
  import opened Outcomes

  newtype byte = x: int | 0 <= x < 256
  type Bytes = seq<byte>

  /** The body of a policy message; an absent message differs from an empty one. */
  datatype PolicyBody = NoPolicy | PolicyBody(kind: int, rule: Bytes)

  /** A ConfigPolicy (B is PolicyBody) or a ConfigValue (B is Bytes). */
  datatype Entry<B> = Entry(version: nat, modPolicy: string, body: B)
  type ConfigPolicy = Entry<PolicyBody>
  type ConfigValue = Entry<Bytes>

  datatype ConfigGroup = ConfigGroup(
    version: nat,
    modPolicy: string,
    policies: map<string, ConfigPolicy>,
    values: map<string, ConfigValue>,
    groups: map<string, ConfigGroup>)

  datatype Config = Config(channelGroup: Option<ConfigGroup>)

  /** The empty group at version v: what a read or write set holds for an untouched group. */
  function Bare(v: nat): ConfigGroup {
    ConfigGroup(v, "", map[], map[], map[])
  }

  const EMPTY_GROUP: ConfigGroup := Bare(0)

  // ---- Equality of content, versions aside ----

  predicate SameEntry<B(==)>(a: Entry<B>, b: Entry<B>) {
    a.modPolicy == b.modPolicy && a.body == b.body
  }

  predicate SameEntries<B(==)>(a: map<string, Entry<B>>, b: map<string, Entry<B>>) {
    a.Keys == b.Keys && forall k | k in a :: SameEntry(a[k], b[k])
  }

  /** The group itself is unchanged: same modification policy and same member names. */
  predicate SameShape(a: ConfigGroup, b: ConfigGroup) {
    && a.modPolicy == b.modPolicy
    && a.policies.Keys == b.policies.Keys
    && a.values.Keys == b.values.Keys
    && a.groups.Keys == b.groups.Keys
  }

  lemma ShapeMeans(a: ConfigGroup, b: ConfigGroup)
    ensures SameShape(a, b) <==>
            && a.modPolicy == b.modPolicy
            && a.policies.Keys == b.policies.Keys
            && a.values.Keys == b.values.Keys
            && a.groups.Keys == b.groups.Keys
  {
  }

  /** The two trees agree on everything but versions, at every depth. */
  predicate SameContent(a: ConfigGroup, b: ConfigGroup) {
    && a.modPolicy == b.modPolicy
    && SameEntries(a.policies, b.policies)
    && SameEntries(a.values, b.values)
    && a.groups.Keys == b.groups.Keys
    && forall k | k in a.groups :: SameContent(a.groups[k], b.groups[k])
  }

  lemma {:induction false} SameContentByParts(x: ConfigGroup, y: ConfigGroup)
    ensures SameContent(x, y) <==>
            && x.modPolicy == y.modPolicy
            && SameEntries(x.policies, y.policies)
            && SameEntries(x.values, y.values)
            && (forall k :: k in x.groups <==> k in y.groups)
            && forall k | k in x.groups && k in y.groups :: SameContent(x.groups[k], y.groups[k])
  {
    hide SameEntries;
  }

  lemma SameContentShape(x: ConfigGroup, y: ConfigGroup)
    requires SameContent(x, y)
    ensures SameShape(x, y)
  {
  }

  lemma {:induction false} SameContentReflexive(a: ConfigGroup)
    ensures SameContent(a, a)
  {
    forall k | k in a.groups {
      SameContentReflexive(a.groups[k]);
    }
  }

  lemma {:induction false} SameContentSymmetric(a: ConfigGroup, b: ConfigGroup)
    ensures SameContent(a, b) <==> SameContent(b, a)
  {
    forall k | k in a.groups && k in b.groups {
      SameContentSymmetric(a.groups[k], b.groups[k]);
    }
  }

  lemma {:induction false} SameContentTransitive(a: ConfigGroup, b: ConfigGroup, c: ConfigGroup)
    requires SameContent(a, b)
    ensures SameContent(a, c) <==> SameContent(b, c)
  {
    if a.groups.Keys == c.groups.Keys {
      forall k | k in a.groups {
        SameContentTransitive(a.groups[k], b.groups[k], c.groups[k]);
      }
    }
  }

  // ---- Paths ----

  type Path = seq<string>

  /** The group reached from g by following subgroup names. */
  function GroupAt(g: ConfigGroup, path: Path): Option<ConfigGroup> {
    if path == [] then Some(g)
    else if path[0] in g.groups then GroupAt(g.groups[path[0]], path[1..])
    else None
  }

  lemma {:induction false} SameContentAt(a: ConfigGroup, b: ConfigGroup, path: Path)
    requires SameContent(a, b)
    ensures GroupAt(a, path).Some? <==> GroupAt(b, path).Some?
    ensures GroupAt(a, path).Some? ==> SameContent(GroupAt(a, path).value, GroupAt(b, path).value)
    decreases path
  {
    if path != [] && path[0] in a.groups {
      SameContentAt(a.groups[path[0]], b.groups[path[0]], path[1..]);
    }
  }

  /** At the path both trees have a group, with the same content but for versions and subgroups, or neither has. */
  ghost predicate SameAt(a: ConfigGroup, b: ConfigGroup, path: Path) {
    var x, y := GroupAt(a, path), GroupAt(b, path);
    && (x.Some? <==> y.Some?)
    && (x.Some? && y.Some? ==>
          && x.value.modPolicy == y.value.modPolicy
          && (forall k :: k in x.value.policies <==> k in y.value.policies)
          && (forall k | k in x.value.policies && k in y.value.policies ::
                && x.value.policies[k].modPolicy == y.value.policies[k].modPolicy
                && x.value.policies[k].body == y.value.policies[k].body)
          && (forall k :: k in x.value.values <==> k in y.value.values)
          && (forall k | k in x.value.values && k in y.value.values ::
                && x.value.values[k].modPolicy == y.value.values[k].modPolicy
                && x.value.values[k].body == y.value.values[k].body))
  }

  /** Two trees have the same content iff they agree at every path. */
  lemma {:induction false} SameContentMeans(a: ConfigGroup, b: ConfigGroup)
    ensures SameContent(a, b) <==> forall path :: SameAt(a, b, path)
  {
    if SameContent(a, b) {
      forall path ensures SameAt(a, b, path) {
        SameContentAt(a, b, path);
      }
    }
    if forall path :: SameAt(a, b, path) {
      assert SameAt(a, b, []);
      forall k ensures k in a.groups <==> k in b.groups {
        assert SameAt(a, b, [k]) && [k] + [] == [k];
        StepDown(a, k, []);
        StepDown(b, k, []);
      }
      forall k | k in a.groups ensures SameContent(a.groups[k], b.groups[k]) {
        forall path ensures SameAt(a.groups[k], b.groups[k], path) {
          assert SameAt(a, b, [k] + path);
          StepDown(a, k, path);
          StepDown(b, k, path);
        }
        SameContentMeans(a.groups[k], b.groups[k]);
      }
    }
  }

  lemma StepDown(g: ConfigGroup, k: string, path: Path)
    ensures GroupAt(g, [k] + path) == if k in g.groups then GroupAt(g.groups[k], path) else None
  {
    assert ([k] + path)[1..] == path;
  }
}
