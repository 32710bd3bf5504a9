/**
  Computation of a configuration update from an original and an updated tree.
  The functions say what the read and write sets contain; the methods fill the sets in
  range loops, in whatever order the maps are iterated, as pkg/util/update.go does.
 */
module ConfigUpdate {
  import opened Outcomes
  import opened ConfigTree

  datatype ConfigUpdate = ConfigUpdate(readSet: ConfigGroup, writeSet: ConfigGroup)

  datatype ComputeError = NoOriginalGroup | NoUpdatedGroup | NoDifferences

  // ---- What the sets contain ----

  /** An entry kept only to list its name: its version and no content. */
  function Placeholder<B>(version: nat, empty: B): Entry<B> {
    Entry(version, "", empty)
  }

  /** Entries with the same content on both sides, as placeholders. */
  function Kept<B(==)>(original: map<string, Entry<B>>, updated: map<string, Entry<B>>,
                       empty: B): map<string, Entry<B>> {
    map k | k in original && k in updated && SameEntry(original[k], updated[k]) ::
      Placeholder(original[k].version, empty)
  }

  /** New entries at version 0 and altered entries at the next version, with their new content. */
  function Altered<B(==)>(original: map<string, Entry<B>>, updated: map<string, Entry<B>>): map<string, Entry<B>> {
    map k | k in updated && (k in original ==> !SameEntry(original[k], updated[k])) ::
      updated[k].(version := if k in original then original[k].version + 1 else 0)
  }

  function EntryReads<B(==)>(original: map<string, Entry<B>>, updated: map<string, Entry<B>>,
                             bumped: bool, empty: B): map<string, Entry<B>> {
    if bumped then Kept(original, updated, empty) else map[]
  }

  function EntryWrites<B(==)>(original: map<string, Entry<B>>, updated: map<string, Entry<B>>,
                              bumped: bool, empty: B): map<string, Entry<B>> {
    if bumped then Altered(original, updated) + Kept(original, updated, empty) else Altered(original, updated)
  }

  /** A whole subtree that did not exist before: all of its content, every version zero. */
  function Fresh(g: ConfigGroup): ConfigGroup {
    ConfigGroup(0, g.modPolicy,
                map k | k in g.policies :: g.policies[k].(version := 0),
                map k | k in g.values :: g.values[k].(version := 0),
                map k | k in g.groups :: Fresh(g.groups[k]))
  }

  function ReadOf(original: ConfigGroup, updated: ConfigGroup): ConfigGroup
    decreases updated, 1
  {
    var bumped := !SameShape(original, updated);
    ConfigGroup(original.version, "",
                EntryReads(original.policies, updated.policies, bumped, NoPolicy),
                EntryReads(original.values, updated.values, bumped, []),
                GroupReads(original, updated, bumped))
  }

  function GroupReads(original: ConfigGroup, updated: ConfigGroup, bumped: bool): map<string, ConfigGroup>
    decreases updated, 0
  {
    map k | k in original.groups && k in updated.groups
            && (bumped || !SameContent(original.groups[k], updated.groups[k])) ::
      ReadOf(original.groups[k], updated.groups[k])
  }

  function WriteOf(original: ConfigGroup, updated: ConfigGroup): ConfigGroup
    decreases updated, 1
  {
    var bumped := !SameShape(original, updated);
    ConfigGroup(if bumped then original.version + 1 else original.version,
                if bumped then updated.modPolicy else "",
                EntryWrites(original.policies, updated.policies, bumped, NoPolicy),
                EntryWrites(original.values, updated.values, bumped, []),
                GroupWrites(original, updated, bumped))
  }

  function GroupWrites(original: ConfigGroup, updated: ConfigGroup, bumped: bool): map<string, ConfigGroup>
    decreases updated, 0
  {
    map k | k in updated.groups
            && (k in original.groups ==> bumped || !SameContent(original.groups[k], updated.groups[k])) ::
      if k in original.groups then WriteOf(original.groups[k], updated.groups[k])
      else Fresh(updated.groups[k])
  }

  // ---- Facts about the sets ----

  /** Where nothing differs, both sets hold the bare group at the original version. */
  lemma SameContentSets(original: ConfigGroup, updated: ConfigGroup)
    requires SameContent(original, updated)
    ensures ReadOf(original, updated) == WriteOf(original, updated) == Bare(original.version)
  {
    assert ReadOf(original, updated).groups == map[];
    assert WriteOf(original, updated).groups == map[];
    assert WriteOf(original, updated).policies == map[];
    assert WriteOf(original, updated).values == map[];
  }

  /** The write set of a group compared with the empty group is its whole content at version zero. */
  lemma {:induction false} WriteFromEmpty(updated: ConfigGroup)
    ensures WriteOf(EMPTY_GROUP, updated).(version := 0, modPolicy := updated.modPolicy) == Fresh(updated)
  {
    hide SameContent;
    var w, f := WriteOf(EMPTY_GROUP, updated), Fresh(updated);
    assert w.groups == GroupWrites(EMPTY_GROUP, updated, !SameShape(EMPTY_GROUP, updated));
    assert w.policies == f.policies;
    assert w.values == f.values;
    assert w.groups == f.groups;
  }

  /** Nothing in the sets depends on a version of the updated tree. */
  lemma {:induction false} UpdatedVersionsIrrelevant(original: ConfigGroup, a: ConfigGroup, b: ConfigGroup)
    requires SameContent(a, b)
    ensures ReadOf(original, a) == ReadOf(original, b)
    ensures WriteOf(original, a) == WriteOf(original, b)
    decreases a
  {
    hide ReadOf, WriteOf, Fresh, SameContent, SameShape, SameEntries, GroupReads, GroupWrites, Altered, Kept;
    SameContentByParts(a, b);
    forall k | k in a.groups
      ensures Fresh(a.groups[k]) == Fresh(b.groups[k])
      ensures k in original.groups ==>
        && ReadOf(original.groups[k], a.groups[k]) == ReadOf(original.groups[k], b.groups[k])
        && WriteOf(original.groups[k], a.groups[k]) == WriteOf(original.groups[k], b.groups[k])
        && (SameContent(original.groups[k], a.groups[k]) <==> SameContent(original.groups[k], b.groups[k]))
    {
      FreshVersionsIrrelevant(a.groups[k], b.groups[k]);
      if k in original.groups {
        UpdatedVersionsIrrelevant(original.groups[k], a.groups[k], b.groups[k]);
        SameContentTransitive(a.groups[k], b.groups[k], original.groups[k]);
        SameContentSymmetric(a.groups[k], original.groups[k]);
        SameContentSymmetric(b.groups[k], original.groups[k]);
      }
    }
    SameContentShape(a, b);
    ShapeMeans(a, b);
    ShapeMeans(original, a);
    ShapeMeans(original, b);
    SetsByShape(original, a);
    SetsByShape(original, b);
    EntryVersionsIrrelevant(original.policies, a.policies, b.policies, NoPolicy);
    EntryVersionsIrrelevant(original.values, a.values, b.values, []);
    GroupMapsAgree(original, a, b, !SameShape(original, a));
  }

  lemma {:induction false} GroupMapsAgree(original: ConfigGroup, a: ConfigGroup, b: ConfigGroup, bumped: bool)
    requires a.groups.Keys == b.groups.Keys
    requires forall k | k in a.groups :: Fresh(a.groups[k]) == Fresh(b.groups[k])
    requires forall k | k in a.groups && k in original.groups ::
      && ReadOf(original.groups[k], a.groups[k]) == ReadOf(original.groups[k], b.groups[k])
      && WriteOf(original.groups[k], a.groups[k]) == WriteOf(original.groups[k], b.groups[k])
      && (SameContent(original.groups[k], a.groups[k]) <==> SameContent(original.groups[k], b.groups[k]))
    ensures GroupReads(original, a, bumped) == GroupReads(original, b, bumped)
    ensures GroupWrites(original, a, bumped) == GroupWrites(original, b, bumped)
  {
    hide ReadOf, WriteOf, SameContent, Fresh;
  }

  lemma EntryVersionsIrrelevant<B>(original: map<string, Entry<B>>, a: map<string, Entry<B>>, b: map<string, Entry<B>>,
                                   empty: B)
    requires SameEntries(a, b)
    ensures Kept(original, a, empty) == Kept(original, b, empty)
    ensures Altered(original, a) == Altered(original, b)
  {
  }

  lemma {:induction false} FreshVersionsIrrelevant(a: ConfigGroup, b: ConfigGroup)
    requires SameContent(a, b)
    ensures Fresh(a) == Fresh(b)
  {
    forall k | k in a.groups {
      FreshVersionsIrrelevant(a.groups[k], b.groups[k]);
    }
    assert Fresh(a).policies == Fresh(b).policies;
    assert Fresh(a).values == Fresh(b).values;
    assert Fresh(a).groups == Fresh(b).groups;
  }

  // ---- The loops ----

  /** The loop has filled m with the part of goal that lies outside the pending names. */
  ghost predicate Filled<E>(m: map<string, E>, goal: map<string, E>, pending: set<string>) {
    && (forall k :: k in m <==> k in goal && k !in pending)
    && (forall k | k in m :: m[k] == goal[k])
  }

  lemma FilledStart<E>(goal: map<string, E>, pending: set<string>)
    requires goal.Keys <= pending
    ensures Filled(map[], goal, pending)
  {
  }

  lemma FilledEnd<E>(m: map<string, E>, goal: map<string, E>)
    requires Filled(m, goal, {})
    ensures m == goal
  {
  }

  lemma FilledStep<E>(m: map<string, E>, goal: map<string, E>, pending: set<string>, name: string)
    requires Filled(m, goal, pending) && name in pending
    ensures Filled(if name in goal then m[name := goal[name]] else m, goal, pending - {name})
  {
  }

  /** One map of policies or of values. The map order is left open: any name may come next. */
  method ComputeEntriesMapUpdate<B(==)>(original: map<string, Entry<B>>, updated: map<string, Entry<B>>, empty: B)
    returns (readSet: map<string, Entry<B>>, writeSet: map<string, Entry<B>>, sameSet: map<string, Entry<B>>,
             updatedMembers: bool)
    ensures readSet == map[]
    ensures writeSet == Altered(original, updated)
    ensures sameSet == Kept(original, updated, empty)
    ensures updatedMembers <==> original.Keys != updated.Keys
  {
    hide Filled;
    readSet, writeSet, sameSet, updatedMembers := map[], map[], map[], false;
    ghost var altered, kept := Altered(original, updated), Kept(original, updated, empty);
    ghost var pending := original.Keys + updated.Keys;
    var todo := original.Keys;
    FilledStart(altered, pending);
    FilledStart(kept, todo);
    while todo != {}
      invariant todo <= original.Keys
      invariant pending == todo + (updated.Keys - original.Keys)
      invariant updatedMembers <==> !(original.Keys - todo <= updated.Keys)
      invariant Filled(sameSet, kept, todo)
      invariant Filled(writeSet, altered, pending)
      decreases todo
    {
      var name :| name in todo;
      FilledStep(sameSet, kept, todo, name);
      FilledStep(writeSet, altered, pending, name);
      todo, pending := todo - {name}, pending - {name};
      if name !in updated {
        updatedMembers := true;
      } else if SameEntry(original[name], updated[name]) {
        sameSet := sameSet[name := Placeholder(original[name].version, empty)];
      } else {
        writeSet := writeSet[name := Entry(original[name].version + 1, updated[name].modPolicy, updated[name].body)];
      }
    }
    FilledEnd(sameSet, kept);
    todo := updated.Keys;
    while todo != {}
      invariant todo <= updated.Keys
      invariant pending == todo - original.Keys
      invariant updatedMembers <==> !(original.Keys <= updated.Keys) || !(updated.Keys - todo <= original.Keys)
      invariant Filled(writeSet, altered, pending)
      decreases todo
    {
      var name :| name in todo;
      todo := todo - {name};
      if name !in original {
        FilledStep(writeSet, altered, pending, name);
        pending := pending - {name};
        updatedMembers := true;
        writeSet := writeSet[name := Entry(0, updated[name].modPolicy, updated[name].body)];
      }
    }
    assert pending == {};
    FilledEnd(writeSet, altered);
  }

  ghost function GroupsKept(original: ConfigGroup, updated: ConfigGroup): map<string, ConfigGroup> {
    map k | k in original.groups && k in updated.groups && SameContent(original.groups[k], updated.groups[k]) ::
      Bare(original.groups[k].version)
  }

  lemma GroupsKeptAt(original: ConfigGroup, updated: ConfigGroup, k: string)
    ensures var o, u, kept := original.groups, updated.groups, GroupsKept(original, updated);
            && (k in kept <==> k in o && k in u && SameContent(o[k], u[k]))
            && (k in kept ==> kept[k] == Bare(o[k].version))
  {
    hide SameContent;
  }

  lemma GroupSetNames(original: ConfigGroup, updated: ConfigGroup)
    ensures GroupReads(original, updated, false).Keys <= original.groups.Keys
    ensures GroupWrites(original, updated, false).Keys <= original.groups.Keys + updated.groups.Keys
    ensures GroupsKept(original, updated).Keys <= original.groups.Keys
  {
    hide SameContent, ReadOf, WriteOf, Fresh;
  }

  method ComputeGroupsMapUpdate(original: map<string, ConfigGroup>, updated: map<string, ConfigGroup>,
                                ghost was: ConfigGroup, ghost wanted: ConfigGroup)
    returns (readSet: map<string, ConfigGroup>, writeSet: map<string, ConfigGroup>, sameSet: map<string, ConfigGroup>,
             updatedMembers: bool)
    requires original == was.groups && updated == wanted.groups
    ensures readSet == GroupReads(was, wanted, false)
    ensures writeSet == GroupWrites(was, wanted, false)
    ensures sameSet == GroupsKept(was, wanted)
    ensures updatedMembers <==> original.Keys != updated.Keys
    decreases wanted, 0
  {
    hide Filled, ReadOf, WriteOf, SameContent, Fresh, GroupReads, GroupWrites, GroupsKept;
    readSet, writeSet, sameSet, updatedMembers := map[], map[], map[], false;
    ghost var readGoal, writeGoal := GroupReads(was, wanted, false), GroupWrites(was, wanted, false);
    ghost var kept, pending := GroupsKept(was, wanted), original.Keys + updated.Keys;
    var todo := original.Keys;
    GroupSetNames(was, wanted);
    FilledStart(readGoal, todo);
    FilledStart(writeGoal, pending);
    FilledStart(kept, todo);
    while todo != {}
      invariant todo <= original.Keys
      invariant pending == todo + (updated.Keys - original.Keys)
      invariant updatedMembers <==> !(original.Keys - todo <= updated.Keys)
      invariant Filled(readSet, readGoal, todo)
      invariant Filled(writeSet, writeGoal, pending)
      invariant Filled(sameSet, kept, todo)
      decreases todo
    {
      var name :| name in todo;
      GroupSetsAt(was, wanted, false, name);
      GroupsKeptAt(was, wanted, name);
      FilledStep(readSet, readGoal, todo, name);
      FilledStep(writeSet, writeGoal, pending, name);
      FilledStep(sameSet, kept, todo, name);
      todo, pending := todo - {name}, pending - {name};
      if name !in updated {
        updatedMembers := true;
      } else {
        var groupReadSet, groupWriteSet, groupUpdated := ComputeGroupUpdate(original[name], updated[name]);
        if !groupUpdated {
          SameContentSets(original[name], updated[name]);
          sameSet := sameSet[name := groupReadSet];
        } else {
          readSet := readSet[name := groupReadSet];
          writeSet := writeSet[name := groupWriteSet];
        }
      }
    }
    FilledEnd(readSet, readGoal);
    FilledEnd(sameSet, kept);
    todo := updated.Keys;
    while todo != {}
      invariant todo <= updated.Keys
      invariant pending == todo - original.Keys
      invariant updatedMembers <==> !(original.Keys <= updated.Keys) || !(updated.Keys - todo <= original.Keys)
      invariant Filled(writeSet, writeGoal, pending)
      decreases todo
    {
      var name :| name in todo;
      todo := todo - {name};
      if name !in original {
        GroupSetsAt(was, wanted, false, name);
        FilledStep(writeSet, writeGoal, pending, name);
        pending := pending - {name};
        updatedMembers := true;
        var _, groupWriteSet, _ := ComputeGroupUpdate(EMPTY_GROUP, updated[name]);
        WriteFromEmpty(updated[name]);
        writeSet := writeSet[name := ConfigGroup(0, updated[name].modPolicy, groupWriteSet.policies,
                                                 groupWriteSet.values, groupWriteSet.groups)];
      }
    }
    assert pending == {};
    FilledEnd(writeSet, writeGoal);
  }

  /** The three loops that add the unchanged members of a regrouped group to both of its sets. */
  method Retain<E>(same: map<string, E>, readIn: map<string, E>, writeIn: map<string, E>)
    returns (readSet: map<string, E>, writeSet: map<string, E>)
    ensures readSet == readIn + same
    ensures writeSet == writeIn + same
  {
    readSet, writeSet := readIn, writeIn;
    var todo := same.Keys;
    while todo != {}
      invariant todo <= same.Keys
      invariant readSet.Keys == readIn.Keys + (same.Keys - todo)
      invariant forall k | k in readSet :: readSet[k] == if k in same && k !in todo then same[k] else readIn[k]
      invariant writeSet.Keys == writeIn.Keys + (same.Keys - todo)
      invariant forall k | k in writeSet :: writeSet[k] == if k in same && k !in todo then same[k] else writeIn[k]
      decreases todo
    {
      var name :| name in todo;
      todo := todo - {name};
      readSet := readSet[name := same[name]];
      writeSet := writeSet[name := same[name]];
    }
  }

  method ComputeGroupUpdate(original: ConfigGroup, updated: ConfigGroup)
    returns (readSet: ConfigGroup, writeSet: ConfigGroup, changed: bool)
    ensures changed <==> !SameContent(original, updated)
    ensures readSet == ReadOf(original, updated)
    ensures writeSet == WriteOf(original, updated)
    decreases updated, 1
  {
    hide *;
    SetsByShape(original, updated);
    ShapeMeans(original, updated);
    var readPolicies, writePolicies, samePolicies, policiesMoved :=
      ComputeEntriesMapUpdate(original.policies, updated.policies, NoPolicy);
    var readValues, writeValues, sameValues, valuesMoved :=
      ComputeEntriesMapUpdate(original.values, updated.values, []);
    var readGroups, writeGroups, sameGroups, groupsMoved :=
      ComputeGroupsMapUpdate(original.groups, updated.groups, original, updated);

    UnchangedIffNothingWritten(original, updated);
    if !(policiesMoved || valuesMoved || groupsMoved || original.modPolicy != updated.modPolicy) {
      if |readPolicies| == 0 && |writePolicies| == 0 && |readValues| == 0 && |writeValues| == 0
        && |readGroups| == 0 && |writeGroups| == 0
      {
        return Bare(original.version), Bare(original.version), false;
      }
      return ConfigGroup(original.version, "", readPolicies, readValues, readGroups),
             ConfigGroup(original.version, "", writePolicies, writeValues, writeGroups), true;
    }

    readPolicies, writePolicies := Retain(samePolicies, readPolicies, writePolicies);
    readValues, writeValues := Retain(sameValues, readValues, writeValues);
    readGroups, writeGroups := Retain(sameGroups, readGroups, writeGroups);
    EmptyPlus(samePolicies);
    EmptyPlus(sameValues);
    RetainedGroups(original, updated);
    return ConfigGroup(original.version, "", readPolicies, readValues, readGroups),
           ConfigGroup(original.version + 1, updated.modPolicy, writePolicies, writeValues, writeGroups), true;
  }

  /** The two forms of the sets: members only where they were written, or every member kept as well. */
  lemma SetsByShape(original: ConfigGroup, updated: ConfigGroup)
    ensures SameShape(original, updated) ==>
            && ReadOf(original, updated)
            == ConfigGroup(original.version, "", map[], map[], GroupReads(original, updated, false))
            && WriteOf(original, updated)
            == ConfigGroup(original.version, "", Altered(original.policies, updated.policies),
                           Altered(original.values, updated.values), GroupWrites(original, updated, false))
    ensures !SameShape(original, updated) ==>
            && ReadOf(original, updated)
            == ConfigGroup(original.version, "", Kept(original.policies, updated.policies, NoPolicy),
                           Kept(original.values, updated.values, []), GroupReads(original, updated, true))
            && WriteOf(original, updated)
            == ConfigGroup(original.version + 1, updated.modPolicy,
                           Altered(original.policies, updated.policies)
                           + Kept(original.policies, updated.policies, NoPolicy),
                           Altered(original.values, updated.values) + Kept(original.values, updated.values, []),
                           GroupWrites(original, updated, true))
    ensures Bare(original.version) == ConfigGroup(original.version, "", map[], map[], map[])
  {
    hide SameContent, GroupReads, GroupWrites, Altered, Kept;
  }

  lemma GroupSetsAt(original: ConfigGroup, updated: ConfigGroup, bumped: bool, k: string)
    ensures var o, u := original.groups, updated.groups;
            var r, w := GroupReads(original, updated, bumped), GroupWrites(original, updated, bumped);
            && (k in r <==> k in o && k in u && (bumped || !SameContent(o[k], u[k])))
            && (k in r ==> r[k] == ReadOf(o[k], u[k]))
            && (k in w <==> k in u && (k in o ==> bumped || !SameContent(o[k], u[k])))
            && (k in w ==> w[k] == if k in o then WriteOf(o[k], u[k]) else Fresh(u[k]))
  {
    hide SameContent, ReadOf, WriteOf, Fresh;
  }

  lemma EmptyPlus<E>(m: map<string, E>)
    ensures map[] + m == m
  {
  }

  /** The content is the same exactly when the shape is and no member was written. */
  lemma UnchangedIffNothingWritten(original: ConfigGroup, updated: ConfigGroup)
    ensures SameContent(original, updated) <==>
            && SameShape(original, updated)
            && Altered(original.policies, updated.policies) == map[]
            && Altered(original.values, updated.values) == map[]
            && GroupWrites(original, updated, false) == map[]
            && GroupReads(original, updated, false) == map[]
  {
    hide ReadOf, WriteOf, Fresh;
    if SameShape(original, updated) {
      NothingAltered(original.policies, updated.policies);
      NothingAltered(original.values, updated.values);
      var writes := GroupWrites(original, updated, false);
      if writes == map[] {
        forall k | k in original.groups ensures SameContent(original.groups[k], updated.groups[k]) {
          assert k !in writes;
        }
      }
    }
  }

  lemma NothingAltered<B>(original: map<string, Entry<B>>, updated: map<string, Entry<B>>)
    requires original.Keys == updated.Keys
    ensures SameEntries(original, updated) <==> Altered(original, updated) == map[]
  {
    var altered := Altered(original, updated);
    if altered == map[] {
      forall k | k in original ensures SameEntry(original[k], updated[k]) {
        assert k !in altered;
      }
    }
  }

  lemma {:induction false} RetainedGroups(original: ConfigGroup, updated: ConfigGroup)
    ensures GroupReads(original, updated, true)
         == GroupReads(original, updated, false) + GroupsKept(original, updated)
    ensures GroupWrites(original, updated, true)
         == GroupWrites(original, updated, false) + GroupsKept(original, updated)
  {
    hide SameContent, ReadOf, WriteOf;
    forall k | k in GroupsKept(original, updated) {
      SameContentSets(original.groups[k], updated.groups[k]);
    }
  }

  /** The entry point: errors for a missing channel group, and for two trees of the same content. */
  method Compute(original: Config, updated: Config) returns (r: Result<ConfigUpdate, ComputeError>)
    ensures original.channelGroup.None? ==> r == Err(NoOriginalGroup)
    ensures original.channelGroup.Some? && updated.channelGroup.None? ==> r == Err(NoUpdatedGroup)
    ensures original.channelGroup.Some? && updated.channelGroup.Some? ==>
      var o, u := original.channelGroup.value, updated.channelGroup.value;
      r == if SameContent(o, u) then Err(NoDifferences) else Ok(ConfigUpdate(ReadOf(o, u), WriteOf(o, u)))
  {
    if original.channelGroup == None {
      return Err(NoOriginalGroup);
    }
    if updated.channelGroup == None {
      return Err(NoUpdatedGroup);
    }
    var readSet, writeSet, changed := ComputeGroupUpdate(original.channelGroup.value, updated.channelGroup.value);
    if !changed {
      return Err(NoDifferences);
    }
    return Ok(ConfigUpdate(readSet, writeSet));
  }
}
