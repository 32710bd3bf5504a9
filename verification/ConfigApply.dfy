/**
  What a read set and a write set mean to the channel that receives them.
  An entry listed with one version in both sets stands for the current content; anything else in
  the write set is a delta that carries content. A delta on a group fixes its member names.
 */
module ConfigApply {
  import opened Outcomes
  import opened ConfigTree
  import opened ConfigUpdate

  /** The write set changes entry k, rather than just naming it. */
  predicate IsDelta<B>(r: map<string, Entry<B>>, w: map<string, Entry<B>>, k: string) {
    k in w && (k !in r || r[k].version != w[k].version)
  }

  predicate IsGroupDelta(r: Option<ConfigGroup>, w: ConfigGroup) {
    r.None? || r.value.version != w.version
  }

  // ---- Applying ----

  function ApplyEntries<B>(cur: map<string, Entry<B>>, r: map<string, Entry<B>>, w: map<string, Entry<B>>,
                           bumped: bool): map<string, Entry<B>> {
    map k | k in (if bumped then w.Keys else cur.Keys) ::
      if IsDelta(r, w, k) || k !in cur then w[k] else cur[k]
  }

  function Apply(cur: ConfigGroup, r: ConfigGroup, w: ConfigGroup): ConfigGroup
    decreases w, 1
  {
    var bumped := IsGroupDelta(Some(r), w);
    ConfigGroup(if bumped then w.version else cur.version,
                if bumped then w.modPolicy else cur.modPolicy,
                ApplyEntries(cur.policies, r.policies, w.policies, bumped),
                ApplyEntries(cur.values, r.values, w.values, bumped),
                ApplyGroups(cur, r, w, bumped))
  }

  function ApplyGroups(cur: ConfigGroup, r: ConfigGroup, w: ConfigGroup, bumped: bool): map<string, ConfigGroup>
    decreases w, 0
  {
    map k | k in (if bumped then w.groups.Keys else cur.groups.Keys) ::
      if k !in w.groups then cur.groups[k]
      else if k in r.groups && k in cur.groups then Apply(cur.groups[k], r.groups[k], w.groups[k])
      else w.groups[k]
  }

  // ---- Accepting ----

  predicate EntriesMatch<B>(cur: map<string, Entry<B>>, r: map<string, Entry<B>>) {
    forall k | k in r :: k in cur && cur[k].version == r[k].version
  }

  /** Every element of the read set is present at the version that was read. */
  predicate ReadsMatch(cur: ConfigGroup, r: ConfigGroup) {
    && cur.version == r.version
    && EntriesMatch(cur.policies, r.policies)
    && EntriesMatch(cur.values, r.values)
    && forall k | k in r.groups :: k in cur.groups && ReadsMatch(cur.groups[k], r.groups[k])
  }

  predicate EntriesFit<B>(cur: map<string, Entry<B>>, r: map<string, Entry<B>>, w: map<string, Entry<B>>) {
    forall k | k in w && IsDelta(r, w, k) :: w[k].version == if k in cur then cur[k].version + 1 else 0
  }

  function OrEmpty(g: Option<ConfigGroup>): ConfigGroup {
    if g.Some? then g.value else EMPTY_GROUP
  }

  function Child(g: Option<ConfigGroup>, name: string): Option<ConfigGroup> {
    if g.Some? && name in g.value.groups then Some(g.value.groups[name]) else None
  }

  /** Every delta is exactly one version ahead of what it replaces, or new and at version zero. */
  predicate DeltasFit(cur: Option<ConfigGroup>, r: Option<ConfigGroup>, w: ConfigGroup)
    decreases w
  {
    && (IsGroupDelta(r, w) ==> w.version == if cur.Some? then cur.value.version + 1 else 0)
    && EntriesFit(OrEmpty(cur).policies, OrEmpty(r).policies, w.policies)
    && EntriesFit(OrEmpty(cur).values, OrEmpty(r).values, w.values)
    && forall k | k in w.groups :: DeltasFit(Child(cur, k), Child(r, k), w.groups[k])
  }

  predicate Accepts(cur: ConfigGroup, r: ConfigGroup, w: ConfigGroup) {
    ReadsMatch(cur, r) && DeltasFit(Some(cur), Some(r), w)
  }

  // ---- The tree an update leads to ----

  function StampEntries<B(==)>(original: map<string, Entry<B>>, updated: map<string, Entry<B>>): map<string, Entry<B>> {
    map k | k in updated ::
      if k !in original then updated[k].(version := 0)
      else if SameEntry(original[k], updated[k]) then original[k]
      else updated[k].(version := original[k].version + 1)
  }

  /** The content of updated; versions kept where nothing changed, one ahead where it did, zero where new. */
  function Stamp(original: ConfigGroup, updated: ConfigGroup): ConfigGroup
    decreases updated, 1
  {
    ConfigGroup(if SameShape(original, updated) then original.version else original.version + 1,
                updated.modPolicy,
                StampEntries(original.policies, updated.policies),
                StampEntries(original.values, updated.values),
                StampGroups(original, updated))
  }

  function StampGroups(original: ConfigGroup, updated: ConfigGroup): map<string, ConfigGroup>
    decreases updated, 0
  {
    map k | k in updated.groups ::
      if k in original.groups then Stamp(original.groups[k], updated.groups[k]) else Fresh(updated.groups[k])
  }

  // ---- One level of the recursive definitions ----

  lemma StampUnfold(original: ConfigGroup, updated: ConfigGroup)
    ensures Stamp(original, updated)
         == ConfigGroup(if SameShape(original, updated) then original.version else original.version + 1,
                        updated.modPolicy,
                        StampEntries(original.policies, updated.policies),
                        StampEntries(original.values, updated.values),
                        StampGroups(original, updated))
  {
    hide StampEntries, StampGroups, SameShape;
  }

  lemma ApplyUnfold(cur: ConfigGroup, r: ConfigGroup, w: ConfigGroup, bumped: bool)
    requires bumped <==> IsGroupDelta(Some(r), w)
    ensures Apply(cur, r, w)
         == ConfigGroup(if bumped then w.version else cur.version,
                        if bumped then w.modPolicy else cur.modPolicy,
                        ApplyEntries(cur.policies, r.policies, w.policies, bumped),
                        ApplyEntries(cur.values, r.values, w.values, bumped),
                        ApplyGroups(cur, r, w, bumped))
  {
    hide ApplyEntries, ApplyGroups;
  }

  lemma ApplyGroupsAt(cur: ConfigGroup, r: ConfigGroup, w: ConfigGroup, bumped: bool, k: string)
    ensures var x := ApplyGroups(cur, r, w, bumped);
            && (k in x <==> k in (if bumped then w.groups.Keys else cur.groups.Keys))
            && (k in x ==>
                  x[k] == (if k !in w.groups then cur.groups[k]
                           else if k in r.groups && k in cur.groups then Apply(cur.groups[k], r.groups[k], w.groups[k])
                           else w.groups[k]))
  {
    hide Apply;
  }

  lemma StampGroupsAt(original: ConfigGroup, updated: ConfigGroup, k: string)
    ensures var x := StampGroups(original, updated);
            && (k in x <==> k in updated.groups)
            && (k in x ==>
                  x[k] == (if k in original.groups then Stamp(original.groups[k], updated.groups[k])
                           else Fresh(updated.groups[k])))
  {
    hide Stamp, Fresh;
  }

  // ---- Round trip ----

  lemma {:induction false} FreshHasContent(g: ConfigGroup)
    ensures SameContent(Fresh(g), g)
  {
    forall k | k in g.groups ensures SameContent(Fresh(g.groups[k]), g.groups[k]) {
      FreshHasContent(g.groups[k]);
    }
  }

  lemma {:induction false} StampHasContent(original: ConfigGroup, updated: ConfigGroup)
    ensures SameContent(Stamp(original, updated), updated)
    decreases updated
  {
    var s := Stamp(original, updated);
    assert s.groups == StampGroups(original, updated);
    forall k | k in updated.groups ensures SameContent(s.groups[k], updated.groups[k]) {
      FreshHasContent(updated.groups[k]);
      if k in original.groups {
        StampHasContent(original.groups[k], updated.groups[k]);
      }
    }
  }

  /** An unchanged tree keeps its versions everywhere. */
  lemma {:induction false} StampOfSame(original: ConfigGroup, updated: ConfigGroup)
    requires SameContent(original, updated)
    ensures Stamp(original, updated) == original
    decreases updated
  {
    forall k | k in original.groups ensures Stamp(original.groups[k], updated.groups[k]) == original.groups[k] {
      StampOfSame(original.groups[k], updated.groups[k]);
    }
    StampEntriesOfSame(original.policies, updated.policies);
    StampEntriesOfSame(original.values, updated.values);
    assert StampGroups(original, updated) == original.groups;
  }

  lemma StampEntriesOfSame<B>(original: map<string, Entry<B>>, updated: map<string, Entry<B>>)
    requires SameEntries(original, updated)
    ensures StampEntries(original, updated) == original
  {
  }

  lemma EntriesRoundTrip<B>(original: map<string, Entry<B>>, updated: map<string, Entry<B>>, bumped: bool, empty: B)
    requires original.Keys != updated.Keys ==> bumped
    ensures var r, w := EntryReads(original, updated, bumped, empty), EntryWrites(original, updated, bumped, empty);
            && ApplyEntries(original, r, w, bumped) == StampEntries(original, updated)
            && EntriesMatch(original, r)
            && EntriesFit(original, r, w)
  {
  }

  /** Applying the computed sets gives the updated content, with exactly the expected versions. */
  lemma {:induction false} ApplyGivesStamp(original: ConfigGroup, updated: ConfigGroup)
    ensures Apply(original, ReadOf(original, updated), WriteOf(original, updated)) == Stamp(original, updated)
    decreases updated
  {
    hide Apply, Stamp, SameContent, Fresh, ReadOf, WriteOf;
    forall k | k in original.groups && k in updated.groups
      ensures ChildRoundTrip(original.groups[k], updated.groups[k])
    {
      ApplyGivesStamp(original.groups[k], updated.groups[k]);
      if SameContent(original.groups[k], updated.groups[k]) {
        StampOfSame(original.groups[k], updated.groups[k]);
      }
    }
    ShapeMeans(original, updated);
    SetsByShape(original, updated);
    var bumped := !SameShape(original, updated);
    GroupsRoundTrip(original, updated, ReadOf(original, updated), WriteOf(original, updated), bumped);
    ApplyByParts(original, updated);
  }

  ghost predicate ChildRoundTrip(original: ConfigGroup, updated: ConfigGroup) {
    && Apply(original, ReadOf(original, updated), WriteOf(original, updated)) == Stamp(original, updated)
    && (SameContent(original, updated) ==> Stamp(original, updated) == original)
  }

  lemma GroupsRoundTrip(original: ConfigGroup, updated: ConfigGroup, r: ConfigGroup, w: ConfigGroup, bumped: bool)
    requires r.groups == GroupReads(original, updated, bumped)
    requires w.groups == GroupWrites(original, updated, bumped)
    requires original.groups.Keys != updated.groups.Keys ==> bumped
    requires forall k | k in original.groups && k in updated.groups ::
      ChildRoundTrip(original.groups[k], updated.groups[k])
    ensures ApplyGroups(original, r, w, bumped) == StampGroups(original, updated)
  {
    hide ReadOf, WriteOf, Apply, Stamp, SameContent, Fresh;
  }

  lemma ApplyByParts(original: ConfigGroup, updated: ConfigGroup)
    requires ApplyGroups(original, ReadOf(original, updated), WriteOf(original, updated), !SameShape(original, updated))
          == StampGroups(original, updated)
    ensures Apply(original, ReadOf(original, updated), WriteOf(original, updated)) == Stamp(original, updated)
  {
    var bumped := !SameShape(original, updated);
    EntriesRoundTrip(original.policies, updated.policies, bumped, NoPolicy);
    EntriesRoundTrip(original.values, updated.values, bumped, []);
    hide SameContent, ApplyGroups, GroupReads, GroupWrites, StampGroups, ApplyEntries, StampEntries, Fresh,
         EntryReads, EntryWrites;
  }

  /** The computed sets decode to the updated tree: every policy, value, group and member name, at every depth. */
  lemma {:induction false} RoundTrip(original: ConfigGroup, updated: ConfigGroup)
    ensures SameContent(Apply(original, ReadOf(original, updated), WriteOf(original, updated)), updated)
  {
    ApplyGivesStamp(original, updated);
    StampHasContent(original, updated);
  }

  // ---- The computed sets are acceptable to the tree they were computed from ----

  lemma {:induction false} FreshFits(g: ConfigGroup)
    ensures DeltasFit(None, None, Fresh(g))
  {
    forall k | k in g.groups ensures DeltasFit(None, None, Fresh(g.groups[k])) {
      FreshFits(g.groups[k]);
    }
  }

  lemma {:induction false} OwnReadsMatch(original: ConfigGroup, updated: ConfigGroup)
    ensures ReadsMatch(original, ReadOf(original, updated))
    decreases updated
  {
    var bumped := !SameShape(original, updated);
    EntriesRoundTrip(original.policies, updated.policies, bumped, NoPolicy);
    EntriesRoundTrip(original.values, updated.values, bumped, []);
    forall k | k in GroupReads(original, updated, bumped)
      ensures ReadsMatch(original.groups[k], GroupReads(original, updated, bumped)[k])
    {
      OwnReadsMatch(original.groups[k], updated.groups[k]);
    }
  }

  lemma {:induction false} DeltasFitUnfold(cur: Option<ConfigGroup>, r: Option<ConfigGroup>, w: ConfigGroup)
    ensures DeltasFit(cur, r, w) <==>
            && (IsGroupDelta(r, w) ==> w.version == if cur.Some? then cur.value.version + 1 else 0)
            && EntriesFit(OrEmpty(cur).policies, OrEmpty(r).policies, w.policies)
            && EntriesFit(OrEmpty(cur).values, OrEmpty(r).values, w.values)
            && forall k | k in w.groups :: DeltasFit(Child(cur, k), Child(r, k), w.groups[k])
  {
    hide EntriesFit;
  }

  lemma {:induction false} OwnDeltasFit(original: ConfigGroup, updated: ConfigGroup)
    ensures DeltasFit(Some(original), Some(ReadOf(original, updated)), WriteOf(original, updated))
    decreases updated
  {
    hide ReadOf, WriteOf, SameContent, Fresh, GroupReads, GroupWrites, EntriesFit, Altered, Kept, SameShape, DeltasFit;
    var bumped := !SameShape(original, updated);
    var r, w := ReadOf(original, updated), WriteOf(original, updated);
    ShapeMeans(original, updated);
    SetsByShape(original, updated);
    EntriesRoundTrip(original.policies, updated.policies, bumped, NoPolicy);
    EntriesRoundTrip(original.values, updated.values, bumped, []);
    forall k | k in w.groups
      ensures DeltasFit(Child(Some(original), k), Child(Some(r), k), w.groups[k])
    {
      GroupSetsAt(original, updated, bumped, k);
      if k in original.groups {
        OwnDeltasFit(original.groups[k], updated.groups[k]);
      } else {
        FreshFits(updated.groups[k]);
      }
    }
    DeltasFitUnfold(Some(original), Some(r), w);
  }

  lemma AcceptsOwnUpdate(original: ConfigGroup, updated: ConfigGroup)
    ensures Accepts(original, ReadOf(original, updated), WriteOf(original, updated))
  {
    OwnReadsMatch(original, updated);
    OwnDeltasFit(original, updated);
  }
}
