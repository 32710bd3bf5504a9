/**
  Two updates computed from the same original. Ua leads to the content of a, Ub to the content of b.
  When is Ub still acceptable after Ua, what does the pair of them lead to, and whose changes survive?
 */
module ConfigMerge {
  import opened Outcomes
  import opened ConfigTree
  import opened ConfigUpdate
  import opened ConfigApply

  /** The tree after the update from o to a has been applied to o. */
  function After(o: ConfigGroup, a: ConfigGroup): ConfigGroup {
    Apply(o, ReadOf(o, a), WriteOf(o, a))
  }

  // ---- When the second update is accepted ----

  predicate EntriesUntouched<B(==)>(o: map<string, Entry<B>>, a: map<string, Entry<B>>, b: map<string, Entry<B>>,
                                    bumped: bool) {
    forall k | k in o && k in a && k in b && (bumped || !SameEntry(o[k], b[k])) :: SameEntry(o[k], a[k])
  }

  /**
    What b relies on is untouched by a: a keeps the shape of every group that b reads, and every
    entry that b alters, or keeps while it reshapes the group around it.
   */
  predicate CanFollow(o: ConfigGroup, a: ConfigGroup, b: ConfigGroup)
    decreases b
  {
    && SameShape(o, a)
    && EntriesUntouched(o.policies, a.policies, b.policies, !SameShape(o, b))
    && EntriesUntouched(o.values, a.values, b.values, !SameShape(o, b))
    && forall k | k in o.groups && k in a.groups && k in b.groups
       && (!SameShape(o, b) || !SameContent(o.groups[k], b.groups[k])) ::
      SameContent(o.groups[k], a.groups[k]) || CanFollow(o.groups[k], a.groups[k], b.groups[k])
  }

  lemma EntriesAcceptedIff<B>(o: map<string, Entry<B>>, a: map<string, Entry<B>>, b: map<string, Entry<B>>,
                              bumped: bool, empty: B)
    requires o.Keys == a.Keys
    requires o.Keys != b.Keys ==> bumped
    ensures EntriesMatch(StampEntries(o, a), EntryReads(o, b, bumped, empty))
            && EntriesFit(StampEntries(o, a), EntryReads(o, b, bumped, empty), EntryWrites(o, b, bumped, empty))
       <==> EntriesUntouched(o, a, b, bumped)
  {
    var s, r, w := StampEntries(o, a), EntryReads(o, b, bumped, empty), EntryWrites(o, b, bumped, empty);
    if EntriesMatch(s, r) && EntriesFit(s, r, w) {
      forall k | k in o && k in b && (bumped || !SameEntry(o[k], b[k])) ensures SameEntry(o[k], a[k]) {
        if SameEntry(o[k], b[k]) {
          assert k in r;
        } else {
          assert k in w && IsDelta(r, w, k);
        }
      }
    }
  }

  /** One child of an accepted update: read and written, or fresh. */
  ghost predicate ChildAccepted(s: ConfigGroup, r: ConfigGroup, w: ConfigGroup, k: string) {
    && (k in r.groups ==> k in s.groups && ReadsMatch(s.groups[k], r.groups[k]))
    && (k in w.groups ==> DeltasFit(Child(Some(s), k), Child(Some(r), k), w.groups[k]))
  }

  lemma AcceptsUnfold(s: ConfigGroup, r: ConfigGroup, w: ConfigGroup)
    requires r.groups.Keys <= w.groups.Keys
    ensures Accepts(s, r, w) <==>
            && s.version == r.version
            && (r.version != w.version ==> w.version == s.version + 1)
            && EntriesMatch(s.policies, r.policies) && EntriesFit(s.policies, r.policies, w.policies)
            && EntriesMatch(s.values, r.values) && EntriesFit(s.values, r.values, w.values)
            && forall k | k in w.groups :: ChildAccepted(s, r, w, k)
  {
    hide EntriesMatch, EntriesFit;
    if forall k | k in w.groups :: ChildAccepted(s, r, w, k) {
      forall k | k in r.groups ensures k in s.groups && ReadsMatch(s.groups[k], r.groups[k]) {
        assert ChildAccepted(s, r, w, k);
      }
    }
  }

  lemma {:induction false} AcceptsByParts(o: ConfigGroup, a: ConfigGroup, b: ConfigGroup)
    ensures var s, r, w, bumped := Stamp(o, a), ReadOf(o, b), WriteOf(o, b), !SameShape(o, b);
            Accepts(s, r, w) <==>
            && SameShape(o, a)
            && EntriesUntouched(o.policies, a.policies, b.policies, bumped)
            && EntriesUntouched(o.values, a.values, b.values, bumped)
            && forall k | k in GroupWrites(o, b, bumped) :: ChildAccepted(s, r, w, k)
  {
    hide Accepts, ChildAccepted, ReadOf, WriteOf, Stamp, SameContent, EntriesMatch, EntriesFit, StampEntries,
         EntriesUntouched, StampGroups, Fresh, GroupReads, GroupWrites, SameShape, Altered, Kept;
    var s, r, w, bumped := Stamp(o, a), ReadOf(o, b), WriteOf(o, b), !SameShape(o, b);
    ShapeMeans(o, a);
    ShapeMeans(o, b);
    SetsByShape(o, b);
    StampUnfold(o, a);
    GroupReadsWritten(o, b, bumped);
    AcceptsUnfold(s, r, w);
    if SameShape(o, a) {
      EntriesAcceptedIff(o.policies, a.policies, b.policies, bumped, NoPolicy);
      EntriesAcceptedIff(o.values, a.values, b.values, bumped, []);
    }
  }

  lemma GroupReadsWritten(o: ConfigGroup, b: ConfigGroup, bumped: bool)
    ensures GroupReads(o, b, bumped).Keys <= GroupWrites(o, b, bumped).Keys
  {
    hide SameContent, ReadOf, WriteOf, Fresh;
  }

  /** The second update is accepted after the first exactly when the first changed nothing, or nothing it relies on. */
  lemma {:induction false} AcceptedAfterStampIff(o: ConfigGroup, a: ConfigGroup, b: ConfigGroup)
    ensures Accepts(Stamp(o, a), ReadOf(o, b), WriteOf(o, b)) <==> SameContent(o, a) || CanFollow(o, a, b)
    decreases b
  {
    if SameContent(o, a) {
      StampOfSame(o, a);
      AcceptsOwnUpdate(o, b);
    } else {
      var s, r, w, bumped := Stamp(o, a), ReadOf(o, b), WriteOf(o, b), !SameShape(o, b);
      AcceptsByParts(o, a, b);
      if SameShape(o, a) {
        forall k | k in GroupWrites(o, b, bumped)
          ensures ChildAccepted(s, r, w, k) <==>
                  (k in o.groups ==>
                   SameContent(o.groups[k], a.groups[k]) || CanFollow(o.groups[k], a.groups[k], b.groups[k]))
        {
          ChildAcceptedIff(o, a, b, k);
          if k in o.groups {
            AcceptedAfterStampIff(o.groups[k], a.groups[k], b.groups[k]);
          }
        }
        CanFollowByChildren(o, a, b);
      }
    }
  }

  lemma {:induction false} ChildAcceptedIff(o: ConfigGroup, a: ConfigGroup, b: ConfigGroup, k: string)
    requires SameShape(o, a)
    requires k in GroupWrites(o, b, !SameShape(o, b))
    ensures ChildAccepted(Stamp(o, a), ReadOf(o, b), WriteOf(o, b), k) <==>
            (k in o.groups ==> Accepts(Stamp(o.groups[k], a.groups[k]), ReadOf(o.groups[k], b.groups[k]),
                                       WriteOf(o.groups[k], b.groups[k])))
  {
    hide Stamp, ReadOf, WriteOf, ReadsMatch, DeltasFit, SameContent, Fresh, SameShape, GroupReads, GroupWrites,
         StampGroups;
    var bumped := !SameShape(o, b);
    StampGroupsAt(o, a, k);
    GroupSetsAt(o, b, bumped, k);
    ShapeMeans(o, a);
    ShapeMeans(o, b);
    SetsByShape(o, b);
    StampUnfold(o, a);
    if k !in o.groups {
      FreshFits(b.groups[k]);
    }
  }

  lemma {:induction false} CanFollowByChildren(o: ConfigGroup, a: ConfigGroup, b: ConfigGroup)
    requires SameShape(o, a)
    ensures CanFollow(o, a, b) <==>
            && EntriesUntouched(o.policies, a.policies, b.policies, !SameShape(o, b))
            && EntriesUntouched(o.values, a.values, b.values, !SameShape(o, b))
            && forall k | k in GroupWrites(o, b, !SameShape(o, b)) && k in o.groups ::
              SameContent(o.groups[k], a.groups[k]) || CanFollow(o.groups[k], a.groups[k], b.groups[k])
  {
    hide SameContent, EntriesUntouched, WriteOf, Fresh;
  }

  lemma AcceptedAfterIff(o: ConfigGroup, a: ConfigGroup, b: ConfigGroup)
    ensures Accepts(After(o, a), ReadOf(o, b), WriteOf(o, b)) <==> SameContent(o, a) || CanFollow(o, a, b)
  {
    ApplyGivesStamp(o, a);
    AcceptedAfterStampIff(o, a, b);
  }

  // ---- What the two updates lead to: a three-way merge ----

  function MergeEntries<B(==)>(o: map<string, Entry<B>>, a: map<string, Entry<B>>, b: map<string, Entry<B>>,
                               bumped: bool): map<string, Entry<B>> {
    map k | k in (if bumped then b.Keys else a.Keys) ::
      if k in a && (k !in b || (k in o && SameEntry(o[k], b[k]))) then a[k] else b[k]
  }

  /** a's content, overridden wherever b differs from o; b's member names where b reshaped the group. */
  function Merge(o: ConfigGroup, a: ConfigGroup, b: ConfigGroup): ConfigGroup
    decreases b, 1
  {
    var bumped := !SameShape(o, b);
    ConfigGroup(0, if bumped then b.modPolicy else a.modPolicy,
                MergeEntries(o.policies, a.policies, b.policies, bumped),
                MergeEntries(o.values, a.values, b.values, bumped),
                MergeGroups(o, a, b, bumped))
  }

  function MergeGroups(o: ConfigGroup, a: ConfigGroup, b: ConfigGroup, bumped: bool): map<string, ConfigGroup>
    decreases b, 0
  {
    map k | k in (if bumped then b.groups.Keys else a.groups.Keys) ::
      if k !in b.groups then a.groups[k]
      else if k in a.groups && k in o.groups then Merge(o.groups[k], a.groups[k], b.groups[k])
      else b.groups[k]
  }

  // One level of the merge.

  /** The merge has the shape of o exactly when b has, given that a has. */
  lemma MergeShape(o: ConfigGroup, a: ConfigGroup, b: ConfigGroup)
    ensures SameShape(o, a) ==> (SameShape(o, Merge(o, a, b)) <==> SameShape(o, b))
    ensures Merge(o, a, b)
         == ConfigGroup(0, if SameShape(o, b) then a.modPolicy else b.modPolicy,
                        MergeEntries(o.policies, a.policies, b.policies, !SameShape(o, b)),
                        MergeEntries(o.values, a.values, b.values, !SameShape(o, b)),
                        MergeGroups(o, a, b, !SameShape(o, b)))
  {
    var m := Merge(o, a, b);
    if SameShape(o, a) {
      assert m.groups.Keys == MergeGroups(o, a, b, !SameShape(o, b)).Keys == b.groups.Keys;
      assert m.policies.Keys == b.policies.Keys && m.values.Keys == b.values.Keys;
    }
  }

  lemma MergeGroupsAt(o: ConfigGroup, a: ConfigGroup, b: ConfigGroup, bumped: bool, k: string)
    ensures var x := MergeGroups(o, a, b, bumped);
            && (k in x <==> k in (if bumped then b.groups.Keys else a.groups.Keys))
            && (k in x ==>
                  x[k] == (if k !in b.groups then a.groups[k]
                           else if k in a.groups && k in o.groups then Merge(o.groups[k], a.groups[k], b.groups[k])
                           else b.groups[k]))
  {
    hide Merge;
  }

  lemma MergeEntriesUnchanged<B>(o: map<string, Entry<B>>, a: map<string, Entry<B>>, b: map<string, Entry<B>>,
                                 bumped: bool)
    requires o.Keys != b.Keys ==> bumped
    ensures SameEntries(o, b) && !bumped ==> SameEntries(MergeEntries(o, a, b, bumped), a)
    ensures SameEntries(o, a) ==> SameEntries(MergeEntries(o, a, b, bumped), b)
  {
  }

  /** Where the second side changed nothing, the merge is the first side. */
  lemma {:induction false} MergeSecondUnchanged(o: ConfigGroup, a: ConfigGroup, b: ConfigGroup)
    requires SameContent(o, b)
    ensures SameContent(Merge(o, a, b), a)
    decreases b
  {
    hide Merge, MergeGroups, MergeEntries, SameEntries, SameContent;
    var m := Merge(o, a, b);
    SameContentByParts(o, b);
    assert SameShape(o, b) by {
      SameContentShape(o, b);
    }
    MergeShape(o, a, b);
    MergeEntriesUnchanged(o.policies, a.policies, b.policies, false);
    MergeEntriesUnchanged(o.values, a.values, b.values, false);
    forall k
      ensures k in m.groups <==> k in a.groups
      ensures k in a.groups && k in m.groups ==> SameContent(m.groups[k], a.groups[k])
    {
      MergeGroupsAt(o, a, b, false, k);
      if k in a.groups {
        SameContentReflexive(a.groups[k]);
        if k in o.groups {
          MergeSecondUnchanged(o.groups[k], a.groups[k], b.groups[k]);
        }
      }
    }
    SameContentByParts(m, a);
  }

  /** Where the first side changed nothing, the merge is the second side. */
  lemma {:induction false} MergeFirstUnchanged(o: ConfigGroup, a: ConfigGroup, b: ConfigGroup)
    requires SameContent(o, a)
    ensures SameContent(Merge(o, a, b), b)
    decreases b
  {
    hide Merge, MergeGroups, MergeEntries, SameEntries, SameContent, SameShape;
    var bumped, m := !SameShape(o, b), Merge(o, a, b);
    SameContentByParts(o, a);
    SameContentShape(o, a);
    ShapeMeans(o, a);
    ShapeMeans(o, b);
    MergeShape(o, a, b);
    MergeEntriesUnchanged(o.policies, a.policies, b.policies, bumped);
    MergeEntriesUnchanged(o.values, a.values, b.values, bumped);
    forall k
      ensures k in m.groups <==> k in b.groups
      ensures k in b.groups && k in m.groups ==> SameContent(m.groups[k], b.groups[k])
    {
      MergeGroupsAt(o, a, b, bumped, k);
      if k in b.groups {
        SameContentReflexive(b.groups[k]);
        if k in o.groups {
          MergeFirstUnchanged(o.groups[k], a.groups[k], b.groups[k]);
        }
      }
    }
    SameContentByParts(m, b);
  }

  lemma EntriesSequence<B>(o: map<string, Entry<B>>, a: map<string, Entry<B>>, b: map<string, Entry<B>>, bumped: bool,
                           empty: B)
    requires o.Keys == a.Keys
    requires o.Keys != b.Keys ==> bumped
    requires EntriesUntouched(o, a, b, bumped)
    ensures ApplyEntries(StampEntries(o, a), EntryReads(o, b, bumped, empty), EntryWrites(o, b, bumped, empty), bumped)
         == StampEntries(o, MergeEntries(o, a, b, bumped))
  {
    hide Altered, Kept, StampEntries, ApplyEntries, MergeEntries;
    var s, r, w := StampEntries(o, a), EntryReads(o, b, bumped, empty), EntryWrites(o, b, bumped, empty);
    var x, y := ApplyEntries(s, r, w, bumped), StampEntries(o, MergeEntries(o, a, b, bumped));
    forall k
      ensures k in x <==> k in y
      ensures k in x ==> x[k] == y[k]
    {
      EntrySetsAt(o, b, empty, k);
      StampEntriesAt(o, a, k);
      StampEntriesAt(o, MergeEntries(o, a, b, bumped), k);
      MergeEntriesAt(o, a, b, bumped, k);
      ApplyEntriesAt(s, r, w, bumped, k);
    }
  }

  lemma EntrySetsAt<B>(o: map<string, Entry<B>>, u: map<string, Entry<B>>, empty: B, k: string)
    ensures k in Kept(o, u, empty) <==> k in o && k in u && SameEntry(o[k], u[k])
    ensures k in Kept(o, u, empty) ==> Kept(o, u, empty)[k] == Placeholder(o[k].version, empty)
    ensures k in Altered(o, u) <==> k in u && (k in o ==> !SameEntry(o[k], u[k]))
    ensures k in Altered(o, u) ==> Altered(o, u)[k] == u[k].(version := if k in o then o[k].version + 1 else 0)
  {
  }

  lemma StampEntriesAt<B>(o: map<string, Entry<B>>, u: map<string, Entry<B>>, k: string)
    ensures k in StampEntries(o, u) <==> k in u
    ensures k in u ==>
              StampEntries(o, u)[k] == (if k !in o then u[k].(version := 0) else if SameEntry(o[k], u[k]) then o[k]
                                        else u[k].(version := o[k].version + 1))
  {
  }

  lemma MergeEntriesAt<B>(o: map<string, Entry<B>>, a: map<string, Entry<B>>, b: map<string, Entry<B>>, bumped: bool,
                          k: string)
    ensures k in MergeEntries(o, a, b, bumped) <==> k in (if bumped then b else a)
    ensures k in MergeEntries(o, a, b, bumped) ==>
              MergeEntries(o, a, b, bumped)[k]
                == (if k in a && (k !in b || (k in o && SameEntry(o[k], b[k]))) then a[k] else b[k])
  {
  }

  lemma ApplyEntriesAt<B>(cur: map<string, Entry<B>>, r: map<string, Entry<B>>, w: map<string, Entry<B>>,
                          bumped: bool, k: string)
    ensures k in ApplyEntries(cur, r, w, bumped) <==> k in (if bumped then w else cur)
    ensures k in ApplyEntries(cur, r, w, bumped) ==>
              ApplyEntries(cur, r, w, bumped)[k] == (if IsDelta(r, w, k) || k !in cur then w[k] else cur[k])
  {
  }

  /** Stamping looks at nothing but the content of its target. */
  lemma {:induction false} StampCongruent(o: ConfigGroup, x: ConfigGroup, y: ConfigGroup)
    requires SameContent(x, y)
    ensures Stamp(o, x) == Stamp(o, y)
    decreases x
  {
    hide Stamp, StampGroups, StampEntries, SameContent, SameEntries, SameShape, Fresh;
    SameContentByParts(x, y);
    SameContentShape(x, y);
    ShapeMeans(x, y);
    ShapeMeans(o, x);
    ShapeMeans(o, y);
    forall k | k in x.groups
      ensures Fresh(x.groups[k]) == Fresh(y.groups[k])
      ensures k in o.groups ==> Stamp(o.groups[k], x.groups[k]) == Stamp(o.groups[k], y.groups[k])
    {
      FreshVersionsIrrelevant(x.groups[k], y.groups[k]);
      if k in o.groups {
        StampCongruent(o.groups[k], x.groups[k], y.groups[k]);
      }
    }
    StampUnfold(o, x);
    StampUnfold(o, y);
    StampEntriesCongruent(o.policies, x.policies, y.policies);
    StampEntriesCongruent(o.values, x.values, y.values);
    StampGroupsCongruent(o, x, y);
  }

  lemma StampEntriesCongruent<B>(o: map<string, Entry<B>>, x: map<string, Entry<B>>, y: map<string, Entry<B>>)
    requires SameEntries(x, y)
    ensures StampEntries(o, x) == StampEntries(o, y)
  {
  }

  lemma StampGroupsCongruent(o: ConfigGroup, x: ConfigGroup, y: ConfigGroup)
    requires x.groups.Keys == y.groups.Keys
    requires forall k | k in x.groups :: Fresh(x.groups[k]) == Fresh(y.groups[k])
    requires forall k | k in x.groups && k in o.groups ::
             Stamp(o.groups[k], x.groups[k]) == Stamp(o.groups[k], y.groups[k])
    ensures StampGroups(o, x) == StampGroups(o, y)
  {
    hide Stamp, Fresh;
  }

  ghost predicate PairGivesMerge(o: ConfigGroup, a: ConfigGroup, b: ConfigGroup) {
    Apply(Stamp(o, a), ReadOf(o, b), WriteOf(o, b)) == Stamp(o, Merge(o, a, b))
  }

  /** Applied after the first, an acceptable second update leads to the three-way merge, versions included. */
  lemma {:induction false} SequenceGivesMerge(o: ConfigGroup, a: ConfigGroup, b: ConfigGroup)
    requires SameContent(o, a) || CanFollow(o, a, b)
    ensures PairGivesMerge(o, a, b)
    decreases b
  {
    hide Apply, Stamp, ReadOf, WriteOf, Merge, Fresh;
    if SameContent(o, a) {
      StampOfSame(o, a);
      ApplyGivesStamp(o, b);
      MergeFirstUnchanged(o, a, b);
      StampCongruent(o, Merge(o, a, b), b);
    } else {
      forall k ensures NameMerges(o, a, b, k) {
        if k in o.groups && k in a.groups && k in b.groups {
          if SameContent(o.groups[k], b.groups[k]) {
            MergeSecondUnchanged(o.groups[k], a.groups[k], b.groups[k]);
            StampCongruent(o.groups[k], Merge(o.groups[k], a.groups[k], b.groups[k]), a.groups[k]);
          }
          if !SameShape(o, b) || !SameContent(o.groups[k], b.groups[k]) {
            SequenceGivesMerge(o.groups[k], a.groups[k], b.groups[k]);
          }
        }
      }
      SequenceByParts(o, a, b);
    }
  }

  lemma SequenceByParts(o: ConfigGroup, a: ConfigGroup, b: ConfigGroup)
    requires CanFollow(o, a, b)
    requires forall k :: NameMerges(o, a, b, k)
    ensures PairGivesMerge(o, a, b)
  {
    hide Apply, Stamp, ReadOf, WriteOf, Merge, SameContent, SameShape, ApplyGroups, ApplyEntries, StampGroups,
         StampEntries, GroupReads, GroupWrites, MergeGroups, MergeEntries, Altered, Kept, Fresh,
         EntriesUntouched, NameMerges;
    var s, r, w, bumped, m := Stamp(o, a), ReadOf(o, b), WriteOf(o, b), !SameShape(o, b), Merge(o, a, b);
    ShapeMeans(o, a);
    ShapeMeans(o, b);
    SetsByShape(o, b);
    MergeShape(o, a, b);
    StampUnfold(o, a);
    StampUnfold(o, m);
    ApplyUnfold(s, r, w, bumped);
    EntriesSequence(o.policies, a.policies, b.policies, bumped, NoPolicy);
    EntriesSequence(o.values, a.values, b.values, bumped, []);
    GroupsSequence(o, a, b);
  }

  /**
    Under one name: where b changed nothing the merge keeps a's group, and elsewhere the pair of updates gives the
    merge.
   */
  ghost predicate NameMerges(o: ConfigGroup, a: ConfigGroup, b: ConfigGroup, k: string) {
    k in o.groups && k in a.groups && k in b.groups ==>
      && (SameContent(o.groups[k], b.groups[k]) ==>
            Stamp(o.groups[k], Merge(o.groups[k], a.groups[k], b.groups[k])) == Stamp(o.groups[k], a.groups[k]))
      && (!SameShape(o, b) || !SameContent(o.groups[k], b.groups[k]) ==>
            PairGivesMerge(o.groups[k], a.groups[k], b.groups[k]))
  }

  lemma GroupsSequence(o: ConfigGroup, a: ConfigGroup, b: ConfigGroup)
    requires SameShape(o, a)
    requires forall k :: NameMerges(o, a, b, k)
    ensures ApplyGroups(Stamp(o, a), ReadOf(o, b), WriteOf(o, b), !SameShape(o, b)) == StampGroups(o, Merge(o, a, b))
  {
    hide *;
    var x, y := ApplyGroups(Stamp(o, a), ReadOf(o, b), WriteOf(o, b), !SameShape(o, b)), StampGroups(o, Merge(o, a, b));
    forall k
      ensures k in x <==> k in y
      ensures k in x ==> x[k] == y[k]
    {
      NameSequence(o, a, b, k);
    }
  }

  lemma NameSequence(o: ConfigGroup, a: ConfigGroup, b: ConfigGroup, k: string)
    requires SameShape(o, a) && NameMerges(o, a, b, k)
    ensures var x := ApplyGroups(Stamp(o, a), ReadOf(o, b), WriteOf(o, b), !SameShape(o, b));
            var y := StampGroups(o, Merge(o, a, b));
            && (k in x <==> k in y)
            && (k in x ==> x[k] == y[k])
  {
    hide ReadOf, WriteOf, Apply, Stamp, SameContent, Fresh, Merge, SameShape, GroupReads, GroupWrites, ApplyGroups,
         StampGroups, MergeGroups, StampEntries, MergeEntries, Altered, Kept;
    var s, r, w, bumped, m := Stamp(o, a), ReadOf(o, b), WriteOf(o, b), !SameShape(o, b), Merge(o, a, b);
    ShapeMeans(o, a);
    ShapeMeans(o, b);
    StampUnfold(o, a);
    SetsByShape(o, b);
    MergeShape(o, a, b);
    StampGroupsAt(o, a, k);
    StampGroupsAt(o, m, k);
    MergeGroupsAt(o, a, b, bumped, k);
    GroupSetsAt(o, b, bumped, k);
    ApplyGroupsAt(s, r, w, bumped, k);
  }
}
