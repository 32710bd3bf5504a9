/**
  Concurrent updates: when two updates of the same original go in either order, and when the
  second of two accepted updates wipes out a change made by the first.
 */
module ConfigConcurrent {
  import opened Outcomes
  import opened ConfigTree
  import opened ConfigUpdate
  import opened ConfigApply
  import opened ConfigDelta
  import opened ConfigMerge

  // ---- Either order ----

  predicate EntriesIndependent<B(==)>(o: map<string, Entry<B>>, a: map<string, Entry<B>>, b: map<string, Entry<B>>) {
    forall k | k in o && k in a && k in b :: SameEntry(o[k], a[k]) || SameEntry(o[k], b[k])
  }

  /** Neither update reshapes a group that the other one changes, and no entry is altered by both. */
  predicate Independent(o: ConfigGroup, a: ConfigGroup, b: ConfigGroup)
    decreases b
  {
    && SameShape(o, a)
    && SameShape(o, b)
    && EntriesIndependent(o.policies, a.policies, b.policies)
    && EntriesIndependent(o.values, a.values, b.values)
    && forall k | k in o.groups && k in a.groups && k in b.groups ::
      || SameContent(o.groups[k], a.groups[k])
      || SameContent(o.groups[k], b.groups[k])
      || Independent(o.groups[k], a.groups[k], b.groups[k])
  }

  lemma {:induction false} EachFollowsIff(o: ConfigGroup, a: ConfigGroup, b: ConfigGroup)
    ensures CanFollow(o, a, b) && CanFollow(o, b, a) <==> Independent(o, a, b)
    decreases b
  {
    forall k | k in o.groups && k in a.groups && k in b.groups {
      EachFollowsIff(o.groups[k], a.groups[k], b.groups[k]);
    }
    hide SameContent;
  }

  /** Each of two real changes is accepted after the other exactly when they are independent. */
  lemma {:induction false} EitherOrderAcceptedIff(o: ConfigGroup, a: ConfigGroup, b: ConfigGroup)
    requires !SameContent(o, a) && !SameContent(o, b)
    ensures Accepts(After(o, a), ReadOf(o, b), WriteOf(o, b)) && Accepts(After(o, b), ReadOf(o, a), WriteOf(o, a))
       <==> Independent(o, a, b)
  {
    AcceptedAfterIff(o, a, b);
    AcceptedAfterIff(o, b, a);
    EachFollowsIff(o, a, b);
  }

  lemma {:induction false} MergeSymmetric(o: ConfigGroup, a: ConfigGroup, b: ConfigGroup)
    requires SameContent(o, a) || SameContent(o, b) || Independent(o, a, b)
    ensures SameContent(Merge(o, a, b), Merge(o, b, a))
    decreases b
  {
    var x, y := Merge(o, a, b), Merge(o, b, a);
    if SameContent(o, a) {
      MergeFirstUnchanged(o, a, b);
      MergeSecondUnchanged(o, b, a);
      SameContentSymmetric(y, b);
      SameContentTransitive(x, b, y);
    } else if SameContent(o, b) {
      MergeFirstUnchanged(o, b, a);
      MergeSecondUnchanged(o, a, b);
      SameContentSymmetric(y, a);
      SameContentTransitive(x, a, y);
    } else {
      forall k | k in o.groups
        ensures SameContent(Merge(o.groups[k], a.groups[k], b.groups[k]), Merge(o.groups[k], b.groups[k], a.groups[k]))
      {
        MergeSymmetric(o.groups[k], a.groups[k], b.groups[k]);
      }
      MergeSymmetricByParts(o, a, b);
    }
  }

  lemma {:induction false} MergeSymmetricByParts(o: ConfigGroup, a: ConfigGroup, b: ConfigGroup)
    requires Independent(o, a, b)
    requires forall k | k in o.groups ::
      SameContent(Merge(o.groups[k], a.groups[k], b.groups[k]), Merge(o.groups[k], b.groups[k], a.groups[k]))
    ensures SameContent(Merge(o, a, b), Merge(o, b, a))
  {
    var x, y := Merge(o, a, b), Merge(o, b, a);
    forall k | k in o.groups ensures k in x.groups && k in y.groups && SameContent(x.groups[k], y.groups[k]) {
      MergeGroupsAt(o, a, b, false, k);
      MergeGroupsAt(o, b, a, false, k);
    }
  }

  /** Two updates that are each acceptable after the other give one tree, in either order: the update to their merge. */
  lemma {:induction false} Commute(o: ConfigGroup, a: ConfigGroup, b: ConfigGroup)
    requires Accepts(After(o, a), ReadOf(o, b), WriteOf(o, b))
    requires Accepts(After(o, b), ReadOf(o, a), WriteOf(o, a))
    ensures Apply(After(o, a), ReadOf(o, b), WriteOf(o, b))
         == Apply(After(o, b), ReadOf(o, a), WriteOf(o, a))
         == After(o, Merge(o, a, b))
  {
    hide Accepts, Apply, ReadOf, WriteOf, Merge, SameContent, Independent, CanFollow, Stamp;
    AcceptedAfterIff(o, a, b);
    AcceptedAfterIff(o, b, a);
    EachFollowsIff(o, a, b);
    ApplyGivesStamp(o, a);
    ApplyGivesStamp(o, b);
    ApplyGivesStamp(o, Merge(o, a, b));
    SequenceGivesMerge(o, a, b);
    SequenceGivesMerge(o, b, a);
    MergeSymmetric(o, a, b);
    StampCongruent(o, Merge(o, a, b), Merge(o, b, a));
  }

  // ---- Conflicts ----

  /** The element names that an update writes with content at a path; see ConfigDelta.MinimalEntries. */
  ghost function AlteredPolicies(o: ConfigGroup, a: ConfigGroup, path: Path): set<string> {
    Altered(OrEmpty(GroupAt(o, path)).policies, OrEmpty(GroupAt(a, path)).policies).Keys
  }

  ghost function AlteredValues(o: ConfigGroup, a: ConfigGroup, path: Path): set<string> {
    Altered(OrEmpty(GroupAt(o, path)).values, OrEmpty(GroupAt(a, path)).values).Keys
  }

  /** The group at the path exists in both, and its modification policy or member names differ. */
  ghost predicate Reshaped(o: ConfigGroup, a: ConfigGroup, path: Path) {
    GroupAt(o, path).Some? && GroupAt(a, path).Some? && !SameShape(GroupAt(o, path).value, GroupAt(a, path).value)
  }

  /** The two updates meet: both alter an entry, or the first reshapes a group that the second reads. */
  ghost predicate Conflict(o: ConfigGroup, a: ConfigGroup, b: ConfigGroup, path: Path) {
    || AlteredPolicies(o, a, path) * AlteredPolicies(o, b, path) != {}
    || AlteredValues(o, a, path) * AlteredValues(o, b, path) != {}
    || (Reshaped(o, a, path) && GroupAt(ReadOf(o, b), path).Some?)
  }

  lemma {:induction false} FollowerHasNoConflict(o: ConfigGroup, a: ConfigGroup, b: ConfigGroup, path: Path)
    requires SameContent(o, a) || CanFollow(o, a, b)
    ensures !Conflict(o, a, b, path)
    decreases path
  {
    hide ReadOf, Altered;
    if !Conflict(o, a, b, path) {
    } else if SameContent(o, a) {
      SameContentAt(o, a, path);
      NothingAlteredAt(o, a, path);
    } else if path == [] {
      RootHasNoConflict(o, a, b);
    } else {
      var k, rest := path[0], path[1..];
      ConflictBelow(o, a, b, path);
      ShapeMeans(o, a);
      if k in o.groups && k in b.groups {
        if SameShape(o, b) && SameContent(o.groups[k], b.groups[k]) {
          NothingAlteredAt(o.groups[k], b.groups[k], rest);
        } else {
          FollowerHasNoConflict(o.groups[k], a.groups[k], b.groups[k], rest);
        }
      }
    }
  }

  lemma RootHasNoConflict(o: ConfigGroup, a: ConfigGroup, b: ConfigGroup)
    requires CanFollow(o, a, b)
    ensures !Conflict(o, a, b, [])
  {
    hide SameContent, ReadOf;
    assert AlteredPolicies(o, a, []) == Altered(o.policies, a.policies).Keys;
    assert AlteredValues(o, a, []) == Altered(o.values, a.values).Keys;
  }

  /** A conflict below the root is a conflict below one child that both sides have and b changes. */
  lemma ConflictBelow(o: ConfigGroup, a: ConfigGroup, b: ConfigGroup, path: Path)
    requires SameShape(o, a) && path != [] && Conflict(o, a, b, path)
    ensures var k := path[0];
            && k in o.groups && k in a.groups && k in b.groups
            && (!SameShape(o, b) || !SameContent(o.groups[k], b.groups[k]) ==>
                  Conflict(o.groups[k], a.groups[k], b.groups[k], path[1..]))
            && (SameShape(o, b) && SameContent(o.groups[k], b.groups[k]) ==>
                  || AlteredPolicies(o.groups[k], b.groups[k], path[1..]) != {}
                  || AlteredValues(o.groups[k], b.groups[k], path[1..]) != {})
  {
    hide SameShape, SameContent, ReadOf, WriteOf, GroupReads, GroupWrites, Altered, Kept;
    var k := path[0];
    ShapeMeans(o, a);
    SetsByShape(o, b);
    GroupSetsAt(o, b, !SameShape(o, b), k);
    if k !in a.groups {
      NothingFromNothing(OrEmpty(GroupAt(o, path)));
    }
    if k !in b.groups {
      NothingFromNothing(OrEmpty(GroupAt(o, path)));
    }
  }

  lemma NothingFromNothing(o: ConfigGroup)
    ensures Altered(o.policies, map[]) == map[] && Altered(o.values, map[]) == map[]
  {
  }

  lemma NothingAlteredAt(o: ConfigGroup, a: ConfigGroup, path: Path)
    requires SameContent(o, a)
    ensures AlteredPolicies(o, a, path) == {} && AlteredValues(o, a, path) == {}
  {
    SameContentAt(o, a, path);
    var x, y := OrEmpty(GroupAt(o, path)), OrEmpty(GroupAt(a, path));
    NothingAltered(x.policies, y.policies);
    NothingAltered(x.values, y.values);
  }

  /** An update that conflicts with one already applied is rejected. */
  lemma {:induction false} ConflictRejected(o: ConfigGroup, a: ConfigGroup, b: ConfigGroup, path: Path)
    requires Conflict(o, a, b, path)
    ensures !Accepts(After(o, a), ReadOf(o, b), WriteOf(o, b))
  {
    AcceptedAfterIff(o, a, b);
    if SameContent(o, a) || CanFollow(o, a, b) {
      FollowerHasNoConflict(o, a, b, path);
    }
  }

  // ---- Lost updates ----

  predicate EntriesSurvive<B(==)>(o: map<string, Entry<B>>, a: map<string, Entry<B>>, m: map<string, Entry<B>>) {
    forall k | k in Altered(o, a) :: k in m && SameEntry(m[k], a[k])
  }

  /**
    Whatever a changed is found in m as a left it: every entry that it adds or alters, every new
    group, and of every group that it reshapes the modification policy and the member names, so that
    what a removed stays removed.
   */
  predicate Survives(o: ConfigGroup, a: ConfigGroup, m: ConfigGroup) {
    && (SameShape(o, a) || SameShape(m, a))
    && EntriesSurvive(o.policies, a.policies, m.policies)
    && EntriesSurvive(o.values, a.values, m.values)
    && forall k | k in a.groups && (k in o.groups ==> !SameContent(o.groups[k], a.groups[k])) ::
      k in m.groups && if k in o.groups then Survives(o.groups[k], a.groups[k], m.groups[k])
        else SameContent(m.groups[k], a.groups[k])
  }

  /** b removes no element that a altered, nor a group in which a changed something. */
  predicate Spares(o: ConfigGroup, a: ConfigGroup, b: ConfigGroup) {
    && Altered(o.policies, a.policies).Keys <= b.policies.Keys
    && Altered(o.values, a.values).Keys <= b.values.Keys
    && forall k | k in a.groups && k in o.groups && !SameContent(o.groups[k], a.groups[k]) ::
      k in b.groups && (SameContent(o.groups[k], b.groups[k]) || Spares(o.groups[k], a.groups[k], b.groups[k]))
  }

  lemma {:induction false} SurvivesInSame(o: ConfigGroup, a: ConfigGroup, m: ConfigGroup)
    requires SameContent(m, a)
    ensures Survives(o, a, m)
    decreases a
  {
    forall k | k in a.groups && k in o.groups {
      SurvivesInSame(o.groups[k], a.groups[k], m.groups[k]);
    }
  }

  /**
    Nothing short of the change itself will do: an update survives in the tree it started from only if it changed
    nothing.
   */
  lemma {:induction false} SurvivesInOriginalIff(o: ConfigGroup, a: ConfigGroup)
    ensures Survives(o, a, o) <==> SameContent(o, a)
    decreases a
  {
    if SameContent(o, a) {
      SurvivesInSame(o, a, o);
    } else if Survives(o, a, o) {
      forall k | k in a.groups ensures SameContent(o.groups[k], a.groups[k]) {
        SurvivesInOriginalIff(o.groups[k], a.groups[k]);
      }
      NoneAlteredInOriginal(o.policies, a.policies);
      NoneAlteredInOriginal(o.values, a.values);
    }
  }

  lemma NoneAlteredInOriginal<B>(o: map<string, Entry<B>>, a: map<string, Entry<B>>)
    requires o.Keys == a.Keys && EntriesSurvive(o, a, o)
    ensures SameEntries(o, a)
  {
    NothingAltered(o, a);
    assert forall k | k in Altered(o, a) :: !SameEntry(o[k], a[k]);
  }

  lemma EntriesSurviveIff<B>(o: map<string, Entry<B>>, a: map<string, Entry<B>>, b: map<string, Entry<B>>, bumped: bool)
    requires o.Keys == a.Keys
    requires o.Keys != b.Keys ==> bumped
    requires EntriesUntouched(o, a, b, bumped)
    ensures EntriesSurvive(o, a, MergeEntries(o, a, b, bumped)) <==> Altered(o, a).Keys <= b.Keys
  {
    var m := MergeEntries(o, a, b, bumped);
    if EntriesSurvive(o, a, m) {
      forall k | k in Altered(o, a) ensures k in b {
        assert k in m;
      }
    }
  }

  /**
    In what an accepted pair leads to, the first update's changes all survive exactly when the second removes none of
    them.
   */
  lemma {:induction false} FirstSurvivesIff(o: ConfigGroup, a: ConfigGroup, b: ConfigGroup)
    requires CanFollow(o, a, b)
    ensures Survives(o, a, Merge(o, a, b)) <==> Spares(o, a, b)
    decreases b
  {
    hide Merge, MergeGroups, MergeEntries, EntriesSurvive, SameContent, SameShape, Altered;
    var bumped, m := !SameShape(o, b), Merge(o, a, b);
    ShapeMeans(o, a);
    ShapeMeans(o, b);
    MergeShape(o, a, b);
    EntriesSurviveIff(o.policies, a.policies, b.policies, bumped);
    EntriesSurviveIff(o.values, a.values, b.values, bumped);
    forall k | k in o.groups && !SameContent(o.groups[k], a.groups[k])
      ensures k in m.groups && Survives(o.groups[k], a.groups[k], m.groups[k])
         <==> k in b.groups && (SameContent(o.groups[k], b.groups[k]) || Spares(o.groups[k], a.groups[k], b.groups[k]))
    {
      MergeGroupsAt(o, a, b, bumped, k);
      if k in b.groups {
        if SameContent(o.groups[k], b.groups[k]) {
          MergeSecondUnchanged(o.groups[k], a.groups[k], b.groups[k]);
          SurvivesInSame(o.groups[k], a.groups[k], m.groups[k]);
        } else {
          FirstSurvivesIff(o.groups[k], a.groups[k], b.groups[k]);
        }
      }
    }
  }

  /** What Survives asks of one subgroup that a adds or changes. */
  ghost predicate ChildSurvives(o: ConfigGroup, a: ConfigGroup, m: ConfigGroup, k: string)
    requires k in a.groups
  {
    k in m.groups && if k in o.groups then Survives(o.groups[k], a.groups[k], m.groups[k])
      else SameContent(m.groups[k], a.groups[k])
  }

  lemma SurvivesUnfold(o: ConfigGroup, a: ConfigGroup, m: ConfigGroup)
    ensures Survives(o, a, m) <==>
            && (SameShape(o, a) || SameShape(m, a))
            && EntriesSurvive(o.policies, a.policies, m.policies)
            && EntriesSurvive(o.values, a.values, m.values)
            && forall k | k in a.groups && (k in o.groups ==> !SameContent(o.groups[k], a.groups[k])) ::
               ChildSurvives(o, a, m, k)
  {
    hide SameContent, SameShape, EntriesSurvive;
  }

  lemma EntriesSurviveIn<B>(o: map<string, Entry<B>>, a: map<string, Entry<B>>, x: map<string, Entry<B>>,
                            y: map<string, Entry<B>>)
    requires SameEntries(x, y)
    ensures EntriesSurvive(o, a, x) <==> EntriesSurvive(o, a, y)
  {
    hide Altered;
  }

  lemma {:induction false} SurvivesIgnoresVersions(o: ConfigGroup, a: ConfigGroup, x: ConfigGroup, y: ConfigGroup)
    requires SameContent(x, y)
    ensures Survives(o, a, x) <==> Survives(o, a, y)
    decreases a
  {
    hide Survives, SameContent, EntriesSurvive, SameShape, SameEntries;
    SameContentByParts(x, y);
    SameContentShape(x, y);
    ShapeMeans(x, y);
    ShapeMeans(x, a);
    ShapeMeans(y, a);
    EntriesSurviveIn(o.policies, a.policies, x.policies, y.policies);
    EntriesSurviveIn(o.values, a.values, x.values, y.values);
    forall k | k in a.groups ensures ChildSurvives(o, a, x, k) <==> ChildSurvives(o, a, y, k) {
      if k in x.groups {
        SameContentTransitive(x.groups[k], y.groups[k], a.groups[k]);
        if k in o.groups {
          SurvivesIgnoresVersions(o.groups[k], a.groups[k], x.groups[k], y.groups[k]);
        }
      }
    }
    SurvivesUnfold(o, a, x);
    SurvivesUnfold(o, a, y);
  }

  /**
    All that the second update changed is there; all that the first changed is there exactly when the second removes
    none of it.
   */
  lemma {:induction false} NoLostUpdateIff(o: ConfigGroup, a: ConfigGroup, b: ConfigGroup)
    requires !SameContent(o, a)
    requires Accepts(After(o, a), ReadOf(o, b), WriteOf(o, b))
    ensures Survives(o, a, Apply(After(o, a), ReadOf(o, b), WriteOf(o, b))) <==> Spares(o, a, b)
    ensures Survives(o, b, Apply(After(o, a), ReadOf(o, b), WriteOf(o, b)))
  {
    hide Accepts, Apply, ReadOf, WriteOf, Merge, SameContent, CanFollow, Stamp, Survives, Spares;
    AcceptedAfterIff(o, a, b);
    ApplyGivesStamp(o, a);
    SequenceGivesMerge(o, a, b);
    StampHasContent(o, Merge(o, a, b));
    SurvivesIgnoresVersions(o, a, Stamp(o, Merge(o, a, b)), Merge(o, a, b));
    FirstSurvivesIff(o, a, b);
    SecondSurvives(o, a, b);
    SurvivesIgnoresVersions(o, b, Stamp(o, Merge(o, a, b)), Merge(o, a, b));
  }

  /** The second update always gets its way: whatever it adds, alters, reshapes or removes is so in the final tree. */
  lemma {:induction false} SecondSurvives(o: ConfigGroup, a: ConfigGroup, b: ConfigGroup)
    requires SameContent(o, a) || CanFollow(o, a, b)
    ensures Survives(o, b, Merge(o, a, b))
    decreases b
  {
    hide Merge, MergeGroups, MergeEntries, EntriesSurvive, SameContent, SameShape, Altered, Survives;
    if SameContent(o, a) {
      MergeFirstUnchanged(o, a, b);
      SurvivesInSame(o, b, Merge(o, a, b));
    } else {
      var bumped, m := !SameShape(o, b), Merge(o, a, b);
      ShapeMeans(o, a);
      ShapeMeans(o, b);
      MergeShape(o, a, b);
      SecondEntriesSurvive(o.policies, a.policies, b.policies, bumped);
      SecondEntriesSurvive(o.values, a.values, b.values, bumped);
      forall k | k in b.groups && (k in o.groups ==> !SameContent(o.groups[k], b.groups[k]))
        ensures ChildSurvives(o, b, m, k)
      {
        MergeGroupsAt(o, a, b, bumped, k);
        if k in o.groups {
          SecondSurvives(o.groups[k], a.groups[k], b.groups[k]);
        } else {
          SameContentReflexive(b.groups[k]);
        }
      }
      if bumped {
        MergeTakesShape(o, a, b);
      }
      SurvivesUnfold(o, b, m);
    }
  }

  lemma SecondEntriesSurvive<B>(o: map<string, Entry<B>>, a: map<string, Entry<B>>, b: map<string, Entry<B>>,
                                bumped: bool)
    requires o.Keys == a.Keys
    requires o.Keys != b.Keys ==> bumped
    ensures EntriesSurvive(o, b, MergeEntries(o, a, b, bumped))
  {
  }

  lemma MergeTakesShape(o: ConfigGroup, a: ConfigGroup, b: ConfigGroup)
    requires !SameShape(o, b)
    ensures SameShape(Merge(o, a, b), b)
  {
    hide MergeGroups, MergeEntries;
    var m := Merge(o, a, b);
    MergeShape(o, a, b);
    assert m.policies.Keys == b.policies.Keys by {
      MergeEntriesNames(o.policies, a.policies, b.policies);
    }
    assert m.values.Keys == b.values.Keys by {
      MergeEntriesNames(o.values, a.values, b.values);
    }
    forall k ensures k in m.groups <==> k in b.groups {
      MergeGroupsAt(o, a, b, true, k);
    }
  }

  lemma MergeEntriesNames<B>(o: map<string, Entry<B>>, a: map<string, Entry<B>>, b: map<string, Entry<B>>)
    ensures MergeEntries(o, a, b, true).Keys == b.Keys
  {
  }

  /**
    The second update is accepted, and a change made by the first is gone; in the other order the second is rejected.
   */
  ghost predicate LostUpdate(o: ConfigGroup, a: ConfigGroup, b: ConfigGroup) {
    && !SameContent(o, a) && !SameContent(o, b)
    && Accepts(After(o, a), ReadOf(o, b), WriteOf(o, b))
    && !Survives(o, a, Apply(After(o, a), ReadOf(o, b), WriteOf(o, b)))
    && !Accepts(After(o, b), ReadOf(o, a), WriteOf(o, a))
  }

  lemma {:induction false} SparesByChildren(o: ConfigGroup, a: ConfigGroup, b: ConfigGroup)
    requires SameShape(o, a) && SameShape(o, b)
    ensures Spares(o, a, b) <==>
            forall k | k in o.groups && !SameContent(o.groups[k], a.groups[k]) ::
              SameContent(o.groups[k], b.groups[k]) || Spares(o.groups[k], a.groups[k], b.groups[k])
  {
    hide SameContent;
  }

  /** Independent updates remove nothing of each other. */
  lemma {:induction false} IndependentSpares(o: ConfigGroup, a: ConfigGroup, b: ConfigGroup)
    requires Independent(o, a, b)
    ensures Spares(o, a, b)
    decreases b
  {
    hide SameContent, Spares;
    SparesByChildren(o, a, b);
    forall k | k in o.groups && !SameContent(o.groups[k], a.groups[k])
      ensures SameContent(o.groups[k], b.groups[k]) || Spares(o.groups[k], a.groups[k], b.groups[k])
    {
      if !SameContent(o.groups[k], b.groups[k]) {
        IndependentSpares(o.groups[k], a.groups[k], b.groups[k]);
      }
    }
  }

  lemma IdleSpares(o: ConfigGroup, a: ConfigGroup, b: ConfigGroup)
    requires SameShape(o, a)
    ensures SameContent(o, b) ==> Spares(o, a, b)
    ensures SameContent(o, a) ==> Spares(o, a, b)
  {
    if SameContent(o, a) {
      NothingAltered(o.policies, a.policies);
      NothingAltered(o.values, a.values);
      hide SameContent;
    } else if SameContent(o, b) {
      SameContentShape(o, b);
      hide SameContent;
    }
  }

  /**
    Exactly which pairs lose an update: the second one can follow the first and removes something that the
    first changed. In the other order such a pair is always rejected.
   */
  lemma LostUpdateIff(o: ConfigGroup, a: ConfigGroup, b: ConfigGroup)
    ensures LostUpdate(o, a, b) <==> CanFollow(o, a, b) && !Spares(o, a, b)
  {
    hide Accepts, Apply, ReadOf, WriteOf, After, Survives, Spares, SameContent, CanFollow, Independent, SameShape;
    AcceptedAfterIff(o, a, b);
    AcceptedAfterIff(o, b, a);
    if LostUpdate(o, a, b) {
      NoLostUpdateIff(o, a, b);
    } else if CanFollow(o, a, b) && !Spares(o, a, b) {
      FollowsOnShape(o, a, b);
      IdleSpares(o, a, b);
      NoLostUpdateIff(o, a, b);
      EachFollowsIff(o, a, b);
      if Independent(o, a, b) {
        IndependentSpares(o, a, b);
      }
    }
  }

  lemma FollowsOnShape(o: ConfigGroup, a: ConfigGroup, b: ConfigGroup)
    requires CanFollow(o, a, b)
    ensures SameShape(o, a)
  {
  }

  /** A value that one side alters and the other removes: accepted if the removal comes second. */
  lemma RemovalAfterAlteration(o: ConfigGroup, a: ConfigGroup, b: ConfigGroup, k: string)
    requires k in o.values && k in a.values && !SameEntry(o.values[k], a.values[k])
    requires SameShape(o, a) && o.policies == a.policies && o.groups == a.groups
    requires k !in b.values && forall l | l in b.values && l in o.values && l in a.values ::
             SameEntry(o.values[l], a.values[l])
    ensures LostUpdate(o, a, b)
  {
    hide Accepts, Apply, ReadOf, WriteOf, After, Survives, Altered, StampEntries, ApplyEntries, Fresh;
    forall l | l in o.groups ensures SameContent(o.groups[l], a.groups[l]) {
      SameContentReflexive(o.groups[l]);
    }
    AcceptedAfterIff(o, a, b);
    AcceptedAfterIff(o, b, a);
    AlteredAt(o.values, a.values, k);
    NoLostUpdateIff(o, a, b);
  }

  lemma AlteredAt<B>(o: map<string, Entry<B>>, a: map<string, Entry<B>>, k: string)
    requires k in o && k in a && !SameEntry(o[k], a[k])
    ensures k in Altered(o, a)
  {
  }

  /** Lost updates exist: one side alters a value, the other removes it, and the removal comes second. */
  lemma LostUpdateExists()
    ensures exists o, a, b :: LostUpdate(o, a, b)
  {
    hide LostUpdate;
    var o := ConfigGroup(0, "", map[], map["v" := Entry(0, "", [])], map[]);
    var a := ConfigGroup(0, "", map[], map["v" := Entry(0, "", [1])], map[]);
    assert !SameEntry(o.values["v"], a.values["v"]);
    RemovalAfterAlteration(o, a, EMPTY_GROUP, "v");
  }
}
