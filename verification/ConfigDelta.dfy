/**
  What the computed sets hold at each path of the tree: deltas exactly where the trees differ,
  reads of everything that is relied upon, and nothing else.
 */
module ConfigDelta {
  import opened Outcomes
  import opened ConfigTree
  import opened ConfigUpdate
  import opened ConfigApply

  /** The four trees at one path. */
  datatype Site = Site(og: Option<ConfigGroup>, ug: Option<ConfigGroup>, rg: Option<ConfigGroup>,
                       wg: Option<ConfigGroup>)

  function SiteAt(original: ConfigGroup, updated: ConfigGroup, path: Path): Site {
    Site(GroupAt(original, path), GroupAt(updated, path),
         GroupAt(ReadOf(original, updated), path), GroupAt(WriteOf(original, updated), path))
  }

  /** The changes that the write set carries for the entries of one map. */
  function Deltas<B>(r: map<string, Entry<B>>, w: map<string, Entry<B>>): map<string, Entry<B>> {
    map k | k in w && IsDelta(r, w, k) :: w[k]
  }

  lemma {:induction false} FreshAt(g: ConfigGroup, path: Path)
    ensures GroupAt(g, path).None? ==> GroupAt(Fresh(g), path).None?
    ensures GroupAt(g, path).Some? ==> GroupAt(Fresh(g), path) == Some(Fresh(GroupAt(g, path).value))
    decreases path
  {
    if path != [] && path[0] in g.groups {
      FreshAt(g.groups[path[0]], path[1..]);
    }
  }

  /**
    Every path is of one of three kinds: in both sets, computed from the two groups there; only in the
    write set, a fresh copy of a group that is new; or in neither, where nothing changed or the group is gone.
   */
  lemma {:induction false} SiteKinds(original: ConfigGroup, updated: ConfigGroup, path: Path)
    ensures var s := SiteAt(original, updated, path);
            && (s.rg.Some? ==> s.og.Some? && s.ug.Some? && s.rg.value == ReadOf(s.og.value, s.ug.value)
                               && s.wg == Some(WriteOf(s.og.value, s.ug.value)))
            && (s.rg.None? && s.wg.Some? ==> s.og.None? && s.ug.Some? && s.wg.value == Fresh(s.ug.value))
            && (s.wg.None? && s.ug.Some? ==> s.og.Some? && SameContent(s.og.value, s.ug.value))
    decreases path
  {
    if path == [] {
    } else {
      var name, rest := path[0], path[1..];
      var bumped := !SameShape(original, updated);
      ShapeMeans(original, updated);
      SetsByShape(original, updated);
      assert ReadOf(original, updated).groups == GroupReads(original, updated, bumped);
      assert WriteOf(original, updated).groups == GroupWrites(original, updated, bumped);
      hide SameShape, ReadOf, WriteOf, Fresh, SameContent;
      if name in updated.groups {
        if name !in original.groups {
          FreshAt(updated.groups[name], rest);
        } else if bumped || !SameContent(original.groups[name], updated.groups[name]) {
          SiteKinds(original.groups[name], updated.groups[name], rest);
        } else {
          SameContentAt(original.groups[name], updated.groups[name], rest);
        }
      }
    }
  }

  // ---- Round trip, path by path ----

  /**
    Applying the computed sets gives, at every path, a group exactly where the updated tree has one, with the same
    modification policy and the same policies and values, each with the same modification policy and body.
   */
  lemma RoundTripAt(original: ConfigGroup, updated: ConfigGroup, path: Path)
    ensures SameAt(Apply(original, ReadOf(original, updated), WriteOf(original, updated)), updated, path)
  {
    hide Apply, ReadOf, WriteOf, SameContent, SameAt;
    RoundTrip(original, updated);
    SameContentMeans(Apply(original, ReadOf(original, updated), WriteOf(original, updated)), updated);
  }

  // ---- Minimality ----

  /** A group is written as a delta exactly where it is new or its own shape changed, one version ahead. */
  lemma MinimalGroups(original: ConfigGroup, updated: ConfigGroup, path: Path)
    ensures var s := SiteAt(original, updated, path);
            && ((s.wg.Some? && IsGroupDelta(s.rg, s.wg.value))
                <==> (s.ug.Some? && (s.og.None? || !SameShape(s.og.value, s.ug.value))))
            && (s.wg.Some? && IsGroupDelta(s.rg, s.wg.value) ==>
                  && s.wg.value.version == (if s.og.Some? then s.og.value.version + 1 else 0)
                  && SameShape(s.wg.value, s.ug.value))
  {
    var s := SiteAt(original, updated, path);
    SiteKinds(original, updated, path);
    if s.rg.Some? {
      SetsByShape(s.og.value, s.ug.value);
      if !SameShape(s.og.value, s.ug.value) {
        BumpedListsMembers(s.og.value, s.ug.value);
      }
    }
    hide SiteAt, ReadOf, WriteOf;
  }

  /** A group whose version is bumped lists exactly the updated member names. */
  lemma BumpedListsMembers(original: ConfigGroup, updated: ConfigGroup)
    requires !SameShape(original, updated)
    ensures SameShape(WriteOf(original, updated), updated)
  {
    hide SameContent, Fresh, ReadOf, SameShape;
    var w := WriteOf(original, updated);
    assert w.groups.Keys == GroupWrites(original, updated, true).Keys == updated.groups.Keys;
    assert w.policies.Keys == updated.policies.Keys;
    assert w.values.Keys == updated.values.Keys;
    ShapeMeans(w, updated);
  }

  /**
    At every path the policies and the values written as deltas are exactly the new ones, at version
    zero, and the altered ones, one version ahead, with their updated content.
   */
  lemma MinimalEntries(original: ConfigGroup, updated: ConfigGroup, path: Path)
    ensures var s := SiteAt(original, updated, path);
            && Deltas(OrEmpty(s.rg).policies, OrEmpty(s.wg).policies)
              == Altered(OrEmpty(s.og).policies, OrEmpty(s.ug).policies)
            && Deltas(OrEmpty(s.rg).values, OrEmpty(s.wg).values) == Altered(OrEmpty(s.og).values, OrEmpty(s.ug).values)
  {
    hide GroupAt, ReadOf, WriteOf, SameContent, SameShape, GroupReads, GroupWrites, Deltas, Altered, Kept, SameEntries;
    var s := SiteAt(original, updated, path);
    SiteKinds(original, updated, path);
    var o, u, r, w := OrEmpty(s.og), OrEmpty(s.ug), OrEmpty(s.rg), OrEmpty(s.wg);
    if s.rg.Some? {
      var bumped := !SameShape(o, u);
      SetsByShape(o, u);
      DeltasOfWritten(o.policies, u.policies, bumped, NoPolicy);
      DeltasOfWritten(o.values, u.values, bumped, []);
    } else if s.wg.Some? {
      FreshDeltas(u);
    } else {
      NothingToDelta<PolicyBody>();
      NothingToDelta<Bytes>();
      NothingAlteredOnce(o, u);
    }
  }

  /** Which entries of a map are written as deltas, and how: new or with another modification policy or body. */
  lemma AlteredMeans<B>(o: map<string, Entry<B>>, u: map<string, Entry<B>>, k: string)
    ensures k in Altered(o, u) <==>
            k in u && (k !in o || o[k].modPolicy != u[k].modPolicy || o[k].body != u[k].body)
    ensures k in Altered(o, u) ==>
              Altered(o, u)[k] == Entry(if k in o then o[k].version + 1 else 0, u[k].modPolicy, u[k].body)
  {
  }

  lemma FreshDeltas(g: ConfigGroup)
    ensures Deltas(map[], Fresh(g).policies) == Altered(map[], g.policies)
    ensures Deltas(map[], Fresh(g).values) == Altered(map[], g.values)
  {
    hide Deltas, Altered;
    NewEntries(g.policies, Fresh(g).policies);
    NewEntries(g.values, Fresh(g).values);
  }

  lemma NewEntries<B>(m: map<string, Entry<B>>, zeroed: map<string, Entry<B>>)
    requires zeroed.Keys == m.Keys && forall k | k in m :: zeroed[k] == m[k].(version := 0)
    ensures Deltas(map[], zeroed) == Altered(map[], m)
  {
  }

  lemma NothingToDelta<B>()
    ensures Deltas<B>(map[], map[]) == map[]
  {
  }

  lemma NothingAlteredOnce(o: ConfigGroup, u: ConfigGroup)
    requires SameContent(o, u) || u == EMPTY_GROUP
    ensures Altered(o.policies, u.policies) == map[] && Altered(o.values, u.values) == map[]
  {
    if SameContent(o, u) {
      NothingAltered(o.policies, u.policies);
      NothingAltered(o.values, u.values);
    }
  }

  lemma DeltasOfWritten<B>(original: map<string, Entry<B>>, updated: map<string, Entry<B>>, bumped: bool, empty: B)
    ensures Deltas(EntryReads(original, updated, bumped, empty), EntryWrites(original, updated, bumped, empty))
         == Altered(original, updated)
  {
  }

  // ---- What is read ----

  ghost predicate BarePlaceholders<B>(o: map<string, Entry<B>>, r: map<string, Entry<B>>, empty: B) {
    forall k | k in r :: k in o && r[k] == Placeholder(o[k].version, empty)
  }

  /** Entries named by the write set that are no deltas are the same placeholders that were read. */
  ghost predicate OnlyReadsKept<B>(r: map<string, Entry<B>>, w: map<string, Entry<B>>) {
    && r.Keys <= w.Keys
    && forall k | k in w && !IsDelta(r, w, k) :: w[k] == r[k]
  }

  /** Whatever is read sits at the same path of the original, at the same version, without content. */
  lemma ReadsAreSound(original: ConfigGroup, updated: ConfigGroup, path: Path)
    requires GroupAt(ReadOf(original, updated), path).Some?
    ensures var s := SiteAt(original, updated, path);
            && s.og.Some? && s.wg.Some?
            && s.rg.value.version == s.og.value.version
            && s.rg.value.modPolicy == ""
            && BarePlaceholders(s.og.value.policies, s.rg.value.policies, NoPolicy)
            && BarePlaceholders(s.og.value.values, s.rg.value.values, [])
            && OnlyReadsKept(s.rg.value.policies, s.wg.value.policies)
            && OnlyReadsKept(s.rg.value.values, s.wg.value.values)
  {
    hide GroupReads, GroupWrites, SameContent, Fresh, GroupAt, ReadOf, WriteOf, SameShape, Altered, Kept,
         BarePlaceholders, OnlyReadsKept;
    SiteKinds(original, updated, path);
    var s := SiteAt(original, updated, path);
    var o, u := s.og.value, s.ug.value;
    SetsByShape(o, u);
    EntryReadsAreSound(o.policies, u.policies, NoPolicy);
    EntryReadsAreSound(o.values, u.values, []);
  }

  lemma EntryReadsAreSound<B>(o: map<string, Entry<B>>, u: map<string, Entry<B>>, empty: B)
    ensures BarePlaceholders(o, Kept(o, u, empty), empty)
            && OnlyReadsKept(Kept(o, u, empty), Altered(o, u) + Kept(o, u, empty))
    ensures BarePlaceholders(o, map[], empty) && OnlyReadsKept(map[], Altered(o, u))
  {
  }

  lemma {:induction false} PrefixPresent(g: ConfigGroup, path: Path, n: nat)
    requires n <= |path|
    requires GroupAt(g, path).Some?
    ensures GroupAt(g, path[..n]).Some?
    decreases path
  {
    if n == 0 {
    } else {
      assert path[..n][1..] == path[1..][..n - 1];
      PrefixPresent(g.groups[path[0]], path[1..], n - 1);
    }
  }

  /** Every group on the way to something written, if it existed before, is in the read set. */
  lemma AncestorsAreRead(original: ConfigGroup, updated: ConfigGroup, path: Path, n: nat)
    requires n <= |path|
    requires GroupAt(WriteOf(original, updated), path).Some?
    requires GroupAt(original, path[..n]).Some?
    ensures GroupAt(ReadOf(original, updated), path[..n]).Some?
  {
    PrefixPresent(WriteOf(original, updated), path, n);
    SiteKinds(original, updated, path[..n]);
  }
}
