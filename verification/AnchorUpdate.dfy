/** The channel update that sets the anchor peers of one organisation. */
module AnchorUpdate {
  import opened Outcomes
  import opened ConfigTree
  import opened ConfigUpdate
  import opened ConfigApply
  import opened ConfigDelta
  import opened AnchorPeers

  const APPLICATION := "Application"
  const ANCHOR_PEERS := "AnchorPeers"
  const MSP := "MSP"
  const ANCHOR_PEER_MOD_POLICY := "Admins"

  /** Marshalling, seen from outside: the name in an MSP value, and the bytes of a list of anchor peers. */
  datatype Codec = Codec(mspName: Bytes -> Option<string>,
                         encode: seq<AnchorPeer> -> Bytes,
                         decode: Bytes -> Option<seq<AnchorPeer>>)
  {
    ghost predicate Valid() {
      forall peers :: decode(encode(peers)) == Some(peers)
    }
  }

  datatype AnchorError = NoApplicationGroup | BadMsp | BadAnchorPeers | OrgNotFound | ComputeFailed(error: ComputeError)

  function MspName(c: Codec, org: ConfigGroup): Option<string> {
    if MSP in org.values then c.mspName(org.values[MSP].body) else None
  }

  /** Group gr of the application group is an organisation of the given name. */
  predicate IsOrg(c: Codec, conf: ConfigGroup, gr: string, mspId: string) {
    && APPLICATION in conf.groups
    && gr in conf.groups[APPLICATION].groups
    && MspName(c, conf.groups[APPLICATION].groups[gr]) == Some(mspId)
  }

  /** No two application groups carry this MSP name. */
  ghost predicate UniqueOrg(c: Codec, conf: ConfigGroup, mspId: string) {
    forall g, h :: IsOrg(c, conf, g, mspId) && IsOrg(c, conf, h, mspId) ==> g == h
  }

  /** The anchor peers recorded for an organisation; none when the value is missing. */
  function AnchorsOf(c: Codec, org: ConfigGroup): Option<seq<AnchorPeer>> {
    if ANCHOR_PEERS in org.values then c.decode(org.values[ANCHOR_PEERS].body) else Some([])
  }

  // ---- The updated configuration ----

  function AnchorValue(org: ConfigGroup, bytes: Bytes): ConfigValue {
    if ANCHOR_PEERS in org.values then org.values[ANCHOR_PEERS].(body := bytes)
    else Entry(0, ANCHOR_PEER_MOD_POLICY, bytes)
  }

  function WithAnchors(conf: ConfigGroup, gr: string, bytes: Bytes): ConfigGroup
    requires APPLICATION in conf.groups && gr in conf.groups[APPLICATION].groups
  {
    var app := conf.groups[APPLICATION];
    var org := app.groups[gr];
    var newOrg := org.(values := org.values[ANCHOR_PEERS := AnchorValue(org, bytes)]);
    conf.(groups := conf.groups[APPLICATION := app.(groups := app.groups[gr := newOrg])])
  }

  /**
    At every path but the organisation's own, the two configurations hold the same entries and the same member names.
   */
  lemma WithAnchorsAt(conf: ConfigGroup, gr: string, bytes: Bytes, path: Path)
    requires APPLICATION in conf.groups && gr in conf.groups[APPLICATION].groups
    ensures var o, u := GroupAt(conf, path), GroupAt(WithAnchors(conf, gr, bytes), path);
            && (o.Some? <==> u.Some?)
            && (path != [APPLICATION, gr] && o.Some? ==>
                  SameShape(o.value, u.value) && o.value.policies == u.value.policies
                    && o.value.values == u.value.values)
            && (path == [APPLICATION, gr] ==>
                  && o == Some(conf.groups[APPLICATION].groups[gr])
                  && u == Some(o.value.(values := o.value.values[ANCHOR_PEERS := AnchorValue(o.value, bytes)])))
  {
    var u := WithAnchors(conf, gr, bytes);
    if |path| >= 1 && path[0] in conf.groups {
      var c1, u1 := conf.groups[path[0]], u.groups[path[0]];
      assert GroupAt(conf, path) == GroupAt(c1, path[1..]) && GroupAt(u, path) == GroupAt(u1, path[1..]);
      if path[0] == APPLICATION && |path| >= 2 && path[1] in c1.groups {
        assert path[1..][0] == path[1];
        assert GroupAt(c1, path[1..]) == GroupAt(c1.groups[path[1]], path[1..][1..]);
        assert GroupAt(u1, path[1..]) == GroupAt(u1.groups[path[1]], path[1..][1..]);
        if path[1] == gr && |path| == 2 {
          assert path == [APPLICATION, gr];
        }
      }
    }
  }

  /** The bytes written differ from the recorded ones. */
  predicate Alters(org: ConfigGroup, bytes: Bytes) {
    ANCHOR_PEERS in org.values ==> org.values[ANCHOR_PEERS].body != bytes
  }

  lemma AltersContent(conf: ConfigGroup, gr: string, bytes: Bytes)
    requires APPLICATION in conf.groups && gr in conf.groups[APPLICATION].groups
    ensures SameContent(conf, WithAnchors(conf, gr, bytes)) <==> !Alters(conf.groups[APPLICATION].groups[gr], bytes)
  {
    var u := WithAnchors(conf, gr, bytes);
    var org := conf.groups[APPLICATION].groups[gr];
    if Alters(org, bytes) {
      if SameContent(conf, u) {
        WithAnchorsAt(conf, gr, bytes, [APPLICATION, gr]);
        SameContentAt(conf, u, [APPLICATION, gr]);
      }
    } else {
      SameContentReflexive(conf);
      SameContentReflexive(conf.groups[APPLICATION]);
      SameContentReflexive(org);
      assert org.values[ANCHOR_PEERS := AnchorValue(org, bytes)] == org.values;
      assert conf.groups[APPLICATION].groups[gr := org] == conf.groups[APPLICATION].groups;
      assert u.groups == conf.groups;
    }
  }

  /**
    The whole delta of an anchor peer update: the AnchorPeers value of the organisation, one version
    ahead of the recorded one; or, if there was none, that value at version zero and the organisation group.
   */
  lemma AnchorDelta(conf: ConfigGroup, gr: string, bytes: Bytes, path: Path)
    requires APPLICATION in conf.groups && gr in conf.groups[APPLICATION].groups
    requires Alters(conf.groups[APPLICATION].groups[gr], bytes)
    ensures var org := conf.groups[APPLICATION].groups[gr];
            var s := SiteAt(conf, WithAnchors(conf, gr, bytes), path);
            && Deltas(OrEmpty(s.rg).policies, OrEmpty(s.wg).policies) == map[]
            && Deltas(OrEmpty(s.rg).values, OrEmpty(s.wg).values)
            == (if path != [APPLICATION, gr] then map[]
                else if ANCHOR_PEERS in org.values then
                  map[ANCHOR_PEERS := Entry(org.values[ANCHOR_PEERS].version + 1,
                                            org.values[ANCHOR_PEERS].modPolicy, bytes)]
                else map[ANCHOR_PEERS := Entry(0, ANCHOR_PEER_MOD_POLICY, bytes)])
            && (s.wg.Some? && IsGroupDelta(s.rg, s.wg.value)
                <==> path == [APPLICATION, gr] && ANCHOR_PEERS !in org.values)
  {
    hide ReadOf, WriteOf, Deltas, SameContent, WithAnchors, SameShape, Alters, GroupAt, Altered;
    var u := WithAnchors(conf, gr, bytes);
    MinimalEntries(conf, u, path);
    MinimalGroups(conf, u, path);
    WithAnchorsAltered(conf, gr, bytes, path);
  }

  /**
    The edit alters no policy, the one value, and the shape of the organisation's group only if the value was absent.
   */
  lemma WithAnchorsAltered(conf: ConfigGroup, gr: string, bytes: Bytes, path: Path)
    requires APPLICATION in conf.groups && gr in conf.groups[APPLICATION].groups
    requires Alters(conf.groups[APPLICATION].groups[gr], bytes)
    ensures var org := conf.groups[APPLICATION].groups[gr];
            var o, u := GroupAt(conf, path), GroupAt(WithAnchors(conf, gr, bytes), path);
            && Altered(OrEmpty(o).policies, OrEmpty(u).policies) == map[]
            && Altered(OrEmpty(o).values, OrEmpty(u).values)
            == (if path != [APPLICATION, gr] then map[]
                else if ANCHOR_PEERS in org.values then
                  map[ANCHOR_PEERS := Entry(org.values[ANCHOR_PEERS].version + 1,
                                            org.values[ANCHOR_PEERS].modPolicy, bytes)]
                else map[ANCHOR_PEERS := Entry(0, ANCHOR_PEER_MOD_POLICY, bytes)])
            && (u.Some? && (o.None? || !SameShape(o.value, u.value))
                <==> path == [APPLICATION, gr] && ANCHOR_PEERS !in org.values)
  {
    hide WithAnchors, GroupAt;
    WithAnchorsAt(conf, gr, bytes, path);
    var o, n := OrEmpty(GroupAt(conf, path)), OrEmpty(GroupAt(WithAnchors(conf, gr, bytes), path));
    NothingAltered(o.policies, n.policies);
    if path != [APPLICATION, gr] {
      NothingAltered(o.values, n.values);
    }
  }

  // ---- The operations ----

  /** What each error says about the configuration. */
  ghost predicate Justified(c: Codec, conf: ConfigGroup, mspId: string, e: AnchorError) {
    match e
    case NoApplicationGroup => APPLICATION !in conf.groups
    case BadMsp => APPLICATION in conf.groups && exists gr | gr in conf.groups[APPLICATION].groups ::
      MspName(c, conf.groups[APPLICATION].groups[gr]).None?
    case BadAnchorPeers => exists gr ::
      IsOrg(c, conf, gr, mspId) && AnchorsOf(c, conf.groups[APPLICATION].groups[gr]).None?
    case OrgNotFound => forall gr :: !IsOrg(c, conf, gr, mspId)
    case ComputeFailed(_) => false
  }

  /** The anchor peers of some organisation of that name. */
  ghost predicate AnchorsFor(c: Codec, conf: ConfigGroup, mspId: string, gr: string, peers: seq<AnchorPeer>) {
    IsOrg(c, conf, gr, mspId) && AnchorsOf(c, conf.groups[APPLICATION].groups[gr]) == Some(peers)
  }

  /** The sets that replace the anchor peers of group gr, an organisation of that name, by the requested ones. */
  ghost predicate UpdateFor(c: Codec, conf: ConfigGroup, mspId: string, request: seq<AnchorPeer>, gr: string,
                            upd: ConfigUpdate) {
    && IsOrg(c, conf, gr, mspId)
    && Alters(conf.groups[APPLICATION].groups[gr], c.encode(request))
    && var wanted := WithAnchors(conf, gr, c.encode(request));
       upd == ConfigUpdate(ReadOf(conf, wanted), WriteOf(conf, wanted))
  }

  // The same on the tree and the codec alone, where the organisation is the only one of its name.

  /** Every application group has an MSP value that can be read. */
  ghost predicate Readable(c: Codec, conf: ConfigGroup) {
    && APPLICATION in conf.groups
    && forall g | g in conf.groups[APPLICATION].groups ::
      var values := conf.groups[APPLICATION].groups[g].values; MSP in values && c.mspName(values[MSP].body).Some?
  }

  /** Application group gr has this MSP name, and no other has. */
  ghost predicate OnlyOrg(c: Codec, conf: ConfigGroup, gr: string, mspId: string) {
    && Readable(c, conf)
    && gr in conf.groups[APPLICATION].groups
    && forall g | g in conf.groups[APPLICATION].groups ::
      c.mspName(conf.groups[APPLICATION].groups[g].values[MSP].body) == Some(mspId) <==> g == gr
  }

  /** The list that is recorded for the organisation: none is an empty one. */
  ghost predicate Records(c: Codec, conf: ConfigGroup, gr: string, peers: seq<AnchorPeer>) {
    && APPLICATION in conf.groups && gr in conf.groups[APPLICATION].groups
    && var values := conf.groups[APPLICATION].groups[gr].values;
       if ANCHOR_PEERS in values then c.decode(values[ANCHOR_PEERS].body) == Some(peers) else peers == []
  }

  /** A list is recorded that cannot be read. */
  ghost predicate Unreadable(c: Codec, conf: ConfigGroup, gr: string) {
    && APPLICATION in conf.groups && gr in conf.groups[APPLICATION].groups
    && var values := conf.groups[APPLICATION].groups[gr].values;
       ANCHOR_PEERS in values && c.decode(values[ANCHOR_PEERS].body) == None
  }

  /** No application group has this MSP name. */
  ghost predicate NoOrg(c: Codec, conf: ConfigGroup, mspId: string) {
    && Readable(c, conf)
    && forall g | g in conf.groups[APPLICATION].groups ::
      c.mspName(conf.groups[APPLICATION].groups[g].values[MSP].body) != Some(mspId)
  }

  /** No list is recorded for the organisation. */
  ghost predicate NothingRecorded(c: Codec, conf: ConfigGroup, gr: string) {
    && APPLICATION in conf.groups && gr in conf.groups[APPLICATION].groups
    && ANCHOR_PEERS !in conf.groups[APPLICATION].groups[gr].values
  }

  method GetAnchorPeerConfig(c: Codec, conf: ConfigGroup, mspId: string)
    returns (r: Result<seq<AnchorPeer>, AnchorError>)
    ensures r.Ok? ==> exists gr :: AnchorsFor(c, conf, mspId, gr, r.value)
    ensures r.Err? ==> Justified(c, conf, mspId, r.error)
    ensures APPLICATION !in conf.groups <==> r == Err(NoApplicationGroup)
    ensures forall gr, peers | OnlyOrg(c, conf, gr, mspId) && Records(c, conf, gr, peers) :: r == Ok(peers)
    ensures forall gr | OnlyOrg(c, conf, gr, mspId) :: r == Err(BadAnchorPeers) <==> Unreadable(c, conf, gr)
    ensures forall gr | OnlyOrg(c, conf, gr, mspId) && NothingRecorded(c, conf, gr) :: r == Ok([])
    ensures NoOrg(c, conf, mspId) ==> r == Err(OrgNotFound)
  {
    if APPLICATION !in conf.groups {
      return Err(NoApplicationGroup);
    }
    var orgs := conf.groups[APPLICATION].groups;
    var todo := orgs.Keys;
    while todo != {}
      invariant todo <= orgs.Keys
      invariant forall gr | gr in orgs && gr !in todo :: !IsOrg(c, conf, gr, mspId)
      decreases todo
    {
      var gr :| gr in todo;
      todo := todo - {gr};
      var name := MspName(c, orgs[gr]);
      if name == None {
        return Err(BadMsp);
      }
      if name.value == mspId {
        if ANCHOR_PEERS !in orgs[gr].values {
          assert AnchorsFor(c, conf, mspId, gr, []);
          return Ok([]);
        }
        var peers := c.decode(orgs[gr].values[ANCHOR_PEERS].body);
        if peers == None {
          return Err(BadAnchorPeers);
        }
        assert AnchorsFor(c, conf, mspId, gr, peers.value);
        return Ok(peers.value);
      }
    }
    return Err(OrgNotFound);
  }

  /** The update for some organisation of the given name; with none of that name, no difference is found. */
  method CreateAnchorPeerUpdate(c: Codec, conf: ConfigGroup, mspId: string, request: seq<AnchorPeer>)
    returns (r: Result<ConfigUpdate, AnchorError>)
    ensures r.Ok? ==> exists gr :: UpdateFor(c, conf, mspId, request, gr, r.value)
    ensures r == Err(ComputeFailed(NoDifferences)) ==>
      || (forall gr :: !IsOrg(c, conf, gr, mspId))
      || (exists gr :: IsOrg(c, conf, gr, mspId) && !Alters(conf.groups[APPLICATION].groups[gr], c.encode(request)))
    ensures r.Err? && r != Err(ComputeFailed(NoDifferences)) ==> Justified(c, conf, mspId, r.error)
    ensures NoOrg(c, conf, mspId) ==> r == Err(ComputeFailed(NoDifferences))
    ensures forall gr | OnlyOrg(c, conf, gr, mspId) ::
              var values := conf.groups[APPLICATION].groups[gr].values;
              if ANCHOR_PEERS in values && values[ANCHOR_PEERS].body == c.encode(request)
              then r == Err(ComputeFailed(NoDifferences))
              else r.Ok? && UpdateFor(c, conf, mspId, request, gr, r.value)
  {
    if APPLICATION !in conf.groups {
      return Err(NoApplicationGroup);
    }
    var newConf := conf;
    var orgs := conf.groups[APPLICATION].groups;
    var todo := orgs.Keys;
    ghost var target: Option<string> := None;
    while todo != {}
      invariant todo <= orgs.Keys
      invariant newConf == conf && target == None
      invariant forall gr | gr in orgs && gr !in todo :: !IsOrg(c, conf, gr, mspId)
      decreases todo
    {
      var gr :| gr in todo;
      todo := todo - {gr};
      var name := MspName(c, orgs[gr]);
      if name == None {
        return Err(BadMsp);
      }
      if name.value == mspId {
        newConf := WithAnchors(conf, gr, c.encode(request));
        target := Some(gr);
        break;
      }
    }
    var upd := Compute(Config(Some(conf)), Config(Some(newConf)));
    if target.Some? {
      assert IsOrg(c, conf, target.value, mspId);
      AltersContent(conf, target.value, c.encode(request));
    } else {
      SameContentReflexive(conf);
    }
    match upd {
      case Ok(u) =>
        assert UpdateFor(c, conf, mspId, request, target.value, u);
        return Ok(u);
      case Err(e) => return Err(ComputeFailed(e));
    }
  }

  datatype ModifyStats = ModifyStats(newPeers: seq<AnchorPeer>, existed: seq<AnchorPeer>, deleted: seq<AnchorPeer>)

  /** The three lists, and an update exactly when the request is no permutation of the current list. */
  ghost predicate Reported(current: seq<AnchorPeer>, request: seq<AnchorPeer>, stats: ModifyStats, submitted: bool) {
    && stats == ModifyStats(Surplus(request, current), Matched(current, request), Surplus(current, request))
    && (submitted <==> multiset(current) != multiset(request))
  }

  lemma ReportIs(current: seq<AnchorPeer>, request: seq<AnchorPeer>, stats: ModifyStats)
    requires stats == ModifyStats(Surplus(request, current), Matched(current, request), Surplus(current, request))
    ensures Reported(current, request, stats, |stats.newPeers| != 0 || |stats.deleted| != 0)
  {
    hide Surplus, Matched;
    NothingLeftIffPermutation(current, request);
  }

  /** With nothing recorded, the whole request is new, and an update is due unless it is empty. */
  lemma FirstAnchors(request: seq<AnchorPeer>, stats: ModifyStats, submitted: bool)
    requires Reported([], request, stats, submitted)
    ensures stats == ModifyStats(request, [], [])
    ensures submitted <==> request != []
  {
    SurplusOverNothing(request);
    NothingYet(request);
    assert multiset(request) == multiset{} ==> |multiset(request)| == 0;
  }

  lemma NotThePermutation(current: seq<AnchorPeer>, request: seq<AnchorPeer>, stats: ModifyStats)
    requires Reported(current, request, stats, true)
    ensures current != request
  {
  }

  /** The update that has to be submitted, if any, with the lists that are reported to the caller. */
  method ConfigAnchorModify(c: Codec, conf: ConfigGroup, mspId: string, request: array<AnchorPeer>)
    returns (r: Result<(ModifyStats, Option<ConfigUpdate>), AnchorError>)
    requires c.Valid()
    ensures r.Ok? ==> exists gr, current ::
      AnchorsFor(c, conf, mspId, gr, current) && Reported(current, request[..], r.value.0, r.value.1.Some?)
    ensures r.Ok? && r.value.1.Some? ==> exists gr :: UpdateFor(c, conf, mspId, request[..], gr, r.value.1.value)
    ensures r.Err? && r != Err(ComputeFailed(NoDifferences)) ==> Justified(c, conf, mspId, r.error)
    ensures r == Err(ComputeFailed(NoDifferences)) ==> !UniqueOrg(c, conf, mspId)
    ensures forall gr, current | OnlyOrg(c, conf, gr, mspId) && Records(c, conf, gr, current) ::
              && r.Ok? && Reported(current, request[..], r.value.0, r.value.1.Some?)
              && (r.value.1.Some? ==> UpdateFor(c, conf, mspId, request[..], gr, r.value.1.value))
    ensures forall gr | OnlyOrg(c, conf, gr, mspId) :: r == Err(BadAnchorPeers) <==> Unreadable(c, conf, gr)
    ensures forall gr | OnlyOrg(c, conf, gr, mspId) && NothingRecorded(c, conf, gr) && request.Length > 0 ::
              r.Ok? && r.value.0 == ModifyStats(request[..], [], []) && r.value.1.Some?
  {
    hide SameContent, ReadOf, WriteOf, Surplus, Matched, Reported, UpdateFor, WithAnchors;
    var anchors := GetAnchorPeerConfig(c, conf, mspId);
    if anchors.Err? {
      return Err(anchors.error);
    }
    ghost var org :| AnchorsFor(c, conf, mspId, org, anchors.value);
    var current := new AnchorPeer[|anchors.value|](i requires 0 <= i < |anchors.value| => anchors.value[i]);
    assert current[..] == anchors.value;
    var existed, newPeers, deleted := GetAnchorPeerModifyStats(current, request);
    var stats := ModifyStats(newPeers, existed, deleted);
    ReportIs(anchors.value, request[..], stats);
    if anchors.value == [] {
      FirstAnchors(request[..], stats, |newPeers| != 0 || |deleted| != 0);
    }
    if |newPeers| == 0 && |deleted| == 0 {
      return Ok((stats, None));
    }
    NotThePermutation(anchors.value, request[..], stats);
    var upd := CreateAnchorPeerUpdate(c, conf, mspId, request[..]);
    if upd.Err? {
      return Err(upd.error);
    }
    return Ok((stats, Some(upd.value)));
  }
}
