/** Merging the Artifact observations of many exports into one version chain per Artifact. */
module ArtifactReconciliation {
  import opened Common
  import opened Ordered
  import opened ArtifactLineage

  type ArtifactId = nat

  /** The fields that may never change under one provider id. */
  datatype Identity = Identity(artifactType: nat, project: Option<nat>, conversation: Option<nat>, message: Option<nat>)

  /** One observation; `display` stands for the title, language, location and raw record. */
  datatype Artifact = Artifact(id: ArtifactId, identity: Identity, display: nat, versions: seq<Version>)

  /** A reconciled Artifact: identity and display of its first observation, versions as they came. */
  datatype Merged = Merged(identity: Identity, display: nat, versions: seq<Version>)

  datatype MergeError =
    | IdentityConflict(artifact: ArtifactId)
    | VersionConflict(artifact: ArtifactId, version: VersionId)
    | Lineage(artifact: ArtifactId, lineage: LineageError)

  function Find(held: seq<Version>, id: VersionId): (found: Option<Version>)
    ensures found.Some? ==> found.value in held && found.value.id == id
    ensures found.None? ==> id !in Ids(held)
  {
    if held == [] then None
    else if held[0].id == id then Some(held[0])
    else Find(held[1..], id)
  }

  function MergeVersions(held: seq<Version>, incoming: seq<Version>): (r: Result<seq<Version>, VersionId>)
    decreases |incoming|
  {
    if incoming == [] then Ok(held)
    else
      var last := |incoming| - 1;
      match MergeVersions(held, incoming[..last])
      case Err(id) => Err(id)
      case Ok(sofar) => AddVersion(sofar, incoming[last])
  }

  function AddVersion(held: seq<Version>, candidate: Version): (r: Result<seq<Version>, VersionId>) {
    match Find(held, candidate.id)
    case Some(existing) => if existing != candidate then Err(candidate.id) else Ok(held)
    case None => Ok(held + [candidate])
  }

  function MergeOne(merged: map<ArtifactId, Merged>, a: Artifact): (r: Result<map<ArtifactId, Merged>, MergeError>) {
    var known := if a.id in merged then merged[a.id] else Merged(a.identity, a.display, []);
    if known.identity != a.identity then Err(IdentityConflict(a.id))
    else
      match MergeVersions(known.versions, a.versions)
      case Err(v) => Err(VersionConflict(a.id, v))
      case Ok(versions) => Ok(merged[a.id := known.(versions := versions)])
  }

  function MergeAll(artifacts: seq<Artifact>): (r: Result<map<ArtifactId, Merged>, MergeError>) {
    if artifacts == [] then Ok(map[])
    else
      var last := |artifacts| - 1;
      match MergeAll(artifacts[..last])
      case Err(e) => Err(e)
      case Ok(merged) => MergeOne(merged, artifacts[last])
  }

  function ToMap(held: seq<Version>): (m: Versions) {
    map v | v in Elements(held) && Find(held, v.id) == Some(v) :: v.id := v
  }

  type Orders = map<ArtifactId, Result<seq<Version>, LineageError>>

  /** How the versions of each Artifact order. */
  function OrdersOf(merged: map<ArtifactId, Merged>): Orders {
    map id | id in merged :: Order(ToMap(merged[id].versions))
  }

  /** The chain of every Artifact in `ids`, or the first lineage error in their order. */
  function Chains(orders: Orders, ids: seq<ArtifactId>): (r: Result<map<ArtifactId, seq<Version>>, MergeError>)
    requires forall id | id in ids :: id in orders
  {
    if ids == [] then Ok(map[])
    else
      var last := ids[|ids| - 1];
      match Chains(orders, ids[..|ids| - 1])
      case Err(e) => Err(e)
      case Ok(chains) =>
        match orders[last]
        case Err(e) => Err(Lineage(last, e))
        case Ok(chain) => Ok(chains[last := chain])
  }

  lemma SortedWithin(s: set<nat>)
    ensures forall id | id in Sorted(s) :: id in s
    ensures forall id | id in s :: id in Sorted(s)
  {
    assert forall id :: id in Sorted(s) <==> id in Elements(Sorted(s));
  }

  function Reconcile(artifacts: seq<Artifact>): (r: Result<map<ArtifactId, seq<Version>>, MergeError>) {
    match MergeAll(artifacts)
    case Err(e) => Err(e)
    case Ok(merged) =>
      SortedWithin(merged.Keys);
      Chains(OrdersOf(merged), Sorted(merged.Keys))
  }

  // ---- What merging means, without an order -----------------------------------------------------

  ghost function ObservedVersions(artifacts: seq<Artifact>, id: ArtifactId): set<Version> {
    set a, v | a in artifacts && a.id == id && v in a.versions :: v
  }

  ghost function ObservedIds(artifacts: seq<Artifact>): set<ArtifactId> {
    set a | a in artifacts :: a.id
  }

  /** No two of these versions share an id and differ. */
  ghost predicate Agree(vs: set<Version>) {
    forall v, w | v in vs && w in vs && v.id == w.id :: v == w
  }

  ghost predicate SameIdentities(artifacts: seq<Artifact>) {
    forall a, b | a in artifacts && b in artifacts && a.id == b.id :: a.identity == b.identity
  }

  /** No two observations of one Artifact disagree on its identity or on a version they share. */
  ghost predicate Consistent(artifacts: seq<Artifact>) {
    SameIdentities(artifacts) && forall id :: Agree(ObservedVersions(artifacts, id))
  }

  lemma AddVersionMeaning(held: seq<Version>, candidate: Version)
    requires Agree(Elements(held))
    ensures
      var r := AddVersion(held, candidate);
      var all := Elements(held) + {candidate};
      && (r.Ok? <==> Agree(all))
      && (r.Ok? ==> Elements(r.value) == all)
  {
    match Find(held, candidate.id)
    case Some(existing) => assert existing in Elements(held);
    case None =>
      forall v | v in Elements(held) ensures v.id != candidate.id { assert v.id in Ids(held); }
      assert Elements(held + [candidate]) == Elements(held) + {candidate};
  }

  lemma {:induction false} MergeVersionsMeaning(held: seq<Version>, incoming: seq<Version>)
    requires Agree(Elements(held))
    ensures
      var r := MergeVersions(held, incoming);
      var all := Elements(held) + Elements(incoming);
      && (r.Ok? <==> Agree(all))
      && (r.Ok? ==> Elements(r.value) == all)
    decreases |incoming|
  {
    if incoming != [] {
      var front, candidate := incoming[..|incoming| - 1], incoming[|incoming| - 1];
      assert incoming == front + [candidate];
      var sofar := Elements(held) + Elements(front);
      MergeVersionsMeaning(held, front);
      assert Elements(held) + Elements(incoming) == sofar + {candidate};
      if MergeVersions(held, front).Ok? {
        AddVersionMeaning(MergeVersions(held, front).value, candidate);
      }
    }
  }

  /** What the merged map says about `artifacts`: their ids, their identities and their versions. */
  ghost predicate Describes(merged: map<ArtifactId, Merged>, artifacts: seq<Artifact>) {
    && merged.Keys == ObservedIds(artifacts)
    && (forall a | a in artifacts :: a.id in merged && merged[a.id].identity == a.identity)
    && (forall id | id in merged :: Elements(merged[id].versions) == ObservedVersions(artifacts, id))
  }

  lemma ObservedAppend(front: seq<Artifact>, last: Artifact)
    ensures forall id :: ObservedVersions(front + [last], id) ==
                         ObservedVersions(front, id) + if last.id == id then Elements(last.versions) else {}
    ensures ObservedIds(front + [last]) == ObservedIds(front) + {last.id}
  {
    var all := front + [last];
    forall id
      ensures ObservedVersions(all, id) ==
                ObservedVersions(front, id) + if last.id == id then Elements(last.versions) else {}
    {
      assert forall a :: a in all <==> a in front || a == last;
      assert last.id == id ==> forall v | v in last.versions :: v in ObservedVersions(all, id);
    }
  }

  lemma UnobservedIsEmpty(artifacts: seq<Artifact>, id: ArtifactId)
    requires id !in ObservedIds(artifacts)
    ensures ObservedVersions(artifacts, id) == {}
  {
    assert forall a | a in artifacts :: a.id in ObservedIds(artifacts);
  }

  lemma ConsistentAppend(merged: map<ArtifactId, Merged>, front: seq<Artifact>, last: Artifact)
    requires Consistent(front) && Describes(merged, front)
    ensures Consistent(front + [last]) <==>
              && (last.id in merged ==> merged[last.id].identity == last.identity)
              && Agree(ObservedVersions(front, last.id) + Elements(last.versions))
  {
    ObservedAppend(front, last);
    SameIdentitiesAppend(merged, front, last);
    var all := front + [last];
    assert forall id | id != last.id :: ObservedVersions(all, id) == ObservedVersions(front, id) + {};
    assert forall id | id != last.id :: ObservedVersions(all, id) == ObservedVersions(front, id);
  }

  lemma SameIdentitiesAppend(merged: map<ArtifactId, Merged>, front: seq<Artifact>, last: Artifact)
    requires SameIdentities(front) && Describes(merged, front)
    ensures SameIdentities(front + [last]) <==> (last.id in merged ==> merged[last.id].identity == last.identity)
  {
    var all := front + [last];
    assert forall a :: a in all <==> a in front || a == last;
    if last.id in merged {
      var b :| b in front && b.id == last.id;
      assert merged[b.id].identity == b.identity;
    } else {
      assert forall a | a in front :: a.id != last.id;
    }
  }

  lemma MergeOneMeaning(merged: map<ArtifactId, Merged>, front: seq<Artifact>, last: Artifact)
    requires Consistent(front) && Describes(merged, front)
    ensures
      var r := MergeOne(merged, last);
      && (r.Ok? <==> Consistent(front + [last]))
      && (r.Ok? ==> Describes(r.value, front + [last]))
  {
    ConsistentAppend(merged, front, last);
    var known := if last.id in merged then merged[last.id] else Merged(last.identity, last.display, []);
    assert Elements(known.versions) == ObservedVersions(front, last.id) by {
      if last.id !in merged { UnobservedIsEmpty(front, last.id); }
    }
    MergeVersionsMeaning(known.versions, last.versions);
    var r := MergeOne(merged, last);
    if r.Ok? {
      MergedDescribes(merged, front, last, r.value[last.id]);
    }
  }

  lemma MergedDescribes(merged: map<ArtifactId, Merged>, front: seq<Artifact>, last: Artifact, known: Merged)
    requires Describes(merged, front) && known.identity == last.identity
    requires last.id in merged ==> merged[last.id].identity == last.identity
    requires Elements(known.versions) == ObservedVersions(front, last.id) + Elements(last.versions)
    ensures Describes(merged[last.id := known], front + [last])
  {
    ObservedAppend(front, last);
    var more, all := merged[last.id := known], front + [last];
    forall a | a in all ensures a.id in more && more[a.id].identity == a.identity {
      assert a in front || a == last;
    }
    forall id | id in more ensures Elements(more[id].versions) == ObservedVersions(all, id) {
      assert id != last.id ==> ObservedVersions(all, id) == ObservedVersions(front, id) + {};
    }
  }

  lemma PrefixConsistent(front: seq<Artifact>, last: Artifact)
    requires Consistent(front + [last])
    ensures Consistent(front)
  {
    ObservedAppend(front, last);
    var all := front + [last];
    assert forall a | a in front :: a in all;
    forall id ensures Agree(ObservedVersions(front, id)) {
      assert Agree(ObservedVersions(all, id)) && ObservedVersions(front, id) <= ObservedVersions(all, id);
    }
  }

  lemma {:induction false} MergeMeaning(artifacts: seq<Artifact>)
    ensures MergeAll(artifacts).Ok? <==> Consistent(artifacts)
    ensures MergeAll(artifacts).Ok? ==> Describes(MergeAll(artifacts).value, artifacts)
  {
    if artifacts != [] {
      var front, last := artifacts[..|artifacts| - 1], artifacts[|artifacts| - 1];
      assert artifacts == front + [last];
      MergeMeaning(front);
      if Consistent(artifacts) { PrefixConsistent(front, last); }
      if MergeAll(front).Ok? {
        MergeOneMeaning(MergeAll(front).value, front, last);
      }
    }
  }

  lemma ToMapMeaning(held: seq<Version>)
    requires Agree(Elements(held))
    ensures Keyed(ToMap(held))
    ensures ToMap(held) == map v | v in Elements(held) :: v.id := v
  {
    forall v | v in Elements(held) ensures Find(held, v.id) == Some(v) {
      assert v.id in Ids(held);
      assert Find(held, v.id).value in Elements(held);
    }
  }

  lemma SameVersionsSameMap(one: seq<Version>, other: seq<Version>)
    requires Agree(Elements(one)) && Elements(one) == Elements(other)
    ensures ToMap(one) == ToMap(other)
  {
    ToMapMeaning(one);
    ToMapMeaning(other);
  }

  lemma SameObservations(one: seq<Artifact>, other: seq<Artifact>)
    requires Elements(one) == Elements(other)
    ensures forall id :: ObservedVersions(one, id) == ObservedVersions(other, id)
    ensures ObservedIds(one) == ObservedIds(other)
    ensures Consistent(one) <==> Consistent(other)
  {
    forall a ensures a in one <==> a in other {
      assert a in one <==> a in Elements(one);
      assert a in other <==> a in Elements(other);
    }
    forall id ensures ObservedVersions(one, id) == ObservedVersions(other, id) {}
    assert SameIdentities(one) <==> SameIdentities(other);
  }

  /**
   * Reconciliation depends on which observations there are and on nothing else: whether it
   * succeeds, and every version chain, is the same for any order and any repetition of them.
   */
  lemma OrderAndRepetitionDoNotMatter(one: seq<Artifact>, other: seq<Artifact>)
    requires Elements(one) == Elements(other)
    ensures Reconcile(one).Ok? <==> Reconcile(other).Ok?
    ensures Reconcile(one).Ok? ==> Reconcile(one) == Reconcile(other)
  {
    MergeMeaning(one);
    MergeMeaning(other);
    SameObservations(one, other);
    if Consistent(one) {
      var m, n := MergeAll(one).value, MergeAll(other).value;
      forall id | id in m ensures ToMap(m[id].versions) == ToMap(n[id].versions) {
        assert Agree(ObservedVersions(one, id));
        SameVersionsSameMap(m[id].versions, n[id].versions);
      }
      assert OrdersOf(m) == OrdersOf(n);
    }
  }

  /** Reconciling the same observations twice over is reconciling them once. */
  lemma TwiceIsOnce(artifacts: seq<Artifact>)
    ensures Reconcile(artifacts).Ok? <==> Reconcile(artifacts + artifacts).Ok?
    ensures Reconcile(artifacts).Ok? ==> Reconcile(artifacts + artifacts) == Reconcile(artifacts)
  {
    assert Elements(artifacts + artifacts) == Elements(artifacts);
    OrderAndRepetitionDoNotMatter(artifacts, artifacts + artifacts);
  }

  /** `chains` gives each of `ids` its order. */
  ghost predicate ChainsOf(orders: Orders, ids: seq<ArtifactId>, chains: map<ArtifactId, seq<Version>>)
    requires forall id | id in ids :: id in orders
  {
    chains.Keys == Elements(ids) && forall id | id in ids :: id in chains && orders[id] == Ok(chains[id])
  }

  lemma {:induction false} ChainsMeaning(orders: Orders, ids: seq<ArtifactId>)
    requires forall id | id in ids :: id in orders
    ensures Chains(orders, ids).Ok? <==> forall id | id in ids :: orders[id].Ok?
    ensures Chains(orders, ids).Ok? ==> ChainsOf(orders, ids, Chains(orders, ids).value)
  {
    if ids != [] {
      var front, last := ids[..|ids| - 1], ids[|ids| - 1];
      assert ids == front + [last];
      ChainsMeaning(orders, front);
      assert Elements(ids) == Elements(front) + {last};
    }
  }

  /** The observed versions of one Artifact, by id. */
  ghost function VersionsOf(artifacts: seq<Artifact>, id: ArtifactId): Versions
    requires Consistent(artifacts)
  {
    assert Agree(ObservedVersions(artifacts, id));
    map v | v in ObservedVersions(artifacts, id) :: v.id := v
  }

  /** `chain` lists the observed versions of `id`, each once, predecessors first. */
  ghost predicate ChainOf(artifacts: seq<Artifact>, id: ArtifactId, chain: seq<Version>)
    requires Consistent(artifacts)
  {
    && Elements(chain) == ObservedVersions(artifacts, id)
    && ArtifactLineage.Lineage(VersionsOf(artifacts, id), chain)
  }

  lemma HeldVersions(artifacts: seq<Artifact>, id: ArtifactId, held: seq<Version>)
    requires Consistent(artifacts) && Elements(held) == ObservedVersions(artifacts, id)
    ensures ToMap(held) == VersionsOf(artifacts, id) && Keyed(ToMap(held))
  {
    assert Agree(ObservedVersions(artifacts, id));
    ToMapMeaning(held);
  }

  lemma OneChainMeaning(artifacts: seq<Artifact>, id: ArtifactId, versions: Versions)
    requires Consistent(artifacts) && versions == VersionsOf(artifacts, id) && Keyed(versions)
    requires Order(versions).Ok?
    ensures ChainOf(artifacts, id, Order(versions).value)
  {
    OrderMeaning(versions);
    ListsObserved(artifacts, id, Order(versions).value);
  }

  lemma ListsObserved(artifacts: seq<Artifact>, id: ArtifactId, chain: seq<Version>)
    requires Consistent(artifacts)
    requires ArtifactLineage.Lineage(VersionsOf(artifacts, id), chain)
    requires Ids(chain) == VersionsOf(artifacts, id).Keys
    ensures ChainOf(artifacts, id, chain)
  {
    assert Agree(ObservedVersions(artifacts, id));
    ChainElements(ObservedVersions(artifacts, id), VersionsOf(artifacts, id), chain);
  }

  /**
   * Success and result in terms of the observations alone: they agree, and every Artifact's
   * versions have their predecessors and no cycle; each chain then lists exactly those versions,
   * predecessors first.
   */
  lemma ReconcileMeaning(artifacts: seq<Artifact>)
    ensures Reconcile(artifacts).Ok? <==>
              && Consistent(artifacts)
              && forall id | id in ObservedIds(artifacts) ::
                   PredecessorsPresent(VersionsOf(artifacts, id)) && Acyclic(VersionsOf(artifacts, id))
    ensures Reconcile(artifacts).Ok? ==>
              && Consistent(artifacts) && Reconcile(artifacts).value.Keys == ObservedIds(artifacts)
              && forall id | id in ObservedIds(artifacts) :: ChainOf(artifacts, id, Reconcile(artifacts).value[id])
  {
    MergeMeaning(artifacts);
    if Consistent(artifacts) {
      var merged := MergeAll(artifacts).value;
      SortedWithin(merged.Keys);
      ChainsMeaning(OrdersOf(merged), Sorted(merged.Keys));
      forall id | id in merged
        ensures OrdersOf(merged)[id].Ok? <==>
                  PredecessorsPresent(VersionsOf(artifacts, id)) && Acyclic(VersionsOf(artifacts, id))
        ensures OrdersOf(merged)[id].Ok? ==> ChainOf(artifacts, id, OrdersOf(merged)[id].value)
      {
        OneOrderMeaning(artifacts, merged, id);
      }
    }
  }

  lemma OneOrderMeaning(artifacts: seq<Artifact>, merged: map<ArtifactId, Merged>, id: ArtifactId)
    requires Consistent(artifacts) && Describes(merged, artifacts) && id in merged
    ensures OrdersOf(merged)[id].Ok? <==>
              PredecessorsPresent(VersionsOf(artifacts, id)) && Acyclic(VersionsOf(artifacts, id))
    ensures OrdersOf(merged)[id].Ok? ==> ChainOf(artifacts, id, OrdersOf(merged)[id].value)
  {
    HeldVersions(artifacts, id, merged[id].versions);
    OrderMeaning(ToMap(merged[id].versions));
    if OrdersOf(merged)[id].Ok? { OneChainMeaning(artifacts, id, ToMap(merged[id].versions)); }
  }

  lemma ChainElements(vs: set<Version>, versions: Versions, chain: seq<Version>)
    requires Agree(vs) && versions == map v | v in vs :: v.id := v
    requires ArtifactLineage.Lineage(versions, chain) && Ids(chain) == versions.Keys
    ensures Elements(chain) == vs
  {
    forall v | v in vs ensures v in Elements(chain) {
      var i := Position(chain, v.id);
      assert chain[i] in chain;
    }
    forall v | v in Elements(chain) ensures v in vs {
      var i :| 0 <= i < |chain| && chain[i] == v;
    }
  }

  // ---- The display ------------------------------------------------------------------------------------

  /** `a` is the first observation of its Artifact. */
  ghost predicate IsFirst(artifacts: seq<Artifact>, a: Artifact) {
    exists i :: 0 <= i < |artifacts| && artifacts[i] == a && forall j | 0 <= j < i :: artifacts[j].id != a.id
  }

  lemma FirstStays(front: seq<Artifact>, last: Artifact, a: Artifact)
    requires IsFirst(front, a)
    ensures IsFirst(front + [last], a)
  {
    var i :| 0 <= i < |front| && front[i] == a && forall j | 0 <= j < i :: front[j].id != a.id;
    assert (front + [last])[i] == a;
    assert forall j | 0 <= j < i :: (front + [last])[j] == front[j];
  }

  lemma NewIsFirst(front: seq<Artifact>, last: Artifact)
    requires last.id !in ObservedIds(front)
    ensures IsFirst(front + [last], last)
  {
    var all := front + [last];
    assert all[|front|] == last;
    forall j | 0 <= j < |front| ensures all[j].id != last.id { assert front[j] in front && all[j] == front[j]; }
  }

  /** The display of a merged Artifact is that of its first observation. */
  lemma {:induction false} DisplayIsFirst(artifacts: seq<Artifact>, id: ArtifactId) returns (a: Artifact)
    requires MergeAll(artifacts).Ok? && id in MergeAll(artifacts).value
    ensures a in artifacts && a.id == id && IsFirst(artifacts, a) && MergeAll(artifacts).value[id].display == a.display
  {
    var front, last := artifacts[..|artifacts| - 1], artifacts[|artifacts| - 1];
    assert artifacts == front + [last];
    MergeMeaning(front);
    var merged := MergeAll(front).value;
    if id in merged {
      a := DisplayIsFirst(front, id);
      FirstStays(front, last, a);
    } else {
      a := last;
      NewIsFirst(front, last);
    }
  }

  /** The same observations, each as often, in some order. */
  ghost predicate Reorders(one: seq<Artifact>, other: seq<Artifact>) {
    multiset(one) == multiset(other)
  }

  lemma ReorderedObservations(one: seq<Artifact>, other: seq<Artifact>)
    requires Reorders(one, other)
    ensures Elements(one) == Elements(other)
  {
    forall a ensures a in one <==> a in other {
      assert a in one <==> a in multiset(one);
      assert a in other <==> a in multiset(other);
    }
  }

  /** Some order puts any one observation first. */
  lemma PutFirst(artifacts: seq<Artifact>, b: Artifact) returns (other: seq<Artifact>)
    requires b in artifacts
    ensures Reorders(artifacts, other) && other != [] && other[0] == b
  {
    var k :| 0 <= k < |artifacts| && artifacts[k] == b;
    other := [b] + artifacts[..k] + artifacts[k + 1..];
    assert artifacts == artifacts[..k] + [b] + artifacts[k + 1..];
  }

  lemma FirstDisplay(artifacts: seq<Artifact>)
    requires artifacts != [] && MergeAll(artifacts).Ok?
    ensures
      var id := artifacts[0].id;
      id in MergeAll(artifacts).value && MergeAll(artifacts).value[id].display == artifacts[0].display
  {
    MergeMeaning(artifacts);
    assert artifacts[0] in artifacts;
    var a := DisplayIsFirst(artifacts, artifacts[0].id);
    var i :| 0 <= i < |artifacts| && artifacts[i] == a && forall j | 0 <= j < i :: artifacts[j].id != a.id;
    assert i == 0;
  }

  ghost predicate SameDisplay(one: seq<Artifact>, other: seq<Artifact>, id: ArtifactId) {
    && MergeAll(one).Ok? && MergeAll(other).Ok? && id in MergeAll(one).value && id in MergeAll(other).value
    && MergeAll(one).value[id].display == MergeAll(other).value[id].display
  }

  ghost predicate OneDisplay(artifacts: seq<Artifact>, id: ArtifactId) {
    forall a, b | a in artifacts && b in artifacts && a.id == id && b.id == id :: a.display == b.display
  }

  lemma OneDisplayInEveryOrder(artifacts: seq<Artifact>, other: seq<Artifact>, id: ArtifactId)
    requires Consistent(artifacts) && id in ObservedIds(artifacts) && OneDisplay(artifacts, id) && Reorders(artifacts, other)
    ensures SameDisplay(artifacts, other, id)
  {
    ReorderedObservations(artifacts, other);
    SameObservations(artifacts, other);
    MergeMeaning(artifacts);
    MergeMeaning(other);
    var a := DisplayIsFirst(artifacts, id);
    var b := DisplayIsFirst(other, id);
    assert b in Elements(other);
  }

  lemma TwoDisplaysShow(artifacts: seq<Artifact>, id: ArtifactId) returns (other: seq<Artifact>)
    requires Consistent(artifacts) && id in ObservedIds(artifacts) && !OneDisplay(artifacts, id)
    ensures Reorders(artifacts, other) && !SameDisplay(artifacts, other, id)
  {
    MergeMeaning(artifacts);
    var shown := MergeAll(artifacts).value[id].display;
    var b :| b in artifacts && b.id == id && b.display != shown;
    other := PutFirst(artifacts, b);
    ReorderedObservations(artifacts, other);
    SameObservations(artifacts, other);
    MergeMeaning(other);
    FirstDisplay(other);
  }

  /** The display is the same in every order exactly when all observations of the Artifact share it. */
  lemma DisplayStableIff(artifacts: seq<Artifact>, id: ArtifactId)
    requires Consistent(artifacts) && id in ObservedIds(artifacts)
    ensures (forall other | Reorders(artifacts, other) :: SameDisplay(artifacts, other, id)) <==> OneDisplay(artifacts, id)
  {
    if OneDisplay(artifacts, id) {
      forall other | Reorders(artifacts, other) ensures SameDisplay(artifacts, other, id) {
        OneDisplayInEveryOrder(artifacts, other, id);
      }
    } else {
      var other := TwoDisplaysShow(artifacts, id);
    }
  }

  /** Two observations of one Artifact that differ in the display alone do show in the order. */
  lemma DisplayDependsOnOrder() returns (one: seq<Artifact>, other: seq<Artifact>)
    ensures Reorders(one, other) && Consistent(one) && 1 in ObservedIds(one) && !SameDisplay(one, other, 1)
  {
    var identity := Identity(0, None, None, None);
    one := [Artifact(1, identity, 10, []), Artifact(1, identity, 20, [])];
    assert one[0] in one && one[1] in one;
    other := TwoDisplaysShow(one, 1);
  }

  // ---- The imperative form --------------------------------------------------------------------------

  method MergeVersionsInto(held: seq<Version>, incoming: seq<Version>) returns (result: Result<seq<Version>, VersionId>)
    ensures result == MergeVersions(held, incoming)
  {
    var versions := held;
    for i := 0 to |incoming|
      invariant MergeVersions(held, incoming[..i]) == Ok(versions)
    {
      assert incoming[..i + 1][..i] == incoming[..i];
      var found := Find(versions, incoming[i].id);
      if found.Some? {
        if found.value != incoming[i] {
          VersionErrorStays(held, incoming, i + 1);
          return Err(incoming[i].id);
        }
      } else {
        versions := versions + [incoming[i]];
      }
    }
    assert incoming[..|incoming|] == incoming;
    result := Ok(versions);
  }

  method MergeArtifact(merged: map<ArtifactId, Merged>, a: Artifact)
    returns (result: Result<map<ArtifactId, Merged>, MergeError>)
    ensures result == MergeOne(merged, a)
  {
    var known := if a.id in merged then merged[a.id] else Merged(a.identity, a.display, []);
    if known.identity != a.identity {
      return Err(IdentityConflict(a.id));
    }
    var versions := MergeVersionsInto(known.versions, a.versions);
    if versions.Err? {
      return Err(VersionConflict(a.id, versions.error));
    }
    result := Ok(merged[a.id := known.(versions := versions.value)]);
  }

  /** Merging one more observation; the rest follows it. */
  lemma MergeNext(before: seq<Artifact>, observed: seq<Artifact>, j: nat)
    requires j < |observed| && MergeAll(before + observed[..j]).Ok?
    ensures MergeAll(before + observed[..j + 1]) == MergeOne(MergeAll(before + observed[..j]).value, observed[j])
    ensures before + observed == before + observed[..j + 1] + observed[j + 1..]
  {
    var next := before + observed[..j + 1];
    assert next[..|next| - 1] == before + observed[..j] && next[|next| - 1] == observed[j];
  }

  /** Merges one export's observations on top of those of `before`. */
  method MergeExport(merged: map<ArtifactId, Merged>, observed: seq<Artifact>, ghost before: seq<Artifact>)
    returns (result: Result<map<ArtifactId, Merged>, MergeError>)
    requires MergeAll(before) == Ok(merged)
    ensures result == MergeAll(before + observed)
  {
    var sofar := merged;
    assert before + observed[..0] == before;
    for j := 0 to |observed|
      invariant MergeAll(before + observed[..j]) == Ok(sofar)
    {
      MergeNext(before, observed, j);
      var step := MergeArtifact(sofar, observed[j]);
      if step.Err? {
        ErrorStays(before + observed[..j + 1], observed[j + 1..]);
        return Err(step.error);
      }
      sofar := step.value;
    }
    assert observed[..|observed|] == observed;
    result := Ok(sofar);
  }

  /** Merging every export's observations in turn, then ordering each Artifact's versions. */
  method ReconcileExports(exports: seq<seq<Artifact>>)
    returns (result: Result<map<ArtifactId, seq<Version>>, MergeError>)
    ensures result == Reconcile(Flatten(exports))
  {
    var merged: map<ArtifactId, Merged> := map[];
    for i := 0 to |exports|
      invariant MergeAll(Flatten(exports[..i])) == Ok(merged)
    {
      FlattenStep(exports, i);
      var step := MergeExport(merged, exports[i], Flatten(exports[..i]));
      if step.Err? {
        ghost var tail := FlattenPrefix(exports, i + 1);
        ErrorStays(Flatten(exports[..i + 1]), tail);
        return Err(step.error);
      }
      merged := step.value;
    }
    assert exports[..|exports|] == exports;
    SortedWithin(merged.Keys);
    result := OrderEach(merged, Sorted(merged.Keys));
  }

  method OrderEach(merged: map<ArtifactId, Merged>, ids: seq<ArtifactId>)
    returns (result: Result<map<ArtifactId, seq<Version>>, MergeError>)
    requires forall id | id in ids :: id in merged
    ensures result == Chains(OrdersOf(merged), ids)
  {
    ghost var orders := OrdersOf(merged);
    var chains: map<ArtifactId, seq<Version>> := map[];
    for i := 0 to |ids|
      invariant Chains(orders, ids[..i]) == Ok(chains)
    {
      var chain := OrderOne(merged, ids[i]);
      ChainsNext(orders, ids, i);
      if chain.Err? {
        LineageErrorStays(orders, ids, i + 1);
        return Err(Lineage(ids[i], chain.error));
      }
      chains := chains[ids[i] := chain.value];
    }
    assert ids[..|ids|] == ids;
    result := Ok(chains);
  }

  method OrderOne(merged: map<ArtifactId, Merged>, id: ArtifactId) returns (order: Result<seq<Version>, LineageError>)
    requires id in merged
    ensures order == OrdersOf(merged)[id]
  {
    ToMapKeyed(merged[id].versions);
    order := OrderVersions(ToMap(merged[id].versions));
  }

  lemma ChainsNext(orders: Orders, ids: seq<ArtifactId>, i: nat)
    requires (forall id | id in ids :: id in orders) && i < |ids| && Chains(orders, ids[..i]).Ok?
    ensures Chains(orders, ids[..i + 1]) ==
              match orders[ids[i]]
              case Err(e) => Err(Lineage(ids[i], e))
              case Ok(chain) => Ok(Chains(orders, ids[..i]).value[ids[i] := chain])
  {
    assert ids[..i + 1][..i] == ids[..i];
  }

  lemma ToMapKeyed(held: seq<Version>)
    ensures Keyed(ToMap(held))
  {
  }

  function Flatten(exports: seq<seq<Artifact>>): seq<Artifact> {
    if exports == [] then [] else Flatten(exports[..|exports| - 1]) + exports[|exports| - 1]
  }

  lemma FlattenStep(exports: seq<seq<Artifact>>, i: nat)
    requires i < |exports|
    ensures Flatten(exports[..i + 1]) == Flatten(exports[..i]) + exports[i]
  {
    assert exports[..i + 1][..i] == exports[..i];
  }

  /** What follows the exports up to `i` is some tail of the observations. */
  lemma {:induction false} FlattenPrefix(exports: seq<seq<Artifact>>, i: nat) returns (tail: seq<Artifact>)
    requires i <= |exports|
    ensures Flatten(exports) == Flatten(exports[..i]) + tail
  {
    if i == |exports| {
      assert exports[..i] == exports;
      tail := [];
    } else {
      var front := exports[..|exports| - 1];
      var shorter := FlattenPrefix(front, i);
      assert front[..i] == exports[..i];
      tail := shorter + exports[|exports| - 1];
    }
  }

  lemma {:induction false} ErrorStays(failed: seq<Artifact>, more: seq<Artifact>)
    requires MergeAll(failed).Err?
    ensures MergeAll(failed + more) == MergeAll(failed)
    decreases |more|
  {
    if more != [] {
      var front := more[..|more| - 1];
      ErrorStays(failed, front);
      assert (failed + more)[..|failed + more| - 1] == failed + front;
    } else {
      assert failed + more == failed;
    }
  }

  lemma {:induction false} VersionErrorStays(held: seq<Version>, incoming: seq<Version>, n: nat)
    requires n <= |incoming| && MergeVersions(held, incoming[..n]).Err?
    ensures MergeVersions(held, incoming) == MergeVersions(held, incoming[..n])
    decreases |incoming| - n
  {
    if n < |incoming| {
      assert incoming[..n + 1][..n] == incoming[..n];
      VersionErrorStays(held, incoming, n + 1);
    } else {
      assert incoming[..n] == incoming;
    }
  }

  lemma {:induction false} LineageErrorStays(orders: Orders, ids: seq<ArtifactId>, n: nat)
    requires forall id | id in ids :: id in orders
    requires n <= |ids| && Chains(orders, ids[..n]).Err?
    ensures Chains(orders, ids) == Chains(orders, ids[..n])
    decreases |ids| - n
  {
    if n < |ids| {
      assert ids[..n + 1][..n] == ids[..n];
      LineageErrorStays(orders, ids, n + 1);
    } else {
      assert ids[..n] == ids;
    }
  }
}
