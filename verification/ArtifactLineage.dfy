/** Ordering the versions of one Artifact by their predecessor links. */
module ArtifactLineage {
  import opened Common
  import opened Ordered

  type VersionId = nat

  /** One reconciled version; `evidence` stands for every field beside the two identifiers. */
  datatype Version = Version(id: VersionId, previous: Option<VersionId>, evidence: nat)

  type Versions = map<VersionId, Version>

  datatype LineageError = MissingPredecessor(version: VersionId) | VersionCycle(version: VersionId)

  predicate Keyed(versions: Versions) {
    forall k | k in versions :: versions[k].id == k
  }

  function Ids(done: seq<Version>): set<VersionId> {
    set v | v in done :: v.id
  }

  /** What one visit appends to `done`, or why it stops. `visiting` is the chain being followed. */
  function Visit(versions: Versions, id: VersionId, visiting: set<VersionId>, done: seq<Version>)
    : (r: Result<seq<Version>, LineageError>)
    decreases versions.Keys - visiting
  {
    if id in Ids(done) then Ok(done)
    else if id in visiting then Err(VersionCycle(id))
    else if id !in versions then Err(MissingPredecessor(id))
    else
      var version := versions[id];
      if version.previous.None? then Ok(done + [version])
      else if version.previous.value !in versions then Err(MissingPredecessor(id))
      else
        var earlier := Visit(versions, version.previous.value, visiting + {id}, done);
        if earlier.Err? then earlier
        else if id in Ids(earlier.value) then earlier
        else Ok(earlier.value + [version])
  }

  /** Visiting `keys` in turn from nothing. */
  function VisitAll(versions: Versions, keys: seq<VersionId>): (r: Result<seq<Version>, LineageError>) {
    if keys == [] then Ok([])
    else
      match VisitAll(versions, keys[..|keys| - 1])
      case Err(e) => Err(e)
      case Ok(done) => Visit(versions, keys[|keys| - 1], {}, done)
  }

  /** The versions in the order `order_versions` yields, or the lineage error that stops it. */
  function Order(versions: Versions): (r: Result<seq<Version>, LineageError>) {
    VisitAll(versions, Sorted(versions.Keys))
  }

  // ---- What the order means ------------------------------------------------------------------------

  ghost predicate PredecessorsPresent(versions: Versions) {
    forall k | k in versions && versions[k].previous.Some? :: versions[k].previous.value in versions
  }

  ghost predicate IsCycle(versions: Versions, c: seq<VersionId>) {
    && |c| > 0
    && (forall i | 0 <= i < |c| :: c[i] in versions)
    && (forall i | 0 <= i < |c| - 1 :: versions[c[i]].previous == Some(c[i + 1]))
    && versions[c[|c| - 1]].previous == Some(c[0])
  }

  ghost predicate Acyclic(versions: Versions) {
    !exists c :: IsCycle(versions, c)
  }

  /** Distinct versions of the map, each after the predecessor it names. */
  ghost predicate Lineage(versions: Versions, done: seq<Version>) {
    && (forall i | 0 <= i < |done| :: done[i].id in versions && versions[done[i].id] == done[i])
    && (forall i, j | 0 <= i < j < |done| :: done[i].id != done[j].id)
    && (forall i | 0 <= i < |done| && done[i].previous.Some? :: done[i].previous.value in Ids(done[..i]))
  }

  /** `path` follows predecessor links from its first element up to `id`. */
  ghost predicate LeadsTo(versions: Versions, path: seq<VersionId>, id: VersionId) {
    && (forall i | 0 <= i < |path| :: path[i] in versions)
    && (forall i | 0 <= i < |path| - 1 :: versions[path[i]].previous == Some(path[i + 1]))
    && (path != [] ==> versions[path[|path| - 1]].previous == Some(id))
  }

  /** Why a visit fails: a version whose predecessor is absent, or a version on a cycle. */
  ghost predicate Explains(versions: Versions, error: LineageError) {
    match error
    case MissingPredecessor(v) =>
      v in versions && versions[v].previous.Some? && versions[v].previous.value !in versions
    case VersionCycle(v) => exists c :: IsCycle(versions, c) && v in c
  }

  lemma IdsAppend(done: seq<Version>, v: Version)
    ensures Ids(done + [v]) == Ids(done) + {v.id}
  {
  }

  lemma AppendLineage(versions: Versions, done: seq<Version>, v: Version)
    requires Lineage(versions, done) && v.id in versions && versions[v.id] == v && v.id !in Ids(done)
    requires v.previous.Some? ==> v.previous.value in Ids(done)
    ensures Lineage(versions, done + [v])
  {
    var more := done + [v];
    assert more[..|done|] == done;
    forall i | 0 <= i < |more| && more[i].previous.Some?
      ensures more[i].previous.value in Ids(more[..i])
    {
      if i < |done| { assert more[..i] == done[..i]; }
    }
    forall i | 0 <= i < |done| ensures done[i].id != v.id { assert done[i] in done; }
  }

  lemma {:induction false} VisitMeaning(versions: Versions, id: VersionId, path: seq<VersionId>, done: seq<Version>)
    requires Keyed(versions) && id in versions && Lineage(versions, done) && LeadsTo(versions, path, id)
    requires Elements(path) !! Ids(done)
    ensures
      var r := Visit(versions, id, Elements(path), done);
      && (r.Ok? ==>
            Lineage(versions, r.value) && done <= r.value && id in Ids(r.value) && Elements(path) !! Ids(r.value))
      && (r.Err? ==> Explains(versions, r.error))
    decreases versions.Keys - Elements(path)
  {
    var version := versions[id];
    if id in Ids(done) {
    } else if id in Elements(path) {
      var j :| 0 <= j < |path| && path[j] == id;
      assert IsCycle(versions, path[j..]) && id == path[j..][0];
    } else if version.previous.None? {
      IdsAppend(done, version);
      AppendLineage(versions, done, version);
    } else if version.previous.value in versions {
      var longer := path + [id];
      assert Elements(longer) == Elements(path) + {id};
      VisitMeaning(versions, version.previous.value, longer, done);
      var earlier := Visit(versions, version.previous.value, Elements(longer), done);
      if earlier.Ok? {
        IdsAppend(earlier.value, version);
        AppendLineage(versions, earlier.value, version);
      }
    }
  }

  lemma {:induction false} VisitAllMeaning(versions: Versions, keys: seq<VersionId>)
    requires Keyed(versions) && Elements(keys) <= versions.Keys
    ensures
      var r := VisitAll(versions, keys);
      && (r.Ok? ==> Lineage(versions, r.value) && Elements(keys) <= Ids(r.value))
      && (r.Err? ==> Explains(versions, r.error))
  {
    if keys != [] {
      var front, last := keys[..|keys| - 1], keys[|keys| - 1];
      assert keys == front + [last];
      assert Elements(keys) == Elements(front) + {last};
      VisitAllMeaning(versions, front);
      if VisitAll(versions, front).Ok? {
        var done := VisitAll(versions, front).value;
        assert Elements<VersionId>([]) == {};
        VisitMeaning(versions, last, [], done);
        var r := VisitAll(versions, keys);
        assert r.Ok? ==> Ids(done) <= Ids(r.value);
      }
    }
  }

  /** Where a lineage lists a version. */
  ghost function Position(done: seq<Version>, id: VersionId): (i: nat)
    requires id in Ids(done)
    ensures i < |done| && done[i].id == id
  {
    var i :| 0 <= i < |done| && done[i].id == id;
    i
  }

  lemma {:induction false} CycleDescends(versions: Versions, done: seq<Version>, c: seq<VersionId>, k: nat)
    requires Lineage(versions, done) && IsCycle(versions, c) && Elements(c) <= Ids(done) && k < |c|
    ensures c[0] in Ids(done) && c[k] in Ids(done)
    ensures k > 0 ==> Position(done, c[k]) < Position(done, c[0])
  {
    assert c[0] in Elements(c) && c[k] in Elements(c);
    if k > 0 {
      CycleDescends(versions, done, c, k - 1);
      PredecessorEarlier(versions, done, c[k - 1], c[k]);
    }
  }

  lemma PredecessorEarlier(versions: Versions, done: seq<Version>, id: VersionId, previous: VersionId)
    requires Lineage(versions, done) && id in Ids(done) && previous in Ids(done)
    requires id in versions && versions[id].previous == Some(previous)
    ensures Position(done, previous) < Position(done, id)
  {
    var i := Position(done, id);
    assert done[i].previous == Some(previous) && previous in Ids(done[..i]);
    var v :| v in done[..i] && v.id == previous;
    var j :| 0 <= j < i && done[j] == v;
  }

  lemma LineageIsAcyclic(versions: Versions, done: seq<Version>)
    requires Lineage(versions, done) && versions.Keys <= Ids(done)
    ensures Acyclic(versions)
  {
    forall c | IsCycle(versions, c)
      ensures false
    {
      assert Elements(c) <= Ids(done);
      CycleDescends(versions, done, c, |c| - 1);
      PredecessorEarlier(versions, done, c[|c| - 1], c[0]);
    }
  }

  /**
   * Ordering succeeds exactly when every named predecessor is present and the predecessor relation
   * is acyclic; on success it lists each version once, every predecessor before its successor, and
   * on failure it names a version that explains it.
   */
  lemma OrderMeaning(versions: Versions)
    requires Keyed(versions)
    ensures Order(versions).Ok? <==> PredecessorsPresent(versions) && Acyclic(versions)
    ensures Order(versions).Ok? ==>
              && Lineage(versions, Order(versions).value)
              && Ids(Order(versions).value) == versions.Keys
              && |Order(versions).value| == |versions|
    ensures Order(versions).Err? ==> Explains(versions, Order(versions).error)
  {
    VisitAllMeaning(versions, Sorted(versions.Keys));
    var r := Order(versions);
    if r.Ok? {
      LineageIsAcyclic(versions, r.value);
      assert Ids(r.value) == versions.Keys;
      LengthIsCount(r.value);
      forall k | k in versions && versions[k].previous.Some?
        ensures versions[k].previous.value in versions
      {
        var i := Position(r.value, k);
        var v :| v in r.value[..i] && v.id == versions[k].previous.value;
      }
    }
  }

  lemma {:induction false} LengthIsCount(done: seq<Version>)
    requires forall i, j | 0 <= i < j < |done| :: done[i].id != done[j].id
    ensures |Ids(done)| == |done|
  {
    if done != [] {
      var front, last := done[..|done| - 1], done[|done| - 1];
      LengthIsCount(front);
      assert done == front + [last];
      IdsAppend(front, last);
    }
  }

  // ---- The imperative visit ------------------------------------------------------------------------

  class Visitor {
    var visiting: set<VersionId>
    var visited: set<VersionId>
    var ordered: seq<Version>

    constructor ()
      ensures visiting == {} && visited == {} && ordered == []
    {
      visiting, visited, ordered := {}, {}, [];
    }

    /** `visited` names exactly what `ordered` lists. */
    ghost predicate Valid()
      reads this
    {
      visited == Ids(ordered)
    }

    method VisitVersion(versions: Versions, id: VersionId) returns (error: Option<LineageError>)
      requires Valid() && Keyed(versions)
      modifies this
      ensures error.None? ==> Valid() && visiting == old(visiting)
      ensures
        match Visit(versions, id, old(visiting), old(ordered))
        case Ok(done) => error.None? && ordered == done
        case Err(e) => error == Some(e)
      decreases versions.Keys - visiting
    {
      if id in visited {
        return None;
      }
      if id in visiting {
        return Some(VersionCycle(id));
      }
      visiting := visiting + {id};
      if id !in versions {
        return Some(MissingPredecessor(id));
      }
      var version := versions[id];
      if version.previous.Some? {
        if version.previous.value !in versions {
          return Some(MissingPredecessor(id));
        }
        error := VisitVersion(versions, version.previous.value);
        if error.Some? {
          return;
        }
      }
      visiting := visiting - {id};
      if id !in visited {
        IdsAppend(ordered, version);
        visited := visited + {id};
        ordered := ordered + [version];
      }
      error := None;
    }
  }

  method OrderVersions(versions: Versions) returns (result: Result<seq<Version>, LineageError>)
    requires Keyed(versions)
    ensures result == Order(versions)
  {
    var visitor := new Visitor();
    var keys := Sorted(versions.Keys);
    for i := 0 to |keys|
      invariant visitor.Valid() && visitor.visiting == {}
      invariant VisitAll(versions, keys[..i]) == Ok(visitor.ordered)
    {
      VisitNext(versions, keys, i);
      var error := visitor.VisitVersion(versions, keys[i]);
      if error.Some? {
        ErrorStops(versions, keys, i + 1);
        return Err(error.value);
      }
    }
    assert keys[..|keys|] == keys;
    result := Ok(visitor.ordered);
  }

  lemma VisitNext(versions: Versions, keys: seq<VersionId>, i: nat)
    requires i < |keys| && VisitAll(versions, keys[..i]).Ok?
    ensures VisitAll(versions, keys[..i + 1]) == Visit(versions, keys[i], {}, VisitAll(versions, keys[..i]).value)
  {
    assert keys[..i + 1][..i] == keys[..i];
  }

  lemma {:induction false} ErrorStops(versions: Versions, keys: seq<VersionId>, n: nat)
    requires n <= |keys| && VisitAll(versions, keys[..n]).Err?
    ensures VisitAll(versions, keys) == VisitAll(versions, keys[..n])
    decreases |keys| - n
  {
    if n < |keys| {
      assert keys[..n + 1][..n] == keys[..n];
      ErrorStops(versions, keys, n + 1);
    } else {
      assert keys[..n] == keys;
    }
  }
}
