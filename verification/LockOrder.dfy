/**
 * The advisory locks of every transaction path, and when transactions can wait for each other in a
 * cycle. Locks are transaction-scoped, exclusive and re-entrant; the tenant reference of a deletion
 * and the account ids share one name space, digests have their own.
 */
module LockOrder {
  import opened Ordered

  datatype Lock = Name(text: nat) | Blob(digest: nat)

  type TxId = nat

  /** A transaction: the locks it takes in order, and how many it took. */
  datatype Tx = Tx(program: seq<Lock>, taken: nat)

  type State = map<TxId, Tx>

  ghost function Held(tx: Tx): set<Lock>
    requires tx.taken <= |tx.program|
  {
    Elements(tx.program[..tx.taken])
  }

  datatype Step = Begin(tx: TxId, program: seq<Lock>) | Acquire(tx: TxId) | End(tx: TxId)

  ghost predicate WellFormed(s: State) {
    forall a | a in s :: s[a].taken <= |s[a].program|
  }

  ghost predicate Enabled(s: State, step: Step) {
    && WellFormed(s)
    && match step
       case Begin(tx, _) => tx !in s
       case Acquire(tx) =>
         && tx in s && s[tx].taken < |s[tx].program|
         && (forall other | other in s && other != tx :: s[tx].program[s[tx].taken] !in Held(s[other]))
       case End(tx) => tx in s
  }

  ghost function Apply(s: State, step: Step): State
    requires Enabled(s, step)
  {
    match step
    case Begin(tx, program) => s[tx := Tx(program, 0)]
    case Acquire(tx) => s[tx := s[tx].(taken := s[tx].taken + 1)]
    case End(tx) => s - {tx}
  }

  /** A run from no transaction at all, `steps[i]` leading from `states[i]` to `states[i + 1]`. */
  ghost predicate Run(states: seq<State>, steps: seq<Step>) {
    && |states| == |steps| + 1
    && states[0] == map[]
    && (forall i | 0 <= i < |steps| :: Enabled(states[i], steps[i]) && states[i + 1] == Apply(states[i], steps[i]))
  }

  ghost predicate Reached(s: State) {
    exists states, steps :: Run(states, steps) && states[|steps|] == s
  }

  lemma ExtendRun(s: State, step: Step)
    requires Reached(s) && Enabled(s, step)
    ensures Reached(Apply(s, step))
  {
    var states, steps :| Run(states, steps) && states[|steps|] == s;
    var states', steps' := states + [Apply(s, step)], steps + [step];
    assert Run(states', steps');
    assert states'[|steps'|] == Apply(s, step);
  }

  lemma NothingReached()
    ensures Reached(map[])
  {
    var states: seq<State>, steps: seq<Step> := [map[]], [];
    assert Run(states, steps) && states[|steps|] == map[];
  }

  ghost predicate Exclusive(s: State) {
    && WellFormed(s)
    && forall a, b | a in s && b in s && a != b :: Held(s[a]) !! Held(s[b])
  }

  lemma StepExclusive(s: State, step: Step)
    requires Exclusive(s) && Enabled(s, step)
    ensures Exclusive(Apply(s, step))
  {
    if step.Acquire? {
      var tx := s[step.tx];
      assert tx.program[..tx.taken + 1] == tx.program[..tx.taken] + [tx.program[tx.taken]];
      assert Held(tx.(taken := tx.taken + 1)) == Held(tx) + {tx.program[tx.taken]};
    }
  }

  lemma {:induction false} RunExclusive(states: seq<State>, steps: seq<Step>, n: nat)
    requires Run(states, steps) && n < |states|
    ensures Exclusive(states[n])
  {
    if n > 0 {
      RunExclusive(states, steps, n - 1);
      StepExclusive(states[n - 1], steps[n - 1]);
    }
  }

  lemma ReachedExclusive(s: State)
    requires Reached(s)
    ensures Exclusive(s)
  {
    var states, steps :| Run(states, steps) && states[|steps|] == s;
    RunExclusive(states, steps, |steps|);
  }

  // ---- When a cycle of waiting transactions is possible -------------------------------------------

  function After(i: nat, n: nat): nat
    requires i < n
  {
    if i + 1 == n then 0 else i + 1
  }

  ghost predicate Waits(s: State, a: TxId, b: TxId)
    requires WellFormed(s)
  {
    && a in s && b in s && a != b && s[a].taken < |s[a].program|
    && s[a].program[s[a].taken] in Held(s[b])
  }

  ghost predicate WaitsForNext(s: State, cycle: seq<TxId>, i: nat)
    requires WellFormed(s) && i < |cycle|
  {
    Waits(s, cycle[i], cycle[After(i, |cycle|)])
  }

  ghost predicate Deadlocked(s: State, cycle: seq<TxId>)
    requires WellFormed(s)
  {
    && |cycle| > 1
    && (forall i, j | 0 <= i < j < |cycle| :: cycle[i] != cycle[j])
    && (forall i | 0 <= i < |cycle| :: WaitsForNext(s, cycle, i))
  }

  ghost predicate NeedsNext(txs: seq<Tx>, i: nat)
    requires i < |txs| && txs[i].taken < |txs[i].program|
        && txs[After(i, |txs|)].taken <= |txs[After(i, |txs|)].program|
  {
    txs[i].program[txs[i].taken] in Held(txs[After(i, |txs|)])
  }

  /**
   * Transactions that can each stop before their `taken`-th lock, hold nothing in common, and then
   * each need a lock the next one holds.
   */
  ghost predicate Entangled(txs: seq<Tx>) {
    && |txs| > 1
    && (forall i | 0 <= i < |txs| :: txs[i].taken < |txs[i].program|)
    && (forall i, j | 0 <= i < j < |txs| :: Held(txs[i]) !! Held(txs[j]))
    && (forall i | 0 <= i < |txs| :: NeedsNext(txs, i))
  }

  /** Every reachable deadlock is an entanglement of the transactions on the cycle. */
  lemma DeadlockEntangles(s: State, cycle: seq<TxId>)
    requires Reached(s) && WellFormed(s) && Deadlocked(s, cycle)
    ensures forall i | 0 <= i < |cycle| :: cycle[i] in s
    ensures Entangled(seq(|cycle|, i requires 0 <= i < |cycle| && cycle[i] in s => s[cycle[i]]))
  {
    ReachedExclusive(s);
    forall i | 0 <= i < |cycle| ensures cycle[i] in s { assert WaitsForNext(s, cycle, i); }
    var txs := seq(|cycle|, i requires 0 <= i < |cycle| && cycle[i] in s => s[cycle[i]]);
    forall i | 0 <= i < |txs|
      ensures txs[i].taken < |txs[i].program| && NeedsNext(txs, i)
    {
      assert WaitsForNext(s, cycle, i);
    }
  }

  /** The state in which the first `k` transactions hold what they hold, and the next holds `m` locks. */
  ghost function Staged(txs: seq<Tx>, k: nat, m: nat): State
    requires k < |txs|
  {
    map i | 0 <= i <= k :: if i < k then txs[i] else Tx(txs[k].program, m)
  }

  lemma AcquireStaged(txs: seq<Tx>, k: nat, m: nat)
    requires Entangled(txs) && k < |txs| && 0 < m <= txs[k].taken
    ensures Enabled(Staged(txs, k, m - 1), Acquire(k))
    ensures Apply(Staged(txs, k, m - 1), Acquire(k)) == Staged(txs, k, m)
  {
    var before, want := Staged(txs, k, m - 1), txs[k].program[m - 1];
    assert txs[k].program[..txs[k].taken][m - 1] == want;
    forall other | other in before && other != k
      ensures want !in Held(before[other])
    {
      assert Held(txs[other]) !! Held(txs[k]);
    }
  }

  lemma {:induction false} StagedReached(txs: seq<Tx>, k: nat, m: nat)
    requires Entangled(txs) && k < |txs| && m <= txs[k].taken
    ensures Reached(Staged(txs, k, m))
    decreases k, m
  {
    if m > 0 {
      StagedReached(txs, k, m - 1);
      AcquireStaged(txs, k, m);
      ExtendRun(Staged(txs, k, m - 1), Acquire(k));
    } else {
      var before := if k == 0 then map[] else Staged(txs, k - 1, txs[k - 1].taken);
      if k == 0 { NothingReached(); } else { StagedReached(txs, k - 1, txs[k - 1].taken); }
      ExtendRun(before, Begin(k, txs[k].program));
      assert Apply(before, Begin(k, txs[k].program)) == Staged(txs, k, 0);
    }
  }

  /** Every entanglement deadlocks in some run. */
  lemma EntanglementDeadlocks(txs: seq<Tx>) returns (s: State, cycle: seq<TxId>)
    requires Entangled(txs)
    ensures Reached(s) && WellFormed(s) && Deadlocked(s, cycle)
    ensures |cycle| == |txs| && forall i | 0 <= i < |txs| :: cycle[i] in s && s[cycle[i]] == txs[i]
    ensures s.Keys == Elements(cycle)
  {
    var last := |txs| - 1;
    StagedReached(txs, last, txs[last].taken);
    s := Staged(txs, last, txs[last].taken);
    cycle := seq(|txs|, i => i);
    forall i | 0 <= i < |txs| ensures i in s && s[i] == txs[i] {}
    forall i | 0 <= i < |cycle|
      ensures WaitsForNext(s, cycle, i)
    {
      assert NeedsNext(txs, i);
    }
  }

  // ---- The paths of this crate ---------------------------------------------------------------------

  datatype Path =
    | Receipt(digest: nat)
    | Import(account: nat, digests: set<nat>)
    | PlanDeletion(tenant: nat, owned: nat)
    | RemoveRows(tenant: nat, accounts: set<nat>)
    | EraseBlob(tenant: nat, digest: nat)
    | Complete(tenant: nat)

  function Names(texts: set<nat>): seq<Lock> {
    var s := Sorted(texts);
    seq(|s|, i requires 0 <= i < |s| => Name(s[i]))
  }

  function Blobs(digests: set<nat>): seq<Lock> {
    var s := Sorted(digests);
    seq(|s|, i requires 0 <= i < |s| => Blob(s[i]))
  }

  function Locks(path: Path): seq<Lock> {
    match path
    case Receipt(d) => [Blob(d)]
    case Import(account, digests) => [Name(account)] + Blobs(digests)
    case PlanDeletion(tenant, owned) => [Name(tenant), Name(owned)]
    case RemoveRows(tenant, accounts) => [Name(tenant)] + Names(accounts)
    case EraseBlob(tenant, d) => [Name(tenant), Blob(d)]
    case Complete(tenant) => [Name(tenant)]
  }

  predicate IsDeletion(path: Path) {
    !path.Receipt? && !path.Import?
  }

  /** The account names a deletion locks after its tenant reference. */
  function SecondNames(path: Path): set<nat> {
    match path
    case PlanDeletion(_, owned) => {owned}
    case RemoveRows(_, accounts) => accounts
    case _ => {}
  }

  // ---- Which deletions can wait for each other ---------------------------------------------------------

  /** A deletion that waits for one of its accounts. */
  datatype Waiter = Waiter(path: Path, wanted: nat)

  predicate Waiting(w: Waiter) {
    IsDeletion(w.path) && w.wanted in SecondNames(w.path)
  }

  /** The names a waiting deletion has locked: its tenant reference and the accounts below the wanted one. */
  function Footprint(w: Waiter): set<nat>
    requires Waiting(w)
  {
    {w.path.tenant} + set a | a in SecondNames(w.path) && a < w.wanted
  }

  predicate WantsNext(ring: seq<Waiter>, i: nat)
    requires i < |ring| && forall w | w in ring :: Waiting(w)
  {
    ring[i].wanted in Footprint(ring[After(i, |ring|)])
  }

  /** At least two deletions with nothing locked in common, each wanting what the next one has locked. */
  ghost predicate Ring(ring: seq<Waiter>) {
    && |ring| > 1
    && (forall w | w in ring :: Waiting(w))
    && (forall i, j | 0 <= i < j < |ring| :: Footprint(ring[i]) !! Footprint(ring[j]))
    && (forall i | 0 <= i < |ring| :: WantsNext(ring, i))
  }

  ghost predicate OnPaths(paths: set<Path>, ring: seq<Waiter>) {
    forall w | w in ring :: w.path in paths
  }

  ghost predicate HasRing(paths: set<Path>) {
    exists ring :: Ring(ring) && OnPaths(paths, ring)
  }

  ghost predicate HasPath(paths: set<Path>, program: seq<Lock>) {
    exists p :: p in paths && program == Locks(p)
  }

  ghost predicate AllOnPaths(paths: set<Path>, s: State) {
    forall a | a in s :: HasPath(paths, s[a].program)
  }

  /** Transactions on these paths, any number on each, reach a state with a waiting cycle. */
  ghost predicate CanDeadlock(paths: set<Path>) {
    exists s: State, cycle :: Reached(s) && WellFormed(s) && AllOnPaths(paths, s) && Deadlocked(s, cycle)
  }

  // ---- What a transaction holds --------------------------------------------------------------------------

  function NamesOf(texts: set<nat>): set<Lock> {
    set x | x in texts :: Name(x)
  }

  lemma Singleton(a: nat)
    ensures Sorted({a}) == [a]
  {
    AscendingUnique(Sorted({a}), [a]);
  }

  /** A deletion locks its tenant reference and then its accounts in ascending order. */
  lemma DeletionLocks(path: Path)
    requires path.PlanDeletion? || path.RemoveRows?
    ensures Locks(path) == [Name(path.tenant)] + Names(SecondNames(path))
  {
    if path.PlanDeletion? { Singleton(path.owned); }
  }

  lemma SortedPrefix(s: set<nat>, k: nat)
    requires k < |Sorted(s)|
    ensures Sorted(s)[k] in s && Elements(Sorted(s)[..k]) == set a | a in s && a < Sorted(s)[k]
  {
    assert Sorted(s)[k] in Elements(Sorted(s));
    BelowIsPrefix(Sorted(s), k);
  }

  lemma NamesPrefix(s: set<nat>, k: nat)
    requires k < |Sorted(s)|
    ensures Elements(Names(s)[..k]) == NamesOf(Elements(Sorted(s)[..k]))
  {
    var r := Sorted(s);
    forall x | x in Elements(r[..k]) ensures Name(x) in Elements(Names(s)[..k]) {
      var j :| 0 <= j < k && r[j] == x;
      assert Names(s)[j] == Name(x) && Names(s)[..k][j] == Name(x);
    }
    forall l | l in Elements(Names(s)[..k]) ensures l in NamesOf(Elements(r[..k])) {
      var j :| 0 <= j < k && Names(s)[j] == l;
      assert r[..k][j] in r[..k];
    }
  }

  lemma FootprintNames(path: Path, k: nat)
    requires (path.PlanDeletion? || path.RemoveRows?) && k < |Sorted(SecondNames(path))|
    ensures Waiting(Waiter(path, Sorted(SecondNames(path))[k]))
    ensures NamesOf(Footprint(Waiter(path, Sorted(SecondNames(path))[k])))
            == {Name(path.tenant)} + Elements(Names(SecondNames(path))[..k])
  {
    var accounts := SecondNames(path);
    SortedPrefix(accounts, k);
    NamesPrefix(accounts, k);
    NamesUnion({path.tenant}, Elements(Sorted(accounts)[..k]));
    assert NamesOf({path.tenant}) == {Name(path.tenant)};
  }

  /** A deletion stopped before its `k`-th account holds exactly the footprint of that wait. */
  lemma StoppedHolds(path: Path, k: nat)
    requires (path.PlanDeletion? || path.RemoveRows?) && k < |Sorted(SecondNames(path))|
    ensures 1 + k < |Locks(path)| && Locks(path)[1 + k] == Name(Sorted(SecondNames(path))[k])
    ensures Waiting(Waiter(path, Sorted(SecondNames(path))[k]))
    ensures Held(Tx(Locks(path), 1 + k)) == NamesOf(Footprint(Waiter(path, Sorted(SecondNames(path))[k])))
  {
    DeletionLocks(path);
    FootprintNames(path, k);
    PrefixHeld(path.tenant, Names(SecondNames(path)), k);
  }

  lemma PrefixHeld(tenant: nat, rest: seq<Lock>, k: nat)
    requires k < |rest|
    ensures Held(Tx([Name(tenant)] + rest, 1 + k)) == {Name(tenant)} + Elements(rest[..k])
  {
    var program := [Name(tenant)] + rest;
    assert program[..1 + k] == [Name(tenant)] + rest[..k];
  }

  lemma NamesUnion(s: set<nat>, t: set<nat>)
    ensures NamesOf(s + t) == NamesOf(s) + NamesOf(t)
  {
  }

  // ---- A ring deadlocks ----------------------------------------------------------------------------------

  /** The transaction of a waiter, stopped where it waits. */
  ghost predicate StopsAt(w: Waiter, tx: Tx)
    requires Waiting(w)
  {
    && tx.program == Locks(w.path) && tx.taken < |tx.program| && tx.program[tx.taken] == Name(w.wanted)
    && Held(tx) == NamesOf(Footprint(w))
  }

  lemma StopAt(w: Waiter) returns (tx: Tx)
    requires Waiting(w)
    ensures StopsAt(w, tx)
  {
    var r := Sorted(SecondNames(w.path));
    assert w.wanted in Elements(r);
    var k :| 0 <= k < |r| && r[k] == w.wanted;
    StoppedHolds(w.path, k);
    tx := Tx(Locks(w.path), 1 + k);
  }

  lemma {:induction false} StopAll(ring: seq<Waiter>) returns (txs: seq<Tx>)
    requires forall i | 0 <= i < |ring| :: Waiting(ring[i])
    ensures |txs| == |ring| && forall i | 0 <= i < |ring| :: StopsAt(ring[i], txs[i])
  {
    if ring == [] {
      txs := [];
    } else {
      var n := |ring| - 1;
      var front := ring[..n];
      var before := StopAll(front);
      var last := StopAt(ring[n]);
      txs := before + [last];
      forall i | 0 <= i < |ring| ensures StopsAt(ring[i], txs[i]) {
        if i < n {
          assert ring[i] == front[i] && txs[i] == before[i];
        } else {
          assert txs[i] == last;
        }
      }
    }
  }

  /** Waiters and their stopped transactions: one is a ring exactly when the other is entangled. */
  lemma RingIffEntangled(ring: seq<Waiter>, txs: seq<Tx>)
    requires (forall w | w in ring :: Waiting(w)) && |txs| == |ring|
    requires forall i | 0 <= i < |ring| :: ring[i] in ring && StopsAt(ring[i], txs[i])
    ensures Ring(ring) <==> Entangled(txs)
  {
    forall i, j | 0 <= i < j < |ring| ensures (Footprint(ring[i]) !! Footprint(ring[j])) <==> (Held(txs[i]) !! Held(txs[j])) {
      assert StopsAt(ring[i], txs[i]) && StopsAt(ring[j], txs[j]);
      NamesDisjoint(Footprint(ring[i]), Footprint(ring[j]));
    }
    forall i | 0 <= i < |ring| && |ring| > 1 ensures WantsNext(ring, i) <==> NeedsNext(txs, i) {
      var j := After(i, |ring|);
      assert StopsAt(ring[i], txs[i]) && StopsAt(ring[j], txs[j]);
      NamesMember(Footprint(ring[j]), ring[i].wanted);
    }
  }

  lemma NamesMember(s: set<nat>, x: nat)
    ensures Name(x) in NamesOf(s) <==> x in s
  {
  }

  lemma NamesDisjoint(s: set<nat>, t: set<nat>)
    ensures s !! t <==> NamesOf(s) !! NamesOf(t)
  {
    if s !! t {
      forall l | l in NamesOf(s) && l in NamesOf(t) ensures false {}
    } else {
      var x :| x in s && x in t;
      assert Name(x) in NamesOf(s) && Name(x) in NamesOf(t);
    }
  }

  lemma RingDeadlocks(paths: set<Path>, ring: seq<Waiter>)
    requires Ring(ring) && OnPaths(paths, ring)
    ensures CanDeadlock(paths)
  {
    var txs := StopAll(ring);
    RingIffEntangled(ring, txs);
    var s, cycle := EntanglementDeadlocks(txs);
    forall i | 0 <= i < |ring| ensures HasPath(paths, txs[i].program) {
      assert ring[i] in ring && StopsAt(ring[i], txs[i]);
    }
    StagedPaths(paths, txs, s, cycle);
  }

  lemma StagedPaths(paths: set<Path>, txs: seq<Tx>, s: State, cycle: seq<TxId>)
    requires Reached(s) && WellFormed(s) && Deadlocked(s, cycle)
    requires |cycle| == |txs| && s.Keys == Elements(cycle)
    requires forall i | 0 <= i < |txs| :: cycle[i] in s && s[cycle[i]] == txs[i] && HasPath(paths, txs[i].program)
    ensures CanDeadlock(paths)
  {
    forall a | a in s ensures HasPath(paths, s[a].program) {
      assert a in Elements(cycle);
      var i :| 0 <= i < |cycle| && cycle[i] == a;
    }
  }

  // ---- A deadlock is a ring ------------------------------------------------------------------------------

  /** Digest locks come last and ascend, so whoever awaits a digest is ahead of one that awaits a greater. */
  lemma BlobAfterBlob(path: Path, i: nat, j: nat)
    requires i < j < |Locks(path)| && Locks(path)[i].Blob?
    ensures Locks(path)[j].Blob? && Locks(path)[i].digest < Locks(path)[j].digest
  {
    if path.RemoveRows? { DeletionLocks(path); }
  }

  ghost predicate Follow(txs: seq<Tx>, paths: seq<Path>) {
    |paths| == |txs| && forall k | 0 <= k < |txs| :: txs[k].program == Locks(paths[k])
  }

  lemma BlobLinkClimbs(txs: seq<Tx>, paths: seq<Path>, i: nat)
    requires Entangled(txs) && Follow(txs, paths) && i < |txs|
    requires txs[i].program[txs[i].taken].Blob?
    ensures
      var j := After(i, |txs|);
      var wanted := txs[j].program[txs[j].taken];
      wanted.Blob? && txs[i].program[txs[i].taken].digest < wanted.digest
  {
    var j := After(i, |txs|);
    assert NeedsNext(txs, i);
    var at :| 0 <= at < txs[j].taken && txs[j].program[..txs[j].taken][at] == txs[i].program[txs[i].taken];
    BlobAfterBlob(paths[j], at, txs[j].taken);
  }

  /** In this round of awaited locks the one after a digest is a greater digest. */
  ghost predicate Climbs(wanted: seq<Lock>, i: nat)
    requires i < |wanted|
  {
    var next := wanted[After(i, |wanted|)];
    wanted[i].Blob? ==> next.Blob? && wanted[i].digest < next.digest
  }

  lemma {:induction false} ClimbsTo(wanted: seq<Lock>, i: nat, k: nat)
    requires (forall j | 0 <= j < |wanted| :: Climbs(wanted, j)) && i <= k < |wanted| && wanted[i].Blob?
    ensures wanted[k].Blob? && (i < k ==> wanted[i].digest < wanted[k].digest)
  {
    if i < k {
      ClimbsTo(wanted, i, k - 1);
      assert Climbs(wanted, k - 1);
    }
  }

  lemma NoRoundOfBlobs(wanted: seq<Lock>, i: nat)
    requires (forall j | 0 <= j < |wanted| :: Climbs(wanted, j)) && i < |wanted|
    ensures wanted[i].Name?
  {
    var last := |wanted| - 1;
    if wanted[i].Blob? {
      ClimbsTo(wanted, i, last);
      assert Climbs(wanted, last);
      ClimbsTo(wanted, 0, last);
    }
  }

  /** Nobody on a cycle waits for a digest. */
  lemma NobodyAwaitsBlob(txs: seq<Tx>, paths: seq<Path>, i: nat)
    requires Entangled(txs) && Follow(txs, paths) && i < |txs|
    ensures txs[i].program[txs[i].taken].Name?
  {
    var wanted := seq(|txs|, k requires 0 <= k < |txs| => txs[k].program[txs[k].taken]);
    forall k | 0 <= k < |txs| ensures Climbs(wanted, k) {
      if wanted[k].Blob? { BlobLinkClimbs(txs, paths, k); }
    }
    NoRoundOfBlobs(wanted, i);
  }

  /** Every transaction on a cycle holds something. */
  lemma HoldsSomething(txs: seq<Tx>, i: nat)
    requires Entangled(txs) && i < |txs|
    ensures txs[i].taken > 0
  {
    var previous := if i == 0 then |txs| - 1 else i - 1;
    assert After(previous, |txs|) == i;
    assert NeedsNext(txs, previous);
  }

  /** So every transaction on a cycle is a deletion that waits for one of its accounts. */
  lemma OnCycleIsWaiter(txs: seq<Tx>, paths: seq<Path>, i: nat) returns (w: Waiter)
    requires Entangled(txs) && Follow(txs, paths) && i < |txs|
    ensures w.path == paths[i] && Waiting(w) && StopsAt(w, txs[i])
  {
    NobodyAwaitsBlob(txs, paths, i);
    HoldsSomething(txs, i);
    var path, n := paths[i], txs[i].taken;
    assert path.PlanDeletion? || path.RemoveRows?;
    DeletionLocks(path);
    StoppedHolds(path, n - 1);
    w := Waiter(path, Sorted(SecondNames(path))[n - 1]);
    assert txs[i] == Tx(Locks(path), n);
  }

  lemma {:induction false} WaitersOf(txs: seq<Tx>, paths: seq<Path>, n: nat) returns (ring: seq<Waiter>)
    requires Entangled(txs) && Follow(txs, paths) && n <= |txs|
    ensures |ring| == n && (forall w | w in ring :: Waiting(w))
    ensures forall i | 0 <= i < n :: ring[i].path == paths[i] && ring[i] in ring && StopsAt(ring[i], txs[i])
  {
    if n == 0 {
      ring := [];
    } else {
      var front := WaitersOf(txs, paths, n - 1);
      var w := OnCycleIsWaiter(txs, paths, n - 1);
      ring := front + [w];
      forall i | 0 <= i < n ensures ring[i].path == paths[i] && ring[i] in ring && Waiting(ring[i]) && StopsAt(ring[i], txs[i]) {
        if i < n - 1 { assert ring[i] == front[i]; }
      }
    }
  }

  lemma {:induction false} ChoosePaths(paths: set<Path>, txs: seq<Tx>) returns (chosen: seq<Path>)
    requires forall i | 0 <= i < |txs| :: HasPath(paths, txs[i].program)
    ensures Follow(txs, chosen) && forall i | 0 <= i < |txs| :: chosen[i] in paths
  {
    if txs == [] {
      chosen := [];
    } else {
      var n := |txs| - 1;
      var p :| p in paths && txs[n].program == Locks(p);
      var front := ChoosePaths(paths, txs[..n]);
      chosen := front + [p];
      forall i | 0 <= i < |txs| ensures chosen[i] in paths && txs[i].program == Locks(chosen[i]) {
        if i < n { assert txs[..n][i] == txs[i]; }
      }
    }
  }

  lemma EntangledHasRing(paths: set<Path>, txs: seq<Tx>)
    requires Entangled(txs) && forall i | 0 <= i < |txs| :: HasPath(paths, txs[i].program)
    ensures HasRing(paths)
  {
    var chosen := ChoosePaths(paths, txs);
    var ring := WaitersOf(txs, chosen, |txs|);
    RingIffEntangled(ring, txs);
    forall w | w in ring ensures w.path in paths {
      var i :| 0 <= i < |ring| && ring[i] == w;
    }
    assert OnPaths(paths, ring);
  }

  /**
   * Exactly when transactions can wait for each other in a cycle, whatever imports, receipts, plans,
   * row removals, erasures and completions run together and however many of each: some of the
   * deletions form a ring.
   */
  lemma DeadlockIffRing(paths: set<Path>)
    ensures CanDeadlock(paths) <==> HasRing(paths)
  {
    if CanDeadlock(paths) {
      var s: State, cycle :| Reached(s) && WellFormed(s) && AllOnPaths(paths, s) && Deadlocked(s, cycle);
      DeadlockEntangles(s, cycle);
      var txs: seq<Tx> := seq(|cycle|, i requires 0 <= i < |cycle| && cycle[i] in s => s[cycle[i]]);
      forall i | 0 <= i < |txs| ensures HasPath(paths, txs[i].program) { assert txs[i] == s[cycle[i]]; }
      EntangledHasRing(paths, txs);
    }
    if HasRing(paths) {
      var ring :| Ring(ring) && OnPaths(paths, ring);
      RingDeadlocks(paths, ring);
    }
  }

  // ---- Deletions of one account each -------------------------------------------------------------------

  ghost predicate SingleAccounts(paths: set<Path>) {
    forall p | p in paths && IsDeletion(p) :: exists a :: SecondNames(p) <= {a}
  }

  ghost predicate NamesTheNext(round: seq<Path>, i: nat)
    requires i < |round| && forall k | 0 <= k < |round| :: IsDeletion(round[k])
  {
    var next := After(i, |round|);
    assert IsDeletion(round[next]);
    SecondNames(round[i]) == {round[next].tenant}
  }

  /** Deletions under distinct names, the account of each being the name of the next. */
  ghost predicate RoundRobin(round: seq<Path>) {
    && |round| > 1
    && (forall k | 0 <= k < |round| :: IsDeletion(round[k]))
    && (forall i, j | 0 <= i < j < |round| :: round[i].tenant != round[j].tenant)
    && (forall i | 0 <= i < |round| :: NamesTheNext(round, i))
  }

  ghost predicate HasRoundRobin(paths: set<Path>) {
    exists round :: RoundRobin(round) && forall p | p in round :: p in paths
  }

  lemma SingleFootprint(w: Waiter, a: nat)
    requires Waiting(w) && SecondNames(w.path) <= {a}
    ensures Footprint(w) == {w.path.tenant} && w.wanted == a && SecondNames(w.path) == {a}
  {
  }

  lemma RingIsRoundRobin(paths: set<Path>, ring: seq<Waiter>)
    requires SingleAccounts(paths) && Ring(ring) && OnPaths(paths, ring)
    ensures HasRoundRobin(paths)
  {
    var round := seq(|ring|, i requires 0 <= i < |ring| => ring[i].path);
    forall i | 0 <= i < |ring|
      ensures Waiting(ring[i]) && Footprint(ring[i]) == {round[i].tenant} && SecondNames(round[i]) == {ring[i].wanted}
      ensures round[i] in paths
    {
      assert ring[i] in ring;
      var a :| SecondNames(ring[i].path) <= {a};
      SingleFootprint(ring[i], a);
    }
    forall p | p in round ensures p in paths {
      var i :| 0 <= i < |round| && round[i] == p;
    }
    forall i, j | 0 <= i < j < |round| ensures round[i].tenant != round[j].tenant {
      assert Footprint(ring[i]) !! Footprint(ring[j]);
      assert round[i].tenant in Footprint(ring[i]) && round[j].tenant in Footprint(ring[j]);
    }
    forall i | 0 <= i < |round| ensures NamesTheNext(round, i) {
      assert WantsNext(ring, i);
    }
    assert RoundRobin(round);
  }

  lemma RoundRobinIsRing(paths: set<Path>, round: seq<Path>)
    requires RoundRobin(round) && forall p | p in round :: p in paths
    ensures HasRing(paths)
  {
    var n := |round|;
    var ring := seq(n, i requires 0 <= i < n => Waiter(round[i], round[After(i, n)].tenant));
    forall i | 0 <= i < n ensures Waiting(ring[i]) && Footprint(ring[i]) == {round[i].tenant} && ring[i].path in paths {
      assert round[i] in round && NamesTheNext(round, i);
      SingleFootprint(ring[i], ring[i].wanted);
    }
    forall w | w in ring ensures Waiting(w) && w.path in paths {
      var i :| 0 <= i < |ring| && ring[i] == w;
    }
    forall i | 0 <= i < n ensures WantsNext(ring, i) {
      assert Footprint(ring[After(i, n)]) == {round[After(i, n)].tenant};
    }
    assert Ring(ring) && OnPaths(paths, ring);
  }

  /** When every deletion has one account: a deadlock needs, and has, a round of crossed references. */
  lemma SingleAccountsDeadlockIff(paths: set<Path>)
    requires SingleAccounts(paths)
    ensures CanDeadlock(paths) <==> HasRoundRobin(paths)
  {
    DeadlockIffRing(paths);
    if HasRing(paths) {
      var ring :| Ring(ring) && OnPaths(paths, ring);
      RingIsRoundRobin(paths, ring);
    }
    if HasRoundRobin(paths) {
      var round: seq<Path> :| RoundRobin(round) && forall p | p in round :: p in paths;
      RoundRobinIsRing(paths, round);
    }
  }

  // ---- Two deletions of any accounts ---------------------------------------------------------------------

  /** `p` takes `q`'s name last of what matters, and `q` wants something `p` has by then. */
  predicate Crosses(p: Path, q: Path)
    requires IsDeletion(p) && IsDeletion(q)
  {
    && p.tenant != q.tenant && q.tenant in SecondNames(p)
    && (p.tenant in SecondNames(q) || exists a :: a in SecondNames(q) && a in SecondNames(p) && a < q.tenant)
  }

  lemma CrossingIsRing(paths: set<Path>, p: Path, q: Path)
    requires IsDeletion(p) && IsDeletion(q) && Crosses(p, q) && p in paths && q in paths
    ensures HasRing(paths)
  {
    var first := Waiter(p, q.tenant);
    var common := Footprint(first) * SecondNames(q);
    assert common != {} by {
      if p.tenant in SecondNames(q) {
        assert p.tenant in common;
      } else {
        var a :| a in SecondNames(q) && a in SecondNames(p) && a < q.tenant;
        assert a in common;
      }
    }
    var second := Waiter(q, Least(common));
    forall x | x in Footprint(second) ensures x !in Footprint(first) {
      assert x in SecondNames(q) && x in Footprint(first) ==> x in common;
    }
    var ring := [first, second];
    assert WantsNext(ring, 0) && WantsNext(ring, 1);
    assert Ring(ring) && OnPaths(paths, ring);
  }

  lemma PairRingCrosses(ring: seq<Waiter>)
    requires Ring(ring) && |ring| == 2
    ensures ring[0] in ring && ring[1] in ring
    ensures Crosses(ring[0].path, ring[1].path) || Crosses(ring[1].path, ring[0].path)
  {
    assert ring[0] in ring && ring[1] in ring;
    assert WantsNext(ring, 0) && WantsNext(ring, 1);
    assert ring[0].path.tenant in Footprint(ring[0]) && ring[1].path.tenant in Footprint(ring[1]);
    assert ring[0].path.tenant != ring[1].path.tenant;
  }

  /** A ring never names one path twice. */
  lemma RingIsDistinct(ring: seq<Waiter>, i: nat, j: nat)
    requires Ring(ring) && i < j < |ring|
    ensures ring[i].path != ring[j].path
  {
    assert ring[i] in ring && ring[j] in ring;
    assert ring[i].path.tenant in Footprint(ring[i]) && ring[j].path.tenant in Footprint(ring[j]);
  }

  lemma RingOfTwo(p: Path, q: Path, ring: seq<Waiter>)
    requires Ring(ring) && OnPaths({p, q}, ring)
    ensures |ring| == 2 && {ring[0].path, ring[1].path} == {p, q}
  {
    assert ring[0] in ring && ring[1] in ring;
    RingIsDistinct(ring, 0, 1);
    if |ring| > 2 {
      assert ring[2] in ring;
      RingIsDistinct(ring, 0, 2);
      RingIsDistinct(ring, 1, 2);
    }
  }

  /** Two deletions, with any accounts, can wait for each other exactly when one crosses the other. */
  lemma PairDeadlocksIff(p: Path, q: Path)
    requires IsDeletion(p) && IsDeletion(q)
    ensures CanDeadlock({p, q}) <==> Crosses(p, q) || Crosses(q, p)
  {
    DeadlockIffRing({p, q});
    if HasRing({p, q}) {
      var ring :| Ring(ring) && OnPaths({p, q}, ring);
      RingOfTwo(p, q, ring);
      PairRingCrosses(ring);
    }
    if Crosses(p, q) { CrossingIsRing({p, q}, p, q); }
    if Crosses(q, p) { CrossingIsRing({p, q}, q, p); }
  }

  /** Such a pair: two row removals, each recorded under the other's account. */
  lemma CrossedPairDeadlocks(a: nat, b: nat)
    requires a != b
    ensures CanDeadlock({RemoveRows(a, {b}), RemoveRows(b, {a})})
  {
    PairDeadlocksIff(RemoveRows(a, {b}), RemoveRows(b, {a}));
  }

  // ---- The operator's deletions --------------------------------------------------------------------------

  /**
   * How an operator command records a deletion: under the text it was given, which must parse to
   * the account whose canonical spelling the deletion then locks.
   */
  ghost predicate OperatorPath(p: Path, parse: nat -> nat, canonical: nat -> nat) {
    IsDeletion(p) ==> SecondNames(p) <= {canonical(parse(p.tenant))}
  }

  /** No text is recorded that is the canonical spelling of another account, so nothing can deadlock. */
  lemma OperatorPathsNeverDeadlock(paths: set<Path>, parse: nat -> nat, canonical: nat -> nat)
    requires forall a :: parse(canonical(a)) == a
    requires forall p | p in paths :: OperatorPath(p, parse, canonical)
    ensures !CanDeadlock(paths)
  {
    forall p | p in paths && IsDeletion(p) ensures exists a :: SecondNames(p) <= {a} {
      assert OperatorPath(p, parse, canonical);
    }
    SingleAccountsDeadlockIff(paths);
    if HasRoundRobin(paths) {
      var round: seq<Path> :| RoundRobin(round) && forall p | p in round :: p in paths;
      assert round[0] in round && round[1] in round && round[After(1, |round|)] in round;
      assert NamesTheNext(round, 0) && NamesTheNext(round, 1);
      OperatorNamesStay(round[0], round[1], round[After(1, |round|)], parse, canonical);
    }
  }

  /** Following the accounts of operator deletions stops after one step. */
  lemma OperatorNamesStay(p: Path, q: Path, r: Path, parse: nat -> nat, canonical: nat -> nat)
    requires forall a :: parse(canonical(a)) == a
    requires IsDeletion(p) && IsDeletion(q) && IsDeletion(r)
    requires OperatorPath(p, parse, canonical) && SecondNames(p) == {q.tenant}
    requires OperatorPath(q, parse, canonical) && SecondNames(q) == {r.tenant}
    ensures q.tenant == r.tenant
  {
    assert q.tenant in SecondNames(p) && r.tenant in SecondNames(q);
    assert parse(q.tenant) == parse(p.tenant);
  }
}
