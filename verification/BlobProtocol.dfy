/**
 * The blob reference protocol: any number of registrars, row removals and erasers racing on
 * content-addressed blobs under one lock per digest. Locks are named by digest (no hash collision),
 * a digest identifies its bytes, and unlocked `store` calls only add to the store.
 */
module BlobProtocol {
  import opened Common
  import opened Ordered

  type Digest = nat
  type RowId = nat
  type TxId = nat

  datatype Stage = Waiting | Holding | Unreferenced | Erased | Retained

  datatype Tx =
    | Registrar(wanted: seq<Digest>, staged: set<Digest>, locked: nat, checked: nat,
                pending: map<RowId, Digest>, cleared: set<RowId>)
    | Eraser(digest: Digest, stage: Stage)

  datatype State = State(
    rows: map<RowId, Digest>,
    store: set<Digest>,
    locks: map<Digest, TxId>,
    txs: map<TxId, Tx>)

  datatype Step =
    | BeginRegistrar(tx: TxId, references: seq<Digest>, staged: set<Digest>)
    | BeginEraser(tx: TxId, digest: Digest)
    | TakeLock(tx: TxId)
    | CheckBlob(tx: TxId)
    | PutRow(tx: TxId, row: RowId, digest: Digest)
    | ClearRow(tx: TxId, row: RowId)
    | CheckReferences(tx: TxId)
    | EraseFile(tx: TxId)
    | Commit(tx: TxId)
    | Abort(tx: TxId)
    | RemoveRows(ids: set<RowId>)
    | StoreBytes(digest: Digest)

  /** The digest a transaction waits to lock next. */
  function NextLock(tx: Tx): Option<Digest> {
    match tx
    case Registrar(wanted, _, locked, _, _, _) => if locked < |wanted| then Some(wanted[locked]) else None
    case Eraser(d, stage) => if stage.Waiting? then Some(d) else None
  }

  predicate AllLocked(tx: Tx) {
    tx.Registrar? && tx.locked == |tx.wanted|
  }

  predicate Registered(tx: Tx) {
    AllLocked(tx) && tx.checked == |tx.wanted|
  }

  predicate Enabled(s: State, step: Step) {
    match step
    case BeginRegistrar(tx, _, _) => tx !in s.txs
    case BeginEraser(tx, _) => tx !in s.txs
    case TakeLock(tx) => tx in s.txs && NextLock(s.txs[tx]).Some? && NextLock(s.txs[tx]).value !in s.locks
    case CheckBlob(tx) => tx in s.txs && AllLocked(s.txs[tx]) && s.txs[tx].checked < |s.txs[tx].wanted|
    case PutRow(tx, _, d) => tx in s.txs && Registered(s.txs[tx]) && d in s.txs[tx].wanted
    case ClearRow(tx, _) => tx in s.txs && Registered(s.txs[tx])
    case CheckReferences(tx) => tx in s.txs && s.txs[tx].Eraser? && s.txs[tx].stage.Holding?
    case EraseFile(tx) => tx in s.txs && s.txs[tx].Eraser? && s.txs[tx].stage.Unreferenced?
    case Commit(tx) =>
      tx in s.txs && (Registered(s.txs[tx]) || (s.txs[tx].Eraser? && s.txs[tx].stage in {Erased, Retained}))
    case Abort(tx) => tx in s.txs
    case RemoveRows(_) => true
    case StoreBytes(_) => true
  }

  /** A transaction ends: its locks are free and it is gone. */
  function Ended(s: State, tx: TxId): State {
    s.(locks := map d | d in s.locks && s.locks[d] != tx :: s.locks[d], txs := s.txs - {tx})
  }

  function Apply(s: State, step: Step): State
    requires Enabled(s, step)
  {
    match step
    case BeginRegistrar(tx, references, staged) =>
      s.(txs := s.txs[tx := Registrar(Sorted(Elements(references)), staged, 0, 0, map[], {})])
    case BeginEraser(tx, d) => s.(txs := s.txs[tx := Eraser(d, Waiting)])
    case TakeLock(tx) =>
      var t := s.txs[tx];
      s.(locks := s.locks[NextLock(t).value := tx],
         txs := s.txs[tx := if t.Registrar? then t.(locked := t.locked + 1) else t.(stage := Holding)])
    case CheckBlob(tx) =>
      var t := s.txs[tx];
      var d := t.wanted[t.checked];
      if d in s.store || d in t.staged
      then s.(store := s.store + {d}, txs := s.txs[tx := t.(checked := t.checked + 1)])
      else Ended(s, tx)
    case PutRow(tx, row, d) =>
      var t := s.txs[tx];
      s.(txs := s.txs[tx := t.(pending := t.pending[row := d])])
    case ClearRow(tx, row) =>
      var t := s.txs[tx];
      s.(txs := s.txs[tx := t.(pending := t.pending - {row}, cleared := t.cleared + {row})])
    case CheckReferences(tx) =>
      var t := s.txs[tx];
      s.(txs := s.txs[tx := t.(stage := if t.digest in s.rows.Values then Retained else Unreferenced)])
    case EraseFile(tx) =>
      var t := s.txs[tx];
      s.(store := s.store - {t.digest}, txs := s.txs[tx := t.(stage := Erased)])
    case Commit(tx) =>
      var t := s.txs[tx];
      if t.Registrar? then Ended(s, tx).(rows := (s.rows - t.cleared) + t.pending) else Ended(s, tx)
    case Abort(tx) => Ended(s, tx)
    case RemoveRows(ids) => s.(rows := s.rows - ids)
    case StoreBytes(d) => s.(store := s.store + {d})
  }

  const INITIAL: State := State(map[], {}, map[], map[])

  // ---- The invariant ---------------------------------------------------------------------------

  /** What a transaction has locked is locked by it. */
  predicate Holds(s: State, tx: TxId)
    requires tx in s.txs
  {
    match s.txs[tx]
    case Registrar(wanted, _, locked, checked, pending, _) =>
      && StrictlyAscending(wanted) && locked <= |wanted| && checked <= |wanted|
      && (forall i | 0 <= i < locked :: wanted[i] in s.locks && s.locks[wanted[i]] == tx)
      && (checked > 0 ==> locked == |wanted|)
      && (pending != map[] ==> Registered(s.txs[tx]))
      && (forall r | r in pending :: pending[r] in wanted)
    case Eraser(d, stage) => !stage.Waiting? ==> d in s.locks && s.locks[d] == tx
  }

  /** What a registrar checked is stored, and what an eraser found unreferenced stays unreferenced. */
  predicate Protected(s: State, tx: TxId)
    requires tx in s.txs
  {
    match s.txs[tx]
    case Registrar(wanted, _, _, checked, _, _) =>
      forall i | 0 <= i < checked && i < |wanted| :: wanted[i] in s.store
    case Eraser(d, stage) => stage in {Unreferenced, Erased} ==> d !in s.rows.Values
  }

  predicate NoDangling(s: State) {
    forall r | r in s.rows :: s.rows[r] in s.store
  }

  predicate Inv(s: State) {
    NoDangling(s) && (forall tx | tx in s.txs :: Holds(s, tx) && Protected(s, tx))
  }

  lemma EndedKeeps(s: State, tx: TxId)
    requires Inv(s) && tx in s.txs
    ensures Inv(Ended(s, tx))
  {
    var t := Ended(s, tx);
    forall other | other in t.txs
      ensures Holds(t, other) && Protected(t, other)
    {
      assert Holds(s, other) && Protected(s, other);
    }
  }

  /** A registrar commits only digests it holds locked, so no eraser's finding is overturned. */
  lemma CommitKeeps(s: State, tx: TxId)
    requires Inv(s) && tx in s.txs && Registered(s.txs[tx])
    ensures Inv(Apply(s, Commit(tx)))
  {
    var t, me := Apply(s, Commit(tx)), s.txs[tx];
    EndedKeeps(s, tx);
    assert Holds(s, tx) && Protected(s, tx);
    forall r | r in t.rows
      ensures t.rows[r] in t.store
    {
      if r in me.pending {
        var i :| 0 <= i < |me.wanted| && me.wanted[i] == me.pending[r];
      }
    }
    forall other | other in t.txs
      ensures Holds(t, other) && Protected(t, other)
    {
      assert Holds(s, other) && Protected(s, other);
      assert Holds(Ended(s, tx), other);
      if s.txs[other].Eraser? && s.txs[other].stage in {Unreferenced, Erased} {
        var d := s.txs[other].digest;
        forall r | r in t.rows ensures t.rows[r] != d {
          if r in me.pending {
            var i :| 0 <= i < |me.wanted| && me.wanted[i] == me.pending[r];
            assert s.locks[me.wanted[i]] == tx;
          } else {
            assert s.rows[r] in s.rows.Values;
          }
        }
      }
    }
  }

  /** An eraser removes bytes only while it holds the lock, so every checked digest stays stored. */
  lemma EraseKeeps(s: State, tx: TxId)
    requires Inv(s) && Enabled(s, EraseFile(tx))
    ensures Inv(Apply(s, EraseFile(tx)))
  {
    var t, d := Apply(s, EraseFile(tx)), s.txs[tx].digest;
    assert Holds(s, tx) && Protected(s, tx);
    forall r | r in t.rows ensures t.rows[r] in t.store { assert s.rows[r] in s.rows.Values; }
    forall other | other in t.txs
      ensures Holds(t, other) && Protected(t, other)
    {
      assert Holds(s, other) && Protected(s, other);
      if s.txs[other].Registrar? {
        forall i | 0 <= i < s.txs[other].checked && i < |s.txs[other].wanted|
          ensures s.txs[other].wanted[i] in t.store
        {
          assert s.locks[s.txs[other].wanted[i]] == other;
        }
      }
    }
  }

  lemma LockKeeps(s: State, tx: TxId)
    requires Inv(s) && Enabled(s, TakeLock(tx))
    ensures Inv(Apply(s, TakeLock(tx)))
  {
    var t := Apply(s, TakeLock(tx));
    forall other | other in t.txs
      ensures Holds(t, other) && Protected(t, other)
    {
      assert Holds(s, other) && Protected(s, other);
    }
  }

  lemma CheckKeeps(s: State, tx: TxId)
    requires Inv(s) && Enabled(s, CheckBlob(tx))
    ensures Inv(Apply(s, CheckBlob(tx)))
  {
    var t := Apply(s, CheckBlob(tx));
    if t == Ended(s, tx) {
      EndedKeeps(s, tx);
    } else {
      forall other | other in t.txs
        ensures Holds(t, other) && Protected(t, other)
      {
        assert Holds(s, other) && Protected(s, other);
      }
    }
  }

  lemma RemovalKeeps(s: State, ids: set<RowId>)
    requires Inv(s)
    ensures Inv(s.(rows := s.rows - ids))
  {
    var t := s.(rows := s.rows - ids);
    assert t.rows.Values <= s.rows.Values;
    forall other | other in t.txs
      ensures Holds(t, other) && Protected(t, other)
    {
      assert Holds(s, other) && Protected(s, other);
    }
  }

  lemma OtherStepsKeep(s: State, step: Step)
    requires Inv(s) && Enabled(s, step)
    requires || step.BeginRegistrar? || step.BeginEraser? || step.PutRow? || step.ClearRow? || step.CheckReferences?
             || step.StoreBytes?
    ensures Inv(Apply(s, step))
  {
    var t := Apply(s, step);
    forall other | other in t.txs
      ensures Holds(t, other) && Protected(t, other)
    {
      assert other in s.txs ==> Holds(s, other) && Protected(s, other);
    }
  }

  lemma StepKeeps(s: State, step: Step)
    requires Inv(s) && Enabled(s, step)
    ensures Inv(Apply(s, step))
  {
    match step
    case Commit(tx) =>
      if s.txs[tx].Registrar? { CommitKeeps(s, tx); } else { EndedKeeps(s, tx); }
    case Abort(tx) => EndedKeeps(s, tx);
    case EraseFile(tx) => EraseKeeps(s, tx);
    case TakeLock(tx) => LockKeeps(s, tx);
    case CheckBlob(tx) => CheckKeeps(s, tx);
    case RemoveRows(ids) => RemovalKeeps(s, ids);
    case _ => OtherStepsKeep(s, step);
  }

  ghost predicate Run(states: seq<State>, steps: seq<Step>) {
    && |states| == |steps| + 1
    && states[0] == INITIAL
    && (forall i | 0 <= i < |steps| :: Enabled(states[i], steps[i]) && states[i + 1] == Apply(states[i], steps[i]))
  }

  lemma {:induction false} RunKeeps(states: seq<State>, steps: seq<Step>, n: nat)
    requires Run(states, steps) && n < |states|
    ensures Inv(states[n])
  {
    if n > 0 {
      RunKeeps(states, steps, n - 1);
      StepKeeps(states[n - 1], steps[n - 1]);
    }
  }

  /** In every run, at every point, no committed row references a digest absent from the store. */
  lemma NoCommittedRowDangles(states: seq<State>, steps: seq<Step>, n: nat, row: RowId)
    requires Run(states, steps) && n < |states| && row in states[n].rows
    ensures states[n].rows[row] in states[n].store
  {
    RunKeeps(states, steps, n);
  }

  /** In every run, a file is erased only while no committed row references it, until the eraser ends. */
  lemma ErasedStaysUnreferenced(states: seq<State>, steps: seq<Step>, n: nat, tx: TxId)
    requires Run(states, steps) && n < |states|
    requires tx in states[n].txs && states[n].txs[tx].Eraser? && states[n].txs[tx].stage in {Unreferenced, Erased}
    ensures forall r | r in states[n].rows :: states[n].rows[r] != states[n].txs[tx].digest
  {
    RunKeeps(states, steps, n);
    assert Protected(states[n], tx);
  }

  // ---- One registration, step by step ------------------------------------------------------------

  datatype RegistrationError = ErasedBlob(digest: Digest)

  class Store {
    var present: set<Digest>

    constructor ()
      ensures present == {}
    {
      present := {};
    }

    /**
     * Registers the references a transaction is about to insert: the digest locks it takes, in
     * order, and whether every blob is present at the end. `staged` holds the digests of the bytes
     * the caller can store again.
     */
    method Register(references: seq<Digest>, staged: set<Digest>)
      returns (lockOrder: seq<Digest>, result: Result<(), RegistrationError>)
      modifies this
      ensures StrictlyAscending(lockOrder) && Elements(lockOrder) == Elements(references)
      ensures result.Ok? <==> forall d | d in references :: d in old(present) || d in staged
      ensures result.Ok? ==> present == old(present) + Elements(references)
      ensures result.Err? ==>
                var missing := result.error.digest;
                && missing in references && missing !in old(present) && missing !in staged
                && present == old(present) + (set d | d in Elements(references) && d < missing)
    {
      lockOrder := Sorted(Elements(references));
      ghost var before := present;
      for i := 0 to |lockOrder|
        invariant present == before + Elements(lockOrder[..i])
        invariant Elements(lockOrder[..i]) <= before + staged
      {
        var d := lockOrder[i];
        NextDigest(lockOrder, i);
        if d !in present {
          if d !in staged {
            BelowIsPrefix(lockOrder, i);
            return lockOrder, Err(ErasedBlob(d));
          }
          present := present + {d};
        }
      }
      assert lockOrder[..|lockOrder|] == lockOrder;
      assert forall d | d in references :: d in Elements(references);
      result := Ok(());
    }
  }

  lemma NextDigest(s: seq<Digest>, i: nat)
    requires StrictlyAscending(s) && i < |s|
    ensures s[i] in Elements(s) && s[i] !in Elements(s[..i]) && Elements(s[..i + 1]) == Elements(s[..i]) + {s[i]}
  {
    assert s[..i + 1] == s[..i] + [s[i]];
  }
}
