/**
 * One durable deletion request and any number of attempts at it, each of which may stop between
 * any two commits, or after bytes left and before their commit, and be followed by another.
 */
module DeletionPhases {
  import opened Common

  type Kind = nat
  type Digest = nat
  type AttemptId = nat

  datatype Action = RemoveRecord | EraseBlob | RetainShared | RetainEvidenced | EmitTombstone

  datatype ItemState = Pending | Purged | Retained

  datatype Item = Item(kind: Kind, blob: Option<Digest>, action: Action, state: ItemState)

  /** The content-free evidence: the scope and how many items there are of each kind. */
  datatype Evidence = Evidence(scope: nat, totals: multiset<Kind>)

  datatype Report = Report(categories: multiset<Kind>, evidence: Evidence)

  datatype RequestState = Planned | Purging | Completed

  /** The durable rows of the request; `rowCommits` counts the commits in which its rows left. */
  datatype Request = Request(
    scope: nat, state: RequestState, items: seq<Item>, evidence: Option<Evidence>,
    report: Option<Report>, audits: seq<Report>, rowCommits: nat)

  /** Where one attempt stands. */
  datatype Phase =
    | Started
    | HasEvidence(evidence: Evidence)
    | RowsGone
    | Erasing(todo: seq<nat>)
    | Completing
    | Returned(report: Report)

  datatype State = State(
    request: Request, attempts: map<AttemptId, Phase>, store: set<Digest>, referenced: set<Digest>, erased: set<Digest>)

  // ---- What each phase does ------------------------------------------------------------------------------

  function KindsOf(items: seq<Item>): seq<Kind> {
    seq(|items|, i requires 0 <= i < |items| => items[i].kind)
  }

  function EvidenceOf(r: Request): Evidence {
    Evidence(r.scope, multiset(KindsOf(r.items)))
  }

  predicate Unsettled(item: Item) {
    item.action.EraseBlob? && item.blob.Some? && !item.state.Purged?
  }

  /** An erase becomes a retain for every blob a remaining row references. */
  function RetainReferenced(items: seq<Item>, referenced: set<Digest>): (r: seq<Item>)
    ensures |r| == |items| && forall i | 0 <= i < |items| :: r[i].kind == items[i].kind
  {
    seq(|items|, i requires 0 <= i < |items| =>
      if items[i].action.EraseBlob? && items[i].blob.Some? && items[i].blob.value in referenced
      then items[i].(action := RetainShared, state := Retained) else items[i])
  }

  /** The rows leave, once: a request past that phase is left alone. */
  function RowsRemoved(r: Request, evidence: Evidence, referenced: set<Digest>): Request {
    if !r.state.Planned? then r
    else r.(state := Purging, evidence := Some(evidence), items := RetainReferenced(r.items, referenced),
            rowCommits := r.rowCommits + 1)
  }

  /** The indexes of the items whose bytes are still to erase, in order. */
  function TodoOf(items: seq<Item>): (todo: seq<nat>)
    ensures forall i :: i in todo <==> 0 <= i < |items| && Unsettled(items[i])
    ensures forall j, k | 0 <= j < k < |todo| :: todo[j] < todo[k]
  {
    if items == [] then []
    else
      var n := |items| - 1;
      var front := TodoOf(items[..n]);
      assert forall j | 0 <= j < |front| :: front[j] in front;
      front + if Unsettled(items[n]) then [n] else []
  }

  function Outcome(item: Item, referenced: set<Digest>): Item {
    if item.blob.Some? && item.blob.value in referenced then item.(action := RetainShared, state := Retained)
    else item.(action := EraseBlob, state := Purged)
  }

  function ItemErased(r: Request, i: nat, referenced: set<Digest>): Request {
    if i < |r.items| then r.(items := r.items[i := Outcome(r.items[i], referenced)]) else r
  }

  /** The audit, the report and the end of the item list. */
  function CompletedRequest(r: Request): Request
    requires r.evidence.Some?
  {
    var report := Report(multiset(KindsOf(r.items)), r.evidence.value);
    r.(state := Completed, items := [], report := Some(report), audits := r.audits + [report])
  }

  // ---- Steps -----------------------------------------------------------------------------------------------

  datatype Step =
    | Start(a: AttemptId)
    | StoreEvidence(a: AttemptId)
    | RemoveRows(a: AttemptId)
    | ReadItems(a: AttemptId)
    | Erase(a: AttemptId, blob: Digest, committed: bool)
    | Complete(a: AttemptId)
    | Stop(a: AttemptId)
    | Others(store: set<Digest>, referenced: set<Digest>)

  /** The blob the next item of an erasing attempt named when it was read. */
  predicate NextBlob(planned: seq<Item>, phase: Phase, blob: Digest) {
    && phase.Erasing? && phase.todo != [] && phase.todo[0] < |planned| && planned[phase.todo[0]].blob == Some(blob)
  }

  predicate Enabled(s: State, step: Step, planned: seq<Item>) {
    match step
    case Start(a) => a !in s.attempts
    case StoreEvidence(a) => a in s.attempts && s.attempts[a].Started?
    case RemoveRows(a) => a in s.attempts && s.attempts[a].HasEvidence?
    case ReadItems(a) => a in s.attempts && s.attempts[a].RowsGone?
    case Erase(a, blob, _) => a in s.attempts && NextBlob(planned, s.attempts[a], blob)
    case Complete(a) =>
      && a in s.attempts && (s.attempts[a] == Erasing([]) || s.attempts[a].Completing?)
      && (if s.request.state.Completed? then s.request.report.Some? else s.request.evidence.Some?)
    case Stop(a) => a in s.attempts
    case Others(_, _) => true
  }

  function Apply(s: State, step: Step, planned: seq<Item>): State
    requires Enabled(s, step, planned)
  {
    match step
    case Start(a) => s.(attempts := s.attempts[a := if s.request.state.Completed? then Completing else Started])
    case StoreEvidence(a) => s.(attempts := s.attempts[a := HasEvidence(EvidenceOf(s.request))])
    case RemoveRows(a) =>
      s.(request := RowsRemoved(s.request, s.attempts[a].evidence, s.referenced), attempts := s.attempts[a := RowsGone])
    case ReadItems(a) => s.(attempts := s.attempts[a := Erasing(TodoOf(s.request.items))])
    case Erase(a, blob, committed) =>
      var todo := s.attempts[a].todo;
      var t := if blob in s.referenced then s else s.(store := s.store - {blob}, erased := s.erased + {blob});
      if committed
      then t.(request := ItemErased(s.request, todo[0], s.referenced), attempts := s.attempts[a := Erasing(todo[1..])])
      else t.(attempts := s.attempts - {a})
    case Complete(a) =>
      var r := if s.request.state.Completed? then s.request else CompletedRequest(s.request);
      s.(request := r, attempts := s.attempts[a := Returned(r.report.value)])
    case Stop(a) => s.(attempts := s.attempts - {a})
    case Others(store, referenced) => s.(store := s.store + store, referenced := referenced)
  }

  function Fresh(scope: nat, planned: seq<Item>): Request {
    Request(scope, Planned, planned, None, None, [], 0)
  }

  ghost predicate Run(states: seq<State>, steps: seq<Step>, planned: seq<Item>) {
    && |states| == |steps| + 1
    && states[0].request == Fresh(states[0].request.scope, planned) && states[0].attempts == map[]
        && states[0].erased == {}
    && forall i | 0 <= i < |steps| ::
         Enabled(states[i], steps[i], planned) && states[i + 1] == Apply(states[i], steps[i], planned)
  }

  // ---- The invariant ---------------------------------------------------------------------------------------

  /** The items of the plan, whatever became of their actions. */
  ghost predicate SameItems(items: seq<Item>, planned: seq<Item>) {
    && |items| == |planned|
    && forall i | 0 <= i < |items| :: items[i].kind == planned[i].kind && items[i].blob == planned[i].blob
  }

  ghost function PlannedEvidence(scope: nat, planned: seq<Item>): Evidence {
    Evidence(scope, multiset(KindsOf(planned)))
  }

  ghost predicate RequestInv(r: Request, planned: seq<Item>) {
    var evidence := PlannedEvidence(r.scope, planned);
    match r.state
    case Planned => r == Fresh(r.scope, planned)
    case Purging =>
      && SameItems(r.items, planned) && r.evidence == Some(evidence) && r.report.None? && r.audits == []
          && r.rowCommits == 1
    case Completed =>
      var report := Report(multiset(KindsOf(planned)), evidence);
      && r.items == [] && r.evidence == Some(evidence) && r.report == Some(report) && r.audits == [report]
          && r.rowCommits == 1
  }

  ghost predicate AttemptInv(r: Request, phase: Phase, planned: seq<Item>) {
    match phase
    case Started => true
    case HasEvidence(evidence) => !r.state.Completed? ==> evidence == PlannedEvidence(r.scope, planned)
    case RowsGone => !r.state.Planned?
    case Erasing(todo) =>
      && !r.state.Planned? && (forall i | i in todo :: i < |planned|)
      && forall i | 0 <= i < |r.items| && Unsettled(r.items[i]) :: i in todo
    case Completing => r.state.Completed?
    case Returned(report) => r.report == Some(report)
  }

  ghost predicate Inv(s: State, planned: seq<Item>) {
    && RequestInv(s.request, planned)
    && (forall a | a in s.attempts :: AttemptInv(s.request, s.attempts[a], planned))
    && (s.erased != {} ==> !s.request.state.Planned?)
  }

  lemma SameKinds(items: seq<Item>, planned: seq<Item>)
    requires SameItems(items, planned)
    ensures KindsOf(items) == KindsOf(planned)
  {
  }

  /** A later request state keeps what every attempt relies on, if no item becomes unsettled again. */
  ghost predicate Advances(r: Request, later: Request, planned: seq<Item>) {
    && RequestInv(r, planned) && RequestInv(later, planned) && later.scope == r.scope
    && (!r.state.Planned? ==> !later.state.Planned?)
    && (r.state.Completed? ==> later == r)
    && (!r.state.Planned? ==>
        forall i | 0 <= i < |later.items| && Unsettled(later.items[i]) :: i < |r.items| && Unsettled(r.items[i]))
  }

  lemma AttemptsKept(r: Request, later: Request, phase: Phase, planned: seq<Item>)
    requires Advances(r, later, planned) && AttemptInv(r, phase, planned)
    ensures AttemptInv(later, phase, planned)
  {
  }

  lemma RemovalAdvances(r: Request, evidence: Evidence, referenced: set<Digest>, planned: seq<Item>)
    requires RequestInv(r, planned) && (r.state.Planned? ==> evidence == PlannedEvidence(r.scope, planned))
    ensures Advances(r, RowsRemoved(r, evidence, referenced), planned)
  {
  }

  lemma ErasureAdvances(r: Request, i: nat, referenced: set<Digest>, planned: seq<Item>)
    requires RequestInv(r, planned) && !r.state.Planned?
    ensures Advances(r, ItemErased(r, i, referenced), planned)
    ensures i < |r.items| ==> !Unsettled(ItemErased(r, i, referenced).items[i])
  {
  }

  lemma CompletionAdvances(r: Request, planned: seq<Item>)
    requires RequestInv(r, planned) && r.state.Purging?
    ensures Advances(r, CompletedRequest(r), planned)
  {
    SameKinds(r.items, planned);
  }

  lemma EvidenceReadIsPlanned(r: Request, planned: seq<Item>)
    requires RequestInv(r, planned) && !r.state.Completed?
    ensures EvidenceOf(r) == PlannedEvidence(r.scope, planned)
  {
    SameKinds(r.items, planned);
  }

  lemma OthersKept(s: State, t: State, a: AttemptId, planned: seq<Item>)
    requires Inv(s, planned) && Advances(s.request, t.request, planned)
    requires forall b | b in t.attempts && b != a :: b in s.attempts && t.attempts[b] == s.attempts[b]
    requires a in t.attempts ==> AttemptInv(t.request, t.attempts[a], planned)
    requires t.erased != {} ==> !t.request.state.Planned?
    ensures Inv(t, planned)
  {
    forall b | b in t.attempts ensures AttemptInv(t.request, t.attempts[b], planned) {
      if b != a { AttemptsKept(s.request, t.request, s.attempts[b], planned); }
    }
  }

  lemma EraseKeeps(s: State, a: AttemptId, blob: Digest, committed: bool, planned: seq<Item>)
    requires Inv(s, planned) && Enabled(s, Erase(a, blob, committed), planned)
    ensures Inv(Apply(s, Erase(a, blob, committed), planned), planned)
  {
    var t := Apply(s, Erase(a, blob, committed), planned);
    var todo := s.attempts[a].todo;
    ErasureAdvances(s.request, todo[0], s.referenced, planned);
    if committed {
      assert forall i | i in todo[1..] :: i in todo;
      forall i | 0 <= i < |t.request.items| && Unsettled(t.request.items[i]) ensures i in todo[1..] {
        assert i in todo && i != todo[0];
        var k :| 0 <= k < |todo| && todo[k] == i;
        assert todo[1..][k - 1] == i;
      }
    }
    OthersKept(s, t, a, planned);
  }

  lemma CompleteKeeps(s: State, a: AttemptId, planned: seq<Item>)
    requires Inv(s, planned) && Enabled(s, Complete(a), planned)
    ensures Inv(Apply(s, Complete(a), planned), planned)
  {
    if s.request.state.Purging? { CompletionAdvances(s.request, planned); }
    OthersKept(s, Apply(s, Complete(a), planned), a, planned);
  }

  lemma StepKeeps(s: State, step: Step, planned: seq<Item>)
    requires Inv(s, planned) && Enabled(s, step, planned)
    ensures Inv(Apply(s, step, planned), planned)
  {
    var t := Apply(s, step, planned);
    match step
    case Start(a) => OthersKept(s, t, a, planned);
    case StoreEvidence(a) =>
      if !s.request.state.Completed? { EvidenceReadIsPlanned(s.request, planned); }
      OthersKept(s, t, a, planned);
    case RemoveRows(a) =>
      RemovalAdvances(s.request, s.attempts[a].evidence, s.referenced, planned);
      OthersKept(s, t, a, planned);
    case ReadItems(a) => OthersKept(s, t, a, planned);
    case Erase(a, blob, committed) => EraseKeeps(s, a, blob, committed, planned);
    case Complete(a) => CompleteKeeps(s, a, planned);
    case Stop(a) => OthersKept(s, t, a, planned);
    case Others(_, _) =>
  }

  lemma {:induction false} RunKeeps(states: seq<State>, steps: seq<Step>, planned: seq<Item>, n: nat)
    requires Run(states, steps, planned) && n < |states|
    ensures Inv(states[n], planned)
  {
    if n > 0 {
      RunKeeps(states, steps, planned, n - 1);
      StepKeeps(states[n - 1], steps[n - 1], planned);
    }
  }

  // ---- What holds in every run -------------------------------------------------------------------------------

  /**
   * In every run the rows leave in at most one commit, no byte is erased before it, the audit is
   * written once and only at completion, and the recorded evidence is the one of the plan.
   */
  lemma PhasesInOrder(states: seq<State>, steps: seq<Step>, planned: seq<Item>, n: nat)
    requires Run(states, steps, planned) && n < |states|
    ensures
      var s := states[n];
      && s.request.rowCommits == (if s.request.state.Planned? then 0 else 1)
      && (s.erased != {} ==> s.request.rowCommits == 1)
      && |s.request.audits| == (if s.request.state.Completed? then 1 else 0)
      && (s.request.evidence.Some? <==> s.request.rowCommits == 1)
      && (s.request.evidence.Some? ==> s.request.evidence.value == PlannedEvidence(s.request.scope, planned))
  {
    RunKeeps(states, steps, planned, n);
  }

  /** The step that completes the request finds every erase item purged or retained. */
  lemma CompletionIsSettled(states: seq<State>, steps: seq<Step>, planned: seq<Item>, n: nat)
    requires Run(states, steps, planned) && n < |steps|
    requires !states[n].request.state.Completed? && states[n + 1].request.state.Completed?
    ensures steps[n].Complete? && SameItems(states[n].request.items, planned)
    ensures forall i | 0 <= i < |planned| && states[n].request.items[i].action.EraseBlob? && planned[i].blob.Some? ::
              states[n].request.items[i].state.Purged?
  {
    RunKeeps(states, steps, planned, n);
    RunKeeps(states, steps, planned, n + 1);
    var s := states[n];
    assert steps[n].Complete?;
    var a := steps[n].a;
    assert AttemptInv(s.request, s.attempts[a], planned);
    forall i | 0 <= i < |planned| && s.request.items[i].action.EraseBlob? && planned[i].blob.Some?
      ensures s.request.items[i].state.Purged?
    {
      assert !Unsettled(s.request.items[i]);
    }
  }

  /**
   * In any interleaving, the commit of one erasure tells the truth: the item is purged exactly when
   * no row referenced its blob, and then the blob is gone; otherwise it is retained and nothing went.
   */
  lemma ErasureTellsTheTruth(states: seq<State>, steps: seq<Step>, planned: seq<Item>, n: nat)
    requires Run(states, steps, planned) && n < |steps| && steps[n].Erase? && steps[n].committed
    requires states[n].request.state.Purging?
    ensures
      var s, t, blob := states[n], states[n + 1], steps[n].blob;
      var i := s.attempts[steps[n].a].todo[0];
      && i < |t.request.items| && t.request.items[i].blob == Some(blob)
      && (t.request.items[i].state.Purged? <==> blob !in s.referenced)
      && (t.request.items[i].state.Purged? ==> blob !in t.store && blob in t.erased)
      && (t.request.items[i].state.Retained? <==> blob in s.referenced)
      && (t.request.items[i].state.Retained? ==> t.store == s.store)
  {
    RunKeeps(states, steps, planned, n);
    assert AttemptInv(states[n].request, states[n].attempts[steps[n].a], planned);
  }

  /** An item that was not settled by the plan, and is now. */
  ghost predicate BecamePurged(r: Request, planned: seq<Item>, i: nat) {
    i < |r.items| && i < |planned| && r.items[i].state.Purged? && !planned[i].state.Purged?
  }

  ghost predicate BecameRetained(r: Request, planned: seq<Item>, i: nat) {
    i < |r.items| && i < |planned| && r.items[i].state.Retained? && !planned[i].state.Retained?
  }

  /** Every purged item of every reachable state had its blob erased. */
  lemma {:induction false} PurgedWasErased(states: seq<State>, steps: seq<Step>, planned: seq<Item>, n: nat, i: nat)
    requires Run(states, steps, planned) && n < |states| && BecamePurged(states[n].request, planned, i)
    ensures planned[i].blob.Some? && planned[i].blob.value in states[n].erased
  {
    RunKeeps(states, steps, planned, n - 1);
    if BecamePurged(states[n - 1].request, planned, i) { PurgedWasErased(states, steps, planned, n - 1, i); }
    PurgingErases(states[n - 1], steps[n - 1], planned, i);
  }

  /** An item turns purged only in the commit that erases its blob, and what is erased is recorded for good. */
  lemma PurgingErases(s: State, step: Step, planned: seq<Item>, i: nat)
    requires Inv(s, planned) && Enabled(s, step, planned)
    ensures s.erased <= Apply(s, step, planned).erased
    ensures BecamePurged(Apply(s, step, planned).request, planned, i) && !BecamePurged(s.request, planned, i) ==>
              planned[i].blob.Some? && planned[i].blob.value in Apply(s, step, planned).erased
  {
  }

  /** Step `k` is the commit that retains item `i`, and a row references its blob there. */
  ghost predicate RetainsAt(states: seq<State>, steps: seq<Step>, planned: seq<Item>, k: nat, i: nat)
    requires Run(states, steps, planned) && k < |steps| && i < |planned|
  {
    && (steps[k].Erase? || steps[k].RemoveRows?)
    && !BecameRetained(states[k].request, planned, i) && BecameRetained(states[k + 1].request, planned, i)
    && planned[i].blob.Some? && planned[i].blob.value in states[k].referenced
  }

  /** Every item a run retained was referenced by a row at the commit that retained it. */
  lemma {:induction false} RetainedWasReferenced(
      states: seq<State>, steps: seq<Step>, planned: seq<Item>, n: nat, i: nat)
    returns (k: nat)
    requires Run(states, steps, planned) && n < |states| && BecameRetained(states[n].request, planned, i)
    ensures k < n && RetainsAt(states, steps, planned, k, i)
  {
    RunKeeps(states, steps, planned, n - 1);
    if BecameRetained(states[n - 1].request, planned, i) {
      k := RetainedWasReferenced(states, steps, planned, n - 1, i);
    } else {
      k := n - 1;
    }
  }

  /** What an attempt returns is the stored report, whichever attempt wrote it. */
  lemma ReturnedIsStored(states: seq<State>, steps: seq<Step>, planned: seq<Item>, n: nat, a: AttemptId)
    requires Run(states, steps, planned) && n < |states| && a in states[n].attempts && states[n].attempts[a].Returned?
    ensures states[n].request.report == Some(states[n].attempts[a].report)
    ensures states[n].attempts[a].report
            == Report(multiset(KindsOf(planned)), PlannedEvidence(states[n].request.scope, planned))
  {
    RunKeeps(states, steps, planned, n);
    assert AttemptInv(states[n].request, states[n].attempts[a], planned);
  }

  lemma StepAdvances(s: State, step: Step, planned: seq<Item>)
    requires Inv(s, planned) && Enabled(s, step, planned)
    ensures Advances(s.request, Apply(s, step, planned).request, planned)
  {
    match step
    case RemoveRows(a) => RemovalAdvances(s.request, s.attempts[a].evidence, s.referenced, planned);
    case Erase(a, _, _) => ErasureAdvances(s.request, s.attempts[a].todo[0], s.referenced, planned);
    case Complete(_) => if s.request.state.Purging? { CompletionAdvances(s.request, planned); }
    case _ =>
  }

  /** Once completed the request never changes, so every later call returns the same report. */
  lemma {:induction false} CompletedForEver(states: seq<State>, steps: seq<Step>, planned: seq<Item>, m: nat, n: nat)
    requires Run(states, steps, planned) && m <= n < |states| && states[m].request.state.Completed?
    ensures states[n].request == states[m].request
    decreases n - m
  {
    if m < n {
      RunKeeps(states, steps, planned, m);
      StepAdvances(states[m], steps[m], planned);
      CompletedForEver(states, steps, planned, m + 1, n);
    }
  }

  /** An attempt computes the evidence of the plan exactly when the items are still there, or were none. */
  lemma EvidenceIsStableIff(states: seq<State>, steps: seq<Step>, planned: seq<Item>, n: nat)
    requires Run(states, steps, planned) && n < |states|
    ensures EvidenceOf(states[n].request) == PlannedEvidence(states[n].request.scope, planned)
            <==> !states[n].request.state.Completed? || planned == []
  {
    RunKeeps(states, steps, planned, n);
    var r := states[n].request;
    if r.state.Completed? {
      assert KindsOf(r.items) == [];
      if planned != [] {
        assert KindsOf(planned)[0] in multiset(KindsOf(planned));
      }
    } else {
      EvidenceReadIsPlanned(r, planned);
    }
  }

  /**
   * Two attempts at once: the second began before the first completed and reads the items after,
   * so it stores evidence of an empty list. The recorded evidence is not affected.
   */
  lemma RacingAttemptStoresOtherEvidence() returns (states: seq<State>, steps: seq<Step>, planned: seq<Item>)
    ensures Run(states, steps, planned) && |steps| > 0 && steps[|steps| - 1] == StoreEvidence(2)
    ensures 2 in states[|steps|].attempts
    ensures states[|steps|].attempts[2] != HasEvidence(PlannedEvidence(0, planned))
  {
    planned := RACE_PLAN;
    steps := [Start(1), Start(2), StoreEvidence(1), RemoveRows(1), ReadItems(1), Complete(1), StoreEvidence(2)];
    states := seq(8, i requires 0 <= i < 8 => RaceState(i));
    forall i | 0 <= i < 7
      ensures Enabled(states[i], steps[i], planned) && states[i + 1] == Apply(states[i], steps[i], planned)
    {
      if i < 3 { RaceBegins(i, steps[i]); } else { RaceEnds(i, steps[i]); }
    }
    EmptyTotalsDiffer(RaceRequest(6), planned);
  }

  const RACE_PLAN: seq<Item> := [Item(4, None, RemoveRecord, Pending)]

  function RaceRequest(i: nat): Request {
    var plain := Fresh(0, RACE_PLAN);
    var evidence := EvidenceOf(plain);
    var report := Report(multiset(KindsOf(RACE_PLAN)), evidence);
    if i <= 3 then plain
    else if i <= 5 then plain.(state := Purging, evidence := Some(evidence), rowCommits := 1)
    else Request(0, Completed, [], Some(evidence), Some(report), [report], 1)
  }

  function RaceState(i: nat): State {
    var evidence := EvidenceOf(Fresh(0, RACE_PLAN));
    var first :=
      if i <= 2 then Started else if i == 3 then HasEvidence(evidence) else if i == 4 then RowsGone
      else if i == 5 then Erasing([]) else Returned(Report(multiset(KindsOf(RACE_PLAN)), evidence));
    var second := if i <= 6 then Started else HasEvidence(EvidenceOf(RaceRequest(i)));
    var attempts := if i == 0 then map[] else if i == 1 then map[1 := first] else map[1 := first, 2 := second];
    State(RaceRequest(i), attempts, {}, {}, {})
  }

  lemma RaceBegins(i: nat, step: Step)
    requires i < 3 && step == (match i case 0 => Start(1) case 1 => Start(2) case _ => StoreEvidence(1))
    ensures Enabled(RaceState(i), step, RACE_PLAN) && RaceState(i + 1) == Apply(RaceState(i), step, RACE_PLAN)
  {
    assert RaceState(i + 1).attempts == Apply(RaceState(i), step, RACE_PLAN).attempts;
  }

  lemma RaceEnds(i: nat, step: Step)
    requires 3 <= i < 7
    requires step == (match i
                      case 3 => RemoveRows(1) case 4 => ReadItems(1) case 5 => Complete(1) case _ => StoreEvidence(2))
    ensures Enabled(RaceState(i), step, RACE_PLAN) && RaceState(i + 1) == Apply(RaceState(i), step, RACE_PLAN)
  {
    match i
    case 3 => RaceRemoves();
    case 4 => RaceReads();
    case 5 => RaceCompletes();
    case 6 => RaceStores();
  }

  lemma RaceRemoves()
    ensures Enabled(RaceState(3), RemoveRows(1), RACE_PLAN)
    ensures RaceState(4) == Apply(RaceState(3), RemoveRows(1), RACE_PLAN)
  {
    assert RetainReferenced(RACE_PLAN, {}) == RACE_PLAN;
    assert RaceState(4).attempts == Apply(RaceState(3), RemoveRows(1), RACE_PLAN).attempts;
  }

  lemma RaceReads()
    ensures Enabled(RaceState(4), ReadItems(1), RACE_PLAN)
    ensures RaceState(5) == Apply(RaceState(4), ReadItems(1), RACE_PLAN)
  {
    NothingToErase(RACE_PLAN[0]);
    assert RaceState(5).attempts == Apply(RaceState(4), ReadItems(1), RACE_PLAN).attempts;
  }

  lemma RaceCompletes()
    ensures Enabled(RaceState(5), Complete(1), RACE_PLAN)
    ensures RaceState(6) == Apply(RaceState(5), Complete(1), RACE_PLAN)
  {
    assert [] + RaceRequest(6).audits == RaceRequest(6).audits;
    assert RaceState(6).request == Apply(RaceState(5), Complete(1), RACE_PLAN).request;
    assert RaceState(6).attempts == Apply(RaceState(5), Complete(1), RACE_PLAN).attempts;
  }

  lemma RaceStores()
    ensures Enabled(RaceState(6), StoreEvidence(2), RACE_PLAN)
    ensures RaceState(7) == Apply(RaceState(6), StoreEvidence(2), RACE_PLAN)
  {
    assert RaceState(7).attempts == Apply(RaceState(6), StoreEvidence(2), RACE_PLAN).attempts;
  }

  lemma EmptyTotalsDiffer(r: Request, planned: seq<Item>)
    requires r.items == [] && planned != []
    ensures EvidenceOf(r) != PlannedEvidence(0, planned)
  {
    assert KindsOf(planned)[0] in multiset(KindsOf(planned));
    assert KindsOf(r.items) == [];
  }

  lemma NothingToErase(item: Item)
    requires !item.action.EraseBlob?
    ensures TodoOf([item]) == []
  {
    assert [item][..0] == [];
  }

  // ---- One attempt on its own ----------------------------------------------------------------------------------

  class Executor {
    var request: Request
    var store: set<Digest>

    constructor (planned: Request, blobs: set<Digest>)
      ensures request == planned && store == blobs
    {
      request, store := planned, blobs;
    }

    /** One item: its blob goes unless a row still references it. */
    method EraseItem(i: nat, referenced: set<Digest>)
      requires i < |request.items| && Unsettled(request.items[i])
      modifies this
      ensures request == ItemErased(old(request), i, referenced)
      ensures store == old(store) - ({request.items[i].blob.value} - referenced)
    {
      var blob := request.items[i].blob.value;
      if blob !in referenced {
        store := store - {blob};
      }
      request := request.(items := request.items[i := Outcome(request.items[i], referenced)]);
    }

    method EraseBytes(referenced: set<Digest>, resolved: set<Digest>) returns (ok: bool)
      modifies this
      ensures request == old(request).(items := request.items) && SameItems(request.items, old(request.items))
      ensures store <= old(store) && old(store) * referenced <= store
      ensures ok ==> forall i | 0 <= i < |request.items| :: !Unsettled(request.items[i])
      ensures ok ==> AllPurgedGone(old(request.items), request.items, store)
      ensures !ok ==>
        exists i :: 0 <= i < |request.items| && Unsettled(request.items[i]) && request.items[i].blob.value !in resolved
    {
      var todo := TodoOf(request.items);
      ghost var before := request;
      for k := 0 to |todo|
        invariant request == before.(items := request.items) && SameItems(request.items, before.items)
        invariant store <= old(store) && old(store) * referenced <= store
        invariant SettledBelow(before.items, request.items, todo, k)
        invariant AllPurgedGone(before.items, request.items, store)
      {
        var i := todo[k];
        assert i in todo && request.items[i] == before.items[i];
        if request.items[i].blob.value !in resolved {
          return false;
        }
        ghost var items := request.items;
        EraseItem(i, referenced);
        SettleOneMore(before.items, items, todo, k, referenced);
      }
      ok := true;
      forall i | 0 <= i < |request.items| ensures !Unsettled(request.items[i]) {
        if i in todo {
          var j :| 0 <= j < |todo| && todo[j] == i;
        }
      }
    }

    /** Every phase in turn; a completed request only returns what it stored. */
    method Finalize(referenced: set<Digest>, resolved: set<Digest>, ghost planned: seq<Item>)
      returns (report: Option<Report>)
      requires RequestInv(request, planned)
      modifies this
      ensures RequestInv(request, planned) && request.scope == old(request.scope)
      ensures old(request.state).Completed? ==>
          request == old(request) && store == old(store) && report == request.report
      ensures report.Some? ==> request.state.Completed? && report == request.report
      ensures report.None? ==> request.state.Purging?
      ensures report.Some? <== resolved >= BlobsOf(planned)
    {
      if request.state.Completed? {
        return request.report;
      }
      EvidenceReadIsPlanned(request, planned);
      RemovalAdvances(request, EvidenceOf(request), referenced, planned);
      request := RowsRemoved(request, EvidenceOf(request), referenced);
      var ok := EraseBytes(referenced, resolved);
      if !ok {
        return None;
      }
      CompletionAdvances(request, planned);
      request := CompletedRequest(request);
      report := request.report;
    }
  }

  /** After `k` of the items to erase: those are settled and every other item is as it was. */
  ghost predicate SettledBelow(before: seq<Item>, items: seq<Item>, todo: seq<nat>, k: nat)
    requires |before| == |items| && k <= |todo|
  {
    && (forall j | 0 <= j < k :: todo[j] < |items| && !Unsettled(items[todo[j]]))
    && (forall i | 0 <= i < |items| && items[i] != before[i] :: exists j :: 0 <= j < k && todo[j] == i)
  }

  /** The blob of every item purged since `before` is gone from the store. */
  ghost predicate AllPurgedGone(before: seq<Item>, items: seq<Item>, store: set<Digest>)
    requires |before| == |items|
  {
    forall i | 0 <= i < |items| && Unsettled(before[i]) && items[i].state.Purged? && items[i].blob.Some? ::
      items[i].blob.value !in store
  }

  lemma SettleOneMore(before: seq<Item>, items: seq<Item>, todo: seq<nat>, k: nat, referenced: set<Digest>)
    requires |before| == |items| && k < |todo| && SettledBelow(before, items, todo, k) && todo[k] < |items|
    requires forall j, l | 0 <= j < l < |todo| :: todo[j] < todo[l]
    ensures SettledBelow(before, items[todo[k] := Outcome(items[todo[k]], referenced)], todo, k + 1)
  {
    var after := items[todo[k] := Outcome(items[todo[k]], referenced)];
    forall i | 0 <= i < |after| && after[i] != before[i] ensures exists j :: 0 <= j < k + 1 && todo[j] == i {
      if i != todo[k] {
        var j :| 0 <= j < k && todo[j] == i;
      }
    }
  }

  ghost function BlobsOf(items: seq<Item>): set<Digest> {
    set i | 0 <= i < |items| && items[i].blob.Some? :: items[i].blob.value
  }
}
