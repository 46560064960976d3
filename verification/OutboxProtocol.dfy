/**
 * The outbox pump, the deletions that remove outbox rows, and the acknowledgements of tombstones,
 * as one interleaved step system: one sequential pump, any number of deletions, and a broker that
 * answers a retry with an old or a new sequence.
 */
module OutboxProtocol {
  import opened Common
  import opened OutboxEvents
  import StreamErasure

  datatype Outcome = Applied | Refused

  datatype Row = Row(
    kind: EventType,
    aggregateId: AggregateRef,
    owner: Option<Owner>,
    command: Option<Command>,
    published: bool,
    undeliverable: bool,
    sequences: set<Sequence>,
    acknowledged: Option<Outcome>,
    resends: nat,
    nextResend: Option<nat>)

  /** An acknowledged stream message and the outbox row it is a copy of. */
  datatype Copy = Copy(event: EventId, kind: EventType, owner: Option<Owner>)

  /** The sequences carried for one row whose mark did not commit. */
  datatype Carried = Carried(owner: Owner, sequences: set<Sequence>)

  /** Where the one sequential pump stands. `Locked` and `Acked` hold the row lock of `event`. */
  datatype Pump =
    | Idle
    | Locked(event: EventId)
    | Acked(event: EventId, sequences: set<Sequence>)
    | CommitFailed(event: EventId, kind: EventType, owner: Option<Owner>, sequences: set<Sequence>)
    | Orphan(event: EventId)
    | Forgetting(event: EventId)

  datatype State = State(
    rows: map<EventId, Row>,
    used: set<EventId>,
    copies: map<Sequence, Copy>,
    pump: Pump,
    carried: map<EventId, Carried>,
    issued: set<Command>,
    planned: set<EventId>)

  // ---- Which rows a deletion may remove --------------------------------------------------------

  /** The queries that pick outbox rows for removal. */
  datatype Selection =
    | OfTenant(owners: set<Owner>, exports: set<AggregateRef>)
    | OfRemovedSubjects(aggregates: set<AggregateRef>)
    | OfRemovedArtifacts(owners: set<Owner>, artifacts: set<AggregateRef>)
    | OfDeletedArchives
    | OfStaleConversation(owner: Owner, conversation: AggregateRef)
    | OfIdenticalFact(kind: EventType)

  predicate UnacknowledgedTombstone(row: Row) {
    row.kind.SubjectTombstoned? && row.acknowledged.None?
  }

  predicate UnsentCommand(row: Row) {
    row.kind.StreamErasureRequested? && !row.published && !row.undeliverable
  }

  predicate ValidSelection(sel: Selection) {
    match sel
    case OfRemovedSubjects(aggregates) =>
      forall a | a in aggregates :: a.ConversationRef? || a.ProjectRef? || a.ArchiveRef?
    case OfIdenticalFact(kind) => kind in {ProjectUpdated, ConversationUpdated, ArtifactUpdated}
    case _ => true
  }

  predicate Selects(sel: Selection, row: Row) {
    match sel
    case OfTenant(owners, exports) =>
      || (row.owner.Some? && row.owner.value in owners && !UnacknowledgedTombstone(row) && !UnsentCommand(row))
      || (AggregateTypeOf(row.kind).OfExport? && row.aggregateId in exports)
    case OfRemovedSubjects(aggregates) => row.aggregateId in aggregates && !row.kind.SubjectTombstoned?
    case OfRemovedArtifacts(owners, artifacts) =>
      && row.owner.Some? && row.owner.value in owners && AggregateTypeOf(row.kind).OfArtifact?
      && row.aggregateId in artifacts && !row.kind.SubjectTombstoned?
    case OfDeletedArchives => row.kind !in {SubjectTombstoned, OperationReported, StreamErasureRequested}
    case OfStaleConversation(owner, conversation) =>
      && row.owner == Some(owner) && row.aggregateId == conversation
      && row.kind in {ConversationAdded, ConversationUpdated}
    case OfIdenticalFact(kind) => row.kind == kind
  }

  // ---- Steps -----------------------------------------------------------------------------------

  datatype Step =
    | Insert(id: EventId, row: Row)
    | Lock(id: EventId)
    | Ack(q: Sequence)
    | Refuse
    | Commit(firstResend: nat)
    | FailCommit(applied: bool, firstResend: nat)
    | Keep
    | ReadCarried(id: EventId)
    | EraseOrphan(orphanCommands: seq<Command>, orphanRows: map<EventId, Command>, reported: bool)
    | AbandonOrphan
    | Forget
    | MarkUndeliverable(id: EventId)
    | Resend(id: EventId, again: Sequence, due: nat)
    | Acknowledge(id: EventId, sender: Owner, outcome: Outcome)
    | Plan(sel: Selection, chosen: set<EventId>)
    | Drop(using: Selection, ids: set<EventId>, commands: seq<Command>, commandRows: map<EventId, Command>)

  function LockedEvents(pump: Pump): set<EventId> {
    match pump
    case Locked(e) => {e}
    case Acked(e, _) => {e}
    case _ => {}
  }

  function CarriedFor(s: State, e: EventId): set<Sequence> {
    if e in s.carried then s.carried[e].sequences else {}
  }

  function CommandRow(c: Command): Row {
    Row(StreamErasureRequested, RequestRef(c.request), Some(c.owner), Some(c), false, false, {}, None, 0, None)
  }

  function Marked(row: Row, sequences: set<Sequence>, firstResend: nat): Row {
    row.(published := true, sequences := row.sequences + sequences,
         nextResend := if row.kind.SubjectTombstoned? then Some(firstResend) else None)
  }

  /** What removing `removed` must ask for, and no more. */
  ghost predicate Asks(commands: seq<Command>, removed: map<EventId, Row>) {
    AsksOnly(commands, removed) && AsksAll(commands, removed)
  }

  ghost predicate AsksOnly(commands: seq<Command>, removed: map<EventId, Row>) {
    forall c, q | c in commands && q in c.sequences ::
      exists id :: id in removed && IsContentBearing(removed[id].kind) && removed[id].owner == Some(c.owner)
                   && q in removed[id].sequences
  }

  ghost predicate AsksAll(commands: seq<Command>, removed: map<EventId, Row>) {
    forall id, q | id in removed && IsContentBearing(removed[id].kind) && removed[id].owner.Some?
                   && q in removed[id].sequences ::
      exists c :: c in commands && c.owner == removed[id].owner.value && q in c.sequences
  }

  ghost predicate AsksCarried(commands: seq<Command>, entry: Carried) {
    && (forall c | c in commands :: c.owner == entry.owner)
    && (forall c, q | c in commands && q in c.sequences :: q in entry.sequences)
    && (forall q | q in entry.sequences :: exists c :: c in commands && q in c.sequences)
  }

  /** `inserted` inserts every command that has no identical row in `rows` under a new id. */
  ghost predicate Enqueues(
      rows: map<EventId, Row>, used: set<EventId>, commands: seq<Command>, inserted: map<EventId, Command>) {
    && inserted.Keys !! used
    && (forall id | id in inserted :: inserted[id] in commands)
    && (forall c | c in commands ::
          || (exists id :: id in inserted && inserted[id] == c)
          || (exists id :: id in rows && rows[id].command == Some(c)))
  }

  function WithCommands(rows: map<EventId, Row>, inserted: map<EventId, Command>): map<EventId, Row> {
    rows + map id | id in inserted :: CommandRow(inserted[id])
  }

  /** A row as it is enqueued: no publication, no acknowledgement, and not a command. */
  predicate NewRow(row: Row) {
    && !row.kind.StreamErasureRequested? && row.command.None?
    && !row.published && !row.undeliverable && row.sequences == {}
    && row.acknowledged.None? && row.resends == 0 && row.nextResend.None?
  }

  function Without(rows: map<EventId, Row>, ids: set<EventId>): map<EventId, Row> {
    map id | id in rows && id !in ids :: rows[id]
  }

  function Removed(rows: map<EventId, Row>, ids: set<EventId>): map<EventId, Row> {
    map id | id in rows && id in ids :: rows[id]
  }

  /** The broker's answer to a publish of `event`: a copy it already acknowledged, or another one. */
  predicate Answers(s: State, event: EventId, q: Sequence) {
    q > 0 && (q in s.copies ==> s.copies[q].event == event)
  }

  ghost predicate Enabled(s: State, step: Step) {
    match step
    case Insert(id, row) => id !in s.used && NewRow(row)
    case Lock(id) => s.pump.Idle? && id in s.rows && !s.rows[id].published && !s.rows[id].undeliverable
    case Ack(q) => s.pump.Locked? && s.pump.event in s.rows && Answers(s, s.pump.event, q)
    case Refuse => s.pump.Locked?
    case Commit(_) => s.pump.Acked? && s.pump.event in s.rows && !s.rows[s.pump.event].published
    case FailCommit(applied, _) => s.pump.Acked? && s.pump.event in s.rows && !s.rows[s.pump.event].published
    case Keep => s.pump.CommitFailed?
    case ReadCarried(id) => s.pump.Idle? && id in s.carried
    case EraseOrphan(commands, inserted, _) =>
      && s.pump.Orphan? && s.pump.event in s.carried
      && AsksCarried(commands, s.carried[s.pump.event]) && Enqueues(s.rows, s.used, commands, inserted)
    case AbandonOrphan => s.pump.Orphan?
    case Forget => s.pump.Forgetting?
    case MarkUndeliverable(id) => s.pump.Idle?
    case Resend(id, q, _) =>
      && s.pump.Idle? && id in s.rows && s.rows[id].kind.SubjectTombstoned? && s.rows[id].published
      && Answers(s, id, q)
    case Acknowledge(id, sender, outcome) => true
    case Plan(sel, chosen) =>
      && ValidSelection(sel)
      && (forall id | id in chosen :: id in s.rows && Selects(sel, s.rows[id]))
    case Drop(sel, ids, commands, inserted) =>
      && ValidSelection(sel)
      && ids !! LockedEvents(s.pump)
      && (forall id | id in ids && id in s.rows :: id in s.planned || Selects(sel, s.rows[id]))
      && Asks(commands, Removed(s.rows, ids))
      && Enqueues(Without(s.rows, ids), s.used, commands, inserted)
  }

  /** The broker acknowledged the locked row under `q`. */
  function AckedState(s: State, q: Sequence): State
    requires s.pump.Locked? && s.pump.event in s.rows
  {
    var e := s.pump.event;
    s.(pump := Acked(e, CarriedFor(s, e) + {q}), copies := s.copies[q := Copy(e, s.rows[e].kind, s.rows[e].owner)])
  }

  /** The sequences of a failed commit are carried when they are owned content. */
  function KeptState(s: State): State
    requires s.pump.CommitFailed?
  {
    var p := s.pump;
    s.(pump := Idle,
       carried := if IsContentBearing(p.kind) && p.owner.Some?
                  then s.carried[p.event := Carried(p.owner.value, p.sequences)] else s.carried)
  }

  function Apply(s: State, step: Step): State
    requires Enabled(s, step)
  {
    match step
    case Insert(id, row) => s.(rows := s.rows[id := row], used := s.used + {id})
    case Lock(id) => s.(pump := Locked(id))
    case Ack(q) => AckedState(s, q)
    case Refuse => s.(pump := Idle)
    case Commit(firstResend) =>
      var e := s.pump.event;
      s.(rows := s.rows[e := Marked(s.rows[e], s.pump.sequences, firstResend)], pump := Forgetting(e))
    case FailCommit(applied, firstResend) =>
      var e := s.pump.event;
      s.(rows := if applied then s.rows[e := Marked(s.rows[e], s.pump.sequences, firstResend)] else s.rows,
         pump := CommitFailed(e, s.rows[e].kind, s.rows[e].owner, s.pump.sequences))
    case Keep => KeptState(s)
    case ReadCarried(id) =>
      if id !in s.rows then s.(pump := Orphan(id))
      else if s.rows[id].published then s.(pump := Forgetting(id))
      else s
    case EraseOrphan(commands, inserted, reported) =>
      s.(rows := WithCommands(s.rows, inserted), used := s.used + inserted.Keys,
         issued := s.issued + (set c | c in commands),
         pump := if reported then Forgetting(s.pump.event) else Idle)
    case AbandonOrphan => s.(pump := Idle)
    case Forget => s.(pump := Idle, carried := s.carried - {s.pump.event})
    case MarkUndeliverable(id) =>
      if id in s.rows && !s.rows[id].published && !s.rows[id].undeliverable
      then s.(rows := s.rows[id := s.rows[id].(undeliverable := true)]) else s
    case Resend(id, q, due) =>
      var row := s.rows[id];
      s.(copies := s.copies[q := Copy(id, row.kind, row.owner)],
         rows := if row.acknowledged.None?
                 then s.rows[id := row.(resends := row.resends + 1, nextResend := Some(due))] else s.rows)
    case Acknowledge(id, sender, outcome) =>
      if id in s.rows && s.rows[id].kind.SubjectTombstoned? && s.rows[id].owner == Some(sender)
          && s.rows[id].acknowledged.None?
      then s.(rows := s.rows[id := s.rows[id].(acknowledged := Some(outcome))]) else s
    case Plan(sel, chosen) => s.(planned := s.planned + chosen)
    case Drop(sel, ids, commands, inserted) =>
      s.(rows := WithCommands(Without(s.rows, ids), inserted), used := s.used + inserted.Keys,
         issued := s.issued + (set c | c in commands))
  }

  const INITIAL: State := State(map[], {}, map[], Idle, map[], {}, {})

  // ---- The invariant ---------------------------------------------------------------------------

  /** Every copy of `event` among these sequences. */
  ghost predicate CopiesOf(s: State, event: EventId, sequences: set<Sequence>) {
    forall q | q in sequences :: q in s.copies && s.copies[q].event == event
  }

  /** Ids are never reused, and a copy records the type and owner of its row. */
  ghost predicate Identities(s: State) {
    && s.rows.Keys <= s.used
    && s.planned <= s.used
    && (forall q | q in s.copies :: q > 0 && s.copies[q].event in s.used)
    && (forall q | q in s.copies && s.copies[q].event in s.rows ::
          s.copies[q].kind == s.rows[s.copies[q].event].kind && s.copies[q].owner == s.rows[s.copies[q].event].owner)
    && (forall q, r | q in s.copies && r in s.copies
        && s.copies[q].event == s.copies[r].event :: s.copies[q] == s.copies[r])
  }

  ghost predicate RowsWellFormed(s: State) {
    forall id | id in s.rows ::
      var row := s.rows[id];
      && CopiesOf(s, id, row.sequences)
      && (row.published ==> !row.undeliverable)
      && (row.kind.SubjectTombstoned? && row.published ==> row.nextResend.Some?)
      && (row.kind.StreamErasureRequested? <==> row.command.Some?)
      && (row.command.Some? ==> row.command.value in s.issued && row.aggregateId.RequestRef?)
  }

  /** A carried entry is content of its owner, and a row that was marked already names it. */
  ghost predicate CarriedWellFormed(s: State) {
    forall id | id in s.carried ::
      && id in s.used
      && CopiesOf(s, id, s.carried[id].sequences)
      && (forall q | q in s.carried[id].sequences ::
            IsContentBearing(s.copies[q].kind) && s.copies[q].owner == Some(s.carried[id].owner))
      && (id in s.rows && s.rows[id].published ==> s.carried[id].sequences <= s.rows[id].sequences)
  }

  ghost predicate PumpWellFormed(s: State) {
    match s.pump
    case Idle => true
    case Locked(e) => e in s.rows && !s.rows[e].published && !s.rows[e].undeliverable
    case Acked(e, qs) =>
      && e in s.rows && !s.rows[e].published && !s.rows[e].undeliverable
      && CopiesOf(s, e, qs) && CarriedFor(s, e) <= qs && qs != {}
    case CommitFailed(e, kind, owner, qs) =>
      && e in s.used && CopiesOf(s, e, qs) && CarriedFor(s, e) <= qs
      && (forall q | q in qs :: s.copies[q].kind == kind && s.copies[q].owner == owner)
      && (e in s.rows && s.rows[e].published ==> qs <= s.rows[e].sequences)
    case Orphan(e) => e in s.used && e !in s.rows
    case Forgetting(e) =>
      e in s.carried ==>
        || (e in s.rows && s.rows[e].published)
        || (forall q | q in s.carried[e].sequences :: Requested(s.issued, s.carried[e].owner, q))
  }

  ghost predicate Requested(issued: set<Command>, owner: Owner, q: Sequence) {
    exists c :: c in issued && c.owner == owner && q in c.sequences
  }

  /** A command names acknowledged copies of its owner's content whose row is gone. */
  ghost predicate CommandsErasable(s: State) {
    forall c, q | c in s.issued && q in c.sequences ::
      && q in s.copies && IsContentBearing(s.copies[q].kind) && s.copies[q].owner == Some(c.owner)
      && s.copies[q].event !in s.rows
  }

  function InFlight(pump: Pump, event: EventId): set<Sequence> {
    match pump
    case Acked(e, qs) => if e == event then qs else {}
    case CommitFailed(e, _, _, qs) => if e == event then qs else {}
    case _ => {}
  }

  /** Somebody still answers for this copy. */
  ghost predicate Named(s: State, q: Sequence)
    requires q in s.copies && s.copies[q].owner.Some?
  {
    var c := s.copies[q];
    || (c.event in s.rows && q in s.rows[c.event].sequences)
    || q in InFlight(s.pump, c.event)
    || q in CarriedFor(s, c.event)
    || Requested(s.issued, c.owner.value, q)
  }

  ghost predicate EveryCopyNamed(s: State) {
    forall q | q in s.copies && IsContentBearing(s.copies[q].kind) && s.copies[q].owner.Some? :: Named(s, q)
  }

  /** A stale plan never reaches a tombstone still waiting or a command still unsent. */
  ghost predicate PlansSpare(s: State) {
    forall id | id in s.planned && id in s.rows :: !UnacknowledgedTombstone(s.rows[id]) && !UnsentCommand(s.rows[id])
  }

  ghost predicate Inv(s: State) {
    && Identities(s) && RowsWellFormed(s) && CarriedWellFormed(s) && PumpWellFormed(s)
    && CommandsErasable(s) && EveryCopyNamed(s) && PlansSpare(s)
  }

  // ---- Every step keeps it ---------------------------------------------------------------------

  /** What answers for a copy still does when rows, flights, carried entries and commands only grow. */
  lemma NamesKept(s: State, t: State)
    requires EveryCopyNamed(s) && t.copies == s.copies && s.issued <= t.issued
    requires forall e | e in s.rows :: e in t.rows && s.rows[e].sequences <= t.rows[e].sequences
    requires forall e :: InFlight(s.pump, e) <= InFlight(t.pump, e)
    requires forall e :: CarriedFor(s, e) <= CarriedFor(t, e)
    ensures EveryCopyNamed(t)
  {
    forall q | q in t.copies && IsContentBearing(t.copies[q].kind) && t.copies[q].owner.Some?
      ensures Named(t, q)
    {
      assert Named(s, q);
      if Requested(s.issued, s.copies[q].owner.value, q) {
        RequestedGrows(s.issued, t.issued, s.copies[q].owner.value, q);
      }
    }
  }

  lemma RequestedGrows(issued: set<Command>, more: set<Command>, owner: Owner, q: Sequence)
    requires issued <= more && Requested(issued, owner, q)
    ensures Requested(more, owner, q)
  {
  }

  lemma InsertKeeps(s: State, id: EventId, row: Row)
    requires Inv(s) && id !in s.used && NewRow(row)
    ensures Inv(s.(rows := s.rows[id := row], used := s.used + {id}))
  {
    var t := s.(rows := s.rows[id := row], used := s.used + {id});
    NamesKept(s, t);
    assert Identities(t) && RowsWellFormed(t) && CarriedWellFormed(t);
    assert PumpWellFormed(t) && CommandsErasable(t) && PlansSpare(t);
  }

  /** The pump moves and nothing else, with what it had in flight. */
  lemma MovedPumpKeeps(s: State, pump: Pump)
    requires Inv(s) && PumpWellFormed(s.(pump := pump))
    requires forall e :: InFlight(s.pump, e) <= InFlight(pump, e)
    ensures Inv(s.(pump := pump))
  {
    var t := s.(pump := pump);
    NamesKept(s, t);
    assert Identities(t) && RowsWellFormed(t) && CarriedWellFormed(t) && CommandsErasable(t) && PlansSpare(t);
  }

  lemma PumpMovesKeep(s: State, step: Step)
    requires Inv(s) && Enabled(s, step)
    requires step.Lock? || step.Refuse? || step.AbandonOrphan? || step.ReadCarried?
    ensures Inv(Apply(s, step))
  {
    var pump := Apply(s, step).pump;
    assert Apply(s, step) == s.(pump := pump);
    MovedPumpKeeps(s, pump);
  }

  lemma AckKeepsTables(s: State, q: Sequence)
    requires Inv(s) && s.pump.Locked? && s.pump.event in s.rows && Answers(s, s.pump.event, q)
    ensures RowsWellFormed(AckedState(s, q)) && CarriedWellFormed(AckedState(s, q)) && PumpWellFormed(AckedState(s, q))
  {
  }

  lemma AckKeepsIdentities(s: State, q: Sequence)
    requires Inv(s) && s.pump.Locked? && s.pump.event in s.rows && Answers(s, s.pump.event, q)
    ensures Identities(AckedState(s, q)) && CommandsErasable(AckedState(s, q))
  {
  }

  lemma AckKeeps(s: State, q: Sequence)
    requires Inv(s) && s.pump.Locked? && s.pump.event in s.rows && Answers(s, s.pump.event, q)
    ensures Inv(AckedState(s, q))
  {
    var t := AckedState(s, q);
    AckKeepsTables(s, q);
    AckKeepsIdentities(s, q);
    forall r | r in t.copies && IsContentBearing(t.copies[r].kind) && t.copies[r].owner.Some?
      ensures Named(t, r)
    {
      if r != q { assert Named(s, r); }
    }
  }

  /** How one row may change in place: its identity stays and what it promised stays true. */
  ghost predicate Evolves(s: State, id: EventId, row: Row)
    requires id in s.rows
  {
    var was := s.rows[id];
    && row.kind == was.kind && row.owner == was.owner && row.command == was.command
        && row.aggregateId == was.aggregateId
    && was.sequences <= row.sequences && CopiesOf(s, id, row.sequences)
    && (row.published ==> !row.undeliverable && CarriedFor(s, id) <= row.sequences)
    && (row.kind.SubjectTombstoned? && row.published ==> row.nextResend.Some?)
    && (UnacknowledgedTombstone(row) ==> UnacknowledgedTombstone(was))
    && (UnsentCommand(row) ==> UnsentCommand(was))
  }

  lemma UpdateKeepsTables(s: State, id: EventId, row: Row, pump: Pump)
    requires Inv(s) && id in s.rows && Evolves(s, id, row)
    ensures
      var t := s.(rows := s.rows[id := row], pump := pump);
      Identities(t) && RowsWellFormed(t) && CarriedWellFormed(t) && CommandsErasable(t) && PlansSpare(t)
  {
    var t := s.(rows := s.rows[id := row], pump := pump);
    assert t.rows.Keys == s.rows.Keys;
    assert RowsWellFormed(t) by {
      forall k | k in t.rows ensures CopiesOf(t, k, t.rows[k].sequences) { assert CopiesOf(s, k, t.rows[k].sequences); }
    }
    assert CarriedWellFormed(t) by {
      forall k | k in t.carried ensures CopiesOf(t, k, t.carried[k].sequences) {
        assert CopiesOf(s, k, s.carried[k].sequences);
      }
    }
  }

  lemma UpdateKeepsNames(s: State, id: EventId, row: Row, pump: Pump)
    requires Inv(s) && id in s.rows && Evolves(s, id, row)
    requires forall e :: InFlight(s.pump, e) <= InFlight(pump, e) + if e == id then row.sequences else {}
    ensures EveryCopyNamed(s.(rows := s.rows[id := row], pump := pump))
  {
    var t := s.(rows := s.rows[id := row], pump := pump);
    forall q | q in t.copies && IsContentBearing(t.copies[q].kind) && t.copies[q].owner.Some?
      ensures Named(t, q)
    {
      assert Named(s, q);
    }
  }

  /** The mark of an acknowledged row, with the pump where the commit leaves it. */
  lemma MarkKeeps(s: State, firstResend: nat, pump: Pump)
    requires Inv(s) && s.pump.Acked? && s.pump.event in s.rows
    requires
      var e := s.pump.event;
      var t := s.(rows := s.rows[e := Marked(s.rows[e], s.pump.sequences, firstResend)], pump := pump);
      PumpWellFormed(t)
    ensures
      var e := s.pump.event;
      Inv(s.(rows := s.rows[e := Marked(s.rows[e], s.pump.sequences, firstResend)], pump := pump))
  {
    var e := s.pump.event;
    var row := Marked(s.rows[e], s.pump.sequences, firstResend);
    UpdateKeepsTables(s, e, row, pump);
    UpdateKeepsNames(s, e, row, pump);
  }

  lemma CommitKeeps(s: State, step: Step)
    requires Inv(s) && (step.Commit? || step.FailCommit?) && Enabled(s, step)
    ensures Inv(Apply(s, step))
  {
    var t := Apply(s, step);
    assert PumpWellFormed(t);
    if step.Commit? || step.applied {
      MarkKeeps(s, step.firstResend, t.pump);
    } else {
      MovedPumpKeeps(s, t.pump);
    }
  }

  lemma KeepKeeps(s: State)
    requires Inv(s) && s.pump.CommitFailed?
    ensures Inv(KeptState(s))
  {
    var t := KeptState(s);
    assert Identities(t) && RowsWellFormed(t) && CarriedWellFormed(t) && CommandsErasable(t) && PlansSpare(t);
    forall q | q in t.copies && IsContentBearing(t.copies[q].kind) && t.copies[q].owner.Some?
      ensures Named(t, q)
    {
      assert Named(s, q);
    }
  }

  lemma ForgetKeeps(s: State)
    requires Inv(s) && s.pump.Forgetting?
    ensures Inv(s.(pump := Idle, carried := s.carried - {s.pump.event}))
  {
    var t := s.(pump := Idle, carried := s.carried - {s.pump.event});
    assert Identities(t) && RowsWellFormed(t) && CarriedWellFormed(t) && CommandsErasable(t) && PlansSpare(t);
    forall q | q in t.copies && IsContentBearing(t.copies[q].kind) && t.copies[q].owner.Some?
      ensures Named(t, q)
    {
      assert Named(s, q);
    }
  }

  /** A row changes in place while the pump stays where it is. */
  lemma UpdateKeeps(s: State, id: EventId, row: Row)
    requires Inv(s) && id in s.rows && Evolves(s, id, row) && PumpWellFormed(s.(rows := s.rows[id := row]))
    ensures Inv(s.(rows := s.rows[id := row]))
  {
    UpdateKeepsTables(s, id, row, s.pump);
    UpdateKeepsNames(s, id, row, s.pump);
  }

  lemma UndeliverableKeeps(s: State, id: EventId)
    requires Inv(s) && s.pump.Idle? && id in s.rows && !s.rows[id].published && !s.rows[id].undeliverable
    ensures Inv(s.(rows := s.rows[id := s.rows[id].(undeliverable := true)]))
  {
    UpdateKeeps(s, id, s.rows[id].(undeliverable := true));
  }

  lemma AcknowledgeKeeps(s: State, id: EventId, outcome: Outcome)
    requires Inv(s) && id in s.rows && s.rows[id].kind.SubjectTombstoned? && s.rows[id].acknowledged.None?
    ensures Inv(s.(rows := s.rows[id := s.rows[id].(acknowledged := Some(outcome))]))
  {
    UpdateKeeps(s, id, s.rows[id].(acknowledged := Some(outcome)));
  }

  lemma MarksKeep(s: State, step: Step)
    requires Inv(s) && Enabled(s, step)
    requires step.MarkUndeliverable? || step.Acknowledge?
    ensures Inv(Apply(s, step))
  {
    if Apply(s, step) != s {
      if step.Acknowledge? { AcknowledgeKeeps(s, step.id, step.outcome); } else { UndeliverableKeeps(s, step.id); }
    }
  }

  lemma NewCopyKeepsTables(s: State, id: EventId, q: Sequence, copy: Copy)
    requires Identities(s) && RowsWellFormed(s) && CarriedWellFormed(s) && CommandsErasable(s)
    requires id in s.rows && Answers(s, id, q) && copy == Copy(id, s.rows[id].kind, s.rows[id].owner)
    ensures
      var t := s.(copies := s.copies[q := copy]);
      Identities(t) && RowsWellFormed(t) && CarriedWellFormed(t) && CommandsErasable(t)
  {
    assert q in s.copies ==> s.copies[q] == copy;
  }

  lemma NewCopyKeeps(s: State, id: EventId, q: Sequence, copy: Copy)
    requires Inv(s) && s.pump.Idle? && id in s.rows && !IsContentBearing(s.rows[id].kind) && Answers(s, id, q)
    requires copy == Copy(id, s.rows[id].kind, s.rows[id].owner)
    ensures Inv(s.(copies := s.copies[q := copy]))
  {
    var t := s.(copies := s.copies[q := copy]);
    NewCopyKeepsTables(s, id, q, copy);
    forall r | r in t.copies && IsContentBearing(t.copies[r].kind) && t.copies[r].owner.Some?
      ensures Named(t, r)
    {
      assert Named(s, r);
    }
  }

  lemma ResendKeeps(s: State, step: Step)
    requires Inv(s) && step.Resend? && Enabled(s, step)
    ensures Inv(Apply(s, step))
  {
    var t := Apply(s, step);
    NewCopyKeeps(s, step.id, step.again, t.copies[step.again]);
    var u := s.(copies := t.copies);
    if s.rows[step.id].acknowledged.None? {
      UpdateKeepsTables(u, step.id, t.rows[step.id], Idle);
      UpdateKeepsNames(u, step.id, t.rows[step.id], Idle);
    }
  }

  // ---- Removing rows ---------------------------------------------------------------------------

  lemma EnqueuedIssued(
      rows: map<EventId, Row>, used: set<EventId>, commands: seq<Command>, inserted: map<EventId, Command>)
    requires Enqueues(rows, used, commands, inserted) && rows.Keys <= used
    ensures forall id | id in rows :: id in WithCommands(rows, inserted) && WithCommands(rows, inserted)[id] == rows[id]
    ensures forall id | id in WithCommands(rows, inserted) && id !in rows ::
              id in inserted && WithCommands(rows, inserted)[id] == CommandRow(inserted[id]) && inserted[id] in commands
  {
  }

  /** A planned or selected row is never a tombstone still waiting or a command still unsent. */
  lemma SelectionSpares(sel: Selection, row: Row)
    requires ValidSelection(sel) && Selects(sel, row)
    requires row.kind.StreamErasureRequested? ==> row.aggregateId.RequestRef?
    ensures !UnacknowledgedTombstone(row) && !UnsentCommand(row)
  {
  }

  lemma PlanKeeps(s: State, sel: Selection, chosen: set<EventId>)
    requires Inv(s) && ValidSelection(sel) && forall id | id in chosen :: id in s.rows && Selects(sel, s.rows[id])
    ensures Inv(s.(planned := s.planned + chosen))
  {
    var t := s.(planned := s.planned + chosen);
    forall id | id in chosen ensures !UnacknowledgedTombstone(s.rows[id]) && !UnsentCommand(s.rows[id]) {
      SelectionSpares(sel, s.rows[id]);
    }
    NamesKept(s, t);
    assert Identities(t) && RowsWellFormed(t) && CarriedWellFormed(t) && PumpWellFormed(t) && CommandsErasable(t);
  }

  /** Every command names copies of its owner's content whose rows are among `ids` or gone already. */
  ghost predicate NamesRemoved(s: State, ids: set<EventId>, commands: seq<Command>) {
    forall c, q | c in commands && q in c.sequences ::
      && q in s.copies && IsContentBearing(s.copies[q].kind) && s.copies[q].owner == Some(c.owner)
      && s.copies[q].event !in Without(s.rows, ids)
  }

  /** The table after removing `ids` and enqueueing `commands`, with the pump moved to `pump`. */
  function Replaced(
      s: State, ids: set<EventId>, commands: seq<Command>, inserted: map<EventId, Command>, pump: Pump): State {
    s.(rows := WithCommands(Without(s.rows, ids), inserted), used := s.used + inserted.Keys,
       issued := s.issued + (set c | c in commands), pump := pump)
  }

  lemma ReplacedRow(
      s: State, ids: set<EventId>, commands: seq<Command>, inserted: map<EventId, Command>, pump: Pump, id: EventId)
    requires Inv(s) && Enqueues(Without(s.rows, ids), s.used, commands, inserted)
    requires id in Replaced(s, ids, commands, inserted, pump).rows
    ensures
      var t := Replaced(s, ids, commands, inserted, pump);
      || (id in s.rows && id !in ids && id !in inserted && t.rows[id] == s.rows[id])
      || (id in inserted && id !in s.used && t.rows[id] == CommandRow(inserted[id]) && inserted[id] in commands)
  {
    EnqueuedIssued(Without(s.rows, ids), s.used, commands, inserted);
  }

  lemma ReplacedKeepsRows(
      s: State, ids: set<EventId>, commands: seq<Command>, inserted: map<EventId, Command>, pump: Pump)
    requires Inv(s) && Enqueues(Without(s.rows, ids), s.used, commands, inserted)
    ensures
      var t := Replaced(s, ids, commands, inserted, pump);
      Identities(t) && RowsWellFormed(t) && PlansSpare(t)
  {
    var t := Replaced(s, ids, commands, inserted, pump);
    forall id | id in t.rows
      ensures id in t.used
      ensures forall q | q in t.copies && t.copies[q].event == id ::
                t.copies[q].kind == t.rows[id].kind && t.copies[q].owner == t.rows[id].owner
      ensures CopiesOf(t, id, t.rows[id].sequences)
      ensures t.rows[id].published ==> !t.rows[id].undeliverable
      ensures t.rows[id].kind.SubjectTombstoned? && t.rows[id].published ==> t.rows[id].nextResend.Some?
      ensures t.rows[id].kind.StreamErasureRequested? <==> t.rows[id].command.Some?
      ensures t.rows[id].command.Some? ==> t.rows[id].command.value in t.issued && t.rows[id].aggregateId.RequestRef?
      ensures id in t.planned ==> !UnacknowledgedTombstone(t.rows[id]) && !UnsentCommand(t.rows[id])
    {
      ReplacedRow(s, ids, commands, inserted, pump, id);
      if id in s.rows { assert CopiesOf(s, id, s.rows[id].sequences); }
    }
  }

  lemma ReplacedKeepsCarried(
      s: State, ids: set<EventId>, commands: seq<Command>, inserted: map<EventId, Command>, pump: Pump)
    requires Inv(s) && Enqueues(Without(s.rows, ids), s.used, commands, inserted)
    ensures CarriedWellFormed(Replaced(s, ids, commands, inserted, pump))
  {
    var t := Replaced(s, ids, commands, inserted, pump);
    forall id | id in t.carried
      ensures CopiesOf(t, id, t.carried[id].sequences)
      ensures id in t.rows && t.rows[id].published ==> t.carried[id].sequences <= t.rows[id].sequences
    {
      assert CopiesOf(s, id, s.carried[id].sequences);
      if id in t.rows { ReplacedRow(s, ids, commands, inserted, pump, id); }
    }
  }

  /** A used id that is not among the rows left is not among the new ones either. */
  lemma UsedStaysGone(
      rows: map<EventId, Row>, used: set<EventId>, commands: seq<Command>, inserted: map<EventId, Command>, e: EventId)
    requires Enqueues(rows, used, commands, inserted) && e in used && e !in rows
    ensures e !in WithCommands(rows, inserted)
  {
  }

  lemma ReplacedKeepsErasable(
      s: State, ids: set<EventId>, commands: seq<Command>, inserted: map<EventId, Command>, pump: Pump)
    requires Identities(s) && CommandsErasable(s) && NamesRemoved(s, ids, commands)
    requires Enqueues(Without(s.rows, ids), s.used, commands, inserted)
    ensures CommandsErasable(Replaced(s, ids, commands, inserted, pump))
  {
    var t := Replaced(s, ids, commands, inserted, pump);
    forall c, q | c in t.issued && q in c.sequences
      ensures q in t.copies && IsContentBearing(t.copies[q].kind) && t.copies[q].owner == Some(c.owner)
      ensures t.copies[q].event !in t.rows
    {
      UsedStaysGone(Without(s.rows, ids), s.used, commands, inserted, s.copies[q].event);
    }
  }

  lemma DropNamesRemoved(s: State, ids: set<EventId>, commands: seq<Command>)
    requires Inv(s) && AsksOnly(commands, Removed(s.rows, ids))
    ensures NamesRemoved(s, ids, commands)
  {
    var removed := Removed(s.rows, ids);
    forall c, q | c in commands && q in c.sequences
      ensures q in s.copies && IsContentBearing(s.copies[q].kind) && s.copies[q].owner == Some(c.owner)
      ensures s.copies[q].event !in Without(s.rows, ids)
    {
      var id :| id in removed && IsContentBearing(removed[id].kind) && removed[id].owner == Some(c.owner)
                && q in removed[id].sequences;
      assert CopiesOf(s, id, s.rows[id].sequences);
    }
  }

  /** A sequence of a removed content row is asked for. */
  lemma RemovedIsRequested(s: State, ids: set<EventId>, commands: seq<Command>, issued: set<Command>, e: EventId, q: Sequence)
    requires AsksAll(commands, Removed(s.rows, ids)) && (forall c | c in commands :: c in issued)
    requires e in s.rows && e in ids && IsContentBearing(s.rows[e].kind) && s.rows[e].owner.Some?
    requires q in s.rows[e].sequences
    ensures Requested(issued, s.rows[e].owner.value, q)
  {
    var removed := Removed(s.rows, ids);
    assert e in removed && removed[e] == s.rows[e];
    var c :| c in commands && c.owner == removed[e].owner.value && q in c.sequences;
    assert c in issued;
  }

  lemma DropKeepsNames(s: State, ids: set<EventId>, commands: seq<Command>, inserted: map<EventId, Command>)
    requires Identities(s) && EveryCopyNamed(s) && AsksAll(commands, Removed(s.rows, ids))
    requires Enqueues(Without(s.rows, ids), s.used, commands, inserted)
    ensures EveryCopyNamed(Replaced(s, ids, commands, inserted, s.pump))
  {
    var t := Replaced(s, ids, commands, inserted, s.pump);
    forall q | q in t.copies && IsContentBearing(t.copies[q].kind) && t.copies[q].owner.Some?
      ensures Named(t, q)
    {
      assert Named(s, q);
      var e := s.copies[q].event;
      if e in s.rows && q in s.rows[e].sequences {
        if e in ids {
          RemovedIsRequested(s, ids, commands, t.issued, e, q);
        } else {
          EnqueuedIssued(Without(s.rows, ids), s.used, commands, inserted);
        }
      } else if Requested(s.issued, s.copies[q].owner.value, q) {
        RequestedGrows(s.issued, t.issued, s.copies[q].owner.value, q);
      }
    }
  }

  /** A pump about to forget an entry still knows who answers for it after a deletion. */
  lemma DropKeepsForgetting(
      s: State, ids: set<EventId>, commands: seq<Command>, inserted: map<EventId, Command>, e: EventId, q: Sequence)
    requires Identities(s) && CarriedWellFormed(s) && PumpWellFormed(s) && s.pump == Forgetting(e) && e in s.carried
    requires AsksAll(commands, Removed(s.rows, ids)) && Enqueues(Without(s.rows, ids), s.used, commands, inserted)
    requires !(e in s.rows && e !in ids && s.rows[e].published) && q in s.carried[e].sequences
    ensures Requested(Replaced(s, ids, commands, inserted, s.pump).issued, s.carried[e].owner, q)
  {
    var t := Replaced(s, ids, commands, inserted, s.pump);
    if e in s.rows && s.rows[e].published {
      assert CopiesOf(s, e, s.carried[e].sequences) && s.copies[q].event == e;
      RemovedIsRequested(s, ids, commands, t.issued, e, q);
    } else {
      RequestedGrows(s.issued, t.issued, s.carried[e].owner, q);
    }
  }

  lemma DropKeepsPump(s: State, ids: set<EventId>, commands: seq<Command>, inserted: map<EventId, Command>)
    requires Identities(s) && CarriedWellFormed(s) && PumpWellFormed(s) && ids !! LockedEvents(s.pump)
    requires AsksAll(commands, Removed(s.rows, ids)) && Enqueues(Without(s.rows, ids), s.used, commands, inserted)
    ensures PumpWellFormed(Replaced(s, ids, commands, inserted, s.pump))
  {
    var t := Replaced(s, ids, commands, inserted, s.pump);
    EnqueuedIssued(Without(s.rows, ids), s.used, commands, inserted);
    match s.pump
    case Forgetting(e) =>
      if e in s.carried && !(e in s.rows && e !in ids && s.rows[e].published) {
        forall q | q in s.carried[e].sequences ensures Requested(t.issued, s.carried[e].owner, q) {
          DropKeepsForgetting(s, ids, commands, inserted, e, q);
        }
      }
    case Orphan(e) => UsedStaysGone(Without(s.rows, ids), s.used, commands, inserted, e);
    case _ =>
  }

  lemma DropKeeps(s: State, ids: set<EventId>, commands: seq<Command>, inserted: map<EventId, Command>)
    requires Inv(s) && ids !! LockedEvents(s.pump) && Asks(commands, Removed(s.rows, ids))
    requires Enqueues(Without(s.rows, ids), s.used, commands, inserted)
    ensures Inv(Replaced(s, ids, commands, inserted, s.pump))
  {
    DropNamesRemoved(s, ids, commands);
    ReplacedKeepsRows(s, ids, commands, inserted, s.pump);
    ReplacedKeepsCarried(s, ids, commands, inserted, s.pump);
    ReplacedKeepsErasable(s, ids, commands, inserted, s.pump);
    DropKeepsNames(s, ids, commands, inserted);
    DropKeepsPump(s, ids, commands, inserted);
  }

  lemma EraseOrphanKeepsNames(s: State, commands: seq<Command>, inserted: map<EventId, Command>, pump: Pump)
    requires Identities(s) && EveryCopyNamed(s) && s.pump.Orphan? && Enqueues(s.rows, s.used, commands, inserted)
    ensures EveryCopyNamed(Replaced(s, {}, commands, inserted, pump))
  {
    assert Without(s.rows, {}) == s.rows;
    EnqueuedIssued(s.rows, s.used, commands, inserted);
    NamesKept(s, Replaced(s, {}, commands, inserted, pump));
  }

  lemma EraseOrphanKeeps(s: State, commands: seq<Command>, inserted: map<EventId, Command>, pump: Pump)
    requires Inv(s) && s.pump.Orphan? && s.pump.event in s.carried && AsksCarried(commands, s.carried[s.pump.event])
    requires Enqueues(s.rows, s.used, commands, inserted) && (pump == Idle || pump == Forgetting(s.pump.event))
    ensures Inv(Replaced(s, {}, commands, inserted, pump))
  {
    var t, e := Replaced(s, {}, commands, inserted, pump), s.pump.event;
    assert Without(s.rows, {}) == s.rows;
    assert NamesRemoved(s, {}, commands) by { assert CopiesOf(s, e, s.carried[e].sequences); }
    ReplacedKeepsRows(s, {}, commands, inserted, pump);
    ReplacedKeepsCarried(s, {}, commands, inserted, pump);
    ReplacedKeepsErasable(s, {}, commands, inserted, pump);
    EraseOrphanKeepsNames(s, commands, inserted, pump);
    forall q | q in s.carried[e].sequences ensures Requested(t.issued, s.carried[e].owner, q) {
      var c :| c in commands && q in c.sequences;
      assert c in t.issued;
    }
  }

  lemma OrphanStepKeeps(s: State, step: Step)
    requires Inv(s) && step.EraseOrphan? && Enabled(s, step)
    ensures Inv(Apply(s, step))
  {
    assert Without(s.rows, {}) == s.rows;
    EraseOrphanKeeps(s, step.orphanCommands, step.orphanRows, Apply(s, step).pump);
  }

  lemma StepKeeps(s: State, step: Step)
    requires Inv(s) && Enabled(s, step)
    ensures Inv(Apply(s, step))
  {
    match step
    case Insert(id, row) => InsertKeeps(s, id, row);
    case Ack(q) => AckKeeps(s, q);
    case Commit(_) => CommitKeeps(s, step);
    case FailCommit(_, _) => CommitKeeps(s, step);
    case Keep => KeepKeeps(s);
    case EraseOrphan(_, _, _) => OrphanStepKeeps(s, step);
    case Forget => ForgetKeeps(s);
    case MarkUndeliverable(_) => MarksKeep(s, step);
    case Acknowledge(_, _, _) => MarksKeep(s, step);
    case Resend(_, _, _) => ResendKeeps(s, step);
    case Plan(sel, chosen) => PlanKeeps(s, sel, chosen);
    case Drop(_, ids, commands, inserted) => DropKeeps(s, ids, commands, inserted);
    case _ => PumpMovesKeep(s, step);
  }

  // ---- Every run ---------------------------------------------------------------------------------

  /** `states` is a run of the protocol, `steps[i]` leading from `states[i]` to `states[i + 1]`. */
  ghost predicate Run(states: seq<State>, steps: seq<Step>) {
    && |states| == |steps| + 1
    && states[0] == INITIAL
    && (forall i | 0 <= i < |steps| :: Enabled(states[i], steps[i]) && states[i + 1] == Apply(states[i], steps[i]))
  }

  lemma {:induction false} RunKeeps(states: seq<State>, steps: seq<Step>, n: nat)
    requires Run(states, steps) && n < |states|
    ensures Inv(states[n])
  {
    if n > 0 {
      RunKeeps(states, steps, n - 1);
      StepKeeps(states[n - 1], steps[n - 1]);
    }
  }

  /**
   * In every run and at every point, each acknowledged stream copy of an owned content-bearing fact
   * is named by its live row, the publication in flight, the carried entry of that row or an
   * erasure command of the same owner.
   */
  lemma EveryAcknowledgedCopyIsNamed(states: seq<State>, steps: seq<Step>, n: nat, q: Sequence)
    requires Run(states, steps) && n < |states|
    requires q in states[n].copies && IsContentBearing(states[n].copies[q].kind) && states[n].copies[q].owner.Some?
    ensures Named(states[n], q)
  {
    RunKeeps(states, steps, n);
  }

  /**
   * In every run, a command names only content of its own owner: never a tombstone, a report or a
   * command, and never a fact whose row still exists.
   */
  lemma CommandsNeverNameLiveOrContentFree(states: seq<State>, steps: seq<Step>, n: nat, c: Command, q: Sequence)
    requires Run(states, steps) && n < |states|
    requires c in states[n].issued && q in c.sequences
    ensures q in states[n].copies
    ensures states[n].copies[q].kind !in {SubjectTombstoned, OperationReported, StreamErasureRequested}
    ensures states[n].copies[q].owner == Some(c.owner)
    ensures states[n].copies[q].event !in states[n].rows
  {
    RunKeeps(states, steps, n);
  }

  /** The mark of an acknowledged publication always finds its row, unpublished. */
  lemma MarkNeverLost(states: seq<State>, steps: seq<Step>, n: nat)
    requires Run(states, steps) && n < |states| && states[n].pump.Acked?
    ensures states[n].pump.event in states[n].rows && !states[n].rows[states[n].pump.event].published
  {
    RunKeeps(states, steps, n);
  }

  // ---- Tombstones and commands are never lost ----------------------------------------------------

  /** What a live row promises about its next state: it stays while it waits, and answers stay. */
  ghost predicate RowSurvives(s: State, t: State, id: EventId)
    requires id in s.rows
  {
    var row := s.rows[id];
    && (UnacknowledgedTombstone(row) || UnsentCommand(row) ==> id in t.rows)
    && (id in t.rows ==>
          && t.rows[id].kind == row.kind && t.rows[id].command == row.command
          && (row.published ==> t.rows[id].published)
          && (row.undeliverable ==> t.rows[id].undeliverable)
          && (row.acknowledged.Some? ==> t.rows[id].acknowledged == row.acknowledged))
  }

  lemma DropSparesRow(
      s: State, sel: Selection, ids: set<EventId>, commands: seq<Command>, inserted: map<EventId, Command>, id: EventId)
    requires Identities(s) && RowsWellFormed(s) && PlansSpare(s) && id in s.rows && ValidSelection(sel)
    requires forall k | k in ids && k in s.rows :: k in s.planned || Selects(sel, s.rows[k])
    requires Enqueues(Without(s.rows, ids), s.used, commands, inserted)
    ensures RowSurvives(s, Replaced(s, ids, commands, inserted, s.pump), id)
  {
    EnqueuedIssued(Without(s.rows, ids), s.used, commands, inserted);
    if id in ids {
      UsedStaysGone(Without(s.rows, ids), s.used, commands, inserted, id);
      if id !in s.planned { SelectionSpares(sel, s.rows[id]); }
    }
  }

  lemma OrphanSparesRow(s: State, step: Step, id: EventId)
    requires s.rows.Keys <= s.used && step.EraseOrphan? && Enabled(s, step) && id in s.rows
    ensures RowSurvives(s, Apply(s, step), id)
  {
    EnqueuedIssued(s.rows, s.used, step.orphanCommands, step.orphanRows);
  }

  lemma StepSparesRow(s: State, step: Step, id: EventId)
    requires Identities(s) && RowsWellFormed(s) && PumpWellFormed(s) && PlansSpare(s)
    requires Enabled(s, step) && id in s.rows
    ensures RowSurvives(s, Apply(s, step), id)
  {
    match step
    case Drop(sel, ids, commands, inserted) => DropSparesRow(s, sel, ids, commands, inserted, id);
    case EraseOrphan(_, _, _) => OrphanSparesRow(s, step, id);
    case _ => OtherStepSparesRow(s, step, id);
  }

  lemma OtherStepSparesRow(s: State, step: Step, id: EventId)
    requires Identities(s) && PumpWellFormed(s) && Enabled(s, step) && id in s.rows && !step.Drop? && !step.EraseOrphan?
    ensures RowSurvives(s, Apply(s, step), id)
  {
  }

  /**
   * From any point of any run to any later one: a tombstone nobody acknowledged and a command not
   * yet sent is still there as long as it stays that way, and an acknowledged row keeps its first
   * outcome while it lives.
   */
  lemma {:induction false} RowsSurviveRuns(states: seq<State>, steps: seq<Step>, m: nat, n: nat, id: EventId)
    requires Run(states, steps) && m <= n < |states| && id in states[m].rows
    requires forall k | m <= k < n
        && id in states[k].rows :: UnacknowledgedTombstone(states[k].rows[id]) || UnsentCommand(states[k].rows[id])
    ensures id in states[n].rows
    ensures states[n].rows[id].kind == states[m].rows[id].kind
    ensures states[m].rows[id].published ==> states[n].rows[id].published
    decreases n - m
  {
    if m < n {
      RunKeeps(states, steps, m);
      StepSparesRow(states[m], steps[m], id);
      RowsSurviveRuns(states, steps, m + 1, n, id);
    }
  }

  /** The first acknowledgement outcome is the one every later state of the row shows. */
  lemma {:induction false} FirstOutcomeKept(states: seq<State>, steps: seq<Step>, m: nat, n: nat, id: EventId)
    requires Run(states, steps) && m <= n < |states|
    requires id in states[m].rows && states[m].rows[id].acknowledged.Some?
    requires forall k | m <= k <= n :: id in states[k].rows
    ensures states[n].rows[id].acknowledged == states[m].rows[id].acknowledged
    decreases n - m
  {
    if m < n {
      RunKeeps(states, steps, m);
      StepSparesRow(states[m], steps[m], id);
      FirstOutcomeKept(states, steps, m + 1, n, id);
    }
  }

  /** In every run a published tombstone has its next resend scheduled and is never undeliverable. */
  lemma PublishedTombstonesAreResent(states: seq<State>, steps: seq<Step>, n: nat, id: EventId)
    requires Run(states, steps) && n < |states| && id in states[n].rows
    requires states[n].rows[id].kind.SubjectTombstoned? && states[n].rows[id].published
    ensures states[n].rows[id].nextResend.Some? && !states[n].rows[id].undeliverable
  {
    RunKeeps(states, steps, n);
  }

  /** Every command ever issued is still a row, or its row was sent or given up before it left. */
  ghost predicate Settled(states: seq<State>, n: nat, c: Command)
    requires n < |states|
  {
    exists k, id :: 0 <= k <= n && id in states[k].rows && states[k].rows[id].command == Some(c)
      && (k == n || states[k].rows[id].published || states[k].rows[id].undeliverable)
  }

  lemma EnqueuedNew(
      rows: map<EventId, Row>, used: set<EventId>, commands: seq<Command>, inserted: map<EventId, Command>, c: Command)
    returns (id: EventId)
    requires Enqueues(rows, used, commands, inserted) && c in commands
    requires forall k | k in rows :: rows[k].command != Some(c)
    ensures id in WithCommands(rows, inserted) && WithCommands(rows, inserted)[id].command == Some(c)
  {
    id :| id in inserted && inserted[id] == c;
  }

  /** A command that was not issued before this step has its own row after it. */
  lemma NewlyIssuedHasRow(s: State, step: Step, c: Command) returns (id: EventId)
    requires RowsWellFormed(s) && Enabled(s, step) && c !in s.issued && c in Apply(s, step).issued
    ensures id in Apply(s, step).rows && Apply(s, step).rows[id].command == Some(c)
  {
    assert forall k | k in s.rows :: s.rows[k].command != Some(c);
    match step
    case Drop(_, ids, commands, inserted) =>
      id := EnqueuedNew(Without(s.rows, ids), s.used, commands, inserted, c);
    case EraseOrphan(commands, inserted, _) =>
      id := EnqueuedNew(s.rows, s.used, commands, inserted, c);
  }

  lemma {:induction false} IssuedCommandsSettle(states: seq<State>, steps: seq<Step>, n: nat, c: Command)
    requires Run(states, steps) && n < |states| && c in states[n].issued
    ensures Settled(states, n, c)
  {
    var s, step := states[n - 1], steps[n - 1];
    RunKeeps(states, steps, n - 1);
    if c in s.issued {
      IssuedCommandsSettle(states, steps, n - 1, c);
      var k, id :| 0 <= k <= n - 1 && id in states[k].rows && states[k].rows[id].command == Some(c)
        && (k == n - 1 || states[k].rows[id].published || states[k].rows[id].undeliverable);
      if k == n - 1 && !s.rows[id].published && !s.rows[id].undeliverable {
        assert UnsentCommand(s.rows[id]);
        StepSparesRow(s, step, id);
        assert states[n].rows[id].command == Some(c);
      }
    } else {
      var id := NewlyIssuedHasRow(s, step, c);
    }
  }

  // ---- The deleting statement meets the step -----------------------------------------------------

  /** `returned` is what the deleting statement hands back of `removed`, one entry per row, in `order`. */
  ghost predicate Returns(removed: map<EventId, Row>, order: seq<EventId>, returned: seq<StreamErasure.RemovedRow>) {
    && |order| == |returned|
    && (forall id | id in removed :: id in order)
    && (forall i | 0 <= i < |order| ::
          && order[i] in removed && returned[i].kind == removed[order[i]].kind
              && returned[i].owner == removed[order[i]].owner
          && StreamErasure.PositiveSequences(returned[i].sequences) == removed[order[i]].sequences)
  }

  lemma OwnedHasRow(
      removed: map<EventId, Row>, order: seq<EventId>, returned: seq<StreamErasure.RemovedRow>, o: Owner, q: Sequence)
    returns (id: EventId)
    requires Returns(removed, order, returned) && q in StreamErasure.OwnedSequences(returned, o)
    ensures id in removed && IsContentBearing(removed[id].kind) && removed[id].owner == Some(o)
        && q in removed[id].sequences
  {
    var r :| r in returned && q in r.sequences && StreamErasure.Erasable(r, o);
    var i :| 0 <= i < |returned| && returned[i] == r;
    id := order[i];
  }

  lemma RowIsOwned(
      removed: map<EventId, Row>, order: seq<EventId>, returned: seq<StreamErasure.RemovedRow>, id: EventId,
      q: Sequence)
    requires Returns(removed, order, returned) && id in removed && IsContentBearing(removed[id].kind)
        && removed[id].owner.Some?
    requires q in removed[id].sequences
    ensures q in StreamErasure.OwnedSequences(returned, removed[id].owner.value)
  {
    var i :| 0 <= i < |order| && order[i] == id;
    assert returned[i] in returned && StreamErasure.Erasable(returned[i], removed[id].owner.value);
    assert q in StreamErasure.PositiveSequences(returned[i].sequences);
  }

  /** The commands `DropPublishedFactRows` enqueues are the ones the `Drop` step asks for. */
  lemma DroppingAsks(
      removed: map<EventId, Row>, order: seq<EventId>, returned: seq<StreamErasure.RemovedRow>, commands: seq<Command>)
    requires Returns(removed, order, returned)
    requires forall o :: StreamErasure.Blocks(commands, o)
                         == StreamErasure.Chunks(
                              StreamErasure.Ordered.Sorted(StreamErasure.OwnedSequences(returned, o)),
                              StreamErasure.MAX_STREAM_SEQUENCES)
    ensures Asks(commands, removed)
  {
    StreamErasure.CommandsAskExactly(returned, commands);
    forall c, q | c in commands && q in c.sequences
      ensures exists id ::
        id in removed && IsContentBearing(removed[id].kind) && removed[id].owner == Some(c.owner)
        && q in removed[id].sequences
    {
      var id := OwnedHasRow(removed, order, returned, c.owner, q);
    }
    forall id, q | id in removed && IsContentBearing(removed[id].kind) && removed[id].owner.Some?
        && q in removed[id].sequences
      ensures exists c :: c in commands && c.owner == removed[id].owner.value && q in c.sequences
    {
      RowIsOwned(removed, order, returned, id, q);
    }
  }
}
