/** One first publication as the pump runs it: lock the row, publish, mark, commit, carry on failure. */
module OutboxPump {
  import opened Common
  import opened OutboxEvents
  import opened OutboxProtocol
  import opened CarriedCopies
  import opened Ordered
  import StreamErasure

  /** A commit that reports an error may still have been applied. */
  datatype CommitOutcome = Committed | CommitError(applied: bool)

  datatype FirstPublication = Published | Refused | Skipped | Failed

  predicate Candidate(rows: map<EventId, Row>, id: EventId) {
    id in rows && !rows[id].published && !rows[id].undeliverable
  }

  /** The steps one publication takes. */
  function StepsOf(answer: Option<Sequence>, outcome: CommitOutcome, id: EventId, firstResend: nat): seq<Step> {
    match answer
    case None => [Lock(id), Refuse]
    case Some(q) =>
      match outcome
      case Committed => [Lock(id), Ack(q), Commit(firstResend), Forget]
      case CommitError(applied) => [Lock(id), Ack(q), FailCommit(applied, firstResend), Keep]
  }

  /** `t` is where the steps lead from `s`, each of them enabled. */
  ghost predicate Leads(s: State, steps: seq<Step>, t: State)
    decreases |steps|
  {
    if steps == [] then s == t else Enabled(s, steps[0]) && Leads(Apply(s, steps[0]), steps[1..], t)
  }

  lemma {:induction false} LeadingKeeps(s: State, steps: seq<Step>, t: State)
    requires Inv(s) && Leads(s, steps, t)
    ensures Inv(t)
    decreases |steps|
  {
    if steps != [] {
      StepKeeps(s, steps[0]);
      LeadingKeeps(Apply(s, steps[0]), steps[1..], t);
    }
  }

  lemma TwoSteps(s: State, a: Step, b: Step)
    requires Enabled(s, a) && Enabled(Apply(s, a), b)
    ensures Leads(s, [a, b], Apply(Apply(s, a), b))
  {
    assert [a, b][1..] == [b] && [b][1..] == [];
    assert Leads(Apply(s, a), [b], Apply(Apply(s, a), b));
  }

  lemma FourSteps(s: State, a: Step, b: Step, c: Step, d: Step)
    requires Enabled(s, a) && Enabled(Apply(s, a), b) && Enabled(Apply(Apply(s, a), b), c)
    requires Enabled(Apply(Apply(Apply(s, a), b), c), d)
    ensures Leads(s, [a, b, c, d], Apply(Apply(Apply(Apply(s, a), b), c), d))
  {
    var t := Apply(Apply(s, a), b);
    TwoSteps(t, c, d);
    assert [a, b, c, d][1..] == [b, c, d] && [b, c, d][1..] == [c, d];
    assert Leads(Apply(s, a), [b, c, d], Apply(Apply(t, c), d));
  }

  /** The state with the acknowledged copy, and `row` and `carried` as the publication leaves them. */
  function WithCopy(s: State, id: EventId, q: Sequence, row: Row, carried: map<EventId, Carried>): State
    requires id in s.rows
  {
    s.(copies := s.copies[q := Copy(id, s.rows[id].kind, s.rows[id].owner)],
       rows := s.rows[id := row], carried := carried)
  }

  lemma RefusalLeads(s: State, id: EventId)
    requires s.pump.Idle? && Candidate(s.rows, id)
    ensures Leads(s, [Lock(id), Refuse], s)
  {
    TwoSteps(s, Lock(id), Refuse);
  }

  lemma CommitLeads(s: State, id: EventId, q: Sequence, firstResend: nat)
    requires s.pump.Idle? && Candidate(s.rows, id) && Answers(s, id, q)
    ensures Leads(s, [Lock(id), Ack(q), Commit(firstResend), Forget],
                  WithCopy(s, id, q, Marked(s.rows[id], CarriedFor(s, id) + {q}, firstResend), s.carried - {id}))
  {
    FourSteps(s, Lock(id), Ack(q), Commit(firstResend), Forget);
  }

  /** What the carry map holds after a commit that reported an error. */
  function Kept(s: State, id: EventId, sequences: set<Sequence>): map<EventId, Carried>
    requires id in s.rows
  {
    if IsContentBearing(s.rows[id].kind) && s.rows[id].owner.Some?
    then s.carried[id := Carried(s.rows[id].owner.value, sequences)] else s.carried
  }

  lemma FailureLeads(s: State, id: EventId, q: Sequence, applied: bool, firstResend: nat)
    requires s.pump.Idle? && Candidate(s.rows, id) && Answers(s, id, q)
    ensures
      var sequences := CarriedFor(s, id) + {q};
      var row := if applied then Marked(s.rows[id], sequences, firstResend) else s.rows[id];
      Leads(s, [Lock(id), Ack(q), FailCommit(applied, firstResend), Keep],
            WithCopy(s, id, q, row, Kept(s, id, sequences)))
  {
    FourSteps(s, Lock(id), Ack(q), FailCommit(applied, firstResend), Keep);
    assert s.rows[id := s.rows[id]] == s.rows;
  }

  // ---- The check of the carried copies -------------------------------------------------------------------

  /** An entry whose row is still unmarked stays. */
  lemma UnmarkedEntryLeads(s: State, id: EventId)
    requires s.pump.Idle? && id in s.carried && id in s.rows && !s.rows[id].published
    ensures Leads(s, [ReadCarried(id)], s)
  {
    assert [ReadCarried(id)][1..] == [];
  }

  /** An entry whose row was marked is forgotten. */
  lemma MarkedEntryLeads(s: State, id: EventId)
    requires s.pump.Idle? && id in s.carried && id in s.rows && s.rows[id].published
    ensures Leads(s, [ReadCarried(id), Forget], s.(carried := s.carried - {id}))
  {
    TwoSteps(s, ReadCarried(id), Forget);
  }

  /** The state after the commands of an orphaned entry are enqueued and the entry is forgotten. */
  function OrphanErased(s: State, id: EventId, commands: seq<Command>, inserted: map<EventId, Command>): State {
    s.(rows := WithCommands(s.rows, inserted), used := s.used + inserted.Keys,
       issued := s.issued + (set c | c in commands), carried := s.carried - {id})
  }

  /** The commands the check enqueues for an orphaned entry are the ones the protocol step asks for. */
  lemma OrphanEntryLeads(s: State, id: EventId, commands: seq<Command>, inserted: map<EventId, Command>)
    requires s.pump.Idle? && id in s.carried && id !in s.rows
    requires StreamErasure.Blocks(commands, s.carried[id].owner)
             == StreamErasure.Chunks(Sorted(s.carried[id].sequences), StreamErasure.MAX_STREAM_SEQUENCES)
    requires forall o | o != s.carried[id].owner :: StreamErasure.Blocks(commands, o) == []
    requires forall c | c in commands :: c.request == id
    requires Enqueues(s.rows, s.used, commands, inserted)
    ensures Leads(s, [ReadCarried(id), EraseOrphan(commands, inserted, true), Forget],
                  OrphanErased(s, id, commands, inserted))
  {
    OneEntryAsked(commands, id, s.carried[id]);
    var steps := [ReadCarried(id), EraseOrphan(commands, inserted, true), Forget];
    assert steps[1..] == [EraseOrphan(commands, inserted, true), Forget];
    TwoSteps(Apply(s, ReadCarried(id)), EraseOrphan(commands, inserted, true), Forget);
  }

  /**
   * The check of one entry, by what the table answers: an unmarked row leaves the entry, a marked row
   * forgets it, and for a row that is gone its sequences are asked for before it is forgotten.
   */
  lemma EntryLeads(s: State, id: EventId, commands: seq<Command>, inserted: map<EventId, Command>)
    requires s.pump.Idle? && id in s.carried
    requires id !in s.rows ==>
               && StreamErasure.Blocks(commands, s.carried[id].owner)
                  == StreamErasure.Chunks(Sorted(s.carried[id].sequences), StreamErasure.MAX_STREAM_SEQUENCES)
               && (forall o | o != s.carried[id].owner :: StreamErasure.Blocks(commands, o) == [])
               && (forall c | c in commands :: c.request == id)
               && Enqueues(s.rows, s.used, commands, inserted)
    ensures id in s.rows && !s.rows[id].published ==> Leads(s, [ReadCarried(id)], s)
    ensures id in s.rows && s.rows[id].published ==>
              Leads(s, [ReadCarried(id), Forget], s.(carried := s.carried - {id}))
    ensures id !in s.rows ==>
              Leads(s, [ReadCarried(id), EraseOrphan(commands, inserted, true), Forget],
                    OrphanErased(s, id, commands, inserted))
  {
    if id !in s.rows {
      OrphanEntryLeads(s, id, commands, inserted);
    } else if s.rows[id].published {
      MarkedEntryLeads(s, id);
    } else {
      UnmarkedEntryLeads(s, id);
    }
  }

  /** The tables the pump works on, and beside them what it neither reads nor writes. */
  class Publisher {
    var rows: map<EventId, Row>
    var carried: map<EventId, Carried>
    ghost var copies: map<Sequence, Copy>
    ghost const used: set<EventId>
    ghost const issued: set<Command>
    ghost const planned: set<EventId>

    constructor (s: State)
      ensures Value() == s.(pump := Idle)
    {
      rows, carried, copies := s.rows, s.carried, s.copies;
      used, issued, planned := s.used, s.issued, s.planned;
    }

    /** The protocol state between two publications. */
    ghost function Value(): State
      reads this
    {
      State(rows, used, copies, Idle, carried, issued, planned)
    }

    /**
     * A row that is gone, published or given up is skipped. Otherwise the publication is the run of
     * protocol steps its outcome names, so it keeps the protocol's invariant, and an acknowledged
     * sequence ends in the marked row or in the carry map.
     */
    method PublishFirst(id: EventId, answer: Option<Sequence>, outcome: CommitOutcome, firstResend: nat)
      returns (result: FirstPublication)
      requires Inv(Value()) && (answer.Some? ==> Answers(Value(), id, answer.value))
      modifies this
      ensures Inv(Value())
      ensures result.Skipped? <==> !Candidate(old(rows), id)
      ensures result.Skipped? ==> Value() == old(Value())
      ensures !result.Skipped? ==> Leads(old(Value()), StepsOf(answer, outcome, id, firstResend), Value())
      ensures !result.Skipped? ==>
                result == if answer.None? then FirstPublication.Refused
                          else if outcome.Committed? then Published else Failed
      ensures result.Published? ==>
                && id in rows && rows[id].published && id !in carried
                && rows[id].sequences == old(rows)[id].sequences + (CarriedFor(old(Value()), id) + {answer.value})
      ensures result.Failed? ==> carried == Kept(old(Value()), id, CarriedFor(old(Value()), id) + {answer.value})
    {
      if id !in rows || rows[id].published || rows[id].undeliverable {
        return Skipped;
      }
      ghost var s := Value();
      if answer.None? {
        RefusalLeads(s, id);
        return FirstPublication.Refused;
      }
      var row := rows[id];
      var sequences := (if id in carried then carried[id].sequences else {}) + {answer.value};
      copies := copies[answer.value := Copy(id, row.kind, row.owner)];
      if outcome.Committed? {
        CommitLeads(s, id, answer.value, firstResend);
        rows := rows[id := Marked(row, sequences, firstResend)];
        carried := carried - {id};
        result := Published;
      } else {
        FailureLeads(s, id, answer.value, outcome.applied, firstResend);
        if outcome.applied {
          rows := rows[id := Marked(row, sequences, firstResend)];
        }
        assert outcome.applied || rows == s.rows[id := row];
        if IsContentBearing(row.kind) && row.owner.Some? {
          carried := carried[id := Carried(row.owner.value, sequences)];
        }
        result := Failed;
      }
      LeadingKeeps(s, StepsOf(answer, outcome, id, firstResend), Value());
    }
  }
}
