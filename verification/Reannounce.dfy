/**
 * What a consumer of the archive's events holds. It keeps each subject under the archive of its
 * last fact, drops a subject whose tombstone it reads and everything it keeps under an archive
 * whose tombstone it reads. One owner, one account of that owner, events in outbox order.
 */
module Reannounce {
  import opened Common
  import VS = VersionStore
  import Restoration

  /** A fact carries the record as its row stood; the tombstones name what went. */
  datatype Event =
    | Fact(subject: VS.Entity, archive: VS.ExportId, record: VS.Record)
    | ArchiveGone(archive: VS.ExportId)
    | SubjectGone(subject: VS.Entity)

  /** An outbox row, kept in the log after a deletion dropped it. */
  datatype Entry = Entry(event: Event, dropped: bool)

  type Log = seq<Entry>
  type View = map<VS.Entity, (VS.ExportId, VS.Record)>

  // ---- The consumer ----------------------------------------------------------------------------------

  function Read(view: View, event: Event): View {
    match event
    case Fact(x, a, record) => view[x := (a, record)]
    case ArchiveGone(a) => map x | x in view && view[x].0 != a :: view[x]
    case SubjectGone(x) => view - {x}
  }

  /** What the consumer holds at the end of the log when the entries `unseen` never reached it. */
  function ViewOf(log: Log, unseen: set<nat>): View {
    if log == [] then map[]
    else
      var n := |log| - 1;
      if n in unseen then ViewOf(log[..n], unseen) else Read(ViewOf(log[..n], unseen), log[n].event)
  }

  /** Only a dropped entry can have missed the consumer. */
  ghost predicate MayMiss(log: Log, unseen: set<nat>) {
    forall i | i in unseen && i < |log| :: log[i].dropped
  }

  predicate FactOf(event: Event, x: VS.Entity) {
    event.Fact? && event.subject == x
  }

  /** Whether reading `event` changes a subject held under archive `a`. */
  predicate Concerns(event: Event, x: VS.Entity, a: VS.ExportId) {
    match event
    case Fact(y, _, _) => y == x
    case ArchiveGone(b) => b == a
    case SubjectGone(y) => y == x
  }

  /** Entry `i` is a fact of `x` still in the outbox, and nothing after it touches what it says. */
  ghost predicate IsCurrent(log: Log, x: VS.Entity, i: nat) {
    && i < |log| && FactOf(log[i].event, x) && !log[i].dropped
    && forall j | i < j < |log| :: !Concerns(log[j].event, x, log[i].event.archive)
  }

  /** No fact of `x`, or none since its tombstone, and none left in the outbox. */
  ghost predicate IsGone(log: Log, x: VS.Entity) {
    && (forall i | 0 <= i < |log| && FactOf(log[i].event, x) :: log[i].dropped)
    && exists n :: 0 <= n <= |log| && GoneSince(log, x, n)
  }

  ghost predicate GoneSince(log: Log, x: VS.Entity, n: nat)
    requires n <= |log|
  {
    && (n > 0 ==> log[n - 1].event == SubjectGone(x) && !log[n - 1].dropped)
    && forall j | n <= j < |log| :: !FactOf(log[j].event, x)
  }

  lemma {:induction false} CurrentIsHeld(log: Log, unseen: set<nat>, x: VS.Entity, i: nat)
    requires IsCurrent(log, x, i) && MayMiss(log, unseen)
    ensures x in ViewOf(log, unseen) && ViewOf(log, unseen)[x] == (log[i].event.archive, log[i].event.record)
  {
    var n := |log| - 1;
    if i < n {
      CurrentIsHeld(log[..n], unseen, x, i);
    }
  }

  lemma {:induction false} NotHeldSince(log: Log, unseen: set<nat>, x: VS.Entity, n: nat)
    requires n <= |log| && GoneSince(log, x, n) && MayMiss(log, unseen)
    ensures x !in ViewOf(log, unseen)
  {
    if n < |log| {
      assert log[..|log| - 1][..n] == log[..n];
      NotHeldSince(log[..|log| - 1], unseen, x, n);
    }
  }

  lemma GoneIsNotHeld(log: Log, unseen: set<nat>, x: VS.Entity)
    requires IsGone(log, x) && MayMiss(log, unseen)
    ensures x !in ViewOf(log, unseen)
  {
    var n :| 0 <= n <= |log| && GoneSince(log, x, n);
    NotHeldSince(log, unseen, x, n);
  }

  // ---- The latest fact ---------------------------------------------------------------------------------

  /** The latest fact of `x` in the outbox. */
  function Latest(log: Log, x: VS.Entity): (latest: Option<Event>)
    ensures latest.Some? ==> FactOf(latest.value, x)
  {
    if log == [] then None
    else
      var last := log[|log| - 1];
      if !last.dropped && FactOf(last.event, x) then Some(last.event) else Latest(log[..|log| - 1], x)
  }

  lemma {:induction false} LatestIsCurrent(log: Log, x: VS.Entity, i: nat)
    requires IsCurrent(log, x, i)
    ensures Latest(log, x) == Some(log[i].event)
  {
    if i < |log| - 1 { LatestIsCurrent(log[..|log| - 1], x, i); }
  }

  lemma {:induction false} NoneOfGone(log: Log, x: VS.Entity)
    requires forall i | 0 <= i < |log| && FactOf(log[i].event, x) :: log[i].dropped
    ensures Latest(log, x).None?
  {
    if log != [] { NoneOfGone(log[..|log| - 1], x); }
  }

  // ---- Changing the log --------------------------------------------------------------------------------

  function Entries(events: seq<Event>): (entries: Log)
    ensures |entries| == |events| && forall i | 0 <= i < |events| :: entries[i] == Entry(events[i], false)
  {
    seq(|events|, i requires 0 <= i < |events| => Entry(events[i], false))
  }

  function Marked(log: Log, drops: set<nat>): (marked: Log)
    ensures |marked| == |log|
    ensures forall i | 0 <= i < |log| :: marked[i] == Entry(log[i].event, log[i].dropped || i in drops)
  {
    seq(|log|, i requires 0 <= i < |log| => Entry(log[i].event, log[i].dropped || i in drops))
  }

  lemma CurrentStays(log: Log, drops: set<nat>, more: seq<Event>, x: VS.Entity, i: nat)
    requires IsCurrent(log, x, i) && i !in drops
    requires forall e | e in more :: !Concerns(e, x, log[i].event.archive)
    ensures IsCurrent(Marked(log, drops) + Entries(more), x, i)
    ensures (Marked(log, drops) + Entries(more))[i].event == log[i].event
  {
    var after := Marked(log, drops) + Entries(more);
    forall j | i < j < |after| ensures !Concerns(after[j].event, x, log[i].event.archive) {
      if j >= |log| { assert after[j].event in more; }
    }
  }

  lemma GoneStays(log: Log, drops: set<nat>, more: seq<Event>, x: VS.Entity)
    requires IsGone(log, x)
    requires forall i | i in drops && i < |log| :: log[i].event.Fact?
    requires forall e | e in more :: !FactOf(e, x)
    ensures IsGone(Marked(log, drops) + Entries(more), x)
  {
    var after := Marked(log, drops) + Entries(more);
    var n :| 0 <= n <= |log| && GoneSince(log, x, n);
    forall j | |log| <= j < |after| ensures !FactOf(after[j].event, x) { assert after[j].event in more; }
    assert GoneSince(after, x, n);
  }

  /** The one fact of `x` among the new events is its current one. */
  lemma NewFactIsCurrent(log: Log, drops: set<nat>, before: seq<Event>, facts: seq<Event>, k: nat)
    requires DistinctFacts(facts) && k < |facts|
    ensures IsCurrent(Marked(log, drops) + Entries(before + facts), facts[k].subject, |log| + |before| + k)
    ensures (Marked(log, drops) + Entries(before + facts))[|log| + |before| + k].event == facts[k]
  {
    var after := Marked(log, drops) + Entries(before + facts);
    var i := |log| + |before| + k;
    assert after[i] == Entry(facts[k], false);
    forall j | i < j < |after| ensures !Concerns(after[j].event, facts[k].subject, facts[k].archive) {
      assert after[j].event == facts[j - |log| - |before|];
    }
  }

  ghost predicate DistinctFacts(facts: seq<Event>) {
    && (forall i | 0 <= i < |facts| :: facts[i].Fact?)
    && (forall i, j | 0 <= i < j < |facts| :: facts[i].subject != facts[j].subject)
  }

  // ---- Steps ---------------------------------------------------------------------------------------------

  /**
   * The store, the outbox log, and the archives announced to the owner. An import or reparse of an
   * account that is not mapped to the owner announces nothing. An initial import announces its archive
   * even when it announces no record, a reparse does not.
   */
  datatype State = State(store: VS.State, log: Log, heads: set<VS.ExportId>)

  datatype Step =
    | Receive(received: VS.ExportId, at: nat, account: VS.Account)
    | Import(source: VS.ExportId, presented: seq<(VS.Entity, VS.Snapshot)>, facts: seq<Event>, mapped: bool,
             initial: bool)
    | Delete(scope: VS.Scope, tombstones: seq<Event>, again: seq<Event>, drops: set<nat>)

  predicate Changed(log: Log, x: VS.Entity, row: VS.Record) {
    var latest := Latest(log, x);
    latest.None? || latest.value.record != row
  }

  /** An import announces every record it observes whose latest fact does not say what the row says. */
  ghost predicate ImportAnnounces(log: Log, after: VS.State, e: VS.ExportId, facts: seq<Event>) {
    && DistinctFacts(facts)
    && (forall f | f in facts ::
          f.archive == e && (e, f.subject) in after.observations && f.subject in after.rows
          && f.record == after.rows[f.subject] && Changed(log, f.subject, f.record))
    && (forall x | x in after.rows && (e, x) in after.observations && Changed(log, x, after.rows[x]) ::
          exists k :: 0 <= k < |facts| && facts[k].subject == x)
  }

  /** The export a survivor is announced under: the earliest one left that presented what the row holds. */
  function Chosen(store: VS.State, x: VS.Entity): (e: VS.ExportId)
    requires x in store.rows && VS.Observers(store.exports, store.observations, x) != {}
    ensures e in VS.Observers(store.exports, store.observations, x)
    ensures (exists f :: f in store.exports && VS.Presents(store, f, x)) ==> VS.Presents(store, e, x)
    ensures forall f | f in store.exports && VS.Presents(store, f, x) :: e == f || VS.Before(store.exports, e, f)
  {
    var presenting := set f | f in VS.Observers(store.exports, store.observations, x) && VS.Presents(store, f, x);
    assert forall f | f in store.exports && VS.Presents(store, f, x) :: f in presenting;
    if presenting != {} then VS.Earliest(store.exports, presenting)
    else
      VS.Earliest(store.exports, VS.Observers(store.exports, store.observations, x))
  }

  /**
   * A project is announced again when its latest fact names a deleted archive, a conversation also
   * when that fact no longer says what the restored rows say.
   */
  predicate NeedsAgain(log: Log, deleted: set<VS.ExportId>, x: VS.Entity, row: VS.Record) {
    var latest := Latest(log, x);
    latest.Some? && (latest.value.archive in deleted || (x.Conversation? && latest.value.record != row))
  }

  ghost predicate Survives(s: State, scope: VS.Scope, x: VS.Entity)
    requires VS.Fits(s.store)
  {
    x in VS.Deleted(s.store, scope).rows && VS.ObservedBy(s.store, VS.DeletedExports(s.store, scope), x)
  }

  ghost predicate TombstonesFor(s: State, scope: VS.Scope, tombstones: seq<Event>)
    requires VS.Fits(s.store)
  {
    && (forall t | t in tombstones ::
          || (t.ArchiveGone? && t.archive in VS.DeletedExports(s.store, scope))
          || (t.SubjectGone? && t.subject in VS.RemovedRows(s.store, scope)))
    && (forall e | e in VS.DeletedExports(s.store, scope) && e in s.heads :: ArchiveGone(e) in tombstones)
    && (forall x | x in VS.RemovedRows(s.store, scope) && HasFact(s.log, x) :: SubjectGone(x) in tombstones)
  }

  ghost predicate AnnouncesAgain(s: State, scope: VS.Scope, again: seq<Event>)
    requires VS.Fits(s.store)
  {
    var after, deleted := VS.Deleted(s.store, scope), VS.DeletedExports(s.store, scope);
    && DistinctFacts(again)
    && (forall f | f in again ::
          && Survives(s, scope, f.subject) && NeedsAgain(s.log, deleted, f.subject, after.rows[f.subject])
          && f.record == after.rows[f.subject]
          && VS.Observers(after.exports, after.observations, f.subject) != {}
          && f.archive == Chosen(after, f.subject) && f.archive in s.heads)
    && (forall x | Survives(s, scope, x) && NeedsAgain(s.log, deleted, x, after.rows[x])
                   && VS.Observers(after.exports, after.observations, x) != {} && Chosen(after, x) in s.heads ::
          exists k :: 0 <= k < |again| && again[k].subject == x)
  }

  /** An earlier fact of a conversation that is announced again because its latest fact is outdated. */
  ghost predicate Superseded(s: State, again: seq<Event>, event: Event)
    requires DistinctFacts(again) && event.Fact?
  {
    && event.subject.Conversation?
    && exists k :: 0 <= k < |again| && again[k].subject == event.subject
        && Changed(s.log, event.subject, again[k].record)
  }

  /** Facts of removed subjects, of deleted archives, and superseded ones leave the outbox. */
  ghost predicate MustDrop(s: State, scope: VS.Scope, again: seq<Event>, i: nat)
    requires VS.Fits(s.store) && i < |s.log| && DistinctFacts(again)
  {
    var event := s.log[i].event;
    && event.Fact?
    && (|| event.subject in VS.RemovedRows(s.store, scope)
        || event.archive in VS.DeletedExports(s.store, scope)
        || Superseded(s, again, event))
  }

  /** Beside those only an earlier copy of a fact that is announced again does. */
  ghost predicate MayDrop(s: State, scope: VS.Scope, again: seq<Event>, i: nat)
    requires VS.Fits(s.store) && i < |s.log| && DistinctFacts(again)
  {
    MustDrop(s, scope, again, i) || s.log[i].event in again
  }

  ghost predicate Enabled(s: State, step: Step) {
    match step
    case Receive(e, at, account) => VS.Enabled(s.store, VS.Receive(e, at, account))
    case Import(e, presented, facts, mapped, _) =>
      && VS.Enabled(s.store, VS.Import(e, presented))
      && (if mapped then ImportAnnounces(s.log, VS.ImportAll(s.store, e, presented), e, facts) else facts == [])
    case Delete(scope, tombstones, again, drops) =>
      && VS.Fits(s.store)
      && TombstonesFor(s, scope, tombstones) && AnnouncesAgain(s, scope, again)
      && (forall i | i in drops :: i < |s.log| && MayDrop(s, scope, again, i))
      && (forall i | 0 <= i < |s.log| && MustDrop(s, scope, again, i) :: i in drops)
  }

  ghost function Apply(s: State, step: Step): State
    requires Enabled(s, step)
  {
    match step
    case Receive(e, at, account) => s.(store := VS.Apply(s.store, VS.Receive(e, at, account)))
    case Import(e, presented, facts, mapped, initial) =>
      if mapped then
        State(VS.ImportAll(s.store, e, presented), Marked(s.log, {}) + Entries([] + facts),
              if initial || facts != [] then s.heads + {e} else s.heads)
      else s.(store := VS.ImportAll(s.store, e, presented))
    case Delete(scope, tombstones, again, drops) =>
      State(VS.Deleted(s.store, scope), Marked(s.log, drops) + Entries(tombstones + again),
            s.heads - VS.DeletedExports(s.store, scope))
  }

  const INITIAL: State := State(VS.INITIAL, [], {})

  ghost predicate Run(states: seq<State>, steps: seq<Step>) {
    && |states| == |steps| + 1 && states[0] == INITIAL
    && forall i | 0 <= i < |steps| :: Enabled(states[i], steps[i]) && states[i + 1] == Apply(states[i], steps[i])
  }

  /** An import that is announced: an initial one, or a reparse of an archive that was. */
  ghost predicate IsAnnounced(s: State, step: Step) {
    step.Import? ==> step.mapped && (step.initial || step.source in s.heads)
  }

  ghost predicate AllAnnounced(states: seq<State>, steps: seq<Step>)
    requires Run(states, steps)
  {
    forall i | 0 <= i < |steps| :: IsAnnounced(states[i], steps[i])
  }

  /** After the import its export observes every project that the conversations it presents name. */
  ghost predicate Complete(s: State, step: Step)
    requires Enabled(s, step)
  {
    step.Import? ==>
      forall i | 0 <= i < |step.presented| && step.presented[i].1.OfConversation? ::
        var project := step.presented[i].1.version.content.project;
        project.Some? ==>
          (step.source, VS.Project(project.value)) in VS.ImportAll(s.store, step.source, step.presented).observations
  }

  ghost predicate AllComplete(states: seq<State>, steps: seq<Step>)
    requires Run(states, steps)
  {
    forall i | 0 <= i < |steps| :: Complete(states[i], steps[i])
  }

  // ---- The invariant ---------------------------------------------------------------------------------------

  /** The row is what the fact said, but its project went. */
  predicate LostProject(record: VS.Record, row: VS.Record) {
    && record.ConversationRow? && row.ConversationRow? && record.account == row.account
    && record.state.header.project.Some?
    && row.state == record.state.(header := record.state.header.(project := None))
  }

  predicate Says(record: VS.Record, row: VS.Record, exact: bool) {
    record == row || (!exact && LostProject(record, row))
  }

  /** The current fact of `x` says what its row says, under an archive that observes it. */
  ghost predicate AnnouncedAt(s: State, x: VS.Entity, i: nat, exact: bool)
    requires x in s.store.rows
  {
    && IsCurrent(s.log, x, i) && Says(s.log[i].event.record, s.store.rows[x], exact)
    && (s.log[i].event.archive, x) in s.store.observations
    && (x.Project? ==> VS.Presents(s.store, s.log[i].event.archive, x))
  }

  ghost predicate Announced(s: State, x: VS.Entity, exact: bool)
    requires x in s.store.rows
  {
    exists i: nat :: AnnouncedAt(s, x, i, exact)
  }

  /** Every export observes the projects that the conversations it presents name. */
  ghost predicate NamesItsProjects(store: VS.State) {
    forall k | k in store.observations && NamedProject(store.observations[k]).Some? ::
      (k.0, VS.Project(NamedProject(store.observations[k]).value)) in store.observations
  }

  function NamedProject(digest: VS.Digest): Option<nat> {
    match digest
    case ProjectDigest(_) => None
    case ConversationDigest(c) => c.project
  }

  ghost predicate Inv(s: State, exact: bool) {
    && VS.Inv(s.store)
    && (exact ==> NamesItsProjects(s.store))
    && (forall k | k in s.store.observations :: k.0 in s.heads)
    && (forall x | x in s.store.rows :: Announced(s, x, exact))
    && (forall x | x !in s.store.rows :: IsGone(s.log, x))
  }

  // ---- Imports keep it -------------------------------------------------------------------------------------

  lemma ProjectSays(s: State, x: VS.Entity, i: nat, exact: bool)
    requires VS.Fits(s.store) && x in s.store.rows && AnnouncedAt(s, x, i, exact) && (x.Project? || exact)
    ensures s.log[i].event.record == s.store.rows[x]
  {
    assert VS.RowFits(x, s.store.rows[x]);
  }

  lemma UnchangedByImport(
      s: State, after: VS.State, e: VS.ExportId, presented: seq<(VS.Entity, VS.Snapshot)>, x: VS.Entity, i: nat, exact: bool)
    requires VS.Fits(s.store) && x in s.store.rows && AnnouncedAt(s, x, i, exact)
    requires VS.ImportEffect(s.store, after, e, presented) && e in after.exports
    requires (e, x) in after.observations ==> x in after.rows && !Changed(s.log, x, after.rows[x])
    ensures x in after.rows && Says(s.log[i].event.record, after.rows[x], exact)
    ensures (s.log[i].event.archive, x) in after.observations
    ensures x.Project? ==> VS.Presents(after, s.log[i].event.archive, x)
  {
    LatestIsCurrent(s.log, x, i);
    if x.Project? { ProjectSays(s, x, i, exact); }
  }

  lemma NewlyAnnounced(
      s: State, t: State, e: VS.ExportId, presented: seq<(VS.Entity, VS.Snapshot)>, facts: seq<Event>, k: nat, exact: bool)
    requires Inv(s, exact) && VS.ImportEffect(s.store, t.store, e, presented)
    requires ImportAnnounces(s.log, t.store, e, facts) && k < |facts|
        && t.log == Marked(s.log, {}) + Entries([] + facts)
    ensures facts[k].subject in t.store.rows && Announced(t, facts[k].subject, exact)
  {
    NewFactIsCurrent(s.log, {}, [], facts, k);
    assert facts[k] in facts;
    if facts[k].subject.Project? { ChangedIsPresented(s, t.store, e, presented, facts[k].subject, exact); }
    NamedAt(t, facts[k], |s.log| + k, exact);
  }

  lemma NamedAt(t: State, f: Event, i: nat, exact: bool)
    requires f.Fact? && f.subject in t.store.rows && f.record == t.store.rows[f.subject]
    requires (f.archive, f.subject) in t.store.observations
    requires f.subject.Project? ==> VS.Presents(t.store, f.archive, f.subject)
    requires IsCurrent(t.log, f.subject, i) && t.log[i].event == f
    ensures Announced(t, f.subject, exact)
  {
    assert AnnouncedAt(t, f.subject, i, exact);
  }

  lemma StillAnnounced(
      s: State, t: State, e: VS.ExportId, presented: seq<(VS.Entity, VS.Snapshot)>, facts: seq<Event>, x: VS.Entity,
      exact: bool)
    requires Inv(s, exact) && VS.ImportEffect(s.store, t.store, e, presented) && e in t.store.exports && x in t.store.rows
    requires ImportAnnounces(s.log, t.store, e, facts) && t.log == Marked(s.log, {}) + Entries([] + facts)
    requires forall k | 0 <= k < |facts| :: facts[k].subject != x
    ensures Announced(t, x, exact)
  {
    assert (e, x) in t.store.observations ==> !Changed(s.log, x, t.store.rows[x]);
    if x !in s.store.rows { NoneOfGone(s.log, x); }
    assert Announced(s, x, exact);
    var i: nat :| AnnouncedAt(s, x, i, exact);
    UnchangedByImport(s, t.store, e, presented, x, i, exact);
    forall f | f in [] + facts ensures !Concerns(f, x, s.log[i].event.archive) {
      var k :| 0 <= k < |facts| && facts[k] == f;
    }
    CurrentStays(s.log, {}, [] + facts, x, i);
    assert AnnouncedAt(t, x, i, exact);
  }

  lemma ImportKeepsRow(
      s: State, t: State, e: VS.ExportId, presented: seq<(VS.Entity, VS.Snapshot)>, facts: seq<Event>, x: VS.Entity,
      exact: bool)
    requires Inv(s, exact) && VS.ImportEffect(s.store, t.store, e, presented) && e in t.store.exports && x in t.store.rows
    requires ImportAnnounces(s.log, t.store, e, facts) && t.log == Marked(s.log, {}) + Entries([] + facts)
    ensures Announced(t, x, exact)
  {
    if k :| 0 <= k < |facts| && facts[k].subject == x {
      NewlyAnnounced(s, t, e, presented, facts, k, exact);
    } else {
      StillAnnounced(s, t, e, presented, facts, x, exact);
    }
  }

  /** A project whose latest fact does not say what its row says was presented by this import. */
  lemma ChangedIsPresented(
      s: State, after: VS.State, e: VS.ExportId, presented: seq<(VS.Entity, VS.Snapshot)>, x: VS.Entity, exact: bool)
    requires Inv(s, exact) && VS.ImportEffect(s.store, after, e, presented) && x in after.rows && x.Project?
    requires Changed(s.log, x, after.rows[x])
    ensures VS.Among(x, presented)
  {
    if !VS.Among(x, presented) {
      assert Announced(s, x, exact);
      var i: nat :| AnnouncedAt(s, x, i, exact);
      LatestIsCurrent(s.log, x, i);
      ProjectSays(s, x, i, exact);
    }
  }

  /** What an export presents after an import is what it presented before or the last it presents now. */
  lemma PresentedOrKept(s: VS.State, e: VS.ExportId, presented: seq<(VS.Entity, VS.Snapshot)>, k: VS.Observation)
    requires e in s.exports && (forall p | p in presented :: VS.SnapshotFits(p.0, p.1))
    requires k in VS.ImportAll(s, e, presented).observations
    ensures
      || (exists i :: 0 <= i < |presented| && k == (e, presented[i].0)
            && VS.ImportAll(s, e, presented).observations[k] == VS.DigestOf(presented[i].1))
      || (k in s.observations && VS.ImportAll(s, e, presented).observations[k] == s.observations[k])
  {
    VS.ImportHasEffect(s, e, presented);
    assert k == (k.0, k.1);
    if k.0 == e && VS.Among(k.1, presented) {
      var i := VS.LastPosition(presented, k.1);
      VS.LastPresentedStays(s, e, presented, i);
    }
  }

  lemma ImportNamesProjects(s: State, e: VS.ExportId, presented: seq<(VS.Entity, VS.Snapshot)>, facts: seq<Event>,
                            initial: bool)
    requires NamesItsProjects(s.store) && Enabled(s, Import(e, presented, facts, true, initial))
    requires Complete(s, Import(e, presented, facts, true, initial))
    ensures NamesItsProjects(VS.ImportAll(s.store, e, presented))
  {
    var after := VS.ImportAll(s.store, e, presented);
    VS.ImportHasEffect(s.store, e, presented);
    forall k | k in after.observations && NamedProject(after.observations[k]).Some?
      ensures (k.0, VS.Project(NamedProject(after.observations[k]).value)) in after.observations
    {
      PresentedOrKept(s.store, e, presented, k);
      var p := VS.Project(NamedProject(after.observations[k]).value);
      if i :| 0 <= i < |presented| && k == (e, presented[i].0) && after.observations[k] == VS.DigestOf(presented[i].1) {
        assert presented[i].1.OfConversation?;
      } else {
        assert (k.0, p) in s.store.observations;
      }
    }
  }

  lemma ImportKeeps(
      s: State, e: VS.ExportId, presented: seq<(VS.Entity, VS.Snapshot)>, facts: seq<Event>, initial: bool, exact: bool)
    requires Inv(s, exact) && Enabled(s, Import(e, presented, facts, true, initial)) && (initial || e in s.heads)
    requires exact ==> Complete(s, Import(e, presented, facts, true, initial))
    ensures Inv(Apply(s, Import(e, presented, facts, true, initial)), exact)
  {
    var t := Apply(s, Import(e, presented, facts, true, initial));
    VS.ImportKeeps(s.store, e, presented);
    VS.ImportHasEffect(s.store, e, presented);
    if exact { ImportNamesProjects(s, e, presented, facts, initial); }
    forall x | x in t.store.rows ensures Announced(t, x, exact) { ImportKeepsRow(s, t, e, presented, facts, x, exact); }
    forall x | x !in t.store.rows ensures IsGone(t.log, x) {
      assert forall f | f in [] + facts :: f in facts;
      GoneStays(s.log, {}, [] + facts, x);
    }
    forall k | k in t.store.observations ensures k.0 in t.heads {
      assert k == (k.0, k.1);
    }
  }

  // ---- Deletions keep it -------------------------------------------------------------------------------------

  lemma LeftObservers(s: VS.State, scope: VS.Scope, x: VS.Entity) returns (e: VS.ExportId)
    requires VS.Inv(s) && x in VS.Deleted(s, scope).rows
    ensures VS.Observers(VS.Deleted(s, scope).exports, VS.Deleted(s, scope).observations, x) != {}
    ensures e in VS.Deleted(s, scope).exports && VS.Presents(VS.Deleted(s, scope), e, x)
  {
    var t := VS.Deleted(s, scope);
    VS.DeletionKeeps(s, scope);
    assert VS.Named(t.observations, x, VS.RowDigest(t.rows[x]).value);
    e :| (e, x) in t.observations && t.observations[(e, x)] == VS.RowDigest(t.rows[x]).value;
    assert e in VS.Observers(t.exports, t.observations, x);
  }

  /** A kept project that an export left still presents stays as it is. */
  lemma ProjectStays(s: VS.State, scope: VS.Scope, x: VS.Entity)
    requires VS.Inv(s) && x in VS.Deleted(s, scope).rows && x.Project?
    requires VS.Named(VS.Left(s, VS.DeletedExports(s, scope)), x, VS.RowDigest(s.rows[x]).value)
    ensures VS.Deleted(s, scope).rows[x] == s.rows[x]
  {
    assert VS.RowFits(x, s.rows[x]);
    assert !VS.Restores(s, scope, VS.Left(s, VS.DeletedExports(s, scope)), x);
    assert VS.Deleted(s, scope).rows[x] == VS.RowAfter(s, scope, x);
  }

  /** The project of a conversation the deletion did not observe, when its own exports observe it. */
  lemma OwnProjectStays(s: VS.State, scope: VS.Scope, x: VS.Entity)
    requires VS.Inv(s) && NamesItsProjects(s) && x in VS.LeftRows(s, scope) && s.rows[x].ConversationRow?
    requires !VS.ObservedBy(s, VS.DeletedExports(s, scope), x) && s.rows[x].state.header.project.Some?
    ensures VS.Project(s.rows[x].state.header.project.value) !in VS.RemovedRows(s, scope)
  {
    var deleted := VS.DeletedExports(s, scope);
    var p := VS.Project(s.rows[x].state.header.project.value);
    assert VS.ProjectHolds(s.rows, x);
    var d := VS.RowDigest(s.rows[x]).value;
    assert VS.Named(s.observations, x, d);
    var e :| (e, x) in s.observations && s.observations[(e, x)] == d;
    assert NamedProject(d) == s.rows[x].state.header.project;
    assert (e, p) in s.observations && e !in deleted;
    assert VS.ObservedBeside(s, deleted, p);
  }

  /** What becomes of the row of a kept conversation the deletion did not observe. */
  lemma UnobservedAfter(s: VS.State, scope: VS.Scope, x: VS.Entity)
    requires VS.Inv(s) && x in VS.Deleted(s, scope).rows
    requires x.Conversation? && !VS.ObservedBy(s, VS.DeletedExports(s, scope), x)
    ensures x in VS.LeftRows(s, scope) && s.rows[x].ConversationRow?
    ensures VS.Deleted(s, scope).rows[x]
            == VS.ConversationRow(s.rows[x].account, VS.Unlinked(s.rows[x].state, VS.RemovedRows(s, scope)))
  {
    assert x in VS.LeftRows(s, scope);
    VS.UnobservedRow(s, scope, x);
  }

  lemma UnlinkedSays(record: VS.Record, row: VS.Record, removed: set<VS.Entity>, exact: bool)
    requires row.ConversationRow? && Says(record, row, exact)
    requires exact && row.state.header.project.Some? ==> VS.Project(row.state.header.project.value) !in removed
    ensures Says(record, VS.ConversationRow(row.account, VS.Unlinked(row.state, removed)), exact)
  {
  }

  lemma UnobservedSays(s: VS.State, scope: VS.Scope, x: VS.Entity, record: VS.Record, exact: bool)
    requires VS.Inv(s) && (exact ==> NamesItsProjects(s)) && x in VS.Deleted(s, scope).rows
    requires x.Conversation? && !VS.ObservedBy(s, VS.DeletedExports(s, scope), x)
    requires x in s.rows && Says(record, s.rows[x], exact)
    ensures Says(record, VS.Deleted(s, scope).rows[x], exact)
  {
    UnobservedAfter(s, scope, x);
    if exact && s.rows[x].state.header.project.Some? { OwnProjectStays(s, scope, x); }
    UnlinkedSays(record, s.rows[x], VS.RemovedRows(s, scope), exact);
  }

  /** A kept record whose latest fact the deletion leaves alone: the fact still says what the row says. */
  lemma QuietRowSaysTheSame(s: State, scope: VS.Scope, x: VS.Entity, i: nat, exact: bool)
    requires Inv(s, exact) && x in VS.Deleted(s.store, scope).rows && x in s.store.rows && AnnouncedAt(s, x, i, exact)
    requires s.log[i].event.archive !in VS.DeletedExports(s.store, scope)
    requires !(Survives(s, scope, x)
               && NeedsAgain(s.log, VS.DeletedExports(s.store, scope), x, VS.Deleted(s.store, scope).rows[x]))
    ensures Says(s.log[i].event.record, VS.Deleted(s.store, scope).rows[x], exact)
  {
    LatestIsCurrent(s.log, x, i);
    var a := s.log[i].event.archive;
    if x.Project? {
      ProjectSays(s, x, i, exact);
      assert (a, x) in VS.Left(s.store, VS.DeletedExports(s.store, scope));
      ProjectStays(s.store, scope, x);
    } else if !VS.ObservedBy(s.store, VS.DeletedExports(s.store, scope), x) {
      UnobservedSays(s.store, scope, x, s.log[i].event.record, exact);
    }
  }

  /**
   * A survivor that is announced again is announced as its row stands, under the earliest export left
   * that presents what the row holds.
   */
  lemma AgainFact(s: State, scope: VS.Scope, again: seq<Event>, f: Event)
    requires VS.Inv(s.store) && AnnouncesAgain(s, scope, again) && f in again
    ensures
      var after := VS.Deleted(s.store, scope);
      && f.Fact? && f.subject in after.rows && f.record == after.rows[f.subject]
      && (f.archive, f.subject) in after.observations && VS.Presents(after, f.archive, f.subject)
      && f.archive in after.exports
      && forall e | e in after.exports && VS.Presents(after, e, f.subject) ::
           f.archive == e || VS.Before(after.exports, f.archive, e)
  {
    var e := LeftObservers(s.store, scope, f.subject);
  }

  lemma AgainRow(
      s: State, t: State, scope: VS.Scope, tombstones: seq<Event>, again: seq<Event>, drops: set<nat>, k: nat, exact: bool)
    requires VS.Inv(s.store) && AnnouncesAgain(s, scope, again) && k < |again|
    requires t.store == VS.Deleted(s.store, scope) && t.log == Marked(s.log, drops) + Entries(tombstones + again)
    ensures again[k].subject in t.store.rows && Announced(t, again[k].subject, exact)
  {
    var i := |s.log| + |tombstones| + k;
    assert DistinctFacts(again);
    AgainFact(s, scope, again, again[k]);
    NewFactIsCurrent(s.log, drops, tombstones, again, k);
    NamedAt(t, again[k], i, exact);
  }

  lemma DeletionKeepsRow(
      s: State, scope: VS.Scope, tombstones: seq<Event>, again: seq<Event>, drops: set<nat>, x: VS.Entity, exact: bool)
    requires Inv(s, exact) && Enabled(s, Delete(scope, tombstones, again, drops)) && x in VS.Deleted(s.store, scope).rows
    ensures Announced(Apply(s, Delete(scope, tombstones, again, drops)), x, exact)
  {
    if k :| 0 <= k < |again| && again[k].subject == x {
      AgainRow(s, Apply(s, Delete(scope, tombstones, again, drops)), scope, tombstones, again, drops, k, exact);
    } else {
      assert x in s.store.rows && Announced(s, x, exact);
      var i: nat :| AnnouncedAt(s, x, i, exact);
      QuietRow(s, Apply(s, Delete(scope, tombstones, again, drops)), scope, tombstones, again, drops, x, i, exact);
    }
  }

  lemma QuietFactStays(
      s: State, scope: VS.Scope, tombstones: seq<Event>, again: seq<Event>, drops: set<nat>, x: VS.Entity, i: nat)
    requires VS.Fits(s.store) && Enabled(s, Delete(scope, tombstones, again, drops))
        && x in VS.Deleted(s.store, scope).rows
    requires IsCurrent(s.log, x, i) && s.log[i].event.archive !in VS.DeletedExports(s.store, scope)
    requires forall k | 0 <= k < |again| :: again[k].subject != x
    ensures IsCurrent(Marked(s.log, drops) + Entries(tombstones + again), x, i)
    ensures (Marked(s.log, drops) + Entries(tombstones + again))[i].event == s.log[i].event
  {
    assert x !in VS.RemovedRows(s.store, scope);
    assert forall f | f in again :: f.Fact? && f.subject != x;
    assert i !in drops;
    forall f | f in tombstones + again ensures !Concerns(f, x, s.log[i].event.archive) {
      assert f in tombstones || f in again;
    }
    CurrentStays(s.log, drops, tombstones + again, x, i);
  }

  lemma QuietRow(
      s: State, t: State, scope: VS.Scope, tombstones: seq<Event>, again: seq<Event>, drops: set<nat>,
      x: VS.Entity, i: nat, exact: bool)
    requires VS.Fits(s.store) && t.store == VS.Deleted(s.store, scope) && x in t.store.rows
    requires x in s.store.rows && AnnouncedAt(s, x, i, exact) && DistinctFacts(again)
    requires Inv(s, exact) && Enabled(s, Delete(scope, tombstones, again, drops))
    requires t.log == Marked(s.log, drops) + Entries(tombstones + again)
    requires forall k | 0 <= k < |again| :: again[k].subject != x
    ensures Announced(t, x, exact)
  {
    NotNeededAgain(s, scope, again, x, i, exact);
    QuietRowSaysTheSame(s, scope, x, i, exact);
    QuietFactStays(s, scope, tombstones, again, drops, x, i);
    LeftPresents(s, scope, x, i, exact);
    assert AnnouncedAt(t, x, i, exact);
  }

  lemma LeftPresents(s: State, scope: VS.Scope, x: VS.Entity, i: nat, exact: bool)
    requires VS.Inv(s.store) && x in s.store.rows && x in VS.Deleted(s.store, scope).rows && AnnouncedAt(s, x, i, exact)
    requires s.log[i].event.archive !in VS.DeletedExports(s.store, scope)
    ensures (s.log[i].event.archive, x) in VS.Deleted(s.store, scope).observations
    ensures x.Project? ==> VS.Presents(VS.Deleted(s.store, scope), s.log[i].event.archive, x)
  {
    assert (s.log[i].event.archive, x) in VS.Left(s.store, VS.DeletedExports(s.store, scope));
    if x.Project? { ProjectStays(s.store, scope, x); }
  }

  lemma NotNeededAgain(s: State, scope: VS.Scope, again: seq<Event>, x: VS.Entity, i: nat, exact: bool)
    requires VS.Inv(s.store) && (forall k | k in s.store.observations :: k.0 in s.heads)
    requires x in VS.Deleted(s.store, scope).rows && x in s.store.rows && AnnouncedAt(s, x, i, exact)
    requires AnnouncesAgain(s, scope, again)
    requires forall k | 0 <= k < |again| :: again[k].subject != x
    ensures !(Survives(s, scope, x)
              && NeedsAgain(s.log, VS.DeletedExports(s.store, scope), x, VS.Deleted(s.store, scope).rows[x]))
    ensures s.log[i].event.archive !in VS.DeletedExports(s.store, scope)
  {
    ChosenIsHead(s, scope, x);
    LatestIsCurrent(s.log, x, i);
    assert s.log[i].event.archive in VS.DeletedExports(s.store, scope) ==> Survives(s, scope, x);
  }

  /** The export a survivor would be announced under was announced itself. */
  lemma ChosenIsHead(s: State, scope: VS.Scope, x: VS.Entity)
    requires VS.Inv(s.store) && (forall k | k in s.store.observations :: k.0 in s.heads)
    requires x in VS.Deleted(s.store, scope).rows
    ensures VS.Observers(VS.Deleted(s.store, scope).exports, VS.Deleted(s.store, scope).observations, x) != {}
    ensures Chosen(VS.Deleted(s.store, scope), x) in s.heads
  {
    var e := LeftObservers(s.store, scope, x);
    assert (Chosen(VS.Deleted(s.store, scope), x), x) in s.store.observations;
  }

  lemma DeletionKeepsGone(
      s: State, scope: VS.Scope, tombstones: seq<Event>, again: seq<Event>, drops: set<nat>, x: VS.Entity)
    requires VS.Inv(s.store) && Enabled(s, Delete(scope, tombstones, again, drops))
    requires x !in VS.Deleted(s.store, scope).rows && (x !in s.store.rows ==> IsGone(s.log, x))
    ensures IsGone(Apply(s, Delete(scope, tombstones, again, drops)).log, x)
  {
    if x !in s.store.rows {
      forall f | f in tombstones + again ensures !FactOf(f, x) { assert f in tombstones || f in again; }
      GoneStays(s.log, drops, tombstones + again, x);
    } else {
      RemovedIsGone(s, scope, tombstones, again, drops, x);
    }
  }

  lemma RemovedNotAgain(s: State, scope: VS.Scope, again: seq<Event>, x: VS.Entity)
    requires VS.Fits(s.store) && AnnouncesAgain(s, scope, again) && x in VS.RemovedRows(s.store, scope)
    ensures forall f | f in again :: !FactOf(f, x)
  {
    assert x !in VS.Deleted(s.store, scope).rows;
    assert forall f | f in again :: Survives(s, scope, f.subject);
  }

  ghost predicate HasFact(log: Log, x: VS.Entity) {
    exists i :: 0 <= i < |log| && FactOf(log[i].event, x)
  }

  lemma RemovedIsGone(
      s: State, scope: VS.Scope, tombstones: seq<Event>, again: seq<Event>, drops: set<nat>, x: VS.Entity)
    requires VS.Fits(s.store) && Enabled(s, Delete(scope, tombstones, again, drops)) && x in VS.RemovedRows(s.store, scope)
    ensures IsGone(Apply(s, Delete(scope, tombstones, again, drops)).log, x)
  {
    RemovedNotAgain(s, scope, again, x);
    forall m | 0 <= m < |s.log| && FactOf(s.log[m].event, x) ensures m in drops {
      assert MustDrop(s, scope, again, m);
    }
    if HasFact(s.log, x) {
      TombstonedIsGone(s.log, drops, tombstones, again, x);
    } else {
      NeverAnnouncedIsGone(s.log, drops, tombstones, again, x);
    }
  }

  lemma NeverAnnouncedIsGone(log: Log, drops: set<nat>, tombstones: seq<Event>, again: seq<Event>, x: VS.Entity)
    requires !HasFact(log, x) && (forall f | f in tombstones :: !f.Fact?) && (forall f | f in again :: !FactOf(f, x))
    ensures IsGone(Marked(log, drops) + Entries(tombstones + again), x)
  {
    var after := Marked(log, drops) + Entries(tombstones + again);
    forall m | 0 <= m < |after| ensures !FactOf(after[m].event, x) {
      if m < |log| {
        assert after[m].event == log[m].event;
      } else {
        assert after[m].event == (tombstones + again)[m - |log|];
        assert after[m].event in tombstones || after[m].event in again;
      }
    }
    assert GoneSince(after, x, 0);
  }

  /** A tombstoned subject none of whose facts stays in the outbox is gone. */
  lemma TombstonedIsGone(log: Log, drops: set<nat>, tombstones: seq<Event>, again: seq<Event>, x: VS.Entity)
    requires SubjectGone(x) in tombstones
    requires forall f | f in tombstones :: !f.Fact?
    requires forall f | f in again :: !FactOf(f, x)
    requires forall m | 0 <= m < |log| && FactOf(log[m].event, x) :: m in drops
    ensures IsGone(Marked(log, drops) + Entries(tombstones + again), x)
  {
    var after := Marked(log, drops) + Entries(tombstones + again);
    var j :| 0 <= j < |tombstones| && tombstones[j] == SubjectGone(x);
    forall m | |log| <= m < |after| ensures !FactOf(after[m].event, x) {
      assert after[m].event == (tombstones + again)[m - |log|];
      assert after[m].event in tombstones || after[m].event in again;
    }
    assert after[|log| + j].event == SubjectGone(x);
    assert GoneSince(after, x, |log| + j + 1);
  }

  lemma DeletionNamesProjects(s: VS.State, scope: VS.Scope)
    requires VS.Fits(s) && NamesItsProjects(s)
    ensures NamesItsProjects(VS.Deleted(s, scope))
  {
    var after := VS.Deleted(s, scope);
    forall k | k in after.observations && NamedProject(after.observations[k]).Some?
      ensures (k.0, VS.Project(NamedProject(after.observations[k]).value)) in after.observations
    {
      assert k in s.observations;
    }
  }

  lemma DeletionKeeps(
      s: State, scope: VS.Scope, tombstones: seq<Event>, again: seq<Event>, drops: set<nat>, exact: bool)
    requires Inv(s, exact) && Enabled(s, Delete(scope, tombstones, again, drops))
    ensures Inv(Apply(s, Delete(scope, tombstones, again, drops)), exact)
  {
    var t := Apply(s, Delete(scope, tombstones, again, drops));
    VS.DeletionKeeps(s.store, scope);
    if exact { DeletionNamesProjects(s.store, scope); }
    forall x | x in t.store.rows ensures Announced(t, x, exact) {
      DeletionKeepsRow(s, scope, tombstones, again, drops, x, exact);
    }
    forall x | x !in t.store.rows ensures IsGone(t.log, x) {
      DeletionKeepsGone(s, scope, tombstones, again, drops, x);
    }
  }

  lemma ReceiptKeeps(s: State, e: VS.ExportId, at: nat, account: VS.Account, exact: bool)
    requires Inv(s, exact) && Enabled(s, Receive(e, at, account))
    ensures Inv(Apply(s, Receive(e, at, account)), exact)
  {
    var t := Apply(s, Receive(e, at, account));
    VS.ReceiptKeeps(s.store, e, at, account);
    forall x | x in t.store.rows ensures Announced(t, x, exact) {
      assert Announced(s, x, exact);
      var i: nat :| AnnouncedAt(s, x, i, exact);
      assert AnnouncedAt(t, x, i, exact);
    }
  }

  lemma {:induction false} RunKeeps(states: seq<State>, steps: seq<Step>, n: nat, exact: bool)
    requires Run(states, steps) && AllAnnounced(states, steps) && n < |states| && (exact ==> AllComplete(states, steps))
    ensures Inv(states[n], exact)
  {
    if n == 0 {
      forall x ensures IsGone(states[0].log, x) { assert GoneSince(states[0].log, x, 0); }
    } else {
      RunKeeps(states, steps, n - 1, exact);
      match steps[n - 1]
      case Receive(e, at, account) => ReceiptKeeps(states[n - 1], e, at, account, exact);
      case Import(e, presented, facts, _, initial) => ImportKeeps(states[n - 1], e, presented, facts, initial, exact);
      case Delete(scope, tombstones, again, drops) => DeletionKeeps(states[n - 1], scope, tombstones, again, drops, exact);
    }
  }

  lemma HeldAsAnnounced(s: State, unseen: set<nat>, x: VS.Entity, exact: bool)
    requires Inv(s, exact) && MayMiss(s.log, unseen)
    ensures
      var view := ViewOf(s.log, unseen);
      && (x in view <==> x in s.store.rows)
      && (x in view ==> Says(view[x].1, s.store.rows[x], exact) && view[x].0 in s.store.exports)
  {
    if x in s.store.rows {
      assert Announced(s, x, exact);
      var i: nat :| AnnouncedAt(s, x, i, exact);
      CurrentIsHeld(s.log, unseen, x, i);
    } else {
      GoneIsNotHeld(s.log, unseen, x);
    }
  }

  /**
   * In every run in which each import is announced, the consumer holds exactly the projects and
   * conversations there are, under archives that are there, whichever of the dropped facts reached
   * it. A project is held as its row stands. So is a conversation, except that it may still name a
   * project where its row names none because the project went.
   */
  lemma ConsumerHoldsTheRows(states: seq<State>, steps: seq<Step>, n: nat, unseen: set<nat>, x: VS.Entity)
    requires Run(states, steps) && AllAnnounced(states, steps) && n < |states| && MayMiss(states[n].log, unseen)
    ensures
      var view, store := ViewOf(states[n].log, unseen), states[n].store;
      && (x in view <==> x in store.rows)
      && (x in view ==> view[x].0 in store.exports)
      && (x in view && x.Project? ==> view[x].1 == store.rows[x])
      && (x in view && x.Conversation? ==> view[x].1 == store.rows[x] || LostProject(view[x].1, store.rows[x]))
  {
    RunKeeps(states, steps, n, false);
    HeldAsAnnounced(states[n], unseen, x, false);
    if x in states[n].store.rows { assert VS.RowFits(x, states[n].store.rows[x]); }
  }

  /**
   * If moreover every export observes the projects that the conversations it presents name, the
   * consumer holds every project and conversation exactly as its row stands.
   */
  lemma ConsumerHoldsTheRowsExactly(states: seq<State>, steps: seq<Step>, n: nat, unseen: set<nat>, x: VS.Entity)
    requires Run(states, steps) && AllAnnounced(states, steps) && AllComplete(states, steps)
    requires n < |states| && MayMiss(states[n].log, unseen)
    ensures
      var view, store := ViewOf(states[n].log, unseen), states[n].store;
      && (x in view <==> x in store.rows)
      && (x in view ==> view[x].1 == store.rows[x] && view[x].0 in store.exports)
  {
    RunKeeps(states, steps, n, true);
    HeldAsAnnounced(states[n], unseen, x, true);
  }

  lemma {:induction false} StoreKeeps(states: seq<State>, steps: seq<Step>, n: nat)
    requires Run(states, steps) && n < |states|
    ensures VS.Inv(states[n].store) && forall x | x !in states[n].store.rows :: IsGone(states[n].log, x)
  {
    if n == 0 {
      forall x ensures IsGone(states[0].log, x) { assert GoneSince(states[0].log, x, 0); }
    } else {
      StoreKeeps(states, steps, n - 1);
      StoreStep(states[n - 1], steps[n - 1]);
    }
  }

  lemma StoreStep(s: State, step: Step)
    requires VS.Inv(s.store) && (forall x | x !in s.store.rows :: IsGone(s.log, x)) && Enabled(s, step)
    ensures VS.Inv(Apply(s, step).store)
    ensures forall x | x !in Apply(s, step).store.rows :: IsGone(Apply(s, step).log, x)
  {
    var t := Apply(s, step);
    match step
    case Receive(e, at, account) => VS.ReceiptKeeps(s.store, e, at, account);
    case Import(e, presented, facts, mapped, _) =>
      VS.ImportKeeps(s.store, e, presented);
      VS.ImportHasEffect(s.store, e, presented);
      if mapped {
        forall x | x !in t.store.rows ensures IsGone(t.log, x) {
          assert forall f | f in [] + facts :: f in facts;
          GoneStays(s.log, {}, [] + facts, x);
        }
      }
    case Delete(scope, tombstones, again, drops) =>
      VS.DeletionKeeps(s.store, scope);
      forall x | x !in t.store.rows ensures IsGone(t.log, x) {
        DeletionKeepsGone(s, scope, tombstones, again, drops, x);
      }
  }

  /** In every run, announced or not, the consumer holds nothing that was removed. */
  lemma NothingRemovedIsHeld(states: seq<State>, steps: seq<Step>, n: nat, unseen: set<nat>, x: VS.Entity)
    requires Run(states, steps) && n < |states| && MayMiss(states[n].log, unseen)
    ensures x in ViewOf(states[n].log, unseen) ==> x in states[n].store.rows
  {
    StoreKeeps(states, steps, n);
    if x !in states[n].store.rows { GoneIsNotHeld(states[n].log, unseen, x); }
  }

  /** What is announced again names an archive that is left and a record that stays. */
  lemma AgainNamesTheLeft(s: State, scope: VS.Scope, again: seq<Event>, f: Event)
    requires VS.Inv(s.store) && AnnouncesAgain(s, scope, again) && f in again
    ensures f.Fact? && f.archive !in VS.DeletedExports(s.store, scope) && f.subject !in VS.RemovedRows(s.store, scope)
  {
    AgainFact(s, scope, again, f);
    assert f.subject in VS.LeftRows(s.store, scope);
    assert (f.archive, f.subject) in VS.Left(s.store, VS.DeletedExports(s.store, scope));
  }

  /** No fact of a deleted archive and no fact of a removed record stays in the outbox. */
  lemma OutboxForgetsTheDeleted(
      s: State, scope: VS.Scope, tombstones: seq<Event>, again: seq<Event>, drops: set<nat>, entry: Entry)
    requires VS.Inv(s.store) && Enabled(s, Delete(scope, tombstones, again, drops))
    requires entry in Apply(s, Delete(scope, tombstones, again, drops)).log && entry.event.Fact? && !entry.dropped
    ensures entry.event.archive !in VS.DeletedExports(s.store, scope)
    ensures entry.event.subject !in VS.RemovedRows(s.store, scope)
  {
    if entry in Marked(s.log, drops) {
      UndroppedNamesTheLeft(s, scope, again, drops, entry);
    } else {
      AddedIsAgain(s, scope, tombstones, again, entry);
      AgainNamesTheLeft(s, scope, again, entry.event);
    }
  }

  /** A fact that was there and is not dropped names an archive and a record that are left. */
  lemma UndroppedNamesTheLeft(s: State, scope: VS.Scope, again: seq<Event>, drops: set<nat>, entry: Entry)
    requires VS.Fits(s.store) && DistinctFacts(again)
    requires forall i | 0 <= i < |s.log| && MustDrop(s, scope, again, i) :: i in drops
    requires entry in Marked(s.log, drops) && entry.event.Fact? && !entry.dropped
    ensures entry.event.archive !in VS.DeletedExports(s.store, scope)
    ensures entry.event.subject !in VS.RemovedRows(s.store, scope)
  {
    var i :| 0 <= i < |s.log| && Marked(s.log, drops)[i] == entry;
    assert !MustDrop(s, scope, again, i);
  }

  /** A fact a deletion adds is one of those announced again. */
  lemma AddedIsAgain(s: State, scope: VS.Scope, tombstones: seq<Event>, again: seq<Event>, entry: Entry)
    requires VS.Fits(s.store) && TombstonesFor(s, scope, tombstones)
    requires entry in Entries(tombstones + again) && entry.event.Fact?
    ensures entry.event in again
  {
    var added := Entries(tombstones + again);
    var j :| 0 <= j < |added| && added[j] == entry;
    assert entry.event == (tombstones + again)[j] && entry.event !in tombstones;
  }

  // ---- When a project is not repaired ------------------------------------------------------------------------

  lemma StaleRowChanges(s: VS.State, scope: VS.Scope, x: VS.Entity)
    requires VS.Inv(s) && x in VS.Deleted(s, scope).rows && VS.ObservedBy(s, VS.DeletedExports(s, scope), x)
    requires x.Project?
    ensures VS.Deleted(s, scope).rows[x] == s.rows[x]
            <==> !VS.Stale(VS.Left(s, VS.DeletedExports(s, scope)), x, s.rows[x])
  {
    var left := VS.Left(s, VS.DeletedExports(s, scope));
    VS.DeletionKeeps(s, scope);
    var e := VS.KeptIsObserved(s, scope, x);
    if !VS.Stale(left, x, s.rows[x]) { ProjectStays(s, scope, x); }
  }

  /**
   * A kept project the consumer held as its row stood is held as its restored row stands exactly
   * when its latest fact names a deleted archive or an export left still presents what the row
   * held. A project has no check that its latest fact is outdated, as a conversation has.
   */
  lemma ProjectRepairedIff(
      s: State, scope: VS.Scope, tombstones: seq<Event>, again: seq<Event>, drops: set<nat>,
      unseen: set<nat>, x: VS.Entity, i: nat)
    requires VS.Inv(s.store) && Enabled(s, Delete(scope, tombstones, again, drops))
    requires x.Project? && x in s.store.rows && Survives(s, scope, x)
    requires IsCurrent(s.log, x, i) && s.log[i].event.record == s.store.rows[x]
    requires VS.Observers(VS.Deleted(s.store, scope).exports, VS.Deleted(s.store, scope).observations, x) != {}
    requires Chosen(VS.Deleted(s.store, scope), x) in s.heads
    requires MayMiss(Apply(s, Delete(scope, tombstones, again, drops)).log, unseen)
    ensures
      var t := Apply(s, Delete(scope, tombstones, again, drops));
      var view := ViewOf(t.log, unseen);
      && x in view
      && (view[x].1 == t.store.rows[x] <==>
            || s.log[i].event.archive in VS.DeletedExports(s.store, scope)
            || !VS.Stale(VS.Left(s.store, VS.DeletedExports(s.store, scope)), x, s.store.rows[x]))
  {
    var t := Apply(s, Delete(scope, tombstones, again, drops));
    LatestIsCurrent(s.log, x, i);
    if s.log[i].event.archive in VS.DeletedExports(s.store, scope) {
      HeldAgain(s, t, scope, tombstones, again, drops, unseen, x);
    } else {
      ProjectNotAgain(s, scope, again, x);
      QuietFactStays(s, scope, tombstones, again, drops, x, i);
      CurrentIsHeld(t.log, unseen, x, i);
      StaleRowChanges(s.store, scope, x);
    }
  }

  lemma HeldAgain(
      s: State, t: State, scope: VS.Scope, tombstones: seq<Event>, again: seq<Event>, drops: set<nat>,
      unseen: set<nat>, x: VS.Entity)
    requires VS.Inv(s.store) && AnnouncesAgain(s, scope, again) && Survives(s, scope, x)
    requires NeedsAgain(s.log, VS.DeletedExports(s.store, scope), x, VS.Deleted(s.store, scope).rows[x])
    requires VS.Observers(VS.Deleted(s.store, scope).exports, VS.Deleted(s.store, scope).observations, x) != {}
    requires Chosen(VS.Deleted(s.store, scope), x) in s.heads
    requires t.store == VS.Deleted(s.store, scope) && t.log == Marked(s.log, drops) + Entries(tombstones + again)
    requires MayMiss(t.log, unseen)
    ensures x in ViewOf(t.log, unseen) && ViewOf(t.log, unseen)[x].1 == t.store.rows[x]
  {
    var k :| 0 <= k < |again| && again[k].subject == x;
    AgainRow(s, t, scope, tombstones, again, drops, k, true);
    var j: nat :| AnnouncedAt(t, x, j, true);
    CurrentIsHeld(t.log, unseen, x, j);
  }

  lemma ProjectNotAgain(s: State, scope: VS.Scope, again: seq<Event>, x: VS.Entity)
    requires VS.Fits(s.store) && AnnouncesAgain(s, scope, again) && x.Project?
    requires Latest(s.log, x).Some? && Latest(s.log, x).value.archive !in VS.DeletedExports(s.store, scope)
    ensures forall k | 0 <= k < |again| :: again[k].subject != x
  {
    assert forall k | 0 <= k < |again| :: again[k] in again;
  }

  /**
   * A kept conversation the deletion did not observe, held as its row stood, is held as its row
   * stands exactly when it had no project or its project is kept.
   */
  lemma UnobservedConversationIff(
      s: State, scope: VS.Scope, tombstones: seq<Event>, again: seq<Event>, drops: set<nat>,
      unseen: set<nat>, x: VS.Entity, i: nat)
    requires VS.Inv(s.store) && Enabled(s, Delete(scope, tombstones, again, drops))
    requires x.Conversation? && x in s.store.rows && x in VS.Deleted(s.store, scope).rows
    requires !VS.ObservedBy(s.store, VS.DeletedExports(s.store, scope), x)
    requires IsCurrent(s.log, x, i) && s.log[i].event.record == s.store.rows[x]
    requires (s.log[i].event.archive, x) in s.store.observations
    requires MayMiss(Apply(s, Delete(scope, tombstones, again, drops)).log, unseen)
    ensures s.store.rows[x].ConversationRow?
    ensures
      var t := Apply(s, Delete(scope, tombstones, again, drops));
      var view, project := ViewOf(t.log, unseen), s.store.rows[x].state.header.project;
      && x in view
      && (view[x].1 == t.store.rows[x] <==>
            project.None? || VS.Project(project.value) !in VS.RemovedRows(s.store, scope))
  {
    var t := Apply(s, Delete(scope, tombstones, again, drops));
    NotObservedNotAgain(s, scope, again, x);
    QuietFactStays(s, scope, tombstones, again, drops, x, i);
    CurrentIsHeld(t.log, unseen, x, i);
    UnobservedAfter(s.store, scope, x);
    UnlinkedIff(s.store.rows[x], VS.RemovedRows(s.store, scope));
  }

  lemma UnlinkedIff(row: VS.Record, removed: set<VS.Entity>)
    requires row.ConversationRow?
    ensures row == VS.ConversationRow(row.account, VS.Unlinked(row.state, removed))
            <==> row.state.header.project.None? || VS.Project(row.state.header.project.value) !in removed
  {
  }

  /**
   * A kept conversation a deleted export observed is held exactly as its rows are restored, whatever
   * else the outbox says, as long as the export it is announced under was announced itself.
   */
  lemma SurvivingConversationIsHeld(
      s: State, scope: VS.Scope, tombstones: seq<Event>, again: seq<Event>, drops: set<nat>,
      unseen: set<nat>, x: VS.Entity, i: nat)
    requires VS.Inv(s.store) && Enabled(s, Delete(scope, tombstones, again, drops))
    requires x.Conversation? && Survives(s, scope, x) && IsCurrent(s.log, x, i)
    requires VS.Observers(VS.Deleted(s.store, scope).exports, VS.Deleted(s.store, scope).observations, x) != {}
    requires Chosen(VS.Deleted(s.store, scope), x) in s.heads
    requires MayMiss(Apply(s, Delete(scope, tombstones, again, drops)).log, unseen)
    ensures
      var t := Apply(s, Delete(scope, tombstones, again, drops));
      x in ViewOf(t.log, unseen) && ViewOf(t.log, unseen)[x].1 == t.store.rows[x]
  {
    var t := Apply(s, Delete(scope, tombstones, again, drops));
    LatestIsCurrent(s.log, x, i);
    if NeedsAgain(s.log, VS.DeletedExports(s.store, scope), x, t.store.rows[x]) {
      HeldAgain(s, t, scope, tombstones, again, drops, unseen, x);
    } else {
      NotNeededNotAgain(s, scope, again, x);
      QuietFactStays(s, scope, tombstones, again, drops, x, i);
      CurrentIsHeld(t.log, unseen, x, i);
    }
  }

  lemma NotNeededNotAgain(s: State, scope: VS.Scope, again: seq<Event>, x: VS.Entity)
    requires VS.Fits(s.store) && AnnouncesAgain(s, scope, again) && x in VS.Deleted(s.store, scope).rows
    requires !NeedsAgain(s.log, VS.DeletedExports(s.store, scope), x, VS.Deleted(s.store, scope).rows[x])
    ensures forall k | 0 <= k < |again| :: again[k].subject != x
  {
    assert forall k | 0 <= k < |again| :: again[k] in again;
  }

  /** In every run, announced or not, a deletion leaves such a conversation held as restored. */
  lemma SurvivorsAreHeldInRuns(states: seq<State>, steps: seq<Step>, n: nat, unseen: set<nat>, x: VS.Entity, i: nat)
    requires Run(states, steps) && n < |steps| && steps[n].Delete? && x.Conversation?
    requires Enabled(states[n], steps[n]) && VS.Fits(states[n].store)
    requires
      var after := VS.Deleted(states[n].store, steps[n].scope);
      && Survives(states[n], steps[n].scope, x) && IsCurrent(states[n].log, x, i)
      && VS.Observers(after.exports, after.observations, x) != {} && Chosen(after, x) in states[n].heads
    requires MayMiss(states[n + 1].log, unseen)
    ensures x in states[n + 1].store.rows && x in ViewOf(states[n + 1].log, unseen)
    ensures ViewOf(states[n + 1].log, unseen)[x].1 == states[n + 1].store.rows[x]
  {
    StoreKeeps(states, steps, n);
    var step := steps[n];
    SurvivingConversationIsHeld(states[n], step.scope, step.tombstones, step.again, step.drops, unseen, x, i);
  }

  lemma NotObservedNotAgain(s: State, scope: VS.Scope, again: seq<Event>, x: VS.Entity)
    requires VS.Fits(s.store) && AnnouncesAgain(s, scope, again)
    requires !VS.ObservedBy(s.store, VS.DeletedExports(s.store, scope), x)
    ensures forall k | 0 <= k < |again| :: again[k].subject != x
  {
    forall k | 0 <= k < |again| ensures again[k].subject != x {
      assert again[k] in again && Survives(s, scope, again[k].subject);
    }
  }

  // ---- Two histories in which the consumer keeps too much -------------------------------------------------

  lemma ExtendRun(states: seq<State>, steps: seq<Step>, step: Step) returns (more: seq<State>, moreSteps: seq<Step>)
    requires Run(states, steps) && Enabled(states[|steps|], step)
    ensures Run(more, moreSteps) && moreSteps == steps + [step]
    ensures more[|moreSteps|] == Apply(states[|steps|], step)
    ensures AllAnnounced(states, steps) && IsAnnounced(states[|steps|], step) ==> AllAnnounced(more, moreSteps)
  {
    more, moreSteps := states + [Apply(states[|steps|], step)], steps + [step];
    assert more[..|states|] == states && moreSteps[..|steps|] == steps;
    forall i | 0 <= i < |moreSteps|
      ensures Enabled(more[i], moreSteps[i]) && more[i + 1] == Apply(more[i], moreSteps[i])
    {
      if i < |steps| {
        assert more[i] == states[i] && more[i + 1] == states[i + 1] && moreSteps[i] == steps[i];
      }
    }
  }

  lemma BothReceived() returns (states: seq<State>, steps: seq<Step>)
    ensures Run(states, steps) && AllAnnounced(states, steps)
    ensures states[|steps|]
            == State(VS.State(map[1 := VS.Export(1, 7), 2 := VS.Export(2, 7)], map[], map[], map[], {}), [], {})
  {
    states, steps := [INITIAL], [];
    states, steps := ExtendRun(states, steps, Receive(1, 1, 7));
    states, steps := ExtendRun(states, steps, Receive(2, 2, 7));
  }

  /** The one record an export observes is the one it announces. */
  lemma AnnounceOnly(log: Log, after: VS.State, e: VS.ExportId, x: VS.Entity)
    requires x in after.rows && (e, x) in after.observations && Latest(log, x).None?
    requires forall y | (e, y) in after.observations :: y == x
    ensures ImportAnnounces(log, after, e, [Fact(x, e, after.rows[x])])
  {
    var facts := [Fact(x, e, after.rows[x])];
    assert facts[0].subject == x;
  }

  lemma ImportsInto(s: VS.State, e: VS.ExportId, x: VS.Entity, snapshot: VS.Snapshot)
    requires e in s.exports && s.exports[e].account == 7
    ensures
      var t := VS.ImportAll(s, e, [(x, snapshot)]);
      && t.exports == s.exports && t.rows == VS.Written(s.rows, 7, x, snapshot)
      && t.observations == s.observations[(e, x) := VS.DigestOf(snapshot)]
  {
    VS.ImportSingle(s, e, x, snapshot);
    VS.ImportOneObserves(s, e, x, snapshot);
  }

  lemma MarkedNothing(log: Log)
    ensures Marked(log, {}) == log
  {
  }

  /** A first import of an export that presents one record and announces it. */
  lemma AnnouncedImport(states: seq<State>, steps: seq<Step>, e: VS.ExportId, x: VS.Entity, snapshot: VS.Snapshot)
    returns (more: seq<State>, moreSteps: seq<Step>)
    requires Run(states, steps) && AllAnnounced(states, steps)
    requires
      var s := states[|steps|];
      && e in s.store.exports && s.store.exports[e].account == 7 && VS.SnapshotFits(x, snapshot) && x !in s.store.rows
      && (forall y :: (e, y) !in s.store.observations) && Latest(s.log, x).None?
    ensures Run(more, moreSteps) && AllAnnounced(more, moreSteps)
    ensures
      var s, t := states[|steps|], more[|moreSteps|];
      && t.store.exports == s.store.exports && t.store.rows == VS.Written(s.store.rows, 7, x, snapshot)
      && t.store.observations == s.store.observations[(e, x) := VS.DigestOf(snapshot)] && t.heads == s.heads + {e}
      && x in t.store.rows && t.log == s.log + [Entry(Fact(x, e, t.store.rows[x]), false)]
  {
    var s := states[|steps|];
    ImportsInto(s.store, e, x, snapshot);
    var after := VS.ImportAll(s.store, e, [(x, snapshot)]);
    VS.WrittenDigest(s.store.rows, 7, x, snapshot);
    forall y | (e, y) in after.observations ensures y == x { assert (e, y) in s.store.observations || (e, y) == (e, x); }
    AnnounceOnly(s.log, after, e, x);
    MarkedNothing(s.log);
    more, moreSteps := ExtendRun(states, steps, Import(e, [(x, snapshot)], [Fact(x, e, after.rows[x])], true, true));
  }

  /** An import of one record by an account that is not mapped. */
  lemma SilentImport(states: seq<State>, steps: seq<Step>, e: VS.ExportId, x: VS.Entity, snapshot: VS.Snapshot)
    returns (more: seq<State>, moreSteps: seq<Step>)
    requires Run(states, steps)
    requires
      var s := states[|steps|];
      && e in s.store.exports && s.store.exports[e].account == 7 && VS.SnapshotFits(x, snapshot)
      && (x in s.store.rows ==> s.store.rows[x].account == 7)
    ensures Run(more, moreSteps)
    ensures
      var s, t := states[|steps|], more[|moreSteps|];
      && t.store.exports == s.store.exports && t.store.rows == VS.Written(s.store.rows, 7, x, snapshot)
      && t.store.observations == s.store.observations[(e, x) := VS.DigestOf(snapshot)]
      && t.heads == s.heads && t.log == s.log
  {
    ImportsInto(states[|steps|].store, e, x, snapshot);
    more, moreSteps := ExtendRun(states, steps, Import(e, [(x, snapshot)], [], false, true));
  }

  /** Export 1 presents the project, export 2 a conversation that names it; both are announced. */
  lemma ProjectThenConversation(p: VS.Entity, c: VS.Entity, project: VS.Snapshot, v: Restoration.Version)
    returns (states: seq<State>, steps: seq<Step>)
    requires p == VS.Project(0) && c.Conversation? && project.OfProject? && v.content.project == Some(0)
    ensures Run(states, steps) && AllAnnounced(states, steps) && ProjectAndConversation(states[|steps|], p, c)
  {
    states, steps := BothReceived();
    states, steps := AnnouncedImport(states, steps, 1, p, project);
    var t := states[|steps|];
    assert t.store.observations == map[(1, p) := VS.DigestOf(project)];
    assert p in t.store.rows && 0 in VS.ProjectsOf(t.store.rows, 7);
    NoFactYet(t.log, c);
    states, steps := AnnouncedImport(states, steps, 2, c, VS.OfConversation(v));
    BothThere(states[|steps|], t, p, c, v);
  }

  /** A project only export 1 observes, a conversation only export 2 observes that names it, and their facts. */
  ghost predicate ProjectAndConversation(s: State, p: VS.Entity, c: VS.Entity) {
    && s.store.exports.Keys == {1, 2} && s.store.rows.Keys == {p, c}
    && s.store.rows[c].ConversationRow? && s.store.rows[c].state.header.project == Some(0)
    && (forall e, x :: (e, x) in s.store.observations <==> (e == 1 && x == p) || (e == 2 && x == c))
    && |s.log| == 2 && FactOf(s.log[0].event, p) && s.log[1] == Entry(Fact(c, 2, s.store.rows[c]), false)
  }

  lemma BothThere(s: State, t: State, p: VS.Entity, c: VS.Entity, v: Restoration.Version)
    requires p == VS.Project(0) && c.Conversation? && v.content.project == Some(0)
    requires t.store.rows.Keys == {p} && t.store.observations.Keys == {(1, p)} && 0 in VS.ProjectsOf(t.store.rows, 7)
    requires |t.log| == 1 && FactOf(t.log[0].event, p) && s.store.exports.Keys == {1, 2}
    requires s.store.rows == VS.Written(t.store.rows, 7, c, VS.OfConversation(v))
    requires s.store.observations == t.store.observations[(2, c) := VS.DigestOf(VS.OfConversation(v))]
    requires s.log == t.log + [Entry(Fact(c, 2, s.store.rows[c]), false)]
    ensures ProjectAndConversation(s, p, c)
  {
    VS.WrittenDigest(t.store.rows, 7, c, VS.OfConversation(v));
    forall e, x ensures (e, x) in s.store.observations <==> (e == 1 && x == p) || (e == 2 && x == c) {
      assert (e, x) in s.store.observations <==> (e, x) == (1, p) || (e, x) == (2, c);
    }
  }

  lemma NoFactYet(log: Log, x: VS.Entity)
    requires |log| == 1 && !FactOf(log[0].event, x)
    ensures Latest(log, x).None?
  {
    NoneOfGone(log, x);
  }

  /**
   * Export 1 is deleted: its project goes, the database clears it from the conversation only export 2
   * observed, and nothing is announced, so the consumer still holds the conversation with the project.
   */
  lemma RemovedProjectStaysNamed() returns (states: seq<State>, steps: seq<Step>, c: VS.Entity)
    ensures Run(states, steps) && AllAnnounced(states, steps) && c.Conversation?
    ensures
      var s := states[|steps|];
      c in s.store.rows && c in ViewOf(s.log, {}) && ViewOf(s.log, {})[c].1 != s.store.rows[c]
  {
    var p := VS.Project(0);
    c := VS.Conversation(1);
    var snapshot := VS.OfProject(VS.ProjectContent(Some("project"), None, None), "parser");
    var v := Restoration.Version(Restoration.Conversation(None, Some(0), None, []), "parser");
    states, steps := ProjectThenConversation(p, c, snapshot, v);
    StoreKeeps(states, steps, |steps|);
    var step := Delete(VS.OfExports({1}), [ArchiveGone(1), SubjectGone(p)], [], {0});
    ConversationKeepsName(states[|steps|], p, c, step);
    states, steps := ExtendRun(states, steps, step);
  }

  lemma ConversationKeepsName(s: State, p: VS.Entity, c: VS.Entity, step: Step)
    requires VS.Inv(s.store) && ProjectAndConversation(s, p, c) && p == VS.Project(0) && c.Conversation?
    requires step == Delete(VS.OfExports({1}), [ArchiveGone(1), SubjectGone(p)], [], {0})
    ensures Enabled(s, step)
    ensures
      var t := Apply(s, step);
      c in t.store.rows && c in ViewOf(t.log, {}) && ViewOf(t.log, {})[c].1 != t.store.rows[c]
  {
    OnlyProjectGoes(s, step.scope, p, c);
    OnlyProjectStep(s, step.scope, p, c, step.tombstones);
    UnobservedConversationIff(s, step.scope, step.tombstones, [], {0}, {}, c, 1);
  }

  lemma OnlyProjectGoes(s: State, scope: VS.Scope, p: VS.Entity, c: VS.Entity)
    requires VS.Inv(s.store) && scope == VS.OfExports({1}) && p != c && s.store.exports.Keys == {1, 2}
    requires s.store.rows.Keys == {p, c}
    requires forall e, x :: (e, x) in s.store.observations <==> (e == 1 && x == p) || (e == 2 && x == c)
    ensures VS.DeletedExports(s.store, scope) == {1} && VS.RemovedRows(s.store, scope) == {p}
    ensures c in VS.Deleted(s.store, scope).rows && !VS.ObservedBy(s.store, {1}, c)
    ensures forall x :: !Survives(s, scope, x)
  {
    assert VS.DeletedExports(s.store, scope) == {1};
    assert (1, p) in s.store.observations && (2, c) in s.store.observations;
    assert VS.ObservedBy(s.store, {1}, p) && !VS.ObservedBeside(s.store, {1}, p);
    assert !VS.ObservedBy(s.store, {1}, c);
    assert c in VS.LeftRows(s.store, scope);
    forall x | x in VS.Deleted(s.store, scope).rows ensures x == c { assert x in VS.LeftRows(s.store, scope); }
  }

  lemma OnlyProjectStep(s: State, scope: VS.Scope, p: VS.Entity, c: VS.Entity, tombstones: seq<Event>)
    requires VS.Fits(s.store) && p != c && tombstones == [ArchiveGone(1), SubjectGone(p)]
    requires VS.DeletedExports(s.store, scope) == {1} && VS.RemovedRows(s.store, scope) == {p}
    requires forall x :: !Survives(s, scope, x)
    requires |s.log| == 2 && FactOf(s.log[0].event, p) && FactOf(s.log[1].event, c) && s.log[1].event.archive == 2
    ensures Enabled(s, Delete(scope, tombstones, [], {0}))
  {
    OnlyProjectTombstoned(s, scope, p, tombstones);
    assert AnnouncesAgain(s, scope, []);
    assert MustDrop(s, scope, [], 0) && !MustDrop(s, scope, [], 1);
  }

  lemma OnlyProjectTombstoned(s: State, scope: VS.Scope, p: VS.Entity, tombstones: seq<Event>)
    requires VS.Fits(s.store) && tombstones == [ArchiveGone(1), SubjectGone(p)]
    requires VS.DeletedExports(s.store, scope) == {1} && VS.RemovedRows(s.store, scope) == {p}
    ensures TombstonesFor(s, scope, tombstones)
  {
    assert tombstones[0] in tombstones && tombstones[1] in tombstones;
  }

  /** Exports 1 and 2 present the project while nothing is announced, then a reparse of 1 announces it. */
  lemma LateAnnouncement(p: VS.Entity, first: VS.Snapshot, second: VS.Snapshot)
    returns (states: seq<State>, steps: seq<Step>)
    requires p.Project? && first.OfProject? && second.OfProject?
    ensures Run(states, steps)
    ensures
      var s := states[|steps|];
      && s.store.exports.Keys == {1, 2} && s.store.rows == map[p := VS.ProjectRow(7, second.project, second.parser)]
      && s.heads == {1}
      && s.store.observations == map[(1, p) := VS.DigestOf(first), (2, p) := VS.DigestOf(second)]
      && s.log == [Entry(Fact(p, 1, s.store.rows[p]), false)]
  {
    states, steps := BothReceived();
    states, steps := SilentImport(states, steps, 1, p, first);
    states, steps := SilentImport(states, steps, 2, p, second);
    var s := states[|steps|];
    assert s.store.observations == map[(1, p) := VS.DigestOf(first), (2, p) := VS.DigestOf(second)];
    assert s.store.rows == map[p := VS.ProjectRow(7, second.project, second.parser)];
    ReparseAnnounces(s, p);
    states, steps := ExtendRun(states, steps, Import(1, [], [Fact(p, 1, s.store.rows[p])], true, false));
    MarkedNothing(s.log);
  }

  lemma ReparseAnnounces(s: State, p: VS.Entity)
    requires p in s.store.rows && s.log == [] && 1 in s.store.exports && (1, p) in s.store.observations
    requires forall k | k in s.store.observations :: k.1 == p
    ensures Enabled(s, Import(1, [], [Fact(p, 1, s.store.rows[p])], true, false)) && VS.ImportAll(s.store, 1, []) == s.store
  {
    forall y | (1, y) in s.store.observations ensures y == p { assert (1, y).1 == y; }
    AnnounceOnly(s.log, s.store, 1, p);
  }

  /**
   * The second export is deleted: the row goes back to what the first presented, the latest fact
   * names the first export's archive, and the consumer keeps what only the deleted export presented.
   */
  lemma DeletedProjectContentStays() returns (states: seq<State>, steps: seq<Step>, p: VS.Entity)
    ensures Run(states, steps) && p.Project?
    ensures
      var s := states[|steps|];
      p in s.store.rows && p in ViewOf(s.log, {}) && ViewOf(s.log, {})[p].1 != s.store.rows[p]
  {
    p := VS.Project(0);
    var first := VS.OfProject(VS.ProjectContent(Some("one"), None, None), "parser");
    var second := VS.OfProject(VS.ProjectContent(Some("two"), None, None), "parser");
    states, steps := LateAnnouncement(p, first, second);
    StoreKeeps(states, steps, |steps|);
    var s, scope := states[|steps|], VS.OfExports({2});
    NothingGoes(s.store, scope, p, VS.DigestOf(first), VS.DigestOf(second));
    QuietStep(s, scope, p);
    ProjectRepairedIff(s, scope, [], [], {}, {}, p, 0);
    states, steps := ExtendRun(states, steps, Delete(scope, [], [], {}));
  }

  /** Deleting export 2 removes no record and leaves the project's row stale. */
  lemma NothingGoes(store: VS.State, scope: VS.Scope, p: VS.Entity, first: VS.Digest, second: VS.Digest)
    requires VS.Inv(store) && scope == VS.OfExports({2}) && first != second && store.exports.Keys == {1, 2}
    requires store.rows.Keys == {p} && VS.RowDigest(store.rows[p]) == Some(second)
    requires store.observations == map[(1, p) := first, (2, p) := second]
    ensures VS.DeletedExports(store, scope) == {2} && VS.RemovedRows(store, scope) == {}
    ensures p in VS.Deleted(store, scope).rows && VS.ObservedBy(store, {2}, p)
    ensures VS.Observers(VS.Deleted(store, scope).exports, VS.Deleted(store, scope).observations, p) == {1}
    ensures VS.Stale(VS.Left(store, {2}), p, store.rows[p])
  {
    assert VS.DeletedExports(store, scope) == {2};
    assert (1, p) in store.observations && (2, p) in store.observations;
    assert VS.ObservedBeside(store, {2}, p) && VS.ObservedBy(store, {2}, p);
    assert p in VS.LeftRows(store, scope);
    LeftAlone(store, p, first, second);
  }

  lemma LeftAlone(store: VS.State, p: VS.Entity, first: VS.Digest, second: VS.Digest)
    requires first != second && store.exports.Keys == {1, 2}
    requires p in store.rows && VS.RowDigest(store.rows[p]) == Some(second)
    requires store.observations == map[(1, p) := first, (2, p) := second]
    ensures VS.Observers(VS.LeftExports(store, {2}), VS.Left(store, {2}), p) == {1}
    ensures VS.Stale(VS.Left(store, {2}), p, store.rows[p])
  {
    var left := VS.Left(store, {2});
    assert left == map[(1, p) := first];
    assert (1, p) in left;
    assert !VS.Named(left, p, second);
  }

  lemma QuietStep(s: State, scope: VS.Scope, p: VS.Entity)
    requires VS.Inv(s.store) && p.Project? && s.store.rows.Keys == {p}
    requires VS.DeletedExports(s.store, scope) == {2} && VS.RemovedRows(s.store, scope) == {}
    requires s.log == [Entry(Fact(p, 1, s.store.rows[p]), false)] && s.heads == {1}
    ensures Enabled(s, Delete(scope, [], [], {}))
  {
    assert Latest(s.log, p) == Some(s.log[0].event);
    NothingAgain(s, scope, p);
    assert TombstonesFor(s, scope, []);
    assert forall i | 0 <= i < |s.log| :: !MustDrop(s, scope, [], i);
  }

  lemma NothingAgain(s: State, scope: VS.Scope, p: VS.Entity)
    requires VS.Inv(s.store) && p.Project? && s.store.rows.Keys == {p}
    requires Latest(s.log, p).Some? && Latest(s.log, p).value.archive !in VS.DeletedExports(s.store, scope)
    ensures AnnouncesAgain(s, scope, [])
  {
    forall y | Survives(s, scope, y)
      ensures !NeedsAgain(s.log, VS.DeletedExports(s.store, scope), y, VS.Deleted(s.store, scope).rows[y])
    {
      assert y in VS.LeftRows(s.store, scope) && y in s.store.rows;
    }
  }

  // ---- The loops ---------------------------------------------------------------------------------------------

  /** What the loops have decided about the first survivors `done`. */
  ghost predicate Collected(
      log: Log, after: VS.State, deleted: set<VS.ExportId>, heads: set<VS.ExportId>, done: seq<VS.Entity>,
      facts: seq<Event>)
    requires Readable(after, done)
  {
    && DistinctFacts(facts)
    && (forall f | f in facts ::
          && f.subject in done && NeedsAgain(log, deleted, f.subject, after.rows[f.subject])
          && f == Fact(f.subject, Chosen(after, f.subject), after.rows[f.subject]) && f.archive in heads)
    && (forall x | x in done && NeedsAgain(log, deleted, x, after.rows[x]) && Chosen(after, x) in heads ::
          exists k :: 0 <= k < |facts| && facts[k].subject == x)
  }

  /** A conversation whose latest fact no longer says what its rows say. */
  predicate Outdated(log: Log, x: VS.Entity, row: VS.Record) {
    x.Conversation? && Latest(log, x).Some? && Latest(log, x).value.record != row
  }

  ghost predicate Readable(after: VS.State, survivors: seq<VS.Entity>) {
    forall x | x in survivors :: x in after.rows && VS.Observers(after.exports, after.observations, x) != {}
  }

  lemma CollectOneMore(
      log: Log, after: VS.State, deleted: set<VS.ExportId>, heads: set<VS.ExportId>, done: seq<VS.Entity>,
      facts: seq<Event>, x: VS.Entity)
    requires Readable(after, done + [x]) && Readable(after, done) && Collected(log, after, deleted, heads, done, facts)
    requires x !in done && x in after.rows && VS.Observers(after.exports, after.observations, x) != {}
    ensures
      var again := NeedsAgain(log, deleted, x, after.rows[x]) && Chosen(after, x) in heads;
      Collected(log, after, deleted, heads, done + [x],
                if again then facts + [Fact(x, Chosen(after, x), after.rows[x])] else facts)
  {
    var again := NeedsAgain(log, deleted, x, after.rows[x]) && Chosen(after, x) in heads;
    var more := if again then facts + [Fact(x, Chosen(after, x), after.rows[x])] else facts;
    forall k | 0 <= k < |facts| ensures more[k] == facts[k] && facts[k].subject != x { assert facts[k] in facts; }
    forall y | y in done + [x] && NeedsAgain(log, deleted, y, after.rows[y]) && Chosen(after, y) in heads
      ensures exists k :: 0 <= k < |more| && more[k].subject == y
    {
      if y == x {
        assert more[|facts|].subject == x;
      } else {
        assert y in done;
        var k :| 0 <= k < |facts| && facts[k].subject == y;
        assert more[k].subject == y;
      }
    }
  }

  /** Which of `survivors` are announced again, and which conversations have outdated facts. */
  method CollectAgain(
      log: Log, after: VS.State, deleted: set<VS.ExportId>, heads: set<VS.ExportId>, survivors: seq<VS.Entity>)
    returns (facts: seq<Event>, stale: seq<VS.Entity>)
    requires forall i, j | 0 <= i < j < |survivors| :: survivors[i] != survivors[j]
    requires Readable(after, survivors)
    ensures Collected(log, after, deleted, heads, survivors, facts)
    ensures forall x :: x in stale <==> x in survivors && Chosen(after, x) in heads && Outdated(log, x, after.rows[x])
  {
    facts, stale := [], [];
    for i := 0 to |survivors|
      invariant Readable(after, survivors[..i]) && Collected(log, after, deleted, heads, survivors[..i], facts)
      invariant forall x :: x in stale <==>
                  x in survivors[..i] && Chosen(after, x) in heads && Outdated(log, x, after.rows[x])
    {
      var x := survivors[i];
      assert survivors[..i + 1] == survivors[..i] + [x];
      assert x in survivors && x !in survivors[..i];
      CollectOneMore(log, after, deleted, heads, survivors[..i], facts, x);
      var archive := Chosen(after, x);
      if archive !in heads {
        continue;
      }
      var latest := Latest(log, x);
      if Outdated(log, x, after.rows[x]) {
        stale := stale + [x];
      }
      if Outdated(log, x, after.rows[x]) || (latest.Some? && latest.value.archive in deleted) {
        facts := facts + [Fact(x, archive, after.rows[x])];
      }
    }
    assert survivors[..|survivors|] == survivors;
  }

  /** Given the survivors, the loops announce again what the deletion step announces again. */
  lemma CollectedMeetsStep(s: State, scope: VS.Scope, survivors: seq<VS.Entity>, facts: seq<Event>)
    requires VS.Inv(s.store) && forall x :: x in survivors <==> Survives(s, scope, x)
    requires
      var after, deleted := VS.Deleted(s.store, scope), VS.DeletedExports(s.store, scope);
      Readable(after, survivors) && Collected(s.log, after, deleted, s.heads, survivors, facts)
    ensures AnnouncesAgain(s, scope, facts)
  {
  }
}
