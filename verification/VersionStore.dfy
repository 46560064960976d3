/**
 * The version store: which content each export presented of the shared project and conversation
 * rows, over every run of imports, reparses and deletions.
 */
module VersionStore {
  import opened Common
  import opened Ordered
  import Restoration

  type ExportId = nat
  type Account = nat

  datatype Entity = Project(id: nat) | Conversation(id: nat)

  datatype ProjectContent = ProjectContent(
    title: Option<string>, description: Option<string>, instructions: Option<string>)

  /** What one export presented: the content and the parser stamp. */
  datatype Snapshot =
    | OfProject(project: ProjectContent, parser: string)
    | OfConversation(version: Restoration.Version)

  /** A digest is its content, which leaves out the parser stamp. */
  datatype Digest = ProjectDigest(project: ProjectContent) | ConversationDigest(conversation: Restoration.Conversation)

  datatype Record =
    | ProjectRow(account: Account, content: ProjectContent, parser: string)
    | ConversationRow(account: Account, state: Restoration.State)

  datatype Export = Export(received: nat, account: Account)

  type Observation = (ExportId, Entity)
  type Observations = map<Observation, Digest>
  type VersionKey = (Entity, Digest)
  type Versions = map<VersionKey, Snapshot>

  /** An export observed a message row of a conversation. */
  type Sighting = (ExportId, Entity, Restoration.ExternalId)

  datatype State = State(
    exports: map<ExportId, Export>, rows: map<Entity, Record>, observations: Observations, versions: Versions,
    seen: set<Sighting>)

  function DigestOf(snapshot: Snapshot): Digest {
    match snapshot
    case OfProject(p, _) => ProjectDigest(p)
    case OfConversation(v) => ConversationDigest(v.content)
  }

  function RowDigest(row: Record): Option<Digest> {
    match row
    case ProjectRow(_, c, _) => Some(ProjectDigest(c))
    case ConversationRow(_, s) =>
      if s.header.digest.Some? then Some(ConversationDigest(s.header.digest.value)) else None
  }

  predicate SnapshotFits(x: Entity, snapshot: Snapshot) {
    x.Project? <==> snapshot.OfProject?
  }

  predicate RowFits(x: Entity, row: Record) {
    x.Project? <==> row.ProjectRow?
  }

  // ---- Presenting a version --------------------------------------------------------------------------

  /** Some export presents exactly this version of the record. */
  ghost predicate Named(observations: Observations, x: Entity, d: Digest) {
    exists e :: (e, x) in observations && observations[(e, x)] == d
  }

  ghost function PrunedVersions(versions: Versions, observations: Observations, xs: iset<Entity>): Versions {
    map v | v in versions && (v.0 in xs ==> Named(observations, v.0, v.1)) :: versions[v]
  }

  function WithVersion(versions: Versions, x: Entity, snapshot: Snapshot): Versions {
    var key := (x, DigestOf(snapshot));
    if key in versions then versions else versions[key := snapshot]
  }

  ghost function Presented(s: State, e: ExportId, x: Entity, snapshot: Snapshot): State {
    var observations := s.observations[(e, x) := DigestOf(snapshot)];
    s.(observations := observations,
       versions := PrunedVersions(WithVersion(s.versions, x, snapshot), observations, iset{x}))
  }

  function ProjectsOf(rows: map<Entity, Record>, account: Account): set<nat> {
    set x | x in rows && x.Project? && rows[x].account == account :: x.id
  }

  /** The shared row after an import of `snapshot` into `account`. */
  function Written(rows: map<Entity, Record>, account: Account, x: Entity, snapshot: Snapshot): map<Entity, Record> {
    match snapshot
    case OfProject(p, parser) => rows[x := ProjectRow(account, p, parser)]
    case OfConversation(v) =>
      var before := if x in rows && rows[x].ConversationRow? then rows[x].state else Restoration.NOTHING;
      rows[x := ConversationRow(account, Restoration.Imported(before, v, ProjectsOf(rows, account)))]
  }

  /** The message rows an export observes when it presents `snapshot`. */
  function Sightings(e: ExportId, x: Entity, snapshot: Snapshot): set<Sighting> {
    match snapshot
    case OfProject(_, _) => {}
    case OfConversation(v) => set m | m in Restoration.Externals(v.content.messages) :: (e, x, m)
  }

  ghost function ImportOne(s: State, e: ExportId, x: Entity, snapshot: Snapshot): State
    requires e in s.exports
  {
    Presented(s.(rows := Written(s.rows, s.exports[e].account, x, snapshot), seen := s.seen + Sightings(e, x, snapshot)),
              e, x, snapshot)
  }

  ghost function ImportAll(s: State, e: ExportId, presented: seq<(Entity, Snapshot)>): (r: State)
    requires e in s.exports
    ensures r.exports == s.exports
  {
    if presented == [] then s
    else
      var last := presented[|presented| - 1];
      ImportOne(ImportAll(s, e, presented[..|presented| - 1]), e, last.0, last.1)
  }

  // ---- Deleting ------------------------------------------------------------------------------------------

  /** A raw export, the exports holding a conversation, or everything of one account. */
  datatype Scope = OfExports(exports: set<ExportId>) | OfAccount(account: Account)

  function DeletedExports(s: State, scope: Scope): set<ExportId> {
    match scope
    case OfExports(es) => es * s.exports.Keys
    case OfAccount(a) => set e | e in s.exports && s.exports[e].account == a
  }

  ghost predicate ObservedBy(s: State, deleted: set<ExportId>, x: Entity) {
    exists e :: e in deleted && (e, x) in s.observations
  }

  ghost predicate ObservedBeside(s: State, deleted: set<ExportId>, x: Entity) {
    exists e :: e !in deleted && (e, x) in s.observations
  }

  /** The records a plan removes: all of an account, or what only the deleted exports observed. */
  ghost predicate Removes(s: State, scope: Scope, x: Entity)
    requires x in s.rows
  {
    match scope
    case OfAccount(a) => s.rows[x].account == a
    case OfExports(_) =>
      ObservedBy(s, DeletedExports(s, scope), x) && !ObservedBeside(s, DeletedExports(s, scope), x)
  }

  ghost function RemovedRows(s: State, scope: Scope): set<Entity> {
    set x | x in s.rows && Removes(s, scope, x)
  }

  /** The accounts of the deleted exports and of every record they observed. */
  ghost function LockedAccounts(s: State, scope: Scope): set<Account> {
    (set e | e in DeletedExports(s, scope) :: s.exports[e].account)
    + (set x | x in s.rows && ObservedBy(s, DeletedExports(s, scope), x) :: s.rows[x].account)
  }

  function Earliest(exports: map<ExportId, Export>, ids: set<ExportId>): (e: ExportId)
    requires ids != {} && ids <= exports.Keys
    ensures e in ids && forall f | f in ids :: e == f || Before(exports, e, f)
  {
    var times := set f | f in ids :: exports[f].received;
    assert times != {} by { var f :| f in ids; assert exports[f].received in times; }
    var first := Least(times);
    var atFirst := set f | f in ids && exports[f].received == first;
    assert atFirst != {} by { var f :| f in ids && exports[f].received == first; assert f in atFirst; }
    var e := Least(atFirst);
    assert forall f | f in ids :: exports[f].received in times;
    assert forall f | f in ids && exports[f].received == first :: f in atFirst;
    e
  }

  predicate Before(exports: map<ExportId, Export>, e: ExportId, f: ExportId)
    requires e in exports && f in exports
  {
    exports[e].received < exports[f].received || (exports[e].received == exports[f].received && e < f)
  }

  /** `ids` by time of receipt and then by id. */
  function ByReceipt(exports: map<ExportId, Export>, ids: set<ExportId>): (r: seq<ExportId>)
    requires ids <= exports.Keys
    ensures Elements(r) == ids
    ensures forall i, j | 0 <= i < j < |r| :: Before(exports, r[i], r[j])
  {
    if ids == {} then []
    else
      var e := Earliest(exports, ids);
      var rest := ByReceipt(exports, ids - {e});
      assert forall f | f in rest :: f in Elements(rest);
      assert Elements([e] + rest) == {e} + Elements(rest);
      [e] + rest
  }

  function Observers(exports: map<ExportId, Export>, observations: Observations, x: Entity): set<ExportId> {
    set e | e in exports && (e, x) in observations
  }

  /** The exports that present a stored version of `x`, oldest first. */
  function HeldExports(exports: map<ExportId, Export>, observations: Observations, versions: Versions, x: Entity)
    : (order: seq<ExportId>)
    ensures forall e | e in order :: e in exports && (e, x) in observations && (x, observations[(e, x)]) in versions
    ensures forall e | e in exports && (e, x) in observations && (x, observations[(e, x)]) in versions :: e in order
  {
    var ids := set e | e in Observers(exports, observations, x) && (x, observations[(e, x)]) in versions;
    var order := ByReceipt(exports, ids);
    assert forall e :: e in order <==> e in Elements(order);
    order
  }

  /** The stored versions the exports that are left present of `x`, oldest export first. */
  function Held(exports: map<ExportId, Export>, observations: Observations, versions: Versions, x: Entity)
    : (held: seq<Snapshot>)
    ensures |held| == |HeldExports(exports, observations, versions, x)|
  {
    var order := HeldExports(exports, observations, versions, x);
    seq(|order|, i requires 0 <= i < |order| => assert order[i] in order; versions[(x, observations[(order[i], x)])])
  }

  /** The replay skips a version equal to the one before it. */
  predicate Replays(held: seq<Snapshot>, i: nat)
    requires i < |held|
  {
    i == 0 || DigestOf(held[i - 1]) != DigestOf(held[i])
  }

  /** The message rows that are observed again when the versions `held` of `order` are replayed. */
  function Resighted(order: seq<ExportId>, held: seq<Snapshot>, x: Entity): set<Sighting>
    requires |order| == |held|
  {
    set i, t | 0 <= i < |held| && Replays(held, i) && t in Sightings(order[i], x, held[i]) :: t
  }

  /** An export that is left observes the record, and none of them presents what the row holds. */
  ghost predicate Stale(observations: Observations, x: Entity, row: Record) {
    && RowDigest(row).Some?
    && (exists e :: (e, x) in observations)
    && !Named(observations, x, RowDigest(row).value)
  }

  function ConversationVersions(held: seq<Snapshot>): (vs: seq<Restoration.Version>)
    requires forall h | h in held :: h.OfConversation?
    ensures |vs| == |held| && forall i | 0 <= i < |held| :: vs[i] == held[i].version
  {
    seq(|held|, i requires 0 <= i < |held| => assert held[i] in held; held[i].version)
  }

  /** A project takes the newest version left, a conversation is written again from all of them. */
  function RestoredRow(row: Record, held: seq<Snapshot>, projects: set<nat>): Record
    requires forall h | h in held :: h.OfProject? <==> row.ProjectRow?
  {
    if held == [] then row
    else
      var newest := held[|held| - 1];
      assert newest in held;
      match row
      case ProjectRow(a, _, _) => ProjectRow(a, newest.project, newest.parser)
      case ConversationRow(a, state) =>
        ConversationRow(a, Restoration.Restored(state, ConversationVersions(held), projects))
  }

  ghost predicate Restores(s: State, scope: Scope, left: Observations, x: Entity)
    requires x in s.rows
  {
    || (s.rows[x].account in LockedAccounts(s, scope) && Stale(left, x, s.rows[x]))
    || (x.Conversation? && ObservedBy(s, DeletedExports(s, scope), x) && ObservedBeside(s, DeletedExports(s, scope), x))
  }

  function Left(s: State, deleted: set<ExportId>): Observations {
    map k | k in s.observations && k.0 !in deleted :: s.observations[k]
  }

  function LeftExports(s: State, deleted: set<ExportId>): map<ExportId, Export> {
    map e | e in s.exports && e !in deleted :: s.exports[e]
  }

  /** The messages of `x` that deleted exports observed and no export left did. */
  ghost function UnseenMessages(s: State, deleted: set<ExportId>, x: Entity): set<Restoration.ExternalId>
    requires x in s.rows && s.rows[x].ConversationRow?
  {
    set m | m in s.rows[x].state.messages && SeenBy(s, deleted, x, m) && !SeenBeside(s, deleted, x, m)
  }

  ghost predicate SeenBy(s: State, deleted: set<ExportId>, x: Entity, m: Restoration.ExternalId) {
    exists e :: e in deleted && (e, x, m) in s.seen
  }

  ghost predicate SeenBeside(s: State, deleted: set<ExportId>, x: Entity, m: Restoration.ExternalId) {
    exists e :: e !in deleted && (e, x, m) in s.seen
  }

  /** Those messages and every message below them, whoever observed it. */
  ghost function RemovedMessages(s: State, scope: Scope, x: Entity): set<Restoration.ExternalId>
    requires x in s.rows && s.rows[x].ConversationRow?
  {
    Restoration.Below(s.rows[x].state.messages, UnseenMessages(s, DeletedExports(s, scope), x))
  }

  /** The database clears a conversation's project when the project goes. */
  function Unlinked(state: Restoration.State, removed: set<Entity>): Restoration.State {
    var project := state.header.project;
    if project.Some? && Project(project.value) in removed
    then state.(header := state.header.(project := None)) else state
  }

  /** A kept row after the removal and before the restoration. */
  ghost function BaseRow(s: State, scope: Scope, x: Entity): Record
    requires x in s.rows
  {
    match s.rows[x]
    case ProjectRow(_, _, _) => s.rows[x]
    case ConversationRow(a, state) =>
      ConversationRow(a, Restoration.Without(Unlinked(state, RemovedRows(s, scope)), RemovedMessages(s, scope, x)))
  }

  ghost function LeftRows(s: State, scope: Scope): map<Entity, Record> {
    map x | x in s.rows && x !in RemovedRows(s, scope) :: BaseRow(s, scope, x)
  }

  /** A sighting whose export, conversation and message are all left. */
  ghost predicate StillSeen(s: State, scope: Scope, t: Sighting) {
    && t.0 !in DeletedExports(s, scope)
    && t.1 in s.rows && t.1 !in RemovedRows(s, scope) && s.rows[t.1].ConversationRow?
    && t.2 !in RemovedMessages(s, scope, t.1)
  }

  ghost function LeftSeen(s: State, scope: Scope): set<Sighting> {
    set t | t in s.seen && StillSeen(s, scope, t)
  }

  ghost function LeftVersions(s: State, scope: Scope): Versions {
    map v | v in s.versions && v.0 !in RemovedRows(s, scope) :: s.versions[v]
  }

  /** What the exports that are left present of `x`. */
  ghost function HeldOf(s: State, scope: Scope, x: Entity): (held: seq<Snapshot>)
    requires Fits(s)
    ensures forall h | h in held :: h.OfProject? <==> x.Project?
  {
    var deleted := DeletedExports(s, scope);
    HeldFits(LeftExports(s, deleted), Left(s, deleted), LeftVersions(s, scope), x);
    Held(LeftExports(s, deleted), Left(s, deleted), LeftVersions(s, scope), x)
  }

  ghost function HeldExportsOf(s: State, scope: Scope, x: Entity): seq<ExportId> {
    var deleted := DeletedExports(s, scope);
    HeldExports(LeftExports(s, deleted), Left(s, deleted), LeftVersions(s, scope), x)
  }

  ghost function RowAfter(s: State, scope: Scope, x: Entity): Record
    requires Fits(s) && x in s.rows
  {
    assert RowFits(x, s.rows[x]);
    var base := BaseRow(s, scope, x);
    if Restores(s, scope, Left(s, DeletedExports(s, scope)), x)
    then RestoredRow(base, HeldOf(s, scope, x), ProjectsOf(LeftRows(s, scope), base.account))
    else base
  }

  ghost function RowsAfter(s: State, scope: Scope): map<Entity, Record>
    requires Fits(s)
  {
    map x | x in LeftRows(s, scope) :: RowAfter(s, scope, x)
  }

  /** The sightings the restoration of `x` adds. */
  ghost function SeenAgain(s: State, scope: Scope, x: Entity): set<Sighting>
    requires Fits(s) && x in s.rows
  {
    if Restores(s, scope, Left(s, DeletedExports(s, scope)), x)
    then Resighted(HeldExportsOf(s, scope, x), HeldOf(s, scope, x), x) else {}
  }

  ghost function SeenAfter(s: State, scope: Scope): set<Sighting>
    requires Fits(s)
  {
    LeftSeen(s, scope) + set x, t | x in s.rows && x !in RemovedRows(s, scope) && t in SeenAgain(s, scope, x) :: t
  }

  /** The row-removal transaction as far as the version store goes. */
  ghost function Deleted(s: State, scope: Scope): State
    requires Fits(s)
  {
    var deleted, accounts := DeletedExports(s, scope), LockedAccounts(s, scope);
    State(LeftExports(s, deleted),
          RowsAfter(s, scope),
          Left(s, deleted),
          PrunedVersions(LeftVersions(s, scope), Left(s, deleted),
                         iset x | x in s.rows && s.rows[x].account in accounts),
          SeenAfter(s, scope))
  }

  lemma HeldFits(exports: map<ExportId, Export>, observations: Observations, versions: Versions, x: Entity)
    requires forall v | v in versions :: SnapshotFits(v.0, versions[v])
    ensures forall h | h in Held(exports, observations, versions, x) :: h.OfProject? <==> x.Project?
  {
    var held := Held(exports, observations, versions, x);
    forall h | h in held ensures h.OfProject? <==> x.Project? {
      var i :| 0 <= i < |held| && held[i] == h;
      var e := HeldMember(exports, observations, versions, x, i);
    }
  }

  /** Every row and every snapshot has the kind of its key. */
  ghost predicate Fits(s: State) {
    && (forall x | x in s.rows :: RowFits(x, s.rows[x]))
    && (forall v | v in s.versions :: SnapshotFits(v.0, s.versions[v]) && DigestOf(s.versions[v]) == v.1)
  }

  // ---- Runs ------------------------------------------------------------------------------------------------

  /** One committed transaction. A reparse is an import that presents conversations only. */
  datatype Step =
    | Receive(source: ExportId, received: nat, account: Account)
    | Import(importing: ExportId, presented: seq<(Entity, Snapshot)>)
    | Delete(scope: Scope)

  ghost predicate Enabled(s: State, step: Step) {
    match step
    case Receive(e, _, _) => e !in s.exports
    case Import(e, presented) =>
      && e in s.exports
      && forall p | p in presented ::
           SnapshotFits(p.0, p.1) && (p.0 in s.rows ==> s.rows[p.0].account == s.exports[e].account)
    case Delete(_) => Fits(s)
  }

  ghost function Apply(s: State, step: Step): State
    requires Enabled(s, step)
  {
    match step
    case Receive(e, received, account) => s.(exports := s.exports[e := Export(received, account)])
    case Import(e, presented) => ImportAll(s, e, presented)
    case Delete(scope) => Deleted(s, scope)
  }

  const INITIAL: State := State(map[], map[], map[], map[], {})

  ghost predicate Run(states: seq<State>, steps: seq<Step>) {
    && |states| == |steps| + 1 && states[0] == INITIAL
    && forall i | 0 <= i < |steps| :: Enabled(states[i], steps[i]) && states[i + 1] == Apply(states[i], steps[i])
  }

  /** Every observation has its snapshot. */
  ghost predicate SnapshotsKept(s: State) {
    forall k | k in s.observations :: (k.1, s.observations[k]) in s.versions
  }

  /** Every stored version is named by some observation. */
  ghost predicate VersionsNamed(s: State) {
    forall v | v in s.versions :: Named(s.observations, v.0, v.1)
  }

  /** An observation joins an export and a record of one account. */
  ghost predicate OneAccount(s: State) {
    forall k | k in s.observations ::
      k.0 in s.exports && k.1 in s.rows && s.rows[k.1].account == s.exports[k.0].account
  }

  /** Every row holds content that some export still there presented. */
  ghost predicate RowsPresented(s: State) {
    forall x | x in s.rows :: RowDigest(s.rows[x]).Some? && Named(s.observations, x, RowDigest(s.rows[x]).value)
  }

  /** A message is observed exactly when it is there, by an export that observes its conversation. */
  ghost predicate SightingsSound(s: State) {
    forall t | t in s.seen ::
      (t.0, t.1) in s.observations && t.1 in s.rows && s.rows[t.1].ConversationRow? && t.2 in s.rows[t.1].state.messages
  }

  ghost predicate MessagesSeen(s: State) {
    forall x, m | x in s.rows && s.rows[x].ConversationRow? && m in s.rows[x].state.messages :: Seen(s, x, m)
  }

  ghost predicate Seen(s: State, x: Entity, m: Restoration.ExternalId) {
    exists e :: (e, x, m) in s.seen
  }

  /** The parent of a message is a message of its conversation. */
  ghost predicate ParentsHold(s: State) {
    forall x | x in s.rows && s.rows[x].ConversationRow? :: Restoration.ParentsPresent(s.rows[x].state.messages)
  }

  /** A conversation's project is a row of its account, and the one its content names. */
  ghost predicate ProjectHolds(rows: map<Entity, Record>, x: Entity)
    requires x in rows
  {
    rows[x].ConversationRow? && rows[x].state.header.project.Some? ==>
      var header := rows[x].state.header;
      && Project(header.project.value) in rows && rows[Project(header.project.value)].account == rows[x].account
      && header.digest.Some? && header.digest.value.project == header.project
  }

  ghost predicate ProjectsHold(s: State) {
    forall x | x in s.rows :: ProjectHolds(s.rows, x)
  }

  ghost predicate Inv(s: State) {
    && Fits(s) && SnapshotsKept(s) && VersionsNamed(s) && OneAccount(s) && RowsPresented(s)
    && SightingsSound(s) && MessagesSeen(s) && ParentsHold(s) && ProjectsHold(s)
  }

  // ---- Imports keep it -----------------------------------------------------------------------------------

  lemma NamedStays(s: State, e: ExportId, x: Entity, d: Digest, y: Entity, other: Digest)
    requires x != y && Named(s.observations, y, other)
    ensures Named(s.observations[(e, x) := d], y, other)
  {
    var f :| (f, y) in s.observations && s.observations[(f, y)] == other;
    assert (f, y) in s.observations[(e, x) := d];
  }

  lemma WrittenDigest(rows: map<Entity, Record>, account: Account, x: Entity, snapshot: Snapshot)
    requires SnapshotFits(x, snapshot)
    ensures
      var after := Written(rows, account, x, snapshot);
      && after.Keys == rows.Keys + {x} && after[x].account == account && RowFits(x, after[x])
      && RowDigest(after[x]) == Some(DigestOf(snapshot))
      && forall y | y in rows && y != x :: after[y] == rows[y]
  {
  }

  lemma PresentingKeepsSnapshots(s: State, e: ExportId, x: Entity, snapshot: Snapshot)
    requires SnapshotsKept(s)
    ensures SnapshotsKept(Presented(s, e, x, snapshot))
  {
    var t := Presented(s, e, x, snapshot);
    forall k | k in t.observations ensures (k.1, t.observations[k]) in t.versions {
      assert k != (e, x) ==> k in s.observations;
      assert k == (k.0, k.1);
      assert Named(t.observations, k.1, t.observations[k]);
    }
  }

  lemma PresentingKeepsNamed(s: State, e: ExportId, x: Entity, snapshot: Snapshot)
    requires VersionsNamed(s)
    ensures VersionsNamed(Presented(s, e, x, snapshot))
  {
    var t := Presented(s, e, x, snapshot);
    forall v | v in t.versions ensures Named(t.observations, v.0, v.1) {
      if v.0 != x { NamedStays(s, e, x, DigestOf(snapshot), v.0, v.1); }
    }
  }

  lemma ImportKeepsRows(s: State, e: ExportId, x: Entity, snapshot: Snapshot)
    requires RowsPresented(s) && e in s.exports && SnapshotFits(x, snapshot)
    ensures RowsPresented(ImportOne(s, e, x, snapshot))
  {
    var d := DigestOf(snapshot);
    var t := ImportOne(s, e, x, snapshot);
    WrittenDigest(s.rows, s.exports[e].account, x, snapshot);
    forall y | y in t.rows ensures RowDigest(t.rows[y]).Some? && Named(t.observations, y, RowDigest(t.rows[y]).value) {
      if y != x {
        NamedStays(s, e, x, d, y, RowDigest(s.rows[y]).value);
      } else {
        assert (e, x) in t.observations;
      }
    }
  }

  lemma ImportKeepsFits(s: State, e: ExportId, x: Entity, snapshot: Snapshot)
    requires Fits(s) && e in s.exports && SnapshotFits(x, snapshot)
    ensures Fits(ImportOne(s, e, x, snapshot))
  {
    WrittenDigest(s.rows, s.exports[e].account, x, snapshot);
  }

  lemma ImportKeepsAccounts(s: State, e: ExportId, x: Entity, snapshot: Snapshot)
    requires OneAccount(s) && e in s.exports && SnapshotFits(x, snapshot)
    requires x in s.rows ==> s.rows[x].account == s.exports[e].account
    ensures OneAccount(ImportOne(s, e, x, snapshot))
  {
    WrittenDigest(s.rows, s.exports[e].account, x, snapshot);
    var t := ImportOne(s, e, x, snapshot);
    forall k | k in t.observations
      ensures k.0 in t.exports && k.1 in t.rows && t.rows[k.1].account == t.exports[k.0].account
    {
      assert k != (e, x) ==> k in s.observations;
    }
  }

  lemma WrittenMessages(rows: map<Entity, Record>, account: Account, x: Entity, v: Restoration.Version)
    requires x.Conversation? && (x in rows ==> RowFits(x, rows[x]))
    requires x in rows ==> Restoration.ParentsPresent(rows[x].state.messages)
    ensures
      var after := Written(rows, account, x, OfConversation(v))[x];
      && after.ConversationRow? && Restoration.ParentsPresent(after.state.messages)
      && (forall m :: m in after.state.messages <==>
            (m in Restoration.Externals(v.content.messages) || (x in rows && m in rows[x].state.messages)))
  {
    var before := if x in rows then rows[x].state else Restoration.NOTHING;
    Restoration.PersistKeepsParents(before, v.content);
  }

  lemma ImportKeepsSightings(s: State, e: ExportId, x: Entity, snapshot: Snapshot)
    requires Fits(s) && SightingsSound(s) && MessagesSeen(s) && ParentsHold(s)
    requires e in s.exports && SnapshotFits(x, snapshot)
    ensures
      var t := ImportOne(s, e, x, snapshot);
      SightingsSound(t) && MessagesSeen(t) && ParentsHold(t)
  {
    var t := ImportOne(s, e, x, snapshot);
    WrittenDigest(s.rows, s.exports[e].account, x, snapshot);
    if snapshot.OfConversation? { WrittenMessages(s.rows, s.exports[e].account, x, snapshot.version); }
    forall y, m | y in t.rows && t.rows[y].ConversationRow? && m in t.rows[y].state.messages ensures Seen(t, y, m) {
      if y == x && m in Restoration.Externals(snapshot.version.content.messages) {
        assert (e, x, m) in t.seen;
      } else {
        assert Seen(s, y, m);
      }
    }
    forall g | g in t.seen
      ensures (g.0, g.1) in t.observations && g.1 in t.rows && t.rows[g.1].ConversationRow?
      ensures g.2 in t.rows[g.1].state.messages
    {
      assert g in s.seen || g in Sightings(e, x, snapshot);
    }
  }

  lemma ImportKeepsProjects(s: State, e: ExportId, x: Entity, snapshot: Snapshot)
    requires Fits(s) && ProjectsHold(s) && e in s.exports && SnapshotFits(x, snapshot)
    requires x in s.rows ==> s.rows[x].account == s.exports[e].account
    ensures ProjectsHold(ImportOne(s, e, x, snapshot))
  {
    var rows, account := s.rows, s.exports[e].account;
    WrittenDigest(rows, account, x, snapshot);
    forall y | y in Written(rows, account, x, snapshot) ensures ProjectHolds(Written(rows, account, x, snapshot), y) {
      if y != x {
        assert ProjectHolds(rows, y);
      } else if snapshot.OfConversation? {
        WrittenProject(rows, account, x, snapshot.version);
      }
    }
  }

  lemma WrittenProject(rows: map<Entity, Record>, account: Account, x: Entity, v: Restoration.Version)
    requires x.Conversation?
    ensures ProjectHolds(Written(rows, account, x, OfConversation(v)), x)
  {
    var project := Written(rows, account, x, OfConversation(v))[x].state.header.project;
    if project.Some? { ProjectIn(rows, account, project.value); }
  }

  lemma ImportOneKeeps(s: State, e: ExportId, x: Entity, snapshot: Snapshot)
    requires Inv(s) && e in s.exports && SnapshotFits(x, snapshot)
    requires x in s.rows ==> s.rows[x].account == s.exports[e].account
    ensures Inv(ImportOne(s, e, x, snapshot))
  {
    var written := s.(rows := Written(s.rows, s.exports[e].account, x, snapshot), seen := s.seen + Sightings(e, x, snapshot));
    assert SnapshotsKept(written) && VersionsNamed(written);
    PresentingKeepsSnapshots(written, e, x, snapshot);
    PresentingKeepsNamed(written, e, x, snapshot);
    ImportKeepsRows(s, e, x, snapshot);
    ImportKeepsFits(s, e, x, snapshot);
    ImportKeepsAccounts(s, e, x, snapshot);
    ImportKeepsSightings(s, e, x, snapshot);
    ImportKeepsProjects(s, e, x, snapshot);
  }

  /** An import adds rows of its export's account and moves no row to another account. */
  ghost predicate SameAccounts(before: map<Entity, Record>, after: map<Entity, Record>, account: Account) {
    forall x | x in before || x in after ::
      x in after && after[x].account == if x in before then before[x].account else account
  }

  lemma SameAccountsStep(
      before: map<Entity, Record>, mid: map<Entity, Record>, account: Account, x: Entity, snapshot: Snapshot)
    requires SameAccounts(before, mid, account) && SnapshotFits(x, snapshot)
    requires x in before ==> before[x].account == account
    ensures SameAccounts(before, Written(mid, account, x, snapshot), account)
    ensures x in mid ==> mid[x].account == account
  {
    WrittenDigest(mid, account, x, snapshot);
  }

  lemma {:induction false} ImportKeeps(s: State, e: ExportId, presented: seq<(Entity, Snapshot)>)
    requires Inv(s) && e in s.exports
    requires forall p | p in presented ::
               SnapshotFits(p.0, p.1) && (p.0 in s.rows ==> s.rows[p.0].account == s.exports[e].account)
    ensures Inv(ImportAll(s, e, presented))
    ensures SameAccounts(s.rows, ImportAll(s, e, presented).rows, s.exports[e].account)
  {
    if presented != [] {
      var front, last := presented[..|presented| - 1], presented[|presented| - 1];
      assert last in presented && forall p | p in front :: p in presented;
      ImportKeeps(s, e, front);
      var t := ImportAll(s, e, front);
      SameAccountsStep(s.rows, t.rows, s.exports[e].account, last.0, last.1);
      ImportOneKeeps(t, e, last.0, last.1);
      assert ImportAll(s, e, presented).rows == Written(t.rows, s.exports[e].account, last.0, last.1);
    }
  }

  // ---- Deletions keep it ---------------------------------------------------------------------------------

  /** Only deleted exports observed a removed record. */
  lemma RemovedIsUnobserved(s: State, scope: Scope, k: Observation)
    requires Inv(s) && k in Left(s, DeletedExports(s, scope))
    ensures k.1 !in RemovedRows(s, scope)
  {
    assert k in s.observations && k == (k.0, k.1);
    assert ObservedBeside(s, DeletedExports(s, scope), k.1);
  }

  /** A record that stays is still observed. */
  lemma KeptIsObserved(s: State, scope: Scope, x: Entity) returns (e: ExportId)
    requires Inv(s) && x in s.rows && x !in RemovedRows(s, scope)
    ensures (e, x) in Left(s, DeletedExports(s, scope))
  {
    var deleted := DeletedExports(s, scope);
    var f :| (f, x) in s.observations;
    assert s.exports[f].account == s.rows[x].account;
    if f in deleted {
      assert ObservedBy(s, deleted, x) && !Removes(s, scope, x);
      assert ObservedBeside(s, deleted, x);
      e :| e !in deleted && (e, x) in s.observations;
    } else {
      e := f;
    }
  }

  /** What an account outside the deletion names is named after it. */
  lemma OtherAccountsNamed(s: State, scope: Scope, x: Entity, d: Digest)
    requires Inv(s) && x in s.rows && s.rows[x].account !in LockedAccounts(s, scope) && Named(s.observations, x, d)
    ensures Named(Left(s, DeletedExports(s, scope)), x, d)
  {
    var e :| (e, x) in s.observations && s.observations[(e, x)] == d;
    assert e !in DeletedExports(s, scope) by { assert s.exports[e].account == s.rows[x].account; }
    assert (e, x) in Left(s, DeletedExports(s, scope));
  }

  lemma HeldMember(exports: map<ExportId, Export>, observations: Observations, versions: Versions, x: Entity, i: nat)
    returns (e: ExportId)
    requires i < |Held(exports, observations, versions, x)|
    ensures e == HeldExports(exports, observations, versions, x)[i]
    ensures e in exports && (e, x) in observations && (x, observations[(e, x)]) in versions
    ensures Held(exports, observations, versions, x)[i] == versions[(x, observations[(e, x)])]
  {
    e := HeldExports(exports, observations, versions, x)[i];
    assert e in HeldExports(exports, observations, versions, x);
  }

  lemma HeldHas(exports: map<ExportId, Export>, observations: Observations, versions: Versions, x: Entity, e: ExportId)
    returns (i: nat)
    requires e in exports && (e, x) in observations && (x, observations[(e, x)]) in versions
    ensures i < |Held(exports, observations, versions, x)|
    ensures Held(exports, observations, versions, x)[i] == versions[(x, observations[(e, x)])]
  {
    var order := HeldExports(exports, observations, versions, x);
    i :| 0 <= i < |order| && order[i] == e;
  }

  lemma HeldExists(
      exports: map<ExportId, Export>, observations: Observations, versions: Versions, x: Entity, e: ExportId)
    requires e in exports && (e, x) in observations && (x, observations[(e, x)]) in versions
    ensures Held(exports, observations, versions, x) != []
  {
    var i := HeldHas(exports, observations, versions, x, e);
  }

  /** After a restoration the row holds a version some export left presents. */
  lemma NewestIsNamed(s: State, scope: Scope, x: Entity)
    requires Inv(s) && x in LeftRows(s, scope)
    ensures HeldOf(s, scope, x) != []
    ensures Named(Left(s, DeletedExports(s, scope)), x, DigestOf(HeldOf(s, scope, x)[|HeldOf(s, scope, x)| - 1]))
  {
    var deleted := DeletedExports(s, scope);
    var exports, left, versions := LeftExports(s, deleted), Left(s, deleted), LeftVersions(s, scope);
    var e := KeptIsObserved(s, scope, x);
    assert (e, x) in s.observations && (x, s.observations[(e, x)]) in versions;
    HeldExists(exports, left, versions, x, e);
    var f := HeldMember(exports, left, versions, x, |HeldOf(s, scope, x)| - 1);
    assert DigestOf(versions[(x, left[(f, x)])]) == left[(f, x)];
  }

  lemma RestoredRowDigest(row: Record, held: seq<Snapshot>, projects: set<nat>)
    requires held != [] && forall h | h in held :: h.OfProject? <==> row.ProjectRow?
    ensures
      var after := RestoredRow(row, held, projects);
      && (after.ProjectRow? <==> row.ProjectRow?) && after.account == row.account
      && RowDigest(after) == Some(DigestOf(held[|held| - 1]))
  {
    assert held[|held| - 1] in held;
  }

  /** The removal changes neither the kind, nor the account, nor the digest of a kept row. */
  lemma BaseKeeps(s: State, scope: Scope, x: Entity)
    requires x in s.rows
    ensures
      var base := BaseRow(s, scope, x);
      && (base.ProjectRow? <==> s.rows[x].ProjectRow?) && base.account == s.rows[x].account
      && RowDigest(base) == RowDigest(s.rows[x])
  {
  }

  lemma RowAfterPresented(s: State, scope: Scope, x: Entity)
    requires Inv(s) && x in LeftRows(s, scope)
    ensures
      var row := RowAfter(s, scope, x);
      && RowFits(x, row) && row.account == s.rows[x].account
      && RowDigest(row).Some? && Named(Left(s, DeletedExports(s, scope)), x, RowDigest(row).value)
  {
    var left := Left(s, DeletedExports(s, scope));
    BaseKeeps(s, scope, x);
    assert RowFits(x, s.rows[x]);
    if Restores(s, scope, left, x) {
      NewestIsNamed(s, scope, x);
      RestoredRowDigest(BaseRow(s, scope, x), HeldOf(s, scope, x), ProjectsOf(LeftRows(s, scope), s.rows[x].account));
    } else if s.rows[x].account in LockedAccounts(s, scope) {
      var e := KeptIsObserved(s, scope, x);
    } else {
      OtherAccountsNamed(s, scope, x, RowDigest(s.rows[x]).value);
    }
  }

  lemma DeletionKeepsRows(s: State, scope: Scope)
    requires Inv(s)
    ensures Fits(Deleted(s, scope)) && RowsPresented(Deleted(s, scope))
    ensures forall x | x in Deleted(s, scope).rows :: Deleted(s, scope).rows[x].account == s.rows[x].account
  {
    forall x | x in Deleted(s, scope).rows
      ensures RowFits(x, RowAfter(s, scope, x)) && RowAfter(s, scope, x).account == s.rows[x].account
      ensures RowDigest(RowAfter(s, scope, x)).Some?
      ensures Named(Left(s, DeletedExports(s, scope)), x, RowDigest(RowAfter(s, scope, x)).value)
    {
      RowAfterPresented(s, scope, x);
    }
  }

  lemma DeletionKeepsObservations(s: State, scope: Scope)
    requires Inv(s)
    ensures SnapshotsKept(Deleted(s, scope)) && OneAccount(Deleted(s, scope))
  {
    DeletionKeepsRows(s, scope);
    var t := Deleted(s, scope);
    forall k | k in t.observations
      ensures (k.1, t.observations[k]) in t.versions
      ensures k.0 in t.exports && k.1 in t.rows && t.rows[k.1].account == t.exports[k.0].account
    {
      RemovedIsUnobserved(s, scope, k);
      assert k == (k.0, k.1);
      assert Named(t.observations, k.1, t.observations[k]);
      assert (k.1, t.observations[k]) in LeftVersions(s, scope);
    }
  }

  lemma LeftVersionNamed(s: State, scope: Scope, v: VersionKey)
    requires Inv(s) && v in Deleted(s, scope).versions
    ensures Named(Left(s, DeletedExports(s, scope)), v.0, v.1)
  {
    assert v in LeftVersions(s, scope) && v in s.versions;
    assert Named(s.observations, v.0, v.1);
    var e :| (e, v.0) in s.observations && s.observations[(e, v.0)] == v.1;
    assert v.0 in s.rows;
    if s.rows[v.0].account !in LockedAccounts(s, scope) {
      OtherAccountsNamed(s, scope, v.0, v.1);
    }
  }

  /** Only a conversation a deleted export observed loses messages. */
  lemma UnobservedLosesNothing(s: State, scope: Scope, x: Entity)
    requires SightingsSound(s) && x in s.rows && s.rows[x].ConversationRow?
    requires !ObservedBy(s, DeletedExports(s, scope), x)
    ensures RemovedMessages(s, scope, x) == {}
  {
    var deleted := DeletedExports(s, scope);
    forall m | m in s.rows[x].state.messages ensures !SeenBy(s, deleted, x, m) {
      forall e | (e, x, m) in s.seen ensures (e, x) in s.observations { assert (e, x, m).0 == e; }
    }
    assert UnseenMessages(s, deleted, x) == {};
    Restoration.NothingBelowNothing(s.rows[x].state.messages);
  }

  /** What a kept conversation holds when its rows are restored. */
  lemma RestoredState(s: State, scope: Scope, x: Entity)
    requires Inv(s) && x in LeftRows(s, scope) && x.Conversation?
    requires Restores(s, scope, Left(s, DeletedExports(s, scope)), x)
    ensures s.rows[x].ConversationRow? && HeldOf(s, scope, x) != []
    ensures RowAfter(s, scope, x) == ConversationRow(s.rows[x].account,
              Restoration.Restored(BaseRow(s, scope, x).state, ConversationVersions(HeldOf(s, scope, x)),
                                   ProjectsOf(LeftRows(s, scope), s.rows[x].account)))
  {
    assert RowFits(x, s.rows[x]);
    NewestIsNamed(s, scope, x);
  }

  /** The messages of a kept conversation: what the removal left and, if restored, what is held. */
  lemma MessagesAfter(s: State, scope: Scope, x: Entity)
    requires Inv(s) && x in LeftRows(s, scope) && s.rows[x].ConversationRow?
    ensures RowAfter(s, scope, x).ConversationRow? && Restoration.ParentsPresent(RowAfter(s, scope, x).state.messages)
    ensures
      var before, after := s.rows[x].state.messages, RowAfter(s, scope, x).state.messages;
      forall m :: m in after <==>
        || (m in before && m !in RemovedMessages(s, scope, x))
        || (Restores(s, scope, Left(s, DeletedExports(s, scope)), x) && PresentedAgain(s, scope, x, m))
  {
    assert RowFits(x, s.rows[x]);
    var state := Unlinked(s.rows[x].state, RemovedRows(s, scope));
    Restoration.RemovalKeepsParents(state, UnseenMessages(s, DeletedExports(s, scope), x));
    if Restores(s, scope, Left(s, DeletedExports(s, scope)), x) {
      RestoredState(s, scope, x);
      Restoration.RestoredMessages(BaseRow(s, scope, x).state, ConversationVersions(HeldOf(s, scope, x)),
                                   ProjectsOf(LeftRows(s, scope), s.rows[x].account));
    }
  }

  /** Some version the exports left present of `x` has the message. */
  ghost predicate PresentedAgain(s: State, scope: Scope, x: Entity, m: Restoration.ExternalId)
    requires Fits(s) && x.Conversation?
  {
    Restoration.PresentedIn(Restoration.Contents(ConversationVersions(HeldOf(s, scope, x))), m)
  }

  /** A version that is skipped equals one that is replayed. */
  lemma {:induction false} ReplayedEqual(held: seq<Snapshot>, i: nat) returns (j: nat)
    requires i < |held|
    ensures j <= i && Replays(held, j) && DigestOf(held[j]) == DigestOf(held[i])
  {
    if Replays(held, i) { j := i; } else { j := ReplayedEqual(held, i - 1); }
  }

  lemma ResightedHas(order: seq<ExportId>, held: seq<Snapshot>, x: Entity, i: nat, m: Restoration.ExternalId)
    returns (e: ExportId)
    requires |order| == |held| && i < |held| && held[i].OfConversation?
    requires m in Restoration.Externals(held[i].version.content.messages)
    ensures (e, x, m) in Resighted(order, held, x)
  {
    var j := ReplayedEqual(held, i);
    e := order[j];
    assert (e, x, m) in Sightings(order[j], x, held[j]);
  }

  /** A message that stays is observed by an export left. */
  lemma StayedIsSeen(s: State, scope: Scope, x: Entity, m: Restoration.ExternalId) returns (e: ExportId)
    requires Inv(s) && x in LeftRows(s, scope) && s.rows[x].ConversationRow?
    requires m in s.rows[x].state.messages && m !in RemovedMessages(s, scope, x)
    ensures (e, x, m) in LeftSeen(s, scope)
  {
    var deleted := DeletedExports(s, scope);
    assert Seen(s, x, m);
    e :| (e, x, m) in s.seen;
    if e in deleted {
      if m in UnseenMessages(s, deleted, x) {
        Restoration.TopsGo(s.rows[x].state.messages, UnseenMessages(s, deleted, x), m);
      }
      assert SeenBeside(s, deleted, x, m);
      e :| e !in deleted && (e, x, m) in s.seen;
    }
    assert StillSeen(s, scope, (e, x, m));
  }

  /** A message that is presented again is observed again. */
  lemma PresentedIsSeen(s: State, scope: Scope, x: Entity, m: Restoration.ExternalId) returns (e: ExportId)
    requires Inv(s) && x.Conversation? && x in LeftRows(s, scope) && PresentedAgain(s, scope, x, m)
    requires Restores(s, scope, Left(s, DeletedExports(s, scope)), x)
    ensures (e, x, m) in SeenAgain(s, scope, x)
  {
    var held := HeldOf(s, scope, x);
    var cs := Restoration.Contents(ConversationVersions(held));
    var i :| 0 <= i < |cs| && m in Restoration.Externals(cs[i].messages);
    assert held[i] in held;
    e := ResightedHas(HeldExportsOf(s, scope, x), held, x, i, m);
  }

  lemma DeletionKeepsMessagesSeen(s: State, scope: Scope)
    requires Inv(s)
    ensures MessagesSeen(Deleted(s, scope)) && ParentsHold(Deleted(s, scope))
  {
    var t := Deleted(s, scope);
    forall x | x in t.rows && t.rows[x].ConversationRow?
      ensures Restoration.ParentsPresent(t.rows[x].state.messages)
      ensures forall m | m in t.rows[x].state.messages :: Seen(t, x, m)
    {
      BaseKeeps(s, scope, x);
      RowAfterPresented(s, scope, x);
      assert RowFits(x, s.rows[x]);
      MessagesAfter(s, scope, x);
      forall m | m in t.rows[x].state.messages ensures Seen(t, x, m) {
        var e: ExportId;
        if m in s.rows[x].state.messages && m !in RemovedMessages(s, scope, x) {
          e := StayedIsSeen(s, scope, x, m);
        } else {
          e := PresentedIsSeen(s, scope, x, m);
        }
        assert (e, x, m) in t.seen;
      }
    }
  }

  lemma SeenAgainSound(s: State, scope: Scope, x: Entity, t: Sighting)
    requires Inv(s) && x in LeftRows(s, scope) && t in SeenAgain(s, scope, x)
    ensures t.1 == x && x.Conversation? && (t.0, x) in Left(s, DeletedExports(s, scope))
    ensures Restores(s, scope, Left(s, DeletedExports(s, scope)), x) && PresentedAgain(s, scope, x, t.2)
  {
    var deleted := DeletedExports(s, scope);
    var order, held := HeldExportsOf(s, scope, x), HeldOf(s, scope, x);
    var i :| 0 <= i < |held| && Replays(held, i) && t in Sightings(order[i], x, held[i]);
    var e := HeldMember(LeftExports(s, deleted), Left(s, deleted), LeftVersions(s, scope), x, i);
    assert held[i] in held;
    var cs := Restoration.Contents(ConversationVersions(held));
    assert t.2 in Restoration.Externals(cs[i].messages);
  }

  lemma DeletionKeepsSightings(s: State, scope: Scope)
    requires Inv(s)
    ensures SightingsSound(Deleted(s, scope))
  {
    var t := Deleted(s, scope);
    forall g | g in t.seen
      ensures (g.0, g.1) in t.observations && g.1 in t.rows && t.rows[g.1].ConversationRow?
      ensures g.2 in t.rows[g.1].state.messages
    {
      if g in LeftSeen(s, scope) {
        MessagesAfter(s, scope, g.1);
      } else {
        var x :| x in s.rows && x !in RemovedRows(s, scope) && g in SeenAgain(s, scope, x);
        SeenAgainSound(s, scope, x, g);
        assert RowFits(x, s.rows[x]);
        MessagesAfter(s, scope, x);
      }
    }
  }

  lemma RestoredProject(s: State, scope: Scope, x: Entity)
    requires Inv(s) && x in LeftRows(s, scope) && x.Conversation?
    requires Restores(s, scope, Left(s, DeletedExports(s, scope)), x)
    ensures
      var row := RowAfter(s, scope, x);
      row.ConversationRow? && (row.state.header.project.Some? ==>
        && Project(row.state.header.project.value) in LeftRows(s, scope)
        && LeftRows(s, scope)[Project(row.state.header.project.value)].account == s.rows[x].account
        && row.state.header.digest.Some? && row.state.header.digest.value.project == row.state.header.project)
  {
    RestoredState(s, scope, x);
    var projects := ProjectsOf(LeftRows(s, scope), s.rows[x].account);
    Restoration.RestoredProject(BaseRow(s, scope, x).state, ConversationVersions(HeldOf(s, scope, x)), projects);
    var project := RowAfter(s, scope, x).state.header.project;
    if project.Some? { ProjectIn(LeftRows(s, scope), s.rows[x].account, project.value); }
  }

  lemma ProjectIn(rows: map<Entity, Record>, account: Account, p: nat)
    requires p in ProjectsOf(rows, account)
    ensures Project(p) in rows && rows[Project(p)].account == account
  {
  }

  lemma UnrestoredProject(s: State, scope: Scope, x: Entity)
    requires Inv(s) && x in LeftRows(s, scope) && x.Conversation?
    ensures
      var row := BaseRow(s, scope, x);
      row.ConversationRow? && (row.state.header.project.Some? ==>
        && Project(row.state.header.project.value) in LeftRows(s, scope)
        && LeftRows(s, scope)[Project(row.state.header.project.value)].account == s.rows[x].account
        && row.state.header.digest.Some? && row.state.header.digest.value.project == row.state.header.project)
  {
    assert RowFits(x, s.rows[x]) && ProjectHolds(s.rows, x);
    var project := BaseRow(s, scope, x).state.header.project;
    if project.Some? { BaseKeeps(s, scope, Project(project.value)); }
  }

  lemma ProjectAfter(s: State, scope: Scope, x: Entity)
    requires Inv(s) && x in LeftRows(s, scope)
    ensures ProjectHolds(RowsAfter(s, scope), x)
  {
    RowAfterPresented(s, scope, x);
    if x.Conversation? {
      if Restores(s, scope, Left(s, DeletedExports(s, scope)), x) {
        RestoredProject(s, scope, x);
      } else {
        UnrestoredProject(s, scope, x);
      }
      var project := RowAfter(s, scope, x).state.header.project;
      if project.Some? {
        BaseKeeps(s, scope, Project(project.value));
        RowAfterPresented(s, scope, Project(project.value));
      }
    }
  }

  lemma DeletionKeeps(s: State, scope: Scope)
    requires Inv(s)
    ensures Inv(Deleted(s, scope))
  {
    DeletionKeepsRows(s, scope);
    DeletionKeepsObservations(s, scope);
    DeletionKeepsSightings(s, scope);
    DeletionKeepsMessagesSeen(s, scope);
    forall x | x in Deleted(s, scope).rows ensures ProjectHolds(Deleted(s, scope).rows, x) {
      ProjectAfter(s, scope, x);
    }
    forall v | v in Deleted(s, scope).versions ensures Named(Deleted(s, scope).observations, v.0, v.1) {
      LeftVersionNamed(s, scope, v);
    }
  }

  lemma ReceiptKeeps(s: State, e: ExportId, received: nat, account: Account)
    requires Inv(s) && e !in s.exports
    ensures Inv(s.(exports := s.exports[e := Export(received, account)]))
  {
    var t := s.(exports := s.exports[e := Export(received, account)]);
    assert Fits(t) && SnapshotsKept(t);
    assert VersionsNamed(t) && RowsPresented(t);
    assert SightingsSound(t) && MessagesSeen(t);
    assert ParentsHold(t) && ProjectsHold(t);
    assert OneAccount(t);
  }

  lemma StepKeeps(s: State, step: Step)
    requires Inv(s) && Enabled(s, step)
    ensures Inv(Apply(s, step))
  {
    match step
    case Receive(e, received, account) => ReceiptKeeps(s, e, received, account);
    case Import(e, presented) => ImportKeeps(s, e, presented);
    case Delete(scope) => DeletionKeeps(s, scope);
  }

  /**
   * At every commit of every run each observation has its snapshot, each stored version is named
   * by an observation, each record holds content that some export still there presented, and each
   * message row is observed by an export still there.
   */
  lemma {:induction false} RunKeeps(states: seq<State>, steps: seq<Step>, n: nat)
    requires Run(states, steps) && n < |states|
    ensures Inv(states[n])
  {
    if n > 0 {
      RunKeeps(states, steps, n - 1);
      StepKeeps(states[n - 1], steps[n - 1]);
    }
  }

  // ---- What an import does ---------------------------------------------------------------------------------

  /** The export presents what the row holds. */
  predicate Presents(store: State, e: ExportId, x: Entity)
    requires x in store.rows
  {
    (e, x) in store.observations && Some(store.observations[(e, x)]) == RowDigest(store.rows[x])
  }

  predicate Among(x: Entity, presented: seq<(Entity, Snapshot)>) {
    exists i :: 0 <= i < |presented| && presented[i].0 == x
  }

  /** Only the rows of presented records differ, and no row goes. */
  ghost predicate RowsEffect(
      before: map<Entity, Record>, after: map<Entity, Record>, presented: seq<(Entity, Snapshot)>) {
    && before.Keys <= after.Keys
    && forall x | !Among(x, presented) :: (x in after <==> x in before) && (x in before ==> after[x] == before[x])
  }

  /** Only the observations `e` has of presented records differ. */
  ghost predicate ObservationsEffect(
      before: Observations, after: Observations, e: ExportId, presented: seq<(Entity, Snapshot)>) {
    forall f, x | f != e || !Among(x, presented) ::
      ((f, x) in after <==> (f, x) in before) && ((f, x) in before ==> after[(f, x)] == before[(f, x)])
  }

  /** An import changes the records it presents and its own observations of them, nothing else. */
  ghost predicate ImportEffect(before: State, after: State, e: ExportId, presented: seq<(Entity, Snapshot)>) {
    && RowsEffect(before.rows, after.rows, presented)
    && ObservationsEffect(before.observations, after.observations, e, presented)
    && forall x | Among(x, presented) :: x in after.rows && Presents(after, e, x)
  }

  lemma {:induction false} ImportHasEffect(s: State, e: ExportId, presented: seq<(Entity, Snapshot)>)
    requires e in s.exports && forall p | p in presented :: SnapshotFits(p.0, p.1)
    ensures ImportEffect(s, ImportAll(s, e, presented), e, presented)
  {
    if presented != [] {
      var n := |presented| - 1;
      var front, last := presented[..n], presented[n];
      assert last in presented && forall p | p in front :: p in presented;
      ImportHasEffect(s, e, front);
      AmongStep(presented);
      assert presented == front + [last];
      LastObserved(s, e, presented);
      OneEffect(s, ImportAll(s, e, front), ImportAll(s, e, presented), e, front, last);
    }
  }

  lemma AmongStep(presented: seq<(Entity, Snapshot)>)
    requires presented != []
    ensures forall x :: Among(x, presented) <==>
              (Among(x, presented[..|presented| - 1]) || x == presented[|presented| - 1].0)
  {
    var n := |presented| - 1;
    assert presented[n].0 == presented[n].0;
    forall x | Among(x, presented[..n]) ensures Among(x, presented) {
      var i :| 0 <= i < n && presented[..n][i].0 == x;
      assert presented[i].0 == x;
    }
    forall x | Among(x, presented) && x != presented[n].0 ensures Among(x, presented[..n]) {
      var i :| 0 <= i < |presented| && presented[i].0 == x;
      assert presented[..n][i].0 == x;
    }
  }

  lemma OneRowsEffect(
      before: map<Entity, Record>, mid: map<Entity, Record>, account: Account,
      front: seq<(Entity, Snapshot)>, last: (Entity, Snapshot))
    requires RowsEffect(before, mid, front) && SnapshotFits(last.0, last.1)
    requires forall x :: Among(x, front + [last]) <==> Among(x, front) || x == last.0
    ensures RowsEffect(before, Written(mid, account, last.0, last.1), front + [last])
  {
    WrittenDigest(mid, account, last.0, last.1);
  }

  lemma OneEffect(s: State, mid: State, t: State, e: ExportId, front: seq<(Entity, Snapshot)>, last: (Entity, Snapshot))
    requires e in mid.exports && SnapshotFits(last.0, last.1) && ImportEffect(s, mid, e, front)
    requires forall x :: Among(x, front + [last]) <==> Among(x, front) || x == last.0
    requires t.rows == Written(mid.rows, mid.exports[e].account, last.0, last.1)
    requires t.observations == mid.observations[(e, last.0) := DigestOf(last.1)]
    ensures ImportEffect(s, t, e, front + [last])
  {
    OneRowsEffect(s.rows, mid.rows, mid.exports[e].account, front, last);
    WrittenDigest(mid.rows, mid.exports[e].account, last.0, last.1);
    forall x | Among(x, front + [last]) ensures x in t.rows && Presents(t, e, x) {
      assert x != last.0 ==> Presents(mid, e, x);
    }
  }

  lemma ImportOneObserves(s: State, e: ExportId, x: Entity, snapshot: Snapshot)
    requires e in s.exports
    ensures
      var t := ImportOne(s, e, x, snapshot);
      && t.observations == s.observations[(e, x) := DigestOf(snapshot)]
      && t.rows == Written(s.rows, s.exports[e].account, x, snapshot) && t.exports == s.exports
      && t.seen == s.seen + Sightings(e, x, snapshot)
  {
  }

  lemma LastObserved(s: State, e: ExportId, presented: seq<(Entity, Snapshot)>)
    requires e in s.exports && presented != []
    ensures
      var n := |presented| - 1;
      var mid, after := ImportAll(s, e, presented[..n]), ImportAll(s, e, presented);
      && after.observations == mid.observations[(e, presented[n].0) := DigestOf(presented[n].1)]
      && after.rows == Written(mid.rows, s.exports[e].account, presented[n].0, presented[n].1)
  {
    var n := |presented| - 1;
    ImportOneObserves(ImportAll(s, e, presented[..n]), e, presented[n].0, presented[n].1);
  }

  /** The version an export presents of a record is the last one it presented. */
  lemma {:induction false} LastPresentedStays(s: State, e: ExportId, presented: seq<(Entity, Snapshot)>, k: nat)
    requires e in s.exports && k < |presented|
    requires forall j | k < j < |presented| :: presented[j].0 != presented[k].0
    ensures (e, presented[k].0) in ImportAll(s, e, presented).observations
    ensures ImportAll(s, e, presented).observations[(e, presented[k].0)] == DigestOf(presented[k].1)
  {
    var n := |presented| - 1;
    LastObserved(s, e, presented);
    if k < n {
      var front := presented[..n];
      assert forall j | 0 <= j < n :: front[j] == presented[j];
      LastPresentedStays(s, e, front, k);
      assert presented[n].0 != presented[k].0;
    }
  }

  /** The last position of a record in what is presented. */
  lemma {:induction false} LastPosition(presented: seq<(Entity, Snapshot)>, x: Entity) returns (k: nat)
    requires Among(x, presented)
    ensures k < |presented| && presented[k].0 == x && forall j | k < j < |presented| :: presented[j].0 != x
  {
    var n := |presented| - 1;
    if presented[n].0 == x {
      k := n;
    } else {
      var i :| 0 <= i < |presented| && presented[i].0 == x;
      assert presented[..n][i].0 == x;
      k := LastPosition(presented[..n], x);
    }
  }

  // ---- What a deletion does to the survivors -----------------------------------------------------------

  lemma OthersUnobserved(s: State, deleted: set<ExportId>, x: Entity)
    requires Inv(s) && x in s.rows && deleted <= s.exports.Keys
    requires forall e | e in deleted :: s.exports[e].account != s.rows[x].account
    ensures !ObservedBy(s, deleted, x)
  {
  }

  lemma OtherRowUntouched(s: State, scope: Scope, x: Entity)
    requires Inv(s) && x in s.rows && s.rows[x].account !in LockedAccounts(s, scope)
    requires scope.OfAccount? ==> s.rows[x].account != scope.account
    ensures x in LeftRows(s, scope) && RowAfter(s, scope, x) == s.rows[x]
  {
    OthersUnobserved(s, DeletedExports(s, scope), x);
    if s.rows[x].ConversationRow? {
      UnobservedLosesNothing(s, scope, x);
      assert ProjectHolds(s.rows, x);
      var project := s.rows[x].state.header.project;
      if project.Some? { OtherProjectStays(s, scope, Project(project.value)); }
      assert Unlinked(s.rows[x].state, RemovedRows(s, scope)) == s.rows[x].state;
      WithoutNothing(s.rows[x].state);
    }
    assert BaseRow(s, scope, x) == s.rows[x];
  }

  lemma WithoutNothing(state: Restoration.State)
    ensures Restoration.Without(state, {}) == state
  {
  }

  lemma OtherProjectStays(s: State, scope: Scope, p: Entity)
    requires Inv(s) && p in s.rows && s.rows[p].account !in LockedAccounts(s, scope)
    requires scope.OfAccount? ==> s.rows[p].account != scope.account
    ensures p !in RemovedRows(s, scope)
  {
    OthersUnobserved(s, DeletedExports(s, scope), p);
  }

  /** No row and no version of another account changes. */
  lemma OtherAccountsUntouched(s: State, scope: Scope, x: Entity, d: Digest)
    requires Inv(s) && x in s.rows && s.rows[x].account !in LockedAccounts(s, scope)
    requires scope.OfAccount? ==> s.rows[x].account != scope.account
    ensures x in Deleted(s, scope).rows && Deleted(s, scope).rows[x] == s.rows[x]
    ensures (x, d) in Deleted(s, scope).versions <==> (x, d) in s.versions
    ensures (x, d) in s.versions ==> Deleted(s, scope).versions[(x, d)] == s.versions[(x, d)]
  {
    OtherRowUntouched(s, scope, x);
    assert x !in RemovedRows(s, scope);
    assert (x, d) in LeftVersions(s, scope) <==> (x, d) in s.versions;
  }

  /** `held` lists versions the exports left present of `x`, and one for each of those exports. */
  ghost predicate Retained(left: Observations, x: Entity, held: seq<Restoration.Version>) {
    && (forall v | v in held :: Named(left, x, ConversationDigest(v.content)))
    && (forall e | (e, x) in left :: exists v :: v in held && ConversationDigest(v.content) == left[(e, x)])
  }

  /** `after` is what importing only `held` gives, as far as an import rewrites rows. */
  ghost predicate AsImported(after: Restoration.State, held: seq<Restoration.Version>, projects: set<nat>) {
    var clean := Restoration.ImportedAll(Restoration.NOTHING, held, projects);
    && after.parts == clean.parts
    && after.header.(parser := "") == clean.header.(parser := "")
    && forall m | m in clean.messages ::
         && m in after.messages
         && after.messages[m].role == clean.messages[m].role && after.messages[m].model == clean.messages[m].model
  }

  /**
   * A kept conversation a deleted export observed ends with the parts, the header and, for each
   * message the retained versions present, the role and the model of an import of exactly those
   * versions, in the order the exports were received.
   */
  lemma SurvivorIsReplayed(s: State, scope: Scope, x: Entity)
    requires Inv(s) && x.Conversation? && x in Deleted(s, scope).rows
    requires ObservedBy(s, DeletedExports(s, scope), x)
    ensures Deleted(s, scope).rows[x].ConversationRow?
    ensures
      var held := ConversationVersions(HeldOf(s, scope, x));
      && held != [] && Retained(Deleted(s, scope).observations, x, held)
      && AsImported(Deleted(s, scope).rows[x].state, held, ProjectsOf(LeftRows(s, scope), s.rows[x].account))
  {
    assert x in LeftRows(s, scope) && Deleted(s, scope).rows[x] == RowAfter(s, scope, x);
    HeldIsRetained(s, scope, x);
    SurvivorRestores(s, scope, x);
    RestoredState(s, scope, x);
    RestoredAsImported(BaseRow(s, scope, x).state, ConversationVersions(HeldOf(s, scope, x)),
                       ProjectsOf(LeftRows(s, scope), s.rows[x].account));
  }

  lemma SurvivorRestores(s: State, scope: Scope, x: Entity)
    requires Inv(s) && x.Conversation? && x in LeftRows(s, scope) && ObservedBy(s, DeletedExports(s, scope), x)
    ensures Restores(s, scope, Left(s, DeletedExports(s, scope)), x)
  {
    var e := KeptIsObserved(s, scope, x);
    assert (e, x) in s.observations && e !in DeletedExports(s, scope);
    assert ObservedBeside(s, DeletedExports(s, scope), x);
  }

  lemma RestoredAsImported(before: Restoration.State, held: seq<Restoration.Version>, projects: set<nat>)
    requires held != []
    ensures AsImported(Restoration.Restored(before, held, projects), held, projects)
  {
    Restoration.RestorationIsImportOfRetained(before, held, projects);
    var after := Restoration.Restored(before, held, projects);
    var clean := Restoration.ImportedAll(Restoration.NOTHING, held, projects);
    forall m | m in clean.messages
      ensures m in after.messages && after.messages[m].role == clean.messages[m].role
          && after.messages[m].model == clean.messages[m].model
    {
      assert Restoration.AgreeAt(before, after, clean, m);
    }
  }

  lemma HeldIsNamed(s: State, scope: Scope, x: Entity, i: nat) returns (e: ExportId)
    requires Fits(s) && i < |HeldOf(s, scope, x)|
    ensures (e, x) in Left(s, DeletedExports(s, scope))
    ensures Left(s, DeletedExports(s, scope))[(e, x)] == DigestOf(HeldOf(s, scope, x)[i])
  {
    var deleted := DeletedExports(s, scope);
    e := HeldMember(LeftExports(s, deleted), Left(s, deleted), LeftVersions(s, scope), x, i);
  }

  lemma LeftIsHeld(s: State, scope: Scope, x: Entity, e: ExportId) returns (i: nat)
    requires Fits(s) && SnapshotsKept(s) && OneAccount(s)
    requires x in LeftRows(s, scope) && (e, x) in Left(s, DeletedExports(s, scope))
    ensures i < |HeldOf(s, scope, x)|
    ensures DigestOf(HeldOf(s, scope, x)[i]) == Left(s, DeletedExports(s, scope))[(e, x)]
  {
    var deleted := DeletedExports(s, scope);
    assert (e, x) in s.observations && (x, s.observations[(e, x)]) in LeftVersions(s, scope);
    i := HeldHas(LeftExports(s, deleted), Left(s, deleted), LeftVersions(s, scope), x, e);
  }

  lemma HeldIsRetained(s: State, scope: Scope, x: Entity)
    requires Fits(s) && SnapshotsKept(s) && OneAccount(s) && x.Conversation? && x in LeftRows(s, scope)
    ensures Retained(Left(s, DeletedExports(s, scope)), x, ConversationVersions(HeldOf(s, scope, x)))
  {
    var left, held := Left(s, DeletedExports(s, scope)), ConversationVersions(HeldOf(s, scope, x));
    forall v | v in held ensures Named(left, x, ConversationDigest(v.content)) {
      var i :| 0 <= i < |held| && held[i] == v;
      var e := HeldIsNamed(s, scope, x, i);
      assert HeldOf(s, scope, x)[i] in HeldOf(s, scope, x);
    }
    forall e | (e, x) in left ensures exists v :: v in held && ConversationDigest(v.content) == left[(e, x)] {
      var i := LeftIsHeld(s, scope, x, e);
      assert HeldOf(s, scope, x)[i] in HeldOf(s, scope, x);
      assert held[i] in held;
    }
  }

  // ---- What a kept conversation holds --------------------------------------------------------------------

  lemma StillNamed(s: State, deleted: set<ExportId>, x: Entity)
    requires RowsPresented(s) && x in s.rows && !ObservedBy(s, deleted, x)
    ensures Named(Left(s, deleted), x, RowDigest(s.rows[x]).value)
  {
    var e :| (e, x) in s.observations && s.observations[(e, x)] == RowDigest(s.rows[x]).value;
    assert (e, x) in Left(s, deleted);
  }

  /** A kept record no deleted export observed changes in one way: a removed project is cleared from it. */
  lemma UnobservedRow(s: State, scope: Scope, x: Entity)
    requires Inv(s) && x in LeftRows(s, scope) && !ObservedBy(s, DeletedExports(s, scope), x)
    ensures x.Project? ==> RowAfter(s, scope, x) == s.rows[x]
    ensures x.Conversation? ==>
              && s.rows[x].ConversationRow?
              && RowAfter(s, scope, x)
                 == ConversationRow(s.rows[x].account, Unlinked(s.rows[x].state, RemovedRows(s, scope)))
  {
    assert RowFits(x, s.rows[x]);
    StillNamed(s, DeletedExports(s, scope), x);
    assert !Restores(s, scope, Left(s, DeletedExports(s, scope)), x);
    if x.Conversation? {
      UnobservedLosesNothing(s, scope, x);
      WithoutNothing(Unlinked(s.rows[x].state, RemovedRows(s, scope)));
    }
  }

  /**
   * The messages of a kept conversation after a deletion: unchanged when no deleted export observed
   * it; otherwise those that were there, without the ones only deleted exports observed and all below
   * them, and those the versions left present. Each is observed by an export left.
   */
  lemma KeptMessages(s: State, scope: Scope, x: Entity)
    requires Inv(s) && x.Conversation? && x in Deleted(s, scope).rows
    ensures s.rows[x].ConversationRow? && Deleted(s, scope).rows[x].ConversationRow?
    ensures
      var before, after := s.rows[x].state.messages, Deleted(s, scope).rows[x].state.messages;
      && (!ObservedBy(s, DeletedExports(s, scope), x) ==> after == before)
      && (ObservedBy(s, DeletedExports(s, scope), x) ==>
            forall m :: m in after <==>
              (m in before && m !in RemovedMessages(s, scope, x)) || PresentedAgain(s, scope, x, m))
      && (forall m | m in after :: Seen(Deleted(s, scope), x, m))
  {
    assert x in LeftRows(s, scope) && Deleted(s, scope).rows[x] == RowAfter(s, scope, x);
    KeptMessageRows(s, scope, x);
    DeletionKeepsMessagesSeen(s, scope);
  }

  lemma KeptMessageRows(s: State, scope: Scope, x: Entity)
    requires Inv(s) && x.Conversation? && x in LeftRows(s, scope)
    ensures s.rows[x].ConversationRow? && RowAfter(s, scope, x).ConversationRow?
    ensures
      var before, after := s.rows[x].state.messages, RowAfter(s, scope, x).state.messages;
      && (!ObservedBy(s, DeletedExports(s, scope), x) ==> after == before)
      && (ObservedBy(s, DeletedExports(s, scope), x) ==>
            forall m :: m in after <==>
              (m in before && m !in RemovedMessages(s, scope, x)) || PresentedAgain(s, scope, x, m))
  {
    assert RowFits(x, s.rows[x]);
    if ObservedBy(s, DeletedExports(s, scope), x) {
      MessagesAfter(s, scope, x);
      SurvivorRestores(s, scope, x);
    } else {
      UnobservedRow(s, scope, x);
    }
  }

  /** The versions a deletion writes a conversation again from. */
  ghost function HeldVersions(s: State, scope: Scope, x: Entity): seq<Restoration.Version>
    requires Fits(s) && x.Conversation?
  {
    ConversationVersions(HeldOf(s, scope, x))
  }

  /** The rows of a kept conversation a deleted export observed, from its rows before the deletion. */
  lemma SurvivorState(s: State, scope: Scope, x: Entity)
    requires Inv(s) && x.Conversation? && x in Deleted(s, scope).rows && ObservedBy(s, DeletedExports(s, scope), x)
    ensures s.rows[x].ConversationRow? && HeldVersions(s, scope, x) != []
    ensures Deleted(s, scope).rows[x] == ConversationRow(s.rows[x].account,
              Restoration.Restored(
                Restoration.Without(Unlinked(s.rows[x].state, RemovedRows(s, scope)), RemovedMessages(s, scope, x)),
                HeldVersions(s, scope, x), ProjectsOf(LeftRows(s, scope), s.rows[x].account)))
  {
    assert x in LeftRows(s, scope) && Deleted(s, scope).rows[x] == RowAfter(s, scope, x);
    SurvivorRestores(s, scope, x);
    RestoredState(s, scope, x);
  }

  /** What an import of only those versions gives. */
  ghost function CleanImport(s: State, scope: Scope, x: Entity): Restoration.State
    requires Fits(s) && x.Conversation? && x in s.rows
  {
    Restoration.ImportedAll(Restoration.NOTHING, HeldVersions(s, scope, x), ProjectsOf(LeftRows(s, scope), s.rows[x].account))
  }

  /** The deletion leaves the row of the message where it was. */
  ghost predicate MessageStays(s: State, scope: Scope, x: Entity, m: Restoration.ExternalId)
    requires x in s.rows && s.rows[x].ConversationRow?
  {
    m in s.rows[x].state.messages && m !in RemovedMessages(s, scope, x)
  }

  /**
   * In terms of the rows before the deletion: a message the versions left present ends with the
   * parent an import of only those versions gives, unless its row stays, had a parent, and none of
   * those versions links it.
   */
  lemma ParentRestoredIff(s: State, scope: Scope, x: Entity, m: Restoration.ExternalId)
    requires Inv(s) && x.Conversation? && x in Deleted(s, scope).rows && ObservedBy(s, DeletedExports(s, scope), x)
    requires PresentedAgain(s, scope, x, m)
    ensures s.rows[x].ConversationRow? && Deleted(s, scope).rows[x].ConversationRow?
    ensures m in Deleted(s, scope).rows[x].state.messages && m in CleanImport(s, scope, x).messages
    ensures
      Deleted(s, scope).rows[x].state.messages[m].parent == CleanImport(s, scope, x).messages[m].parent
      <==> || !MessageStays(s, scope, x, m) || s.rows[x].state.messages[m].parent.None?
           || (exists v :: v in HeldVersions(s, scope, x) && Restoration.LinkIn(v.content, m).Some?)
  {
    SurvivorState(s, scope, x);
    var held := HeldVersions(s, scope, x);
    Restoration.ParentRestoredIff(Unlinked(s.rows[x].state, RemovedRows(s, scope)), RemovedMessages(s, scope, x), held,
                                  ProjectsOf(LeftRows(s, scope), s.rows[x].account), m);
    SomeLinks(held, m);
  }

  lemma SomeLinks(held: seq<Restoration.Version>, m: Restoration.ExternalId)
    ensures (exists i :: 0 <= i < |held| && Restoration.LinkIn(held[i].content, m).Some?)
            <==> exists v :: v in held && Restoration.LinkIn(v.content, m).Some?
  {
    if v :| v in held && Restoration.LinkIn(v.content, m).Some? {
      var i :| 0 <= i < |held| && held[i] == v;
    }
    if i :| 0 <= i < |held| && Restoration.LinkIn(held[i].content, m).Some? {
      assert held[i] in held;
    }
  }

  /**
   * Likewise for the ordinal and the timestamp: they are the imported ones unless the row stays with
   * other ones than the first of those versions that presents the message gives.
   */
  lemma PlaceRestoredIff(s: State, scope: Scope, x: Entity, m: Restoration.ExternalId)
    requires Inv(s) && x.Conversation? && x in Deleted(s, scope).rows && ObservedBy(s, DeletedExports(s, scope), x)
    requires PresentedAgain(s, scope, x, m)
    ensures s.rows[x].ConversationRow? && Deleted(s, scope).rows[x].ConversationRow?
    ensures m in Deleted(s, scope).rows[x].state.messages && m in CleanImport(s, scope, x).messages
    ensures
      Restoration.PlaceOf(Deleted(s, scope).rows[x].state.messages[m])
      == Restoration.PlaceOf(CleanImport(s, scope, x).messages[m])
      <==> || !MessageStays(s, scope, x, m)
           || Some(Restoration.PlaceOf(s.rows[x].state.messages[m]))
              == Restoration.FirstPlace(Restoration.Contents(HeldVersions(s, scope, x)), m)
  {
    SurvivorState(s, scope, x);
    Restoration.PlaceRestoredIff(Unlinked(s.rows[x].state, RemovedRows(s, scope)), RemovedMessages(s, scope, x),
                                 HeldVersions(s, scope, x), ProjectsOf(LeftRows(s, scope), s.rows[x].account), m);
  }

  // ---- A history where a parent, an ordinal and a timestamp stay -------------------------------------------

  lemma ExtendRun(states: seq<State>, steps: seq<Step>, step: Step) returns (more: seq<State>, moreSteps: seq<Step>)
    requires Run(states, steps) && Enabled(states[|steps|], step)
    ensures Run(more, moreSteps) && |moreSteps| == |steps| + 1
    ensures more[|moreSteps|] == Apply(states[|steps|], step)
  {
    more, moreSteps := states + [Apply(states[|steps|], step)], steps + [step];
    assert more[..|states|] == states && moreSteps[..|steps|] == steps;
    forall i | 0 <= i < |moreSteps|
      ensures Enabled(more[i], moreSteps[i]) && more[i + 1] == Apply(more[i], moreSteps[i])
    {
      if i < |steps| {
        assert more[i] == states[i] && more[i + 1] == states[i + 1] && moreSteps[i] == steps[i];
      }
    }
  }

  lemma ImportSingle(s: State, e: ExportId, x: Entity, snapshot: Snapshot)
    requires e in s.exports
    ensures ImportAll(s, e, [(x, snapshot)]) == ImportOne(s, e, x, snapshot)
  {
    assert [(x, snapshot)][..0] == [];
  }

  function Line(external: nat, parent: Option<nat>): Restoration.Message {
    Restoration.Message(external, parent, "user", None, None, [])
  }

  /** Message 2 stands alone and first, or under message 1 and after it. */
  function Apart(): Restoration.Version {
    Restoration.Version(Restoration.Conversation(None, None, None, [Line(2, None), Line(1, None)]), "parser")
  }

  function Threaded(): Restoration.Version {
    Restoration.Version(Restoration.Conversation(None, None, None, [Line(1, None), Line(2, Some(1))]), "parser")
  }

  /** Two exports received, then each presents its version of the one conversation. */
  lemma SecondImport(x: Entity, one: Restoration.Version, two: Restoration.Version)
    returns (states: seq<State>, steps: seq<Step>)
    requires x.Conversation?
    ensures Run(states, steps)
    ensures
      var s := states[|steps|];
      && 1 in s.exports && 2 in s.exports
      && s.rows == map[x := ConversationRow(7,
           Restoration.Imported(Restoration.Imported(Restoration.NOTHING, one, {}), two, {}))]
      && s.observations == map[(1, x) := ConversationDigest(one.content), (2, x) := ConversationDigest(two.content)]
      && s.seen == Sightings(1, x, OfConversation(one)) + Sightings(2, x, OfConversation(two))
  {
    states, steps := FirstImport(x, one);
    var t := states[|steps|];
    states, steps := ExtendRun(states, steps, Import(2, [(x, OfConversation(two))]));
    OnlyConversation(t, 2, x, two, Restoration.Imported(Restoration.NOTHING, one, {}));
  }

  lemma BothReceived() returns (states: seq<State>, steps: seq<Step>)
    ensures Run(states, steps)
    ensures states[|steps|] == State(map[1 := Export(1, 7), 2 := Export(2, 7)], map[], map[], map[], {})
  {
    states, steps := [INITIAL], [];
    states, steps := ExtendRun(states, steps, Receive(1, 1, 7));
    states, steps := ExtendRun(states, steps, Receive(2, 2, 7));
  }

  lemma FirstImport(x: Entity, one: Restoration.Version) returns (states: seq<State>, steps: seq<Step>)
    requires x.Conversation?
    ensures Run(states, steps)
    ensures
      var t := states[|steps|];
      && t.exports == map[1 := Export(1, 7), 2 := Export(2, 7)]
      && t.rows == map[x := ConversationRow(7, Restoration.Imported(Restoration.NOTHING, one, {}))]
      && t.observations == map[(1, x) := ConversationDigest(one.content)]
      && t.seen == Sightings(1, x, OfConversation(one))
  {
    states, steps := BothReceived();
    var s := states[|steps|];
    states, steps := ExtendRun(states, steps, Import(1, [(x, OfConversation(one))]));
    OnlyConversation(s, 1, x, one, Restoration.NOTHING);
  }

  lemma TwoImports(x: Entity, one: Restoration.Version, two: Restoration.Version)
    returns (states: seq<State>, steps: seq<Step>)
    requires x.Conversation?
    requires Restoration.Externals(one.content.messages) == {1, 2} && Restoration.Externals(two.content.messages) == {1, 2}
    ensures Run(states, steps) && BothObserve(states[|steps|], x, one, two)
    ensures states[|steps|].rows[x].state
            == Restoration.Imported(Restoration.Imported(Restoration.NOTHING, one, {}), two, {})
  {
    states, steps := SecondImport(x, one, two);
    SightingsOf(states[|steps|], x, one, two);
  }

  /** Both exports, and only they, observe the one conversation with messages 1 and 2. */
  ghost predicate BothObserve(s: State, x: Entity, one: Restoration.Version, two: Restoration.Version) {
    && 1 in s.exports && 2 in s.exports && s.rows.Keys == {x} && s.rows[x].ConversationRow?
    && OnlyOther(s, x, 2, 1, one.content) && OnlyOther(s, x, 1, 2, two.content)
    && (1, x, 1) in s.seen && (1, x, 2) in s.seen && (2, x, 1) in s.seen && (2, x, 2) in s.seen
  }

  lemma SightingsOf(s: State, x: Entity, one: Restoration.Version, two: Restoration.Version)
    requires 1 in s.exports && 2 in s.exports && s.rows.Keys == {x} && s.rows[x].ConversationRow?
    requires s.observations == map[(1, x) := ConversationDigest(one.content), (2, x) := ConversationDigest(two.content)]
    requires s.seen == Sightings(1, x, OfConversation(one)) + Sightings(2, x, OfConversation(two))
    requires Restoration.Externals(one.content.messages) == {1, 2} && Restoration.Externals(two.content.messages) == {1, 2}
    ensures BothObserve(s, x, one, two)
  {
    assert (1, x) in s.observations && (2, x) in s.observations;
    forall e | (e, x) in s.observations ensures e == 1 || e == 2 { assert (e, x) == (1, x) || (e, x) == (2, x); }
    assert 1 in Restoration.Externals(one.content.messages) && 2 in Restoration.Externals(two.content.messages);
  }

  lemma OnlyConversation(s: State, e: ExportId, x: Entity, v: Restoration.Version, before: Restoration.State)
    requires e in s.exports && s.exports[e].account == 7 && x.Conversation?
    requires (s.rows == map[] && before == Restoration.NOTHING) || s.rows == map[x := ConversationRow(7, before)]
    ensures
      var t := ImportAll(s, e, [(x, OfConversation(v))]);
      && t.exports == s.exports && t.rows == map[x := ConversationRow(7, Restoration.Imported(before, v, {}))]
      && t.observations == s.observations[(e, x) := ConversationDigest(v.content)]
      && t.seen == s.seen + Sightings(e, x, OfConversation(v))
  {
    ImportSingle(s, e, x, OfConversation(v));
    ImportOneObserves(s, e, x, OfConversation(v));
    OnlyWritten(s.rows, x, v, before);
  }

  lemma OnlyWritten(rows: map<Entity, Record>, x: Entity, v: Restoration.Version, before: Restoration.State)
    requires x.Conversation?
    requires (rows == map[] && before == Restoration.NOTHING) || rows == map[x := ConversationRow(7, before)]
    ensures Written(rows, 7, x, OfConversation(v)) == map[x := ConversationRow(7, Restoration.Imported(before, v, {}))]
  {
    assert ProjectsOf(rows, 7) == {};
  }

  lemma ExampleMessages()
    ensures
      var state := Restoration.Imported(Restoration.Imported(Restoration.NOTHING, Apart(), {}), Threaded(), {});
      && state.messages.Keys == {1, 2} && state.messages[2].parent == Some(1) && state.messages[1].ordinal == 1
    ensures Restoration.Externals(Apart().content.messages) == {1, 2}
    ensures Restoration.Externals(Threaded().content.messages) == {1, 2}
    ensures Restoration.LinkIn(Apart().content, 2).None?
    ensures Restoration.FirstIndex(Threaded().content.messages, 1) == Some(0)
  {
    var first, second := Apart().content, Threaded().content;
    assert first.messages == [Line(2, None), Line(1, None)] && second.messages == [Line(1, None), Line(2, Some(1))];
    assert first.messages[..1] == [Line(2, None)] && first.messages[..1][..0] == [];
    assert second.messages[..1] == [Line(1, None)] && second.messages[..1][..0] == [];
    assert Line(2, None) in first.messages && Line(1, None) in first.messages;
    assert Line(1, None) in second.messages && Line(2, Some(1)) in second.messages;
    assert Restoration.Externals(first.messages) == {1, 2} && Restoration.Externals(second.messages) == {1, 2};
    assert Restoration.LastLink({1, 2}, first.messages[..1], 2).None?;
    var s := Restoration.Persist(Restoration.NOTHING, first);
    Restoration.PersistKeepsParents(Restoration.NOTHING, first);
    Restoration.PersistKeepsParents(s, second);
    Restoration.PersistMeaning(s, second, 2);
    Restoration.PersistPlace(Restoration.NOTHING, first, 1);
    Restoration.PersistPlace(s, second, 1);
  }

  /**
   * A parent link that only a deleted export wrote stays. Both exports present messages 1 and 2, the
   * retained one apart, the deleted one with 2 under 1.
   */
  lemma DeletedParentStays() returns (states: seq<State>, steps: seq<Step>, scope: Scope, x: Entity)
    ensures Run(states, steps) && Inv(states[|steps|]) && x.Conversation?
    ensures
      var s := states[|steps|];
      && x in Deleted(s, scope).rows && Deleted(s, scope).rows[x].ConversationRow? && x in s.rows
      && 2 in Deleted(s, scope).rows[x].state.messages && 2 in CleanImport(s, scope, x).messages
      && Deleted(s, scope).rows[x].state.messages[2].parent != CleanImport(s, scope, x).messages[2].parent
  {
    x, scope := Conversation(0), OfExports({2});
    ExampleMessages();
    states, steps := TwoImports(x, Apart(), Threaded());
    RunKeeps(states, steps, |steps|);
    ExampleParent(states[|steps|], x, 2, 1, Apart().content);
  }

  lemma ExampleParent(s: State, x: Entity, gone: ExportId, left: ExportId, content: Restoration.Conversation)
    requires BothObserved(s, x, gone, left, content) && Restoration.Externals(content.messages) == {1, 2}
    requires s.rows[x].state.messages[2].parent.Some? && Restoration.LinkIn(content, 2).None?
    ensures
      var scope := OfExports({gone});
      && x in Deleted(s, scope).rows && Deleted(s, scope).rows[x].ConversationRow?
      && 2 in Deleted(s, scope).rows[x].state.messages && 2 in CleanImport(s, scope, x).messages
      && Deleted(s, scope).rows[x].state.messages[2].parent != CleanImport(s, scope, x).messages[2].parent
  {
    ExampleKept(s, x, gone, left, content);
    assert PresentedAgain(s, OfExports({gone}), x, 2) && MessageStays(s, OfExports({gone}), x, 2);
    ParentRestoredIff(s, OfExports({gone}), x, 2);
  }

  /** An ordinal that only a deleted export gave stays: now the export that has 2 under 1 is the one left. */
  lemma DeletedPlaceStays() returns (states: seq<State>, steps: seq<Step>, scope: Scope, x: Entity)
    ensures Run(states, steps) && Inv(states[|steps|]) && x.Conversation?
    ensures
      var s := states[|steps|];
      && x in Deleted(s, scope).rows && Deleted(s, scope).rows[x].ConversationRow? && x in s.rows
      && 1 in Deleted(s, scope).rows[x].state.messages && 1 in CleanImport(s, scope, x).messages
      && Restoration.PlaceOf(Deleted(s, scope).rows[x].state.messages[1])
         != Restoration.PlaceOf(CleanImport(s, scope, x).messages[1])
  {
    x, scope := Conversation(0), OfExports({1});
    ExampleMessages();
    states, steps := TwoImports(x, Apart(), Threaded());
    RunKeeps(states, steps, |steps|);
    ExamplePlace(states[|steps|], x, 1, 2, Threaded().content);
  }

  lemma ExamplePlace(s: State, x: Entity, gone: ExportId, left: ExportId, content: Restoration.Conversation)
    requires BothObserved(s, x, gone, left, content) && Restoration.Externals(content.messages) == {1, 2}
    requires s.rows[x].state.messages[1].ordinal == 1 && Restoration.FirstIndex(content.messages, 1) == Some(0)
    ensures
      var scope := OfExports({gone});
      && x in Deleted(s, scope).rows && Deleted(s, scope).rows[x].ConversationRow?
      && 1 in Deleted(s, scope).rows[x].state.messages && 1 in CleanImport(s, scope, x).messages
      && Restoration.PlaceOf(Deleted(s, scope).rows[x].state.messages[1])
         != Restoration.PlaceOf(CleanImport(s, scope, x).messages[1])
  {
    var scope := OfExports({gone});
    ExampleKept(s, x, gone, left, content);
    assert PresentedAgain(s, scope, x, 1) && MessageStays(s, scope, x, 1);
    var held := HeldVersions(s, scope, x);
    ExampleFirstPlace(held, content);
    PlaceRestoredIff(s, scope, x, 1);
  }

  lemma ExampleFirstPlace(held: seq<Restoration.Version>, content: Restoration.Conversation)
    requires held != [] && (forall v | v in held :: v.content == content) && 1 in Restoration.Externals(content.messages)
    requires Restoration.FirstIndex(content.messages, 1) == Some(0)
    ensures Restoration.FirstPlace(Restoration.Contents(held), 1).Some?
    ensures Restoration.FirstPlace(Restoration.Contents(held), 1).value.0 == 0
  {
    assert forall i | 0 <= i < |held| :: held[i] in held;
    Restoration.FirstPlaceSame(Restoration.Contents(held), content, 1);
  }

  /** One conversation that both exports observe with messages 1 and 2; `left` presents `content`. */
  ghost predicate BothObserved(s: State, x: Entity, gone: ExportId, left: ExportId, content: Restoration.Conversation) {
    && Inv(s) && x.Conversation? && gone != left && gone in s.exports && s.rows.Keys == {x}
    && (gone, x) in s.observations && OnlyOther(s, x, gone, left, content)
    && s.rows[x].ConversationRow? && s.rows[x].state.messages.Keys == {1, 2}
    && (left, x, 1) in s.seen && (left, x, 2) in s.seen
  }

  /** Beside `gone`, `left` alone observes the conversation, and presents `content`. */
  ghost predicate OnlyOther(s: State, x: Entity, gone: ExportId, left: ExportId, content: Restoration.Conversation) {
    && (left, x) in s.observations && s.observations[(left, x)] == ConversationDigest(content)
    && forall e | (e, x) in s.observations :: e == gone || e == left
  }

  lemma ExampleKept(s: State, x: Entity, gone: ExportId, left: ExportId, content: Restoration.Conversation)
    requires BothObserved(s, x, gone, left, content) && Restoration.Externals(content.messages) == {1, 2}
    ensures
      var scope := OfExports({gone});
      && x in Deleted(s, scope).rows && ObservedBy(s, DeletedExports(s, scope), x)
      && (forall m | m in {1, 2} :: PresentedAgain(s, scope, x, m) && MessageStays(s, scope, x, m))
      && HeldVersions(s, scope, x) != [] && forall v | v in HeldVersions(s, scope, x) :: v.content == content
  {
    var scope := OfExports({gone});
    ExampleStays(s, x, gone, left);
    ExampleHeld(s, x, gone, left, content);
  }

  /** Neither the conversation nor its messages go with `gone`, since `left` observes them too. */
  lemma ExampleStays(s: State, x: Entity, gone: ExportId, left: ExportId)
    requires gone != left && gone in s.exports && (gone, x) in s.observations && (left, x) in s.observations
    requires x in s.rows && s.rows[x].ConversationRow? && s.rows[x].state.messages.Keys == {1, 2}
    requires (left, x, 1) in s.seen && (left, x, 2) in s.seen
    ensures
      var scope := OfExports({gone});
      && DeletedExports(s, scope) == {gone} && ObservedBy(s, {gone}, x) && x in LeftRows(s, scope)
      && MessageStays(s, scope, x, 1) && MessageStays(s, scope, x, 2)
  {
    var scope := OfExports({gone});
    assert DeletedExports(s, scope) == {gone};
    assert ObservedBeside(s, {gone}, x) && ObservedBy(s, {gone}, x);
    assert SeenBeside(s, {gone}, x, 1) && SeenBeside(s, {gone}, x, 2);
    assert UnseenMessages(s, {gone}, x) == {};
    Restoration.NothingBelowNothing(s.rows[x].state.messages);
  }

  lemma ExampleHeld(s: State, x: Entity, gone: ExportId, left: ExportId, content: Restoration.Conversation)
    requires Fits(s) && SnapshotsKept(s) && OneAccount(s) && x.Conversation? && gone != left
    requires x in LeftRows(s, OfExports({gone})) && DeletedExports(s, OfExports({gone})) == {gone}
    requires OnlyOther(s, x, gone, left, content)
    ensures
      var scope := OfExports({gone});
      && (forall m | m in Restoration.Externals(content.messages) :: PresentedAgain(s, scope, x, m))
      && HeldVersions(s, scope, x) != [] && forall v | v in HeldVersions(s, scope, x) :: v.content == content
  {
    var scope := OfExports({gone});
    var held, versions := HeldOf(s, scope, x), HeldVersions(s, scope, x);
    forall i | 0 <= i < |held| ensures versions[i].content == content {
      var e := HeldIsNamed(s, scope, x, i);
      assert held[i] in held;
    }
    assert (left, x) in Left(s, {gone});
    var i := LeftIsHeld(s, scope, x, left);
    AllSame(versions, content);
  }

  lemma AllSame(versions: seq<Restoration.Version>, content: Restoration.Conversation)
    requires versions != [] && forall i | 0 <= i < |versions| :: versions[i].content == content
    ensures forall m | m in Restoration.Externals(content.messages) ::
              Restoration.PresentedIn(Restoration.Contents(versions), m)
    ensures forall v | v in versions :: v.content == content
  {
    assert Restoration.Contents(versions)[0] == content;
  }

  // ---- The tables ----------------------------------------------------------------------------------------

  predicate NamedIn(observations: Observations, x: Entity, d: Digest) {
    exists k | k in observations :: k.1 == x && observations[k] == d
  }

  predicate StaleIn(observations: Observations, x: Entity, row: Record) {
    && RowDigest(row).Some?
    && (exists k | k in observations :: k.1 == x)
    && !NamedIn(observations, x, RowDigest(row).value)
  }

  lemma NamedInIsNamed(observations: Observations, x: Entity, d: Digest)
    ensures NamedIn(observations, x, d) <==> Named(observations, x, d)
  {
    if NamedIn(observations, x, d) {
      var k :| k in observations && k.1 == x && observations[k] == d;
      assert k == (k.0, x);
    }
    if Named(observations, x, d) {
      var e :| (e, x) in observations && observations[(e, x)] == d;
      assert (e, x).1 == x;
    }
  }

  lemma StaleInIsStale(observations: Observations, x: Entity, row: Record)
    ensures StaleIn(observations, x, row) <==> Stale(observations, x, row)
  {
    if RowDigest(row).Some? { NamedInIsNamed(observations, x, RowDigest(row).value); }
    if exists k :: k in observations && k.1 == x {
      var k :| k in observations && k.1 == x;
      assert k == (k.0, x);
    }
    if exists e :: (e, x) in observations {
      var e :| (e, x) in observations;
      assert (e, x).1 == x;
    }
  }

  /** `rows` with every record of `todo` written again from what is held of it. */
  function RestoredRows(s: State, todo: set<Entity>): map<Entity, Record>
    requires Fits(s)
  {
    map x | x in s.rows :: if x in todo then RestoredIn(s, x) else s.rows[x]
  }

  function RestoredIn(s: State, x: Entity): Record
    requires Fits(s) && x in s.rows
  {
    HeldFits(s.exports, s.observations, s.versions, x);
    assert RowFits(x, s.rows[x]);
    RestoredRow(s.rows[x], Held(s.exports, s.observations, s.versions, x), ProjectsOf(s.rows, s.rows[x].account))
  }

  /** The message rows that restoring `x` observes again. */
  function ResightedIn(s: State, x: Entity): set<Sighting> {
    Resighted(HeldExports(s.exports, s.observations, s.versions, x), Held(s.exports, s.observations, s.versions, x), x)
  }

  function RestoredSeen(s: State, todo: set<Entity>): set<Sighting> {
    s.seen + set x, t | x in todo && t in ResightedIn(s, x) :: t
  }

  lemma ProjectSeesNothing(s: State, x: Entity)
    requires Fits(s) && x.Project?
    ensures ResightedIn(s, x) == {}
  {
    HeldFits(s.exports, s.observations, s.versions, x);
    var held := Held(s.exports, s.observations, s.versions, x);
    assert forall i | 0 <= i < |held| :: held[i] in held;
  }

  lemma ProjectsSeeNothing(s: State, projects: set<Entity>)
    requires Fits(s) && forall x | x in projects :: x.Project?
    ensures RestoredSeen(s, projects) == s.seen
  {
    forall x | x in projects ensures ResightedIn(s, x) == {} { ProjectSeesNothing(s, x); }
  }

  lemma RestoredKeepsKind(s: State, x: Entity)
    requires Fits(s) && x in s.rows
    ensures RestoredIn(s, x).account == s.rows[x].account && RowFits(x, RestoredIn(s, x))
  {
    HeldFits(s.exports, s.observations, s.versions, x);
    assert RowFits(x, s.rows[x]);
  }

  lemma SameProjects(one: map<Entity, Record>, other: map<Entity, Record>, account: Account)
    requires one.Keys == other.Keys && forall x | x in one :: one[x].account == other[x].account
    ensures ProjectsOf(one, account) == ProjectsOf(other, account)
  {
  }

  class Tables {
    var exports: map<ExportId, Export>
    var rows: map<Entity, Record>
    var observations: Observations
    var versions: Versions
    var seen: set<Sighting>

    function Value(): State
      reads this
    {
      State(exports, rows, observations, versions, seen)
    }

    constructor ()
      ensures Value() == INITIAL
    {
      exports, rows, observations, versions, seen := map[], map[], map[], map[], {};
    }

    method Prune(x: Entity)
      modifies this`versions
      ensures versions == PrunedVersions(old(versions), observations, iset{x})
    {
      forall v: VersionKey ensures NamedIn(observations, v.0, v.1) <==> Named(observations, v.0, v.1) {
        NamedInIsNamed(observations, v.0, v.1);
      }
      versions := map v | v in versions && (v.0 == x ==> NamedIn(observations, v.0, v.1)) :: versions[v];
    }

    method Present(e: ExportId, x: Entity, snapshot: Snapshot)
      modifies this
      ensures Value() == Presented(old(Value()), e, x, snapshot)
    {
      var digest := DigestOf(snapshot);
      observations := observations[(e, x) := digest];
      if (x, digest) !in versions {
        versions := versions[(x, digest) := snapshot];
      }
      Prune(x);
    }

    /** Writes the shared row and records what the export presented and which messages it observed. */
    method ImportRecord(e: ExportId, x: Entity, snapshot: Snapshot)
      requires e in exports
      modifies this
      ensures Value() == ImportOne(old(Value()), e, x, snapshot)
    {
      rows := Written(rows, exports[e].account, x, snapshot);
      seen := seen + Sightings(e, x, snapshot);
      Present(e, x, snapshot);
    }

    /** Restores `x` when the records of `done` are already restored. */
    method RestoreOne(x: Entity, ghost before: State, ghost done: set<Entity>)
      requires Fits(before) && x in before.rows && x !in done
      requires exports == before.exports && observations == before.observations && versions == before.versions
      requires rows == RestoredRows(before, done) && seen == RestoredSeen(before, done)
      modifies this`rows, this`seen
      ensures rows == RestoredRows(before, done + {x}) && seen == RestoredSeen(before, done + {x})
    {
      PassKeepsFit(before, done);
      SameProjects(rows, before.rows, rows[x].account);
      HeldFits(exports, observations, versions, x);
      assert RowFits(x, before.rows[x]);
      var held := Held(exports, observations, versions, x);
      RestoreOneMore(before, done, x);
      SeeOneMore(before, done, x);
      rows := rows[x := RestoredRow(rows[x], held, ProjectsOf(rows, rows[x].account))];
      seen := seen + Resighted(HeldExports(exports, observations, versions, x), held, x);
    }

    method RestoreEach(todo: set<Entity>)
      requires Fits(Value()) && todo <= rows.Keys
      modifies this`rows, this`seen
      ensures rows == RestoredRows(old(Value()), todo) && seen == RestoredSeen(old(Value()), todo)
    {
      ghost var before := Value();
      ghost var done: set<Entity> := {};
      var left := todo;
      RestoredNone(before);
      while left != {}
        invariant left <= todo && done == todo - left
        invariant rows == RestoredRows(before, done) && seen == RestoredSeen(before, done)
        decreases left
      {
        var x :| x in left;
        RestoreOne(x, before, done);
        done := done + {x};
        left := left - {x};
      }
      assert done == todo;
    }

    /** The stale projects first, then the stale and the surviving conversations. */
    method RestoreRows(survivors: set<Entity>, accounts: set<Account>)
      requires Fits(Value()) && survivors <= rows.Keys
      requires forall x | x in survivors :: x.Conversation?
      modifies this`rows, this`seen
      ensures rows == RestoredRows(old(Value()), survivors + StaleRows(old(Value()), accounts))
      ensures seen == RestoredSeen(old(Value()), survivors + StaleRows(old(Value()), accounts))
    {
      ghost var before := Value();
      var projects := StaleProjects(Value(), accounts);
      RestoreEach(projects);
      ProjectsSeeNothing(before, projects);
      ghost var between := Value();
      PassKeepsFit(before, projects);
      var conversations := survivors + StaleConversations(Value(), accounts);
      RestoreEach(conversations);
      TwoPasses(before, between, projects, conversations);
      StaleInTwoPasses(before, survivors, accounts);
    }

    method PruneAccounts(accounts: set<Account>)
      modifies this`versions
      ensures versions == PrunedVersions(old(versions), observations, iset x | x in rows && rows[x].account in accounts)
    {
      forall v: VersionKey ensures NamedIn(observations, v.0, v.1) <==> Named(observations, v.0, v.1) {
        NamedInIsNamed(observations, v.0, v.1);
      }
      versions := map v | v in versions
        && (v.0 in rows && rows[v.0].account in accounts ==> NamedIn(observations, v.0, v.1)) :: versions[v];
    }

    /** Runs after the rows and the observations of the scope are gone. */
    method RestoreRetainedVersions(removed: set<Entity>, survivors: set<Entity>, accounts: set<Account>)
      requires Fits(Value()) && survivors <= rows.Keys
      requires forall x | x in survivors :: x.Conversation?
      modifies this
      ensures exports == old(exports) && observations == old(observations)
      ensures
        var cleared := old(Value()).(versions := Unremoved(old(versions), removed));
        && Fits(cleared)
        && rows == RestoredRows(cleared, survivors + StaleRows(cleared, accounts))
        && seen == RestoredSeen(cleared, survivors + StaleRows(cleared, accounts))
        && versions == PrunedVersions(cleared.versions, observations, iset x | x in rows && rows[x].account in accounts)
    {
      versions := Unremoved(versions, removed);
      RestoreRows(survivors, accounts);
      PruneAccounts(accounts);
    }
  }

  function Unremoved(versions: Versions, removed: set<Entity>): Versions {
    map v | v in versions && v.0 !in removed :: versions[v]
  }

  function StaleRows(s: State, accounts: set<Account>): set<Entity> {
    set x | x in s.rows && s.rows[x].account in accounts && StaleIn(s.observations, x, s.rows[x])
  }

  function StaleProjects(s: State, accounts: set<Account>): set<Entity> {
    set x | x in StaleRows(s, accounts) && x.Project?
  }

  function StaleConversations(s: State, accounts: set<Account>): set<Entity> {
    set x | x in StaleRows(s, accounts) && x.Conversation?
  }

  lemma RestoredNone(s: State)
    requires Fits(s)
    ensures RestoredRows(s, {}) == s.rows && RestoredSeen(s, {}) == s.seen
  {
  }

  lemma PassKeepsFit(s: State, todo: set<Entity>)
    requires Fits(s)
    ensures Fits(s.(rows := RestoredRows(s, todo)))
    ensures forall x | x in s.rows :: RestoredRows(s, todo)[x].account == s.rows[x].account
  {
    forall x | x in s.rows
      ensures RowFits(x, RestoredIn(s, x)) && RestoredIn(s, x).account == s.rows[x].account
    {
      RestoredKeepsKind(s, x);
    }
  }

  lemma ConversationsStillStale(s: State, projects: set<Entity>, accounts: set<Account>)
    requires Fits(s) && forall x | x in projects :: x.Project?
    ensures
      var between := s.(rows := RestoredRows(s, projects));
      forall x: Entity | x.Conversation? :: x in StaleRows(between, accounts) <==> x in StaleRows(s, accounts)
  {
  }

  /** The two passes together restore the survivors and every stale row. */
  lemma StaleInTwoPasses(s: State, survivors: set<Entity>, accounts: set<Account>)
    requires Fits(s)
    ensures
      var projects := StaleProjects(s, accounts);
      survivors + StaleConversations(s.(rows := RestoredRows(s, projects)), accounts) + projects
      == survivors + StaleRows(s, accounts)
  {
    ConversationsStillStale(s, StaleProjects(s, accounts), accounts);
  }

  lemma RestoreOneMore(s: State, done: set<Entity>, x: Entity)
    requires Fits(s) && x in s.rows
    ensures RestoredRows(s, done)[x := RestoredIn(s, x)] == RestoredRows(s, done + {x})
  {
  }

  lemma SeeOneMore(s: State, done: set<Entity>, x: Entity)
    ensures RestoredSeen(s, done) + ResightedIn(s, x) == RestoredSeen(s, done + {x})
  {
  }

  lemma SeenInTwoPasses(s: State, between: State, projects: set<Entity>, conversations: set<Entity>)
    requires Fits(s) && between.exports == s.exports && between.observations == s.observations
    requires between.versions == s.versions && between.seen == s.seen
    requires forall x | x in projects :: x.Project?
    ensures RestoredSeen(between, conversations) == RestoredSeen(s, conversations + projects)
  {
    ProjectsSeeNothing(s, projects);
    forall x, t | x in projects && t in ResightedIn(s, x) ensures t in s.seen { assert t in RestoredSeen(s, projects); }
    forall x ensures ResightedIn(between, x) == ResightedIn(s, x) {}
  }

  /** Restoring the projects first does not change what a conversation is restored to. */
  lemma TwoPasses(s: State, between: State, projects: set<Entity>, conversations: set<Entity>)
    requires Fits(s) && between == s.(rows := RestoredRows(s, projects)) && Fits(between)
    requires (forall x | x in projects :: x.Project?) && (forall x | x in conversations :: x.Conversation?)
    ensures RestoredRows(between, conversations) == RestoredRows(s, conversations + projects)
    ensures RestoredSeen(between, conversations) == RestoredSeen(s, conversations + projects)
  {
    SeenInTwoPasses(s, between, projects, conversations);
    forall x | x in s.rows ensures between.rows[x].account == s.rows[x].account { RestoredKeepsKind(s, x); }
    forall x | x in conversations && x in s.rows ensures RestoredIn(between, x) == RestoredIn(s, x) {
      SameProjects(between.rows, s.rows, s.rows[x].account);
      HeldFits(s.exports, s.observations, s.versions, x);
    }
  }

  /** The rows before the restoration: those of the scope are gone, with what observed them. */
  ghost function Emptied(s: State, scope: Scope): State {
    var deleted := DeletedExports(s, scope);
    State(LeftExports(s, deleted), LeftRows(s, scope), Left(s, deleted), LeftVersions(s, scope), LeftSeen(s, scope))
  }

  lemma RestoresExactly(s: State, scope: Scope, x: Entity, survivors: set<Entity>)
    requires Inv(s) && x in LeftRows(s, scope)
    requires x in survivors <==> x.Conversation? && ObservedBy(s, DeletedExports(s, scope), x)
    ensures Restores(s, scope, Left(s, DeletedExports(s, scope)), x)
            <==> x in survivors + StaleRows(Emptied(s, scope), LockedAccounts(s, scope))
  {
    BaseKeeps(s, scope, x);
    StaleInIsStale(Left(s, DeletedExports(s, scope)), x, BaseRow(s, scope, x));
    var e := KeptIsObserved(s, scope, x);
    assert (e, x) in s.observations && e !in DeletedExports(s, scope);
    assert ObservedBeside(s, DeletedExports(s, scope), x);
  }

  lemma EmptiedFits(s: State, scope: Scope)
    requires Fits(s)
    ensures Fits(Emptied(s, scope))
  {
    forall x | x in LeftRows(s, scope) ensures RowFits(x, LeftRows(s, scope)[x]) {
      BaseKeeps(s, scope, x);
      assert RowFits(x, s.rows[x]);
    }
  }

  lemma SameRestoredRow(s: State, scope: Scope, x: Entity)
    requires Inv(s) && x in LeftRows(s, scope) && Fits(Emptied(s, scope))
    ensures RowAfter(s, scope, x)
            == if Restores(s, scope, Left(s, DeletedExports(s, scope)), x)
               then RestoredIn(Emptied(s, scope), x) else BaseRow(s, scope, x)
  {
    BaseKeeps(s, scope, x);
  }

  lemma RowsMeet(s: State, scope: Scope, emptied: State, todo: set<Entity>)
    requires Fits(s) && Fits(emptied) && emptied.rows == LeftRows(s, scope)
    requires forall x | x in emptied.rows ::
               RowAfter(s, scope, x) == if x in todo then RestoredIn(emptied, x) else emptied.rows[x]
    ensures RestoredRows(emptied, todo) == RowsAfter(s, scope)
  {
  }

  lemma SeenMeet(s: State, scope: Scope, emptied: State, todo: set<Entity>)
    requires Fits(s) && emptied == Emptied(s, scope) && todo <= emptied.rows.Keys
    requires forall x | x in emptied.rows ::
               x in todo <==> Restores(s, scope, Left(s, DeletedExports(s, scope)), x)
    ensures RestoredSeen(emptied, todo) == SeenAfter(s, scope)
  {
    forall x | x in emptied.rows ensures SeenAgain(s, scope, x) == if x in todo then ResightedIn(emptied, x) else {} {}
  }

  /**
   * `RestoreRetainedVersions`, given the conversations the deletion keeps although it observed
   * them, leaves the rows and the message observations of the deletion step.
   */
  lemma RestorationMeetsDeletion(s: State, scope: Scope, survivors: set<Entity>, todo: set<Entity>)
    requires Inv(s) && survivors <= LeftRows(s, scope).Keys
    requires forall x | x in LeftRows(s, scope) ::
               x in survivors <==> x.Conversation? && ObservedBy(s, DeletedExports(s, scope), x)
    requires todo == survivors + StaleRows(Emptied(s, scope), LockedAccounts(s, scope))
    ensures Fits(Emptied(s, scope))
    ensures RestoredRows(Emptied(s, scope), todo) == Deleted(s, scope).rows
    ensures RestoredSeen(Emptied(s, scope), todo) == Deleted(s, scope).seen
  {
    EmptiedFits(s, scope);
    forall x | x in LeftRows(s, scope)
      ensures x in todo <==> Restores(s, scope, Left(s, DeletedExports(s, scope)), x)
      ensures RowAfter(s, scope, x) == if x in todo then RestoredIn(Emptied(s, scope), x) else BaseRow(s, scope, x)
    {
      RestoresExactly(s, scope, x, survivors);
      SameRestoredRow(s, scope, x);
    }
    RowsMeet(s, scope, Emptied(s, scope), todo);
    SeenMeet(s, scope, Emptied(s, scope), todo);
  }
}
