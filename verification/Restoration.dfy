/**
 * The shared rows of one conversation: how an import writes them, and how a deletion writes them
 * again from the versions the retained exports presented.
 */
module Restoration {
  import opened Common
  import Reparenting

  type ExternalId = nat
  type ProjectId = nat
  type Instant = nat

  /** The largest `i32`: ordinals and part indexes beyond it are stored as it. */
  const MAX_INDEX: nat := 0x7FFF_FFFF

  datatype PartKind = Text | Markdown | UnknownPart

  datatype Part = Part(kind: PartKind, body: string)

  /** A provider timestamp as written, and the instant it parses to. */
  datatype Timestamp = Timestamp(text: string, instant: Option<Instant>)

  datatype Message = Message(
    external: ExternalId, parent: Option<ExternalId>, role: string, model: Option<string>,
    created: Option<Timestamp>, parts: seq<Part>)

  /** The content of a conversation: exactly the fields its digest covers. */
  datatype Conversation = Conversation(
    title: Option<string>, project: Option<ProjectId>, created: Option<Timestamp>, messages: seq<Message>)

  /** What one export presented. The digest is the content, so it leaves out the parser stamp. */
  datatype Version = Version(content: Conversation, parser: string)

  datatype Stored = Stored(
    role: string, model: Option<string>, created: Option<Instant>, ordinal: nat, parent: Option<ExternalId>)

  type Messages = map<ExternalId, Stored>
  type PartKey = (ExternalId, nat)
  type Parts = map<PartKey, Part>

  datatype Header = Header(
    title: Option<string>, project: Option<ProjectId>, created: Option<Instant>, digest: Option<Conversation>,
    parser: string)

  datatype State = State(messages: Messages, parts: Parts, header: Header)

  function Normalised(role: string): string {
    if role in {"user", "assistant", "system", "tool", "internal"} then role else "unknown"
  }

  function Parsed(created: Option<Timestamp>): Option<Instant> {
    if created.Some? then created.value.instant else None
  }

  function Clamp(index: nat): nat {
    if index <= MAX_INDEX then index else MAX_INDEX
  }

  // ---- What persisting one conversation does -------------------------------------------------------

  /** A new message takes every field; a known one takes the role and the model only. */
  function Upsert(messages: Messages, ordinal: nat, x: Message): Messages {
    messages[x.external :=
      if x.external in messages
      then messages[x.external].(role := Normalised(x.role), model := x.model)
      else Stored(Normalised(x.role), x.model, Parsed(x.created), Clamp(ordinal), None)]
  }

  function Upserts(messages: Messages, xs: seq<Message>): (r: Messages)
    ensures forall x | x in xs :: x.external in r
    ensures messages.Keys <= r.Keys
  {
    if xs == [] then messages
    else
      var front, last := xs[..|xs| - 1], xs[|xs| - 1];
      assert xs == front + [last];
      Upsert(Upserts(messages, front), |front|, last)
  }

  /** A part is written where no part is yet. */
  function InsertPart(parts: Parts, key: PartKey, part: Part): Parts {
    if key in parts then parts else parts[key := part]
  }

  function InsertParts(parts: Parts, external: ExternalId, ps: seq<Part>): Parts {
    if ps == [] then parts
    else
      var n := |ps| - 1;
      InsertPart(InsertParts(parts, external, ps[..n]), (external, Clamp(n)), ps[n])
  }

  function PartsAfter(parts: Parts, xs: seq<Message>): Parts {
    if xs == [] then parts
    else
      var last := xs[|xs| - 1];
      InsertParts(PartsAfter(parts, xs[..|xs| - 1]), last.external, last.parts)
  }

  function Externals(xs: seq<Message>): set<ExternalId> {
    set x | x in xs :: x.external
  }

  /** The parent is written when it is among the presented messages, and never cleared. */
  function Links(messages: Messages, ids: set<ExternalId>, xs: seq<Message>): (r: Messages)
    requires forall x | x in xs :: x.external in messages
    ensures r.Keys == messages.Keys
  {
    if xs == [] then messages
    else
      var front, last := xs[..|xs| - 1], xs[|xs| - 1];
      assert xs == front + [last];
      var linked := Links(messages, ids, front);
      if last.parent.Some? && last.parent.value in ids
      then linked[last.external := linked[last.external].(parent := last.parent)]
      else linked
  }

  function Persist(s: State, c: Conversation): State {
    s.(messages := Links(Upserts(s.messages, c.messages), Externals(c.messages), c.messages),
       parts := PartsAfter(s.parts, c.messages))
  }

  function Replay(s: State, cs: seq<Conversation>): State {
    if cs == [] then s else Persist(Replay(s, cs[..|cs| - 1]), cs[|cs| - 1])
  }

  /** The replay the restoration runs: a version equal to the one before it is skipped. */
  function ReplaySkipping(s: State, cs: seq<Conversation>): State {
    if cs == [] then s
    else
      var n := |cs| - 1;
      var before := ReplaySkipping(s, cs[..n]);
      if n > 0 && cs[n - 1] == cs[n] then before else Persist(before, cs[n])
  }

  function Resolved(projects: set<ProjectId>, project: Option<ProjectId>): Option<ProjectId> {
    if project.Some? && project.value in projects then project else None
  }

  function NewHeader(v: Version, projects: set<ProjectId>): Header {
    Header(v.content.title, Resolved(projects, v.content.project), Parsed(v.content.created), Some(v.content), v.parser)
  }

  function Contents(held: seq<Version>): (cs: seq<Conversation>)
    ensures |cs| == |held| && forall i | 0 <= i < |held| :: cs[i] == held[i].content
  {
    seq(|held|, i requires 0 <= i < |held| => held[i].content)
  }

  /** The rows of the conversation after a deletion that retains the versions `held`, oldest first. */
  function Restored(s: State, held: seq<Version>, projects: set<ProjectId>): State {
    if held == [] then s
    else ReplaySkipping(s.(parts := map[]), Contents(held)).(header := NewHeader(held[|held| - 1], projects))
  }

  /** What importing one version does; the parser stamp changes with the content only. */
  function Imported(s: State, v: Version, projects: set<ProjectId>): State {
    var header := NewHeader(v, projects);
    var same := s.header.digest == Some(v.content);
    Persist(s, v.content).(header := if same then header.(parser := s.header.parser) else header)
  }

  function ImportedAll(s: State, held: seq<Version>, projects: set<ProjectId>): State {
    if held == [] then s
    else Imported(ImportedAll(s, held[..|held| - 1], projects), held[|held| - 1], projects)
  }

  const NOTHING: State := State(map[], map[], Header(None, None, None, None, ""))

  // ---- Parts: the first presented part at each index -------------------------------------------------

  predicate Presents(x: Message, key: PartKey) {
    x.external == key.0 && key.1 < |x.parts| && key.1 <= MAX_INDEX
  }

  ghost predicate SomePresents(xs: seq<Message>, key: PartKey) {
    exists j :: 0 <= j < |xs| && Presents(xs[j], key)
  }

  /** `part` is what the first message that presents `key` has there. */
  ghost predicate IsFirstPart(xs: seq<Message>, key: PartKey, part: Part) {
    exists j :: 0 <= j < |xs| && Presents(xs[j], key) && xs[j].parts[key.1] == part && !SomePresents(xs[..j], key)
  }

  lemma {:induction false} InsertPartsMeaning(parts: Parts, external: ExternalId, ps: seq<Part>, key: PartKey)
    ensures
      var r := InsertParts(parts, external, ps);
      var adds := key.0 == external && key.1 < |ps| && key.1 <= MAX_INDEX;
      && (key in r <==> key in parts || adds)
      && (key in parts ==> r[key] == parts[key])
      && (key !in parts && adds ==> r[key] == ps[key.1])
    decreases |ps|
  {
    if ps != [] {
      var n := |ps| - 1;
      InsertPartsMeaning(parts, external, ps[..n], key);
      InsertPartsMeaning(parts, external, ps[..n], (external, Clamp(n)));
    }
  }

  /** A key is stored exactly when it was there or some message presents it; the first one wins. */
  lemma {:induction false} PartsMeaning(parts: Parts, xs: seq<Message>, key: PartKey)
    ensures
      var r := PartsAfter(parts, xs);
      && (key in r <==> key in parts || SomePresents(xs, key))
      && (key in parts ==> r[key] == parts[key])
      && (key !in parts && key in r ==> IsFirstPart(xs, key, r[key]))
  {
    if xs != [] {
      var n := |xs| - 1;
      var front, last := xs[..n], xs[n];
      PartsMeaning(parts, front, key);
      InsertPartsMeaning(PartsAfter(parts, front), last.external, last.parts, key);
      assert Presents(last, key) == Presents(xs[n], key);
      if SomePresents(front, key) {
        var j :| 0 <= j < n && Presents(front[j], key);
        assert Presents(xs[j], key);
      }
      if key !in parts && key in PartsAfter(parts, front) {
        var j :| 0 <= j < n && Presents(front[j], key) && front[j].parts[key.1] == PartsAfter(parts, front)[key]
          && !SomePresents(front[..j], key);
        assert front[..j] == xs[..j] && Presents(xs[j], key);
      }
    }
  }

  lemma {:induction false} PartsAppend(parts: Parts, xs: seq<Message>, ys: seq<Message>)
    ensures PartsAfter(parts, xs + ys) == PartsAfter(PartsAfter(parts, xs), ys)
    decreases |ys|
  {
    if ys == [] {
      assert xs + ys == xs;
    } else {
      var n := |ys| - 1;
      PartsAppend(parts, xs, ys[..n]);
      assert (xs + ys)[..|xs + ys| - 1] == xs + ys[..n];
    }
  }

  /** Presenting the same messages again writes no part. */
  lemma PartsTwice(parts: Parts, xs: seq<Message>)
    ensures PartsAfter(PartsAfter(parts, xs), xs) == PartsAfter(parts, xs)
  {
    var once := PartsAfter(parts, xs);
    forall key
      ensures key in PartsAfter(once, xs) <==> key in once
      ensures key in once ==> PartsAfter(once, xs)[key] == once[key]
    {
      PartsMeaning(parts, xs, key);
      PartsMeaning(once, xs, key);
    }
  }

  // ---- Messages: the last presented role and model -----------------------------------------------------

  function LastOf(xs: seq<Message>, m: ExternalId): (x: Option<Message>)
    ensures x.Some? ==> x.value in xs && x.value.external == m
    ensures x.None? <==> m !in Externals(xs)
  {
    if xs == [] then None
    else
      var front, last := xs[..|xs| - 1], xs[|xs| - 1];
      assert xs == front + [last];
      assert Externals(xs) == Externals(front) + {last.external};
      if last.external == m then Some(last) else LastOf(front, m)
  }

  /** The last parent link among the messages presented under `m`. */
  function LastLink(ids: set<ExternalId>, xs: seq<Message>, m: ExternalId): Option<ExternalId> {
    if xs == [] then None
    else
      var last := xs[|xs| - 1];
      if last.external == m && last.parent.Some? && last.parent.value in ids then last.parent
      else LastLink(ids, xs[..|xs| - 1], m)
  }

  function Kept(row: Stored): (Option<Instant>, nat, Option<ExternalId>) {
    (row.created, row.ordinal, row.parent)
  }

  lemma {:induction false} UpsertsMeaning(messages: Messages, xs: seq<Message>, m: ExternalId)
    ensures
      var r := Upserts(messages, xs);
      match LastOf(xs, m)
      case None => (m in r <==> m in messages) && (m in messages ==> r[m] == messages[m])
      case Some(x) =>
        && m in r && r[m].role == Normalised(x.role) && r[m].model == x.model
        && (m in messages ==> Kept(r[m]) == Kept(messages[m]))
        && (m !in messages ==> r[m].parent.None?)
  {
    if xs != [] {
      UpsertsMeaning(messages, xs[..|xs| - 1], m);
    }
  }

  lemma {:induction false} LinksMeaning(messages: Messages, ids: set<ExternalId>, xs: seq<Message>, m: ExternalId)
    requires forall x | x in xs :: x.external in messages
    requires m in messages
    ensures
      var r := Links(messages, ids, xs);
      m in r && r[m] == messages[m].(parent := Or(LastLink(ids, xs, m), messages[m].parent))
  {
    if xs != [] {
      LinksMeaning(messages, ids, xs[..|xs| - 1], m);
    }
  }

  function LinkIn(c: Conversation, m: ExternalId): Option<ExternalId> {
    LastLink(Externals(c.messages), c.messages, m)
  }

  function Or<T>(first: Option<T>, second: Option<T>): Option<T> {
    if first.Some? then first else second
  }

  /** The row of one message after `c` is persisted, in terms of the row before. */
  ghost predicate RowAfter(before: Messages, c: Conversation, m: ExternalId, after: Messages) {
    match LastOf(c.messages, m)
    case None => (m in after <==> m in before) && (m in before ==> after[m] == before[m])
    case Some(x) =>
      && m in after && after[m].role == Normalised(x.role) && after[m].model == x.model
      && after[m].parent == Or(LinkIn(c, m), if m in before then before[m].parent else None)
      && (m in before ==> after[m].created == before[m].created && after[m].ordinal == before[m].ordinal)
  }

  lemma UnpresentedHasNoLink(ids: set<ExternalId>, xs: seq<Message>, m: ExternalId)
    requires LastOf(xs, m).None?
    ensures LastLink(ids, xs, m).None?
  {
    if xs != [] { UnpresentedHasNoLink(ids, xs[..|xs| - 1], m); }
  }

  lemma PersistMeaning(s: State, c: Conversation, m: ExternalId)
    ensures RowAfter(s.messages, c, m, Persist(s, c).messages)
  {
    var ids := Externals(c.messages);
    var upserted := Upserts(s.messages, c.messages);
    UpsertsMeaning(s.messages, c.messages, m);
    if m in upserted { LinksMeaning(upserted, ids, c.messages, m); }
    if LastOf(c.messages, m).None? { UnpresentedHasNoLink(ids, c.messages, m); }
  }

  /** Persisting one version twice in a row changes nothing the second time. */
  lemma PersistTwice(s: State, c: Conversation)
    ensures Persist(Persist(s, c), c) == Persist(s, c)
  {
    var once := Persist(s, c);
    var twice := Persist(once, c);
    PartsTwice(s.parts, c.messages);
    forall m
      ensures m in twice.messages <==> m in once.messages
      ensures m in once.messages ==> twice.messages[m] == once.messages[m]
    {
      PersistMeaning(s, c, m);
      PersistMeaning(once, c, m);
    }
  }

  /** Skipping a version equal to the one before it changes nothing. */
  lemma {:induction false} SkippingChangesNothing(s: State, cs: seq<Conversation>)
    ensures ReplaySkipping(s, cs) == Replay(s, cs)
  {
    if cs != [] {
      var n := |cs| - 1;
      SkippingChangesNothing(s, cs[..n]);
      if n > 0 && cs[n - 1] == cs[n] {
        assert cs[..n][..n - 1] == cs[..n - 1];
        PersistTwice(Replay(s, cs[..n - 1]), cs[n]);
      }
    }
  }

  // ---- A whole history -----------------------------------------------------------------------------------

  function AllMessages(cs: seq<Conversation>): seq<Message> {
    if cs == [] then [] else AllMessages(cs[..|cs| - 1]) + cs[|cs| - 1].messages
  }

  lemma {:induction false} ReplayParts(s: State, cs: seq<Conversation>)
    ensures Replay(s, cs).parts == PartsAfter(s.parts, AllMessages(cs))
  {
    if cs != [] {
      var n := |cs| - 1;
      ReplayParts(s, cs[..n]);
      PartsAppend(s.parts, AllMessages(cs[..n]), cs[n].messages);
    }
  }

  /** One message after the same replay over `s` and over nothing: what the upsert rewrites agrees. */
  ghost predicate AgreeAt(s: State, over: State, clean: State, m: ExternalId) {
    if m in clean.messages then
      && m in over.messages
      && over.messages[m].role == clean.messages[m].role && over.messages[m].model == clean.messages[m].model
      && over.messages[m].parent
         == Or(clean.messages[m].parent, if m in s.messages then s.messages[m].parent else None)
    else
      (m in over.messages <==> m in s.messages) && (m in s.messages ==> over.messages[m] == s.messages[m])
  }

  ghost predicate AgreeOnPresented(s: State, over: State, clean: State) {
    forall m :: AgreeAt(s, over, clean, m)
  }

  lemma AgreementStep(s: State, over: State, clean: State, c: Conversation)
    requires AgreeOnPresented(s, over, clean)
    ensures AgreeOnPresented(s, Persist(over, c), Persist(clean, c))
  {
    forall m
      ensures AgreeAt(s, Persist(over, c), Persist(clean, c), m)
    {
      assert AgreeAt(s, over, clean, m);
      PersistMeaning(over, c, m);
      PersistMeaning(clean, c, m);
    }
  }

  lemma {:induction false} ReplayAgrees(s: State, nothing: State, cs: seq<Conversation>)
    requires nothing.messages == map[]
    ensures AgreeOnPresented(s, Replay(s, cs), Replay(nothing, cs))
  {
    if cs != [] {
      var n := |cs| - 1;
      ReplayAgrees(s, nothing, cs[..n]);
      AgreementStep(s, Replay(s, cs[..n]), Replay(nothing, cs[..n]), cs[n]);
    }
  }

  lemma {:induction false} ImportIsReplay(s: State, held: seq<Version>, projects: set<ProjectId>)
    ensures
      var r := ImportedAll(s, held, projects);
      && r.messages == Replay(s, Contents(held)).messages && r.parts == Replay(s, Contents(held)).parts
      && (held != [] ==> r.header.(parser := "") == NewHeader(held[|held| - 1], projects).(parser := ""))
  {
    if held != [] {
      var n := |held| - 1;
      ImportIsReplay(s, held[..n], projects);
      assert Contents(held)[..n] == Contents(held[..n]);
    }
  }

  /**
   * A deletion leaves the conversation as an import of only the retained versions would: the same
   * parts, the same header, and the same role and model of every message they present, whatever
   * the rows held before. A parent is the imported one, or the old one where no retained version
   * links the message.
   */
  lemma RestorationIsImportOfRetained(s: State, held: seq<Version>, projects: set<ProjectId>)
    requires held != []
    ensures
      var r := Restored(s, held, projects);
      var clean := ImportedAll(NOTHING, held, projects);
      && r.parts == clean.parts
      && r.header.(parser := "") == clean.header.(parser := "")
      && AgreeOnPresented(s, r, clean)
  {
    var cs := Contents(held);
    var erased := s.(parts := map[]);
    SkippingChangesNothing(erased, cs);
    ReplayParts(erased, cs);
    ReplayParts(NOTHING, cs);
    ReplayAgrees(erased, NOTHING, cs);
    ImportIsReplay(NOTHING, held, projects);
    forall m ensures AgreeAt(s, Restored(s, held, projects), ImportedAll(NOTHING, held, projects), m) {
      assert AgreeAt(erased, Replay(erased, cs), Replay(NOTHING, cs), m);
    }
  }

  /** What is stored at every key after a deletion: the first part a retained version presented. */
  lemma RestoredParts(s: State, held: seq<Version>, projects: set<ProjectId>, key: PartKey)
    requires held != []
    ensures
      var r := Restored(s, held, projects);
      && (key in r.parts <==> SomePresents(AllMessages(Contents(held)), key))
      && (key in r.parts ==> IsFirstPart(AllMessages(Contents(held)), key, r.parts[key]))
  {
    SkippingChangesNothing(s.(parts := map[]), Contents(held));
    ReplayParts(s.(parts := map[]), Contents(held));
    PartsMeaning(map[], AllMessages(Contents(held)), key);
  }

  lemma {:induction false} PresentedByVersion(cs: seq<Conversation>, x: Message)
    requires x in AllMessages(cs)
    ensures exists i :: 0 <= i < |cs| && x in cs[i].messages
  {
    var n := |cs| - 1;
    if x !in cs[n].messages {
      PresentedByVersion(cs[..n], x);
      var i :| 0 <= i < n && x in cs[..n][i].messages;
      assert x in cs[i].messages;
    }
  }

  /** No part survives that no retained version presented. */
  lemma NoDeletedPartSurvives(s: State, held: seq<Version>, projects: set<ProjectId>, key: PartKey)
    requires held != [] && key in Restored(s, held, projects).parts
    ensures exists i, x :: 0 <= i < |held| && x in held[i].content.messages && Presents(x, key)
                           && x.parts[key.1] == Restored(s, held, projects).parts[key]
  {
    RestoredParts(s, held, projects, key);
    var xs := AllMessages(Contents(held));
    var j :| 0 <= j < |xs| && Presents(xs[j], key) && xs[j].parts[key.1] == Restored(s, held, projects).parts[key];
    PresentedByVersion(Contents(held), xs[j]);
    var i :| 0 <= i < |held| && xs[j] in Contents(held)[i].messages;
    assert xs[j] in held[i].content.messages;
  }

  lemma {:induction false} LastOfAppend(xs: seq<Message>, ys: seq<Message>, m: ExternalId)
    ensures LastOf(xs + ys, m) == Or(LastOf(ys, m), LastOf(xs, m))
    decreases |ys|
  {
    if ys == [] {
      assert xs + ys == xs;
    } else {
      LastOfAppend(xs, ys[..|ys| - 1], m);
      assert (xs + ys)[..|xs + ys| - 1] == xs + ys[..|ys| - 1];
    }
  }

  lemma {:induction false} ReplayRoles(s: State, cs: seq<Conversation>, m: ExternalId)
    ensures
      var r := Replay(s, cs);
      match LastOf(AllMessages(cs), m)
      case None => (m in r.messages <==> m in s.messages) && (m in s.messages ==> r.messages[m] == s.messages[m])
      case Some(x) => m in r.messages && r.messages[m].role == Normalised(x.role) && r.messages[m].model == x.model
  {
    if cs != [] {
      var n := |cs| - 1;
      ReplayRoles(s, cs[..n], m);
      LastOfAppend(AllMessages(cs[..n]), cs[n].messages, m);
      PersistMeaning(Replay(s, cs[..n]), cs[n], m);
    }
  }

  /** The role and model of every message: the last ones a retained version presented. */
  lemma RestoredRoles(s: State, held: seq<Version>, projects: set<ProjectId>, m: ExternalId)
    requires held != []
    ensures
      var r := Restored(s, held, projects);
      match LastOf(AllMessages(Contents(held)), m)
      case None => (m in r.messages <==> m in s.messages) && (m in s.messages ==> r.messages[m] == s.messages[m])
      case Some(x) => m in r.messages && r.messages[m].role == Normalised(x.role) && r.messages[m].model == x.model
  {
    SkippingChangesNothing(s.(parts := map[]), Contents(held));
    ReplayRoles(s.(parts := map[]), Contents(held), m);
  }

  /** Restoring twice writes the same parts and the same header. */
  lemma RestoreTwice(s: State, held: seq<Version>, projects: set<ProjectId>)
    ensures Restored(Restored(s, held, projects), held, projects).parts == Restored(s, held, projects).parts
    ensures Restored(Restored(s, held, projects), held, projects).header == Restored(s, held, projects).header
  {
    if held != [] {
      var r := Restored(s, held, projects);
      SkippingChangesNothing(s.(parts := map[]), Contents(held));
      SkippingChangesNothing(r.(parts := map[]), Contents(held));
      ReplayParts(s.(parts := map[]), Contents(held));
      ReplayParts(r.(parts := map[]), Contents(held));
    }
  }

  // ---- What the removal takes before the restoration -------------------------------------------------------

  function ParentLinks(messages: Messages): map<ExternalId, Option<ExternalId>> {
    map m | m in messages :: messages[m].parent
  }

  /** One of `tops` is the message itself or is met on the way up its parent links. */
  ghost predicate Under(messages: Messages, tops: set<ExternalId>, m: ExternalId) {
    exists k: nat :: Meets(messages, tops, m, k)
  }

  ghost predicate Meets(messages: Messages, tops: set<ExternalId>, m: ExternalId, k: nat) {
    var above := Reparenting.Up(ParentLinks(messages), Some(m), k);
    above.Some? && above.value in tops
  }

  /** The messages `tops` and every message below them, to any depth. */
  ghost function Below(messages: Messages, tops: set<ExternalId>): set<ExternalId> {
    set m | m in messages && Under(messages, tops, m)
  }

  /** The rows without these messages and their parts. */
  ghost function Without(s: State, removed: set<ExternalId>): State {
    s.(messages := map m | m in s.messages && m !in removed :: s.messages[m],
       parts := map key | key in s.parts && key.0 !in removed :: s.parts[key])
  }

  /** The foreign key of the parent column. */
  ghost predicate ParentsPresent(messages: Messages) {
    forall m | m in messages && messages[m].parent.Some? :: messages[m].parent.value in messages
  }

  /** A message goes with its parent. */
  lemma ChildGoesToo(messages: Messages, tops: set<ExternalId>, m: ExternalId)
    requires m in messages && messages[m].parent.Some? && messages[m].parent.value in Below(messages, tops)
    ensures m in Below(messages, tops)
  {
    var p := messages[m].parent.value;
    var k: nat :| Meets(messages, tops, p, k);
    var links := ParentLinks(messages);
    assert Reparenting.Up(links, Some(m), 0) == Some(m);
    assert Reparenting.Up(links, Some(m), 1) == Some(p);
    Reparenting.UpAgain(links, Some(m), 1, k);
    assert Meets(messages, tops, m, 1 + k);
  }

  lemma TopsGo(messages: Messages, tops: set<ExternalId>, m: ExternalId)
    requires m in messages && m in tops
    ensures m in Below(messages, tops)
  {
    assert Meets(messages, tops, m, 0);
  }

  lemma NothingBelowNothing(messages: Messages)
    ensures Below(messages, {}) == {}
  {
  }

  lemma RemovalKeepsParents(s: State, tops: set<ExternalId>)
    requires ParentsPresent(s.messages)
    ensures ParentsPresent(Without(s, Below(s.messages, tops)).messages)
  {
    var left := Without(s, Below(s.messages, tops)).messages;
    forall m | m in left && left[m].parent.Some? ensures left[m].parent.value in left {
      if left[m].parent.value in Below(s.messages, tops) { ChildGoesToo(s.messages, tops, m); }
    }
  }

  lemma {:induction false} LinkIsPresented(ids: set<ExternalId>, xs: seq<Message>, m: ExternalId)
    ensures LastLink(ids, xs, m).Some? ==> LastLink(ids, xs, m).value in ids
  {
    if xs != [] { LinkIsPresented(ids, xs[..|xs| - 1], m); }
  }

  lemma PersistKeepsParents(s: State, c: Conversation)
    requires ParentsPresent(s.messages)
    ensures ParentsPresent(Persist(s, c).messages)
    ensures forall m | m in s.messages || m in Externals(c.messages) :: m in Persist(s, c).messages
    ensures forall m | m in Persist(s, c).messages :: m in s.messages || m in Externals(c.messages)
  {
    var after := Persist(s, c).messages;
    forall m ensures m in after <==> m in s.messages || m in Externals(c.messages) {
      PersistMeaning(s, c, m);
    }
    forall m | m in after && after[m].parent.Some? ensures after[m].parent.value in after {
      PersistMeaning(s, c, m);
      LinkIsPresented(Externals(c.messages), c.messages, m);
    }
  }

  /** Some version of `cs` presents the message. */
  ghost predicate PresentedIn(cs: seq<Conversation>, m: ExternalId) {
    exists i :: 0 <= i < |cs| && m in Externals(cs[i].messages)
  }

  lemma PresentedNext(cs: seq<Conversation>, m: ExternalId)
    requires cs != []
    ensures PresentedIn(cs, m) <==>
              (PresentedIn(cs[..|cs| - 1], m) || m in Externals(cs[|cs| - 1].messages))
  {
    var n := |cs| - 1;
    if PresentedIn(cs[..n], m) {
      var i :| 0 <= i < n && m in Externals(cs[..n][i].messages);
      assert m in Externals(cs[i].messages);
    }
    if PresentedIn(cs, m) && m !in Externals(cs[n].messages) {
      var i :| 0 <= i < |cs| && m in Externals(cs[i].messages);
      assert m in Externals(cs[..n][i].messages);
    }
  }

  lemma {:induction false} ReplayMessages(s: State, cs: seq<Conversation>)
    requires ParentsPresent(s.messages)
    ensures ParentsPresent(Replay(s, cs).messages)
    ensures forall m :: m in Replay(s, cs).messages <==> (m in s.messages || PresentedIn(cs, m))
  {
    if cs != [] {
      var n := |cs| - 1;
      ReplayMessages(s, cs[..n]);
      PersistKeepsParents(Replay(s, cs[..n]), cs[n]);
      forall m ensures m in Replay(s, cs).messages <==> (m in s.messages || PresentedIn(cs, m)) {
        PresentedNext(cs, m);
      }
    }
  }

  /** A restored conversation has the messages that were left and those a retained version presents. */
  lemma RestoredMessages(s: State, held: seq<Version>, projects: set<ProjectId>)
    requires held != [] && ParentsPresent(s.messages)
    ensures ParentsPresent(Restored(s, held, projects).messages)
    ensures forall m :: m in Restored(s, held, projects).messages <==> (m in s.messages || PresentedIn(Contents(held), m))
  {
    SkippingChangesNothing(s.(parts := map[]), Contents(held));
    ReplayMessages(s.(parts := map[]), Contents(held));
  }

  /** The project a restored header names is the newest version's, when there is such a project. */
  lemma RestoredProject(s: State, held: seq<Version>, projects: set<ProjectId>)
    requires held != []
    ensures
      var header := Restored(s, held, projects).header;
      && header.digest == Some(held[|held| - 1].content)
      && (header.project.Some? ==> header.project.value in projects && header.digest.value.project == header.project)
  {
  }

  lemma ImportedMessages(held: seq<Version>, projects: set<ProjectId>)
    ensures forall m :: m in ImportedAll(NOTHING, held, projects).messages <==> PresentedIn(Contents(held), m)
  {
    ImportIsReplay(NOTHING, held, projects);
    ReplayMessages(NOTHING, Contents(held));
  }

  // ---- Where the restored rows are not the imported ones ---------------------------------------------------

  /** The message was there and the removal left it. */
  predicate Stayed(s: State, removed: set<ExternalId>, m: ExternalId) {
    m in s.messages && m !in removed
  }

  /**
   * In terms of the rows before the deletion and the messages it removes: the parent of a presented
   * message is the imported one unless the message stayed, had a parent, and no retained version
   * links it.
   */
  lemma ParentRestoredIff(
      s: State, removed: set<ExternalId>, held: seq<Version>, projects: set<ProjectId>, m: ExternalId)
    requires held != [] && PresentedIn(Contents(held), m)
    ensures m in Restored(Without(s, removed), held, projects).messages
    ensures m in ImportedAll(NOTHING, held, projects).messages
    ensures
      Restored(Without(s, removed), held, projects).messages[m].parent
      == ImportedAll(NOTHING, held, projects).messages[m].parent
      <==> || !Stayed(s, removed, m) || s.messages[m].parent.None?
           || (exists i :: 0 <= i < |held| && LinkIn(held[i].content, m).Some?)
  {
    var left := Without(s, removed);
    ImportedMessages(held, projects);
    RestorationIsImportOfRetained(left, held, projects);
    assert AgreeAt(left, Restored(left, held, projects), ImportedAll(NOTHING, held, projects), m);
    ImportIsReplay(NOTHING, held, projects);
    ParentAfterReplay(Contents(held), m);
    assert forall i | 0 <= i < |held| :: Contents(held)[i] == held[i].content;
  }

  /** Where the messages first list `m`. */
  function FirstIndex(xs: seq<Message>, m: ExternalId): (i: Option<nat>)
    ensures i.Some? ==> i.value < |xs| && xs[i.value].external == m
    ensures i.Some? <==> m in Externals(xs)
  {
    if xs == [] then None
    else
      var front, last := xs[..|xs| - 1], xs[|xs| - 1];
      assert xs == front + [last];
      assert Externals(xs) == Externals(front) + {last.external};
      if FirstIndex(front, m).Some? then FirstIndex(front, m)
      else if last.external == m then Some(|front|) else None
  }

  /** The ordinal and the timestamp of a message row, which no upsert rewrites. */
  function PlaceOf(row: Stored): (nat, Option<Instant>) {
    (row.ordinal, row.created)
  }

  /** The place the first version that presents `m` gives it. */
  function FirstPlace(cs: seq<Conversation>, m: ExternalId): Option<(nat, Option<Instant>)> {
    if cs == [] then None
    else
      var n := |cs| - 1;
      if FirstPlace(cs[..n], m).Some? then FirstPlace(cs[..n], m)
      else
        match FirstIndex(cs[n].messages, m)
        case Some(i) => Some((Clamp(i), Parsed(cs[n].messages[i].created)))
        case None => None
  }

  /** If every version is the same conversation, its own first place counts. */
  lemma {:induction false} FirstPlaceSame(cs: seq<Conversation>, c: Conversation, m: ExternalId)
    requires cs != [] && (forall i | 0 <= i < |cs| :: cs[i] == c) && m in Externals(c.messages)
    ensures FirstPlace(cs, m)
            == Some((Clamp(FirstIndex(c.messages, m).value), Parsed(c.messages[FirstIndex(c.messages, m).value].created)))
  {
    if |cs| > 1 { FirstPlaceSame(cs[..|cs| - 1], c, m); }
  }

  lemma {:induction false} UpsertsPlace(messages: Messages, xs: seq<Message>, m: ExternalId)
    ensures m in messages ==> PlaceOf(Upserts(messages, xs)[m]) == PlaceOf(messages[m])
    ensures m !in messages && m in Externals(xs) ==>
              && m in Upserts(messages, xs)
              && PlaceOf(Upserts(messages, xs)[m])
                 == (Clamp(FirstIndex(xs, m).value), Parsed(xs[FirstIndex(xs, m).value].created))
    ensures m !in messages && m !in Externals(xs) ==> m !in Upserts(messages, xs)
  {
    UpsertsMeaning(messages, xs, m);
    if xs != [] {
      var front, last := xs[..|xs| - 1], xs[|xs| - 1];
      assert xs == front + [last];
      assert Externals(xs) == Externals(front) + {last.external};
      UpsertsPlace(messages, front, m);
      UpsertsMeaning(messages, front, m);
    }
  }

  lemma PersistPlace(s: State, c: Conversation, m: ExternalId)
    ensures m in s.messages ==> m in Persist(s, c).messages && PlaceOf(Persist(s, c).messages[m]) == PlaceOf(s.messages[m])
    ensures m !in s.messages && m in Externals(c.messages) ==>
              && m in Persist(s, c).messages
              && PlaceOf(Persist(s, c).messages[m])
                 == (Clamp(FirstIndex(c.messages, m).value), Parsed(c.messages[FirstIndex(c.messages, m).value].created))
    ensures m !in s.messages && m !in Externals(c.messages) ==> m !in Persist(s, c).messages
  {
    UpsertsPlace(s.messages, c.messages, m);
    var upserted := Upserts(s.messages, c.messages);
    if m in upserted { LinksMeaning(upserted, Externals(c.messages), c.messages, m); }
  }

  lemma {:induction false} ReplayPlace(s: State, cs: seq<Conversation>, m: ExternalId)
    ensures m in s.messages ==> m in Replay(s, cs).messages && PlaceOf(Replay(s, cs).messages[m]) == PlaceOf(s.messages[m])
    ensures m !in s.messages ==> (m in Replay(s, cs).messages <==> FirstPlace(cs, m).Some?)
    ensures m !in s.messages && m in Replay(s, cs).messages ==>
              Some(PlaceOf(Replay(s, cs).messages[m])) == FirstPlace(cs, m)
  {
    if cs != [] {
      var n := |cs| - 1;
      ReplayPlace(s, cs[..n], m);
      PersistPlace(Replay(s, cs[..n]), cs[n], m);
    }
  }

  /**
   * The ordinal and the timestamp of a presented message are the imported ones unless the message
   * stayed with other ones than the first retained version that presents it gives.
   */
  lemma PlaceRestoredIff(
      s: State, removed: set<ExternalId>, held: seq<Version>, projects: set<ProjectId>, m: ExternalId)
    requires held != [] && PresentedIn(Contents(held), m)
    ensures m in Restored(Without(s, removed), held, projects).messages
    ensures m in ImportedAll(NOTHING, held, projects).messages
    ensures
      PlaceOf(Restored(Without(s, removed), held, projects).messages[m])
      == PlaceOf(ImportedAll(NOTHING, held, projects).messages[m])
      <==> !Stayed(s, removed, m) || Some(PlaceOf(s.messages[m])) == FirstPlace(Contents(held), m)
  {
    var left, cs := Without(s, removed), Contents(held);
    ImportedMessages(held, projects);
    ImportIsReplay(NOTHING, held, projects);
    SkippingChangesNothing(left.(parts := map[]), cs);
    ReplayPlace(left.(parts := map[]), cs, m);
    ReplayPlace(NOTHING, cs, m);
  }

  /** Over nothing a message has a parent exactly when some version links it. */
  lemma {:induction false} ParentAfterReplay(cs: seq<Conversation>, m: ExternalId)
    requires m in Replay(NOTHING, cs).messages
    ensures Replay(NOTHING, cs).messages[m].parent.Some? <==> exists i :: 0 <= i < |cs| && LinkIn(cs[i], m).Some?
  {
    var n := |cs| - 1;
    var before := Replay(NOTHING, cs[..n]);
    PersistMeaning(before, cs[n], m);
    if LastOf(cs[n].messages, m).None? { UnpresentedHasNoLink(Externals(cs[n].messages), cs[n].messages, m); }
    if m in before.messages {
      ParentAfterReplay(cs[..n], m);
      assert forall i | 0 <= i < n :: cs[..n][i] == cs[i];
    } else {
      UnlinkedBefore(cs[..n], m);
      assert forall i | 0 <= i < n :: cs[..n][i] == cs[i];
    }
  }

  lemma {:induction false} UnlinkedBefore(cs: seq<Conversation>, m: ExternalId)
    requires m !in Replay(NOTHING, cs).messages
    ensures forall i | 0 <= i < |cs| :: LinkIn(cs[i], m).None?
  {
    if cs != [] {
      var n := |cs| - 1;
      PersistMeaning(Replay(NOTHING, cs[..n]), cs[n], m);
      UnpresentedHasNoLink(Externals(cs[n].messages), cs[n].messages, m);
      UnlinkedBefore(cs[..n], m);
      assert forall i | 0 <= i < n :: cs[..n][i] == cs[i];
    }
  }

  // ---- The tables ------------------------------------------------------------------------------------------

  class Tables {
    var messages: Messages
    var parts: Parts
    var header: Header

    constructor (s: State)
      ensures Value() == s
    {
      messages, parts, header := s.messages, s.parts, s.header;
    }

    function Value(): State
      reads this
    {
      State(messages, parts, header)
    }

    method PersistParts(external: ExternalId, ps: seq<Part>)
      modifies this`parts
      ensures parts == InsertParts(old(parts), external, ps)
    {
      for i := 0 to |ps|
        invariant parts == InsertParts(old(parts), external, ps[..i])
      {
        assert ps[..i + 1][..i] == ps[..i];
        var key := (external, Clamp(i));
        if key !in parts {
          parts := parts[key := ps[i]];
        }
      }
      assert ps[..|ps|] == ps;
    }

    method UpsertMessage(ordinal: nat, x: Message)
      modifies this`messages
      ensures messages == Upsert(old(messages), ordinal, x)
    {
      if x.external in messages {
        messages := messages[x.external := messages[x.external].(role := Normalised(x.role), model := x.model)];
      } else {
        messages :=
          messages[x.external := Stored(Normalised(x.role), x.model, Parsed(x.created), Clamp(ordinal), None)];
      }
    }

    /** The first loop: every message with its parts. */
    method WriteMessages(xs: seq<Message>)
      modifies this`messages, this`parts
      ensures messages == Upserts(old(messages), xs) && parts == PartsAfter(old(parts), xs)
    {
      for i := 0 to |xs|
        invariant messages == Upserts(old(messages), xs[..i])
        invariant parts == PartsAfter(old(parts), xs[..i])
      {
        assert xs[..i + 1][..i] == xs[..i];
        UpsertMessage(i, xs[i]);
        PersistParts(xs[i].external, xs[i].parts);
      }
      assert xs[..|xs|] == xs;
    }

    method PersistMessages(c: Conversation)
      modifies this
      ensures Value() == Persist(old(Value()), c)
    {
      WriteMessages(c.messages);
      LinkParents(c.messages, set x | x in c.messages :: x.external);
    }

    method LinkParents(xs: seq<Message>, ids: set<ExternalId>)
      requires forall x | x in xs :: x.external in messages
      modifies this`messages
      ensures messages == Links(old(messages), ids, xs)
    {
      for i := 0 to |xs|
        invariant messages == Links(old(messages), ids, xs[..i])
      {
        var x := xs[i];
        assert xs[..i + 1][..i] == xs[..i];
        if x.parent.Some? && x.parent.value in ids {
          messages := messages[x.external := messages[x.external].(parent := x.parent)];
        }
      }
      assert xs[..|xs|] == xs;
    }

    method RestoreConversation(held: seq<Version>, projects: set<ProjectId>)
      modifies this
      ensures Value() == Restored(old(Value()), held, projects)
    {
      if held == [] {
        return;
      }
      parts := map[];
      ghost var erased := Value();
      ghost var cs := Contents(held);
      var previous: Option<Conversation> := None;
      for i := 0 to |held|
        invariant Value() == ReplaySkipping(erased, cs[..i])
        invariant previous == if i == 0 then None else Some(held[i - 1].content)
      {
        assert cs[..i + 1][..i] == cs[..i];
        assert i > 0 ==> cs[..i + 1][i - 1] == held[i - 1].content;
        if previous == Some(held[i].content) {
          continue;
        }
        previous := Some(held[i].content);
        PersistMessages(held[i].content);
      }
      assert cs[..|held|] == cs;
      header := NewHeader(held[|held| - 1], projects);
    }
  }
}
