/** Comparing a fresh parse of an archive with what its export presents, and applying the difference. */
module Reparse {
  import opened Common
  import opened Ordered
  import VS = VersionStore
  import Restoration

  type ConversationId = nat
  type Digest = Restoration.Conversation

  /** A parsed conversation; its digest is its content. */
  datatype Parsed = Parsed(id: ConversationId, content: Restoration.Conversation, parser: string)

  datatype ChangeKind = Added | Changed | Unchanged | ProposedRemoval

  datatype Change = Change(id: ConversationId, kind: ChangeKind)

  datatype Completeness = ConversationsComplete | StructurallyPartial

  /** `warnings` names the coverage omissions, `events` the conversations to announce. */
  datatype Report = Report(
    changes: seq<Change>, warnings: seq<ConversationId>, events: seq<ConversationId>, completeness: Completeness)

  /** The digest the export names for each conversation it observes; an old row may name none. */
  type Current = map<ConversationId, Option<Digest>>

  function ParsedIds(parsed: seq<Parsed>): set<ConversationId> {
    set p | p in parsed :: p.id
  }

  /** Collecting into a map keeps the last conversation of an id. */
  function LastOf(parsed: seq<Parsed>, id: ConversationId): (p: Parsed)
    requires id in ParsedIds(parsed)
    ensures p in parsed && p.id == id
  {
    var front, last := parsed[..|parsed| - 1], parsed[|parsed| - 1];
    assert parsed == front + [last];
    if last.id == id then last else LastOf(front, id)
  }

  /** Searching the list finds the first conversation of an id. */
  function FirstOf(parsed: seq<Parsed>, id: ConversationId): (p: Parsed)
    requires id in ParsedIds(parsed)
    ensures p in parsed && p.id == id
  {
    assert parsed == [parsed[0]] + parsed[1..];
    if parsed[0].id == id then parsed[0] else FirstOf(parsed[1..], id)
  }

  function KindOf(current: Current, parsed: seq<Parsed>, id: ConversationId): ChangeKind
    requires id in current || id in ParsedIds(parsed)
  {
    if id !in ParsedIds(parsed) then ProposedRemoval
    else if id !in current then Added
    else if current[id] == Some(LastOf(parsed, id).content) then Unchanged
    else Changed
  }

  function IdsOf(changes: seq<Change>): (ids: seq<ConversationId>)
    ensures |ids| == |changes| && forall i | 0 <= i < |changes| :: ids[i] == changes[i].id
  {
    seq(|changes|, i requires 0 <= i < |changes| => changes[i].id)
  }

  predicate Writes(kind: ChangeKind) {
    kind.Added? || kind.Changed?
  }

  // ---- The comparison ------------------------------------------------------------------------------------

  /** Every identity of both sides once, in order, with its kind. */
  ghost predicate ListsChanges(current: Current, parsed: seq<Parsed>, changes: seq<Change>) {
    && StrictlyAscending(IdsOf(changes))
    && Elements(IdsOf(changes)) == current.Keys + ParsedIds(parsed)
    && forall c | c in changes ::
         (c.id in current || c.id in ParsedIds(parsed)) && c.kind == KindOf(current, parsed, c.id)
  }

  /** The report a comparison must give. */
  ghost predicate Reports(current: Current, parsed: seq<Parsed>, report: Report) {
    && ListsChanges(current, parsed, report.changes)
    && StrictlyAscending(report.warnings) && Elements(report.warnings) == current.Keys - ParsedIds(parsed)
    && StrictlyAscending(report.events)
    && Elements(report.events) == Announced(current, parsed, ParsedIds(parsed))
    && (report.completeness.ConversationsComplete? <==> current.Keys <= ParsedIds(parsed))
  }

  predicate AscendingChanges(changes: seq<Change>) {
    forall i, j | 0 <= i < j < |changes| :: changes[i].id < changes[j].id
  }

  /** `changes` in order of identity. */
  method SortChanges(changes: seq<Change>) returns (sorted: seq<Change>)
    requires forall i, j | 0 <= i < j < |changes| :: changes[i].id != changes[j].id
    ensures AscendingChanges(sorted) && Elements(sorted) == Elements(changes)
  {
    sorted := [];
    for i := 0 to |changes|
      invariant AscendingChanges(sorted) && Elements(sorted) == Elements(changes[..i])
    {
      assert changes[..i + 1] == changes[..i] + [changes[i]];
      forall c | c in sorted ensures c.id != changes[i].id {
        assert c in Elements(sorted);
        var j :| 0 <= j < i && changes[j] == c;
      }
      sorted := InsertChange(sorted, changes[i]);
    }
    assert changes[..|changes|] == changes;
  }

  method InsertChange(sorted: seq<Change>, change: Change) returns (more: seq<Change>)
    requires AscendingChanges(sorted) && forall c | c in sorted :: c.id != change.id
    ensures AscendingChanges(more) && Elements(more) == Elements(sorted) + {change}
  {
    var k := |sorted|;
    while k > 0 && sorted[k - 1].id > change.id
      invariant 0 <= k <= |sorted|
      invariant forall j | k <= j < |sorted| :: sorted[j].id > change.id
    {
      k := k - 1;
    }
    if k > 0 { assert sorted[k - 1] in sorted; }
    more := sorted[..k] + [change] + sorted[k..];
    InsertedElements(sorted, change, k);
  }

  lemma InsertedElements(sorted: seq<Change>, change: Change, k: nat)
    requires k <= |sorted|
    ensures Elements(sorted[..k] + [change] + sorted[k..]) == Elements(sorted) + {change}
  {
    assert sorted == sorted[..k] + sorted[k..];
  }

  lemma AscendingDistinct(s: seq<nat>, t: seq<nat>)
    requires StrictlyAscending(s) && StrictlyAscending(t) && Elements(s) !! Elements(t)
    ensures forall i, j | 0 <= i < j < |s + t| :: (s + t)[i] != (s + t)[j]
  {
    assert forall i | 0 <= i < |s| :: s[i] in Elements(s);
    assert forall i | 0 <= i < |t| :: t[i] in Elements(t);
  }

  /** Those of `ids` that a comparison announces. */
  function Announced(current: Current, parsed: seq<Parsed>, ids: set<ConversationId>): set<ConversationId> {
    set id | id in ids && id in ParsedIds(parsed) && Writes(KindOf(current, parsed, id))
  }

  lemma AppendedAscending(s: seq<nat>, x: nat)
    requires StrictlyAscending(s) && forall y | y in s :: y < x
    ensures StrictlyAscending(s + [x]) && Elements(s + [x]) == Elements(s) + {x}
  {
    assert forall i | 0 <= i < |s| :: s[i] in s;
  }

  lemma AnnounceNext(
      current: Current, parsed: seq<Parsed>, ids: seq<ConversationId>, i: nat, events: seq<ConversationId>)
    requires StrictlyAscending(ids) && i < |ids| && ids[i] in ParsedIds(parsed)
    requires StrictlyAscending(events) && Elements(events) == Announced(current, parsed, Elements(ids[..i]))
    ensures
      var more := if Writes(KindOf(current, parsed, ids[i])) then events + [ids[i]] else events;
      StrictlyAscending(more) && Elements(more) == Announced(current, parsed, Elements(ids[..i + 1]))
  {
    var id := ids[i];
    assert Elements(ids[..i + 1]) == Elements(ids[..i]) + {id} by { assert ids[..i + 1] == ids[..i] + [id]; }
    forall y | y in events ensures y < id { assert y in Elements(events); }
    AppendedAscending(events, id);
  }

  /** The parsed conversations in order of identity: what each one is, and which are announced. */
  method CompareParsed(current: Current, parsed: seq<Parsed>)
    returns (changes: seq<Change>, events: seq<ConversationId>)
    ensures IdsOf(changes) == Sorted(ParsedIds(parsed))
    ensures forall c | c in changes :: c.id in ParsedIds(parsed) && c.kind == KindOf(current, parsed, c.id)
    ensures StrictlyAscending(events) && Elements(events) == Announced(current, parsed, ParsedIds(parsed))
  {
    var ids := Sorted(ParsedIds(parsed));
    changes, events := [], [];
    for i := 0 to |ids|
      invariant IdsOf(changes) == ids[..i]
      invariant forall c | c in changes :: c.id in ParsedIds(parsed) && c.kind == KindOf(current, parsed, c.id)
      invariant StrictlyAscending(events) && Elements(events) == Announced(current, parsed, Elements(ids[..i]))
    {
      var id := ids[i];
      assert id in Elements(ids);
      AnnounceNext(current, parsed, ids, i, events);
      var kind := KindOf(current, parsed, id);
      if Writes(kind) {
        events := events + [id];
      }
      changes := changes + [Change(id, kind)];
    }
    assert ids[..|ids|] == ids;
  }

  /** What the export observes and the parse does not contain. */
  method CompareOmitted(current: Current, parsed: seq<Parsed>)
    returns (changes: seq<Change>, warnings: seq<ConversationId>)
    ensures IdsOf(changes) == warnings == Sorted(current.Keys - ParsedIds(parsed))
    ensures forall c | c in changes :: c.kind.ProposedRemoval?
  {
    var ids := Sorted(current.Keys - ParsedIds(parsed));
    changes, warnings := [], [];
    for i := 0 to |ids|
      invariant IdsOf(changes) == warnings == ids[..i]
      invariant forall c | c in changes :: c.kind.ProposedRemoval?
    {
      changes := changes + [Change(ids[i], ProposedRemoval)];
      warnings := warnings + [ids[i]];
    }
    assert ids[..|ids|] == ids;
  }

  method Compare(current: Current, parsed: seq<Parsed>) returns (report: Report)
    ensures Reports(current, parsed, report)
  {
    var found, events := CompareParsed(current, parsed);
    var omitted, warnings := CompareOmitted(current, parsed);
    var changes := found + omitted;
    MergedChanges(current, parsed, found, omitted);
    var sorted := SortChanges(changes);
    SortedLists(current, parsed, changes, sorted);
    report := Report(sorted, warnings, events,
                     if current.Keys <= ParsedIds(parsed) then ConversationsComplete else StructurallyPartial);
  }

  /** Every identity of both sides once, in any order. */
  ghost predicate Covers(current: Current, parsed: seq<Parsed>, changes: seq<Change>) {
    && Elements(IdsOf(changes)) == current.Keys + ParsedIds(parsed)
    && (forall c | c in changes ::
          (c.id in current || c.id in ParsedIds(parsed)) && c.kind == KindOf(current, parsed, c.id))
    && (forall i, j | 0 <= i < j < |changes| :: changes[i].id != changes[j].id)
  }

  lemma OmittedKind(current: Current, parsed: seq<Parsed>, omitted: seq<Change>, c: Change)
    requires Elements(IdsOf(omitted)) == current.Keys - ParsedIds(parsed) && c in omitted
    ensures c.id in current && c.id !in ParsedIds(parsed)
  {
    var i :| 0 <= i < |omitted| && omitted[i] == c;
    assert IdsOf(omitted)[i] in Elements(IdsOf(omitted));
  }

  lemma MergedChanges(current: Current, parsed: seq<Parsed>, found: seq<Change>, omitted: seq<Change>)
    requires IdsOf(found) == Sorted(ParsedIds(parsed)) && IdsOf(omitted) == Sorted(current.Keys - ParsedIds(parsed))
    requires forall c | c in found :: c.id in ParsedIds(parsed) && c.kind == KindOf(current, parsed, c.id)
    requires forall c | c in omitted :: c.kind.ProposedRemoval?
    ensures Covers(current, parsed, found + omitted)
  {
    MergedIds(current, parsed, found, omitted);
    forall c | c in found + omitted
      ensures (c.id in current || c.id in ParsedIds(parsed)) && c.kind == KindOf(current, parsed, c.id)
    {
      if c !in found { OmittedKind(current, parsed, omitted, c); }
    }
  }

  lemma MergedIds(current: Current, parsed: seq<Parsed>, found: seq<Change>, omitted: seq<Change>)
    requires IdsOf(found) == Sorted(ParsedIds(parsed)) && IdsOf(omitted) == Sorted(current.Keys - ParsedIds(parsed))
    ensures Elements(IdsOf(found + omitted)) == current.Keys + ParsedIds(parsed)
    ensures forall i, j | 0 <= i < j < |found + omitted| :: (found + omitted)[i].id != (found + omitted)[j].id
  {
    var changes, ids := found + omitted, IdsOf(found) + IdsOf(omitted);
    ConcatIds(found, omitted);
    AscendingDistinct(IdsOf(found), IdsOf(omitted));
    assert current.Keys - ParsedIds(parsed) + ParsedIds(parsed) == current.Keys + ParsedIds(parsed);
    forall i, j | 0 <= i < j < |changes| ensures changes[i].id != changes[j].id {
      assert ids[i] != ids[j];
    }
  }

  lemma ConcatIds(found: seq<Change>, omitted: seq<Change>)
    ensures IdsOf(found + omitted) == IdsOf(found) + IdsOf(omitted)
    ensures Elements(IdsOf(found + omitted)) == Elements(IdsOf(found)) + Elements(IdsOf(omitted))
  {
    assert IdsOf(found + omitted) == IdsOf(found) + IdsOf(omitted);
  }

  lemma SortedLists(current: Current, parsed: seq<Parsed>, changes: seq<Change>, sorted: seq<Change>)
    requires Covers(current, parsed, changes) && AscendingChanges(sorted) && Elements(sorted) == Elements(changes)
    ensures ListsChanges(current, parsed, sorted)
  {
    forall c ensures c in sorted <==> c in changes {
      assert c in sorted <==> c in Elements(sorted);
      assert c in changes <==> c in Elements(changes);
    }
    SameIds(sorted, changes);
    SameIds(changes, sorted);
  }

  lemma SameIds(one: seq<Change>, other: seq<Change>)
    requires forall c | c in one :: c in other
    ensures Elements(IdsOf(one)) <= Elements(IdsOf(other))
  {
    forall id | id in Elements(IdsOf(one)) ensures id in Elements(IdsOf(other)) {
      var i :| 0 <= i < |one| && IdsOf(one)[i] == id;
      assert one[i] in one;
      var j :| 0 <= j < |other| && other[j] == one[i];
      assert IdsOf(other)[j] == id;
    }
  }

  /** There is one such list, so a comparison has one answer. */
  lemma {:induction false} ChangesUnique(current: Current, parsed: seq<Parsed>, one: seq<Change>, other: seq<Change>)
    requires ListsChanges(current, parsed, one) && ListsChanges(current, parsed, other)
    ensures one == other
  {
    AscendingUnique(IdsOf(one), IdsOf(other));
    forall i | 0 <= i < |one| ensures one[i] == other[i] {
      assert one[i] in one && other[i] in other && IdsOf(one)[i] == IdsOf(other)[i];
    }
  }

  // ---- Applying the plan -------------------------------------------------------------------------------------

  /** What one change presents: the first conversation of its id, when it writes at all. */
  function Presented(parsed: seq<Parsed>, change: Change): seq<(VS.Entity, VS.Snapshot)> {
    if Writes(change.kind) && change.id in ParsedIds(parsed)
    then
      var p := FirstOf(parsed, change.id);
      [(VS.Conversation(change.id), VS.OfConversation(Restoration.Version(p.content, p.parser)))]
    else []
  }

  function AllPresented(parsed: seq<Parsed>, changes: seq<Change>): seq<(VS.Entity, VS.Snapshot)> {
    if changes == [] then []
    else AllPresented(parsed, changes[..|changes| - 1]) + Presented(parsed, changes[|changes| - 1])
  }

  /** The store after the changes are applied for export `e`. */
  ghost function Applied(s: VS.State, e: VS.ExportId, parsed: seq<Parsed>, changes: seq<Change>): VS.State
    requires e in s.exports
  {
    VS.ImportAll(s, e, AllPresented(parsed, changes))
  }

  /** Writes every added or changed conversation, each with its own observation and version. */
  method ApplyConversations(tables: VS.Tables, e: VS.ExportId, parsed: seq<Parsed>, changes: seq<Change>)
    requires e in tables.exports
    modifies tables
    ensures tables.Value() == Applied(old(tables.Value()), e, parsed, changes)
  {
    ghost var before := tables.Value();
    for i := 0 to |changes|
      invariant e in tables.exports
      invariant tables.Value() == Applied(before, e, parsed, changes[..i])
    {
      var change := changes[i];
      AppliedNext(before, e, parsed, changes, i);
      if !Writes(change.kind) || change.id !in ParsedIds(parsed) {
        continue;
      }
      var found := FirstOf(parsed, change.id);
      var version := Restoration.Version(found.content, found.parser);
      tables.ImportRecord(e, VS.Conversation(change.id), VS.OfConversation(version));
    }
    assert changes[..|changes|] == changes;
  }

  lemma AppliedNext(s: VS.State, e: VS.ExportId, parsed: seq<Parsed>, changes: seq<Change>, i: nat)
    requires e in s.exports && i < |changes|
    ensures
      var sofar, presented := Applied(s, e, parsed, changes[..i]), Presented(parsed, changes[i]);
      Applied(s, e, parsed, changes[..i + 1])
      == if presented == [] then sofar else VS.ImportOne(sofar, e, presented[0].0, presented[0].1)
  {
    assert changes[..i + 1][..i] == changes[..i];
    var front, one := AllPresented(parsed, changes[..i]), Presented(parsed, changes[i]);
    assert AllPresented(parsed, changes[..i + 1]) == front + one;
    if one == [] {
      assert front + one == front;
    } else {
      assert (front + one)[..|front|] == front && (front + one)[|front|] == one[0];
    }
  }

  /** What the export names for each conversation it observes. */
  function CurrentOf(s: VS.State, e: VS.ExportId): Current {
    map k | k in s.observations && k.0 == e && k.1.Conversation? && s.observations[k].ConversationDigest? ::
      k.1.id := Some(s.observations[k].conversation)
  }

  lemma {:induction false} PresentedMeaning(parsed: seq<Parsed>, changes: seq<Change>, i: nat)
    requires i < |AllPresented(parsed, changes)|
    ensures
      var p := AllPresented(parsed, changes)[i];
      && p.0.Conversation? && p.1.OfConversation? && p.0.id in ParsedIds(parsed)
      && p.1.version.content == FirstOf(parsed, p.0.id).content
      && exists c :: c in changes && c.id == p.0.id && Writes(c.kind)
  {
    var n := |changes| - 1;
    var front := AllPresented(parsed, changes[..n]);
    if i < |front| {
      PresentedMeaning(parsed, changes[..n], i);
      var c :| c in changes[..n] && c.id == front[i].0.id && Writes(c.kind);
      assert c in changes;
    } else {
      assert changes[n] in changes;
    }
  }

  lemma {:induction false} WrittenIsPresented(parsed: seq<Parsed>, changes: seq<Change>, c: Change)
    requires c in changes && Writes(c.kind) && c.id in ParsedIds(parsed)
    ensures VS.Among(VS.Conversation(c.id), AllPresented(parsed, changes))
  {
    var n := |changes| - 1;
    var all := AllPresented(parsed, changes);
    if changes[n] == c {
      assert all[|all| - 1].0 == VS.Conversation(c.id);
    } else {
      WrittenIsPresented(parsed, changes[..n], c);
      var front := AllPresented(parsed, changes[..n]);
      var i :| 0 <= i < |front| && front[i].0 == VS.Conversation(c.id);
      assert all[i].0 == VS.Conversation(c.id);
    }
  }

  lemma PresentedFits(parsed: seq<Parsed>, changes: seq<Change>)
    ensures forall p | p in AllPresented(parsed, changes) :: VS.SnapshotFits(p.0, p.1)
  {
    var all := AllPresented(parsed, changes);
    forall p | p in all ensures VS.SnapshotFits(p.0, p.1) {
      var i :| 0 <= i < |all| && all[i] == p;
      PresentedMeaning(parsed, changes, i);
    }
  }

  /** After applying: a written conversation is observed with its first content, others as before. */
  lemma AppliedDigest(s: VS.State, e: VS.ExportId, parsed: seq<Parsed>, changes: seq<Change>, id: ConversationId)
    requires e in s.exports && ListsChanges(CurrentOf(s, e), parsed, changes)
    ensures
      var before, after := CurrentOf(s, e), CurrentOf(Applied(s, e, parsed, changes), e);
      if id in ParsedIds(parsed) && Writes(KindOf(before, parsed, id))
      then id in after && after[id] == Some(FirstOf(parsed, id).content)
      else (id in after <==> id in before) && (id in before ==> after[id] == before[id])
  {
    if id in ParsedIds(parsed) && Writes(KindOf(CurrentOf(s, e), parsed, id)) {
      WrittenDigest(s, e, parsed, changes, id);
    } else {
      UnwrittenDigest(s, e, parsed, changes, id);
    }
  }

  lemma WrittenDigest(s: VS.State, e: VS.ExportId, parsed: seq<Parsed>, changes: seq<Change>, id: ConversationId)
    requires e in s.exports && ListsChanges(CurrentOf(s, e), parsed, changes)
    requires id in ParsedIds(parsed) && Writes(KindOf(CurrentOf(s, e), parsed, id))
    ensures
      var after := CurrentOf(Applied(s, e, parsed, changes), e);
      id in after && after[id] == Some(FirstOf(parsed, id).content)
  {
    var presented := AllPresented(parsed, changes);
    var c := ChangeOf(CurrentOf(s, e), parsed, changes, id);
    WrittenIsPresented(parsed, changes, c);
    var k := VS.LastPosition(presented, VS.Conversation(id));
    PresentedMeaning(parsed, changes, k);
    VS.LastPresentedStays(s, e, presented, k);
    CurrentAt(Applied(s, e, parsed, changes), e, id);
  }

  lemma UnwrittenDigest(s: VS.State, e: VS.ExportId, parsed: seq<Parsed>, changes: seq<Change>, id: ConversationId)
    requires e in s.exports && ListsChanges(CurrentOf(s, e), parsed, changes)
    requires !(id in ParsedIds(parsed) && Writes(KindOf(CurrentOf(s, e), parsed, id)))
    ensures
      var before, after := CurrentOf(s, e), CurrentOf(Applied(s, e, parsed, changes), e);
      (id in after <==> id in before) && (id in before ==> after[id] == before[id])
  {
    var presented := AllPresented(parsed, changes);
    NotPresented(CurrentOf(s, e), parsed, changes, id);
    PresentedFits(parsed, changes);
    VS.ImportHasEffect(s, e, presented);
    CurrentAt(s, e, id);
    CurrentAt(Applied(s, e, parsed, changes), e, id);
  }

  lemma NotPresented(current: Current, parsed: seq<Parsed>, changes: seq<Change>, id: ConversationId)
    requires ListsChanges(current, parsed, changes)
    requires !(id in ParsedIds(parsed) && Writes(KindOf(current, parsed, id)))
    ensures !VS.Among(VS.Conversation(id), AllPresented(parsed, changes))
  {
    if VS.Among(VS.Conversation(id), AllPresented(parsed, changes)) {
      var k := VS.LastPosition(AllPresented(parsed, changes), VS.Conversation(id));
      PresentedMeaning(parsed, changes, k);
      assert false;
    }
  }

  lemma CurrentAt(s: VS.State, e: VS.ExportId, id: ConversationId)
    ensures
      var x := VS.Conversation(id);
      && (id in CurrentOf(s, e) <==> (e, x) in s.observations && s.observations[(e, x)].ConversationDigest?)
      && (id in CurrentOf(s, e) ==> CurrentOf(s, e)[id] == Some(s.observations[(e, x)].conversation))
  {
    var x := VS.Conversation(id);
    forall k | k in s.observations && k.0 == e && k.1.Conversation? && k.1.id == id ensures k == (e, x) {}
    assert (e, x).0 == e && (e, x).1 == x;
  }

  lemma ChangeOf(current: Current, parsed: seq<Parsed>, changes: seq<Change>, id: ConversationId) returns (c: Change)
    requires ListsChanges(current, parsed, changes) && (id in current || id in ParsedIds(parsed))
    ensures c in changes && c.id == id && c.kind == KindOf(current, parsed, id)
  {
    assert id in Elements(IdsOf(changes));
    var i :| 0 <= i < |changes| && IdsOf(changes)[i] == id;
    c := changes[i];
  }

  /**
   * Comparing again after the plan was applied finds only unchanged conversations and proposed
   * removals exactly when, for every conversation the plan wrote, the first and the last parsed
   * conversation of that id say the same: the plan applies the first and compares the last.
   */
  lemma SecondCompareIsQuietIff(
      s: VS.State, e: VS.ExportId, parsed: seq<Parsed>, changes: seq<Change>, second: seq<Change>)
    requires e in s.exports && ListsChanges(CurrentOf(s, e), parsed, changes)
    requires ListsChanges(CurrentOf(Applied(s, e, parsed, changes), e), parsed, second)
    ensures (forall c | c in second :: c.kind.Unchanged? || c.kind.ProposedRemoval?)
            <==> forall id | id in ParsedIds(parsed) :: Settles(CurrentOf(s, e), parsed, id)
  {
    var before, after := CurrentOf(s, e), CurrentOf(Applied(s, e, parsed, changes), e);
    forall id | id in ParsedIds(parsed)
      ensures KindOf(after, parsed, id).Unchanged? <==> Settles(before, parsed, id)
    {
      AppliedKind(s, e, parsed, changes, id);
    }
    QuietIff(before, after, parsed, second);
  }

  lemma AppliedKind(s: VS.State, e: VS.ExportId, parsed: seq<Parsed>, changes: seq<Change>, id: ConversationId)
    requires e in s.exports && ListsChanges(CurrentOf(s, e), parsed, changes) && id in ParsedIds(parsed)
    ensures KindOf(CurrentOf(Applied(s, e, parsed, changes), e), parsed, id).Unchanged?
            <==> Settles(CurrentOf(s, e), parsed, id)
  {
    AppliedDigest(s, e, parsed, changes, id);
  }

  /** Applying the first conversation of the id leaves nothing to change. */
  ghost predicate Settles(current: Current, parsed: seq<Parsed>, id: ConversationId)
    requires id in ParsedIds(parsed)
  {
    Writes(KindOf(current, parsed, id)) ==> FirstOf(parsed, id).content == LastOf(parsed, id).content
  }

  lemma QuietIff(before: Current, after: Current, parsed: seq<Parsed>, second: seq<Change>)
    requires ListsChanges(after, parsed, second)
    requires forall id | id in ParsedIds(parsed) ::
        KindOf(after, parsed, id).Unchanged? <==> Settles(before, parsed, id)
    ensures (forall c | c in second :: c.kind.Unchanged? || c.kind.ProposedRemoval?)
            <==> forall id | id in ParsedIds(parsed) :: Settles(before, parsed, id)
  {
    if forall c | c in second :: c.kind.Unchanged? || c.kind.ProposedRemoval? {
      forall id | id in ParsedIds(parsed) ensures Settles(before, parsed, id) {
        var c := ChangeOf(after, parsed, second, id);
      }
    }
    if forall id | id in ParsedIds(parsed) :: Settles(before, parsed, id) {
      forall c | c in second ensures c.kind.Unchanged? || c.kind.ProposedRemoval? {
        assert c.kind == KindOf(after, parsed, c.id);
      }
    }
  }

  ghost predicate UniqueIds(parsed: seq<Parsed>) {
    forall i, j | 0 <= i < j < |parsed| :: parsed[i].id != parsed[j].id
  }

  lemma UniqueFirstIsLast(parsed: seq<Parsed>, id: ConversationId)
    requires UniqueIds(parsed) && id in ParsedIds(parsed)
    ensures FirstOf(parsed, id) == LastOf(parsed, id)
  {
    var p, q := FirstOf(parsed, id), LastOf(parsed, id);
    var i :| 0 <= i < |parsed| && parsed[i] == p;
    var j :| 0 <= j < |parsed| && parsed[j] == q;
    assert i == j;
  }

  /** For a parse with unique ids the second comparison is always quiet. */
  lemma SecondCompareIsQuiet(
      s: VS.State, e: VS.ExportId, parsed: seq<Parsed>, changes: seq<Change>, second: seq<Change>)
    requires e in s.exports && UniqueIds(parsed) && ListsChanges(CurrentOf(s, e), parsed, changes)
    requires ListsChanges(CurrentOf(Applied(s, e, parsed, changes), e), parsed, second)
    ensures forall c | c in second :: c.kind.Unchanged? || c.kind.ProposedRemoval?
  {
    forall id | id in ParsedIds(parsed) ensures FirstOf(parsed, id).content == LastOf(parsed, id).content {
      UniqueFirstIsLast(parsed, id);
    }
    SecondCompareIsQuietIff(s, e, parsed, changes, second);
  }

  /** A parse that names one id twice with two contents is never settled by applying it. */
  lemma RepeatedIdNeverSettles(
      s: VS.State, e: VS.ExportId, one: Parsed, two: Parsed, changes: seq<Change>, second: seq<Change>)
    requires e in s.exports && one.id == two.id && one.content != two.content && one.id !in CurrentOf(s, e)
    requires ListsChanges(CurrentOf(s, e), [one, two], changes)
    requires ListsChanges(CurrentOf(Applied(s, e, [one, two], changes), e), [one, two], second)
    ensures exists c :: c in second && c.kind.Changed?
  {
    var parsed := [one, two];
    assert one in parsed && parsed[0] == one && parsed[|parsed| - 1] == two;
    assert FirstOf(parsed, one.id) == one && LastOf(parsed, one.id) == two;
    AppliedDigest(s, e, parsed, changes, one.id);
    var c := ChangeOf(CurrentOf(Applied(s, e, parsed, changes), e), parsed, second, one.id);
  }

  /** Applying touches no observation of another export, and keeps every invariant of the store. */
  lemma OtherExportsUntouched(
      s: VS.State, e: VS.ExportId, parsed: seq<Parsed>, changes: seq<Change>, f: VS.ExportId, x: VS.Entity)
    requires e in s.exports && f != e
    ensures
      var t := Applied(s, e, parsed, changes);
      && ((f, x) in t.observations <==> (f, x) in s.observations)
      && ((f, x) in s.observations ==> t.observations[(f, x)] == s.observations[(f, x)])
  {
    PresentedFits(parsed, changes);
    VS.ImportHasEffect(s, e, AllPresented(parsed, changes));
  }
}
