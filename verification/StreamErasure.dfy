/** The closed vocabulary of the outbox: event types, aggregates and erasure commands. */
module OutboxEvents {
  import opened Common

  // Identifiers are numbers; their order stands for the order of the texts they spell.
  type EventId = nat
  type Owner = nat
  type Sequence = nat
  type RequestId = nat

  datatype EventType =
    | ArchiveImported
    | ConversationAdded | ConversationUpdated
    | ProjectAdded | ProjectUpdated
    | ArtifactAdded | ArtifactUpdated
    | SubjectTombstoned
    | OperationReported
    | StreamErasureRequested

  /** Whether a row of this type carries content the stream copy of which may be erased. */
  predicate IsContentBearing(kind: EventType) {
    match kind
    case SubjectTombstoned | OperationReported | StreamErasureRequested => false
    case _ => true
  }

  datatype AggregateType =
    | OfArchive | OfConversation | OfProject | OfArtifact
    | OfTombstone | OfOperation | OfPrivacyRequest | OfExport

  datatype AggregateRef =
    | ArchiveRef(archive: nat) | ConversationRef(conversation: nat) | ProjectRef(project: nat)
    | ArtifactRef(artifact: nat) | OperationRef(operation: nat) | RequestRef(request: RequestId)
    | ExportRef(export_id: nat)

  function AggregateTypeOf(kind: EventType): AggregateType {
    match kind
    case ArchiveImported => OfArchive
    case ConversationAdded | ConversationUpdated => OfConversation
    case ProjectAdded | ProjectUpdated => OfProject
    case ArtifactAdded | ArtifactUpdated => OfArtifact
    case SubjectTombstoned => OfTombstone
    case OperationReported => OfOperation
    case StreamErasureRequested => OfPrivacyRequest
  }

  /** One request that Edge erase stream messages, in the name of one owner. */
  datatype Command = Command(request: RequestId, owner: Owner, sequences: seq<Sequence>)
}

/** The erasure commands a deletion enqueues for the outbox rows it removes. */
module StreamErasure {
  import opened Common
  import opened Ordered
  import opened OutboxEvents

  const MAX_STREAM_SEQUENCES: nat := 500

  /** What the deleting statement returns of one row; sequences are stored as signed integers. */
  datatype RemovedRow = RemovedRow(kind: EventType, owner: Option<Owner>, sequences: seq<int>)

  datatype ErasureError = InvalidIdentifier

  predicate Erasable(row: RemovedRow, owner: Owner) {
    IsContentBearing(row.kind) && row.owner == Some(owner)
  }

  /** The stream sequences one owner's removed facts hold. */
  ghost function OwnedSequences(removed: seq<RemovedRow>, owner: Owner): set<nat> {
    set row, q | row in removed && q in row.sequences && Erasable(row, owner) && q > 0 :: q
  }

  /** What `slice::chunks` yields. */
  function Chunks(s: seq<nat>, size: nat): (chunks: seq<seq<nat>>)
    requires size > 0
  {
    if s == [] then []
    else if |s| <= size then [s]
    else [s[..size]] + Chunks(s[size..], size)
  }

  /** The sequence lists of the commands of one owner, in the order the commands were enqueued. */
  function Blocks(commands: seq<Command>, owner: Owner): seq<seq<nat>> {
    if commands == [] then []
    else
      var last := commands[|commands| - 1];
      Blocks(commands[..|commands| - 1], owner) + if last.owner == owner then [last.sequences] else []
  }

  function Flatten(blocks: seq<seq<nat>>): seq<nat> {
    if blocks == [] then [] else blocks[0] + Flatten(blocks[1..])
  }

  // ---- Chunks partition their input ---------------------------------------------------------

  lemma {:induction false} ChunksFlatten(s: seq<nat>, size: nat)
    requires size > 0
    ensures Flatten(Chunks(s, size)) == s
  {
    if s == [] {
    } else if |s| <= size {
      assert Flatten([s]) == s + Flatten([]);
    } else {
      var tail := Chunks(s[size..], size);
      ChunksFlatten(s[size..], size);
      assert ([s[..size]] + tail)[1..] == tail;
      assert s == s[..size] + s[size..];
    }
  }

  /** Every block is a non-empty ascending run of at most `size`, and the blocks never go back. */
  lemma {:induction false} ChunksShape(s: seq<nat>, size: nat)
    requires size > 0 && StrictlyAscending(s)
    ensures forall i | 0 <= i < |Chunks(s, size)| ::
              0 < |Chunks(s, size)[i]| <= size && StrictlyAscending(Chunks(s, size)[i])
    ensures forall i, x | 0 <= i < |Chunks(s, size)| && x in Chunks(s, size)[i] :: x in s
    ensures forall i, j, x, y | 0 <= i < j < |Chunks(s, size)| && x in Chunks(s, size)[i] && y in Chunks(s, size)[j] ::
              x < y
  {
    if |s| > size {
      ChunksShape(s[size..], size);
      assert s == s[..size] + s[size..];
      forall x, y | x in s[..size] && y in s[size..]
        ensures x < y
      {
        var i :| 0 <= i < size && s[i] == x;
        var j :| 0 <= j < |s| - size && s[size..][j] == y;
        assert s[size + j] == y;
      }
      var all, tail := Chunks(s, size), Chunks(s[size..], size);
      forall i, j, x, y | 0 <= i < j < |all| && x in all[i] && y in all[j]
        ensures x < y
      {
        assert all[j] == tail[j - 1];
        assert y in s[size..];
        if i == 0 { assert all[0] == s[..size]; } else { assert all[i] == tail[i - 1]; }
      }
    }
  }

  lemma {:induction false} FlattenElements(blocks: seq<seq<nat>>, x: nat)
    ensures x in Flatten(blocks) <==> exists i :: 0 <= i < |blocks| && x in blocks[i]
  {
    if blocks != [] {
      FlattenElements(blocks[1..], x);
      if x in Flatten(blocks[1..]) {
        var i :| 0 <= i < |blocks[1..]| && x in blocks[1..][i];
        assert x in blocks[i + 1];
      }
      if exists i :: 0 <= i < |blocks| && x in blocks[i] {
        var i :| 0 <= i < |blocks| && x in blocks[i];
        assert i > 0 ==> x in blocks[1..][i - 1];
      }
    }
  }

  /** The commands of one owner, as a set of sequences: disjoint bounded blocks of exactly `owned`. */
  lemma BlocksPartition(owned: set<nat>, blocks: seq<seq<nat>>)
    requires blocks == Chunks(Sorted(owned), MAX_STREAM_SEQUENCES)
    ensures forall i | 0 <= i < |blocks| :: 0 < |blocks[i]| <= MAX_STREAM_SEQUENCES && StrictlyAscending(blocks[i])
    ensures forall i, j | 0 <= i < j < |blocks| :: Elements(blocks[i]) !! Elements(blocks[j])
    ensures forall x :: x in owned <==> exists i :: 0 <= i < |blocks| && x in blocks[i]
  {
    var all := Sorted(owned);
    ChunksShape(all, MAX_STREAM_SEQUENCES);
    ChunksFlatten(all, MAX_STREAM_SEQUENCES);
    forall x
      ensures x in owned <==> exists i :: 0 <= i < |blocks| && x in blocks[i]
    {
      assert x in all <==> x in Elements(all);
      FlattenElements(blocks, x);
    }
  }

  // ---- The commands of one deletion ----------------------------------------------------------

  lemma {:induction false} BlocksMember(commands: seq<Command>, c: Command)
    requires c in commands
    ensures c.sequences in Blocks(commands, c.owner)
  {
    var front, last := commands[..|commands| - 1], commands[|commands| - 1];
    if c != last {
      assert c in front by { assert commands == front + [last]; }
      BlocksMember(front, c);
    }
  }

  lemma {:induction false} BlockHasCommand(commands: seq<Command>, owner: Owner, block: seq<nat>) returns (c: Command)
    requires block in Blocks(commands, owner)
    ensures c in commands && c.owner == owner && c.sequences == block
  {
    var front, last := commands[..|commands| - 1], commands[|commands| - 1];
    if last.owner == owner && last.sequences == block {
      c := last;
    } else {
      assert block in Blocks(front, owner);
      c := BlockHasCommand(front, owner, block);
    }
  }

  /**
   * What the commands ask for: each names only positive sequences of its own owner's removed
   * facts, and every such sequence is named.
   */
  lemma CommandsAskExactly(removed: seq<RemovedRow>, commands: seq<Command>)
    requires forall o :: Blocks(commands, o) == Chunks(Sorted(OwnedSequences(removed, o)), MAX_STREAM_SEQUENCES)
    ensures forall c, q | c in commands && q in c.sequences :: q in OwnedSequences(removed, c.owner)
    ensures forall o, q | q in OwnedSequences(removed, o) ::
              exists c :: c in commands && c.owner == o && q in c.sequences
  {
    forall c, q | c in commands && q in c.sequences
      ensures q in OwnedSequences(removed, c.owner)
    {
      var blocks := Blocks(commands, c.owner);
      BlocksMember(commands, c);
      BlocksPartition(OwnedSequences(removed, c.owner), blocks);
      var i :| 0 <= i < |blocks| && blocks[i] == c.sequences;
    }
    forall o, q | q in OwnedSequences(removed, o)
      ensures exists c :: c in commands && c.owner == o && q in c.sequences
    {
      var blocks := Blocks(commands, o);
      BlocksPartition(OwnedSequences(removed, o), blocks);
      var i :| 0 <= i < |blocks| && q in blocks[i];
      var c := BlockHasCommand(commands, o, blocks[i]);
    }
  }

  // ---- The imperative form ---------------------------------------------------------------------

  ghost predicate NamesUnparsed(removed: seq<RemovedRow>, parses: Owner -> bool) {
    exists row, o :: row in removed && Erasable(row, o) && !parses(o)
  }

  function PositiveSequences(sequences: seq<int>): set<nat> {
    set q | q in sequences && q > 0
  }

  ghost predicate Grouped(byOwner: map<Owner, set<nat>>, removed: seq<RemovedRow>) {
    && (forall o :: o in byOwner <==> exists row :: row in removed && Erasable(row, o))
    && (forall o | o in byOwner :: byOwner[o] == OwnedSequences(removed, o))
  }

  lemma GroupOne(byOwner: map<Owner, set<nat>>, removed: seq<RemovedRow>, row: RemovedRow)
    requires Grouped(byOwner, removed)
    ensures !(IsContentBearing(row.kind) && row.owner.Some?) ==> Grouped(byOwner, removed + [row])
    ensures IsContentBearing(row.kind) && row.owner.Some? ==>
              var o := row.owner.value;
              var held := if o in byOwner then byOwner[o] else {};
              Grouped(byOwner[o := held + PositiveSequences(row.sequences)], removed + [row])
  {
    var more := removed + [row];
    assert forall r :: r in more <==> r in removed || r == row;
    forall o
      ensures OwnedSequences(more, o) ==
              OwnedSequences(removed, o) + if Erasable(row, o) then PositiveSequences(row.sequences) else {}
    {
    }
    forall o | o !in byOwner
      ensures OwnedSequences(removed, o) == {}
    {
    }
  }

  /** The rows a deletion removes, grouped by the owner their envelope names. */
  method GroupByOwner(removed: seq<RemovedRow>) returns (byOwner: map<Owner, set<nat>>)
    ensures Grouped(byOwner, removed)
  {
    byOwner := map[];
    for i := 0 to |removed|
      invariant Grouped(byOwner, removed[..i])
    {
      var row := removed[i];
      GroupOne(byOwner, removed[..i], row);
      assert removed[..i + 1] == removed[..i] + [row];
      if IsContentBearing(row.kind) && row.owner.Some? {
        var o := row.owner.value;
        var held := if o in byOwner then byOwner[o] else {};
        byOwner := byOwner[o := held + PositiveSequences(row.sequences)];
      }
    }
    assert removed[..|removed|] == removed;
  }

  lemma BlocksAppend(commands: seq<Command>, c: Command, o: Owner)
    ensures Blocks(commands + [c], o) == Blocks(commands, o) + if c.owner == o then [c.sequences] else []
  {
    assert (commands + [c])[..|commands|] == commands;
  }

  /** Enqueues the commands of one owner, a chunk at a time. */
  method EnqueueOwner(request: RequestId, owner: Owner, sequences: set<nat>, before: seq<Command>)
    returns (commands: seq<Command>)
    requires Blocks(before, owner) == []
    requires forall c | c in before :: c.request == request
    ensures forall o | o != owner :: Blocks(commands, o) == Blocks(before, o)
    ensures Blocks(commands, owner) == Chunks(Sorted(sequences), MAX_STREAM_SEQUENCES)
    ensures forall c | c in commands :: c.request == request
  {
    commands := before;
    var rest := Sorted(sequences);
    ghost var all := Chunks(rest, MAX_STREAM_SEQUENCES);
    while rest != []
      invariant Enqueuing(commands, before, owner, rest, all)
      invariant forall c | c in commands :: c.request == request
      decreases |rest|
    {
      var size := if |rest| <= MAX_STREAM_SEQUENCES then |rest| else MAX_STREAM_SEQUENCES;
      var command := Command(request, owner, rest[..size]);
      EnqueueChunk(commands, before, command, rest, all, size);
      commands := commands + [command];
      rest := rest[size..];
    }
  }

  ghost predicate OnlyOwnerChanged(commands: seq<Command>, before: seq<Command>, owner: Owner) {
    forall o | o != owner :: Blocks(commands, o) == Blocks(before, o)
  }

  lemma AppendForOwner(commands: seq<Command>, before: seq<Command>, command: Command)
    requires OnlyOwnerChanged(commands, before, command.owner)
    ensures OnlyOwnerChanged(commands + [command], before, command.owner)
    ensures Blocks(commands + [command], command.owner) == Blocks(commands, command.owner) + [command.sequences]
  {
    BlocksAppend(commands, command, command.owner);
    forall o | o != command.owner ensures Blocks(commands + [command], o) == Blocks(before, o) {
      BlocksAppend(commands, command, o);
      assert Blocks(commands, o) + [] == Blocks(commands, o);
    }
  }

  /** What is enqueued and what is left make up `all`, and no other owner's commands changed. */
  ghost predicate Enqueuing(commands: seq<Command>, before: seq<Command>, owner: Owner, rest: seq<nat>, all: seq<seq<nat>>) {
    Blocks(commands, owner) + Chunks(rest, MAX_STREAM_SEQUENCES) == all && OnlyOwnerChanged(commands, before, owner)
  }

  lemma EnqueueChunk(
      commands: seq<Command>, before: seq<Command>, command: Command, rest: seq<nat>, all: seq<seq<nat>>, size: nat)
    requires rest != [] && size == if |rest| <= MAX_STREAM_SEQUENCES then |rest| else MAX_STREAM_SEQUENCES
    requires Enqueuing(commands, before, command.owner, rest, all) && command.sequences == rest[..size]
    ensures Enqueuing(commands + [command], before, command.owner, rest[size..], all)
  {
    FirstChunk(rest, size);
    AppendForOwner(commands, before, command);
  }

  lemma FirstChunk(rest: seq<nat>, size: nat)
    requires rest != [] && size == if |rest| <= MAX_STREAM_SEQUENCES then |rest| else MAX_STREAM_SEQUENCES
    ensures Chunks(rest, MAX_STREAM_SEQUENCES) == [rest[..size]] + Chunks(rest[size..], MAX_STREAM_SEQUENCES)
  {
    assert |rest| <= MAX_STREAM_SEQUENCES ==> rest[..size] == rest && rest[size..] == [];
  }

  /** Enqueues the commands of every owner in ascending order, or fails at the first unnamable one. */
  method EnqueueAll(request: RequestId, byOwner: map<Owner, set<nat>>, parses: Owner -> bool)
    returns (result: Result<seq<Command>, ErasureError>)
    ensures result.Err? <==> exists o :: o in byOwner && !parses(o)
    ensures result.Ok? ==>
              && (forall c | c in result.value :: c.request == request)
              && (forall o | o in byOwner ::
                  Blocks(result.value, o) == Chunks(Sorted(byOwner[o]), MAX_STREAM_SEQUENCES))
              && (forall o | o !in byOwner :: Blocks(result.value, o) == [])
  {
    var pending := byOwner.Keys;
    var commands := [];
    while pending != {}
      invariant pending <= byOwner.Keys
      invariant forall o | o in byOwner && o !in pending :: parses(o)
      invariant forall o | o in byOwner
          && o !in pending :: Blocks(commands, o) == Chunks(Sorted(byOwner[o]), MAX_STREAM_SEQUENCES)
      invariant forall o | o !in byOwner || o in pending :: Blocks(commands, o) == []
      invariant forall c | c in commands :: c.request == request
      decreases pending
    {
      var owner := Least(pending);
      if !parses(owner) {
        return Err(InvalidIdentifier);
      }
      commands := EnqueueOwner(request, owner, byOwner[owner], commands);
      pending := pending - {owner};
    }
    result := Ok(commands);
  }

  /**
   * The commands for the rows one statement removed. An owner that cannot be named fails the whole
   * deletion, even when none of its rows was published.
   */
  method DropPublishedFactRows(request: RequestId, removed: seq<RemovedRow>, parses: Owner -> bool)
    returns (result: Result<seq<Command>, ErasureError>)
    ensures result.Err? <==> NamesUnparsed(removed, parses)
    ensures result.Ok? ==>
              && (forall c | c in result.value :: c.request == request)
              && (forall o ::
                    Blocks(result.value, o) == Chunks(Sorted(OwnedSequences(removed, o)), MAX_STREAM_SEQUENCES))
  {
    var byOwner := GroupByOwner(removed);
    result := EnqueueAll(request, byOwner, parses);
    forall o | o !in byOwner
      ensures Sorted(OwnedSequences(removed, o)) == []
    {
      assert OwnedSequences(removed, o) == {};
    }
  }
}
