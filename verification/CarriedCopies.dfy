/** The stream copies whose commit failed, kept in memory until a row or a command names them. */
module CarriedCopies {
  import opened Common
  import opened Ordered
  import opened OutboxEvents
  import opened OutboxProtocol
  import opened StreamErasure

  /** The sequences of one owner's commands for one orphaned row are exactly `entry`. */
  ghost predicate AsksFor(commands: seq<Command>, id: EventId, entry: Carried) {
    && (forall c | c in commands && c.request == id :: c.owner == entry.owner)
    && (forall c, q | c in commands && c.request == id && q in c.sequences :: q in entry.sequences)
    && (forall q | q in entry.sequences :: exists c :: c in commands && c.request == id && q in c.sequences)
  }

  class Copies {
    var entries: map<EventId, Carried>

    constructor ()
      ensures entries == map[]
    {
      entries := map[];
    }

    /** The sequences to record for `id`: those carried and the new one, ascending. */
    method WithNew(id: EventId, q: Sequence) returns (merged: seq<Sequence>)
      ensures StrictlyAscending(merged)
      ensures Elements(merged) == (if id in entries then entries[id].sequences else {}) + {q}
    {
      var held := if id in entries then entries[id].sequences else {};
      merged := Sorted(held + {q});
    }

    /** Remembers the sequences of a row whose mark did not commit; only owned content is carried. */
    method KeepCopies(id: EventId, kind: EventType, owner: Option<Owner>, sequences: seq<Sequence>)
      modifies this
      ensures IsContentBearing(kind) && owner.Some? ==>
                entries == old(entries)[id := Carried(owner.value, Elements(sequences))]
      ensures !(IsContentBearing(kind) && owner.Some?) ==> entries == old(entries)
    {
      if IsContentBearing(kind) && owner.Some? {
        entries := entries[id := Carried(owner.value, set q | q in sequences)];
      }
    }

    method ForgetCopies(id: EventId)
      modifies this
      ensures entries == old(entries) - {id}
    {
      entries := entries - {id};
    }

    /**
     * The check at the start of a pass. `published` is what the table answers: present and marked,
     * present and unmarked, or absent. An entry leaves only when its row is marked or its commands
     * are enqueued, and after a whole pass only entries of unmarked rows remain.
     */
    method EraseOrphanedCopies(published: map<EventId, bool>, parses: Owner -> bool)
      returns (commands: seq<Command>, complete: bool)
      modifies this
      ensures entries.Keys <= old(entries).Keys
      ensures forall id | id in entries :: entries[id] == old(entries)[id]
      ensures forall id | id in old(entries) && id in published && !published[id] :: id in entries
      ensures forall id | id in old(entries) && id !in entries ::
                (id in published && published[id]) || AsksFor(commands, id, old(entries)[id])
      ensures forall c | c in commands :: c.request in old(entries) && c.request !in published && c.request !in entries
      ensures complete ==> forall id | id in entries :: id in published && !published[id]
      ensures !complete ==> exists id :: id in entries && id !in published && !parses(entries[id].owner)
    {
      commands, complete := [], true;
      ghost var before := entries;
      var snapshot := entries.Keys;
      while snapshot != {}
        invariant snapshot <= entries.Keys <= before.Keys
        invariant forall id | id in entries :: entries[id] == before[id]
        invariant forall id | id in before && id in published && !published[id] :: id in entries
        invariant forall id | id in before && id !in entries ::
                    (id in published && published[id]) || AsksFor(commands, id, before[id])
        invariant forall c | c in commands :: c.request in before && c.request !in published && c.request !in entries
        invariant forall id | id in entries && id !in snapshot :: id in published && !published[id]
        decreases snapshot
      {
        var id := Least(snapshot);
        if id in published {
          if published[id] {
            entries := entries - {id};
          }
        } else {
          if !parses(entries[id].owner) {
            complete := false;
            return;
          }
          var one := EnqueueOwner(id, entries[id].owner, entries[id].sequences, []);
          OneEntryAsked(one, id, entries[id]);
          KeepAsked(before, commands, one, id);
          commands := commands + one;
          entries := entries - {id};
        }
        snapshot := snapshot - {id};
      }
    }
  }

  /** The blocks of a single entry ask for exactly that entry. */
  lemma OneEntryAsked(one: seq<Command>, id: EventId, entry: Carried)
    requires forall c | c in one :: c.request == id
    requires forall o | o != entry.owner :: Blocks(one, o) == []
    requires Blocks(one, entry.owner) == Chunks(Sorted(entry.sequences), MAX_STREAM_SEQUENCES)
    ensures AsksFor(one, id, entry) && AsksCarried(one, entry)
  {
    var blocks := Blocks(one, entry.owner);
    BlocksPartition(entry.sequences, blocks);
    forall c | c in one
      ensures c.owner == entry.owner && forall q | q in c.sequences :: q in entry.sequences
    {
      BlocksMember(one, c);
      var i :| 0 <= i < |blocks| && blocks[i] == c.sequences;
    }
    forall q | q in entry.sequences
      ensures exists c :: c in one && c.request == id && q in c.sequences
    {
      var i :| 0 <= i < |blocks| && q in blocks[i];
      var c := BlockHasCommand(one, entry.owner, blocks[i]);
    }
  }

  /** Commands for one more row leave what earlier rows asked for as it was. */
  lemma KeepAsked(before: map<EventId, Carried>, commands: seq<Command>, one: seq<Command>, id: EventId)
    requires id in before
    requires forall c | c in commands :: c.request != id
    requires forall c | c in one :: c.request == id
    ensures AsksFor(one, id, before[id]) ==> AsksFor(commands + one, id, before[id])
    ensures forall k | k in before && k != id
        && AsksFor(commands, k, before[k]) :: AsksFor(commands + one, k, before[k])
  {
    forall k | k in before && (if k == id then AsksFor(one, id, before[id]) else AsksFor(commands, k, before[k]))
      ensures AsksFor(commands + one, k, before[k])
    {
      forall q | q in before[k].sequences
        ensures exists c :: c in commands + one && c.request == k && q in c.sequences
      {
        var c :| c in (if k == id then one else commands) && c.request == k && q in c.sequences;
        assert c in commands + one;
      }
    }
  }
}
