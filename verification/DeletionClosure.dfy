/**
 * What a deletion removes beside the rows it names, and the order in which the rows leave.
 * Rows are (table, id) pairs and a database maps each row to the rows its foreign keys name.
 */
module DeletionClosure {
  import opened Ordered

  datatype Table =
    | Accounts | Exports | ImportRuns | CompletenessReports | Revisions | ExtractedArtifacts
    | OperationImports | ReparseRuns | TombstoneRows
    | Projects | Sources | Conversations | Messages | Relations | Parts
    | Artifacts | Versions | References | Assets | Audits

  datatype Row = Row(table: Table, id: nat)

  type Db = map<Row, set<Row>>

  /**
   * The tables a foreign key of `child` names where the database refuses to delete the parent.
   * `conversations.project_id` is not among them: the database clears it.
   */
  function ParentTables(child: Table): set<Table> {
    match child
    case Accounts => {}
    case Exports => {Accounts}
    case ImportRuns => {Exports}
    case CompletenessReports => {ImportRuns}
    case Revisions => {Exports}
    case ExtractedArtifacts => {Exports}
    case OperationImports => {Exports, ImportRuns}
    case ReparseRuns => {Exports}
    case TombstoneRows => {Exports}
    case Projects => {Accounts}
    case Conversations => {Accounts}
    case Sources => {Projects}
    case Assets => {Sources, Messages}
    case Messages => {Conversations, Messages}
    case Relations => {Messages}
    case Parts => {Messages}
    case Artifacts => {Accounts, Projects, Conversations, Messages}
    case Versions => {Artifacts}
    case References => {Projects, Conversations, Artifacts}
    case Audits => {References}
  }

  /** The child references the closure follows. */
  predicate Follows(child: Table, parent: Table) {
    && parent in {Conversations, Messages, Projects, Sources, Artifacts}
    && parent in ParentTables(child)
  }

  ghost predicate WellTyped(db: Db) {
    forall r, p | r in db && p in db[r] :: p.table in ParentTables(r.table)
  }

  ghost predicate NoDangling(db: Db) {
    forall r, p | r in db && p in db[r] :: p in db
  }

  // ---- The least closed set ------------------------------------------------------------------------

  ghost predicate Closed(db: Db, s: set<Row>) {
    forall r, p | r in db && p in db[r] && p in s && Follows(r.table, p.table) :: r in s
  }

  /** The rows of `child` that reference one of `parents`. */
  function Children(db: Db, parents: set<Row>, child: Table): set<Row> {
    set r | r in db && r.table == child && db[r] * parents != {}
  }

  function OfTable(s: set<Row>, t: Table): set<Row> {
    set r | r in s && r.table == t
  }

  /** Every row of `child` under a removed row of `parent` is removed. */
  ghost predicate Done(db: Db, s: set<Row>, child: Table, parent: Table) {
    forall r, p | r in db && r.table == child && p in db[r] && p in s && p.table == parent :: r in s
  }

  /** `s` holds the seeds and only what every closed set with the seeds holds. */
  ghost predicate Forced(db: Db, seeds: set<Row>, s: set<Row>) {
    seeds <= s && forall t: set<Row> | Closed(db, t) && seeds <= t :: s <= t
  }

  /** Adding the children of removed rows adds only what is forced, and completes that reference. */
  lemma PassIsForced(db: Db, seeds: set<Row>, s: set<Row>, child: Table, parent: Table)
    requires Forced(db, seeds, s) && Follows(child, parent)
    ensures Forced(db, seeds, s + Children(db, OfTable(s, parent), child))
    ensures Done(db, s + Children(db, OfTable(s, parent), child), child, parent) || child == parent
  {
    var added := Children(db, OfTable(s, parent), child);
    forall t: set<Row> | Closed(db, t) && seeds <= t ensures s + added <= t {
      forall r | r in added ensures r in t {
        var p :| p in db[r] * OfTable(s, parent);
        assert p in db[r] && p in t && Follows(r.table, p.table);
      }
    }
    forall r, p | child != parent && r in db && r.table == child && p in db[r] && p in s + added && p.table == parent
      ensures r in s + added
    {
      assert p in db[r] * OfTable(s, parent);
    }
  }

  /** A pass leaves complete whatever does not hang on the table it adds to. */
  lemma PassKeepsDone(db: Db, s: set<Row>, more: set<Row>, t: Table, child: Table, parent: Table)
    requires Done(db, s, child, parent) && t != parent && forall r | r in more :: r.table == t
    ensures Done(db, s + more, child, parent)
  {
  }

  // ---- The passes --------------------------------------------------------------------------------------

  datatype Action = RemoveRecord | EraseBlob | RetainShared | RetainEvidenced | EmitTombstone

  datatype Item = Item(row: Row, action: Action)

  function RemovedOf(items: seq<Item>): set<Row> {
    set i | i in items && i.action.RemoveRecord? :: i.row
  }

  predicate Distinct(items: seq<Item>) {
    forall i, j | 0 <= i < j < |items| :: items[i] != items[j]
  }

  /** The references a finished prefix of the passes completes, in their order. */
  const PASSES: seq<(Table, Table)> :=
    [(Messages, Conversations), (Messages, Messages), (Sources, Projects), (Artifacts, Projects),
     (References, Projects),
     (Artifacts, Conversations), (References, Conversations), (Parts, Messages), (Relations, Messages),
     (Artifacts, Messages), (Assets, Messages), (Assets, Sources), (Versions, Artifacts), (References, Artifacts)]

  /** The passes cover every reference the closure follows. */
  lemma PassesCover(child: Table, parent: Table)
    requires Follows(child, parent)
    ensures (child, parent) in PASSES
  {
    var pass := (child, parent);
    match parent
    case Conversations => assert pass == PASSES[0] || pass == PASSES[5] || pass == PASSES[6];
    case Messages =>
      assert || pass == PASSES[1] || pass == PASSES[7] || pass == PASSES[8] || pass == PASSES[9] || pass == PASSES[10];
    case Projects => assert pass == PASSES[2] || pass == PASSES[3] || pass == PASSES[4];
    case Sources => assert pass == PASSES[11];
    case Artifacts => assert pass == PASSES[12] || pass == PASSES[13];
  }

  /** No later pass adds to a table whose children were already collected. */
  lemma PassesAreOrdered(i: nat, j: nat)
    requires i < j < |PASSES|
    ensures PASSES[j].0 != PASSES[i].1 && Follows(PASSES[i].0, PASSES[i].1)
  {
  }

  /** The first `n` passes are complete. */
  ghost predicate DoneUpTo(db: Db, s: set<Row>, n: nat)
    requires n <= |PASSES|
  {
    forall i | 0 <= i < n :: Done(db, s, PASSES[i].0, PASSES[i].1)
  }

  lemma AdvanceDone(db: Db, s: set<Row>, more: set<Row>, n: nat)
    requires n < |PASSES| && DoneUpTo(db, s, n) && forall r | r in more :: r.table == PASSES[n].0
    requires Done(db, s + more, PASSES[n].0, PASSES[n].1)
    ensures DoneUpTo(db, s + more, n + 1)
  {
    forall i | 0 <= i < n + 1 ensures Done(db, s + more, PASSES[i].0, PASSES[i].1) {
      if i < n {
        PassesAreOrdered(i, n);
        PassKeepsDone(db, s, more, PASSES[n].0, PASSES[i].0, PASSES[i].1);
      }
    }
  }

  lemma AllDoneIsClosed(db: Db, s: set<Row>)
    requires DoneUpTo(db, s, |PASSES|)
    ensures Closed(db, s)
  {
    forall r, p | r in db && p in db[r] && p in s && Follows(r.table, p.table) ensures r in s {
      PassesCover(r.table, p.table);
      var i :| 0 <= i < |PASSES| && PASSES[i] == (r.table, p.table);
      assert Done(db, s, PASSES[i].0, PASSES[i].1);
    }
  }

  lemma RemovedAppend(items: seq<Item>, item: Item)
    ensures RemovedOf(items + [item]) == RemovedOf(items) + if item.action.RemoveRecord? then {item.row} else {}
  {
    var more := items + [item];
    forall i ensures i in more <==> i in items || i == item {}
    if item.action.RemoveRecord? { assert item in more; }
  }

  class Closure {
    var items: seq<Item>
    var seen: set<Item>

    ghost predicate Valid()
      reads this
    {
      seen == Elements(items)
    }

    constructor (initial: seq<Item>)
      ensures Valid() && items == initial
    {
      items := initial;
      seen := set i | i in initial;
    }

    /** Adds the removal of `row` unless it is there, and nothing else. */
    method Remove(row: Row)
      requires Valid()
      modifies this
      ensures Valid() && old(items) <= items
      ensures RemovedOf(items) == RemovedOf(old(items)) + {row}
      ensures Distinct(old(items)) ==> Distinct(items)
    {
      var item := Item(row, RemoveRecord);
      if item !in seen {
        RemovedAppend(items, item);
        seen := seen + {item};
        assert Elements(items + [item]) == Elements(items) + {item};
        assert forall i | i in items :: i in Elements(items);
        items := items + [item];
      } else {
        assert item in items;
      }
    }

    method RemoveAll(rows: set<Row>)
      requires Valid()
      modifies this
      ensures Valid() && old(items) <= items
      ensures RemovedOf(items) == RemovedOf(old(items)) + rows
      ensures Distinct(old(items)) ==> Distinct(items)
    {
      var left := rows;
      while left != {}
        invariant Valid() && old(items) <= items && left <= rows
        invariant RemovedOf(items) == RemovedOf(old(items)) + (rows - left)
        invariant Distinct(old(items)) ==> Distinct(items)
        decreases left
      {
        var row :| row in left;
        Remove(row);
        left := left - {row};
      }
    }

    /** One query of the closure: the rows of `child` under the removed rows of `parent`. */
    method AddChildren(db: Db, child: Table, parent: Table)
      requires Valid()
      modifies this
      ensures Valid() && old(items) <= items
      ensures RemovedOf(items) == RemovedOf(old(items)) + Children(db, OfTable(RemovedOf(old(items)), parent), child)
      ensures Distinct(old(items)) ==> Distinct(items)
    {
      var parents := OfTable(RemovedOf(items), parent);
      RemoveAll(Children(db, parents, child));
    }

    /** The recursive query: every message below a removed message, to any depth. */
    method AddDescendants(db: Db, ghost seeds: set<Row>)
      requires Valid() && Forced(db, seeds, RemovedOf(items))
      modifies this
      ensures Valid() && old(items) <= items
      ensures Forced(db, seeds, RemovedOf(items)) && Done(db, RemovedOf(items), Messages, Messages)
      ensures RemovedOf(old(items)) <= RemovedOf(items)
      ensures forall r | r in RemovedOf(items) - RemovedOf(old(items)) :: r.table == Messages
      ensures Distinct(old(items)) ==> Distinct(items)
    {
      ghost var before := RemovedOf(items);
      var parents := OfTable(RemovedOf(items), Messages);
      var descendants := Descendants(db, parents);
      RemoveAll(descendants);
      forall t: set<Row> | Closed(db, t) && seeds <= t ensures before + descendants <= t {
        assert parents <= t;
      }
      assert OfTable(before + descendants, Messages) == parents + descendants;
    }

    /**
     * The passes in their one order give the least set with the seeds that is closed under the
     * child references, each item once.
     */
    method AddDependents(db: Db)
      requires Valid()
      modifies this
      ensures Valid() && old(items) <= items && (Distinct(old(items)) ==> Distinct(items))
      ensures Closed(db, RemovedOf(items)) && Forced(db, RemovedOf(old(items)), RemovedOf(items))
    {
      ghost var seeds := RemovedOf(items);
      for n := 0 to |PASSES|
        invariant Valid() && old(items) <= items && (Distinct(old(items)) ==> Distinct(items))
        invariant Forced(db, seeds, RemovedOf(items)) && DoneUpTo(db, RemovedOf(items), n)
      {
        ghost var before := RemovedOf(items);
        if PASSES[n] == (Messages, Messages) {
          AddDescendants(db, seeds);
          assert RemovedOf(items) == before + (RemovedOf(items) - before);
          AdvanceDone(db, before, RemovedOf(items) - before, n);
        } else {
          PassIsFollowed(n);
          PassIsForced(db, seeds, before, PASSES[n].0, PASSES[n].1);
          AddChildren(db, PASSES[n].0, PASSES[n].1);
          AdvanceDone(db, before, Children(db, OfTable(before, PASSES[n].1), PASSES[n].0), n);
        }
      }
      AllDoneIsClosed(db, RemovedOf(items));
    }
  }

  lemma PassIsFollowed(n: nat)
    requires n < |PASSES|
    ensures Follows(PASSES[n].0, PASSES[n].1)
    ensures PASSES[n].0 == PASSES[n].1 ==> PASSES[n] == (Messages, Messages)
  {
  }

  /** Every message reached from `parents` along parent links, as a recursive union finds them. */
  method Descendants(db: Db, parents: set<Row>) returns (found: set<Row>)
    requires forall p | p in parents :: p.table == Messages
    ensures forall r | r in found :: r in db && r.table == Messages
    ensures Done(db, parents + found, Messages, Messages)
    ensures forall t: set<Row> | Closed(db, t) && parents <= t :: found <= t
  {
    found := Children(db, parents, Messages);
    var working := found;
    ghost var settled := parents;
    DirectChildrenForced(db, parents, parents);
    while working != {}
      invariant Descending(db, parents, settled, working, found)
      decreases db.Keys - found, |working|
    {
      var next := Children(db, working, Messages) - found;
      DescendStep(db, parents, settled, working, found);
      settled := settled + working;
      found := found + next;
      working := next;
    }
  }

  /** The rows found so far: the children of `settled` are among them, those of `working` may not be. */
  ghost predicate Descending(db: Db, parents: set<Row>, settled: set<Row>, working: set<Row>, found: set<Row>) {
    && found <= db.Keys && working <= found && parents + found == settled + working
    && (forall r | r in found :: r.table == Messages)
    && AllBelow(db, settled, found)
    && OnlyForced(db, parents, found)
  }

  ghost predicate OnlyForced(db: Db, parents: set<Row>, found: set<Row>) {
    forall t: set<Row> | Closed(db, t) && parents <= t :: found <= t
  }

  lemma DescendStep(db: Db, parents: set<Row>, settled: set<Row>, working: set<Row>, found: set<Row>)
    requires Descending(db, parents, settled, working, found)
    ensures
      var next := Children(db, working, Messages) - found;
      Descending(db, parents, settled + working, next, found + next)
  {
    DirectChildrenForced(db, parents, working);
    var next := Children(db, working, Messages) - found;
    assert parents + (found + next) == (settled + working) + next;
    assert AllBelow(db, settled + working, found + next);
    assert OnlyForced(db, parents, found + next);
  }

  /** Every message that references one of `parents` is in `found`. */
  ghost predicate AllBelow(db: Db, parents: set<Row>, found: set<Row>) {
    forall r, p | r in db && r.table == Messages && p in db[r] && p in parents :: r in found
  }

  /** What hangs on forced messages is forced. */
  lemma DirectChildrenForced(db: Db, parents: set<Row>, from: set<Row>)
    requires forall p | p in from :: p.table == Messages
    ensures forall t: set<Row> | Closed(db, t) && parents <= t && from <= t :: Children(db, from, Messages) <= t
    ensures AllBelow(db, from, Children(db, from, Messages))
  {
    forall t: set<Row> | Closed(db, t) && parents <= t && from <= t ensures Children(db, from, Messages) <= t {
      forall r | r in Children(db, from, Messages) ensures r in t {
        var p :| p in db[r] * from;
        assert p in db[r] && p in t && Follows(r.table, p.table);
      }
    }
    forall r, p | r in db && r.table == Messages && p in db[r] && p in from ensures r in Children(db, from, Messages) {
      assert p in db[r] * from;
    }
  }
}
