/** The delete statements of the row-removal transaction, in their order. */
module DeletionOrder {
  import opened DeletionClosure

  /**
   * What a plan names: the rows to remove with their dependents, the exports, for a tenant scope
   * the accounts and the reparse runs recorded under the tenant's own spelling.
   */
  datatype Plan = Plan(removed: set<Row>, exports: set<Row>, accounts: set<Row>, tenantRuns: set<Row>)

  datatype Statement =
    | DeleteTenantRuns
    | DeleteExportDependents(dependents: Table)
    | DeleteAudits
    | DeleteRemoved(table: Table)
    | ClearParents
    | DeleteAssetsOfSources
    | DeleteExports
    | DeleteAccounts

  const STATEMENTS: seq<Statement> :=
    [DeleteTenantRuns, DeleteExportDependents(OperationImports), DeleteExportDependents(ReparseRuns),
     DeleteExportDependents(TombstoneRows), DeleteAudits, DeleteRemoved(References), DeleteRemoved(Assets),
     DeleteRemoved(Versions), DeleteRemoved(Artifacts), DeleteRemoved(Relations), DeleteRemoved(Parts), ClearParents,
     DeleteRemoved(Messages), DeleteAssetsOfSources, DeleteRemoved(Sources), DeleteRemoved(Projects),
     DeleteRemoved(Conversations), DeleteRemoved(Revisions), DeleteRemoved(CompletenessReports),
     DeleteRemoved(ImportRuns),
     DeleteRemoved(ExtractedArtifacts), DeleteExports, DeleteAccounts]

  /** Whether a statement deletes a row that references `refs`. */
  predicate Selects(plan: Plan, statement: Statement, row: Row, refs: set<Row>) {
    match statement
    case DeleteTenantRuns => row.table == ReparseRuns && row in plan.tenantRuns
    case DeleteExportDependents(t) => row.table == t && refs * plan.exports != {}
    case DeleteAudits => row.table == Audits && refs * OfTable(plan.removed, References) != {}
    case DeleteRemoved(t) => row.table == t && row in plan.removed
    case ClearParents => false
    case DeleteAssetsOfSources => row.table == Assets && refs * OfTable(plan.removed, Sources) != {}
    case DeleteExports => row in plan.exports
    case DeleteAccounts => row in plan.accounts
  }

  /** A message that stays forgets a parent that goes. */
  function Cleared(plan: Plan, row: Row, refs: set<Row>): set<Row> {
    if row.table == Messages && row !in plan.removed then refs - OfTable(plan.removed, Messages) else refs
  }

  function Execute(db: Db, plan: Plan, statement: Statement): Db {
    if statement.ClearParents? then map r | r in db :: Cleared(plan, r, db[r])
    else map r | r in db && !Selects(plan, statement, r, db[r]) :: db[r]
  }

  function After(db: Db, plan: Plan, n: nat): Db
    requires n <= |STATEMENTS|
  {
    if n == 0 then db else Execute(After(db, plan, n - 1), plan, STATEMENTS[n - 1])
  }

  // ---- What a plan guarantees --------------------------------------------------------------------------

  /** The tables of the archived content itself. */
  predicate IsContent(t: Table) {
    || t.References? || t.Assets? || t.Versions? || t.Artifacts? || t.Relations? || t.Parts? || t.Messages?
    || t.Sources? || t.Projects? || t.Conversations?
  }

  /** The tables an inventory item can name for removal. */
  predicate IsRemovable(t: Table) {
    IsContent(t) || t.Revisions? || t.CompletenessReports? || t.ImportRuns? || t.ExtractedArtifacts?
  }

  ghost predicate KindsFit(plan: Plan) {
    && (forall r | r in plan.removed :: IsRemovable(r.table))
    && (forall r | r in plan.exports :: r.table == Exports)
    && (forall r | r in plan.accounts :: r.table == Accounts)
  }

  ghost predicate ExportsCovered(db: Db, plan: Plan) {
    forall r, p | r in db && p in db[r] && p in plan.exports :: InExportFamily(plan, r)
  }

  ghost predicate RunsCovered(db: Db, plan: Plan) {
    forall r, p | r in db && p in db[r] && p in plan.removed && p.table == ImportRuns ::
      && (r.table == CompletenessReports ==> r in plan.removed)
      && (r.table == OperationImports ==> db[r] * plan.exports != {})
  }

  ghost predicate AccountsCovered(db: Db, plan: Plan) {
    forall r, p | r in db && p in db[r] && p in plan.accounts ::
      && (r.table == Exports ==> r in plan.exports)
      && (r.table in {Projects, Conversations, Artifacts} ==> r in plan.removed)
  }

  /** Every dependent of a row in the plan is in the plan or goes by its reference to an export. */
  ghost predicate Complete(db: Db, plan: Plan) {
    && KindsFit(plan)
    && Closed(db, plan.removed)
    && ExportsCovered(db, plan)
    && RunsCovered(db, plan)
    && AccountsCovered(db, plan)
  }

  predicate InExportFamily(plan: Plan, r: Row) {
    r.table in {ImportRuns, Revisions, ExtractedArtifacts} ==> r in plan.removed
  }

  // ---- The planner -------------------------------------------------------------------------------------

  /** The rows that hang on the exports and on their import runs. */
  function ExportRows(db: Db, exports: set<Row>): set<Row> {
    var runs := Children(db, exports, ImportRuns);
    runs + Children(db, exports, Revisions) + Children(db, exports, ExtractedArtifacts)
    + Children(db, runs, CompletenessReports)
  }

  /** The rows a tenant scope names directly. */
  function AccountRows(db: Db, accounts: set<Row>): set<Row> {
    Children(db, accounts, Projects) + Children(db, accounts, Conversations) + Children(db, accounts, Artifacts)
  }

  /** What a plan starts from: the observed records, the export rows and the account rows. */
  function Seeds(db: Db, observed: set<Row>, exports: set<Row>, accounts: set<Row>): set<Row> {
    observed + ExportRows(db, exports) + AccountRows(db, accounts)
  }

  /** An operation binding names an import run of its own export. */
  ghost predicate BindingsMatch(db: Db) {
    forall r, run, e | r in db && r.table == OperationImports && run in db[r] && run.table == ImportRuns
        && run in db && e in db[run] ::
      e in db[r]
  }

  /** The closure of content rows holds content rows only, and the export rows stay as they were. */
  lemma ForcedStaysInKind(db: Db, seeds: set<Row>, s: set<Row>)
    requires Forced(db, seeds, s) && seeds <= db.Keys
    ensures forall r | r in s && r !in seeds :: IsContent(r.table)
    ensures s <= db.Keys
  {
    var bound := seeds + set r | r in db && IsContent(r.table);
    forall r, p | r in db && p in db[r] && p in bound && Follows(r.table, p.table) ensures r in bound {}
    assert Closed(db, bound) && seeds <= bound;
  }

  /**
   * The closure of an export scope (`accounts` empty) or a tenant scope (`exports` all those of
   * `accounts`) is a complete plan.
   */
  lemma PlanIsComplete(
      db: Db, observed: set<Row>, exports: set<Row>, accounts: set<Row>, runs: set<Row>, removed: set<Row>)
    requires WellTyped(db) && NoDangling(db) && BindingsMatch(db)
    requires observed <= db.Keys && forall r | r in observed :: IsContent(r.table)
    requires forall r | r in exports :: r.table == Exports
    requires forall r | r in accounts :: r.table == Accounts
    requires Children(db, accounts, Exports) <= exports
    requires
      var seeds := Seeds(db, observed, exports, accounts);
      Closed(db, removed) && Forced(db, seeds, removed)
    ensures Complete(db, Plan(removed, exports, accounts, runs))
  {
    KindsOfPlan(db, observed, exports, accounts, removed);
    FamiliesSeeded(db, exports, accounts, Plan(removed, exports, accounts, runs));
    RunsSeeded(db, observed, exports, accounts, Plan(removed, exports, accounts, runs));
  }

  lemma KindsOfPlan(db: Db, observed: set<Row>, exports: set<Row>, accounts: set<Row>, removed: set<Row>)
    requires observed <= db.Keys && forall r | r in observed :: IsContent(r.table)
    requires Forced(db, Seeds(db, observed, exports, accounts), removed)
    ensures forall r | r in removed :: IsRemovable(r.table)
  {
    SeedKinds(db, exports, accounts);
    ForcedStaysInKind(db, Seeds(db, observed, exports, accounts), removed);
    forall r | r in removed ensures IsRemovable(r.table) {
      if r !in Seeds(db, observed, exports, accounts) { assert IsContent(r.table); }
    }
  }

  lemma ChildrenFit(db: Db, parents: set<Row>, t: Table)
    ensures forall r | r in Children(db, parents, t) :: r in db && r.table == t
  {
  }

  lemma SeedKinds(db: Db, exports: set<Row>, accounts: set<Row>)
    ensures ExportRows(db, exports) <= db.Keys && AccountRows(db, accounts) <= db.Keys
    ensures forall r | r in ExportRows(db, exports) :: IsRemovable(r.table) && !IsContent(r.table)
    ensures forall r | r in AccountRows(db, accounts) :: IsContent(r.table)
    ensures forall r | r in ExportRows(db, exports) && r.table == ImportRuns :: r in Children(db, exports, ImportRuns)
  {
    ExportKinds(db, exports);
    AccountKinds(db, accounts);
  }

  lemma ExportKinds(db: Db, exports: set<Row>)
    ensures ExportRows(db, exports) <= db.Keys
    ensures forall r | r in ExportRows(db, exports) :: IsRemovable(r.table) && !IsContent(r.table)
    ensures forall r | r in ExportRows(db, exports) && r.table == ImportRuns :: r in Children(db, exports, ImportRuns)
  {
    ChildrenFit(db, exports, ImportRuns);
    ChildrenFit(db, exports, Revisions);
    ChildrenFit(db, exports, ExtractedArtifacts);
    ChildrenFit(db, Children(db, exports, ImportRuns), CompletenessReports);
  }

  lemma AccountKinds(db: Db, accounts: set<Row>)
    ensures AccountRows(db, accounts) <= db.Keys && forall r | r in AccountRows(db, accounts) :: IsContent(r.table)
  {
    ChildrenFit(db, accounts, Projects);
    ChildrenFit(db, accounts, Conversations);
    ChildrenFit(db, accounts, Artifacts);
  }

  lemma FamiliesSeeded(db: Db, exports: set<Row>, accounts: set<Row>, plan: Plan)
    requires plan.exports == exports && plan.accounts == accounts
    requires ExportRows(db, exports) <= plan.removed && AccountRows(db, accounts) <= plan.removed
    requires Children(db, accounts, Exports) <= exports
    ensures ExportsCovered(db, plan) && AccountsCovered(db, plan)
  {
    forall r, p | r in db && p in db[r] && p in exports ensures InExportFamily(plan, r) {
      ExportChild(db, exports, r, p);
    }
    forall r, p | r in db && p in db[r] && p in accounts
      ensures r.table == Exports ==> r in plan.exports
      ensures r.table in {Projects, Conversations, Artifacts} ==> r in plan.removed
    {
      AccountChild(db, accounts, r, p);
    }
  }

  lemma ExportChild(db: Db, exports: set<Row>, r: Row, p: Row)
    requires r in db && p in db[r] && p in exports
    ensures r.table in {ImportRuns, Revisions, ExtractedArtifacts} ==> r in ExportRows(db, exports)
  {
    assert p in db[r] * exports;
  }

  lemma AccountChild(db: Db, accounts: set<Row>, r: Row, p: Row)
    requires r in db && p in db[r] && p in accounts
    ensures r.table == Exports ==> r in Children(db, accounts, Exports)
    ensures r.table in {Projects, Conversations, Artifacts} ==> r in AccountRows(db, accounts)
  {
    assert p in db[r] * accounts;
  }

  lemma RunsSeeded(db: Db, observed: set<Row>, exports: set<Row>, accounts: set<Row>, plan: Plan)
    requires WellTyped(db) && NoDangling(db) && BindingsMatch(db)
    requires observed <= db.Keys && forall x | x in observed :: IsContent(x.table)
    requires Forced(db, Seeds(db, observed, exports, accounts), plan.removed)
        && plan.exports == exports
    ensures RunsCovered(db, plan)
  {
    forall r, p | r in db && p in db[r] && p in plan.removed && p.table == ImportRuns
      ensures r.table == CompletenessReports ==> r in plan.removed
      ensures r.table == OperationImports ==> db[r] * exports != {}
    {
      RunInPlan(db, observed, exports, accounts, plan.removed, r, p);
    }
  }

  lemma RunInPlan(
      db: Db, observed: set<Row>, exports: set<Row>, accounts: set<Row>, removed: set<Row>, r: Row, run: Row)
    requires WellTyped(db) && NoDangling(db) && BindingsMatch(db)
    requires observed <= db.Keys && forall x | x in observed :: IsContent(x.table)
    requires Forced(db, Seeds(db, observed, exports, accounts), removed)
    requires r in db && run in db[r] && run in removed && run.table == ImportRuns
    ensures r.table == CompletenessReports ==> r in removed
    ensures r.table == OperationImports ==> db[r] * exports != {}
  {
    PlannedRun(db, observed, exports, accounts, removed, run);
    UnderPlannedRun(db, exports, r, run);
  }

  /** The only import runs in a plan are those of its exports. */
  lemma PlannedRun(db: Db, observed: set<Row>, exports: set<Row>, accounts: set<Row>, removed: set<Row>, run: Row)
    requires observed <= db.Keys && forall x | x in observed :: IsContent(x.table)
    requires Forced(db, Seeds(db, observed, exports, accounts), removed)
    requires run in removed && run.table == ImportRuns
    ensures run in Children(db, exports, ImportRuns)
  {
    ForcedStaysInKind(db, Seeds(db, observed, exports, accounts), removed);
    SeedKinds(db, exports, accounts);
    assert !IsContent(run.table);
    assert run in Seeds(db, observed, exports, accounts);
  }

  lemma UnderPlannedRun(db: Db, exports: set<Row>, r: Row, run: Row)
    requires BindingsMatch(db) && NoDangling(db) && r in db && run in db[r] && run in Children(db, exports, ImportRuns)
    ensures r.table == CompletenessReports ==> r in ExportRows(db, exports)
    ensures r.table == OperationImports ==> db[r] * exports != {}
  {
    var runs := Children(db, exports, ImportRuns);
    assert run in db[r] * runs;
    var e :| e in db[run] * exports;
    assert r.table == OperationImports ==> e in db[r] * exports;
  }

  // ---- No statement leaves a dangling reference --------------------------------------------------------

  /** Rows keep their references, and what an earlier statement selects is gone. */
  ghost predicate Prefix(db: Db, plan: Plan, n: nat, now: Db)
    requires n <= |STATEMENTS|
  {
    && (forall r | r in now :: r in db && now[r] == db[r])
    && (forall r | r in db :: r !in now <==> SelectedBefore(plan, n, r, db[r]))
  }

  ghost predicate SelectedBefore(plan: Plan, n: nat, r: Row, refs: set<Row>)
    requires n <= |STATEMENTS|
  {
    exists j :: 0 <= j < n && Selects(plan, STATEMENTS[j], r, refs)
  }

  /** Whoever references a row that a statement deletes is deleted by it or before it. */
  lemma ReferencesGoFirst(db: Db, plan: Plan, n: nat, r: Row, p: Row)
    requires WellTyped(db) && NoDangling(db) && Complete(db, plan)
    requires n < |STATEMENTS| && r in db && p in db[r] && Selects(plan, STATEMENTS[n], p, db[p])
    ensures SelectedBefore(plan, n + 1, r, db[r])
  {
    match STATEMENTS[n]
    case DeleteExports => ExportReferencesGoFirst(db, plan, n, r, p);
    case DeleteAccounts => AccountReferencesGoFirst(db, plan, n, r, p);
    case DeleteRemoved(t) => RemovedReferencesGoFirst(db, plan, n, r, p);
    case _ =>
  }

  lemma RemovedReferencesGoFirst(db: Db, plan: Plan, n: nat, r: Row, p: Row)
    requires WellTyped(db) && Closed(db, plan.removed) && RunsCovered(db, plan)
    requires n < |STATEMENTS| && STATEMENTS[n] == DeleteRemoved(p.table)
    requires r in db && p in db[r] && p in plan.removed
    ensures SelectedBefore(plan, n + 1, r, db[r])
  {
    if Follows(r.table, p.table) {
      ContentGoesFirst(db, plan, n, r, p);
    } else if p.table == References {
      assert p in db[r] * OfTable(plan.removed, References);
      assert Selects(plan, STATEMENTS[4], r, db[r]);
    } else if p.table == ImportRuns {
      RunReferencesGoFirst(db, plan, n, r, p);
    }
  }

  lemma RunReferencesGoFirst(db: Db, plan: Plan, n: nat, r: Row, p: Row)
    requires WellTyped(db) && RunsCovered(db, plan)
    requires n < |STATEMENTS| && r in db && p in db[r] && STATEMENTS[n] == DeleteRemoved(ImportRuns)
    requires p in plan.removed && p.table == ImportRuns
    ensures SelectedBefore(plan, n + 1, r, db[r])
  {
    assert n == 19;
    if r.table == CompletenessReports {
      assert Selects(plan, STATEMENTS[18], r, db[r]);
    } else {
      assert Selects(plan, STATEMENTS[1], r, db[r]);
    }
  }

  lemma ContentGoesFirst(db: Db, plan: Plan, n: nat, r: Row, p: Row)
    requires WellTyped(db) && Closed(db, plan.removed)
    requires n < |STATEMENTS| && r in db && p in db[r] && STATEMENTS[n] == DeleteRemoved(p.table) && p in plan.removed
    requires Follows(r.table, p.table)
    ensures SelectedBefore(plan, n + 1, r, db[r])
  {
    assert r in plan.removed;
    var at := PositionOf(r.table);
    ChildrenComeFirst(r.table, p.table, n);
    assert Selects(plan, STATEMENTS[at], r, db[r]);
  }

  function PositionOf(t: Table): nat {
    match t
    case References => 5
    case Assets => 6
    case Versions => 7
    case Artifacts => 8
    case Relations => 9
    case Parts => 10
    case Messages => 12
    case Sources => 14
    case _ => 0
  }

  lemma ChildrenComeFirst(child: Table, parent: Table, n: nat)
    requires Follows(child, parent) && n < |STATEMENTS| && STATEMENTS[n] == DeleteRemoved(parent)
    ensures PositionOf(child) <= n && STATEMENTS[PositionOf(child)] == DeleteRemoved(child)
  {
    match child
    case References => case Assets => case Versions => case Artifacts => case Relations => case Parts =>
    case Messages => case Sources => case _ =>
  }

  lemma ExportReferencesGoFirst(db: Db, plan: Plan, n: nat, r: Row, p: Row)
    requires WellTyped(db) && ExportsCovered(db, plan) && p.table == Exports
    requires n < |STATEMENTS| && STATEMENTS[n] == DeleteExports && r in db && p in db[r] && p in plan.exports
    ensures SelectedBefore(plan, n + 1, r, db[r])
  {
    assert n == 21;
    assert p in db[r] * plan.exports;
    assert InExportFamily(plan, r);
    match r.table
    case OperationImports => assert Selects(plan, STATEMENTS[1], r, db[r]);
    case ReparseRuns => assert Selects(plan, STATEMENTS[2], r, db[r]);
    case TombstoneRows => assert Selects(plan, STATEMENTS[3], r, db[r]);
    case Revisions => assert Selects(plan, STATEMENTS[17], r, db[r]);
    case ImportRuns => assert Selects(plan, STATEMENTS[19], r, db[r]);
    case ExtractedArtifacts => assert Selects(plan, STATEMENTS[20], r, db[r]);
    case _ => assert false;
  }

  lemma AccountReferencesGoFirst(db: Db, plan: Plan, n: nat, r: Row, p: Row)
    requires WellTyped(db) && AccountsCovered(db, plan) && p.table == Accounts
    requires n < |STATEMENTS| && STATEMENTS[n] == DeleteAccounts && r in db && p in db[r] && p in plan.accounts
    ensures SelectedBefore(plan, n + 1, r, db[r])
  {
    assert n == 22;
    match r.table
    case Exports => assert Selects(plan, STATEMENTS[21], r, db[r]);
    case Projects => assert Selects(plan, STATEMENTS[15], r, db[r]);
    case Conversations => assert Selects(plan, STATEMENTS[16], r, db[r]);
    case Artifacts => assert Selects(plan, STATEMENTS[8], r, db[r]);
    case _ => assert false;
  }

  /** Clearing the parents of kept messages has nothing to clear. */
  lemma ClearingIsIdle(db: Db, plan: Plan, now: Db)
    requires WellTyped(db) && Closed(db, plan.removed) && forall r | r in now :: r in db && now[r] == db[r]
    ensures Execute(now, plan, ClearParents) == now
  {
    forall r | r in now ensures Cleared(plan, r, now[r]) == now[r] {
      forall p | p in now[r] && r.table == Messages && p in OfTable(plan.removed, Messages) ensures r in plan.removed {
        assert Follows(r.table, p.table);
      }
    }
  }

  lemma SelectedNext(plan: Plan, n: nat, r: Row, refs: set<Row>)
    requires n < |STATEMENTS|
    ensures SelectedBefore(plan, n + 1, r, refs) <==>
              (SelectedBefore(plan, n, r, refs) || Selects(plan, STATEMENTS[n], r, refs))
  {
  }

  lemma StatementStep(db: Db, plan: Plan, statement: Statement, before: Db, r: Row)
    requires WellTyped(db) && Closed(db, plan.removed) && forall x | x in before :: x in db && before[x] == db[x]
    requires r in db
    ensures
      var now := Execute(before, plan, statement);
      (r in now <==> r in before && !Selects(plan, statement, r, db[r])) && (r in now ==> now[r] == db[r])
  {
    if statement.ClearParents? { ClearingIsIdle(db, plan, before); }
  }

  lemma PrefixStep(db: Db, plan: Plan, n: nat)
    requires WellTyped(db) && Closed(db, plan.removed)
    requires 0 < n <= |STATEMENTS| && Prefix(db, plan, n - 1, After(db, plan, n - 1))
    ensures Prefix(db, plan, n, After(db, plan, n))
  {
    var statement, before, now := STATEMENTS[n - 1], After(db, plan, n - 1), After(db, plan, n);
    assert now == Execute(before, plan, statement);
    forall r | r in now ensures r in db && now[r] == db[r] {
      assert r in before;
      StatementStep(db, plan, statement, before, r);
    }
    forall r | r in db ensures r !in now <==> SelectedBefore(plan, n, r, db[r]) {
      SelectedNext(plan, n - 1, r, db[r]);
      StatementStep(db, plan, statement, before, r);
    }
  }

  lemma PrefixStart(db: Db, plan: Plan)
    ensures Prefix(db, plan, 0, After(db, plan, 0))
  {
  }

  lemma {:induction false} PrefixHolds(db: Db, plan: Plan, n: nat)
    requires WellTyped(db) && Closed(db, plan.removed) && n <= |STATEMENTS|
    ensures Prefix(db, plan, n, After(db, plan, n))
  {
    if n == 0 {
      PrefixStart(db, plan);
    } else {
      PrefixHolds(db, plan, n - 1);
      PrefixStep(db, plan, n);
    }
  }

  /** After every statement of the transaction every reference names a row that is there. */
  lemma NoStatementLeavesDangling(db: Db, plan: Plan, n: nat)
    requires WellTyped(db) && NoDangling(db) && Complete(db, plan) && n <= |STATEMENTS|
    ensures NoDangling(After(db, plan, n))
  {
    PrefixHolds(db, plan, n);
    var now := After(db, plan, n);
    forall r, p | r in now && p in now[r] ensures p in now {
      if SelectedBefore(plan, n, p, db[p]) {
        var j :| 0 <= j < n && Selects(plan, STATEMENTS[j], p, db[p]);
        ReferencesGoFirst(db, plan, j, r, p);
        var i :| 0 <= i < j + 1 && Selects(plan, STATEMENTS[i], r, db[r]);
        assert SelectedBefore(plan, n, r, db[r]);
      }
    }
  }

  /** A row the transaction is meant to delete. */
  predicate Doomed(plan: Plan, r: Row, refs: set<Row>) {
    || r in plan.removed || r in plan.exports || r in plan.accounts
    || (r.table == ReparseRuns && r in plan.tenantRuns)
    || (r.table in {OperationImports, ReparseRuns, TombstoneRows} && refs * plan.exports != {})
    || (r.table == Audits && refs * OfTable(plan.removed, References) != {})
  }

  lemma RemovedIsSelected(plan: Plan, r: Row, refs: set<Row>)
    requires r in plan.removed && IsRemovable(r.table)
    ensures SelectedBefore(plan, |STATEMENTS|, r, refs)
  {
    var at := match r.table
      case Projects => 15 case Conversations => 16 case Revisions => 17 case CompletenessReports => 18
      case ImportRuns => 19 case ExtractedArtifacts => 20 case t => PositionOf(t);
    assert Selects(plan, STATEMENTS[at], r, refs);
  }

  /** The whole transaction deletes exactly the doomed rows and leaves every other row as it was. */
  lemma ExactlyTheDoomedLeave(db: Db, plan: Plan, r: Row)
    requires WellTyped(db) && NoDangling(db) && Complete(db, plan) && r in db
    ensures r in After(db, plan, |STATEMENTS|) <==> !Doomed(plan, r, db[r])
    ensures r in After(db, plan, |STATEMENTS|) ==> After(db, plan, |STATEMENTS|)[r] == db[r]
  {
    PrefixHolds(db, plan, |STATEMENTS|);
    SelectedIffDoomed(db, plan, r);
  }

  lemma SelectedIffDoomed(db: Db, plan: Plan, r: Row)
    requires Complete(db, plan) && r in db
    ensures SelectedBefore(plan, |STATEMENTS|, r, db[r]) <==> Doomed(plan, r, db[r])
  {
    if SelectedBefore(plan, |STATEMENTS|, r, db[r]) {
      var j :| 0 <= j < |STATEMENTS| && Selects(plan, STATEMENTS[j], r, db[r]);
      SelectedIsDoomed(db, plan, STATEMENTS[j], r);
    } else if Doomed(plan, r, db[r]) {
      if r in plan.removed { RemovedIsSelected(plan, r, db[r]); } else { OthersSelected(plan, r, db[r]); }
      assert false;
    }
  }

  lemma SelectedIsDoomed(db: Db, plan: Plan, statement: Statement, r: Row)
    requires Complete(db, plan) && r in db && statement in STATEMENTS && Selects(plan, statement, r, db[r])
    ensures Doomed(plan, r, db[r])
  {
    AssetsOfSourcesRemoved(db, plan, r);
    if statement.DeleteExportDependents? {
      assert statement.dependents in {OperationImports, ReparseRuns, TombstoneRows};
    }
  }

  lemma OthersSelected(plan: Plan, r: Row, refs: set<Row>)
    requires Doomed(plan, r, refs) && r !in plan.removed
    ensures SelectedBefore(plan, |STATEMENTS|, r, refs)
  {
    assert || Selects(plan, STATEMENTS[21], r, refs) || Selects(plan, STATEMENTS[22], r, refs)
           || Selects(plan, STATEMENTS[0], r, refs) || Selects(plan, STATEMENTS[1], r, refs)
           || Selects(plan, STATEMENTS[2], r, refs) || Selects(plan, STATEMENTS[3], r, refs)
           || Selects(plan, STATEMENTS[4], r, refs);
  }

  /** The assets of removed sources are in the plan already. */
  lemma AssetsOfSourcesRemoved(db: Db, plan: Plan, r: Row)
    requires Complete(db, plan) && r in db
    ensures Selects(plan, DeleteAssetsOfSources, r, db[r]) ==> r in plan.removed
  {
    if Selects(plan, DeleteAssetsOfSources, r, db[r]) {
      var p :| p in db[r] * OfTable(plan.removed, Sources);
      assert p in db[r] && Follows(r.table, p.table);
    }
  }

  /** Every row the transaction is not meant to delete, as it was. */
  function Spared(db: Db, plan: Plan): Db {
    map r | r in db && !Doomed(plan, r, db[r]) :: db[r]
  }

  lemma WholeTransaction(db: Db, plan: Plan)
    requires WellTyped(db) && NoDangling(db) && Complete(db, plan)
    ensures After(db, plan, |STATEMENTS|) == Spared(db, plan)
  {
    var now := After(db, plan, |STATEMENTS|);
    PrefixHolds(db, plan, |STATEMENTS|);
    forall r | r in db
      ensures r in now <==> !Doomed(plan, r, db[r])
      ensures r in now ==> now[r] == db[r]
    {
      ExactlyTheDoomedLeave(db, plan, r);
    }
  }

  lemma NextStatement(db: Db, plan: Plan, n: nat)
    requires WellTyped(db) && NoDangling(db) && Complete(db, plan) && n < |STATEMENTS|
    ensures After(db, plan, n + 1) == Execute(After(db, plan, n), plan, STATEMENTS[n])
    ensures NoDangling(After(db, plan, n + 1))
  {
    NoStatementLeavesDangling(db, plan, n + 1);
  }

  class Database {
    var rows: Db

    constructor (db: Db)
      ensures rows == db
    {
      rows := db;
    }

    /** Runs the statements in their order; no reference dangles after any of them. */
    method RemoveRows(plan: Plan)
      requires WellTyped(rows) && NoDangling(rows) && Complete(rows, plan)
      modifies this
      ensures NoDangling(rows)
      ensures rows == Spared(old(rows), plan)
    {
      ghost var db := rows;
      for n := 0 to |STATEMENTS|
        invariant rows == After(db, plan, n)
        invariant NoDangling(rows)
      {
        NextStatement(db, plan, n);
        rows := Execute(rows, plan, STATEMENTS[n]);
      }
      WholeTransaction(db, plan);
    }
  }
}
