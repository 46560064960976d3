/**
 * Loading the messages of one conversation: a message whose role the contract cannot represent is
 * left out, and its children hang on the nearest represented ancestor. The stored parent links may
 * form cycles, so the walk is bounded by the number of rows.
 */
module Reparenting {
  import opened Common

  type MessageId = nat
  type ExternalId = nat

  datatype Role = User | Assistant | System | Tool | Internal | Unknown

  datatype Stamp = Stamped(parser: nat) | Unstamped | Malformed

  datatype Row = Row(id: MessageId, external: Option<ExternalId>, parent: Option<MessageId>, role: Role, stamp: Stamp)

  datatype Message = Message(external: ExternalId, role: Role, parent: Option<ExternalId>, parser: nat)

  datatype Load = Loaded(messages: seq<Message>, warned: bool) | NotLoadable | Failed

  predicate HasAuthorRole(row: Row) {
    row.role in {User, Assistant, System, Tool}
  }

  /** The primary key of the table. */
  predicate DistinctIds(rows: seq<Row>) {
    forall i, j | 0 <= i < j < |rows| :: rows[i].id != rows[j].id
  }

  type Parents = map<MessageId, Option<MessageId>>

  function ParentsOf(rows: seq<Row>): (parents: Parents)
    requires DistinctIds(rows)
  {
    map row | row in rows :: row.id := row.parent
  }

  function RepresentedIds(rows: seq<Row>): set<MessageId> {
    set row | row in rows && HasAuthorRole(row) :: row.id
  }

  function ExternalsOf(rows: seq<Row>): (externals: map<MessageId, ExternalId>)
    requires DistinctIds(rows)
  {
    map row | row in rows && row.external.Some? :: row.id := row.external.value
  }

  // ---- The ancestors of a message ------------------------------------------------------------------

  /** `start` and then `k` parent links up; a link to a row outside the conversation leads nowhere. */
  function Up(parents: map<nat, Option<nat>>, start: Option<nat>, k: nat): Option<nat> {
    if k == 0 then start
    else
      var below := Up(parents, start, k - 1);
      if below.Some? && below.value in parents then parents[below.value] else None
  }

  /** `nearest` is the first represented id on the way up from `start`, and `None` when there is none. */
  ghost predicate IsNearest(
      parents: Parents, represented: set<MessageId>, start: Option<MessageId>, nearest: Option<MessageId>) {
    match nearest
    case Some(a) =>
      && a in represented
      && exists k: nat :: Up(parents, start, k) == Some(a) && Unrepresented(parents, represented, start, k)
    case None =>
      forall k: nat | Up(parents, start, k).Some? :: Up(parents, start, k).value !in represented
  }

  /** The first `n` ancestors exist and none of them is represented. */
  ghost predicate Unrepresented(parents: Parents, represented: set<MessageId>, start: Option<MessageId>, n: nat) {
    forall j: nat | j < n :: Up(parents, start, j).Some? && Up(parents, start, j).value !in represented
  }

  lemma {:induction false} NothingAboveNone(parents: Parents, start: Option<MessageId>, n: nat, k: nat)
    requires Up(parents, start, n).None? && n <= k
    ensures Up(parents, start, k).None?
  {
    if n < k { NothingAboveNone(parents, start, n, k - 1); }
  }

  lemma {:induction false} Pigeonhole(trail: seq<MessageId>, holes: set<MessageId>) returns (i: nat, j: nat)
    requires |trail| > |holes| && forall x | x in trail :: x in holes
    ensures i < j < |trail| && trail[i] == trail[j]
  {
    var n := |trail| - 1;
    assert trail[n] in trail;
    if trail[n] in trail[..n] {
      i :| 0 <= i < n && trail[i] == trail[n];
      j := n;
    } else {
      i, j := Pigeonhole(trail[..n], holes - {trail[n]});
    }
  }

  /** Two equal ancestors repeat for ever with the distance between them. */
  lemma {:induction false} RepeatsFrom(parents: Parents, start: Option<MessageId>, i: nat, j: nat, k: nat)
    requires i < j && Up(parents, start, i) == Up(parents, start, j) && j <= k
    ensures Up(parents, start, k) == Up(parents, start, k - (j - i))
  {
    if j < k { RepeatsFrom(parents, start, i, j, k - 1); }
  }

  /** A walk longer than the number of rows has seen every ancestor there is. */
  lemma {:induction false} SeenThemAll(
      parents: Parents, represented: set<MessageId>, start: Option<MessageId>, i: nat, j: nat, k: nat)
    requires i < j && Up(parents, start, i) == Up(parents, start, j)
    requires Unrepresented(parents, represented, start, j)
    ensures Up(parents, start, k).Some? && Up(parents, start, k).value !in represented
    decreases k
  {
    if k >= j {
      RepeatsFrom(parents, start, i, j, k);
      SeenThemAll(parents, represented, start, i, j, k - (j - i));
    }
  }

  lemma LongWalkRepeats(parents: Parents, start: Option<MessageId>, n: nat) returns (i: nat, j: nat)
    requires n > |parents| && forall k: nat | k <= n :: Up(parents, start, k).Some?
    ensures i < j < n && Up(parents, start, i) == Up(parents, start, j)
  {
    var trail := seq(n, k requires 0 <= k < n => Up(parents, start, k).value);
    forall x | x in trail ensures x in parents.Keys {
      var k :| 0 <= k < n && trail[k] == x;
      assert Up(parents, start, k + 1).Some?;
    }
    assert |parents.Keys| == |parents|;
    i, j := Pigeonhole(trail, parents.Keys);
    assert trail[i] == Up(parents, start, i).value && trail[j] == Up(parents, start, j).value;
  }

  lemma LongWalkIsEnough(parents: Parents, represented: set<MessageId>, start: Option<MessageId>, n: nat)
    requires n > |parents| && Unrepresented(parents, represented, start, n + 1)
    ensures IsNearest(parents, represented, start, None)
  {
    var i, j := LongWalkRepeats(parents, start, n);
    forall k: nat | Up(parents, start, k).Some? ensures Up(parents, start, k).value !in represented {
      SeenThemAll(parents, represented, start, i, j, k);
    }
  }

  lemma ShortWalkIsEnough(parents: Parents, represented: set<MessageId>, start: Option<MessageId>, n: nat)
    requires Up(parents, start, n).None? && Unrepresented(parents, represented, start, n)
    ensures IsNearest(parents, represented, start, None)
  {
    forall k: nat | Up(parents, start, k).Some? ensures Up(parents, start, k).value !in represented {
      if n <= k { NothingAboveNone(parents, start, n, k); }
    }
  }

  /** The bounded walk finds exactly the nearest represented ancestor, on any parent graph. */
  method NearestRepresented(parents: Parents, represented: set<MessageId>, parent: Option<MessageId>, rows: nat)
    returns (nearest: Option<MessageId>)
    requires |parents| <= rows
    ensures IsNearest(parents, represented, parent, nearest)
  {
    var ancestor, hops := parent, 0;
    while ancestor.Some?
      invariant 0 <= hops <= rows + 1
      invariant ancestor == Up(parents, parent, hops)
      invariant Unrepresented(parents, represented, parent, hops)
      decreases rows + 1 - hops
    {
      var candidate := ancestor.value;
      if candidate in represented || hops > rows {
        break;
      }
      ancestor := if candidate in parents then parents[candidate] else None;
      hops := hops + 1;
    }
    if ancestor.Some? && ancestor.value in represented {
      nearest := ancestor;
    } else {
      nearest := None;
      if ancestor.Some? {
        LongWalkIsEnough(parents, represented, parent, hops);
      } else {
        ShortWalkIsEnough(parents, represented, parent, hops);
      }
    }
  }

  lemma NearestIsUnique(
      parents: Parents, represented: set<MessageId>, start: Option<MessageId>, a: Option<MessageId>,
      b: Option<MessageId>)
    requires IsNearest(parents, represented, start, a) && IsNearest(parents, represented, start, b)
    ensures a == b
  {
    if a.Some? && b.Some? {
      var j: nat :| Up(parents, start, j) == a && Unrepresented(parents, represented, start, j);
      var k: nat :| Up(parents, start, k) == b && Unrepresented(parents, represented, start, k);
      assert j == k;
    }
  }

  // ---- What a load publishes -------------------------------------------------------------------------

  function Represented(rows: seq<Row>): (kept: seq<Row>)
    ensures forall row :: row in kept <==> row in rows && HasAuthorRole(row)
  {
    if rows == [] then []
    else
      var front, last := rows[..|rows| - 1], rows[|rows| - 1];
      assert rows == front + [last];
      Represented(front) + if HasAuthorRole(last) then [last] else []
  }

  predicate Publishable(row: Row) {
    row.stamp.Stamped? && row.external.Some?
  }

  function ExternalOf(externals: map<MessageId, ExternalId>, a: Option<MessageId>): Option<ExternalId> {
    if a.Some? && a.value in externals then Some(externals[a.value]) else None
  }

  /** `message` is `row` under its nearest represented ancestor. */
  ghost predicate IsMessageOf(rows: seq<Row>, row: Row, message: Message)
    requires DistinctIds(rows)
  {
    && Publishable(row)
    && message.external == row.external.value && message.role == row.role && message.parser == row.stamp.parser
    && exists a ::
         && IsNearest(ParentsOf(rows), RepresentedIds(rows), row.parent, a)
         && message.parent == ExternalOf(ExternalsOf(rows), a)
  }

  /** `messages` are the represented rows `kept`, in order. */
  ghost predicate Publishes(rows: seq<Row>, kept: seq<Row>, messages: seq<Message>)
    requires DistinctIds(rows)
  {
    && |messages| == |kept|
    && forall i | 0 <= i < |kept| :: IsMessageOf(rows, kept[i], messages[i])
  }

  function IdsOf(rows: seq<Row>): set<MessageId> {
    set row | row in rows :: row.id
  }

  lemma {:induction false} IdCount(rows: seq<Row>)
    requires DistinctIds(rows)
    ensures |IdsOf(rows)| == |rows|
  {
    if rows != [] {
      var front, last := rows[..|rows| - 1], rows[|rows| - 1];
      IdCount(front);
      assert rows == front + [last];
      assert IdsOf(rows) == IdsOf(front) + {last.id};
      assert forall i | 0 <= i < |front| :: front[i] == rows[i];
      assert last.id !in IdsOf(front);
    }
  }

  lemma ParentCount(rows: seq<Row>)
    requires DistinctIds(rows)
    ensures |ParentsOf(rows)| == |rows|
  {
    IdCount(rows);
    assert ParentsOf(rows).Keys == IdsOf(rows);
    assert |ParentsOf(rows).Keys| == |ParentsOf(rows)|;
  }

  lemma RepresentedStep(rows: seq<Row>, i: nat)
    requires i < |rows|
    ensures Represented(rows[..i + 1]) == Represented(rows[..i]) + if HasAuthorRole(rows[i]) then [rows[i]] else []
  {
    assert rows[..i + 1][..i] == rows[..i];
  }

  /** The message of one represented row, or why the conversation cannot be announced. */
  method PublishRow(
      rows: seq<Row>, row: Row, parents: Parents, represented: set<MessageId>, externals: map<MessageId, ExternalId>)
    returns (result: Result<Message, Load>)
    requires DistinctIds(rows) && row in rows
    requires parents == ParentsOf(rows) && represented == RepresentedIds(rows) && externals == ExternalsOf(rows)
    ensures result.Ok? <==> Publishable(row)
    ensures result.Ok? ==> IsMessageOf(rows, row, result.value)
    ensures result.Err? ==> result.error == if row.stamp.Malformed? then Failed else NotLoadable
  {
    if row.stamp.Malformed? {
      return Err(Failed);
    }
    if row.stamp.Unstamped? || row.id !in externals {
      return Err(NotLoadable);
    }
    ParentCount(rows);
    var nearest := NearestRepresented(parents, represented, row.parent, |rows|);
    var parent := ExternalOf(externals, nearest);
    result := Ok(Message(externals[row.id], row.role, parent, row.stamp.parser));
  }

  lemma OneMore(rows: seq<Row>, kept: seq<Row>, messages: seq<Message>, row: Row, message: Message)
    requires DistinctIds(rows) && Publishes(rows, kept, messages) && IsMessageOf(rows, row, message)
    ensures Publishes(rows, kept + [row], messages + [message])
  {
  }

  /** Every row of `rows` with an author role can be published. */
  ghost predicate AllPublishable(rows: seq<Row>) {
    forall row | row in rows && HasAuthorRole(row) :: Publishable(row)
  }

  ghost predicate SomeLeftOut(rows: seq<Row>) {
    exists row :: row in rows && !HasAuthorRole(row)
  }

  lemma PrefixFacts(rows: seq<Row>, i: nat)
    requires i < |rows|
    ensures AllPublishable(rows[..i + 1]) <==>
              AllPublishable(rows[..i]) && (HasAuthorRole(rows[i]) ==> Publishable(rows[i]))
    ensures SomeLeftOut(rows[..i + 1]) <==> SomeLeftOut(rows[..i]) || !HasAuthorRole(rows[i])
  {
    assert rows[..i + 1] == rows[..i] + [rows[i]];
    assert rows[i] in rows[..i + 1];
    forall row | row in rows[..i] ensures row in rows[..i + 1] {}
  }

  method LoadMessages(rows: seq<Row>) returns (load: Load)
    requires DistinctIds(rows)
    ensures load.Loaded? <==> AllPublishable(rows)
    ensures load.Loaded? ==> Publishes(rows, Represented(rows), load.messages) && (load.warned <==> SomeLeftOut(rows))
    ensures load.Failed? ==> exists row :: row in rows && HasAuthorRole(row) && row.stamp.Malformed?
  {
    var parents, represented, externals := ParentsOf(rows), RepresentedIds(rows), ExternalsOf(rows);
    var messages: seq<Message> := [];
    var leftOut := false;
    for i := 0 to |rows|
      invariant Publishes(rows, Represented(rows[..i]), messages)
      invariant AllPublishable(rows[..i])
      invariant leftOut <==> SomeLeftOut(rows[..i])
    {
      assert rows[i] in rows;
      RepresentedStep(rows, i);
      PrefixFacts(rows, i);
      if !HasAuthorRole(rows[i]) {
        leftOut := true;
        continue;
      }
      var published := PublishRow(rows, rows[i], parents, represented, externals);
      if published.Err? {
        return published.error;
      }
      OneMore(rows, Represented(rows[..i]), messages, rows[i], published.value);
      messages := messages + [published.value];
    }
    assert rows[..|rows|] == rows;
    load := Loaded(messages, leftOut);
  }

  // ---- What the published messages keep ----------------------------------------------------------------

  /** The unique key of the table: one message per provider id of a conversation. */
  predicate DistinctExternals(rows: seq<Row>) {
    forall i, j | 0 <= i < j < |rows| && rows[i].external.Some? :: rows[i].external != rows[j].external
  }

  lemma RepresentedRowOf(rows: seq<Row>, id: MessageId) returns (row: Row)
    requires DistinctIds(rows) && id in RepresentedIds(rows)
    ensures row in Represented(rows) && row.id == id && ParentsOf(rows)[id] == row.parent
  {
    row :| row in rows && HasAuthorRole(row) && row.id == id;
  }

  lemma NearestOf(rows: seq<Row>, kept: seq<Row>, messages: seq<Message>, i: nat) returns (a: Option<MessageId>)
    requires DistinctIds(rows) && Publishes(rows, kept, messages) && i < |messages|
    ensures IsNearest(ParentsOf(rows), RepresentedIds(rows), kept[i].parent, a)
    ensures messages[i].parent == ExternalOf(ExternalsOf(rows), a)
  {
    assert IsMessageOf(rows, kept[i], messages[i]);
    a :| IsNearest(ParentsOf(rows), RepresentedIds(rows), kept[i].parent, a)
      && messages[i].parent == ExternalOf(ExternalsOf(rows), a);
  }

  lemma ExternalAt(rows: seq<Row>, row: Row)
    requires DistinctIds(rows) && row in rows && row.external.Some?
    ensures ExternalOf(ExternalsOf(rows), Some(row.id)) == row.external
  {
  }

  /** The message of a represented row. */
  lemma MessageOf(rows: seq<Row>, kept: seq<Row>, messages: seq<Message>, id: MessageId) returns (l: nat)
    requires DistinctIds(rows) && kept == Represented(rows) && Publishes(rows, kept, messages) && id in RepresentedIds(rows)
    ensures l < |messages| && kept[l].id == id && ExternalOf(ExternalsOf(rows), Some(id)) == Some(messages[l].external)
  {
    var row := RepresentedRowOf(rows, id);
    l :| 0 <= l < |kept| && kept[l] == row;
    assert IsMessageOf(rows, kept[l], messages[l]);
    ExternalAt(rows, row);
  }

  /** Every published parent is itself a published message, the nearest represented ancestor. */
  lemma ParentIsPublished(rows: seq<Row>, messages: seq<Message>, i: nat) returns (j: nat, k: nat)
    requires DistinctIds(rows) && Publishes(rows, Represented(rows), messages)
    requires i < |messages| && messages[i].parent.Some?
    ensures j < |messages| && messages[j].external == messages[i].parent.value
    ensures Up(ParentsOf(rows), Represented(rows)[i].parent, k) == Some(Represented(rows)[j].id)
  {
    var kept := Represented(rows);
    var a := NearestOf(rows, kept, messages, i);
    j := MessageOf(rows, kept, messages, a.value);
    k :| Up(ParentsOf(rows), kept[i].parent, k) == a;
  }

  ghost predicate Acyclic(parents: map<nat, Option<nat>>) {
    forall x: nat, k: nat | k > 0 :: Up(parents, Some(x), k) != Some(x)
  }

  lemma {:induction false} UpAgain(parents: map<nat, Option<nat>>, start: Option<nat>, m: nat, n: nat)
    ensures Up(parents, Up(parents, start, m), n) == Up(parents, start, m + n)
  {
    if n > 0 { UpAgain(parents, start, m, n - 1); }
  }

  ghost predicate DistinctMessages(messages: seq<Message>) {
    forall i, j | 0 <= i < j < |messages| :: messages[i].external != messages[j].external
  }

  function Published(messages: seq<Message>): map<ExternalId, Option<ExternalId>>
    requires DistinctMessages(messages)
  {
    map m | m in messages :: m.external := m.parent
  }

  lemma LastRowDiffers(rows: seq<Row>, row: Row)
    requires DistinctIds(rows) && DistinctExternals(rows) && rows != [] && row in rows[..|rows| - 1]
    ensures row.id != rows[|rows| - 1].id && (row.external.Some? ==> row.external != rows[|rows| - 1].external)
  {
    var i :| 0 <= i < |rows| - 1 && rows[i] == row;
  }

  lemma {:induction false} RepresentedKeepsDistinct(rows: seq<Row>)
    requires DistinctIds(rows) && DistinctExternals(rows)
    ensures DistinctIds(Represented(rows)) && DistinctExternals(Represented(rows))
  {
    if rows != [] {
      var front, last := rows[..|rows| - 1], rows[|rows| - 1];
      RepresentedKeepsDistinct(front);
      var kept := Represented(front);
      forall i | 0 <= i < |kept|
        ensures kept[i].id != last.id && (kept[i].external.Some? ==> kept[i].external != last.external)
      {
        assert kept[i] in kept;
        LastRowDiffers(rows, kept[i]);
      }
    }
  }

  lemma PublishedAreDistinct(rows: seq<Row>, messages: seq<Message>)
    requires DistinctIds(rows) && DistinctExternals(rows) && Publishes(rows, Represented(rows), messages)
    ensures DistinctMessages(messages)
  {
    RepresentedKeepsDistinct(rows);
    var kept := Represented(rows);
    forall i, j | 0 <= i < j < |messages| ensures messages[i].external != messages[j].external {
      assert IsMessageOf(rows, kept[i], messages[i]) && IsMessageOf(rows, kept[j], messages[j]);
    }
  }

  /** Every published link from `x` is some positive number of stored links between the same rows. */
  ghost predicate Backed(
      stored: Parents, published: map<ExternalId, Option<ExternalId>>, ids: map<ExternalId, MessageId>) {
    forall x | x in published ::
      && x in ids
      && (published[x].Some? ==>
            && published[x].value in published && published[x].value in ids
            && StoredLinks(stored, ids[x], ids[published[x].value]))
  }

  ghost predicate StoredLinks(stored: Parents, x: MessageId, y: MessageId) {
    exists k: nat :: k > 0 && Up(stored, Some(x), k) == Some(y)
  }

  /** `n` published links are at least `n` stored links between the same rows. */
  lemma {:induction false} LinksAreStored(
      stored: Parents, published: map<ExternalId, Option<ExternalId>>, ids: map<ExternalId, MessageId>,
      x: ExternalId, n: nat)
    returns (y: ExternalId, k: nat)
    requires Backed(stored, published, ids) && x in published && Up(published, Some(x), n).Some?
    ensures y in published && x in ids && y in ids && Up(published, Some(x), n) == Some(y)
    ensures k >= n && Up(stored, Some(ids[x]), k) == Some(ids[y])
  {
    if n == 0 {
      y, k := x, 0;
    } else {
      var m, before := LinksAreStored(stored, published, ids, x, n - 1);
      y := published[m].value;
      var more: nat :| more > 0 && Up(stored, Some(ids[m]), more) == Some(ids[y]);
      UpAgain(stored, Some(ids[x]), before, more);
      k := before + more;
    }
  }

  /** A published cycle is a stored one through the same row. */
  lemma PublishedCycleIsStored(
      stored: Parents, published: map<ExternalId, Option<ExternalId>>, ids: map<ExternalId, MessageId>, x: ExternalId, k: nat)
    returns (n: nat)
    requires Backed(stored, published, ids) && k > 0 && Up(published, Some(x), k) == Some(x)
    ensures x in published && x in ids && n > 0 && Up(stored, Some(ids[x]), n) == Some(ids[x])
  {
    OnlyKeysHaveParents(published, x, k);
    var y;
    y, n := LinksAreStored(stored, published, ids, x, k);
  }

  lemma {:induction false} OnlyKeysHaveParents(parents: map<nat, Option<nat>>, x: nat, k: nat)
    requires k > 0 && Up(parents, Some(x), k).Some?
    ensures x in parents
  {
    if k > 1 {
      OnlyKeysHaveParents(parents, x, k - 1);
    } else {
      assert Up(parents, Some(x), 0) == Some(x);
    }
  }

  lemma FirstLink(rows: seq<Row>, row: Row, k: nat)
    requires DistinctIds(rows) && row in rows
    ensures Up(ParentsOf(rows), row.parent, k) == Up(ParentsOf(rows), Some(row.id), 1 + k)
  {
    assert Up(ParentsOf(rows), Some(row.id), 0) == Some(row.id);
    assert Up(ParentsOf(rows), Some(row.id), 1) == row.parent;
    UpAgain(ParentsOf(rows), Some(row.id), 1, k);
  }

  ghost function IdByExternal(kept: seq<Row>): map<ExternalId, MessageId>
    requires DistinctExternals(kept)
  {
    map row | row in kept && row.external.Some? :: row.external.value := row.id
  }

  lemma IdByExternalAt(kept: seq<Row>, i: nat)
    requires DistinctExternals(kept) && i < |kept| && kept[i].external.Some?
    ensures kept[i].external.value in IdByExternal(kept) && IdByExternal(kept)[kept[i].external.value] == kept[i].id
  {
    assert kept[i] in kept;
  }

  lemma ExternalOfMessage(rows: seq<Row>, kept: seq<Row>, messages: seq<Message>, i: nat)
    requires DistinctIds(rows) && Publishes(rows, kept, messages) && i < |messages|
    ensures kept[i].external == Some(messages[i].external)
  {
    assert IsMessageOf(rows, kept[i], messages[i]);
  }

  lemma IdOfMessage(rows: seq<Row>, messages: seq<Message>, i: nat)
    requires DistinctIds(rows) && DistinctExternals(Represented(rows)) && Publishes(rows, Represented(rows), messages)
    requires i < |messages|
    ensures messages[i].external in IdByExternal(Represented(rows))
    ensures IdByExternal(Represented(rows))[messages[i].external] == Represented(rows)[i].id
  {
    ExternalOfMessage(rows, Represented(rows), messages, i);
    IdByExternalAt(Represented(rows), i);
  }

  lemma MessageIsBacked(rows: seq<Row>, messages: seq<Message>, i: nat)
    requires DistinctIds(rows) && DistinctExternals(Represented(rows)) && Publishes(rows, Represented(rows), messages)
    requires i < |messages| && messages[i].parent.Some?
    ensures exists j :: 0 <= j < |messages| && messages[j].external == messages[i].parent.value
    ensures
      var ids := IdByExternal(Represented(rows));
      && messages[i].external in ids && messages[i].parent.value in ids
      && StoredLinks(ParentsOf(rows), ids[messages[i].external], ids[messages[i].parent.value])
  {
    var j, k := ParentIsPublished(rows, messages, i);
    IdOfMessage(rows, messages, i);
    IdOfMessage(rows, messages, j);
    assert Represented(rows)[i] in Represented(rows);
    FirstLink(rows, Represented(rows)[i], k);
  }

  lemma PublishedIsBacked(rows: seq<Row>, messages: seq<Message>)
    requires DistinctIds(rows) && DistinctExternals(Represented(rows)) && Publishes(rows, Represented(rows), messages)
    requires DistinctMessages(messages)
    ensures Backed(ParentsOf(rows), Published(messages), IdByExternal(Represented(rows)))
  {
    var published, ids := Published(messages), IdByExternal(Represented(rows));
    forall x | x in published
      ensures x in ids
      ensures published[x].Some? ==>
                && published[x].value in published && published[x].value in ids
                && StoredLinks(ParentsOf(rows), ids[x], ids[published[x].value])
    {
      var i :| 0 <= i < |messages| && messages[i].external == x;
      assert messages[i] in messages;
      IdOfMessage(rows, messages, i);
      if messages[i].parent.Some? { MessageIsBacked(rows, messages, i); }
    }
  }

  // ---- And the other way round ---------------------------------------------------------------------------

  /** The published parent of `x` is met within `k` stored links. */
  ghost predicate MetWithin(
      stored: Parents, published: map<ExternalId, Option<ExternalId>>, ids: map<ExternalId, MessageId>, x: ExternalId, k: nat)
    requires x in published && x in ids
  {
    && published[x].Some? && published[x].value in published && published[x].value in ids
    && exists m: nat :: 0 < m <= k && Up(stored, Some(ids[x]), m) == Some(ids[published[x].value])
  }

  /** Whoever reaches a published message in the stored graph meets its published parent on the way. */
  ghost predicate MeetsParents(
      stored: Parents, published: map<ExternalId, Option<ExternalId>>, ids: map<ExternalId, MessageId>) {
    && (forall x | x in published :: x in ids)
    && forall x, y, k: nat | x in published && y in published && k > 0 && Up(stored, Some(ids[x]), k) == Some(ids[y]) ::
         MetWithin(stored, published, ids, x, k)
  }

  lemma {:induction false} StoredIsPublished(
      stored: Parents, published: map<ExternalId, Option<ExternalId>>, ids: map<ExternalId, MessageId>,
      x: ExternalId, y: ExternalId, k: nat)
    returns (n: nat)
    requires MeetsParents(stored, published, ids) && x in published && y in published
    requires forall u, v | u in published && v in published && ids[u] == ids[v] :: u == v
    requires k > 0 && Up(stored, Some(ids[x]), k) == Some(ids[y])
    ensures n > 0 && Up(published, Some(x), n) == Some(y)
    decreases k
  {
    assert MetWithin(stored, published, ids, x, k);
    var z := published[x].value;
    var m: nat :| 0 < m <= k && Up(stored, Some(ids[x]), m) == Some(ids[z]);
    assert Up(published, Some(x), 0) == Some(x);
    assert Up(published, Some(x), 1) == Some(z);
    if m == k {
      n := 1;
    } else {
      UpAgain(stored, Some(ids[x]), m, k - m);
      var rest := StoredIsPublished(stored, published, ids, z, y, k - m);
      UpAgain(published, Some(x), 1, rest);
      n := 1 + rest;
    }
  }

  /** A row with a represented ancestor `k` links up has its published parent within them. */
  lemma NearestIsMet(parents: Parents, represented: set<MessageId>, start: Option<MessageId>, a: Option<MessageId>, k: nat)
    returns (m: nat)
    requires IsNearest(parents, represented, start, a)
    requires Up(parents, start, k).Some? && Up(parents, start, k).value in represented
    ensures a.Some? && a.value in represented && m <= k && Up(parents, start, m) == a
  {
    m :| Up(parents, start, m) == a && Unrepresented(parents, represented, start, m);
  }

  lemma AncestorIsMet(rows: seq<Row>, row: Row, a: Option<MessageId>, target: MessageId, k: nat) returns (m: nat)
    requires DistinctIds(rows) && row in rows && target in RepresentedIds(rows)
    requires IsNearest(ParentsOf(rows), RepresentedIds(rows), row.parent, a)
    requires k > 0 && Up(ParentsOf(rows), Some(row.id), k) == Some(target)
    ensures a.Some? && a.value in RepresentedIds(rows) && 0 < m <= k && Up(ParentsOf(rows), Some(row.id), m) == a
  {
    FirstLink(rows, row, k - 1);
    var above := NearestIsMet(ParentsOf(rows), RepresentedIds(rows), row.parent, a, k - 1);
    FirstLink(rows, row, above);
    m := 1 + above;
  }

  lemma KeptIsRepresented(rows: seq<Row>, i: nat)
    requires i < |Represented(rows)|
    ensures Represented(rows)[i] in rows && Represented(rows)[i].id in RepresentedIds(rows)
  {
    assert Represented(rows)[i] in Represented(rows);
  }

  lemma ParentIsMet(rows: seq<Row>, messages: seq<Message>, i: nat, j: nat, k: nat) returns (l: nat, m: nat)
    requires DistinctIds(rows) && Publishes(rows, Represented(rows), messages) && i < |messages| && j < |messages|
    requires k > 0 && Up(ParentsOf(rows), Some(Represented(rows)[i].id), k) == Some(Represented(rows)[j].id)
    ensures l < |messages| && messages[i].parent == Some(messages[l].external)
    ensures 0 < m <= k && Up(ParentsOf(rows), Some(Represented(rows)[i].id), m) == Some(Represented(rows)[l].id)
  {
    KeptIsRepresented(rows, i);
    KeptIsRepresented(rows, j);
    var a := NearestOf(rows, Represented(rows), messages, i);
    m := AncestorIsMet(rows, Represented(rows)[i], a, Represented(rows)[j].id, k);
    l := MessageOf(rows, Represented(rows), messages, a.value);
  }

  lemma IndexOf(messages: seq<Message>, x: ExternalId) returns (i: nat)
    requires DistinctMessages(messages) && x in Published(messages)
    ensures i < |messages| && messages[i].external == x && Published(messages)[x] == messages[i].parent
  {
    i :| 0 <= i < |messages| && messages[i].external == x;
    assert messages[i] in messages;
  }

  lemma PublishedMeetsParents(rows: seq<Row>, messages: seq<Message>)
    requires DistinctIds(rows) && DistinctExternals(Represented(rows)) && Publishes(rows, Represented(rows), messages)
    requires DistinctMessages(messages)
    ensures MeetsParents(ParentsOf(rows), Published(messages), IdByExternal(Represented(rows)))
  {
    var stored, published, ids := ParentsOf(rows), Published(messages), IdByExternal(Represented(rows));
    forall x | x in published ensures x in ids {
      var i := IndexOf(messages, x);
      IdOfMessage(rows, messages, i);
    }
    forall x, y, k: nat | x in published && y in published && k > 0 && Up(stored, Some(ids[x]), k) == Some(ids[y])
      ensures MetWithin(stored, published, ids, x, k)
    {
      var i := IndexOf(messages, x);
      var j := IndexOf(messages, y);
      IdOfMessage(rows, messages, i);
      IdOfMessage(rows, messages, j);
      var l, m := ParentIsMet(rows, messages, i, j, k);
      IdOfMessage(rows, messages, l);
      assert messages[l] in messages;
    }
  }

  lemma PublishedIdsDistinct(rows: seq<Row>, messages: seq<Message>, u: ExternalId, v: ExternalId)
    requires DistinctIds(rows) && DistinctIds(Represented(rows)) && DistinctExternals(Represented(rows))
    requires Publishes(rows, Represented(rows), messages) && DistinctMessages(messages)
    requires u in Published(messages) && v in Published(messages)
    ensures u in IdByExternal(Represented(rows)) && v in IdByExternal(Represented(rows))
    ensures IdByExternal(Represented(rows))[u] == IdByExternal(Represented(rows))[v] ==> u == v
  {
    var i := IndexOf(messages, u);
    var j := IndexOf(messages, v);
    IdOfMessage(rows, messages, i);
    IdOfMessage(rows, messages, j);
  }

  /** Some stored cycle passes through a row that is published. */
  ghost predicate RepresentedCycle(rows: seq<Row>)
    requires DistinctIds(rows)
  {
    exists row, k: nat :: row in rows && HasAuthorRole(row) && k > 0 && Up(ParentsOf(rows), Some(row.id), k) == Some(row.id)
  }

  lemma PublishedCycleIsRepresented(rows: seq<Row>, messages: seq<Message>, x: ExternalId, k: nat)
    requires DistinctIds(rows) && DistinctExternals(Represented(rows)) && Publishes(rows, Represented(rows), messages)
    requires DistinctMessages(messages) && k > 0 && Up(Published(messages), Some(x), k) == Some(x)
    ensures RepresentedCycle(rows)
  {
    PublishedIsBacked(rows, messages);
    var n := PublishedCycleIsStored(ParentsOf(rows), Published(messages), IdByExternal(Represented(rows)), x, k);
    var i := IndexOf(messages, x);
    IdOfMessage(rows, messages, i);
    assert Represented(rows)[i] in Represented(rows);
  }

  lemma RepresentedCycleIsPublished(rows: seq<Row>, messages: seq<Message>)
    requires DistinctIds(rows) && DistinctExternals(rows) && Publishes(rows, Represented(rows), messages)
    requires DistinctMessages(messages) && RepresentedCycle(rows)
    ensures !Acyclic(Published(messages))
  {
    RepresentedKeepsDistinct(rows);
    var row, k: nat :| row in rows && HasAuthorRole(row) && k > 0 && Up(ParentsOf(rows), Some(row.id), k) == Some(row.id);
    assert row.id in RepresentedIds(rows);
    var i := MessageOf(rows, Represented(rows), messages, row.id);
    PublishedRound(rows, messages, i, k);
  }

  lemma PublishedRound(rows: seq<Row>, messages: seq<Message>, i: nat, k: nat)
    requires DistinctIds(rows) && DistinctIds(Represented(rows)) && DistinctExternals(Represented(rows))
    requires Publishes(rows, Represented(rows), messages) && DistinctMessages(messages) && i < |messages| && k > 0
    requires Up(ParentsOf(rows), Some(Represented(rows)[i].id), k) == Some(Represented(rows)[i].id)
    ensures !Acyclic(Published(messages))
  {
    var published, ids := Published(messages), IdByExternal(Represented(rows));
    IdOfMessage(rows, messages, i);
    PublishedMeetsParents(rows, messages);
    IdsAreDistinct(rows, messages);
    var x := messages[i].external;
    assert messages[i] in messages;
    var n := StoredIsPublished(ParentsOf(rows), published, ids, x, x, k);
  }

  lemma IdsAreDistinct(rows: seq<Row>, messages: seq<Message>)
    requires DistinctIds(rows) && DistinctIds(Represented(rows)) && DistinctExternals(Represented(rows))
    requires Publishes(rows, Represented(rows), messages) && DistinctMessages(messages)
    ensures
      var published, ids := Published(messages), IdByExternal(Represented(rows));
      && (forall u | u in published :: u in ids)
      && forall u, v | u in published && v in published && ids[u] == ids[v] :: u == v
  {
    var published, ids := Published(messages), IdByExternal(Represented(rows));
    forall u | u in published ensures u in ids { PublishedIdsDistinct(rows, messages, u, u); }
    forall u, v | u in published && v in published && ids[u] == ids[v] ensures u == v {
      PublishedIdsDistinct(rows, messages, u, v);
    }
  }

  /** The published graph is acyclic exactly when no stored cycle passes through a represented row. */
  lemma PublishedAcyclicIff(rows: seq<Row>, messages: seq<Message>)
    requires DistinctIds(rows) && DistinctExternals(rows) && Publishes(rows, Represented(rows), messages)
    ensures DistinctMessages(messages)
    ensures Acyclic(Published(messages)) <==> !RepresentedCycle(rows)
  {
    PublishedAreDistinct(rows, messages);
    RepresentedKeepsDistinct(rows);
    if !Acyclic(Published(messages)) {
      var x: nat, k: nat :| k > 0 && Up(Published(messages), Some(x), k) == Some(x);
      PublishedCycleIsRepresented(rows, messages, x, k);
    }
    if RepresentedCycle(rows) { RepresentedCycleIsPublished(rows, messages); }
  }

  /** So an acyclic stored graph gives an acyclic published one. */
  lemma AcyclicStaysAcyclic(rows: seq<Row>, messages: seq<Message>)
    requires DistinctIds(rows) && DistinctExternals(rows) && Publishes(rows, Represented(rows), messages)
    requires Acyclic(ParentsOf(rows))
    ensures DistinctMessages(messages) && Acyclic(Published(messages))
  {
    PublishedAcyclicIff(rows, messages);
  }
}
