/** The in-memory store: maps from an incident to the sequence of its rows. Every method is proved
    to do what the corresponding transaction of the relational store does to the flat tables. */
module MemoryStore {
  import opened Collections
  import opened Domain
  import opened StateMachine
  import opened Tables

  // ----- Nested rows and the flat table they stand for

  /** Rows kept per incident stand for a flat table: home says under which incident a row lives. */
  ghost predicate Represents<T>(nested: map<Id, seq<T>>, flat: map<Id, T>, home: map<Id, Id>, key: T -> Id)
    ensures Represents(nested, flat, home, key) ==> home.Keys == flat.Keys
  {
    && home.Keys == flat.Keys
    && (forall i, k :: i in nested && 0 <= k < |nested[i]| ==> Placed(nested[i][k], i, flat, home, key))
    && (forall r :: r in flat ==> key(flat[r]) == r && home[r] in nested && flat[r] in nested[home[r]])
    && (forall i :: i in nested ==> DistinctKeys(nested[i], key))
  }

  ghost predicate Placed<T>(row: T, i: Id, flat: map<Id, T>, home: map<Id, Id>, key: T -> Id)
    requires home.Keys == flat.Keys
  {
    key(row) in flat && flat[key(row)] == row && home[key(row)] == i
  }

  ghost predicate DistinctKeys<T>(rows: seq<T>, key: T -> Id) {
    forall j, k :: 0 <= j < k < |rows| ==> key(rows[j]) != key(rows[k])
  }

  function RowsOf<T>(nested: map<Id, seq<T>>, i: Id): seq<T> {
    if i in nested then nested[i] else []
  }

  /** Overwriting a row in place, under the key it has. */
  lemma ReplaceRow<T>(nested: map<Id, seq<T>>, flat: map<Id, T>, home: map<Id, Id>, key: T -> Id, i: Id, k: nat, row: T)
    requires Represents(nested, flat, home, key)
    requires i in nested && k < |nested[i]| && key(row) == key(nested[i][k])
    ensures Represents(nested[i := nested[i][k := row]], flat[key(row) := row], home, key)
    ensures home[key(row)] == i
  {
    var nested', flat' := nested[i := nested[i][k := row]], flat[key(row) := row];
    assert Placed(nested[i][k], i, flat, home, key);
    forall i', k' | i' in nested' && 0 <= k' < |nested'[i']| ensures Placed(nested'[i'][k'], i', flat', home, key) {
      assert Placed(nested[i'][k'], i', flat, home, key);
    }
    forall r | r in flat' ensures key(flat'[r]) == r && home[r] in nested' && flat'[r] in nested'[home[r]] {
      if r == key(row) {
        assert nested'[i][k] == row;
      } else {
        var n :| 0 <= n < |nested[home[r]]| && nested[home[r]][n] == flat[r];
        assert nested'[home[r]][n] == flat[r];
      }
    }
    assert DistinctKeys(nested'[i], key) by {
      assert DistinctKeys(nested[i], key);
    }
  }

  /** Appending a row with a new key. */
  lemma AppendRow<T>(nested: map<Id, seq<T>>, flat: map<Id, T>, home: map<Id, Id>, key: T -> Id, i: Id, row: T)
    requires Represents(nested, flat, home, key) && key(row) !in flat
    ensures Represents(nested[i := RowsOf(nested, i) + [row]], flat[key(row) := row], home[key(row) := i], key)
  {
    var nested', flat', home' := nested[i := RowsOf(nested, i) + [row]], flat[key(row) := row], home[key(row) := i];
    forall i', k' | i' in nested' && 0 <= k' < |nested'[i']| ensures Placed(nested'[i'][k'], i', flat', home', key) {
      if i' in nested && k' < |nested[i']| {
        assert Placed(nested[i'][k'], i', flat, home, key);
      }
    }
    forall r | r in flat' ensures key(flat'[r]) == r && home'[r] in nested' && flat'[r] in nested'[home'[r]] {
      if r == key(row) {
        assert nested'[i][|RowsOf(nested, i)|] == row;
      } else {
        var n :| 0 <= n < |nested[home[r]]| && nested[home[r]][n] == flat[r];
        assert nested'[home[r]][n] == flat[r];
      }
    }
    assert DistinctKeys(nested'[i], key) by {
      forall j, k | 0 <= j < k < |nested'[i]| ensures key(nested'[i][j]) != key(nested'[i][k]) {
        assert Placed(nested[i][j], i, flat, home, key);
        if k < |nested[i]| {
          assert DistinctKeys(nested[i], key);
        }
      }
    }
  }

  /** The table without the rows that live under i, and with the new ones. */
  function Rehoused<T>(flat: map<Id, T>, home: map<Id, Id>, i: Id, added: map<Id, T>): map<Id, T>
    requires home.Keys == flat.Keys
  {
    (map r | r in flat && home[r] != i :: flat[r]) + added
  }

  lemma RehousedRows<T>(flat: map<Id, T>, home: map<Id, Id>, i: Id, added: map<Id, T>)
    requires home.Keys == flat.Keys
    ensures var rehoused := Rehoused(flat, home, i, added);
            && (forall r :: r in rehoused <==> (r in flat && home[r] != i) || r in added)
            && (forall r :: r in added ==> rehoused[r] == added[r])
            && (forall r :: r in rehoused && r !in added ==> rehoused[r] == flat[r])
  {
  }

  /** Replacing all rows of one incident by rows with new keys. */
  lemma ReplaceRows<T>(nested: map<Id, seq<T>>, flat: map<Id, T>, home: map<Id, Id>, key: T -> Id, i: Id, rows: seq<T>, added: map<Id, T>)
    requires Represents(nested, flat, home, key) && DistinctKeys(rows, key)
    requires forall r :: r in added && r in flat ==> home[r] == i
    requires forall k :: 0 <= k < |rows| ==> key(rows[k]) in added && added[key(rows[k])] == rows[k]
    requires forall r :: r in added ==> key(added[r]) == r && added[r] in rows
    ensures Represents(nested[i := rows], Rehoused(flat, home, i, added), Rehoused(home, home, i, map r | r in added :: i), key)
  {
    var nested', flat' := nested[i := rows], Rehoused(flat, home, i, added);
    var homes := map r | r in added :: i;
    var home' := Rehoused(home, home, i, homes);
    RehousedRows(flat, home, i, added);
    RehousedRows(home, home, i, homes);
    hide Rehoused;
    assert home'.Keys == flat'.Keys;
    forall i', k' | i' in nested' && 0 <= k' < |nested'[i']| ensures Placed(nested'[i'][k'], i', flat', home', key) {
      var r := key(nested'[i'][k']);
      if i' == i {
        assert r in added && added[r] == rows[k'] && flat'[r] == added[r] && home'[r] == homes[r];
      } else {
        assert Placed(nested[i'][k'], i', flat, home, key);
        assert r !in added && flat'[r] == flat[r] && home'[r] == home[r];
      }
    }
    hide Placed, DistinctKeys;
    assert forall i' :: i' in nested' && i' != i ==> DistinctKeys(nested[i'], key);
    forall r | r in flat' ensures key(flat'[r]) == r && home'[r] in nested' && flat'[r] in nested'[home'[r]] {
      if r in added {
        assert home'[r] == homes[r] && flat'[r] == added[r];
      } else {
        assert home'[r] == home[r] && flat'[r] == flat[r];
      }
    }
  }

  /** A key that is not met in its incident's rows is not in the table under that incident. */
  lemma AbsentRow<T>(nested: map<Id, seq<T>>, flat: map<Id, T>, home: map<Id, Id>, key: T -> Id, i: Id, r: Id)
    requires Represents(nested, flat, home, key)
    requires forall k :: 0 <= k < |RowsOf(nested, i)| ==> key(RowsOf(nested, i)[k]) != r
    ensures r in flat ==> home[r] != i
  {
    assert r in flat && home[r] == i ==> flat[r] in RowsOf(nested, i);
  }

  lemma RowIsPlaced<T>(nested: map<Id, seq<T>>, flat: map<Id, T>, home: map<Id, Id>, key: T -> Id, i: Id, k: nat)
    requires Represents(nested, flat, home, key) && i in nested && k < |nested[i]|
    ensures Placed(nested[i][k], i, flat, home, key)
  {
  }

  /** Position of the row with the key, or the number of rows. */
  method IndexOf<T>(rows: seq<T>, key: T -> Id, r: Id) returns (index: nat)
    ensures index <= |rows| && (index < |rows| ==> key(rows[index]) == r)
    ensures forall k :: 0 <= k < index ==> key(rows[k]) != r
  {
    index := 0;
    while index < |rows| && key(rows[index]) != r
      invariant 0 <= index <= |rows|
      invariant forall k :: 0 <= k < index ==> key(rows[k]) != r
    {
      index := index + 1;
    }
  }

  ghost predicate Sorted<T>(rows: seq<T>, time: T -> int) {
    forall j, k :: 0 <= j < k < |rows| ==> time(rows[j]) <= time(rows[k])
  }

  /** The row of the longer sequence is the new one, or an old one at the place before. */
  function Origin(n: nat, k: int): int {
    if k < n then k else k - 1
  }

  lemma InsertedRows<T>(rows: seq<T>, n: nat, row: T, more: seq<T>, time: T -> int, key: T -> Id)
    requires n <= |rows| && more == rows[..n] + [row] + rows[n..]
    requires Sorted(rows, time) && DistinctKeys(rows, key) && forall k :: 0 <= k < |rows| ==> key(rows[k]) != key(row)
    requires (forall k :: 0 <= k < n ==> time(rows[k]) <= time(row)) && forall k :: n <= k < |rows| ==> time(row) <= time(rows[k])
    ensures Sorted(more, time) && DistinctKeys(more, key)
    ensures forall x :: x in more <==> x in rows || x == row
  {
    assert forall k :: 0 <= k < |more| ==> more[k] == if k == n then row else rows[Origin(n, k)];
    forall j, k | 0 <= j < k < |more| ensures time(more[j]) <= time(more[k]) && key(more[j]) != key(more[k]) {
      var p, q := Origin(n, j), Origin(n, k);
      if j != n && k != n {
        assert p < q && time(rows[p]) <= time(rows[q]) && key(rows[p]) != key(rows[q]);
      }
    }
    assert rows == rows[..n] + rows[n..];
  }

  /** Insert a row behind all rows that are not later. */
  method InsertByTime<T>(rows: seq<T>, row: T, time: T -> int, ghost key: T -> Id) returns (more: seq<T>)
    requires Sorted(rows, time) && DistinctKeys(rows, key) && forall k :: 0 <= k < |rows| ==> key(rows[k]) != key(row)
    ensures Sorted(more, time) && DistinctKeys(more, key)
    ensures forall x :: x in more <==> x in rows || x == row
  {
    hide DistinctKeys;
    var n := |rows|;
    while n > 0 && time(rows[n - 1]) > time(row)
      invariant 0 <= n <= |rows|
      invariant forall k :: n <= k < |rows| ==> time(row) <= time(rows[k])
    {
      n := n - 1;
    }
    assert n > 0 ==> forall k :: 0 <= k < n ==> time(rows[k]) <= time(rows[n - 1]);
    more := rows[..n] + [row] + rows[n..];
    InsertedRows(rows, n, row, more, time, key);
  }

  /** sort.SliceStable by time. */
  method SortByTime<T>(rows: seq<T>, time: T -> int, ghost key: T -> Id) returns (sorted: seq<T>)
    requires DistinctKeys(rows, key)
    ensures Sorted(sorted, time) && DistinctKeys(sorted, key)
    ensures forall x :: x in sorted <==> x in rows
  {
    sorted := [];
    var k := 0;
    while k < |rows|
      invariant 0 <= k <= |rows| && Sorted(sorted, time) && DistinctKeys(sorted, key)
      invariant forall x :: x in sorted <==> x in rows[..k]
    {
      forall n | 0 <= n < |sorted| ensures key(sorted[n]) != key(rows[k]) {
        assert sorted[n] in rows[..k];
      }
      assert rows[..k + 1] == rows[..k] + [rows[k]];
      sorted := InsertByTime(sorted, rows[k], time, key);
      k := k + 1;
    }
    assert rows[..k] == rows;
  }

  function ActionId(row: Action): Id { row.id }
  function ExecutionId(row: Execution): Id { row.id }
  function RollbackId(row: Rollback): Id { row.id }
  function VerifiedId(row: Verification): Id { row.execution }

  function CreationTime(row: Action): int { row.createdAt }
  function StartTime(row: Execution): int { row.startedAt }

  /** The reply of a write: ErrNotFound, false, or true. */
  datatype Reply = NotFound | No | Yes

  /** The reply and the new tables are those of the transaction. */
  ghost predicate Does(write: Write, reply: Reply, before: Database, after: Database) {
    match write
    case Missing => reply == NotFound && after == before
    case Refused => reply == No && after == before
    case Done(db) => reply == Yes && after == db
  }

  /** The rows of a batch by their ids. */
  function BatchMap(batch: seq<Action>): map<Id, Action> {
    if batch == [] then map[] else BatchMap(batch[..|batch| - 1])[batch[|batch| - 1].id := batch[|batch| - 1]]
  }

  lemma {:induction false} BatchRows(batch: seq<Action>)
    requires DistinctKeys(batch, ActionId)
    ensures forall k :: 0 <= k < |batch| ==> batch[k].id in BatchMap(batch) && BatchMap(batch)[batch[k].id] == batch[k]
    ensures forall r :: r in BatchMap(batch) ==> BatchMap(batch)[r].id == r && BatchMap(batch)[r] in batch
  {
    if batch != [] {
      var before := batch[..|batch| - 1];
      assert batch == before + [batch[|batch| - 1]];
      BatchRows(before);
      forall k | 0 <= k < |batch| ensures batch[k].id in BatchMap(batch) && BatchMap(batch)[batch[k].id] == batch[k] {
        if k < |before| {
          assert before[k] == batch[k] && ActionId(batch[k]) != ActionId(batch[|batch| - 1]);
        }
      }
    }
  }

  lemma BatchFresh(db: Database, batch: seq<Action>)
    requires DistinctKeys(batch, ActionId) && forall k :: 0 <= k < |batch| ==> batch[k].id !in db.actions
    ensures db.actions.Keys !! BatchMap(batch).Keys
  {
    BatchRows(batch);
    forall r | r in BatchMap(batch) ensures r !in db.actions {
      var k :| 0 <= k < |batch| && batch[k] == BatchMap(batch)[r];
      assert batch[k].id !in db.actions;
    }
  }

  lemma BatchIncident(batch: seq<Action>, incident: Id)
    requires DistinctKeys(batch, ActionId) && forall k :: 0 <= k < |batch| ==> batch[k].incident == incident
    ensures forall a :: a in BatchMap(batch) ==> BatchMap(batch)[a].incident == incident
  {
    BatchRows(batch);
  }

  lemma {:induction false} InsertedBatch(db: Database, batch: seq<Action>)
    ensures SaveCandidateActions(db, batch) == db.(actions := db.actions + BatchMap(batch))
  {
    if batch != [] {
      InsertedBatch(db, batch[..|batch| - 1]);
    }
  }

  lemma BatchHome(db: Database, home: map<Id, Id>, batch: seq<Action>, incident: Id)
    requires home.Keys == db.actions.Keys && DistinctKeys(batch, ActionId)
    requires forall k :: 0 <= k < |batch| ==> batch[k].id in db.actions ==> home[batch[k].id] == incident
    ensures forall a :: a in BatchMap(batch) && a in db.actions ==> home[a] == incident
  {
    BatchRows(batch);
    forall a | a in BatchMap(batch) && a in db.actions ensures home[a] == incident {
      var k :| 0 <= k < |batch| && batch[k] == BatchMap(batch)[a];
      assert batch[k].id in db.actions ==> home[batch[k].id] == incident;
    }
  }

  lemma ReplaceActionRows(nested: map<Id, seq<Action>>, db: Database, home: map<Id, Id>, incident: Id, batch: seq<Action>)
    returns (home': map<Id, Id>)
    requires Represents(nested, db.actions, home, ActionId)
    requires forall a :: a in db.actions ==> home[a] == db.actions[a].incident
    requires forall k :: 0 <= k < |batch| ==> batch[k].incident == incident
    requires forall k :: 0 <= k < |batch| ==> batch[k].id in db.actions ==> home[batch[k].id] == incident
    requires DistinctKeys(batch, ActionId)
    ensures var rows := Rehoused(db.actions, home, incident, BatchMap(batch));
            && Represents(nested[incident := batch], rows, home', ActionId)
            && (forall a :: a in rows ==> home'[a] == rows[a].incident
                                          && (rows[a].incident == incident || (a in db.actions && rows[a] == db.actions[a])))
            && (forall a :: a in db.actions && home[a] != incident ==> a in rows && home'[a] == home[a])
            && (forall a :: a in BatchMap(batch) ==> a in rows && home'[a] == incident)
  {
    hide Represents, BatchMap, Rehoused;
    BatchHome(db, home, batch, incident);
    BatchRows(batch);
    ReplaceRows(nested, db.actions, home, ActionId, incident, batch, BatchMap(batch));
    BatchIncident(batch, incident);
    var homes := map r | r in BatchMap(batch) :: incident;
    RehousedRows(db.actions, home, incident, BatchMap(batch));
    RehousedRows(home, home, incident, homes);
    home' := Rehoused(home, home, incident, homes);
  }

  /** The in-memory store drops the incident's earlier actions when it saves a batch of new ones. It
      agrees with the relational store exactly when the incident had no action before. */
  lemma ReplacingIsInserting(db: Database, home: map<Id, Id>, incident: Id, batch: seq<Action>)
    requires home.Keys == db.actions.Keys && forall a :: a in db.actions ==> home[a] == db.actions[a].incident
    requires DistinctKeys(batch, ActionId) && forall k :: 0 <= k < |batch| ==> batch[k].id !in db.actions
    ensures db.(actions := Rehoused(db.actions, home, incident, BatchMap(batch))) == SaveCandidateActions(db, batch)
            <==> forall a :: a in db.actions ==> db.actions[a].incident != incident
  {
    hide BatchMap, SaveCandidateActions;
    InsertedBatch(db, batch);
    BatchFresh(db, batch);
    var kept := map a | a in db.actions && home[a] != incident :: db.actions[a];
    KeptAll(db.actions, kept, BatchMap(batch));
    if forall a :: a in db.actions ==> db.actions[a].incident != incident {
      assert forall a :: a in db.actions ==> a in kept && kept[a] == db.actions[a];
      assert kept == db.actions;
    }
  }

  /** Overwriting with other keys tells a part of a map from the whole. */
  lemma KeptAll(whole: map<Id, Action>, part: map<Id, Action>, added: map<Id, Action>)
    requires whole.Keys !! added.Keys && forall a :: a in part ==> a in whole
    ensures part + added == whole + added ==> forall a :: a in whole ==> a in part
  {
    if part + added == whole + added {
      forall a | a in whole ensures a in part {
        assert a in (whole + added);
      }
    }
  }

  // ----- Batches over several incidents

  /** The rows of the incidents that are done are the batch's, the other rows are as before. */
  ghost predicate Regrouped(before: map<Id, Action>, after: map<Id, Action>, batch: seq<Action>, done: set<Id>) {
    && (forall a :: a in before && before[a].incident !in done ==> a in after && after[a] == before[a])
    && (forall k :: 0 <= k < |batch| && batch[k].incident in done ==> batch[k].id in after && after[batch[k].id] == batch[k])
    && (forall a :: a in after ==> || (after[a] in batch && after[a].incident in done)
                                   || (a in before && before[a].incident !in done && after[a] == before[a]))
  }

  /** The rows of the batch that belong to one incident. */
  method GroupOf(batch: seq<Action>, incident: Id) returns (group: seq<Action>)
    requires DistinctKeys(batch, ActionId)
    ensures DistinctKeys(group, ActionId)
    ensures forall x :: x in group <==> x in batch && x.incident == incident
  {
    group := [];
    var k := 0;
    while k < |batch|
      invariant 0 <= k <= |batch| && DistinctKeys(group, ActionId)
      invariant forall x :: x in group <==> x in batch[..k] && x.incident == incident
    {
      assert batch[..k + 1] == batch[..k] + [batch[k]];
      if batch[k].incident == incident {
        forall j | 0 <= j < |group| ensures group[j].id != batch[k].id {
          assert group[j] in group;
          var n :| 0 <= n < k && batch[n] == group[j];
          assert ActionId(batch[n]) != ActionId(batch[k]);
        }
        group := group + [batch[k]];
      }
      k := k + 1;
    }
    assert batch[..k] == batch;
  }

  /** Rows of a batch: an id that is met already belongs to the incident it is given. */
  ghost predicate SameHomes(rows: map<Id, Action>, batch: seq<Action>) {
    forall k :: 0 <= k < |batch| && batch[k].id in rows ==> rows[batch[k].id].incident == batch[k].incident
  }

  lemma RegroupedHomes(before: map<Id, Action>, after: map<Id, Action>, batch: seq<Action>, done: set<Id>)
    requires Regrouped(before, after, batch, done) && SameHomes(before, batch) && DistinctKeys(batch, ActionId)
    requires forall a :: a in after ==> after[a].id == a
    ensures SameHomes(after, batch)
  {
    forall k | 0 <= k < |batch| && batch[k].id in after ensures after[batch[k].id].incident == batch[k].incident {
      var row := after[batch[k].id];
      if row in batch {
        var j :| 0 <= j < |batch| && batch[j] == row;
        assert j != k ==> ActionId(batch[j]) != ActionId(batch[k]);
      }
    }
  }

  lemma RegroupedNext(before: map<Id, Action>, middle: map<Id, Action>, home: map<Id, Id>, batch: seq<Action>, done: set<Id>, i: Id, group: seq<Action>)
    requires Regrouped(before, middle, batch, done) && DistinctKeys(group, ActionId) && i !in done
    requires forall x :: x in group <==> x in batch && x.incident == i
    requires home.Keys == middle.Keys && forall a :: a in middle ==> home[a] == middle[a].incident
    requires SameHomes(middle, batch)
    ensures Regrouped(before, Rehoused(middle, home, i, BatchMap(group)), batch, done + {i})
  {
    hide BatchMap, Rehoused, DistinctKeys;
    var after := Rehoused(middle, home, i, BatchMap(group));
    RehousedRows(middle, home, i, BatchMap(group));
    BatchRows(group);
    BatchHome(Database(map[], middle, map[], map[], map[], map[], map[]), home, group, i) by {
      forall k | 0 <= k < |group| ensures group[k].id in middle ==> home[group[k].id] == i {
        assert group[k] in group;
        var n :| 0 <= n < |batch| && batch[n] == group[k];
      }
    }
    forall k | 0 <= k < |batch| && batch[k].incident in done + {i} ensures batch[k].id in after && after[batch[k].id] == batch[k] {
      if batch[k].incident == i {
        assert batch[k] in group;
        var n :| 0 <= n < |group| && group[n] == batch[k];
      } else {
        assert batch[k].id in middle && middle[batch[k].id] == batch[k];
      }
    }
    forall a | a in before && before[a].incident !in done + {i} ensures a in after && after[a] == before[a] {
      assert a in middle && middle[a] == before[a] && home[a] != i;
    }
    forall a | a in after
      ensures (after[a] in batch && after[a].incident in done + {i}) || (a in before && before[a].incident !in done + {i} && after[a] == before[a])
    {
      if a in BatchMap(group) {
        assert after[a] in group;
      } else {
        assert a in middle && after[a] == middle[a] && home[a] != i;
      }
    }
  }

  lemma NothingRegrouped(rows: map<Id, Action>, batch: seq<Action>)
    ensures Regrouped(rows, rows, batch, {})
  {
  }

  class MemoryStore {
    var incidents: map<Id, Incident>
    var actions: map<Id, seq<Action>> // by incident
    var policies: map<Id, Decision>
    var approvals: map<Id, seq<Approval>> // by action
    var executions: map<Id, seq<Execution>> // by incident
    var verify: map<Id, seq<Verification>> // by incident
    var rollbacks: map<Id, seq<Rollback>> // by incident

    ghost var db: Database
    ghost var actionHome: map<Id, Id>
    ghost var executionHome: map<Id, Id>
    ghost var verdictHome: map<Id, Id>
    ghost var rollbackHome: map<Id, Id>

    ghost predicate Valid()
      reads this
    {
      Tabled() && References()
    }

    /** The nested rows are the tables' rows, and every row but executions and rollbacks lives under the
        incident of the row it refers to. */
    ghost predicate Tabled()
      reads this
    {
      && incidents == db.incidents && policies == db.decisions && approvals == db.approvals
      && Represents(actions, db.actions, actionHome, ActionId)
      && Represents(executions, db.executions, executionHome, ExecutionId)
      && Represents(verify, db.verdicts, verdictHome, VerifiedId)
      && Represents(rollbacks, db.rollbacks, rollbackHome, RollbackId)
      && Homes()
    }

    ghost predicate Homes()
      requires actionHome.Keys == db.actions.Keys && executionHome.Keys == db.executions.Keys && verdictHome.Keys == db.verdicts.Keys
      reads this
    {
      && (forall i :: i in db.incidents ==> db.incidents[i].id == i)
      && (forall a :: a in db.actions ==> actionHome[a] == db.actions[a].incident && db.actions[a].incident in db.incidents)
      && (forall v :: v in db.verdicts ==> v in db.executions && verdictHome[v] == executionHome[v])
    }

    /** Executions and rollbacks refer to actions, and live under their incident. */
    ghost predicate References()
      requires actionHome.Keys == db.actions.Keys && executionHome.Keys == db.executions.Keys && rollbackHome.Keys == db.rollbacks.Keys
      reads this
    {
      && (forall r :: r in db.executions ==> db.executions[r].action in db.actions
                                             && executionHome[r] == actionHome[db.executions[r].action])
      && (forall r :: r in db.rollbacks ==> db.rollbacks[r].action in db.actions
                                            && rollbackHome[r] == actionHome[db.rollbacks[r].action])
    }

    constructor ()
      ensures Valid() && db == EMPTY
    {
      incidents, actions, policies, approvals := map[], map[], map[], map[];
      executions, verify, rollbacks := map[], map[], map[];
      db := EMPTY;
      actionHome, executionHome, verdictHome, rollbackHome := map[], map[], map[], map[];
    }

    // ----- Searching

    /** Position of the action among the rows of the incident, or their number. */
    method FindAction(incident: Id, action: Id) returns (index: nat)
      requires Valid()
      ensures index <= |RowsOf(actions, incident)|
      ensures index < |RowsOf(actions, incident)| ==>
                && RowsOf(actions, incident)[index].id == action
                && action in db.actions && db.actions[action] == RowsOf(actions, incident)[index]
                && db.actions[action].incident == incident
      ensures index == |RowsOf(actions, incident)| ==> action !in db.actions || db.actions[action].incident != incident
    {
      hide Represents;
      var rows := RowsOf(actions, incident);
      index := IndexOf(rows, ActionId, action);
      if index < |rows| {
        RowIsPlaced(actions, db.actions, actionHome, ActionId, incident, index);
      } else {
        AbsentRow(actions, db.actions, actionHome, ActionId, incident, action);
      }
    }

    /** The incident under which the action lives, searched over all incidents in any order. */
    method FindHome(action: Id) returns (home: Option<Id>, index: nat)
      requires Valid()
      ensures home.None? <==> action !in db.actions
      ensures home.Some? ==> && home.value == db.actions[action].incident && home.value in actions
                             && index < |actions[home.value]| && actions[home.value][index] == db.actions[action]
                             && actions[home.value][index].id == action
    {
      var todo := actions.Keys;
      index := 0;
      while todo != {}
        invariant todo <= actions.Keys
        invariant action in db.actions ==> actionHome[action] in todo
        decreases |todo|
      {
        var incident := Pick(todo);
        index := FindAction(incident, action);
        if index < |actions[incident]| {
          return Some(incident), index;
        }
        todo := todo - {incident};
      }
      home := None;
    }

    /** Does the incident hold an execution of the action? */
    method HasExecution(incident: Id, action: Id) returns (found: bool)
      requires Valid() && action in db.actions && db.actions[action].incident == incident
      ensures found == Recorded(db, action)
    {
      var rows := RowsOf(executions, incident);
      var k := 0;
      while k < |rows|
        invariant 0 <= k <= |rows|
        invariant forall n :: 0 <= n < k ==> rows[n].action != action
      {
        if rows[k].action == action {
          assert Placed(rows[k], incident, db.executions, executionHome, ExecutionId);
          return true;
        }
        k := k + 1;
      }
      assert forall r :: r in db.executions && db.executions[r].action == action ==> db.executions[r] in rows;
      found := false;
    }

    /** Does a started execution, of any incident, work on the target? */
    method IsTargetBusy(target: string) returns (busy: bool)
      requires Valid()
      ensures busy == TargetBusy(db, target)
    {
      var todo := executions.Keys;
      while todo != {}
        invariant todo <= executions.Keys
        invariant forall r :: r in db.executions && StartedOn(db, r, target) ==> executionHome[r] in todo
        decreases |todo|
      {
        var incident := Pick(todo);
        busy := IsTargetBusyIn(incident, target);
        if busy {
          return;
        }
        todo := todo - {incident};
      }
      busy := false;
    }

    method IsTargetBusyIn(incident: Id, target: string) returns (busy: bool)
      requires Valid() && incident in executions
      ensures busy <==> exists r :: r in db.executions && executionHome[r] == incident && StartedOn(db, r, target)
    {
      var rows := executions[incident];
      var k := 0;
      while k < |rows|
        invariant 0 <= k <= |rows|
        invariant forall n :: 0 <= n < k ==> rows[n].id in db.executions && !StartedOn(db, rows[n].id, target)
      {
        assert Placed(rows[k], incident, db.executions, executionHome, ExecutionId);
        if rows[k].status == ExecStarted {
          var index := FindAction(incident, rows[k].action);
          if index < |RowsOf(actions, incident)| && actions[incident][index].target == target {
            assert StartedOn(db, rows[k].id, target);
            return true;
          }
        }
        k := k + 1;
      }
      forall r | r in db.executions && executionHome[r] == incident ensures !StartedOn(db, r, target) {
        var n :| 0 <= n < |rows| && rows[n] == db.executions[r];
        assert rows[n].id == r;
      }
      busy := false;
    }

    // ----- Reads

    method GetIncident(incident: Id) returns (row: Option<Incident>)
      requires Valid()
      ensures row == if incident in db.incidents then Some(db.incidents[incident]) else None
    {
      row := if incident in incidents then Some(incidents[incident]) else None;
    }

    /** The alert's incident with the latest creation time; the incidents are met in any order. */
    method GetLatestIncidentByExternalAlertID(alert: string) returns (latest: Option<Incident>, ghost key: Id)
      requires Valid()
      ensures latest.None? ==> forall i :: i in db.incidents ==> db.incidents[i].alert != alert
      ensures latest.Some? ==>
                && latest.value.id == key && key in db.incidents && db.incidents[key] == latest.value && latest.value.alert == alert
                && forall i :: i in db.incidents && db.incidents[i].alert == alert ==> db.incidents[i].createdAt <= latest.value.createdAt
    {
      hide Represents;
      latest, key := None, 0;
      var todo := incidents.Keys;
      while todo != {}
        invariant todo <= incidents.Keys
        invariant latest.None? ==> forall i :: i in incidents && i !in todo ==> incidents[i].alert != alert
        invariant latest.Some? ==>
                    && key in incidents && incidents[key] == latest.value && latest.value.alert == alert
                    && forall i :: i in incidents && i !in todo && incidents[i].alert == alert ==> incidents[i].createdAt <= latest.value.createdAt
        decreases |todo|
      {
        var i := Pick(todo);
        if incidents[i].alert == alert && (latest.None? || incidents[i].createdAt > latest.value.createdAt) {
          latest, key := Some(incidents[i]), i;
        }
        todo := todo - {i};
      }
    }

    method GetCandidateAction(action: Id) returns (row: Option<Action>)
      requires Valid()
      ensures row == if action in db.actions then Some(db.actions[action]) else None
      ensures row.Some? ==> row.value.id == action
    {
      var home, index := FindHome(action);
      row := if home.Some? then Some(actions[home.value][index]) else None;
    }

    method GetPolicyDecision(action: Id) returns (row: Option<Decision>)
      requires Valid()
      ensures row == if action in db.decisions then Some(db.decisions[action]) else None
    {
      row := if action in policies then Some(policies[action]) else None;
    }

    /** The actions of the incident, each once, oldest first. */
    method ListCandidateActions(incident: Id) returns (rows: seq<Action>)
      requires Valid()
      ensures forall x :: x in rows <==> x.id in db.actions && db.actions[x.id] == x && x.incident == incident
      ensures forall a :: a in db.actions && db.actions[a].incident == incident ==> db.actions[a] in rows
      ensures DistinctKeys(rows, ActionId) && forall j, k :: 0 <= j < k < |rows| ==> rows[j].createdAt <= rows[k].createdAt
    {
      rows := RowsOf(actions, incident);
      forall k | 0 <= k < |rows| ensures rows[k].id in db.actions && db.actions[rows[k].id] == rows[k] && rows[k].incident == incident {
        assert Placed(rows[k], incident, db.actions, actionHome, ActionId);
      }
      rows := SortByTime(rows, CreationTime, ActionId);
    }

    method ListApprovals(action: Id) returns (rows: seq<Approval>)
      requires Valid()
      ensures rows == ApprovalsOf(db, action)
    {
      rows := if action in approvals then approvals[action] else [];
    }

    /** The executions with the given status, each exactly once, oldest first. */
    method ListExecutionRecordsByStatus(status: ExecutionStatus) returns (rows: seq<Execution>)
      requires Valid()
      ensures Lists(rows, (x: Execution) => x.status == status) 
      ensures forall j, k :: 0 <= j < k < |rows| ==> rows[j].startedAt <= rows[k].startedAt
    {
      hide Represents;
      rows := List((x: Execution) => x.status == status);
      rows := SortByTime(rows, StartTime, ExecutionId);
    }

    method ListExecutionRecordsByAction(action: Id) returns (rows: seq<Execution>)
      requires Valid()
      ensures Lists(rows, (x: Execution) => x.action == action) 
      ensures forall j, k :: 0 <= j < k < |rows| ==> rows[j].startedAt <= rows[k].startedAt
    {
      hide Represents;
      rows := List((x: Execution) => x.action == action);
      rows := SortByTime(rows, StartTime, ExecutionId);
    }

    /** The wanted executions, each exactly once. */
    ghost predicate Lists(rows: seq<Execution>, wanted: Execution -> bool)
      reads this
    {
      && (forall x :: x in rows <==> x.id in db.executions && db.executions[x.id] == x && wanted(x))
      && DistinctKeys(rows, ExecutionId)
    }

    method List(wanted: Execution -> bool) returns (rows: seq<Execution>)
      requires Valid()
      ensures Lists(rows, wanted)
    {
      rows := [];
      var todo := executions.Keys;
      while todo != {}
        invariant todo <= executions.Keys
        invariant forall x :: x in rows <==> && x.id in db.executions && db.executions[x.id] == x && wanted(x)
                                             && executionHome[x.id] !in todo
        invariant DistinctKeys(rows, ExecutionId)
        decreases |todo|
      {
        var incident := Pick(todo);
        var more := ListIn(incident, wanted);
        forall j, k | 0 <= j < |rows| && 0 <= k < |more| ensures rows[j].id != more[k].id {
          assert rows[j] in rows && more[k] in more;
        }
        rows := rows + more;
        todo := todo - {incident};
      }
    }

    method ListIn(incident: Id, wanted: Execution -> bool) returns (rows: seq<Execution>)
      requires Valid() && incident in executions
      ensures forall x :: x in rows <==> && x.id in db.executions && db.executions[x.id] == x && wanted(x)
                                         && executionHome[x.id] == incident
      ensures DistinctKeys(rows, ExecutionId)
    {
      var all := executions[incident];
      rows := [];
      var k := 0;
      while k < |all|
        invariant 0 <= k <= |all|
        invariant forall x :: x in rows <==> x in all[..k] && wanted(x)
        invariant DistinctKeys(rows, ExecutionId)
      {
        assert all[..k + 1] == all[..k] + [all[k]];
        if wanted(all[k]) {
          forall j | 0 <= j < |rows| ensures rows[j].id != all[k].id {
            assert rows[j] in rows;
            var n :| 0 <= n < k && all[n] == rows[j];
            assert DistinctKeys(all, ExecutionId);
          }
          rows := rows + [all[k]];
        }
        k := k + 1;
      }
      assert all[..k] == all;
      forall x | x in rows ensures x.id in db.executions && db.executions[x.id] == x && executionHome[x.id] == incident {
        var n :| 0 <= n < |all| && all[n] == x;
        assert Placed(all[n], incident, db.executions, executionHome, ExecutionId);
      }
    }

    // ----- Writes

    method CreateIncident(incident: Incident)
      requires Valid() && incident.id !in db.incidents
      modifies this`incidents, this`db
      ensures Valid() && db == old(db).(incidents := old(db).incidents[incident.id := incident])
    {
      hide Represents;
      incidents := incidents[incident.id := incident];
      db := db.(incidents := incidents);
    }

    /** The actions of one incident are replaced. */
    method ReplaceActions(incident: Id, batch: seq<Action>)
      requires Tabled() && incident in db.incidents
      requires forall k :: 0 <= k < |batch| ==> batch[k].incident == incident
      requires forall k :: 0 <= k < |batch| ==> batch[k].id in db.actions ==> actionHome[batch[k].id] == incident
      requires DistinctKeys(batch, ActionId)
      modifies this`actions, this`db, this`actionHome
      ensures Tabled()
      ensures db == old(db).(actions := Rehoused(old(db).actions, old(actionHome), incident, BatchMap(batch)))
    {
      hide Represents, BatchMap, Rehoused;
      ghost var home := ReplaceActionRows(actions, db, actionHome, incident, batch);
      actions := actions[incident := batch];
      db := db.(actions := Rehoused(db.actions, actionHome, incident, BatchMap(batch)));
      actionHome := home;
    }

    /** Executions and rollbacks of the batch's incidents refer to actions of the batch. */
    ghost predicate Referenced(batch: seq<Action>)
      requires Tabled()
      reads this
    {
      && (forall r :: r in db.executions ==> Spared(batch, executionHome[r], db.executions[r].action))
      && (forall r :: r in db.rollbacks ==> Spared(batch, rollbackHome[r], db.rollbacks[r].action))
    }

    /** The batch leaves the incident alone or holds the action. */
    static ghost predicate Spared(batch: seq<Action>, incident: Id, action: Id) {
      forall k :: 0 <= k < |batch| && batch[k].incident == incident ==> InBatch(batch, action)
    }

    static ghost predicate InBatch(batch: seq<Action>, action: Id) {
      exists k :: 0 <= k < |batch| && batch[k].id == action
    }

    /** The new actions of every incident in the batch take the place of all its earlier ones. Executions
        and rollbacks lose their actions exactly when the batch does not hold the ones they refer to. */
    method SaveCandidateActions(batch: seq<Action>)
      requires Tabled() && DistinctKeys(batch, ActionId) && SameHomes(db.actions, batch)
      requires forall k :: 0 <= k < |batch| ==> batch[k].incident in db.incidents
      modifies this`actions, this`db, this`actionHome
      ensures Tabled() && db == old(db).(actions := db.actions)
      ensures Regrouped(old(db).actions, db.actions, batch, set k | 0 <= k < |batch| :: batch[k].incident)
      ensures old(Valid()) ==> (Valid() <==> old(Referenced(batch)))
    {
      hide Tabled, References, Regrouped, SameHomes, DistinctKeys, Referenced;
      var incidents := set k | 0 <= k < |batch| :: batch[k].incident;
      var todo := incidents;
      NothingRegrouped(db.actions, batch);
      assert incidents - todo == {};
      while todo != {}
        invariant todo <= incidents && Tabled() && db == old(db).(actions := db.actions)
        invariant Regrouped(old(db).actions, db.actions, batch, incidents - todo)
        decreases |todo|
      {
        var i := Pick(todo);
        RegroupOne(old(db).actions, batch, incidents - todo, i);
        assert incidents - todo + {i} == incidents - (todo - {i});
        todo := todo - {i};
      }
      assert incidents - todo == incidents;
      if old(Valid()) {
        ReferencesKept(batch);
      }
    }

    method RegroupOne(ghost before: map<Id, Action>, batch: seq<Action>, ghost done: set<Id>, i: Id)
      requires Tabled() && DistinctKeys(batch, ActionId) && SameHomes(before, batch) && i in db.incidents && i !in done
      requires Regrouped(before, db.actions, batch, done)
      modifies this`actions, this`db, this`actionHome
      ensures Tabled() && db == old(db).(actions := db.actions)
      ensures Regrouped(before, db.actions, batch, done + {i})
    {
      hide Represents, BatchMap, Rehoused, Regrouped, SameHomes;
      var group := GroupOf(batch, i);
      PrepareGroup(before, batch, done, i, group);
      RegroupedNext(before, db.actions, actionHome, batch, done, i, group);
      ReplaceActions(i, group);
    }

    /** What ReplaceActions asks of one incident's rows. */
    lemma PrepareGroup(before: map<Id, Action>, batch: seq<Action>, done: set<Id>, i: Id, group: seq<Action>)
      requires Tabled() && DistinctKeys(batch, ActionId) && SameHomes(before, batch)
      requires Regrouped(before, db.actions, batch, done) && DistinctKeys(group, ActionId)
      requires forall x :: x in group <==> x in batch && x.incident == i
      ensures SameHomes(db.actions, batch)
      ensures forall k :: 0 <= k < |group| ==> group[k].incident == i && (group[k].id in db.actions ==> actionHome[group[k].id] == i)
      ensures actionHome.Keys == db.actions.Keys && forall a :: a in db.actions ==> actionHome[a] == db.actions[a].incident
    {
      RegroupedHomes(before, db.actions, batch, done);
      forall k | 0 <= k < |group| ensures group[k].incident == i && (group[k].id in db.actions ==> actionHome[group[k].id] == i) {
        assert group[k] in group;
        var n :| 0 <= n < |batch| && batch[n] == group[k];
      }
    }

    /** An action stays exactly when it is spared. */
    lemma RegroupedKeeps(before: map<Id, Action>, after: map<Id, Action>, batch: seq<Action>, a: Id)
      requires Regrouped(before, after, batch, set k | 0 <= k < |batch| :: batch[k].incident)
      requires DistinctKeys(batch, ActionId) && SameHomes(before, batch) && a in before
      requires forall b :: b in after ==> after[b].id == b
      ensures a in after <==> Spared(batch, before[a].incident, a)
      ensures a in after ==> after[a].incident == before[a].incident
    {
      var done := set k | 0 <= k < |batch| :: batch[k].incident;
      assert before[a].incident in done <==> exists k :: 0 <= k < |batch| && batch[k].incident == before[a].incident;
      if k :| 0 <= k < |batch| && batch[k].id == a {
        assert batch[k].incident in done;
      }
      if a in after && after[a] in batch {
        var k :| 0 <= k < |batch| && batch[k] == after[a];
        assert InBatch(batch, a);
      }
    }

    twostate lemma ReferencesKept(batch: seq<Action>)
      requires old(Valid()) && Tabled() && DistinctKeys(batch, ActionId) && SameHomes(old(db).actions, batch)
      requires db == old(db).(actions := db.actions)
      requires executionHome == old(executionHome) && rollbackHome == old(rollbackHome)
      requires Regrouped(old(db).actions, db.actions, batch, set k | 0 <= k < |batch| :: batch[k].incident)
      ensures References() <==> old(Referenced(batch))
    {
      hide Regrouped, SameHomes, DistinctKeys, Spared, Represents;
      forall a | a in old(db).actions
        ensures a in db.actions <==> Spared(batch, old(actionHome)[a], a)
        ensures a in db.actions ==> actionHome[a] == old(actionHome)[a]
      {
        TabledIds();
        RegroupedKeeps(old(db).actions, db.actions, batch, a);
      }
    }

    lemma TabledIds()
      requires Tabled()
      ensures forall a :: a in db.actions ==> db.actions[a].id == a
    {
    }

    method CompareAndSwapIncidentState(incident: Id, expected: IncidentState, next: IncidentState) returns (reply: Reply)
      requires Valid()
      modifies this
      ensures Valid()
      ensures Does(Tables.CompareAndSwapIncidentState(old(db), incident, expected, next), reply, old(db), db)
    {
      hide Represents, Homes, References;
      if incident !in incidents {
        return NotFound;
      }
      if incidents[incident].state != expected {
        return No;
      }
      SetStateOf(incident, next);
      return Yes;
    }

    /** Overwrite the status of the action found at index. */
    method SetStatusAt(incident: Id, index: nat, status: ActionStatus)
      requires Valid() && incident in actions && index < |actions[incident]|
      modifies this`actions, this`db
      ensures Valid()
      ensures var a := old(actions[incident][index].id);
              a in old(db).actions && db == SetStatus(old(db), a, status)
    {
      hide Represents;
      ghost var row := actions[incident][index].(status := status);
      RowIsPlaced(actions, db.actions, actionHome, ActionId, incident, index);
      ReplaceRow(actions, db.actions, actionHome, ActionId, incident, index, row);
      actions := actions[incident := actions[incident][index := actions[incident][index].(status := status)]];
      db := SetStatus(db, row.id, status);
    }

    method SetStateOf(incident: Id, state: IncidentState)
      requires Valid() && incident in incidents
      modifies this`incidents, this`db
      ensures Valid() && db == SetState(old(db), incident, state)
    {
      hide Represents;
      incidents := incidents[incident := incidents[incident].(state := state)];
      db := SetState(db, incident, state);
    }

    method AppendApproval(record: Approval)
      requires Valid()
      modifies this`approvals, this`db
      ensures Valid()
      ensures db == old(db).(approvals := old(db).approvals[record.action := ApprovalsOf(old(db), record.action) + [record]])
    {
      hide Represents;
      var records := if record.action in approvals then approvals[record.action] else [];
      approvals := approvals[record.action := records + [record]];
      db := db.(approvals := approvals);
    }

    method UpdateCandidateActionStatus(action: Id, status: ActionStatus) returns (reply: Reply)
      requires Valid()
      modifies this
      ensures Valid()
      ensures Does(Tables.UpdateCandidateActionStatus(old(db), action, status), reply, old(db), db)
    {
      hide Represents;
      var home, index := FindHome(action);
      if home.None? {
        return NotFound;
      }
      SetStatusAt(home.value, index, status);
      return Yes;
    }

    method DecideApproval(incident: Id, record: Approval, expectedAction: ActionStatus, nextAction: ActionStatus,
                          expectedIncident: Option<IncidentState>, nextIncident: Option<IncidentState>) returns (reply: Reply)
      requires Valid()
      modifies this
      ensures Valid()
      ensures Does(Tables.DecideApproval(old(db), incident, record, expectedAction, nextAction, expectedIncident, nextIncident),
                   reply, old(db), db)
    {
      hide Represents;
      var index := FindAction(incident, record.action);
      if index == |RowsOf(actions, incident)| {
        return NotFound;
      }
      if actions[incident][index].status != expectedAction {
        return No;
      }
      if incident !in incidents {
        return NotFound;
      }
      if expectedIncident.Some? && incidents[incident].state != expectedIncident.value {
        return No;
      }
      RecordDecision(incident, index, record, nextAction, nextIncident);
      return Yes;
    }

    method RecordDecision(incident: Id, index: nat, record: Approval, nextAction: ActionStatus, nextIncident: Option<IncidentState>)
      requires Valid() && incident in actions && index < |actions[incident]| && actions[incident][index].id == record.action
      requires incident in incidents && record.action in db.actions
      modifies this
      ensures Valid()
      ensures var decided := SetStatus(old(db), record.action, nextAction)
                             .(approvals := old(db).approvals[record.action := ApprovalsOf(old(db), record.action) + [record]]);
              db == if nextIncident.Some? then SetState(decided, incident, nextIncident.value) else decided
    {
      hide Represents;
      SetStatusAt(incident, index, nextAction);
      AppendApproval(record);
      if nextIncident.Some? {
        SetStateOf(incident, nextIncident.value);
      }
    }

    /** Append an execution that has a new id. */
    method AppendExecution(incident: Id, record: Execution)
      requires Valid() && record.id !in db.executions
      requires record.action in db.actions && db.actions[record.action].incident == incident
      modifies this`executions, this`db, this`executionHome
      ensures Valid()
      ensures db == old(db).(executions := old(db).executions[record.id := record])
    {
      hide Represents;
      AppendRow(executions, db.executions, executionHome, ExecutionId, incident, record);
      executions := executions[incident := RowsOf(executions, incident) + [record]];
      db := db.(executions := db.executions[record.id := record]);
      executionHome := executionHome[record.id := incident];
    }

    method ClaimExecution(incident: Id, action: Id, record: Execution) returns (reply: Reply)
      requires Valid() && record.action == action && record.id !in db.executions
      modifies this
      ensures Valid()
      ensures Does(Tables.ClaimExecution(old(db), incident, action, record), reply, old(db), db)
    {
      hide Represents;
      if incident !in incidents {
        return NotFound;
      }
      var index := FindAction(incident, action);
      if index == |RowsOf(actions, incident)| {
        return NotFound;
      }
      if !Executable(actions[incident][index].status) {
        return No;
      }
      var recorded := HasExecution(incident, action);
      if recorded {
        return No;
      }
      var busy := IsTargetBusy(actions[incident][index].target);
      if busy {
        return No;
      }
      SetStatusAt(incident, index, Executing);
      SetStateOf(incident, ExecutingAction);
      AppendExecution(incident, record);
      return Yes;
    }

    /** Update the record with this id, or append it under the incident of its action; a record that
        was claimed is never duplicated. */
    method PutExecution(incident: Id, k: nat, record: Execution)
      requires Valid() && incident in executions && k < |executions[incident]| && executions[incident][k].id == record.id
      requires record.id in db.executions && db.executions[record.id].action == record.action
      modifies this`executions, this`db
      ensures Valid() && db == old(db).(executions := old(db).executions[record.id := record])
    {
      hide Represents;
      ReplaceRow(executions, db.executions, executionHome, ExecutionId, incident, k, record);
      executions := executions[incident := executions[incident][k := record]];
      db := db.(executions := db.executions[record.id := record]);
    }

    method SaveExecutionRecord(record: Execution) returns (reply: Reply)
      requires Valid()
      requires record.id in db.executions ==> db.executions[record.id].action == record.action
      modifies this
      ensures Valid()
      ensures Does(Tables.SaveExecutionRecord(old(db), record), reply, old(db), db)
    {
      hide Represents;
      var home, index := FindHome(record.action);
      if home.None? {
        return NotFound;
      }
      var incident := home.value;
      var rows := RowsOf(executions, incident);
      var k := IndexOf(rows, ExecutionId, record.id);
      if k < |rows| {
        RowIsPlaced(executions, db.executions, executionHome, ExecutionId, incident, k);
        PutExecution(incident, k, record);
        return Yes;
      }
      AbsentRow(executions, db.executions, executionHome, ExecutionId, incident, record.id);
      AppendExecution(incident, record);
      return Yes;
    }

    method SavePolicyDecisions(decisions: seq<Decision>)
      requires Valid()
      modifies this`policies, this`db
      ensures Valid()
      ensures db == Tables.SavePolicyDecisions(old(db), decisions)
    {
      hide Represents;
      var k := 0;
      assert decisions[..0] == [];
      while k < |decisions|
        invariant 0 <= k <= |decisions| && Valid()
        invariant db == Tables.SavePolicyDecisions(old(db), decisions[..k])
      {
        var decision := decisions[k];
        assert decisions[..k + 1][..k] == decisions[..k] && decisions[..k + 1][k] == decision;
        policies := policies[decision.action := decision];
        db := db.(decisions := policies);
        k := k + 1;
      }
      assert decisions[..k] == decisions;
    }

    /** The incident under which the execution lives. */
    method FindExecutionHome(record: Id) returns (home: Option<Id>)
      requires Valid()
      ensures home.None? <==> record !in db.executions
      ensures home.Some? ==> home.value == executionHome[record]
    {
      var todo := executions.Keys;
      while todo != {}
        invariant todo <= executions.Keys
        invariant record in db.executions ==> executionHome[record] in todo
        decreases |todo|
      {
        var incident := Pick(todo);
        var k := IndexOf(executions[incident], ExecutionId, record);
        if k < |executions[incident]| {
          assert Placed(executions[incident][k], incident, db.executions, executionHome, ExecutionId);
          return Some(incident);
        }
        AbsentRow(executions, db.executions, executionHome, ExecutionId, incident, record);
        todo := todo - {incident};
      }
      home := None;
    }

    method AppendVerification(incident: Id, row: Verification)
      requires Valid() && row.execution in db.executions && executionHome[row.execution] == incident && row.execution !in db.verdicts
      modifies this`verify, this`db, this`verdictHome
      ensures Valid()
      ensures db == old(db).(verdicts := old(db).verdicts[row.execution := row])
    {
      hide Represents;
      AppendRow(verify, db.verdicts, verdictHome, VerifiedId, incident, row);
      verify := verify[incident := RowsOf(verify, incident) + [row]];
      db := db.(verdicts := db.verdicts[row.execution := row]);
      verdictHome := verdictHome[row.execution := incident];
    }

    /** Replace the result of the execution, or append one under the given incident. */
    method PutVerification(incident: Id, row: Verification)
      requires Valid() && row.execution in db.executions && executionHome[row.execution] == incident
      modifies this`verify, this`db, this`verdictHome
      ensures Valid()
      ensures db == old(db).(verdicts := old(db).verdicts[row.execution := row])
    {
      hide Represents;
      var rows := RowsOf(verify, incident);
      var k := IndexOf(rows, VerifiedId, row.execution);
      if k < |rows| {
        ReplaceRow(verify, db.verdicts, verdictHome, VerifiedId, incident, k, row);
        verify := verify[incident := rows[k := row]];
        db := db.(verdicts := db.verdicts[row.execution := row]);
      } else {
        AbsentRow(verify, db.verdicts, verdictHome, VerifiedId, incident, row.execution);
        AppendVerification(incident, row);
      }
    }

    /** One verification result per execution: a new one replaces the old. */
    method SaveVerificationResult(record: Id, verdict: Verdict) returns (reply: Reply)
      requires Valid()
      modifies this
      ensures Valid()
      ensures Does(Tables.SaveVerificationResult(old(db), record, verdict), reply, old(db), db)
    {
      hide Represents;
      var home := FindExecutionHome(record);
      if home.None? {
        return NotFound;
      }
      PutVerification(home.value, Verification(record, verdict));
      return Yes;
    }

    method AppendRollback(incident: Id, row: Rollback)
      requires Valid() && row.action in db.actions && db.actions[row.action].incident == incident && row.id !in db.rollbacks
      modifies this`rollbacks, this`db, this`rollbackHome
      ensures Valid()
      ensures db == old(db).(rollbacks := old(db).rollbacks[row.id := row])
    {
      hide Represents;
      AppendRow(rollbacks, db.rollbacks, rollbackHome, RollbackId, incident, row);
      rollbacks := rollbacks[incident := RowsOf(rollbacks, incident) + [row]];
      db := db.(rollbacks := db.rollbacks[row.id := row]);
      rollbackHome := rollbackHome[row.id := incident];
    }

    /** Replace the rollback with this id, or append it under the given incident. */
    method PutRollback(incident: Id, row: Rollback)
      requires Valid() && row.action in db.actions && db.actions[row.action].incident == incident
      requires row.id in db.rollbacks ==> db.rollbacks[row.id].action == row.action
      modifies this`rollbacks, this`db, this`rollbackHome
      ensures Valid()
      ensures db == old(db).(rollbacks := old(db).rollbacks[row.id := row])
    {
      hide Represents;
      var rows := RowsOf(rollbacks, incident);
      var k := IndexOf(rows, RollbackId, row.id);
      if k < |rows| {
        ReplaceRow(rollbacks, db.rollbacks, rollbackHome, RollbackId, incident, k, row);
        rollbacks := rollbacks[incident := rows[k := row]];
        db := db.(rollbacks := db.rollbacks[row.id := row]);
      } else {
        AbsentRow(rollbacks, db.rollbacks, rollbackHome, RollbackId, incident, row.id);
        AppendRollback(incident, row);
      }
    }

    method SaveRollbackRecord(record: Rollback) returns (reply: Reply)
      requires Valid()
      requires record.id in db.rollbacks ==> db.rollbacks[record.id].action == record.action
      modifies this
      ensures Valid()
      ensures Does(Tables.SaveRollbackRecord(old(db), record), reply, old(db), db)
    {
      var home, index := FindHome(record.action);
      if home.None? {
        return NotFound;
      }
      PutRollback(home.value, record);
      return Yes;
    }
  }
}
