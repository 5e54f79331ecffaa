/** The migration that installs the entitlement register, and its downgrade: deletes,
    renames and inserts on a table with one row per plan and key. */
module Entitlements {
  import opened Seqs

  /** In the source's language a truth value is also an integer. */
  datatype Value = BoolV(truth: bool) | IntV(number: int) | StrV(text: string)

  datatype Row = Row(id: string, planCode: string, key: string, valueType: string,
                     boolValue: Option<bool>, intValue: Option<int>, stringValue: Option<string>)

  datatype Spec = Spec(key: string, value: string -> Value)

  datatype Rename = Rename(from: string, to: string)

  datatype Register = Register(plans: seq<string>, specs: seq<Spec>, removed: seq<string>, renames: seq<Rename>, restored: seq<Spec>)

  // ----- rows and values -----

  predicate IsBool(v: Value) { v.BoolV? }

  predicate IsInt(v: Value) { v.IntV? || v.BoolV? }

  function AsInt(v: Value): int
    requires IsInt(v)
  {
    match v
    case IntV(n) => n
    case BoolV(b) => if b then 1 else 0
  }

  function NewRow(id: string, planCode: string, key: string, v: Value): Row {
    match v
    case BoolV(b) => Row(id, planCode, key, "BOOLEAN", Some(b), None, None)
    case IntV(n) => Row(id, planCode, key, "INTEGER", None, Some(n), None)
    case StrV(s) => Row(id, planCode, key, "STRING", None, None, Some(s))
  }

  /** Fills a row by assignment; the test for truth values has to come first. */
  method ValueRow(id: string, planCode: string, key: string, v: Value) returns (row: Row)
    ensures row == NewRow(id, planCode, key, v)
  {
    row := Row(id, planCode, key, "", None, None, None);
    if IsBool(v) {
      row := row.(valueType := "BOOLEAN", boolValue := Some(v.truth));
    } else if IsInt(v) {
      row := row.(valueType := "INTEGER", intValue := Some(AsInt(v)));
    } else {
      row := row.(valueType := "STRING", stringValue := Some(v.text));
    }
  }

  /** How the application reads a stored row. */
  function Stored(row: Row): Option<Value> {
    if row.valueType == "BOOLEAN" then Some(BoolV(row.boolValue == Some(true)))
    else if row.valueType == "INTEGER" then (if row.intValue.Some? then Some(IntV(row.intValue.value)) else None)
    else (if row.stringValue.Some? then Some(StrV(row.stringValue.value)) else None)
  }

  /** Exactly the column that the row's type names is filled. */
  predicate WellTyped(row: Row) {
    && row.valueType in ["BOOLEAN", "INTEGER", "STRING"]
    && (row.boolValue.Some? <==> row.valueType == "BOOLEAN")
    && (row.intValue.Some? <==> row.valueType == "INTEGER")
    && (row.stringValue.Some? <==> row.valueType == "STRING")
  }

  lemma NewRowReadsBack(id: string, planCode: string, key: string, v: Value)
    ensures WellTyped(NewRow(id, planCode, key, v)) && Stored(NewRow(id, planCode, key, v)) == Some(v)
  {
    assert "BOOLEAN"[0] != "INTEGER"[0] && "BOOLEAN"[0] != "STRING"[0] && "INTEGER"[0] != "STRING"[0];
  }

  // ----- the table and its constraint -----

  function At(rows: seq<Row>, planCode: string, key: string): Option<Row> {
    if rows == [] then None
    else if rows[0].planCode == planCode && rows[0].key == key then Some(rows[0])
    else At(rows[1..], planCode, key)
  }

  /** The unique constraint on plan and key. */
  predicate UniqueKeys(rows: seq<Row>) {
    rows == [] || (At(rows[1..], rows[0].planCode, rows[0].key).None? && UniqueKeys(rows[1..]))
  }

  lemma {:induction false} AtFindsRow(rows: seq<Row>, planCode: string, key: string) returns (i: nat)
    requires At(rows, planCode, key).Some?
    ensures i < |rows| && rows[i].planCode == planCode && rows[i].key == key && At(rows, planCode, key) == Some(rows[i])
  {
    if rows[0].planCode == planCode && rows[0].key == key {
      i := 0;
    } else {
      var k := AtFindsRow(rows[1..], planCode, key);
      i := k + 1;
    }
  }

  lemma {:induction false} RowIsFound(rows: seq<Row>, i: nat)
    requires i < |rows|
    ensures At(rows, rows[i].planCode, rows[i].key).Some?
  {
    if i > 0 { RowIsFound(rows[1..], i - 1); }
  }

  /** The constraint in the database's terms: no two rows share plan and key. */
  lemma {:induction false} UniqueKeysMeansNoDuplicates(rows: seq<Row>)
    ensures UniqueKeys(rows) <==>
            forall i, j :: 0 <= i < j < |rows| ==> rows[i].planCode != rows[j].planCode || rows[i].key != rows[j].key
  {
    if rows != [] {
      UniqueKeysMeansNoDuplicates(rows[1..]);
      if At(rows[1..], rows[0].planCode, rows[0].key).Some? {
        var k := AtFindsRow(rows[1..], rows[0].planCode, rows[0].key);
        assert rows[k + 1].planCode == rows[0].planCode && rows[k + 1].key == rows[0].key;
      } else {
        forall j | 1 <= j < |rows| ensures rows[0].planCode != rows[j].planCode || rows[0].key != rows[j].key {
          RowIsFound(rows[1..], j - 1);
        }
        if UniqueKeys(rows) {
          forall i, j | 0 <= i < j < |rows| ensures rows[i].planCode != rows[j].planCode || rows[i].key != rows[j].key {
            if i > 0 { assert rows[i] == rows[1..][i - 1] && rows[j] == rows[1..][j - 1]; }
          }
        } else {
          var i, j :| 0 <= i < j < |rows| - 1 && rows[1..][i].planCode == rows[1..][j].planCode && rows[1..][i].key == rows[1..][j].key;
          assert rows[i + 1].planCode == rows[j + 1].planCode && rows[i + 1].key == rows[j + 1].key;
        }
      }
    }
  }

  // ----- the statements -----

  function KeyNotIn(keys: seq<string>): Row -> bool {
    (row: Row) => row.key !in keys
  }

  function RenameRow(r: Rename): Row -> Row {
    (row: Row) => if row.key == r.from then row.(key := r.to) else row
  }

  function PlanRows(spec: Spec, plans: seq<string>, ids: nat -> string, n: nat): seq<Row> {
    if plans == [] then [] else [NewRow(ids(n), plans[0], spec.key, spec.value(plans[0]))] + PlanRows(spec, plans[1..], ids, n + 1)
  }

  /** One row for each key and plan, keys outermost. */
  function SeedRows(specs: seq<Spec>, plans: seq<string>, ids: nat -> string, n: nat): seq<Row> {
    if specs == [] then [] else PlanRows(specs[0], plans, ids, n) + SeedRows(specs[1..], plans, ids, n + |plans|)
  }

  function Accepted(rows: seq<Row>): Option<seq<Row>> {
    if UniqueKeys(rows) then Some(rows) else None
  }

  function RenameAll(renames: seq<Rename>, rows: seq<Row>): Option<seq<Row>> {
    if renames == [] then Some(rows)
    else
      var next := Map(RenameRow(renames[0]), rows);
      if UniqueKeys(next) then RenameAll(renames[1..], next) else None
  }

  /** A whole migration: delete, rename, insert; nothing at all if a constraint fails. */
  function Migrated(deleted: seq<string>, renames: seq<Rename>, added: seq<Row>, rows: seq<Row>): Option<seq<Row>> {
    var renamed := RenameAll(renames, Filter(KeyNotIn(deleted), rows));
    if renamed.None? then None else Accepted(renamed.value + added)
  }

  function KeysOf(specs: seq<Spec>): (r: seq<string>)
    ensures |r| == |specs| && forall i :: 0 <= i < |specs| ==> r[i] == specs[i].key
  {
    seq(|specs|, i requires 0 <= i < |specs| => specs[i].key)
  }

  function Reversed(renames: seq<Rename>): (r: seq<Rename>)
    ensures |r| == |renames| && forall i :: 0 <= i < |r| ==> r[i] == Rename(renames[i].to, renames[i].from)
  {
    if renames == [] then [] else [Rename(renames[0].to, renames[0].from)] + Reversed(renames[1..])
  }

  function Upgraded(reg: Register, ids: nat -> string, rows: seq<Row>): Option<seq<Row>> {
    Migrated(reg.removed + KeysOf(reg.specs), reg.renames, SeedRows(reg.specs, reg.plans, ids, 0), rows)
  }

  function Downgraded(reg: Register, ids: nat -> string, rows: seq<Row>): Option<seq<Row>> {
    Migrated(KeysOf(reg.specs), Reversed(reg.renames), SeedRows(reg.restored, reg.plans, ids, 0), rows)
  }

  class EntitlementTable {
    var rows: seq<Row>

    constructor (rows0: seq<Row>)
      ensures rows == rows0
    {
      rows := rows0;
    }

    method DeleteKeys(keys: seq<string>)
      modifies this
      ensures rows == Filter(KeyNotIn(keys), old(rows))
    {
      rows := Filter(KeyNotIn(keys), rows);
    }

    /** One UPDATE statement: refused as a whole when it breaks the constraint. */
    method RenameKey(r: Rename) returns (ok: bool)
      modifies this
      ensures ok == UniqueKeys(Map(RenameRow(r), old(rows)))
      ensures rows == if ok then Map(RenameRow(r), old(rows)) else old(rows)
    {
      var next := Map(RenameRow(r), rows);
      ok := UniqueKeys(next);
      if ok { rows := next; }
    }

    method BulkInsert(added: seq<Row>) returns (ok: bool)
      modifies this
      ensures ok == UniqueKeys(old(rows) + added)
      ensures rows == if ok then old(rows) + added else old(rows)
    {
      ok := UniqueKeys(rows + added);
      if ok { rows := rows + added; }
    }

    /** The statements inside one transaction. */
    method Migrate(deleted: seq<string>, renames: seq<Rename>, added: seq<Row>) returns (ok: bool)
      modifies this
      ensures ok == Migrated(deleted, renames, added, old(rows)).Some?
      ensures rows == if ok then Migrated(deleted, renames, added, old(rows)).value else old(rows)
    {
      var before := rows;
      DeleteKeys(deleted);
      for i := 0 to |renames|
        invariant RenameAll(renames, Filter(KeyNotIn(deleted), before)) == RenameAll(renames[i..], rows)
      {
        ok := RenameKey(renames[i]);
        assert renames[i..][0] == renames[i] && renames[i..][1..] == renames[i + 1..];
        if !ok {
          rows := before;
          return;
        }
      }
      ok := BulkInsert(added);
      if !ok { rows := before; }
    }

    method Upgrade(reg: Register, ids: nat -> string) returns (ok: bool)
      modifies this
      ensures ok == Upgraded(reg, ids, old(rows)).Some?
      ensures rows == if ok then Upgraded(reg, ids, old(rows)).value else old(rows)
    {
      var added := SeedAll(reg.specs, reg.plans, ids);
      ok := Migrate(reg.removed + KeysOf(reg.specs), reg.renames, added);
    }

    method Downgrade(reg: Register, ids: nat -> string) returns (ok: bool)
      modifies this
      ensures ok == Downgraded(reg, ids, old(rows)).Some?
      ensures rows == if ok then Downgraded(reg, ids, old(rows)).value else old(rows)
    {
      var added := SeedAll(reg.restored, reg.plans, ids);
      ok := Migrate(KeysOf(reg.specs), Reversed(reg.renames), added);
    }
  }

  lemma {:induction false} PlanRowsSplit(spec: Spec, plans: seq<string>, ids: nat -> string, n: nat, k: nat)
    requires k < |plans|
    ensures PlanRows(spec, plans[..k + 1], ids, n) ==
            PlanRows(spec, plans[..k], ids, n) + [NewRow(ids(n + k), plans[k], spec.key, spec.value(plans[k]))]
  {
    if k > 0 {
      PlanRowsSplit(spec, plans[1..], ids, n + 1, k - 1);
      assert plans[..k + 1][1..] == plans[1..][..k] && plans[..k][1..] == plans[1..][..k - 1];
    }
  }

  lemma {:induction false} SeedRowsSplit(specs: seq<Spec>, plans: seq<string>, ids: nat -> string, n: nat, m: nat, k: nat)
    requires k < |specs| && m == n + k * |plans|
    ensures SeedRows(specs[..k + 1], plans, ids, n) == SeedRows(specs[..k], plans, ids, n) + PlanRows(specs[k], plans, ids, m)
  {
    if k > 0 {
      assert (k - 1) * |plans| + |plans| == k * |plans|;
      SeedRowsSplit(specs[1..], plans, ids, n + |plans|, m, k - 1);
      assert specs[..k + 1][1..] == specs[1..][..k] && specs[..k][1..] == specs[1..][..k - 1];
    }
  }

  method SeedPlans(spec: Spec, plans: seq<string>, ids: nat -> string, n: nat) returns (added: seq<Row>)
    ensures added == PlanRows(spec, plans, ids, n)
  {
    added := [];
    for j := 0 to |plans|
      invariant added == PlanRows(spec, plans[..j], ids, n)
    {
      PlanRowsSplit(spec, plans, ids, n, j);
      var row := ValueRow(ids(n + j), plans[j], spec.key, spec.value(plans[j]));
      added := added + [row];
    }
    assert plans[..|plans|] == plans;
  }

  /** The list comprehension over keys and plans. */
  method SeedAll(specs: seq<Spec>, plans: seq<string>, ids: nat -> string) returns (added: seq<Row>)
    ensures added == SeedRows(specs, plans, ids, 0)
  {
    added := [];
    for i := 0 to |specs|
      invariant added == SeedRows(specs[..i], plans, ids, 0)
    {
      SeedRowsSplit(specs, plans, ids, 0, i * |plans|, i);
      var rows := SeedPlans(specs[i], plans, ids, i * |plans|);
      added := added + rows;
    }
    assert specs[..|specs|] == specs;
  }

  // ----- what each statement does to a look-up -----

  lemma {:induction false} AtConcat(a: seq<Row>, b: seq<Row>, p: string, k: string)
    ensures At(a + b, p, k) == Else(At(a, p, k), At(b, p, k))
  {
    if a == [] {
      assert a + b == b;
    } else {
      AtConcat(a[1..], b, p, k);
      assert (a + b)[1..] == a[1..] + b;
    }
  }

  ghost predicate Disjoint(a: seq<Row>, b: seq<Row>) {
    forall p, k :: At(a, p, k).None? || At(b, p, k).None?
  }

  lemma {:induction false} UniqueConcat(a: seq<Row>, b: seq<Row>)
    ensures UniqueKeys(a + b) <==> UniqueKeys(a) && UniqueKeys(b) && Disjoint(a, b)
  {
    if a == [] {
      assert a + b == b;
    } else {
      UniqueConcat(a[1..], b);
      assert (a + b)[1..] == a[1..] + b;
      AtConcat(a[1..], b, a[0].planCode, a[0].key);
      if UniqueKeys(a + b) {
        forall p, k ensures At(a, p, k).None? || At(b, p, k).None? {
          assert At(a[1..], p, k).None? || At(b, p, k).None?;
        }
      } else if Disjoint(a, b) && UniqueKeys(a) {
        assert At(a, a[0].planCode, a[0].key).Some?;
        forall p, k ensures At(a[1..], p, k).None? || At(b, p, k).None? {
          assert At(a, p, k).None? || At(b, p, k).None?;
        }
      }
    }
  }

  lemma DeleteHead(keys: seq<string>, rows: seq<Row>)
    requires rows != []
    ensures var rest := Filter(KeyNotIn(keys), rows[1..]);
            var after := Filter(KeyNotIn(keys), rows);
            if rows[0].key in keys then after == rest else after != [] && after[0] == rows[0] && after[1..] == rest
  {
    assert KeyNotIn(keys)(rows[0]) <==> rows[0].key !in keys;
  }

  lemma {:induction false} AtAfterDelete(keys: seq<string>, rows: seq<Row>, p: string, k: string)
    ensures At(Filter(KeyNotIn(keys), rows), p, k) == if k in keys then None else At(rows, p, k)
  {
    if rows != [] {
      AtAfterDelete(keys, rows[1..], p, k);
      DeleteHead(keys, rows);
    }
  }

  lemma {:induction false} DeleteKeepsUnique(keys: seq<string>, rows: seq<Row>)
    requires UniqueKeys(rows)
    ensures UniqueKeys(Filter(KeyNotIn(keys), rows))
  {
    if rows != [] {
      DeleteKeepsUnique(keys, rows[1..]);
      AtAfterDelete(keys, rows[1..], rows[0].planCode, rows[0].key);
      DeleteHead(keys, rows);
    }
  }

  function Rekey(row: Option<Row>, key: string): Option<Row> {
    if row.Some? then Some(row.value.(key := key)) else None
  }

  ghost predicate NoPlanHasBoth(r: Rename, rows: seq<Row>) {
    forall p :: At(rows, p, r.from).None? || At(rows, p, r.to).None?
  }

  lemma {:induction false} AtAfterRename(r: Rename, rows: seq<Row>, p: string, k: string)
    requires r.from != r.to
    ensures var after := At(Map(RenameRow(r), rows), p, k);
            && (k == r.from ==> after == None)
            && (k != r.from && k != r.to ==> after == At(rows, p, k))
            && (k == r.to ==> (after.Some? <==> At(rows, p, r.from).Some? || At(rows, p, r.to).Some?))
            && (k == r.to && At(rows, p, r.from).None? ==> after == At(rows, p, r.to))
            && (k == r.to && At(rows, p, r.to).None? ==> after == Rekey(At(rows, p, r.from), r.to))
  {
    if rows != [] {
      AtAfterRename(r, rows[1..], p, k);
      assert Map(RenameRow(r), rows) == [RenameRow(r)(rows[0])] + Map(RenameRow(r), rows[1..]);
    }
  }

  /** A rename keeps the constraint exactly when no plan holds both keys. */
  lemma {:induction false} RenameKeepsUniqueExactly(r: Rename, rows: seq<Row>)
    requires r.from != r.to && UniqueKeys(rows)
    ensures UniqueKeys(Map(RenameRow(r), rows)) <==> NoPlanHasBoth(r, rows)
  {
    if rows != [] {
      var head, rest := rows[0], rows[1..];
      RenameKeepsUniqueExactly(r, rest);
      assert Map(RenameRow(r), rows) == [RenameRow(r)(head)] + Map(RenameRow(r), rest);
      AtAfterRename(r, rest, head.planCode, RenameRow(r)(head).key);
      BothInHeadOrRest(r, rows);
    }
  }

  lemma BothInHeadOrRest(r: Rename, rows: seq<Row>)
    requires r.from != r.to && rows != [] && At(rows[1..], rows[0].planCode, rows[0].key).None?
    ensures NoPlanHasBoth(r, rows) <==>
            && NoPlanHasBoth(r, rows[1..])
            && (rows[0].key == r.from ==> At(rows[1..], rows[0].planCode, r.to).None?)
            && (rows[0].key == r.to ==> At(rows[1..], rows[0].planCode, r.from).None?)
  {
    var p := rows[0].planCode;
    if NoPlanHasBoth(r, rows) {
      assert At(rows, p, r.from).None? || At(rows, p, r.to).None?;
      forall q ensures At(rows[1..], q, r.from).None? || At(rows[1..], q, r.to).None? {
        assert At(rows, q, r.from).None? || At(rows, q, r.to).None?;
      }
    } else {
      var q :| At(rows, q, r.from).Some? && At(rows, q, r.to).Some?;
      assert NoPlanHasBoth(r, rows[1..]) ==> At(rows[1..], q, r.from).None? || At(rows[1..], q, r.to).None?;
    }
  }

  // ----- several renames -----

  function RenameKeys(renames: seq<Rename>): seq<string> {
    if renames == [] then [] else [renames[0].from, renames[0].to] + RenameKeys(renames[1..])
  }

  predicate Apart(keys: seq<string>) {
    keys == [] || (keys[0] !in keys[1..] && Apart(keys[1..]))
  }

  predicate Leaves(renames: seq<Rename>, k: string) {
    renames != [] && (renames[0].from == k || Leaves(renames[1..], k))
  }

  function SourceOf(renames: seq<Rename>, k: string): Option<string> {
    if renames == [] then None else if renames[0].to == k then Some(renames[0].from) else SourceOf(renames[1..], k)
  }

  /** What a look-up finds after all renames: the row that was there, or the one that moved. */
  function RenamedAt(renames: seq<Rename>, rows: seq<Row>, p: string, k: string): Option<Row> {
    if Leaves(renames, k) then None
    else if SourceOf(renames, k).Some? then Else(At(rows, p, k), Rekey(At(rows, p, SourceOf(renames, k).value), k))
    else At(rows, p, k)
  }

  ghost predicate NoCollision(renames: seq<Rename>, rows: seq<Row>) {
    forall i :: 0 <= i < |renames| ==> NoPlanHasBoth(renames[i], rows)
  }

  lemma {:induction false} RenameKeysMembers(renames: seq<Rename>, k: string)
    ensures k in RenameKeys(renames) <==> Leaves(renames, k) || SourceOf(renames, k).Some?
    ensures SourceOf(renames, k).Some? ==> SourceOf(renames, k).value in RenameKeys(renames)
    ensures forall i :: 0 <= i < |renames| ==> renames[i].from in RenameKeys(renames) && renames[i].to in RenameKeys(renames)
  {
    if renames != [] { RenameKeysMembers(renames[1..], k); }
  }

  lemma ApartTail(renames: seq<Rename>)
    requires renames != [] && Apart(RenameKeys(renames))
    ensures renames[0].from != renames[0].to
    ensures renames[0].from !in RenameKeys(renames[1..]) && renames[0].to !in RenameKeys(renames[1..])
    ensures Apart(RenameKeys(renames[1..]))
  {
    var keys := RenameKeys(renames);
    assert keys[1..] == [renames[0].to] + RenameKeys(renames[1..]);
    assert keys[1..][1..] == RenameKeys(renames[1..]);
  }

  lemma OtherCollisionsUnchanged(renames: seq<Rename>, rows: seq<Row>)
    requires renames != [] && Apart(RenameKeys(renames))
    ensures NoCollision(renames[1..], Map(RenameRow(renames[0]), rows)) <==> NoCollision(renames[1..], rows)
  {
    ApartTail(renames);
    var r, rest := renames[0], renames[1..];
    forall i, p | 0 <= i < |rest|
      ensures At(Map(RenameRow(r), rows), p, rest[i].from) == At(rows, p, rest[i].from)
      ensures At(Map(RenameRow(r), rows), p, rest[i].to) == At(rows, p, rest[i].to)
    {
      RenameKeysMembers(rest, rest[i].from);
      AtAfterRename(r, rows, p, rest[i].from);
      AtAfterRename(r, rows, p, rest[i].to);
    }
  }

  /** All renames go through exactly when no plan holds both keys of one of them. */
  lemma {:induction false} RenamesSucceedExactly(renames: seq<Rename>, rows: seq<Row>)
    requires Apart(RenameKeys(renames)) && UniqueKeys(rows)
    ensures RenameAll(renames, rows).Some? <==> NoCollision(renames, rows)
    ensures RenameAll(renames, rows).Some? ==> UniqueKeys(RenameAll(renames, rows).value)
  {
    if renames != [] {
      ApartTail(renames);
      var next := Map(RenameRow(renames[0]), rows);
      RenameKeepsUniqueExactly(renames[0], rows);
      OtherCollisionsUnchanged(renames, rows);
      assert NoCollision(renames, rows) <==> NoPlanHasBoth(renames[0], rows) && NoCollision(renames[1..], rows) by {
        assert renames == [renames[0]] + renames[1..];
      }
      if UniqueKeys(next) {
        RenamesSucceedExactly(renames[1..], next);
      }
    }
  }

  lemma {:induction false} AtAfterRenames(renames: seq<Rename>, rows: seq<Row>, p: string, k: string)
    requires Apart(RenameKeys(renames)) && UniqueKeys(rows) && RenameAll(renames, rows).Some?
    ensures At(RenameAll(renames, rows).value, p, k) == RenamedAt(renames, rows, p, k)
  {
    if renames != [] {
      ApartTail(renames);
      var r, next := renames[0], Map(RenameRow(renames[0]), rows);
      RenameKeepsUniqueExactly(r, rows);
      assert At(rows, p, r.from).None? || At(rows, p, r.to).None?;
      AtAfterRenames(renames[1..], next, p, k);
      RenameKeysMembers(renames[1..], k);
      AtAfterRename(r, rows, p, k);
      if SourceOf(renames[1..], k).Some? {
        AtAfterRename(r, rows, p, SourceOf(renames[1..], k).value);
      }
    }
  }

  // ----- the inserted rows -----

  function SpecFor(specs: seq<Spec>, key: string): Option<Spec> {
    if specs == [] then None else if specs[0].key == key then Some(specs[0]) else SpecFor(specs[1..], key)
  }

  function NoId(row: Option<Row>): Option<Row> {
    if row.Some? then Some(row.value.(id := "")) else None
  }

  /** The seeded row of a plan and key, ids aside. */
  function SeedAt(specs: seq<Spec>, plans: seq<string>, p: string, k: string): Option<Row> {
    if p in plans && SpecFor(specs, k).Some? then Some(NewRow("", p, k, SpecFor(specs, k).value.value(p))) else None
  }

  lemma {:induction false} SpecForMembers(specs: seq<Spec>, key: string)
    ensures SpecFor(specs, key).Some? <==> key in KeysOf(specs)
    ensures SpecFor(specs, key).Some? ==> SpecFor(specs, key).value.key == key
  {
    if specs != [] {
      SpecForMembers(specs[1..], key);
      assert KeysOf(specs) == [specs[0].key] + KeysOf(specs[1..]);
    }
  }

  lemma {:induction false} AtPlanRows(spec: Spec, plans: seq<string>, ids: nat -> string, n: nat, p: string, k: string)
    ensures NoId(At(PlanRows(spec, plans, ids, n), p, k)) ==
            if p in plans && k == spec.key then Some(NewRow("", p, k, spec.value(p))) else None
  {
    if plans != [] { AtPlanRows(spec, plans[1..], ids, n + 1, p, k); }
  }

  lemma {:induction false} PlanRowsAreUnique(spec: Spec, plans: seq<string>, ids: nat -> string, n: nat)
    requires Apart(plans)
    ensures UniqueKeys(PlanRows(spec, plans, ids, n))
  {
    if plans != [] {
      PlanRowsAreUnique(spec, plans[1..], ids, n + 1);
      AtPlanRows(spec, plans[1..], ids, n + 1, plans[0], spec.key);
    }
  }

  lemma {:induction false} AtSeedRows(specs: seq<Spec>, plans: seq<string>, ids: nat -> string, n: nat, p: string, k: string)
    ensures NoId(At(SeedRows(specs, plans, ids, n), p, k)) == SeedAt(specs, plans, p, k)
  {
    if specs != [] {
      AtSeedRows(specs[1..], plans, ids, n + |plans|, p, k);
      AtPlanRows(specs[0], plans, ids, n, p, k);
      AtConcat(PlanRows(specs[0], plans, ids, n), SeedRows(specs[1..], plans, ids, n + |plans|), p, k);
    }
  }

  lemma {:induction false} SeedRowsAreUnique(specs: seq<Spec>, plans: seq<string>, ids: nat -> string, n: nat)
    requires Apart(plans) && Apart(KeysOf(specs))
    ensures UniqueKeys(SeedRows(specs, plans, ids, n))
  {
    if specs != [] {
      var first, rest := PlanRows(specs[0], plans, ids, n), SeedRows(specs[1..], plans, ids, n + |plans|);
      assert KeysOf(specs)[1..] == KeysOf(specs[1..]);
      SeedRowsAreUnique(specs[1..], plans, ids, n + |plans|);
      PlanRowsAreUnique(specs[0], plans, ids, n);
      forall p, k ensures At(first, p, k).None? || At(rest, p, k).None? {
        AtPlanRows(specs[0], plans, ids, n, p, k);
        AtSeedRows(specs[1..], plans, ids, n + |plans|, p, k);
        SpecForMembers(specs[1..], k);
      }
      UniqueConcat(first, rest);
    }
  }

  // ----- a whole migration -----

  predicate ApartFrom(a: seq<string>, b: seq<string>) {
    forall k :: k in a ==> k !in b
  }

  /** Neither a renamed key nor its new name is deleted or inserted. */
  predicate Separate(deleted: seq<string>, renames: seq<Rename>, specs: seq<Spec>) {
    && Apart(KeysOf(specs)) && Apart(RenameKeys(renames))
    && ApartFrom(RenameKeys(renames), deleted) && ApartFrom(RenameKeys(renames), KeysOf(specs))
  }

  ghost predicate Vacant(deleted: seq<string>, specs: seq<Spec>, plans: seq<string>, rows: seq<Row>) {
    forall p, k :: p in plans && k in KeysOf(specs) && k !in deleted ==> At(rows, p, k).None?
  }

  lemma RenamesAfterDelete(deleted: seq<string>, renames: seq<Rename>, rows: seq<Row>, p: string, k: string)
    requires ApartFrom(RenameKeys(renames), deleted)
    ensures RenamedAt(renames, Filter(KeyNotIn(deleted), rows), p, k) ==
            if k in deleted then None else RenamedAt(renames, rows, p, k)
  {
    RenameKeysMembers(renames, k);
    AtAfterDelete(deleted, rows, p, k);
    if SourceOf(renames, k).Some? {
      AtAfterDelete(deleted, rows, p, SourceOf(renames, k).value);
    }
  }

  lemma CollisionsAfterDelete(deleted: seq<string>, renames: seq<Rename>, rows: seq<Row>)
    requires ApartFrom(RenameKeys(renames), deleted)
    ensures NoCollision(renames, Filter(KeyNotIn(deleted), rows)) <==> NoCollision(renames, rows)
  {
    RenameKeysMembers(renames, "");
    forall i, p | 0 <= i < |renames|
      ensures At(Filter(KeyNotIn(deleted), rows), p, renames[i].from) == At(rows, p, renames[i].from)
      ensures At(Filter(KeyNotIn(deleted), rows), p, renames[i].to) == At(rows, p, renames[i].to)
    {
      AtAfterDelete(deleted, rows, p, renames[i].from);
      AtAfterDelete(deleted, rows, p, renames[i].to);
    }
  }

  /** A migration keeps the constraint, and goes through exactly when no plan holds both
      keys of a rename and no inserted row is there already. */
  lemma MigrationSucceedsExactly(deleted: seq<string>, renames: seq<Rename>, specs: seq<Spec>, plans: seq<string>, ids: nat -> string, rows: seq<Row>)
    requires Separate(deleted, renames, specs) && Apart(plans) && UniqueKeys(rows)
    ensures var result := Migrated(deleted, renames, SeedRows(specs, plans, ids, 0), rows);
            && (result.Some? <==> NoCollision(renames, rows) && Vacant(deleted, specs, plans, rows))
            && (result.Some? ==> UniqueKeys(result.value))
  {
    var kept, added := Filter(KeyNotIn(deleted), rows), SeedRows(specs, plans, ids, 0);
    DeleteKeepsUnique(deleted, rows);
    CollisionsAfterDelete(deleted, renames, rows);
    RenamesSucceedExactly(renames, kept);
    if RenameAll(renames, kept).Some? {
      var renamed := RenameAll(renames, kept).value;
      SeedRowsAreUnique(specs, plans, ids, 0);
      UniqueConcat(renamed, added);
      VacantMeansDisjoint(deleted, renames, specs, plans, ids, rows);
    }
  }

  lemma VacantMeansDisjoint(deleted: seq<string>, renames: seq<Rename>, specs: seq<Spec>, plans: seq<string>, ids: nat -> string, rows: seq<Row>)
    requires Separate(deleted, renames, specs) && UniqueKeys(Filter(KeyNotIn(deleted), rows))
    requires RenameAll(renames, Filter(KeyNotIn(deleted), rows)).Some?
    ensures Disjoint(RenameAll(renames, Filter(KeyNotIn(deleted), rows)).value, SeedRows(specs, plans, ids, 0)) <==>
            Vacant(deleted, specs, plans, rows)
  {
    var kept, added := Filter(KeyNotIn(deleted), rows), SeedRows(specs, plans, ids, 0);
    var renamed := RenameAll(renames, kept).value;
    forall p, k
      ensures At(added, p, k).Some? <==> p in plans && k in KeysOf(specs)
      ensures k in KeysOf(specs) ==> At(renamed, p, k) == if k in deleted then None else At(rows, p, k)
    {
      AtSeedRows(specs, plans, ids, 0, p, k);
      SpecForMembers(specs, k);
      AtAfterRenames(renames, kept, p, k);
      RenamesAfterDelete(deleted, renames, rows, p, k);
      RenameKeysMembers(renames, k);
    }
    if Vacant(deleted, specs, plans, rows) {
      forall p, k ensures At(renamed, p, k).None? || At(added, p, k).None? {
      }
    } else {
      var p, k :| p in plans && k in KeysOf(specs) && k !in deleted && At(rows, p, k).Some?;
      assert At(renamed, p, k).Some? && At(added, p, k).Some?;
    }
  }

  /** Every look-up after a migration. */
  lemma AtMigrated(deleted: seq<string>, renames: seq<Rename>, specs: seq<Spec>, plans: seq<string>, ids: nat -> string, rows: seq<Row>, p: string, k: string)
    requires Separate(deleted, renames, specs) && Apart(plans) && UniqueKeys(rows)
    requires Migrated(deleted, renames, SeedRows(specs, plans, ids, 0), rows).Some?
    ensures var after := At(Migrated(deleted, renames, SeedRows(specs, plans, ids, 0), rows).value, p, k);
            if p in plans && k in KeysOf(specs) then NoId(after) == SeedAt(specs, plans, p, k)
            else after == if k in deleted then None else RenamedAt(renames, rows, p, k)
  {
    MigrationSucceedsExactly(deleted, renames, specs, plans, ids, rows);
    var kept, added := Filter(KeyNotIn(deleted), rows), SeedRows(specs, plans, ids, 0);
    var renamed := RenameAll(renames, kept).value;
    DeleteKeepsUnique(deleted, rows);
    AtConcat(renamed, added, p, k);
    AtSeedRows(specs, plans, ids, 0, p, k);
    SpecForMembers(specs, k);
    AtAfterRenames(renames, kept, p, k);
    RenamesAfterDelete(deleted, renames, rows, p, k);
    RenameKeysMembers(renames, k);
  }

  // ----- upgrading -----

  /** Keys occur once and play one part; what is removed is what a downgrade restores. */
  predicate WellFormed(reg: Register) {
    && Apart(reg.plans)
    && Apart(KeysOf(reg.specs)) && Apart(KeysOf(reg.restored)) && Apart(RenameKeys(reg.renames))
    && ApartFrom(RenameKeys(reg.renames), KeysOf(reg.specs)) && ApartFrom(RenameKeys(reg.renames), KeysOf(reg.restored))
    && ApartFrom(KeysOf(reg.restored), KeysOf(reg.specs))
    && ApartFrom(reg.removed, RenameKeys(reg.renames))
    && (forall k :: k in KeysOf(reg.restored) ==> k in reg.removed)
    && (forall k :: k in reg.removed ==> k in KeysOf(reg.restored))
  }

  lemma UpgradeIsSeparate(reg: Register)
    requires WellFormed(reg)
    ensures Separate(reg.removed + KeysOf(reg.specs), reg.renames, reg.specs)
  {
  }

  /** Upgrading keeps the constraint; it fails, and then changes nothing, exactly when
      some plan holds both the old and the new name of a renamed key. */
  lemma UpgradeSucceedsExactly(reg: Register, ids: nat -> string, rows: seq<Row>)
    requires WellFormed(reg) && UniqueKeys(rows)
    ensures Upgraded(reg, ids, rows).Some? <==> NoCollision(reg.renames, rows)
    ensures Upgraded(reg, ids, rows).Some? ==> UniqueKeys(Upgraded(reg, ids, rows).value)
  {
    UpgradeIsSeparate(reg);
    MigrationSucceedsExactly(reg.removed + KeysOf(reg.specs), reg.renames, reg.specs, reg.plans, ids, rows);
  }

  /** After an upgrade: register keys hold exactly the register's rows, removed keys have
      none, renamed rows keep everything but their key, and all other rows are unchanged. */
  lemma UpgradedTable(reg: Register, ids: nat -> string, rows: seq<Row>, p: string, k: string)
    requires WellFormed(reg) && UniqueKeys(rows) && Upgraded(reg, ids, rows).Some?
    ensures var after := At(Upgraded(reg, ids, rows).value, p, k);
            if k in KeysOf(reg.specs) then NoId(after) == SeedAt(reg.specs, reg.plans, p, k)
            else if k in reg.removed then after == None
            else after == RenamedAt(reg.renames, rows, p, k)
    ensures k !in KeysOf(reg.specs) && k !in reg.removed && k !in RenameKeys(reg.renames) ==>
              At(Upgraded(reg, ids, rows).value, p, k) == At(rows, p, k)
  {
    UpgradeIsSeparate(reg);
    AtMigrated(reg.removed + KeysOf(reg.specs), reg.renames, reg.specs, reg.plans, ids, rows, p, k);
    SpecForMembers(reg.specs, k);
    RenameKeysMembers(reg.renames, k);
  }

  /** Each plan ends with one row for each register key, of the type of its value, from
      which the application reads that value. */
  lemma EveryPlanHoldsTypedValue(reg: Register, ids: nat -> string, rows: seq<Row>, p: string, i: nat)
    requires WellFormed(reg) && UniqueKeys(rows) && Upgraded(reg, ids, rows).Some?
    requires p in reg.plans && i < |reg.specs|
    ensures var up := Upgraded(reg, ids, rows).value;
            && UniqueKeys(up)
            && At(up, p, reg.specs[i].key).Some?
            && WellTyped(At(up, p, reg.specs[i].key).value)
            && Stored(At(up, p, reg.specs[i].key).value) == Some(reg.specs[i].value(p))
  {
    UpgradeSucceedsExactly(reg, ids, rows);
    UpgradedTable(reg, ids, rows, p, reg.specs[i].key);
    SpecIsFound(reg.specs, i);
    NewRowReadsBack("", p, reg.specs[i].key, reg.specs[i].value(p));
  }

  lemma {:induction false} SpecIsFound(specs: seq<Spec>, i: nat)
    requires i < |specs| && Apart(KeysOf(specs))
    ensures SpecFor(specs, specs[i].key) == Some(specs[i])
    ensures specs[i].key in KeysOf(specs)
  {
    assert KeysOf(specs)[i] == specs[i].key;
    assert KeysOf(specs)[1..] == KeysOf(specs[1..]);
    if i > 0 { SpecIsFound(specs[1..], i - 1); }
  }

  // ----- upgrading twice -----

  function StripId(row: Row): Row {
    row.(id := "")
  }

  lemma {:induction false} PlanRowsIgnoreIds(spec: Spec, plans: seq<string>, ids: nat -> string, n: nat, ids': nat -> string, n': nat)
    ensures Map(StripId, PlanRows(spec, plans, ids, n)) == Map(StripId, PlanRows(spec, plans, ids', n'))
  {
    if plans != [] { PlanRowsIgnoreIds(spec, plans[1..], ids, n + 1, ids', n' + 1); }
  }

  lemma {:induction false} SeedRowsIgnoreIds(specs: seq<Spec>, plans: seq<string>, ids: nat -> string, n: nat, ids': nat -> string, n': nat)
    ensures Map(StripId, SeedRows(specs, plans, ids, n)) == Map(StripId, SeedRows(specs, plans, ids', n'))
  {
    if specs != [] {
      var m, m' := n + |plans|, n' + |plans|;
      PlanRowsIgnoreIds(specs[0], plans, ids, n, ids', n');
      SeedRowsIgnoreIds(specs[1..], plans, ids, m, ids', m');
      MapConcat(StripId, PlanRows(specs[0], plans, ids, n), SeedRows(specs[1..], plans, ids, m));
      MapConcat(StripId, PlanRows(specs[0], plans, ids', n'), SeedRows(specs[1..], plans, ids', m'));
    }
  }

  lemma {:induction false} NothingToRename(renames: seq<Rename>, rows: seq<Row>)
    requires UniqueKeys(rows) && forall i :: 0 <= i < |rows| ==> !Leaves(renames, rows[i].key)
    ensures RenameAll(renames, rows) == Some(rows)
  {
    if renames != [] {
      assert Map(RenameRow(renames[0]), rows) == rows;
      NothingToRename(renames[1..], rows);
    }
  }

  lemma {:induction false} SeedRowsHaveSpecKeys(specs: seq<Spec>, plans: seq<string>, ids: nat -> string, i: nat)
    requires i < |SeedRows(specs, plans, ids, 0)|
    ensures SeedRows(specs, plans, ids, 0)[i].key in KeysOf(specs)
  {
    var rows := SeedRows(specs, plans, ids, 0);
    RowIsFound(rows, i);
    AtSeedRows(specs, plans, ids, 0, rows[i].planCode, rows[i].key);
    SpecForMembers(specs, rows[i].key);
  }

  /** Upgrading an upgraded table goes through and changes nothing but ids: the same rows
      in the same order. */
  lemma UpgradeIsIdempotent(reg: Register, ids: nat -> string, ids': nat -> string, rows: seq<Row>)
    requires WellFormed(reg) && UniqueKeys(rows) && Upgraded(reg, ids, rows).Some?
    ensures var up := Upgraded(reg, ids, rows).value;
            && Upgraded(reg, ids', up).Some?
            && Map(StripId, Upgraded(reg, ids', up).value) == Map(StripId, up)
  {
    var deleted := reg.removed + KeysOf(reg.specs);
    var up, renamed := Upgraded(reg, ids, rows).value, RenameAll(reg.renames, Filter(KeyNotIn(deleted), rows)).value;
    var seeds, seeds' := SeedRows(reg.specs, reg.plans, ids, 0), SeedRows(reg.specs, reg.plans, ids', 0);
    UpgradeSucceedsExactly(reg, ids, rows);
    RenamedRowsStay(reg, rows);
    SeedsAreDeletedAgain(reg, ids, renamed);
    assert up == renamed + seeds;
    UniqueConcat(renamed, seeds);
    NothingToRename(reg.renames, renamed);
    SameKeysStayUnique(reg, ids, ids', renamed);
    SeedRowsIgnoreIds(reg.specs, reg.plans, ids, 0, ids', 0);
    MapConcat(StripId, renamed, seeds);
    MapConcat(StripId, renamed, seeds');
  }

  lemma RenamedRowsStay(reg: Register, rows: seq<Row>)
    requires WellFormed(reg) && UniqueKeys(rows)
    requires RenameAll(reg.renames, Filter(KeyNotIn(reg.removed + KeysOf(reg.specs)), rows)).Some?
    ensures var deleted := reg.removed + KeysOf(reg.specs);
            var renamed := RenameAll(reg.renames, Filter(KeyNotIn(deleted), rows)).value;
            forall i :: 0 <= i < |renamed| ==> renamed[i].key !in deleted && !Leaves(reg.renames, renamed[i].key)
  {
    var deleted := reg.removed + KeysOf(reg.specs);
    var renamed := RenameAll(reg.renames, Filter(KeyNotIn(deleted), rows)).value;
    UpgradeIsSeparate(reg);
    DeleteKeepsUnique(deleted, rows);
    forall i | 0 <= i < |renamed| ensures renamed[i].key !in deleted && !Leaves(reg.renames, renamed[i].key) {
      var p, k := renamed[i].planCode, renamed[i].key;
      RowIsFound(renamed, i);
      AtAfterRenames(reg.renames, Filter(KeyNotIn(deleted), rows), p, k);
      RenamesAfterDelete(deleted, reg.renames, rows, p, k);
    }
  }

  lemma SeedsAreDeleted(reg: Register, ids: nat -> string)
    ensures Filter(KeyNotIn(reg.removed + KeysOf(reg.specs)), SeedRows(reg.specs, reg.plans, ids, 0)) == []
  {
    var seeds := SeedRows(reg.specs, reg.plans, ids, 0);
    forall i | 0 <= i < |seeds| ensures seeds[i].key in KeysOf(reg.specs) {
      SeedRowsHaveSpecKeys(reg.specs, reg.plans, ids, i);
    }
    FilterNone(KeyNotIn(reg.removed + KeysOf(reg.specs)), seeds);
  }

  lemma SeedsAreDeletedAgain(reg: Register, ids: nat -> string, renamed: seq<Row>)
    requires forall i :: 0 <= i < |renamed| ==> renamed[i].key !in reg.removed + KeysOf(reg.specs)
    ensures Filter(KeyNotIn(reg.removed + KeysOf(reg.specs)), renamed + SeedRows(reg.specs, reg.plans, ids, 0)) == renamed
  {
    var keep := KeyNotIn(reg.removed + KeysOf(reg.specs));
    FilterConcat(keep, renamed, SeedRows(reg.specs, reg.plans, ids, 0));
    FilterAll(keep, renamed);
    SeedsAreDeleted(reg, ids);
  }

  lemma SameKeysStayUnique(reg: Register, ids: nat -> string, ids': nat -> string, renamed: seq<Row>)
    requires WellFormed(reg) && UniqueKeys(renamed + SeedRows(reg.specs, reg.plans, ids, 0))
    ensures UniqueKeys(renamed + SeedRows(reg.specs, reg.plans, ids', 0))
  {
    var seeds, seeds' := SeedRows(reg.specs, reg.plans, ids, 0), SeedRows(reg.specs, reg.plans, ids', 0);
    UniqueConcat(renamed, seeds);
    UniqueConcat(renamed, seeds');
    SeedRowsAreUnique(reg.specs, reg.plans, ids', 0);
    forall p, k ensures At(renamed, p, k).None? || At(seeds', p, k).None? {
      AtSeedRows(reg.specs, reg.plans, ids, 0, p, k);
      AtSeedRows(reg.specs, reg.plans, ids', 0, p, k);
      assert At(renamed, p, k).None? || At(seeds, p, k).None?;
    }
  }

  // ----- upgrading and downgrading -----

  lemma {:induction false} ReversedKeys(renames: seq<Rename>, k: string)
    ensures k in RenameKeys(Reversed(renames)) <==> k in RenameKeys(renames)
    ensures Leaves(Reversed(renames), k) <==> SourceOf(renames, k).Some?
    ensures SourceOf(Reversed(renames), k).Some? <==> Leaves(renames, k)
  {
    if renames != [] {
      ReversedKeys(renames[1..], k);
      assert Reversed(renames)[1..] == Reversed(renames[1..]);
    }
  }

  lemma {:induction false} ReversedApart(renames: seq<Rename>)
    requires Apart(RenameKeys(renames))
    ensures Apart(RenameKeys(Reversed(renames)))
  {
    if renames != [] {
      ApartTail(renames);
      var r, rest := renames[0], renames[1..];
      ReversedApart(rest);
      ReversedKeys(rest, r.from);
      ReversedKeys(rest, r.to);
      ApartPair(r.to, r.from, RenameKeys(Reversed(rest)));
    }
  }

  lemma ApartPair(a: string, b: string, keys: seq<string>)
    requires a != b && a !in keys && b !in keys && Apart(keys)
    ensures Apart([a, b] + keys)
  {
    assert ([a, b] + keys)[1..] == [b] + keys && ([b] + keys)[1..] == keys;
  }

  /** Going back from an old name leads to the new name, which leads to the old one. */
  lemma {:induction false} ReversedSource(renames: seq<Rename>, k: string)
    requires Apart(RenameKeys(renames)) && Leaves(renames, k)
    ensures SourceOf(Reversed(renames), k).Some?
    ensures SourceOf(renames, SourceOf(Reversed(renames), k).value) == Some(k)
    ensures SourceOf(renames, k) == None
  {
    ReversedKeys(renames, k);
    ApartTail(renames);
    var r, rest := renames[0], renames[1..];
    RenameKeysMembers(rest, k);
    if r.from != k {
      ReversedSource(rest, k);
      RenameKeysMembers(rest, SourceOf(Reversed(rest), k).value);
      assert Reversed(renames)[1..] == Reversed(rest);
    }
  }

  lemma NewNameStays(renames: seq<Rename>, k: string)
    requires Apart(RenameKeys(renames)) && SourceOf(renames, k).Some?
    ensures !Leaves(renames, k)
  {
    if Leaves(renames, k) { ReversedSource(renames, k); }
  }

  lemma DowngradeIsSeparate(reg: Register)
    requires WellFormed(reg)
    ensures Separate(KeysOf(reg.specs), Reversed(reg.renames), reg.restored)
  {
    forall k ensures k in RenameKeys(Reversed(reg.renames)) <==> k in RenameKeys(reg.renames) {
      ReversedKeys(reg.renames, k);
    }
    ReversedApart(reg.renames);
  }

  function RoundTrip(reg: Register, ids: nat -> string, ids': nat -> string, rows: seq<Row>): Option<seq<Row>> {
    var up := Upgraded(reg, ids, rows);
    if up.Some? then Downgraded(reg, ids', up.value) else None
  }

  lemma {:induction false} OldNameLeaves(renames: seq<Rename>, i: nat)
    requires i < |renames|
    ensures Leaves(renames, renames[i].from)
  {
    if i > 0 { OldNameLeaves(renames[1..], i - 1); }
  }

  /** An upgrade can always be undone as far as the constraint goes. */
  lemma DowngradeFollowsUpgrade(reg: Register, ids: nat -> string, ids': nat -> string, rows: seq<Row>)
    requires WellFormed(reg) && UniqueKeys(rows) && Upgraded(reg, ids, rows).Some?
    ensures RoundTrip(reg, ids, ids', rows).Some? && UniqueKeys(RoundTrip(reg, ids, ids', rows).value)
  {
    var up, back := Upgraded(reg, ids, rows).value, Reversed(reg.renames);
    UpgradeSucceedsExactly(reg, ids, rows);
    DowngradeIsSeparate(reg);
    forall i, p | 0 <= i < |back| ensures At(up, p, back[i].to).None? {
      OldNameLeaves(reg.renames, i);
      UpgradedTable(reg, ids, rows, p, back[i].to);
      RenameKeysMembers(reg.renames, back[i].to);
    }
    forall p, k | k in KeysOf(reg.restored) ensures At(up, p, k).None? {
      UpgradedTable(reg, ids, rows, p, k);
    }
    MigrationSucceedsExactly(KeysOf(reg.specs), back, reg.restored, reg.plans, ids', up);
  }

  /** Every look-up after an upgrade and a downgrade. */
  lemma AtRoundTrip(reg: Register, ids: nat -> string, ids': nat -> string, rows: seq<Row>, p: string, k: string)
    requires WellFormed(reg) && UniqueKeys(rows) && Upgraded(reg, ids, rows).Some?
    requires RoundTrip(reg, ids, ids', rows).Some?
    ensures var back := At(RoundTrip(reg, ids, ids', rows).value, p, k);
            if k in KeysOf(reg.specs) then back == None
            else if k in KeysOf(reg.restored) then NoId(back) == SeedAt(reg.restored, reg.plans, p, k)
            else if SourceOf(reg.renames, k).Some? then back == None
            else if SourceOf(Reversed(reg.renames), k).Some? then
              back == Else(At(rows, p, k), Rekey(At(rows, p, SourceOf(Reversed(reg.renames), k).value), k))
            else back == At(rows, p, k)
  {
    var up := Upgraded(reg, ids, rows).value;
    UpgradeSucceedsExactly(reg, ids, rows);
    DowngradeIsSeparate(reg);
    AtMigrated(KeysOf(reg.specs), Reversed(reg.renames), reg.restored, reg.plans, ids', up, p, k);
    SpecForMembers(reg.restored, k);
    UpgradedTable(reg, ids, rows, p, k);
    RenameKeysMembers(reg.renames, k);
    ReversedKeys(reg.renames, k);
    if Leaves(reg.renames, k) {
      ReversedSource(reg.renames, k);
      AtOldName(reg, ids, rows, p, k);
    }
  }

  lemma {:induction false} SourceIsRename(renames: seq<Rename>, k: string) returns (i: nat)
    requires SourceOf(renames, k).Some?
    ensures i < |renames| && renames[i] == Rename(SourceOf(renames, k).value, k)
  {
    if renames[0].to == k {
      i := 0;
    } else {
      var j := SourceIsRename(renames[1..], k);
      i := j + 1;
    }
  }

  lemma AtKeepsKey(rows: seq<Row>, p: string, k: string)
    ensures Rekey(At(rows, p, k), k) == At(rows, p, k)
  {
  }

  /** A row that is renamed and renamed back is the row it was. */
  lemma AtOldName(reg: Register, ids: nat -> string, rows: seq<Row>, p: string, k: string)
    requires WellFormed(reg) && UniqueKeys(rows) && Upgraded(reg, ids, rows).Some?
    requires Leaves(reg.renames, k) && SourceOf(Reversed(reg.renames), k).Some?
    ensures var up := Upgraded(reg, ids, rows).value;
            RenamedAt(Reversed(reg.renames), up, p, k) ==
            Else(At(rows, p, k), Rekey(At(rows, p, SourceOf(Reversed(reg.renames), k).value), k))
  {
    var newKey := SourceOf(Reversed(reg.renames), k).value;
    ReversedKeys(reg.renames, k);
    ReversedSource(reg.renames, k);
    NewNameStays(reg.renames, newKey);
    RenameKeysMembers(reg.renames, k);
    RenameKeysMembers(reg.renames, newKey);
    UpgradedTable(reg, ids, rows, p, k);
    UpgradedTable(reg, ids, rows, p, newKey);
    var i := SourceIsRename(reg.renames, newKey);
    UpgradeSucceedsExactly(reg, ids, rows);
    assert NoPlanHasBoth(reg.renames[i], rows);
    assert At(rows, p, k).None? || At(rows, p, newKey).None?;
    AtKeepsKey(rows, p, k);
  }

  /** No row bears the new name of a renamed key. */
  ghost predicate NoTargetRows(reg: Register, rows: seq<Row>) {
    forall p, k :: SourceOf(reg.renames, k).Some? ==> At(rows, p, k).None?
  }

  /** The removed keys hold, ids aside, the rows that a downgrade puts there. */
  ghost predicate HoldsSeeds(reg: Register, rows: seq<Row>) {
    forall p, k :: k in KeysOf(reg.restored) ==> NoId(At(rows, p, k)) == SeedAt(reg.restored, reg.plans, p, k)
  }

  ghost predicate NoRowsAt(keys: seq<string>, except: seq<string>, rows: seq<Row>) {
    forall p, k :: k in keys && k !in except ==> At(rows, p, k).None?
  }

  /** All rows are back, those of the removed keys with other ids, except the rows of
      the lost keys, which are gone. */
  ghost predicate RestoredExcept(lost: seq<string>, reg: Register, rows: seq<Row>, back: seq<Row>) {
    forall p, k ::
      if k in lost then At(back, p, k) == None
      else if k in KeysOf(reg.restored) then NoId(At(back, p, k)) == NoId(At(rows, p, k))
      else At(back, p, k) == At(rows, p, k)
  }

  lemma SourceOfReversed(renames: seq<Rename>, p: string, k: string, rows: seq<Row>)
    requires Apart(RenameKeys(renames)) && forall q, n :: SourceOf(renames, n).Some? ==> At(rows, q, n).None?
    ensures SourceOf(Reversed(renames), k).Some? ==> At(rows, p, SourceOf(Reversed(renames), k).value).None?
  {
    ReversedKeys(renames, k);
    if SourceOf(Reversed(renames), k).Some? { ReversedSource(renames, k); }
  }

  lemma RestoredWhenSeeded(lost: seq<string>, reg: Register, ids: nat -> string, ids': nat -> string, rows: seq<Row>)
    requires WellFormed(reg) && UniqueKeys(rows) && (forall k :: k in lost ==> k in KeysOf(reg.specs))
    requires NoTargetRows(reg, rows) && HoldsSeeds(reg, rows) && NoRowsAt(KeysOf(reg.specs), lost, rows)
    ensures RoundTrip(reg, ids, ids', rows).Some?
    ensures RestoredExcept(lost, reg, rows, RoundTrip(reg, ids, ids', rows).value)
  {
    forall i, p | 0 <= i < |reg.renames| ensures At(rows, p, reg.renames[i].to).None? {
      TargetHasSource(reg.renames, i);
    }
    UpgradeSucceedsExactly(reg, ids, rows);
    DowngradeFollowsUpgrade(reg, ids, ids', rows);
    forall p, k
      ensures var back := At(RoundTrip(reg, ids, ids', rows).value, p, k);
              if k in lost then back == None
              else if k in KeysOf(reg.restored) then NoId(back) == NoId(At(rows, p, k))
              else back == At(rows, p, k)
    {
      AtRoundTrip(reg, ids, ids', rows, p, k);
      SourceOfReversed(reg.renames, p, k, rows);
    }
  }

  lemma {:induction false} TargetHasSource(renames: seq<Rename>, i: nat)
    requires i < |renames|
    ensures SourceOf(renames, renames[i].to).Some?
  {
    if i > 0 { TargetHasSource(renames[1..], i - 1); }
  }

  lemma SeededWhenRestored(lost: seq<string>, reg: Register, ids: nat -> string, ids': nat -> string, rows: seq<Row>)
    requires WellFormed(reg) && UniqueKeys(rows) && (forall k :: k in lost ==> k in KeysOf(reg.specs))
    requires RoundTrip(reg, ids, ids', rows).Some?
    requires RestoredExcept(lost, reg, rows, RoundTrip(reg, ids, ids', rows).value)
    ensures NoTargetRows(reg, rows) && HoldsSeeds(reg, rows) && NoRowsAt(KeysOf(reg.specs), lost, rows)
  {
    var back := RoundTrip(reg, ids, ids', rows).value;
    forall p, k
      ensures SourceOf(reg.renames, k).Some? ==> At(rows, p, k).None?
      ensures k in KeysOf(reg.restored) ==> NoId(At(rows, p, k)) == SeedAt(reg.restored, reg.plans, p, k)
      ensures k in KeysOf(reg.specs) && k !in lost ==> At(rows, p, k).None?
    {
      AtRoundTrip(reg, ids, ids', rows, p, k);
      RenameKeysMembers(reg.renames, k);
      assert if k in lost then At(back, p, k) == None
             else if k in KeysOf(reg.restored) then NoId(At(back, p, k)) == NoId(At(rows, p, k))
             else At(back, p, k) == At(rows, p, k);
    }
  }

  /** The downgrade undoes the upgrade, up to ids and to the rows of the lost keys,
      exactly when the table holds the seeds at the removed keys, nothing under the new
      names, and no other rows at register keys. */
  lemma RoundTripRestoresExactly(lost: seq<string>, reg: Register, ids: nat -> string, ids': nat -> string, rows: seq<Row>)
    requires WellFormed(reg) && UniqueKeys(rows) && (forall k :: k in lost ==> k in KeysOf(reg.specs))
    ensures (RoundTrip(reg, ids, ids', rows).Some? && RestoredExcept(lost, reg, rows, RoundTrip(reg, ids, ids', rows).value)) <==>
            NoTargetRows(reg, rows) && HoldsSeeds(reg, rows) && NoRowsAt(KeysOf(reg.specs), lost, rows)
  {
    if NoTargetRows(reg, rows) && HoldsSeeds(reg, rows) && NoRowsAt(KeysOf(reg.specs), lost, rows) {
      RestoredWhenSeeded(lost, reg, ids, ids', rows);
    }
    if RoundTrip(reg, ids, ids', rows).Some? && RestoredExcept(lost, reg, rows, RoundTrip(reg, ids, ids', rows).value) {
      SeededWhenRestored(lost, reg, ids, ids', rows);
    }
  }
}
