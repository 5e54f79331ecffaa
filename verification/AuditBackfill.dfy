/** The migration that attributes existing audit events: UPDATE passes over the whole
    table, and exactly when they agree with the attribution made at write time. */
module AuditBackfill {
  import opened Seqs
  import opened AuditTrail
  import opened CanonicalState

  datatype Row = Row(actor: string, target: string, accountId: Option<Uuid>)

  // ----- the four sources -----

  /** `actor ~ pattern AND actor::uuid IN (SELECT id FROM accounts)` */
  function FromAccounts(lib: UuidLibrary, db: Db, actor: string): Option<Uuid> {
    if Hyphenated(actor) && lib.cast(actor).Some? && lib.cast(actor).value in db.accounts then lib.cast(actor) else None
  }

  /** `actor ~ pattern AND actor::uuid = users.id` */
  function FromUsers(lib: UuidLibrary, db: Db, actor: string): Option<Uuid> {
    if Hyphenated(actor) && lib.cast(actor).Some? && lib.cast(actor).value in db.users
    then Some(db.users[lib.cast(actor).value]) else None
  }

  /** `target = prefix || id::text` */
  predicate Joins(lib: UuidLibrary, table: map<Uuid, Uuid>, prefix: string, target: string, id: Uuid) {
    id in table && target == prefix + lib.text(id)
  }

  ghost function FromTarget(lib: UuidLibrary, table: map<Uuid, Uuid>, prefix: string, target: string): Option<Uuid> {
    if exists id :: Joins(lib, table, prefix, target, id) then
      var id :| Joins(lib, table, prefix, target, id); Some(table[id])
    else None
  }

  /** The attribution after all four passes: the first source that applies. */
  ghost function Backfilled(lib: UuidLibrary, db: Db, actor: string, target: string): Option<Uuid> {
    Else(Else(Else(FromAccounts(lib, db, actor), FromUsers(lib, db, actor)),
              FromTarget(lib, db.cases, CASE_PREFIX, target)),
         FromTarget(lib, db.ports, PORT_PREFIX, target))
  }

  // ----- the passes -----

  /** No pass touches anything but the new column. */
  twostate predicate OnlyAttributes(rows: array<Row>)
    reads rows
  {
    forall i :: 0 <= i < rows.Length ==> rows[i].actor == old(rows[i].actor) && rows[i].target == old(rows[i].target)
  }

  method AddColumn(rows: array<Row>)
    modifies rows
    ensures OnlyAttributes(rows)
    ensures forall i :: 0 <= i < rows.Length ==> rows[i].accountId == None
  {
    for i := 0 to rows.Length
      invariant forall j :: 0 <= j < i ==> rows[j] == old(rows[j]).(accountId := None)
      invariant forall j :: i <= j < rows.Length ==> rows[j] == old(rows[j])
    {
      rows[i] := rows[i].(accountId := None);
    }
  }

  method AttributeAccounts(lib: UuidLibrary, db: Db, rows: array<Row>)
    modifies rows
    ensures OnlyAttributes(rows)
    ensures forall i :: 0 <= i < rows.Length ==>
              rows[i].accountId == Else(FromAccounts(lib, db, old(rows[i].actor)), old(rows[i].accountId))
  {
    for i := 0 to rows.Length
      invariant forall j :: 0 <= j < i ==>
        rows[j] == old(rows[j]).(accountId := Else(FromAccounts(lib, db, old(rows[j].actor)), old(rows[j].accountId)))
      invariant forall j :: i <= j < rows.Length ==> rows[j] == old(rows[j])
    {
      var hit := FromAccounts(lib, db, rows[i].actor);
      if hit.Some? {
        rows[i] := rows[i].(accountId := hit);
      }
    }
  }

  method AttributeUsers(lib: UuidLibrary, db: Db, rows: array<Row>)
    modifies rows
    ensures OnlyAttributes(rows)
    ensures forall i :: 0 <= i < rows.Length ==>
              rows[i].accountId == Else(old(rows[i].accountId), FromUsers(lib, db, old(rows[i].actor)))
  {
    for i := 0 to rows.Length
      invariant forall j :: 0 <= j < i ==>
        rows[j] == old(rows[j]).(accountId := Else(old(rows[j].accountId), FromUsers(lib, db, old(rows[j].actor))))
      invariant forall j :: i <= j < rows.Length ==> rows[j] == old(rows[j])
    {
      var hit := FromUsers(lib, db, rows[i].actor);
      if rows[i].accountId.None? && hit.Some? {
        rows[i] := rows[i].(accountId := hit);
      }
    }
  }

  lemma AtMostOneJoins(lib: UuidLibrary, table: map<Uuid, Uuid>, prefix: string, target: string, id: Uuid)
    requires Lawful(lib) && Joins(lib, table, prefix, target, id)
    ensures FromTarget(lib, table, prefix, target) == Some(table[id])
  {
    assert target[|prefix|..] == lib.text(id);
    forall other | Joins(lib, table, prefix, target, other) ensures other == id {
      assert target[|prefix|..] == lib.text(other);
      assert lib.cast(lib.text(other)) == Some(other) && lib.cast(lib.text(id)) == Some(id);
    }
  }

  method AttributeTargets(lib: UuidLibrary, table: map<Uuid, Uuid>, prefix: string, rows: array<Row>)
    requires Lawful(lib)
    modifies rows
    ensures OnlyAttributes(rows)
    ensures forall i :: 0 <= i < rows.Length ==>
              rows[i].accountId == Else(old(rows[i].accountId), FromTarget(lib, table, prefix, old(rows[i].target)))
  {
    for i := 0 to rows.Length
      invariant forall j :: 0 <= j < i ==>
        rows[j] == old(rows[j]).(accountId := Else(old(rows[j].accountId), FromTarget(lib, table, prefix, old(rows[j].target))))
      invariant forall j :: i <= j < rows.Length ==> rows[j] == old(rows[j])
    {
      if id: Uuid :| id in table && Joins(lib, table, prefix, rows[i].target, id) {
        AtMostOneJoins(lib, table, prefix, rows[i].target, id);
        if rows[i].accountId.None? {
          rows[i] := rows[i].(accountId := Some(table[id]));
        }
      }
    }
  }

  /** The whole migration: every row ends with its first applicable source. */
  method Upgrade(lib: UuidLibrary, db: Db, rows: array<Row>)
    requires Lawful(lib)
    modifies rows
    ensures OnlyAttributes(rows)
    ensures forall i :: 0 <= i < rows.Length ==>
              rows[i].accountId == Backfilled(lib, db, old(rows[i].actor), old(rows[i].target))
  {
    AddColumn(rows);
    AttributeAccounts(lib, db, rows);
    AttributeUsers(lib, db, rows);
    AttributeTargets(lib, db.cases, CASE_PREFIX, rows);
    AttributeTargets(lib, db.ports, PORT_PREFIX, rows);
  }

  // ----- agreement with attribution at write time -----

  /** Not UUID text at all, or in the hyphenated form. */
  predicate PlainActor(lib: UuidLibrary, actor: string) {
    lib.accepts(actor) ==> Hyphenated(actor)
  }

  /** After the prefix: not UUID text at all, or as the database itself would write it. */
  predicate PlainTarget(lib: UuidLibrary, prefix: string, target: string) {
    StartsWith(target, prefix) && lib.accepts(target[|prefix|..]) ==>
      lib.cast(target[|prefix|..]).Some? && lib.text(lib.cast(target[|prefix|..]).value) == target[|prefix|..]
  }

  lemma PlainTargetAgrees(lib: UuidLibrary, table: map<Uuid, Uuid>, prefix: string, target: string)
    requires Lawful(lib) && PlainTarget(lib, prefix, target)
    ensures ResolveTarget(lib, table, true, prefix, target) == Ok(FromTarget(lib, table, prefix, target))
  {
    var rest := if StartsWith(target, prefix) then target[|prefix|..] else "";
    if exists id :: Joins(lib, table, prefix, target, id) {
      var id :| Joins(lib, table, prefix, target, id);
      AtMostOneJoins(lib, table, prefix, target, id);
      assert rest == lib.text(id);
    } else if StartsWith(target, prefix) && lib.accepts(rest) {
      assert target == prefix + rest;
      assert !Joins(lib, table, prefix, target, lib.cast(rest).value);
    }
  }

  lemma PlainRowAgrees(lib: UuidLibrary, db: Db, actor: string, target: string)
    requires Lawful(lib) && PlainActor(lib, actor)
    requires PlainTarget(lib, CASE_PREFIX, target) && PlainTarget(lib, PORT_PREFIX, target)
    ensures ResolveAccountId(lib, db, {}, actor, target) == Ok(Backfilled(lib, db, actor, target))
  {
    PlainTargetAgrees(lib, db.cases, CASE_PREFIX, target);
    PlainTargetAgrees(lib, db.ports, PORT_PREFIX, target);
  }

  /** A database in which an accepted but unhyphenated actor is an account. */
  lemma ExoticActorDisagrees(lib: UuidLibrary, actor: string, target: string) returns (db: Db)
    requires Lawful(lib) && !PlainActor(lib, actor)
    ensures ResolveAccountId(lib, db, {}, actor, target) != Ok(Backfilled(lib, db, actor, target))
  {
    db := Db(if lib.cast(actor).Some? then {lib.cast(actor).value} else {}, map[], map[], map[]);
    assert forall prefix, id :: !Joins(lib, map[], prefix, target, id);
  }

  /** A database in which an accepted target id, not spelled as the database spells it, exists. */
  lemma ExoticTargetDisagrees(lib: UuidLibrary, actor: string, target: string, prefix: string) returns (db: Db)
    requires Lawful(lib) && (prefix == CASE_PREFIX || prefix == PORT_PREFIX) && !PlainTarget(lib, prefix, target)
    ensures ResolveAccountId(lib, db, {}, actor, target) != Ok(Backfilled(lib, db, actor, target))
  {
    var rest := target[|prefix|..];
    var table := if lib.cast(rest).Some? then map[lib.cast(rest).value := 0] else map[];
    db := if prefix == CASE_PREFIX then Db({}, map[], table, map[]) else Db({}, map[], map[], table);
    assert CASE_PREFIX[0] != PORT_PREFIX[0];
    forall id: Uuid ensures !Joins(lib, table, prefix, target, id) {
      assert target == prefix + lib.text(id) ==> rest == lib.text(id);
    }
    assert forall other, id :: !Joins(lib, map[], other, target, id);
    assert FromTarget(lib, db.cases, CASE_PREFIX, target).None? && FromTarget(lib, db.ports, PORT_PREFIX, target).None?;
  }

  /** The passes give a row what attribution at write time would give it, in every
      database, exactly when its actor is no UUID text or hyphenated and the id in its
      target is no UUID text or canonical. */
  lemma BackfillMatchesExactlyPlainRows(lib: UuidLibrary, actor: string, target: string)
    requires Lawful(lib)
    ensures (forall db :: ResolveAccountId(lib, db, {}, actor, target) == Ok(Backfilled(lib, db, actor, target))) <==>
            PlainActor(lib, actor) && PlainTarget(lib, CASE_PREFIX, target) && PlainTarget(lib, PORT_PREFIX, target)
  {
    if !PlainActor(lib, actor) {
      var db := ExoticActorDisagrees(lib, actor, target);
    } else if !PlainTarget(lib, CASE_PREFIX, target) {
      var db := ExoticTargetDisagrees(lib, actor, target, CASE_PREFIX);
    } else if !PlainTarget(lib, PORT_PREFIX, target) {
      var db := ExoticTargetDisagrees(lib, actor, target, PORT_PREFIX);
    } else {
      forall db ensures ResolveAccountId(lib, db, {}, actor, target) == Ok(Backfilled(lib, db, actor, target)) {
        PlainRowAgrees(lib, db, actor, target);
      }
    }
  }

  // ----- a row on which the two disagree -----

  /** An account id that is written without hyphens is attributed at write time and
      missed by the migration. */
  lemma UnhyphenatedAccountIsMissed(lib: UuidLibrary, actor: string, target: string, u: Uuid)
    requires Lawful(lib) && lib.accepts(actor) && lib.cast(actor) == Some(u) && !Hyphenated(actor)
    ensures var db := Db({u}, map[], map[], map[]);
            && ResolveAccountId(lib, db, {}, actor, target) == Ok(Some(u))
            && Backfilled(lib, db, actor, target) == None
  {
    assert forall prefix, id :: !Joins(lib, map[], prefix, target, id);
  }
}
