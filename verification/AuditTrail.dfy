/** The audit writer: attributing an event to a customer account, hashing the
    recorded states, appending, and the account's view of the log. */
module AuditTrail {
  import opened Seqs
  import opened CanonicalState

  const UUID_LIMIT: nat := 0x1_0000_0000_0000_0000_0000_0000_0000_0000

  type Uuid = bits: nat | bits < UUID_LIMIT

  /** The two readings of UUID text: Python's `uuid.UUID(text)` accepts it or not, and
      the database's cast to its uuid type succeeds or not. `text` is the database's
      own rendering. */
  datatype UuidLibrary = UuidLibrary(accepts: string -> bool, cast: string -> Option<Uuid>, text: Uuid -> string)

  predicate IsHexDigit(c: char) {
    '0' <= c <= '9' || 'a' <= c <= 'f' || 'A' <= c <= 'F'
  }

  predicate AllHex(t: string) {
    forall i :: 0 <= i < |t| ==> IsHexDigit(t[i])
  }

  /** The pattern 8-4-4-4-12. */
  predicate Hyphenated(t: string) {
    && |t| == 36
    && AllHex(t[..8]) && t[8] == '-' && AllHex(t[9..13]) && t[13] == '-' && AllHex(t[14..18]) && t[18] == '-'
    && AllHex(t[19..23]) && t[23] == '-' && AllHex(t[24..])
  }

  /** Character by character: hyphens at four places and hexadecimal digits at all others. */
  lemma HyphenatedByPosition(t: string)
    ensures Hyphenated(t) <==>
              |t| == 36 && forall i :: 0 <= i < 36 ==>
                if i in {8, 13, 18, 23} then t[i] == '-' else t[i] in "0123456789abcdefABCDEF"
  {
    forall c: char ensures IsHexDigit(c) <==> c in "0123456789abcdefABCDEF" {
      HexDigitsAre(c);
    }
    if |t| == 36 {
      assert forall i :: 0 <= i < 8 ==> t[i] == t[..8][i];
      assert forall i :: 9 <= i < 13 ==> t[i] == t[9..13][i - 9];
      assert forall i :: 14 <= i < 18 ==> t[i] == t[14..18][i - 14];
      assert forall i :: 19 <= i < 23 ==> t[i] == t[19..23][i - 19];
      assert forall i :: 24 <= i < 36 ==> t[i] == t[24..][i - 24];
    }
  }

  lemma HexDigitsAre(c: char)
    ensures IsHexDigit(c) <==> c in "0123456789abcdefABCDEF"
  {
    var digits := "0123456789abcdefABCDEF";
    if '0' <= c <= '9' { assert digits[c as int - '0' as int] == c; }
    if 'a' <= c <= 'f' { assert digits[10 + c as int - 'a' as int] == c; }
    if 'A' <= c <= 'F' { assert digits[16 + c as int - 'A' as int] == c; }
  }

  /** Both libraries read the hyphenated form; rendering gives that form and is read back. */
  ghost predicate Lawful(lib: UuidLibrary) {
    && (forall t :: Hyphenated(t) ==> lib.accepts(t) && lib.cast(t).Some?)
    && (forall u: Uuid :: Hyphenated(lib.text(u)) && lib.cast(lib.text(u)) == Some(u))
  }

  /** The tables the attribution looks at; the mapped value is the owning account. */
  datatype Db = Db(accounts: set<Uuid>, users: map<Uuid, Uuid>, cases: map<Uuid, Uuid>, ports: map<Uuid, Uuid>)

  datatype AuditError = InvalidTextRepresentation | MissingActorOrTarget | ReadFailed | NotSerializable

  datatype Table = Accounts | Users | Cases | Ports

  const CASE_PREFIX := "compliance_case:"
  const PORT_PREFIX := "porting_request:"

  predicate StartsWith(t: string, prefix: string) {
    |prefix| <= |t| && t[..|prefix|] == prefix
  }

  /** A comparison of an id column with text casts the text, and a text that cannot be
      cast aborts the statement; so does a table that cannot be read. */
  function ById(lib: UuidLibrary, table: map<Uuid, Uuid>, readable: bool, text: string): Result<Option<Uuid>, AuditError> {
    if !readable then Err(ReadFailed)
    else
      match lib.cast(text)
      case None => Err(InvalidTextRepresentation)
      case Some(u) => Ok(if u in table then Some(table[u]) else None)
  }

  function ResolveTarget(lib: UuidLibrary, table: map<Uuid, Uuid>, readable: bool, prefix: string, target: string): Result<Option<Uuid>, AuditError> {
    if StartsWith(target, prefix) && lib.accepts(target[|prefix|..]) then ById(lib, table, readable, target[|prefix|..]) else Ok(None)
  }

  function ResolveActor(lib: UuidLibrary, db: Db, failing: set<Table>, actor: string): Result<Option<Uuid>, AuditError> {
    if !lib.accepts(actor) then Ok(None)
    else if Accounts in failing then Err(ReadFailed)
    else
      match lib.cast(actor)
      case None => Err(InvalidTextRepresentation)
      case Some(u) =>
        if u in db.accounts then Ok(Some(u))
        else if Users in failing then Err(ReadFailed)
        else Ok(if u in db.users then Some(db.users[u]) else None)
  }

  /** Attribution at write time: the actor is an account, or a user of one, or the
      target names a compliance case or a porting request. `failing` are the tables
      whose reads fail meanwhile. */
  function ResolveAccountId(lib: UuidLibrary, db: Db, failing: set<Table>, actor: string, target: string): Result<Option<Uuid>, AuditError> {
    var byActor := ResolveActor(lib, db, failing, actor);
    if byActor.Err? || byActor.value.Some? then byActor
    else
      var byCase := ResolveTarget(lib, db.cases, Cases !in failing, CASE_PREFIX, target);
      if byCase.Err? || byCase.value.Some? then byCase
      else ResolveTarget(lib, db.ports, Ports !in failing, PORT_PREFIX, target)
  }

  // ----- writing -----

  datatype AuditEvent = AuditEvent(
    id: string, actor: string, action: string, target: string, accountId: Option<Uuid>,
    reason: Option<string>, correlationId: Option<string>,
    beforeHash: Option<string>, afterHash: Option<string>, createdAt: int)

  /** The arguments of `log_event`: two calling conventions share one signature. */
  datatype LogRequest<V> = LogRequest(
    actor: Option<string>, action: string, target: Option<string>, reason: Option<string>,
    correlationId: Option<string>, before: Option<Dict<V>>, after: Option<Dict<V>>, accountId: Option<Uuid>,
    actorId: Option<string>, targetType: Option<string>, targetId: Option<string>, metadata: Option<Dict<V>>)

  /** `writes` tells the values that `json.dumps` can write; `render` is what it writes. */
  datatype Hasher<!V> = Hasher(digest: string -> string, render: V -> string, writes: V -> bool)

  predicate Writes<V>(hasher: Hasher<V>, state: Option<Dict<V>>) {
    state.Some? ==> forall i :: 0 <= i < |state.value| ==> hasher.writes(state.value[i].1)
  }

  /** The hash of a state, or the error of a value that cannot be written. */
  function TryHash<V>(hasher: Hasher<V>, state: Option<Dict<V>>): Result<Option<string>, AuditError> {
    if Writes(hasher, state) then Ok(HashState(hasher.digest, hasher.render, state)) else Err(NotSerializable)
  }

  function Actor<V>(q: LogRequest<V>): Option<string> {
    if q.actor.Some? then q.actor else q.actorId
  }

  function Target<V>(q: LogRequest<V>): Option<string> {
    if q.target.Some? then q.target
    else if q.targetType.Some? && q.targetId.Some? then Some(q.targetType.value + ":" + q.targetId.value)
    else None
  }

  function After<V>(q: LogRequest<V>): Option<Dict<V>> {
    if q.after.Some? then q.after else q.metadata
  }

  function Attribution<V>(lib: UuidLibrary, db: Db, failing: set<Table>, q: LogRequest<V>): Result<Option<Uuid>, AuditError> {
    if Actor(q).None? || Target(q).None? then Err(MissingActorOrTarget)
    else if q.accountId.Some? then Ok(q.accountId)
    else ResolveAccountId(lib, db, failing, Actor(q).value, Target(q).value)
  }

  /** The event a request asks for. */
  function EventFor<V>(hasher: Hasher<V>, lib: UuidLibrary, db: Db, failing: set<Table>, q: LogRequest<V>, id: string, now: int): Result<AuditEvent, AuditError> {
    var account := Attribution(lib, db, failing, q);
    var before, after := TryHash(hasher, q.before), TryHash(hasher, After(q));
    if Actor(q).None? || Target(q).None? then Err(MissingActorOrTarget)
    else if account.Err? then Err(account.error)
    else if before.Err? then Err(before.error)
    else if after.Err? then Err(after.error)
    else Ok(AuditEvent(id, Actor(q).value, q.action, Target(q).value, account.value, q.reason, q.correlationId,
                       before.value, after.value, now))
  }

  /** Either calling convention records the same event. */
  lemma ConventionsAgree<V>(hasher: Hasher<V>, lib: UuidLibrary, db: Db, failing: set<Table>, plain: LogRequest<V>, kind: string, key: string,
                            id: string, now: int)
    requires plain.target == Some(kind + ":" + key)
    ensures var compat := plain.(actor := None, actorId := Actor(plain), target := None, targetType := Some(kind),
                                 targetId := Some(key), after := None, metadata := After(plain));
            EventFor(hasher, lib, db, failing, plain, id, now) == EventFor(hasher, lib, db, failing, compat, id, now)
  {
  }

  /** Text that passes the writer's guard and then meets a table that cannot be read, or
      that the database cannot cast. */
  predicate Lost(lib: UuidLibrary, readable: bool, text: string) {
    lib.accepts(text) && (!readable || lib.cast(text).None?)
  }

  predicate LostAfter(lib: UuidLibrary, readable: bool, prefix: string, target: string) {
    StartsWith(target, prefix) && Lost(lib, readable, target[|prefix|..])
  }

  predicate IsAccount(lib: UuidLibrary, db: Db, actor: string) {
    lib.accepts(actor) && lib.cast(actor).Some? && lib.cast(actor).value in db.accounts
  }

  /** The actor is an account or a user, in whatever spelling. */
  predicate Known(lib: UuidLibrary, db: Db, actor: string) {
    IsAccount(lib, db, actor) || (lib.accepts(actor) && lib.cast(actor).Some? && lib.cast(actor).value in db.users)
  }

  /** Attribution raises: on the actor; or, for an actor that is no account, because users
      cannot be read; or, for one that is neither account nor user, on the id in the target. */
  predicate AttributionRaises(lib: UuidLibrary, db: Db, failing: set<Table>, actor: string, target: string) {
    || Lost(lib, Accounts !in failing, actor)
    || (!IsAccount(lib, db, actor) && Lost(lib, Users !in failing, actor))
    || (!Known(lib, db, actor) && LostAfter(lib, Cases !in failing, CASE_PREFIX, target))
    || (!Known(lib, db, actor) && LostAfter(lib, Ports !in failing, PORT_PREFIX, target))
  }

  lemma AttributionRaisesExactly(lib: UuidLibrary, db: Db, failing: set<Table>, actor: string, target: string)
    ensures ResolveAccountId(lib, db, failing, actor, target).Err? <==> AttributionRaises(lib, db, failing, actor, target)
  {
    assert !(StartsWith(target, CASE_PREFIX) && StartsWith(target, PORT_PREFIX)) by {
      assert CASE_PREFIX[0] != PORT_PREFIX[0];
    }
  }

  /** The writer can raise although it is documented never to: exactly when the actor or
      the target is missing, or no account is given and attribution raises, or one of the
      two states holds a value that cannot be written. */
  lemma WriterRaisesExactly<V>(hasher: Hasher<V>, lib: UuidLibrary, db: Db, failing: set<Table>, q: LogRequest<V>, id: string, now: int)
    ensures EventFor(hasher, lib, db, failing, q, id, now).Err? <==>
              || Actor(q).None? || Target(q).None?
              || (q.accountId.None? && AttributionRaises(lib, db, failing, Actor(q).value, Target(q).value))
              || !Writes(hasher, q.before) || !Writes(hasher, After(q))
  {
    if Actor(q).Some? && Target(q).Some? {
      AttributionRaisesExactly(lib, db, failing, Actor(q).value, Target(q).value);
    }
  }

  lemma LostActorRaises<V>(hasher: Hasher<V>, lib: UuidLibrary, db: Db, failing: set<Table>, q: LogRequest<V>, id: string, now: int)
    requires Actor(q).Some? && Target(q).Some? && q.accountId.None? && Lost(lib, true, Actor(q).value)
    ensures EventFor(hasher, lib, db, failing, q, id, now) ==
            Err(if Accounts in failing then ReadFailed else InvalidTextRepresentation)
  {
  }

  lemma AccountIsAttributed<V>(hasher: Hasher<V>, lib: UuidLibrary, db: Db, failing: set<Table>, q: LogRequest<V>, id: string, now: int)
    requires Actor(q).Some? && Target(q).Some? && q.accountId.None? && IsAccount(lib, db, Actor(q).value)
    requires Accounts !in failing && Writes(hasher, q.before) && Writes(hasher, After(q))
    ensures EventFor(hasher, lib, db, failing, q, id, now).Ok?
    ensures EventFor(hasher, lib, db, failing, q, id, now).value.accountId == lib.cast(Actor(q).value)
  {
  }

  /** With an injective digest, equal before and after hashes mean that no recorded
      field changed, and conversely. */
  lemma EqualHashesMeanNoChange<V(!new)>(hasher: Hasher<V>, lib: UuidLibrary, db: Db, failing: set<Table>, q: LogRequest<V>, id: string, now: int)
    requires Injective(hasher.digest) && SelfDelimiting(hasher.render)
    requires q.before.Some? && After(q).Some? && DistinctKeys(q.before.value) && DistinctKeys(After(q).value)
    requires EventFor(hasher, lib, db, failing, q, id, now).Ok?
    ensures var e := EventFor(hasher, lib, db, failing, q, id, now).value;
            e.beforeHash == e.afterHash <==> AsMap(q.before.value) == AsMap(After(q).value)
  {
    EventHashes(hasher, lib, db, failing, q, id, now);
    HashIdentifiesState(hasher.digest, hasher.render, q.before.value, After(q).value);
  }

  lemma EventHashes<V>(hasher: Hasher<V>, lib: UuidLibrary, db: Db, failing: set<Table>, q: LogRequest<V>, id: string, now: int)
    requires EventFor(hasher, lib, db, failing, q, id, now).Ok?
    ensures var e := EventFor(hasher, lib, db, failing, q, id, now).value;
            && e.beforeHash == HashState(hasher.digest, hasher.render, q.before)
            && e.afterHash == HashState(hasher.digest, hasher.render, After(q))
  {
  }

  // ----- what an event holds -----

  /** Each field of a logged event, from the request alone. */
  lemma LoggedEventHoldsRequest<V>(hasher: Hasher<V>, lib: UuidLibrary, db: Db, failing: set<Table>, q: LogRequest<V>, id: string, now: int)
    requires EventFor(hasher, lib, db, failing, q, id, now).Ok?
    ensures var e := EventFor(hasher, lib, db, failing, q, id, now).value;
            && e.id == id && e.createdAt == now
            && e.action == q.action && e.reason == q.reason && e.correlationId == q.correlationId
            && (q.actor.Some? ==> e.actor == q.actor.value)
            && (q.actor.None? ==> q.actorId == Some(e.actor))
            && (q.target.Some? ==> e.target == q.target.value)
            && (q.target.None? ==> q.targetType.Some? && q.targetId.Some? && e.target == q.targetType.value + ":" + q.targetId.value)
            && (q.accountId.Some? ==> e.accountId == q.accountId)
            && e.beforeHash == HashState(hasher.digest, hasher.render, q.before)
            && e.afterHash == HashState(hasher.digest, hasher.render, if q.after.Some? then q.after else q.metadata)
  {
  }

  /** The id that a text names, if it passes the guard. */
  function Named(lib: UuidLibrary, text: string): Option<Uuid> {
    if lib.accepts(text) then lib.cast(text) else None
  }

  /** The target, after the prefix, names a row of the table that belongs to the account. */
  ghost predicate TargetOf(lib: UuidLibrary, table: map<Uuid, Uuid>, prefix: string, target: string, account: Uuid) {
    exists rest :: target == prefix + rest && Named(lib, rest).Some? && Named(lib, rest).value in table
                   && table[Named(lib, rest).value] == account
  }

  lemma TargetOfExactly(lib: UuidLibrary, table: map<Uuid, Uuid>, prefix: string, target: string, account: Uuid)
    ensures TargetOf(lib, table, prefix, target, account) <==>
            ResolveTarget(lib, table, true, prefix, target) == Ok(Some(account))
  {
    if TargetOf(lib, table, prefix, target, account) {
      var rest :| target == prefix + rest && Named(lib, rest).Some? && Named(lib, rest).value in table
                  && table[Named(lib, rest).value] == account;
      assert target[..|prefix|] == prefix && target[|prefix|..] == rest;
    }
    if StartsWith(target, prefix) {
      assert target == prefix + target[|prefix|..];
    }
  }

  /** When no account is given, an event is attributed to an account exactly when the actor
      names it, or names a user of it, or names neither and the target names a compliance
      case or a porting request of it. */
  lemma LoggedEventIsAttributed<V>(hasher: Hasher<V>, lib: UuidLibrary, db: Db, failing: set<Table>, q: LogRequest<V>, id: string, now: int, account: Uuid)
    requires q.accountId.None? && EventFor(hasher, lib, db, failing, q, id, now).Ok?
    ensures var e := EventFor(hasher, lib, db, failing, q, id, now).value;
            var named := Named(lib, e.actor);
            e.accountId == Some(account) <==>
              if named.Some? && named.value in db.accounts then account == named.value
              else if named.Some? && named.value in db.users then account == db.users[named.value]
              else TargetOf(lib, db.cases, "compliance_case:", e.target, account) || TargetOf(lib, db.ports, "porting_request:", e.target, account)
  {
    var target := Target(q).value;
    TargetOfExactly(lib, db.cases, "compliance_case:", target, account);
    TargetOfExactly(lib, db.ports, "porting_request:", target, account);
    OnePrefixOnly(target);
  }

  lemma OnePrefixOnly(target: string)
    ensures !(StartsWith(target, CASE_PREFIX) && StartsWith(target, PORT_PREFIX))
  {
    assert CASE_PREFIX[0] != PORT_PREFIX[0];
  }

  /** The same dictionary, or none in both cases. */
  ghost predicate SameState<V>(a: Option<Dict<V>>, b: Option<Dict<V>>) {
    a.Some? == b.Some? && (a.Some? ==> AsMap(a.value) == AsMap(b.value))
  }

  ghost predicate ProperState<V>(a: Option<Dict<V>>) {
    a.Some? ==> DistinctKeys(a.value)
  }

  lemma HashesAgreeExactly<V(!new)>(digest: string -> string, render: V -> string, a: Option<Dict<V>>, b: Option<Dict<V>>)
    requires Injective(digest) && SelfDelimiting(render) && ProperState(a) && ProperState(b)
    ensures HashState(digest, render, a) == HashState(digest, render, b) <==> SameState(a, b)
  {
    if a.Some? && b.Some? { HashIdentifiesState(digest, render, a.value, b.value); }
  }

  /** Across events, with an injective digest: before-hashes are equal exactly when the
      states before were the same, after-hashes exactly when the states after were, and one
      event links to another exactly when it left the state that the other found. */
  lemma EventsShareHashesExactly<V(!new)>(hasher: Hasher<V>, lib: UuidLibrary, db: Db, db': Db, failing: set<Table>, failing': set<Table>,
                                          q: LogRequest<V>, q': LogRequest<V>, id: string, id': string, now: int, now': int)
    requires Injective(hasher.digest) && SelfDelimiting(hasher.render)
    requires EventFor(hasher, lib, db, failing, q, id, now).Ok? && EventFor(hasher, lib, db', failing', q', id', now').Ok?
    requires ProperState(q.before) && ProperState(q'.before) && ProperState(q.after) && ProperState(q'.after)
    requires ProperState(q.metadata) && ProperState(q'.metadata)
    ensures var e, e' := EventFor(hasher, lib, db, failing, q, id, now).value, EventFor(hasher, lib, db', failing', q', id', now').value;
            var after, after' := if q.after.Some? then q.after else q.metadata, if q'.after.Some? then q'.after else q'.metadata;
            && (e.beforeHash == e'.beforeHash <==> SameState(q.before, q'.before))
            && (e.afterHash == e'.afterHash <==> SameState(after, after'))
            && (e.afterHash == e'.beforeHash <==> SameState(after, q'.before))
  {
    LoggedEventHoldsRequest(hasher, lib, db, failing, q, id, now);
    LoggedEventHoldsRequest(hasher, lib, db', failing', q', id', now');
    var after, after' := if q.after.Some? then q.after else q.metadata, if q'.after.Some? then q'.after else q'.metadata;
    HashesAgreeExactly(hasher.digest, hasher.render, q.before, q'.before);
    HashesAgreeExactly(hasher.digest, hasher.render, after, after');
    HashesAgreeExactly(hasher.digest, hasher.render, after, q'.before);
  }

  class AuditLog<V> {
    const hasher: Hasher<V>
    const lib: UuidLibrary
    var events: seq<AuditEvent>

    constructor (hasher: Hasher<V>, lib: UuidLibrary)
      ensures this.hasher == hasher && this.lib == lib && events == []
    {
      this.hasher := hasher;
      this.lib := lib;
      events := [];
    }

    /** Appends the event, or swallows a failed write, or raises before writing. */
    method LogEvent(db: Db, failing: set<Table>, q: LogRequest<V>, id: string, now: int, commits: bool) returns (r: Result<Option<AuditEvent>, AuditError>)
      modifies this`events
      ensures match EventFor(hasher, lib, db, failing, q, id, now)
              case Err(e) => r == Err(e) && events == old(events)
              case Ok(e) => if commits then r == Ok(Some(e)) && events == old(events) + [e]
                            else r == Ok(None) && events == old(events)
    {
      var actor := if q.actor.Some? then q.actor else q.actorId;
      var target := q.target;
      if target.None? && q.targetType.Some? && q.targetId.Some? {
        target := Some(q.targetType.value + ":" + q.targetId.value);
      }
      var after := if q.after.Some? then q.after else q.metadata;
      if actor.None? || target.None? {
        return Err(MissingActorOrTarget);
      }
      var account := q.accountId;
      if account.None? {
        var resolved := ResolveAccountId(lib, db, failing, actor.value, target.value);
        if resolved.Err? {
          return Err(resolved.error);
        }
        account := resolved.value;
      }
      var beforeHash, afterHash := TryHash(hasher, q.before), TryHash(hasher, after);
      if beforeHash.Err? {
        return Err(beforeHash.error);
      }
      if afterHash.Err? {
        return Err(afterHash.error);
      }
      var event := AuditEvent(id, actor.value, q.action, target.value, account, q.reason, q.correlationId,
                              beforeHash.value, afterHash.value, now);
      if !commits {
        return Ok(None);
      }
      events := events + [event];
      r := Ok(Some(event));
    }
  }

  // ----- the account's view -----

  function Of(account: Uuid): AuditEvent -> bool {
    (e: AuditEvent) => e.accountId == Some(account)
  }

  predicate NewestFirst(a: AuditEvent, b: AuditEvent) {
    a.createdAt >= b.createdAt
  }

  function ListAccountEvents(events: seq<AuditEvent>, account: Uuid, limit: nat): seq<AuditEvent> {
    var own := StableSort(NewestFirst, Filter(Of(account), events));
    own[..if limit < |own| then limit else |own|]
  }

  /** The view holds only the account's own events, newest first, and leaves one out
      only when it is full of events at least as new. */
  lemma ViewIsNewestOwnEvents(events: seq<AuditEvent>, account: Uuid, limit: nat, e: AuditEvent)
    requires e in events
    ensures var view := ListAccountEvents(events, account, limit);
            && Sorted(NewestFirst, view)
            && (forall v :: v in view ==> v in events && v.accountId == Some(account))
            && (e.accountId == Some(account) && e !in view ==>
                  |view| == limit && forall v :: v in view ==> v.createdAt >= e.createdAt)
  {
    var own := StableSort(NewestFirst, Filter(Of(account), events));
    var view := ListAccountEvents(events, account, limit);
    FilterMembers(Of(account), events);
    SortPermutes(NewestFirst, Filter(Of(account), events));
    SortSorts(NewestFirst, Filter(Of(account), events));
    assert forall v :: v in view ==> v in own;
    if e.accountId == Some(account) && e !in view {
      var i :| 0 <= i < |own| && own[i] == e;
      assert i >= |view|;
      forall v | v in view ensures v.createdAt >= e.createdAt {
        var k :| 0 <= k < |view| && view[k] == v;
        assert NewestFirst(own[k], own[i]);
      }
    }
  }
}
