/** The audit writer on actual recorded states: which values it cannot write, and what
    equal hashes mean when states hold nested values. */
module RecordedStates {
  import opened Seqs
  import opened CanonicalState
  import opened JsonValues
  import opened AuditTrail

  // ----- states of JSON values -----

  function JsonHasher(digest: string -> string): Hasher<Json> {
    Hasher(digest, Dumps, (v: Json) => true)
  }

  /** An event's two hashes are equal exactly when the recorded states are the same
      dictionary, nested values included and whatever order dictionaries were built in. */
  lemma EqualHashesMeanSameState(digest: string -> string, lib: UuidLibrary, db: Db, failing: set<Table>, q: LogRequest<Json>, id: string, now: int)
    requires Injective(digest) && q.before.Some? && After(q).Some?
    requires Proper(Obj(q.before.value)) && Proper(Obj(After(q).value))
    requires EventFor(JsonHasher(digest), lib, db, failing, q, id, now).Ok?
    ensures var e := EventFor(JsonHasher(digest), lib, db, failing, q, id, now).value;
            e.beforeHash == e.afterHash <==> Same(Obj(q.before.value), Obj(After(q).value))
  {
    HashIdentifiesJsonState(digest, q.before.value, After(q).value);
  }

  ghost predicate SameRecorded(a: Option<Dict<Json>>, b: Option<Dict<Json>>) {
    a.Some? == b.Some? && (a.Some? ==> Same(Obj(a.value), Obj(b.value)))
  }

  ghost predicate ProperRecorded(a: Option<Dict<Json>>) {
    a.Some? ==> Proper(Obj(a.value))
  }

  lemma RecordedHashesAgreeExactly(digest: string -> string, a: Option<Dict<Json>>, b: Option<Dict<Json>>)
    requires Injective(digest) && ProperRecorded(a) && ProperRecorded(b)
    ensures HashState(digest, Dumps, a) == HashState(digest, Dumps, b) <==> SameRecorded(a, b)
  {
    if a.Some? && b.Some? { HashIdentifiesJsonState(digest, a.value, b.value); }
  }

  /** Across events of nested JSON states: equal before-hashes mean the same states before,
      equal after-hashes the same states after, and conversely. */
  lemma JsonEventsShareHashesExactly(digest: string -> string, lib: UuidLibrary, db: Db, db': Db, failing: set<Table>, failing': set<Table>,
                                     q: LogRequest<Json>, q': LogRequest<Json>, id: string, id': string, now: int, now': int)
    requires Injective(digest)
    requires EventFor(JsonHasher(digest), lib, db, failing, q, id, now).Ok? && EventFor(JsonHasher(digest), lib, db', failing', q', id', now').Ok?
    requires ProperRecorded(q.before) && ProperRecorded(q'.before) && ProperRecorded(q.after) && ProperRecorded(q'.after)
    requires ProperRecorded(q.metadata) && ProperRecorded(q'.metadata)
    ensures var e := EventFor(JsonHasher(digest), lib, db, failing, q, id, now).value;
            var e' := EventFor(JsonHasher(digest), lib, db', failing', q', id', now').value;
            var after, after' := if q.after.Some? then q.after else q.metadata, if q'.after.Some? then q'.after else q'.metadata;
            && (e.beforeHash == e'.beforeHash <==> SameRecorded(q.before, q'.before))
            && (e.afterHash == e'.afterHash <==> SameRecorded(after, after'))
            && (e.afterHash == e'.beforeHash <==> SameRecorded(after, q'.before))
  {
    LoggedEventHoldsRequest(JsonHasher(digest), lib, db, failing, q, id, now);
    LoggedEventHoldsRequest(JsonHasher(digest), lib, db', failing', q', id', now');
    var after, after' := if q.after.Some? then q.after else q.metadata, if q'.after.Some? then q'.after else q'.metadata;
    RecordedHashesAgreeExactly(digest, q.before, q'.before);
    RecordedHashesAgreeExactly(digest, after, after');
    RecordedHashesAgreeExactly(digest, after, q'.before);
  }

  // ----- dictionaries whose keys are not all text -----

  datatype Key = TextKey(text: string) | NumberKey(number: int) | NoKey

  /** A value that may hold dictionaries with keys of several kinds. */
  datatype Value = Leaf(json: Json) | Sequence(items: seq<Value>) | Mapping(fields: seq<(Key, Value)>)

  /** Python can order text among text and numbers among numbers. */
  predicate Comparable(a: Key, b: Key) {
    (a.TextKey? && b.TextKey?) || (a.NumberKey? && b.NumberKey?)
  }

  ghost predicate DistinctMappingKeys(fields: seq<(Key, Value)>) {
    forall i, j :: 0 <= i < j < |fields| ==> fields[i].0 != fields[j].0
  }

  /** With `sort_keys`, every dictionary inside needs keys that can be ordered. */
  predicate Sortable(v: Value) {
    match v
    case Leaf(_) => true
    case Sequence(items) => forall i :: 0 <= i < |items| ==> Sortable(items[i])
    case Mapping(fields) =>
      && (forall i, j :: 0 <= i < j < |fields| ==> Comparable(fields[i].0, fields[j].0))
      && (forall i :: 0 <= i < |fields| ==> Sortable(fields[i].1))
  }

  predicate HasText(fields: seq<(Key, Value)>) {
    exists i :: 0 <= i < |fields| && fields[i].0.TextKey?
  }

  predicate HasNumber(fields: seq<(Key, Value)>) {
    exists i :: 0 <= i < |fields| && fields[i].0.NumberKey?
  }

  predicate HasNone(fields: seq<(Key, Value)>) {
    exists i :: 0 <= i < |fields| && fields[i].0.NoKey?
  }

  /** In a dictionary, keys can be ordered exactly when they are of one kind. */
  lemma KeysAreComparableExactly(fields: seq<(Key, Value)>)
    requires DistinctMappingKeys(fields)
    ensures (forall i, j :: 0 <= i < j < |fields| ==> Comparable(fields[i].0, fields[j].0)) <==>
            !(HasText(fields) && HasNumber(fields)) && !(HasText(fields) && HasNone(fields)) && !(HasNumber(fields) && HasNone(fields))
  {
    if forall i, j :: 0 <= i < j < |fields| ==> Comparable(fields[i].0, fields[j].0) {
      forall i, j | 0 <= i < |fields| && 0 <= j < |fields| && i != j ensures Comparable(fields[i].0, fields[j].0) {
        assert i < j || j < i;
      }
    } else {
      var i, j :| 0 <= i < j < |fields| && !Comparable(fields[i].0, fields[j].0);
      assert fields[i].0 != fields[j].0;
    }
  }

  /** A state that holds, at any field, a dictionary with a text key and a number key
      makes logging raise, whatever else is logged and whoever acts. */
  lemma MixedKeysMakeLoggingRaise(hasher: Hasher<Value>, lib: UuidLibrary, db: Db, failing: set<Table>, q: LogRequest<Value>,
                                  k: nat, id: string, now: int)
    requires forall v :: hasher.writes(v) == Sortable(v)
    requires After(q).Some? && k < |After(q).value| && After(q).value[k].1.Mapping?
    requires HasText(After(q).value[k].1.fields) && HasNumber(After(q).value[k].1.fields)
    ensures EventFor(hasher, lib, db, failing, q, id, now).Err?
  {
    var fields := After(q).value[k].1.fields;
    var i :| 0 <= i < |fields| && fields[i].0.TextKey?;
    var j :| 0 <= j < |fields| && fields[j].0.NumberKey?;
    assert !Comparable(fields[i].0, fields[j].0) && !Comparable(fields[j].0, fields[i].0);
    assert i < j || j < i;
    assert !Sortable(After(q).value[k].1);
    WriterRaisesExactly(hasher, lib, db, failing, q, id, now);
  }
}
