/** The values a recorded state can hold, nested lists and dictionaries included, and
    what `json.dumps(value, sort_keys=True)` tells apart. */
module JsonValues {
  import opened Seqs
  import opened CanonicalState

  /** A dictionary is its list of fields in insertion order. */
  datatype Json =
    | Null
    | Bool(truth: bool)
    | Int(number: int)
    | Text(text: string)
    | List(items: seq<Json>)
    | Obj(fields: Dict<Json>)

  // ----- numbers -----

  predicate IsDigit(c: char) { '0' <= c <= '9' }

  function Digits(n: nat): (r: string)
    ensures r != ""
  {
    if n < 10 then [HexDigit(n)] else Digits(n / 10) + [HexDigit(n % 10)]
  }

  function Decimal(n: int): (r: string)
    ensures r != ""
  {
    if n < 0 then "-" + Digits(-n) else Digits(n)
  }

  lemma {:induction false} DigitsAreDigits(n: nat)
    ensures forall i :: 0 <= i < |Digits(n)| ==> IsDigit(Digits(n)[i])
  {
    if n >= 10 { DigitsAreDigits(n / 10); }
  }

  lemma {:induction false} DigitsInjective(m: nat, n: nat)
    requires Digits(m) == Digits(n)
    ensures m == n
    decreases m + n
  {
    if m >= 10 && n >= 10 {
      CancelPrefix(Digits(m / 10), Digits(n / 10), [HexDigit(m % 10)], [HexDigit(n % 10)]);
      DigitsInjective(m / 10, n / 10);
      assert [HexDigit(m % 10)][0] == [HexDigit(n % 10)][0];
    } else if m < 10 && n < 10 {
      assert Digits(m)[0] == Digits(n)[0];
    }
  }

  /** What may follow a value. */
  predicate Stops(x: string) {
    x != "" && x[0] in ",]}"
  }

  lemma DigitsAreSelfDelimiting(m: nat, n: nat, x: string, y: string)
    requires Stops(x) && Stops(y) && Digits(m) + x == Digits(n) + y
    ensures m == n && x == y
  {
    DigitsAreDigits(m);
    DigitsAreDigits(n);
    NoLonger(Digits(m), Digits(n), x, y);
    NoLonger(Digits(n), Digits(m), y, x);
    CancelPrefix(Digits(m), Digits(n), x, y);
    DigitsInjective(m, n);
  }

  lemma NoLonger(a: string, b: string, x: string, y: string)
    requires (forall i :: 0 <= i < |b| ==> IsDigit(b[i])) && Stops(x) && a + x == b + y
    ensures |b| <= |a|
  {
    assert forall i :: 0 <= i < |b| ==> IsDigit((b + y)[i]);
    assert (a + x)[|a|] == x[0] && !IsDigit(x[0]);
  }

  lemma DecimalIsSelfDelimiting(m: int, n: int, x: string, y: string)
    requires Stops(x) && Stops(y) && Decimal(m) + x == Decimal(n) + y
    ensures m == n && x == y
  {
    DecimalStart(m, x);
    DecimalStart(n, y);
    if m < 0 {
      ConcatAssoc("-", Digits(-m), x);
      ConcatAssoc("-", Digits(-n), y);
      CancelPrefix("-", "-", Digits(-m) + x, Digits(-n) + y);
      DigitsAreSelfDelimiting(-m, -n, x, y);
    } else {
      DigitsAreSelfDelimiting(m, n, x, y);
    }
  }

  lemma DecimalStart(n: int, x: string)
    ensures if n < 0 then (Decimal(n) + x)[0] == '-' else IsDigit((Decimal(n) + x)[0])
  {
    if n >= 0 { DigitsAreDigits(n); }
  }

  // ----- rendering -----

  function Size(v: Json): nat {
    match v
    case List(items) => |items| + 1
    case Obj(fields) => |fields| + 1
    case _ => 0
  }

  function Comma(i: nat): string {
    if i == 0 then "" else ", "
  }

  /** Fields are written in the order in which they stand. */
  function Render(v: Json): string
    decreases v, Size(v)
  {
    match v
    case Null => "null"
    case Bool(b) => if b then "true" else "false"
    case Int(n) => Decimal(n)
    case Text(t) => Quote(t)
    case List(_) => "[" + ItemsFrom(v, 0)
    case Obj(_) => "{" + FieldsFrom(v, 0)
  }

  function ItemsFrom(v: Json, i: nat): string
    requires v.List? && i <= |v.items|
    decreases v, |v.items| - i
  {
    if i == |v.items| then "]" else Comma(i) + (Render(v.items[i]) + ItemsFrom(v, i + 1))
  }

  function FieldsFrom(v: Json, i: nat): string
    requires v.Obj? && i <= |v.fields|
    decreases v, |v.fields| - i
  {
    if i == |v.fields| then "}" else Comma(i) + (Quote(v.fields[i].0) + (": " + (Render(v.fields[i].1) + FieldsFrom(v, i + 1))))
  }

  /** The first character tells the kinds apart. */
  function Kind(c: char): nat {
    if c == 'n' then 1 else if c == 't' || c == 'f' then 2 else if c == '-' || IsDigit(c) then 3
    else if c == '"' then 4 else if c == '[' then 5 else if c == '{' then 6 else 0
  }

  function KindOf(v: Json): nat {
    match v
    case Null => 1
    case Bool(_) => 2
    case Int(_) => 3
    case Text(_) => 4
    case List(_) => 5
    case Obj(_) => 6
  }

  lemma RenderStart(v: Json, x: string)
    ensures Render(v) + x != "" && Kind((Render(v) + x)[0]) == KindOf(v)
  {
    match v
    case Int(n) => DecimalStart(n, x);
    case _ =>
  }

  lemma ItemsStart(v: Json, i: nat)
    requires v.List? && i <= |v.items|
    ensures ItemsFrom(v, i) != ""
    ensures i == |v.items| ==> ItemsFrom(v, i)[0] == ']'
    ensures i < |v.items| ==> ItemsFrom(v, i)[0] != ']' && (i > 0 ==> ItemsFrom(v, i)[0] == ',')
  {
    if i < |v.items| { RenderStart(v.items[i], ItemsFrom(v, i + 1)); }
  }

  lemma FieldsStart(v: Json, i: nat)
    requires v.Obj? && i <= |v.fields|
    ensures FieldsFrom(v, i) != ""
    ensures FieldsFrom(v, i)[0] == if i == |v.fields| then '}' else if i == 0 then '"' else ','
  {
  }

  lemma AtomIsSelfDelimiting(v: Json, w: Json, x: string, y: string)
    requires Stops(x) && Stops(y) && Render(v) + x == Render(w) + y
    requires !v.List? && !v.Obj?
    ensures v == w && x == y
  {
    RenderStart(v, x);
    RenderStart(w, y);
    match v
    case Null => CancelPrefix("null", "null", x, y);
    case Bool(b) =>
      assert (Render(v) + x)[0] == if b then 't' else 'f';
      assert (Render(w) + y)[0] == if w.truth then 't' else 'f';
      CancelPrefix(Render(v), Render(w), x, y);
    case Int(n) => DecimalIsSelfDelimiting(n, w.number, x, y);
    case Text(t) => QuoteIsSelfDelimiting(t, w.text, x, y);
    case _ =>
  }

  /** Whatever may follow it, a rendered value shows where it ends and which value it is. */
  lemma RenderIsSelfDelimiting(v: Json, w: Json, x: string, y: string)
    requires Stops(x) && Stops(y) && Render(v) + x == Render(w) + y
    ensures v == w && x == y
    decreases v, Size(v)
  {
    RenderStart(v, x);
    RenderStart(w, y);
    if v.List? {
      ConcatAssoc("[", ItemsFrom(v, 0), x);
      ConcatAssoc("[", ItemsFrom(w, 0), y);
      CancelPrefix("[", "[", ItemsFrom(v, 0) + x, ItemsFrom(w, 0) + y);
      ItemsAreSelfDelimiting(v, w, 0, x, y);
      assert v.items[0..] == v.items && w.items[0..] == w.items;
    } else if v.Obj? {
      ConcatAssoc("{", FieldsFrom(v, 0), x);
      ConcatAssoc("{", FieldsFrom(w, 0), y);
      CancelPrefix("{", "{", FieldsFrom(v, 0) + x, FieldsFrom(w, 0) + y);
      FieldsAreSelfDelimiting(v, w, 0, x, y);
      assert v.fields[0..] == v.fields && w.fields[0..] == w.fields;
    } else {
      AtomIsSelfDelimiting(v, w, x, y);
    }
  }

  lemma ItemsAreSelfDelimiting(v: Json, w: Json, i: nat, x: string, y: string)
    requires v.List? && w.List? && i <= |v.items| && i <= |w.items|
    requires ItemsFrom(v, i) + x == ItemsFrom(w, i) + y
    ensures v.items[i..] == w.items[i..] && x == y
    decreases v, |v.items| - i
  {
    ItemsStart(v, i);
    ItemsStart(w, i);
    assert (ItemsFrom(v, i) + x)[0] == (ItemsFrom(w, i) + y)[0];
    if i == |v.items| || i == |w.items| {
      CancelPrefix("]", "]", x, y);
    } else {
      var a, b := Render(v.items[i]) + ItemsFrom(v, i + 1), Render(w.items[i]) + ItemsFrom(w, i + 1);
      ConcatAssoc(Comma(i), a, x);
      ConcatAssoc(Comma(i), b, y);
      CancelPrefix(Comma(i), Comma(i), a + x, b + y);
      ConcatAssoc(Render(v.items[i]), ItemsFrom(v, i + 1), x);
      ConcatAssoc(Render(w.items[i]), ItemsFrom(w, i + 1), y);
      ItemsStart(v, i + 1);
      ItemsStart(w, i + 1);
      RenderIsSelfDelimiting(v.items[i], w.items[i], ItemsFrom(v, i + 1) + x, ItemsFrom(w, i + 1) + y);
      ItemsAreSelfDelimiting(v, w, i + 1, x, y);
      assert v.items[i..] == [v.items[i]] + v.items[i + 1..] && w.items[i..] == [w.items[i]] + w.items[i + 1..];
    }
  }

  /** A key ends where its literal ends. */
  lemma KeyIsSelfDelimiting(i: nat, k: string, k': string, a: string, b: string, x: string, y: string)
    requires (Comma(i) + (Quote(k) + (": " + a))) + x == (Comma(i) + (Quote(k') + (": " + b))) + y
    ensures k == k' && a + x == b + y
  {
    ConcatAssoc(Comma(i), Quote(k) + (": " + a), x);
    ConcatAssoc(Comma(i), Quote(k') + (": " + b), y);
    CancelPrefix(Comma(i), Comma(i), (Quote(k) + (": " + a)) + x, (Quote(k') + (": " + b)) + y);
    ConcatAssoc(Quote(k), ": " + a, x);
    ConcatAssoc(Quote(k'), ": " + b, y);
    QuoteIsSelfDelimiting(k, k', (": " + a) + x, (": " + b) + y);
    ConcatAssoc(": ", a, x);
    ConcatAssoc(": ", b, y);
    CancelPrefix(": ", ": ", a + x, b + y);
  }

  lemma FieldsAreSelfDelimiting(v: Json, w: Json, i: nat, x: string, y: string)
    requires v.Obj? && w.Obj? && i <= |v.fields| && i <= |w.fields|
    requires FieldsFrom(v, i) + x == FieldsFrom(w, i) + y
    ensures v.fields[i..] == w.fields[i..] && x == y
    decreases v, |v.fields| - i
  {
    FieldsStart(v, i);
    FieldsStart(w, i);
    assert (FieldsFrom(v, i) + x)[0] == (FieldsFrom(w, i) + y)[0];
    if i == |v.fields| || i == |w.fields| {
      CancelPrefix("}", "}", x, y);
    } else {
      FieldKeysAgree(v, w, i, x, y);
      RenderIsSelfDelimiting(v.fields[i].1, w.fields[i].1, FieldsFrom(v, i + 1) + x, FieldsFrom(w, i + 1) + y);
      FieldsAreSelfDelimiting(v, w, i + 1, x, y);
      HeadAndTail(v.fields, i);
      HeadAndTail(w.fields, i);
    }
  }

  lemma HeadAndTail(d: Dict<Json>, i: nat)
    requires i < |d|
    ensures d[i..] == [(d[i].0, d[i].1)] + d[i + 1..]
  {
  }

  lemma FieldKeysAgree(v: Json, w: Json, i: nat, x: string, y: string)
    requires v.Obj? && w.Obj? && i < |v.fields| && i < |w.fields|
    requires FieldsFrom(v, i) + x == FieldsFrom(w, i) + y
    ensures v.fields[i].0 == w.fields[i].0
    ensures Render(v.fields[i].1) + (FieldsFrom(v, i + 1) + x) == Render(w.fields[i].1) + (FieldsFrom(w, i + 1) + y)
    ensures Stops(FieldsFrom(v, i + 1) + x) && Stops(FieldsFrom(w, i + 1) + y)
  {
    var f, g := v.fields[i], w.fields[i];
    KeyIsSelfDelimiting(i, f.0, g.0, Render(f.1) + FieldsFrom(v, i + 1), Render(g.1) + FieldsFrom(w, i + 1), x, y);
    ConcatAssoc(Render(f.1), FieldsFrom(v, i + 1), x);
    ConcatAssoc(Render(g.1), FieldsFrom(w, i + 1), y);
    FieldsStart(v, i + 1);
    FieldsStart(w, i + 1);
  }

  lemma JsonIsSelfDelimiting()
    ensures SelfDelimiting(Render)
  {
    forall v, w, x, y | x != "" && y != "" && x[0] in ",}" && y[0] in ",}" && Render(v) + x == Render(w) + y
      ensures v == w && x == y
    {
      RenderIsSelfDelimiting(v, w, x, y);
    }
  }

  // ----- sorting the keys -----

  /** The value with the fields of every dictionary in key order. */
  function Normal(v: Json): Json
    decreases v, Size(v)
  {
    match v
    case List(items) => List(seq(|items|, i requires 0 <= i < |items| => Normal(items[i])))
    case Obj(_) => Obj(StableSort(KeyOrder(), NormalFields(v)))
    case _ => v
  }

  function NormalFields(v: Json): (r: Dict<Json>)
    requires v.Obj?
    ensures |r| == |v.fields| && forall i :: 0 <= i < |r| ==> r[i] == (v.fields[i].0, Normal(v.fields[i].1))
    decreases v, 0
  {
    seq(|v.fields|, i requires 0 <= i < |v.fields| => (v.fields[i].0, Normal(v.fields[i].1)))
  }

  /** `json.dumps(v, sort_keys=True)` */
  function Dumps(v: Json): string {
    Render(Normal(v))
  }

  /** In no dictionary does a key occur twice. */
  ghost predicate Proper(v: Json)
    decreases v
  {
    match v
    case List(items) => forall i :: 0 <= i < |items| ==> Proper(items[i])
    case Obj(fields) => DistinctKeys(fields) && forall i :: 0 <= i < |fields| ==> Proper(fields[i].1)
    case _ => true
  }

  /** The same value: lists in their order, dictionaries in any order. */
  ghost predicate Same(v: Json, w: Json)
    decreases v, 1
  {
    match v
    case List(items) =>
      w.List? && |items| == |w.items| && forall i :: 0 <= i < |items| ==> Same(items[i], w.items[i])
    case Obj(fields) =>
      && w.Obj?
      && (forall i :: 0 <= i < |fields| ==> HasCounterpart(v, i, w))
      && (forall j :: 0 <= j < |w.fields| ==> IsCounterpart(v, w, j))
    case _ => v == w
  }

  ghost predicate HasCounterpart(v: Json, i: nat, w: Json)
    requires v.Obj? && w.Obj? && i < |v.fields|
    decreases v, 0
  {
    exists j :: 0 <= j < |w.fields| && v.fields[i].0 == w.fields[j].0 && Same(v.fields[i].1, w.fields[j].1)
  }

  ghost predicate IsCounterpart(v: Json, w: Json, j: nat)
    requires v.Obj? && w.Obj? && j < |w.fields|
    decreases v, 0
  {
    exists i :: 0 <= i < |v.fields| && v.fields[i].0 == w.fields[j].0 && Same(v.fields[i].1, w.fields[j].1)
  }

  /** Each field of one dictionary, once normalised, is one of the other's. */
  ghost predicate Covers(a: Dict<Json>, b: Dict<Json>) {
    forall i :: 0 <= i < |a| ==> a[i] in b
  }

  lemma SortedFieldsAgreeExactly(a: Dict<Json>, b: Dict<Json>)
    requires DistinctKeys(a) && DistinctKeys(b)
    ensures StableSort(KeyOrder(), a) == StableSort(KeyOrder(), b) <==> Covers(a, b) && Covers(b, a)
  {
    SortedByKey(a);
    SortedByKey(b);
    if Covers(a, b) && Covers(b, a) {
      forall e ensures e in a <==> e in b {
        if e in a { var i :| 0 <= i < |a| && a[i] == e; }
        if e in b { var i :| 0 <= i < |b| && b[i] == e; }
      }
      IncreasingIsUnique(StableSort(KeyOrder(), a), StableSort(KeyOrder(), b));
    }
    if StableSort(KeyOrder(), a) == StableSort(KeyOrder(), b) {
      forall i | 0 <= i < |a| ensures a[i] in b { assert a[i] in a; }
      forall i | 0 <= i < |b| ensures b[i] in a { assert b[i] in b; }
    }
  }

  /** Normalising identifies exactly the same values. */
  lemma NormalIdentifiesSame(v: Json, w: Json)
    requires Proper(v) && Proper(w)
    ensures Normal(v) == Normal(w) <==> Same(v, w)
    decreases v, 2
  {
    if v.List? && w.List? {
      ListsAgreeExactly(v, w);
    } else if v.Obj? && w.Obj? {
      SortedFieldsAgreeExactly(NormalFields(v), NormalFields(w));
      FieldsCoverExactly(v, w);
    }
  }

  lemma ListsAgreeExactly(v: Json, w: Json)
    requires v.List? && w.List? && Proper(v) && Proper(w)
    ensures Normal(v) == Normal(w) <==> Same(v, w)
    decreases v, 0
  {
    forall i | 0 <= i < |v.items| && i < |w.items| ensures Normal(v.items[i]) == Normal(w.items[i]) <==> Same(v.items[i], w.items[i]) {
      NormalIdentifiesSame(v.items[i], w.items[i]);
    }
    if Normal(v) == Normal(w) {
      assert |Normal(v).items| == |Normal(w).items|;
      forall i | 0 <= i < |v.items| ensures Same(v.items[i], w.items[i]) {
        assert Normal(v).items[i] == Normal(w).items[i];
      }
    }
    if Same(v, w) {
      assert Normal(v).items == Normal(w).items;
    }
  }

  lemma FieldsCoverExactly(v: Json, w: Json)
    requires v.Obj? && w.Obj? && Proper(v) && Proper(w)
    ensures Covers(NormalFields(v), NormalFields(w)) && Covers(NormalFields(w), NormalFields(v)) <==> Same(v, w)
    decreases v, 1
  {
    forall i | 0 <= i < |v.fields| ensures NormalFields(v)[i] in NormalFields(w) <==> HasCounterpart(v, i, w) {
      CounterpartIsFound(v, i, w);
    }
    forall j | 0 <= j < |w.fields| ensures NormalFields(w)[j] in NormalFields(v) <==> IsCounterpart(v, w, j) {
      CounterpartIsMet(v, w, j);
    }
  }

  lemma CounterpartIsFound(v: Json, i: nat, w: Json)
    requires v.Obj? && w.Obj? && Proper(v) && Proper(w) && i < |v.fields|
    ensures NormalFields(v)[i] in NormalFields(w) <==> HasCounterpart(v, i, w)
    decreases v, 0
  {
    var e, b := NormalFields(v)[i], NormalFields(w);
    forall j | 0 <= j < |b| ensures e == b[j] <==> v.fields[i].0 == w.fields[j].0 && Same(v.fields[i].1, w.fields[j].1) {
      NormalIdentifiesSame(v.fields[i].1, w.fields[j].1);
    }
    if e in b { var j :| 0 <= j < |b| && b[j] == e; }
    if HasCounterpart(v, i, w) {
      var j :| 0 <= j < |w.fields| && v.fields[i].0 == w.fields[j].0 && Same(v.fields[i].1, w.fields[j].1);
      assert b[j] == e;
    }
  }

  lemma CounterpartIsMet(v: Json, w: Json, j: nat)
    requires v.Obj? && w.Obj? && Proper(v) && Proper(w) && j < |w.fields|
    ensures NormalFields(w)[j] in NormalFields(v) <==> IsCounterpart(v, w, j)
    decreases v, 0
  {
    var e, a := NormalFields(w)[j], NormalFields(v);
    forall i | 0 <= i < |a| ensures a[i] == e <==> v.fields[i].0 == w.fields[j].0 && Same(v.fields[i].1, w.fields[j].1) {
      NormalIdentifiesSame(v.fields[i].1, w.fields[j].1);
    }
    if e in a { var i :| 0 <= i < |a| && a[i] == e; }
    if IsCounterpart(v, w, j) {
      var i :| 0 <= i < |v.fields| && v.fields[i].0 == w.fields[j].0 && Same(v.fields[i].1, w.fields[j].1);
      assert a[i] == e;
    }
  }

  /** Two values are written alike exactly when they are the same value. */
  lemma DumpsIdentifiesSame(v: Json, w: Json)
    requires Proper(v) && Proper(w)
    ensures Dumps(v) == Dumps(w) <==> Same(v, w)
  {
    NormalIdentifiesSame(v, w);
    if Dumps(v) == Dumps(w) {
      RenderIsSelfDelimiting(Normal(v), Normal(w), ",", ",");
    }
  }

  // ----- hashing a recorded state -----

  lemma {:induction false} MoreItemsAreFields(v: Json, s: Dict<Json>, i: nat)
    requires v.Obj? && 0 < i <= |v.fields| && |s| == |v.fields|
    requires forall k :: 0 <= k < |s| ==> v.fields[k] == (s[k].0, Normal(s[k].1))
    ensures MoreItems(Dumps, s[i..]) == FieldsFrom(v, i)
    decreases |s| - i
  {
    if i < |s| {
      MoreItemsAreFields(v, s, i + 1);
      assert s[i..][0] == s[i] && s[i..][1..] == s[i + 1..];
    }
  }

  lemma ObjectIsRendered(v: Json, s: Dict<Json>)
    requires v.Obj? && |s| == |v.fields| && forall k :: 0 <= k < |s| ==> v.fields[k] == (s[k].0, Normal(s[k].1))
    ensures Object(Dumps, s) == Render(v)
  {
    if s != [] {
      MoreItemsAreFields(v, s, 1);
      assert FieldsFrom(v, 0) == ItemThen(Dumps, s[0], MoreItems(Dumps, s[1..]));
    }
  }

  function NormalField(e: (string, Json)): (string, Json) {
    (e.0, Normal(e.1))
  }

  lemma CanonicalIsDumps(d: Dict<Json>)
    ensures Canonical(Dumps, d) == Dumps(Obj(d))
  {
    var s := StableSort(KeyOrder(), d);
    assert NormalFields(Obj(d)) == Map(NormalField, d);
    SortMap(KeyOrder(), KeyOrder(), NormalField, d);
    ObjectIsRendered(Normal(Obj(d)), s);
  }

  /** Two recorded states, with whatever values, have equal hashes exactly when they are
      the same dictionary. */
  lemma HashIdentifiesJsonState(digest: string -> string, a: Dict<Json>, b: Dict<Json>)
    requires Injective(digest) && Proper(Obj(a)) && Proper(Obj(b))
    ensures HashState(digest, Dumps, Some(a)) == HashState(digest, Dumps, Some(b)) <==> Same(Obj(a), Obj(b))
  {
    CanonicalIsDumps(a);
    CanonicalIsDumps(b);
    DumpsIdentifiesSame(Obj(a), Obj(b));
  }
}
