/** Hashing of before/after states: `sha256(json.dumps(state, sort_keys=True))`.
    A state is a dictionary in insertion order. */
module CanonicalState {
  import opened Seqs

  type Dict<V> = seq<(string, V)>

  ghost predicate DistinctKeys<V>(d: Dict<V>) {
    forall i, j :: 0 <= i < j < |d| ==> d[i].0 != d[j].0
  }

  ghost function AsMap<V>(d: Dict<V>): map<string, V> {
    if d == [] then map[] else AsMap(d[1..])[d[0].0 := d[0].1]
  }

  // ----- JSON string literals -----

  lemma CancelPrefix<T>(a: seq<T>, b: seq<T>, x: seq<T>, y: seq<T>)
    requires |a| == |b| && a + x == b + y
    ensures a == b && x == y
  {
    assert a == (a + x)[..|a|] && b == (b + y)[..|b|];
    assert x == (a + x)[|a|..] && y == (b + y)[|b|..];
  }

  lemma ConcatAssoc<T>(a: seq<T>, b: seq<T>, c: seq<T>)
    ensures a + b + c == a + (b + c)
  {
  }

  function HexDigit(n: nat): char
    requires n < 16
  {
    if n < 10 then ('0' as int + n) as char else ('a' as int + n - 10) as char
  }

  /** The k lowest hexadecimal digits. */
  function Hex(n: nat, k: nat): (r: string)
    ensures |r| == k
  {
    if k == 0 then "" else Hex(n / 16, k - 1) + [HexDigit(n % 16)]
  }

  predicate FitsHex(n: nat, k: nat) {
    if k == 0 then n == 0 else FitsHex(n / 16, k - 1)
  }

  lemma {:induction false} HexInjective(m: nat, n: nat, k: nat)
    requires FitsHex(m, k) && FitsHex(n, k) && Hex(m, k) == Hex(n, k)
    ensures m == n
  {
    if k > 0 {
      CancelPrefix(Hex(m / 16, k - 1), Hex(n / 16, k - 1), [HexDigit(m % 16)], [HexDigit(n % 16)]);
      HexInjective(m / 16, n / 16, k - 1);
      assert [HexDigit(m % 16)][0] == [HexDigit(n % 16)][0];
    }
  }

  function Unit(n: nat): (r: string)
    ensures |r| == 6
  {
    "\\u" + Hex(n, 4)
  }

  lemma UnitIsSelfDelimiting(m: nat, n: nat, x: string, y: string)
    requires m < 0x1_0000 && n < 0x1_0000 && Unit(m) + x == Unit(n) + y
    ensures m == n && x == y
  {
    CancelPrefix(Unit(m), Unit(n), x, y);
    CancelPrefix("\\u", "\\u", Hex(m, 4), Hex(n, 4));
    FourHexDigits(m);
    FourHexDigits(n);
    HexInjective(m, n, 4);
  }

  lemma FourHexDigits(n: nat)
    requires n < 0x1_0000
    ensures FitsHex(n, 4)
  {
    assert n / 16 / 16 / 16 / 16 == 0;
    assert FitsHex(n / 16 / 16, 2);
  }

  /** The letter of a two-character escape. */
  function Shorthand(c: char): Option<char> {
    if c == '"' || c == '\\' then Some(c)
    else if c == '\n' then Some('n')
    else if c == '\r' then Some('r')
    else if c == '\t' then Some('t')
    else if c == '\U{000C}' then Some('f')
    else if c == '\U{0008}' then Some('b')
    else None
  }

  predicate Plain(c: char) {
    Shorthand(c).None? && ' ' <= c <= '~'
  }

  function Lead(c: char): nat {
    if c as int < 0x1_0000 then c as int else 0xD800 + (c as int - 0x1_0000) / 1024
  }

  /** One character inside a JSON string literal with `ensure_ascii`. */
  function Escape(c: char): (r: string)
    ensures |r| > 0
  {
    if Shorthand(c).Some? then ['\\', Shorthand(c).value]
    else if Plain(c) then [c]
    else if c as int < 0x1_0000 then Unit(Lead(c))
    else Unit(Lead(c)) + Unit(0xDC00 + (c as int - 0x1_0000) % 1024)
  }

  function EscapeToClose(s: string): string {
    if s == "" then "\"" else Escape(s[0]) + EscapeToClose(s[1..])
  }

  function Quote(s: string): string {
    "\"" + EscapeToClose(s)
  }

  lemma EscapeStart(c: char, x: string)
    ensures (Escape(c) + x)[0] == if Plain(c) then c else '\\'
    ensures !Plain(c) ==> |Escape(c) + x| > 1 && (Escape(c) + x)[1] == if Shorthand(c).Some? then Shorthand(c).value else 'u'
    ensures (Escape(c) + x)[0] != '"'
  {
  }

  /** No escape is a proper beginning of another. */
  lemma EscapeIsSelfDelimiting(c: char, d: char, x: string, y: string)
    requires Escape(c) + x == Escape(d) + y
    ensures c == d && x == y
  {
    EscapeStart(c, x);
    EscapeStart(d, y);
    if Plain(c) || Shorthand(c).Some? {
      CancelPrefix(Escape(c), Escape(d), x, y);
    } else {
      LongEscapeIsSelfDelimiting(c, d, x, y);
    }
  }

  lemma LongEscapeIsSelfDelimiting(c: char, d: char, x: string, y: string)
    requires !Plain(c) && !Plain(d) && Shorthand(c).None? && Shorthand(d).None?
    requires Escape(c) + x == Escape(d) + y
    ensures c == d && x == y
  {
    var m, n := 0xDC00 + (c as int - 0x1_0000) % 1024, 0xDC00 + (d as int - 0x1_0000) % 1024;
    var x' := if c as int < 0x1_0000 then x else Unit(m) + x;
    var y' := if d as int < 0x1_0000 then y else Unit(n) + y;
    assert Escape(c) + x == Unit(Lead(c)) + x' by { ConcatAssoc(Unit(Lead(c)), Unit(m), x); }
    assert Escape(d) + y == Unit(Lead(d)) + y' by { ConcatAssoc(Unit(Lead(d)), Unit(n), y); }
    UnitIsSelfDelimiting(Lead(c), Lead(d), x', y');
    if c as int >= 0x1_0000 {
      UnitIsSelfDelimiting(m, n, x, y);
    }
  }

  lemma {:induction false} EscapeToCloseIsSelfDelimiting(a: string, b: string, x: string, y: string)
    requires EscapeToClose(a) + x == EscapeToClose(b) + y
    ensures a == b && x == y
  {
    if a != "" { ConcatAssoc(Escape(a[0]), EscapeToClose(a[1..]), x); EscapeStart(a[0], EscapeToClose(a[1..]) + x); }
    if b != "" { ConcatAssoc(Escape(b[0]), EscapeToClose(b[1..]), y); EscapeStart(b[0], EscapeToClose(b[1..]) + y); }
    assert (EscapeToClose(a) + x)[0] == (EscapeToClose(b) + y)[0];
    if a != "" && b != "" {
      EscapeIsSelfDelimiting(a[0], b[0], EscapeToClose(a[1..]) + x, EscapeToClose(b[1..]) + y);
      EscapeToCloseIsSelfDelimiting(a[1..], b[1..], x, y);
      assert a == [a[0]] + a[1..] && b == [b[0]] + b[1..];
    } else if a == "" && b == "" {
      CancelPrefix("\"", "\"", x, y);
    }
  }

  /** A quoted string ends where its literal ends, whatever follows. */
  lemma QuoteIsSelfDelimiting(a: string, b: string, x: string, y: string)
    requires Quote(a) + x == Quote(b) + y
    ensures a == b && x == y
  {
    ConcatAssoc("\"", EscapeToClose(a), x);
    ConcatAssoc("\"", EscapeToClose(b), y);
    CancelPrefix("\"", "\"", EscapeToClose(a) + x, EscapeToClose(b) + y);
    EscapeToCloseIsSelfDelimiting(a, b, x, y);
  }

  // ----- JSON objects -----

  function KeyOrder<V>(): ((string, V), (string, V)) -> bool {
    (a: (string, V), b: (string, V)) => TextLe(a.0, b.0)
  }

  /** A field, followed by the rest of the object. */
  function ItemThen<V>(render: V -> string, e: (string, V), rest: string): string {
    Quote(e.0) + (": " + (render(e.1) + rest))
  }

  function MoreItems<V>(render: V -> string, d: Dict<V>): string {
    if d == [] then "}" else ", " + ItemThen(render, d[0], MoreItems(render, d[1..]))
  }

  function Object<V>(render: V -> string, d: Dict<V>): string {
    if d == [] then "{" + "}" else "{" + ItemThen(render, d[0], MoreItems(render, d[1..]))
  }

  /** `json.dumps(state, sort_keys=True, default=str)`; `render` writes the values. */
  function Canonical<V>(render: V -> string, d: Dict<V>): string {
    Object(render, StableSort(KeyOrder(), d))
  }

  function HashState<V>(digest: string -> string, render: V -> string, state: Option<Dict<V>>): Option<string> {
    if state.None? then None else Some(digest(Canonical(render, state.value)))
  }

  // ----- independence of insertion order -----

  lemma {:induction false} AsMapContents<V(!new)>(d: Dict<V>)
    requires DistinctKeys(d)
    ensures forall k, v :: (k, v) in d <==> k in AsMap(d) && AsMap(d)[k] == v
  {
    if d != [] {
      AsMapContents(d[1..]);
      assert d == [d[0]] + d[1..];
      forall i | 0 <= i < |d| - 1 ensures d[1..][i].0 != d[0].0 {
        assert d[1..][i] == d[i + 1];
      }
      forall k, v ensures (k, v) in d <==> k in AsMap(d) && AsMap(d)[k] == v {
        assert (k, v) in d <==> (k, v) == d[0] || (k, v) in d[1..];
      }
    }
  }

  ghost predicate KeysIncrease<V>(d: Dict<V>) {
    forall i, j :: 0 <= i < j < |d| ==> TextLe(d[i].0, d[j].0) && d[i].0 != d[j].0
  }

  lemma {:induction false} InsertByKey<V(!new)>(e: (string, V), d: Dict<V>)
    requires KeysIncrease(d) && forall i :: 0 <= i < |d| ==> d[i].0 != e.0
    ensures KeysIncrease(Insert(KeyOrder(), e, d))
  {
    if d == [] {
    } else if TextLe(e.0, d[0].0) {
      forall j | 0 <= j < |d| ensures TextLe(e.0, d[j].0) {
        if j > 0 { TextLeTransitive(e.0, d[0].0, d[j].0); }
      }
    } else {
      TextLeTotal(e.0, d[0].0);
      var rest := Insert(KeyOrder(), e, d[1..]);
      InsertByKey(e, d[1..]);
      InsertMembers(KeyOrder(), e, d[1..]);
      forall j | 0 <= j < |rest| ensures TextLe(d[0].0, rest[j].0) && d[0].0 != rest[j].0 {
        assert rest[j] in rest;
        if rest[j] != e {
          var k :| 0 <= k < |d| - 1 && d[1..][k] == rest[j];
          assert d[k + 1] == rest[j];
        }
      }
    }
  }

  lemma {:induction false} SortedByKey<V(!new)>(d: Dict<V>)
    requires DistinctKeys(d)
    ensures KeysIncrease(StableSort(KeyOrder(), d))
    ensures forall e :: e in StableSort(KeyOrder(), d) <==> e in d
  {
    if d != [] {
      var rest := StableSort(KeyOrder(), d[1..]);
      SortedByKey(d[1..]);
      InsertMembers(KeyOrder(), d[0], rest);
      forall i | 0 <= i < |rest| ensures rest[i].0 != d[0].0 {
        assert rest[i] in rest;
        var k :| 0 <= k < |d| - 1 && d[1..][k] == rest[i];
        assert d[k + 1] == rest[i];
      }
      InsertByKey(d[0], rest);
    }
  }

  lemma {:induction false} IncreasingIsUnique<V(!new)>(a: Dict<V>, b: Dict<V>)
    requires KeysIncrease(a) && KeysIncrease(b)
    requires forall e :: e in a <==> e in b
    ensures a == b
  {
    if a != [] { assert a[0] in b; }
    if b != [] { assert b[0] in a; }
    if a != [] && b != [] {
      var i :| 0 <= i < |b| && b[i] == a[0];
      var j :| 0 <= j < |a| && a[j] == b[0];
      TextLeTotal(a[0].0, b[0].0);
      assert a[0] == b[0];
      forall e ensures e in a[1..] <==> e in b[1..] {
        assert e in a <==> e == a[0] || e in a[1..];
        assert e in b <==> e == b[0] || e in b[1..];
        if e in a[1..] { HeadNotInTail(a, e); }
        if e in b[1..] { HeadNotInTail(b, e); }
      }
      IncreasingIsUnique(a[1..], b[1..]);
    }
  }

  lemma HeadNotInTail<V(!new)>(d: Dict<V>, e: (string, V))
    requires KeysIncrease(d) && d != [] && e in d[1..]
    ensures e != d[0]
  {
    var i :| 0 <= i < |d| - 1 && d[1..][i] == e;
    assert d[i + 1] == e;
  }

  /** The rendering depends on the recorded fields only, not on the order in which
      the dictionary was built. */
  lemma CanonicalIgnoresOrder<V(!new)>(render: V -> string, a: Dict<V>, b: Dict<V>)
    requires DistinctKeys(a) && DistinctKeys(b) && AsMap(a) == AsMap(b)
    ensures Canonical(render, a) == Canonical(render, b)
  {
    SortedByKey(a);
    SortedByKey(b);
    AsMapContents(a);
    AsMapContents(b);
    forall e ensures e in a <==> e in b {
      assert e == (e.0, e.1);
    }
    IncreasingIsUnique(StableSort(KeyOrder(), a), StableSort(KeyOrder(), b));
  }

  // ----- no two states share a rendering -----

  /** Inside an object, the text of a value shows where the value ends. */
  ghost predicate SelfDelimiting<V(!new)>(render: V -> string) {
    forall v, w, x, y ::
      (x != "" && y != "" && x[0] in ",}" && y[0] in ",}" && render(v) + x == render(w) + y) ==> v == w && x == y
  }

  lemma ItemIsSelfDelimiting<V(!new)>(render: V -> string, e: (string, V), f: (string, V), x: string, y: string)
    requires SelfDelimiting(render)
    requires x != "" && y != "" && x[0] in ",}" && y[0] in ",}"
    requires ItemThen(render, e, x) == ItemThen(render, f, y)
    ensures e == f && x == y
  {
    QuoteIsSelfDelimiting(e.0, f.0, ": " + (render(e.1) + x), ": " + (render(f.1) + y));
    CancelPrefix(": ", ": ", render(e.1) + x, render(f.1) + y);
    assert e == (e.0, e.1) && f == (f.0, f.1);
  }

  lemma MoreItemsStart<V>(render: V -> string, d: Dict<V>)
    ensures MoreItems(render, d) != "" && MoreItems(render, d)[0] == if d == [] then '}' else ','
  {
  }

  lemma FirstItemsAgree<V(!new)>(render: V -> string, a: Dict<V>, b: Dict<V>)
    requires SelfDelimiting(render) && a != [] && b != []
    requires ItemThen(render, a[0], MoreItems(render, a[1..])) == ItemThen(render, b[0], MoreItems(render, b[1..]))
    ensures a == b
    decreases |a|, 0
  {
    MoreItemsStart(render, a[1..]);
    MoreItemsStart(render, b[1..]);
    ItemIsSelfDelimiting(render, a[0], b[0], MoreItems(render, a[1..]), MoreItems(render, b[1..]));
    MoreItemsInjective(render, a[1..], b[1..]);
    assert a == [a[0]] + a[1..] && b == [b[0]] + b[1..];
  }

  lemma {:induction false} MoreItemsInjective<V(!new)>(render: V -> string, a: Dict<V>, b: Dict<V>)
    requires SelfDelimiting(render)
    requires MoreItems(render, a) == MoreItems(render, b)
    ensures a == b
    decreases |a|, 1
  {
    MoreItemsStart(render, a);
    MoreItemsStart(render, b);
    if a != [] {
      CancelPrefix(", ", ", ", ItemThen(render, a[0], MoreItems(render, a[1..])), ItemThen(render, b[0], MoreItems(render, b[1..])));
      FirstItemsAgree(render, a, b);
    }
  }

  lemma ObjectInjective<V(!new)>(render: V -> string, a: Dict<V>, b: Dict<V>)
    requires SelfDelimiting(render)
    requires Object(render, a) == Object(render, b)
    ensures a == b
  {
    var x := if a == [] then "}" else ItemThen(render, a[0], MoreItems(render, a[1..]));
    var y := if b == [] then "}" else ItemThen(render, b[0], MoreItems(render, b[1..]));
    CancelPrefix("{", "{", x, y);
    assert x[0] == y[0];
    if a != [] && b != [] {
      FirstItemsAgree(render, a, b);
    }
  }

  ghost predicate Injective(digest: string -> string) {
    forall x, y :: digest(x) == digest(y) ==> x == y
  }

  /** Two recorded states have equal hashes exactly when they are equal maps. */
  lemma HashIdentifiesState<V(!new)>(digest: string -> string, render: V -> string, a: Dict<V>, b: Dict<V>)
    requires Injective(digest) && SelfDelimiting(render)
    requires DistinctKeys(a) && DistinctKeys(b)
    ensures HashState(digest, render, Some(a)) == HashState(digest, render, Some(b)) <==> AsMap(a) == AsMap(b)
  {
    if AsMap(a) == AsMap(b) {
      CanonicalIgnoresOrder(render, a, b);
    }
    if Canonical(render, a) == Canonical(render, b) {
      var s, t := StableSort(KeyOrder(), a), StableSort(KeyOrder(), b);
      ObjectInjective(render, s, t);
      SortedByKey(a);
      SortedByKey(b);
      SameEntriesSameMap(a, b);
    }
  }

  lemma SameEntriesSameMap<V(!new)>(a: Dict<V>, b: Dict<V>)
    requires DistinctKeys(a) && DistinctKeys(b)
    requires forall e :: e in a <==> e in b
    ensures AsMap(a) == AsMap(b)
  {
    AsMapContents(a);
    AsMapContents(b);
    var m, n := AsMap(a), AsMap(b);
    forall k ensures k in m <==> k in n {
      if k in m { assert (k, m[k]) in b; }
      if k in n { assert (k, n[k]) in a; }
    }
    forall k | k in m ensures m[k] == n[k] {
      assert (k, m[k]) in b;
    }
  }

  /** Text values, the only kind the careers and API-key modules record. */
  lemma TextIsSelfDelimiting()
    ensures SelfDelimiting(Quote)
  {
    forall v, w, x, y | x != "" && y != "" && x[0] in ",}" && y[0] in ",}" && Quote(v) + x == Quote(w) + y
      ensures v == w && x == y
    {
      QuoteIsSelfDelimiting(v, w, x, y);
    }
  }
}
