/** The two readings of UUID text, character by character: Python's `uuid.UUID(text)`,
    which guards the audit writer, and the cast to the database's uuid type. */
module UuidReaders {
  import opened Seqs
  import opened CanonicalState
  import opened AuditTrail
  import opened AuditBackfill

  // ----- Python -----

  /** `t.replace(pattern, "")` */
  function Remove(pattern: string, t: string): (r: string)
    requires pattern != ""
    decreases |t|
  {
    if t == "" then ""
    else if StartsWith(t, pattern) then Remove(pattern, t[|pattern|..])
    else [t[0]] + Remove(pattern, t[1..])
  }

  function TrimLeft(p: char -> bool, t: string): string {
    if t != "" && p(t[0]) then TrimLeft(p, t[1..]) else t
  }

  function TrimRight(p: char -> bool, t: string): string {
    if t != "" && p(t[|t| - 1]) then TrimRight(p, t[..|t| - 1]) else t
  }

  predicate IsBrace(c: char) { c == '{' || c == '}' }

  predicate IsBlank(c: char) { c == ' ' || '\U{0009}' <= c <= '\U{000D}' }

  predicate NotHyphen(c: char) { c != '-' }

  function WithoutPrefixes(urn: string, uuid: string, t: string): string
    requires urn != "" && uuid != ""
  {
    Remove(uuid, Remove(urn, t))
  }

  /** What is left of the text when it is taken for hexadecimal digits. */
  function Bare(t: string): string {
    Filter(NotHyphen, TrimRight(IsBrace, TrimLeft(IsBrace, WithoutPrefixes("urn:", "uuid:", t))))
  }

  /** Hexadecimal digits, with single underscores between them. */
  predicate DigitRun(t: string) {
    && t != "" && IsHexDigit(t[0]) && IsHexDigit(t[|t| - 1])
    && (forall i :: 0 <= i < |t| ==> IsHexDigit(t[i]) || t[i] == '_')
    && (forall i :: 0 <= i < |t| - 1 ==> t[i] != '_' || t[i + 1] != '_')
  }

  predicate HasRadixMark(t: string) {
    |t| >= 2 && t[0] == '0' && (t[1] == 'x' || t[1] == 'X')
  }

  /** `int(t, 16)` does not raise: blanks around, a sign, a radix mark, then digits. */
  predicate IntAccepts(t: string) {
    var s := TrimRight(IsBlank, TrimLeft(IsBlank, t));
    var unsigned := if s != "" && s[0] in "+-" then s[1..] else s;
    if !HasRadixMark(unsigned) then DigitRun(unsigned)
    else if |unsigned| > 2 && unsigned[2] == '_' then DigitRun(unsigned[3..])
    else DigitRun(unsigned[2..])
  }

  predicate PythonAccepts(t: string) {
    |Bare(t)| == 32 && IntAccepts(Bare(t))
  }

  // ----- the database -----

  /** Sixteen pairs of hexadecimal digits, a hyphen allowed after every second pair but
      the last, and then `end`; the result is the digits. */
  function ReadPairs(t: string, i: nat, end: string): Option<string>
    requires i <= 16
    decreases 16 - i
  {
    if i == 16 then (if t == end then Some("") else None)
    else if |t| < 2 || !IsHexDigit(t[0]) || !IsHexDigit(t[1]) then None
    else Joined(t[..2], ReadPairs(SkipHyphen(t[2..], i), i + 1, end))
  }

  function Joined(digits: string, more: Option<string>): Option<string> {
    if more.Some? then Some(digits + more.value) else None
  }

  function SkipHyphen(t: string, i: nat): string {
    if t != "" && t[0] == '-' && i % 2 == 1 && i < 15 then t[1..] else t
  }

  function DatabaseDigits(t: string): Option<string> {
    if t != "" && t[0] == '{' then ReadPairs(t[1..], 0, "}") else ReadPairs(t, 0, "")
  }

  function DigitValue(c: char): nat {
    if '0' <= c <= '9' then c as int - '0' as int
    else if 'a' <= c <= 'f' then c as int - 'a' as int + 10
    else if 'A' <= c <= 'F' then c as int - 'A' as int + 10
    else 0
  }

  function Pow16(k: nat): (r: nat)
    ensures r > 0
  {
    if k == 0 then 1 else 16 * Pow16(k - 1)
  }

  function ParseHex(t: string): (r: nat)
    requires AllHex(t)
    ensures r < Pow16(|t|)
  {
    if t == "" then 0 else 16 * ParseHex(t[..|t| - 1]) + DigitValue(t[|t| - 1])
  }

  lemma DigitReadsBack(d: nat)
    requires d < 16
    ensures IsHexDigit(HexDigit(d)) && DigitValue(HexDigit(d)) == d
  {
  }

  lemma ParseAppend(t: string, c: char)
    requires AllHex(t) && IsHexDigit(c)
    ensures AllHex(t + [c]) && ParseHex(t + [c]) == 16 * ParseHex(t) + DigitValue(c)
  {
    assert (t + [c])[..|t|] == t;
  }

  lemma {:induction false} ParseReadsHex(n: nat, k: nat)
    requires n < Pow16(k)
    ensures AllHex(Hex(n, k)) && ParseHex(Hex(n, k)) == n
  {
    if k > 0 {
      ParseReadsHex(n / 16, k - 1);
      DigitReadsBack(n % 16);
      ParseAppend(Hex(n / 16, k - 1), HexDigit(n % 16));
    }
  }

  lemma LimitIsPow16()
    ensures Pow16(32) == UUID_LIMIT
  {
    assert Pow16(8) == 0x1_0000_0000;
    assert Pow16(16) == 0x1_0000_0000_0000_0000;
    assert Pow16(24) == 0x1_0000_0000_0000_0000_0000_0000;
  }

  function CanonicalText(u: Uuid): string {
    var h := Hex(u, 32);
    h[..8] + "-" + h[8..12] + "-" + h[12..16] + "-" + h[16..20] + "-" + h[20..]
  }

  predicate Unhyphenated(t: string) {
    |t| == 32 && AllHex(t)
  }

  function Digits(t: string): (r: string)
    requires Hyphenated(t)
    ensures Unhyphenated(r)
  {
    t[..8] + t[9..13] + t[14..18] + t[19..23] + t[24..]
  }

  /** Hyphens apart, what follows begins with hexadecimal digits and ends with `end`. */
  ghost predicate IsBody(b: string, digits: string) {
    && b != "" && IsHexDigit(b[0]) && IsHexDigit(b[|b| - 1])
    && (forall i :: 0 <= i < |b| ==> IsHexDigit(b[i]) || b[i] == '-')
    && Filter(NotHyphen, b) == digits && AllHex(digits)
  }

  /** A successful reading begins with a pair, perhaps a hyphen, and goes on. */
  lemma ReadStep(t: string, i: nat, end: string) returns (pair: string, hyphen: string, rest: string)
    requires i < 16 && ReadPairs(t, i, end).Some?
    ensures AllHex(pair) && |pair| == 2 && (hyphen == "" || hyphen == "-") && (i == 15 ==> hyphen == "")
    ensures t == pair + (hyphen + rest) && ReadPairs(rest, i + 1, end).Some?
    ensures ReadPairs(t, i, end).value == pair + ReadPairs(rest, i + 1, end).value
  {
    pair, rest := t[..2], SkipHyphen(t[2..], i);
    hyphen := if |rest| < |t[2..]| then "-" else "";
    assert t == pair + t[2..] && t[2..] == hyphen + rest;
  }

  lemma {:induction false} ReadTextHasBody(t: string, i: nat, end: string) returns (b: string)
    requires i < 16 && ReadPairs(t, i, end).Some?
    ensures t == b + end && IsBody(b, ReadPairs(t, i, end).value)
    ensures |ReadPairs(t, i, end).value| == 2 * (16 - i)
    decreases 16 - i
  {
    var pair, hyphen, rest := ReadStep(t, i, end);
    if i == 15 {
      b := LastPairIsBody(t, pair, rest, end);
    } else {
      var more := ReadTextHasBody(rest, i + 1, end);
      b := Prepended(pair, hyphen, more, ReadPairs(rest, i + 1, end).value, end);
    }
  }

  lemma LastPairIsBody(t: string, pair: string, rest: string, end: string) returns (b: string)
    requires AllHex(pair) && |pair| == 2 && t == pair + ("" + rest) && ReadPairs(rest, 16, end).Some?
    ensures t == b + end && IsBody(b, pair + ReadPairs(rest, 16, end).value) && |ReadPairs(rest, 16, end).value| == 0
  {
    b := pair;
    PairIsBody(pair);
    assert "" + rest == rest == end && pair + "" == pair;
  }

  lemma Prepended(pair: string, hyphen: string, more: string, digits: string, end: string) returns (b: string)
    requires AllHex(pair) && |pair| == 2 && (hyphen == "" || hyphen == "-") && IsBody(more, digits)
    ensures b + end == pair + (hyphen + (more + end)) && IsBody(b, pair + digits)
  {
    b := pair + (hyphen + more);
    BodyGrows(pair, hyphen, more, digits);
    ConcatAssoc(hyphen, more, end);
    ConcatAssoc(pair, hyphen + more, end);
  }

  lemma PairIsBody(pair: string)
    requires AllHex(pair) && |pair| == 2
    ensures IsBody(pair, pair)
  {
    PairIsItsOwnDigits(pair);
  }

  lemma BodyGrows(pair: string, hyphen: string, more: string, digits: string)
    requires AllHex(pair) && |pair| == 2 && (hyphen == "" || hyphen == "-") && IsBody(more, digits)
    ensures IsBody(pair + (hyphen + more), pair + digits)
  {
    PairIsItsOwnDigits(pair);
    FilterConcat(NotHyphen, pair, hyphen + more);
    FilterConcat(NotHyphen, hyphen, more);
    assert Filter(NotHyphen, hyphen) == "";
    var b := pair + (hyphen + more);
    assert b[|b| - 1] == more[|more| - 1];
  }

  lemma PairIsItsOwnDigits(pair: string)
    requires AllHex(pair)
    ensures Filter(NotHyphen, pair) == pair
  {
    FilterAll(NotHyphen, pair);
  }

  function DatabaseReads(t: string): Option<Uuid> {
    match DatabaseDigits(t)
    case None => None
    case Some(digits) => (DigitsFit(t); Some(ParseHex(digits)))
  }

  lemma DatabaseTextHasBody(t: string) returns (b: string)
    requires DatabaseDigits(t).Some?
    ensures IsBody(b, DatabaseDigits(t).value) && |DatabaseDigits(t).value| == 32
    ensures t == b || t == "{" + (b + "}")
  {
    if t != "" && t[0] == '{' {
      b := ReadTextHasBody(t[1..], 0, "}");
      assert t == "{" + t[1..];
    } else {
      b := ReadTextHasBody(t, 0, "");
      assert b + "" == b;
    }
  }

  lemma DigitsFit(t: string)
    requires DatabaseDigits(t).Some?
    ensures AllHex(DatabaseDigits(t).value) && ParseHex(DatabaseDigits(t).value) < UUID_LIMIT
  {
    var b := DatabaseTextHasBody(t);
    LimitIsPow16();
  }

  // ----- whatever the database reads, Python accepts -----

  lemma {:induction false} RemoveAbsent(pattern: string, t: string)
    requires pattern != "" && forall i :: 0 <= i < |t| ==> t[i] != pattern[0]
    ensures Remove(pattern, t) == t
  {
    if t != "" {
      assert |pattern| <= |t| ==> t[..|pattern|][0] == t[0];
      RemoveAbsent(pattern, t[1..]);
    }
  }

  lemma NothingToTrim(p: char -> bool, t: string)
    requires t != "" ==> !p(t[0]) && !p(t[|t| - 1])
    ensures TrimLeft(p, t) == t && TrimRight(p, t) == t
  {
  }

  lemma DigitsAreInt(digits: string)
    requires AllHex(digits) && digits != ""
    ensures IntAccepts(digits)
  {
    NothingToTrim(IsBlank, digits);
  }

  /** Without the letter u there is nothing to remove, and the braces go. */
  lemma BareBody(b: string, digits: string, t: string)
    requires IsBody(b, digits) && (t == b || t == "{" + (b + "}"))
    ensures forall i :: 0 <= i < |t| ==> t[i] != 'u'
    ensures TrimRight(IsBrace, TrimLeft(IsBrace, t)) == b
  {
    NothingToTrim(IsBrace, b);
    if t != b {
      assert t[1..] == b + "}";
      assert TrimLeft(IsBrace, t) == TrimLeft(IsBrace, b + "}") == b + "}";
      assert (b + "}")[..|b|] == b;
      assert TrimRight(IsBrace, b + "}") == TrimRight(IsBrace, b);
    }
  }

  lemma NoPrefixes(urn: string, uuid: string, t: string)
    requires urn != "" && uuid != "" && urn[0] == uuid[0] == 'u' && forall i :: 0 <= i < |t| ==> t[i] != 'u'
    ensures WithoutPrefixes(urn, uuid, t) == t
  {
    RemoveAbsent(urn, t);
    RemoveAbsent(uuid, t);
  }

  lemma BareDatabaseForm(t: string)
    requires DatabaseReads(t).Some?
    ensures Bare(t) == DatabaseDigits(t).value && |Bare(t)| == 32 && AllHex(Bare(t))
    ensures forall i :: 0 <= i < |t| ==> t[i] != 'u'
  {
    var b := DatabaseTextHasBody(t);
    BareBody(b, DatabaseDigits(t).value, t);
    NoPrefixes("urn:", "uuid:", t);
  }

  lemma DatabaseFormsAreAccepted(t: string)
    requires DatabaseReads(t).Some?
    ensures PythonAccepts(t)
    ensures Bare(t) == DatabaseDigits(t).value
  {
    BareDatabaseForm(t);
    DigitsAreInt(Bare(t));
  }

  function UrnOf(t: string): string {
    "urn:" + ("uuid:" + t)
  }

  lemma BareUrn(t: string)
    requires forall i :: 0 <= i < |t| ==> t[i] != 'u'
    ensures Bare(UrnOf(t)) == Bare(t)
  {
    NoPrefixes("urn:", "uuid:", t);
    PrefixesAreRemoved("urn:", "uuid:", t);
  }

  lemma UrnIsNotCast(t: string)
    ensures DatabaseReads(UrnOf(t)).None?
  {
    assert UrnOf(t)[0] == 'u';
  }

  /** Every text that the database reads becomes, with a URN prefix, a text that passes
      the guard and that the database cannot cast. */
  lemma UrnFormIsLost(t: string)
    requires DatabaseReads(t).Some?
    ensures PythonAccepts(UrnOf(t)) && DatabaseReads(UrnOf(t)).None?
  {
    BareDatabaseForm(t);
    DatabaseFormsAreAccepted(t);
    BareUrn(t);
    UrnIsNotCast(t);
  }

  lemma RemoveFirst(pattern: string, t: string)
    requires pattern != ""
    ensures Remove(pattern, pattern + t) == Remove(pattern, t)
  {
    assert (pattern + t)[|pattern|..] == t && StartsWith(pattern + t, pattern);
  }

  lemma {:induction false} RemoveUnlike(pattern: string, t: string)
    requires |pattern| >= 2 && forall i :: 0 <= i < |t| - 1 ==> t[i] != pattern[0] || t[i + 1] != pattern[1]
    ensures Remove(pattern, t) == t
  {
    if t != "" {
      assert |pattern| <= |t| ==> t[..|pattern|][0] == t[0] && t[..|pattern|][1] == t[1];
      RemoveUnlike(pattern, t[1..]);
    }
  }

  lemma PrefixesAreRemoved(urn: string, uuid: string, t: string)
    requires |urn| >= 2 && urn[0] == 'u' && urn[1] == 'r' && |uuid| >= 3 && uuid[0] == uuid[1] == 'u' && uuid[2] != 'r'
    requires (forall i :: 2 <= i < |uuid| ==> uuid[i] != 'u') && (forall i :: 0 <= i < |t| ==> t[i] != 'u')
    ensures WithoutPrefixes(urn, uuid, urn + (uuid + t)) == t
  {
    RemoveFirst(urn, uuid + t);
    RemoveUnlike(urn, uuid + t);
    RemoveFirst(uuid, t);
    RemoveAbsent(uuid, t);
  }

  // ----- the library of the two readers -----

  const LIBRARY := UuidLibrary(PythonAccepts, DatabaseReads, CanonicalText)

  /** Four digits are two pairs; a hyphen may follow them. */
  lemma ReadGroup(h: string, rest: string, i: nat, end: string)
    requires AllHex(h) && |h| == 4 && i % 2 == 0 && i < 16
    ensures ReadPairs(h + rest, i, end) == Joined(h, ReadPairs(SkipHyphen(rest, i + 1), i + 2, end))
  {
    var t := h + rest;
    assert t[2..] == h[2..] + rest;
    assert SkipHyphen(t[2..], i) == t[2..];
    assert t[2..][..2] == h[2..] && t[2..][2..] == rest && t[..2] == h[..2];
    var more := ReadPairs(SkipHyphen(rest, i + 1), i + 2, end);
    assert ReadPairs(t[2..], i + 1, end) == Joined(h[2..], more);
    assert h == h[..2] + h[2..];
    if more.Some? { assert h[..2] + (h[2..] + more.value) == h + more.value; }
  }

  /** Where the next group begins. */
  predicate NextGroup(t: string, from: nat, to: nat, i: nat) {
    && from + 4 <= to <= |t|
    && ((to == from + 4 && (to == |t| || t[to] != '-')) || (to == from + 5 && t[from + 4] == '-' && i % 2 == 0 && i < 14))
  }

  lemma AfterGroup(t: string, from: nat, to: nat, i: nat)
    requires NextGroup(t, from, to, i)
    ensures t[from..] == t[from..from + 4] + t[from + 4..]
    ensures SkipHyphen(t[from + 4..], i + 1) == t[to..]
  {
  }

  /** A group of four digits in front of text that is read as `rest`. */
  lemma ReadGroupAt(t: string, from: nat, to: nat, i: nat, rest: string)
    requires NextGroup(t, from, to, i) && AllHex(t[from..from + 4]) && i % 2 == 0 && i < 16
    requires ReadPairs(t[to..], i + 2, "") == Some(rest)
    ensures ReadPairs(t[from..], i, "") == Some(t[from..from + 4] + rest)
  {
    AfterGroup(t, from, to, i);
    ReadGroup(t[from..from + 4], t[from + 4..], i, "");
  }

  lemma SliceIsHex(t: string, from: nat, to: nat, a: nat, b: nat)
    requires from <= a <= b <= to <= |t| && AllHex(t[from..to])
    ensures AllHex(t[a..b])
  {
    assert forall k :: a <= k < b ==> t[k] == t[from..to][k - from];
  }

  /** The last twelve digits. */
  lemma ReadLastGroups(t: string, from: nat)
    requires |t| == from + 12 && AllHex(t[from..])
    ensures ReadPairs(t[from..], 10, "") == Some(t[from..])
  {
    ReadDigitsToEnd(t, from, 10);
  }

  lemma FourMoreDigits(t: string, from: nat)
    requires from + 4 <= |t| && AllHex(t[from..])
    ensures AllHex(t[from..from + 4]) && AllHex(t[from + 4..])
    ensures t[from..from + 4] + t[from + 4..] == t[from..]
    ensures from + 4 < |t| ==> t[from + 4] != '-'
  {
    assert forall k :: from <= k < |t| ==> t[k] == t[from..][k - from];
  }

  lemma {:induction false} ReadDigitsToEnd(t: string, from: nat, i: nat)
    requires i <= 16 && i % 2 == 0 && |t| == from + 2 * (16 - i) && AllHex(t[from..])
    ensures ReadPairs(t[from..], i, "") == Some(t[from..])
    decreases 16 - i
  {
    if i < 16 {
      FourMoreDigits(t, from);
      ReadDigitsToEnd(t, from + 4, i + 2);
      ReadGroupAt(t, from, from + 4, i, t[from + 4..]);
    }
  }

  // `from` and `i` are the zero at which the reading starts.

  lemma ReadMiddleGroups(t: string, from: nat, i: nat)
    requires Hyphenated(t) && from == i == 0
    ensures ReadPairs(t[from + 9..], i + 4, "") == Some(t[9..13] + (t[14..18] + (t[19..23] + t[24..])))
  {
    ReadLastGroups(t, from + 24);
    ReadGroupAt(t, from + 19, from + 24, i + 8, t[24..]);
    ReadGroupAt(t, from + 14, from + 19, i + 6, t[19..23] + t[24..]);
    ReadGroupAt(t, from + 9, from + 14, i + 4, t[14..18] + (t[19..23] + t[24..]));
  }

  /** Two groups, and a hyphen. */
  lemma ReadTwoGroups(t: string, from: nat, i: nat, rest: string)
    requires from + 9 <= |t| && AllHex(t[from..from + 8]) && t[from + 8] == '-' && i % 2 == 0 && i + 2 < 14
    requires ReadPairs(t[from + 9..], i + 4, "") == Some(rest)
    ensures ReadPairs(t[from..], i, "") == Some(t[from..from + 4] + (t[from + 4..from + 8] + rest))
  {
    SliceIsHex(t, from, from + 8, from, from + 4);
    SliceIsHex(t, from, from + 8, from + 4, from + 8);
    assert t[from + 4] == t[from + 4..from + 8][0];
    ReadGroupAt(t, from + 4, from + 9, i + 2, rest);
    ReadGroupAt(t, from, from + 4, i, t[from + 4..from + 8] + rest);
  }

  lemma JoinGroups(a: string, b: string, c: string, d: string, e: string, f: string)
    ensures a + (b + (c + (d + (e + f)))) == (a + b) + c + d + e + f
  {
  }

  lemma DigitsInGroups(t: string)
    requires Hyphenated(t)
    ensures Digits(t) == t[0..4] + (t[4..8] + (t[9..13] + (t[14..18] + (t[19..23] + t[24..]))))
  {
    JoinGroups(t[0..4], t[4..8], t[9..13], t[14..18], t[19..23], t[24..]);
    assert t[0..4] + t[4..8] == t[..8];
  }

  lemma FirstIsDigit(t: string)
    requires |t| >= 8 && AllHex(t[..8])
    ensures AllHex(t[0..8]) && t[0] != '{'
  {
    assert t[0..8] == t[..8] && t[0] == t[..8][0];
  }

  lemma ReadFirstGroups(t: string, from: nat, i: nat, rest: string)
    requires from == i == 0 && |t| == 36 && AllHex(t[0..8]) && t[0] != '{' && t[8] == '-'
    requires ReadPairs(t[from + 9..], i + 4, "") == Some(rest)
    ensures DatabaseDigits(t) == Some(t[from..from + 4] + (t[from + 4..from + 8] + rest))
  {
    ReadTwoGroups(t, from, i, rest);
    WholeTextIsRead(t, from, i, t[from..from + 4] + (t[from + 4..from + 8] + rest));
  }

  lemma ReadHyphenatedGroups(t: string, from: nat, i: nat, digits: string)
    requires Hyphenated(t) && from == i == 0
    requires digits == t[0..4] + (t[4..8] + (t[9..13] + (t[14..18] + (t[19..23] + t[24..]))))
    ensures DatabaseDigits(t) == Some(digits)
  {
    FirstIsDigit(t);
    ReadMiddleGroups(t, from, i);
    ReadFirstGroups(t, from, i, t[9..13] + (t[14..18] + (t[19..23] + t[24..])));
  }

  lemma DatabaseReadsHyphenated(t: string)
    requires Hyphenated(t)
    ensures DatabaseDigits(t) == Some(Digits(t))
  {
    DigitsInGroups(t);
    ReadHyphenatedGroups(t, 0, 0, Digits(t));
  }

  lemma WholeTextIsRead(t: string, from: nat, i: nat, digits: string)
    requires from == i == 0 && t != "" && t[0] != '{' && ReadPairs(t[from..], i, "") == Some(digits)
    ensures DatabaseDigits(t) == Some(digits)
  {
    assert t[from..] == t;
  }

  lemma DatabaseReadsUnhyphenated(t: string)
    requires Unhyphenated(t)
    ensures DatabaseDigits(t) == Some(t)
  {
    assert t[0..] == t;
    ReadDigitsToEnd(t, 0, 0);
    WholeTextIsRead(t, 0, 0, t);
  }

  lemma CanonicalTextParts(u: Uuid)
    requires AllHex(Hex(u, 32))
    ensures Hyphenated(CanonicalText(u)) && Digits(CanonicalText(u)) == Hex(u, 32)
  {
    var h, t := Hex(u, 32), CanonicalText(u);
    assert t[..8] == h[..8] && t[9..13] == h[8..12] && t[14..18] == h[12..16] && t[19..23] == h[16..20] && t[24..] == h[20..];
  }

  lemma CanonicalTextReadsBack(u: Uuid)
    ensures Hyphenated(CanonicalText(u)) && DatabaseReads(CanonicalText(u)) == Some(u)
  {
    LimitIsPow16();
    ParseReadsHex(u, 32);
    CanonicalTextParts(u);
    DatabaseReadsHyphenated(CanonicalText(u));
  }

  /** The two readers meet the laws assumed of UUID libraries. */
  lemma LibraryIsLawful()
    ensures Lawful(LIBRARY)
  {
    forall t | Hyphenated(t) ensures PythonAccepts(t) && DatabaseReads(t).Some? {
      DatabaseReadsHyphenated(t);
      DatabaseFormsAreAccepted(t);
    }
    forall u: Uuid ensures Hyphenated(CanonicalText(u)) && DatabaseReads(CanonicalText(u)) == Some(u) {
      CanonicalTextReadsBack(u);
    }
  }

  // ----- what follows for the writer and for the migration -----

  /** For every account or other id, in every spelling the database reads, naming it as
      a URN makes logging raise, whatever the target and the tables. */
  lemma UrnActorMakesLoggingRaise<V>(hasher: Hasher<V>, db: Db, failing: set<Table>, q: LogRequest<V>, t: string, id: string, now: int)
    requires DatabaseReads(t).Some?
    requires Actor(q) == Some(UrnOf(t)) && Target(q).Some? && q.accountId.None?
    ensures EventFor(hasher, LIBRARY, db, failing, q, id, now) ==
            Err(if Accounts in failing then ReadFailed else InvalidTextRepresentation)
  {
    UrnFormIsLost(t);
    LostActorRaises(hasher, LIBRARY, db, failing, q, id, now);
  }

  /** The same happens for a target that names a case or a porting request in that way,
      when the actor is some text that is neither account nor user. */
  lemma UrnTargetMakesLoggingRaise<V>(hasher: Hasher<V>, db: Db, failing: set<Table>, q: LogRequest<V>, prefix: string, t: string, id: string, now: int)
    requires DatabaseReads(t).Some? && (prefix == CASE_PREFIX || prefix == PORT_PREFIX)
    requires Actor(q).Some? && Target(q) == Some(prefix + UrnOf(t)) && q.accountId.None?
    requires !Known(LIBRARY, db, Actor(q).value)
    ensures EventFor(hasher, LIBRARY, db, failing, q, id, now).Err?
  {
    UrnFormIsLost(t);
    PrefixIsCut(prefix, UrnOf(t));
    WriterRaisesExactly(hasher, LIBRARY, db, failing, q, id, now);
  }

  lemma PrefixIsCut(prefix: string, rest: string)
    ensures StartsWith(prefix + rest, prefix) && (prefix + rest)[|prefix|..] == rest
  {
  }

  /** An account in its canonical spelling is logged and attributed, unless a read fails or
      a state cannot be written. */
  lemma PlainActorIsLogged<V>(hasher: Hasher<V>, db: Db, failing: set<Table>, q: LogRequest<V>, u: Uuid, id: string, now: int)
    requires u in db.accounts && Actor(q) == Some(CanonicalText(u)) && Target(q).Some? && q.accountId.None?
    requires Accounts !in failing && Writes(hasher, q.before) && Writes(hasher, After(q))
    ensures EventFor(hasher, LIBRARY, db, failing, q, id, now).Ok?
    ensures EventFor(hasher, LIBRARY, db, failing, q, id, now).value.accountId == Some(u)
  {
    CanonicalTextReadsBack(u);
    DatabaseFormsAreAccepted(CanonicalText(u));
    AccountIsAttributed(hasher, LIBRARY, db, failing, q, id, now);
  }

  lemma UnhyphenatedTextIsRead(u: Uuid)
    ensures var t := Hex(u, 32);
            PythonAccepts(t) && DatabaseReads(t) == Some(u) && !Hyphenated(t)
  {
    LimitIsPow16();
    ParseReadsHex(u, 32);
    DatabaseReadsUnhyphenated(Hex(u, 32));
    DatabaseFormsAreAccepted(Hex(u, 32));
  }

  /** For every account: written without hyphens it is attributed at write time and missed
      by the migration; written as a URN the writer raises and the migration goes on. */
  lemma TwoSpellingsDisagree(u: Uuid, target: string)
    ensures var db := Db({u}, map[], map[], map[]);
            && ResolveAccountId(LIBRARY, db, {}, Hex(u, 32), target) == Ok(Some(u))
            && Backfilled(LIBRARY, db, Hex(u, 32), target) == None
            && ResolveAccountId(LIBRARY, db, {}, UrnOf(CanonicalText(u)), target) == Err(InvalidTextRepresentation)
            && Backfilled(LIBRARY, db, UrnOf(CanonicalText(u)), target) == None
  {
    LibraryIsLawful();
    UnhyphenatedTextIsRead(u);
    UnhyphenatedAccountIsMissed(LIBRARY, Hex(u, 32), target, u);
    CanonicalTextReadsBack(u);
    UrnFormIsLost(CanonicalText(u));
    assert forall prefix, id :: !Joins(LIBRARY, map[], prefix, target, id);
  }
}
