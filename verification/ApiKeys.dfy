/** API keys: a table with a per-account bound and one-way revocation, and a cached
    list per account that authentication changes behind its back. */
module ApiKeys {
  import opened Seqs

  datatype ApiKey = ApiKey(
    id: string, accountId: string, keyLabel: string, keyPrefix: string, keyHash: string,
    lastUsedAt: Option<int>, revokedAt: Option<int>, createdAt: int)

  /** The text `isoformat` gives for an instant; `fromisoformat` reads it back. */
  datatype IsoText = Iso(instant: int)

  datatype CachedKey = CachedKey(
    id: string, accountId: string, keyLabel: string, keyPrefix: string, keyHash: string,
    lastUsedAt: Option<IsoText>, revokedAt: Option<IsoText>, createdAt: IsoText)

  datatype Entry = Entry(rows: seq<CachedKey>, expiresAt: int)

  datatype Store = Store(keys: seq<ApiKey>, caches: map<string, Entry>)

  datatype ApiKeyError = LimitExceeded | NotYourKey(id: string) | IntegrityError

  const MAX_KEYS_PER_ACCOUNT := 10
  const KEY_PREFIX := "zlk_live_"
  const API_KEYS_CACHE_TTL_SECONDS := 30

  function ToText(t: Option<int>): Option<IsoText> {
    if t.Some? then Some(Iso(t.value)) else None
  }

  function FromText(t: Option<IsoText>): Option<int> {
    if t.Some? then Some(t.value.instant) else None
  }

  function Serialize(k: ApiKey): CachedKey {
    CachedKey(k.id, k.accountId, k.keyLabel, k.keyPrefix, k.keyHash, ToText(k.lastUsedAt), ToText(k.revokedAt), Iso(k.createdAt))
  }

  function Deserialize(c: CachedKey): ApiKey {
    ApiKey(c.id, c.accountId, c.keyLabel, c.keyPrefix, c.keyHash, FromText(c.lastUsedAt), FromText(c.revokedAt), c.createdAt.instant)
  }

  lemma CachingKeepsKeys(keys: seq<ApiKey>)
    ensures Map(Deserialize, Map(Serialize, keys)) == keys
  {
  }

  // ----- the table -----

  function OwnedBy(account: string): ApiKey -> bool {
    (k: ApiKey) => k.accountId == account
  }

  function ActiveFor(account: string): ApiKey -> bool {
    (k: ApiKey) => k.accountId == account && k.revokedAt.None?
  }

  predicate NewestFirst(a: ApiKey, b: ApiKey) {
    a.createdAt >= b.createdAt
  }

  /** The account's rows, newest first; rows created at one instant stay in insertion order. */
  function Listing(keys: seq<ApiKey>, account: string): seq<ApiKey> {
    StableSort(NewestFirst, Filter(OwnedBy(account), keys))
  }

  function ActiveCount(keys: seq<ApiKey>, account: string): nat {
    |Filter(ActiveFor(account), keys)|
  }

  predicate Taken(keys: seq<ApiKey>, id: string, keyHash: string) {
    exists i :: 0 <= i < |keys| && (keys[i].id == id || keys[i].keyHash == keyHash)
  }

  /** The first row that satisfies p, or the length of the table. */
  function FirstIndex(p: ApiKey -> bool, keys: seq<ApiKey>): (r: nat)
    ensures r <= |keys| && (r < |keys| ==> p(keys[r]))
    ensures forall i :: 0 <= i < r ==> !p(keys[i])
  {
    if keys == [] || p(keys[0]) then 0 else 1 + FirstIndex(p, keys[1..])
  }

  function WithId(id: string): ApiKey -> bool {
    (k: ApiKey) => k.id == id
  }

  function Usable(keyHash: string): ApiKey -> bool {
    (k: ApiKey) => k.keyHash == keyHash && k.revokedAt.None?
  }

  // ----- operations -----

  function RawKey(token: string): string {
    KEY_PREFIX + token
  }

  function NewRow(hash: string -> string, account: string, keyLabel: string, id: string, token: string, now: int): ApiKey {
    var raw := RawKey(token);
    ApiKey(id, account, keyLabel, raw[..if |raw| < 16 then |raw| else 16], hash(raw), None, None, now)
  }

  function CreateError(hash: string -> string, s: Store, account: string, id: string, token: string): Option<ApiKeyError> {
    if ActiveCount(s.keys, account) >= MAX_KEYS_PER_ACCOUNT then Some(LimitExceeded)
    else if Taken(s.keys, id, hash(RawKey(token))) then Some(IntegrityError)
    else None
  }

  function AfterCreate(hash: string -> string, s: Store, account: string, keyLabel: string, id: string, token: string, now: int): Store {
    if CreateError(hash, s, account, id, token).Some? then s
    else Store(s.keys + [NewRow(hash, account, keyLabel, id, token, now)], s.caches - {account})
  }

  function Live(s: Store, account: string, now: int): bool {
    account in s.caches && now < s.caches[account].expiresAt
  }

  function Listed(s: Store, account: string, now: int): seq<ApiKey> {
    if Live(s, account, now) then Map(Deserialize, s.caches[account].rows) else Listing(s.keys, account)
  }

  function AfterList(s: Store, account: string, now: int): Store {
    if Live(s, account, now) then s
    else s.(caches := s.caches[account := Entry(Map(Serialize, Listing(s.keys, account)), now + API_KEYS_CACHE_TTL_SECONDS)])
  }

  predicate MayRevoke(s: Store, account: string, id: string) {
    var i := FirstIndex(WithId(id), s.keys);
    i < |s.keys| && s.keys[i].accountId == account
  }

  function AfterRevoke(s: Store, account: string, id: string, now: int): Store {
    if !MayRevoke(s, account, id) then s
    else
      var i := FirstIndex(WithId(id), s.keys);
      Store(s.keys[i := s.keys[i].(revokedAt := Some(now))], s.caches - {account})
  }

  function Authenticated(hash: string -> string, s: Store, raw: string): Option<nat> {
    var i := FirstIndex(Usable(hash(raw)), s.keys);
    if i < |s.keys| then Some(i) else None
  }

  /** Stamps the key and does not purge the list. */
  function AfterAuthenticate(hash: string -> string, s: Store, raw: string, now: int): Store {
    match Authenticated(hash, s, raw)
    case None => s
    case Some(i) => if i < |s.keys| then s.(keys := s.keys[i := s.keys[i].(lastUsedAt := Some(now))]) else s
  }

  datatype Op =
    | Create(account: string, keyLabel: string, id: string, token: string, now: int)
    | List(account: string, now: int)
    | Revoke(account: string, id: string, now: int)
    | Authenticate(raw: string, now: int)

  function Step(hash: string -> string, s: Store, op: Op): Store {
    match op
    case Create(account, keyLabel, id, token, now) => AfterCreate(hash, s, account, keyLabel, id, token, now)
    case List(account, now) => AfterList(s, account, now)
    case Revoke(account, id, now) => AfterRevoke(s, account, id, now)
    case Authenticate(raw, now) => AfterAuthenticate(hash, s, raw, now)
  }

  function Run(hash: string -> string, s: Store, ops: seq<Op>): Store
    decreases |ops|
  {
    if ops == [] then s else Run(hash, Step(hash, s, ops[0]), ops[1..])
  }

  const EMPTY := Store([], map[])

  // ----- filtering a table in which one row is replaced -----

  lemma FilterReplace<T>(p: T -> bool, s: seq<T>, i: nat, x: T)
    requires i < |s|
    ensures Filter(p, s[i := x]) == Filter(p, s[..i]) + Filter(p, [x]) + Filter(p, s[i + 1..])
    ensures Filter(p, s) == Filter(p, s[..i]) + Filter(p, [s[i]]) + Filter(p, s[i + 1..])
  {
    assert s[i := x] == s[..i] + [x] + s[i + 1..];
    assert s == s[..i] + [s[i]] + s[i + 1..];
    FilterConcat(p, s[..i] + [x], s[i + 1..]);
    FilterConcat(p, s[..i], [x]);
    FilterConcat(p, s[..i] + [s[i]], s[i + 1..]);
    FilterConcat(p, s[..i], [s[i]]);
  }

  // ----- invariants -----

  ghost predicate Unique(keys: seq<ApiKey>) {
    forall i, j :: 0 <= i < j < |keys| ==> keys[i].id != keys[j].id && keys[i].keyHash != keys[j].keyHash
  }

  ghost predicate Bounded(keys: seq<ApiKey>) {
    forall account :: ActiveCount(keys, account) <= MAX_KEYS_PER_ACCOUNT
  }

  /** None counts as earliest. */
  predicate NotLater(a: Option<int>, b: Option<int>) {
    a.Some? ==> b.Some? && a.value <= b.value
  }

  /** Everything but the time of last use. */
  predicate SameButUse(cached: ApiKey, stored: ApiKey) {
    cached == stored.(lastUsedAt := cached.lastUsedAt)
  }

  ghost predicate AgreeButUse(cached: seq<ApiKey>, stored: seq<ApiKey>) {
    |cached| == |stored| && forall i :: 0 <= i < |cached| ==> SameButUse(cached[i], stored[i])
  }

  ghost predicate NoLaterUse(cached: seq<ApiKey>, stored: seq<ApiKey>) {
    |cached| == |stored| && forall i :: 0 <= i < |cached| ==> NotLater(cached[i].lastUsedAt, stored[i].lastUsedAt)
  }

  ghost predicate CachesAgree(s: Store) {
    forall account :: account in s.caches ==> AgreeButUse(Map(Deserialize, s.caches[account].rows), Listing(s.keys, account))
  }

  ghost predicate CachesNotLater(s: Store) {
    forall account :: account in s.caches ==> NoLaterUse(Map(Deserialize, s.caches[account].rows), Listing(s.keys, account))
  }

  ghost predicate UsedBefore(keys: seq<ApiKey>, clock: int) {
    forall i :: 0 <= i < |keys| ==> NotLater(keys[i].lastUsedAt, Some(clock))
  }

  /** What every run keeps, whatever its clock does, besides `CachesAgree`. */
  ghost predicate TableInv(s: Store) {
    Unique(s.keys) && Bounded(s.keys)
  }

  /** What a run keeps besides whose clock never runs backwards. */
  ghost predicate UseInv(s: Store, clock: int) {
    CachesNotLater(s) && UsedBefore(s.keys, clock)
  }

  /** What stays cached is unchanged, and so are the rows it was taken from. */
  ghost predicate SameListings(s: Store, t: Store) {
    forall a :: a in t.caches ==> a in s.caches && t.caches[a] == s.caches[a] && Listing(t.keys, a) == Listing(s.keys, a)
  }

  /** The clock never runs backwards. */
  ghost predicate Chronological(ops: seq<Op>, clock: int) {
    ops != [] ==> ops[0].now >= clock && Chronological(ops[1..], ops[0].now)
  }

  lemma CreateKeepsTable(hash: string -> string, s: Store, account: string, keyLabel: string, id: string, token: string, now: int)
    requires TableInv(s)
    ensures TableInv(AfterCreate(hash, s, account, keyLabel, id, token, now))
  {
    if CreateError(hash, s, account, id, token).None? {
      var row := NewRow(hash, account, keyLabel, id, token, now);
      var t := AfterCreate(hash, s, account, keyLabel, id, token, now);
      forall a ensures ActiveCount(t.keys, a) <= MAX_KEYS_PER_ACCOUNT {
        FilterConcat(ActiveFor(a), s.keys, [row]);
        assert ActiveCount(s.keys, a) <= MAX_KEYS_PER_ACCOUNT;
        assert |Filter(ActiveFor(a), [row])| == if a == account then 1 else 0;
      }
    }
  }

  lemma CreateKeepsListings(hash: string -> string, s: Store, account: string, keyLabel: string, id: string, token: string, now: int)
    ensures SameListings(s, AfterCreate(hash, s, account, keyLabel, id, token, now))
  {
    if CreateError(hash, s, account, id, token).None? {
      var row := NewRow(hash, account, keyLabel, id, token, now);
      var t := AfterCreate(hash, s, account, keyLabel, id, token, now);
      forall a | a in t.caches ensures Listing(t.keys, a) == Listing(s.keys, a) {
        FilterConcat(OwnedBy(a), s.keys, [row]);
        assert Filter(OwnedBy(a), [row]) == [];
        assert Filter(OwnedBy(a), s.keys) + [] == Filter(OwnedBy(a), s.keys);
      }
    }
  }

  lemma ReplaceKeepsBounded(keys: seq<ApiKey>, i: nat, k: ApiKey)
    requires Bounded(keys) && i < |keys| && k.accountId == keys[i].accountId
    requires k.revokedAt.None? ==> keys[i].revokedAt.None?
    ensures Bounded(keys[i := k])
  {
    var keys' := keys[i := k];
    forall a ensures ActiveCount(keys', a) <= MAX_KEYS_PER_ACCOUNT {
      FilterReplace(ActiveFor(a), keys, i, k);
      assert ActiveCount(keys, a) <= MAX_KEYS_PER_ACCOUNT;
      assert |Filter(ActiveFor(a), [k])| <= |Filter(ActiveFor(a), [keys[i]])|;
    }
  }

  lemma RevokeKeepsTable(s: Store, account: string, id: string, now: int)
    requires TableInv(s)
    ensures TableInv(AfterRevoke(s, account, id, now))
  {
    if MayRevoke(s, account, id) {
      var i := FirstIndex(WithId(id), s.keys);
      ReplaceKeepsBounded(s.keys, i, s.keys[i].(revokedAt := Some(now)));
    }
  }

  lemma RevokeKeepsListings(s: Store, account: string, id: string, now: int)
    ensures SameListings(s, AfterRevoke(s, account, id, now))
  {
    if MayRevoke(s, account, id) {
      var i := FirstIndex(WithId(id), s.keys);
      var k := s.keys[i].(revokedAt := Some(now));
      var t := AfterRevoke(s, account, id, now);
      forall a | a in t.caches ensures Listing(t.keys, a) == Listing(s.keys, a) {
        FilterReplace(OwnedBy(a), s.keys, i, k);
      }
    }
  }

  /** Stamping as a change of every row: only the usable row with this hash differs. */
  function Stamp(keyHash: string, now: int): ApiKey -> ApiKey {
    (k: ApiKey) => if k.keyHash == keyHash && k.revokedAt.None? then k.(lastUsedAt := Some(now)) else k
  }

  lemma StampIsMap(hash: string -> string, s: Store, raw: string, now: int)
    requires Unique(s.keys)
    ensures AfterAuthenticate(hash, s, raw, now).keys == Map(Stamp(hash(raw), now), s.keys)
  {
    var i := FirstIndex(Usable(hash(raw)), s.keys);
    forall j | i < j < |s.keys| ensures !Usable(hash(raw))(s.keys[j]) {
    }
  }

  lemma ListingOfStamped(keys: seq<ApiKey>, account: string, keyHash: string, now: int)
    ensures Listing(Map(Stamp(keyHash, now), keys), account) == Map(Stamp(keyHash, now), Listing(keys, account))
  {
    FilterMap(OwnedBy(account), OwnedBy(account), Stamp(keyHash, now), keys);
    SortMap(NewestFirst, NewestFirst, Stamp(keyHash, now), Filter(OwnedBy(account), keys));
  }

  lemma ListingMembers(keys: seq<ApiKey>, account: string)
    ensures forall k :: k in Listing(keys, account) <==> k in keys && k.accountId == account
  {
    FilterMembers(OwnedBy(account), keys);
    SortPermutes(NewestFirst, Filter(OwnedBy(account), keys));
  }

  lemma AuthenticateKeepsTable(hash: string -> string, s: Store, raw: string, now: int)
    requires TableInv(s)
    ensures TableInv(AfterAuthenticate(hash, s, raw, now))
  {
    var i := FirstIndex(Usable(hash(raw)), s.keys);
    if i < |s.keys| {
      ReplaceKeepsBounded(s.keys, i, s.keys[i].(lastUsedAt := Some(now)));
    }
  }

  lemma AuthenticateKeepsCaches(hash: string -> string, s: Store, raw: string, now: int)
    requires Unique(s.keys) && CachesAgree(s)
    ensures CachesAgree(AfterAuthenticate(hash, s, raw, now))
  {
    var t := AfterAuthenticate(hash, s, raw, now);
    StampIsMap(hash, s, raw, now);
    forall a | a in t.caches ensures AgreeButUse(Map(Deserialize, t.caches[a].rows), Listing(t.keys, a)) {
      var cached, stored := Map(Deserialize, s.caches[a].rows), Listing(s.keys, a);
      ListingOfStamped(s.keys, a, hash(raw), now);
      assert AgreeButUse(cached, stored);
    }
  }

  lemma AuthenticateKeepsUses(hash: string -> string, s: Store, raw: string, now: int, clock: int)
    requires Unique(s.keys) && UseInv(s, clock) && now >= clock
    ensures UseInv(AfterAuthenticate(hash, s, raw, now), now)
  {
    var t := AfterAuthenticate(hash, s, raw, now);
    StampIsMap(hash, s, raw, now);
    forall a | a in t.caches ensures NoLaterUse(Map(Deserialize, t.caches[a].rows), Listing(t.keys, a)) {
      StampIsNotEarlier(s, a, hash(raw), now, clock);
    }
  }

  lemma StampIsNotEarlier(s: Store, a: string, keyHash: string, now: int, clock: int)
    requires a in s.caches && CachesNotLater(s) && UsedBefore(s.keys, clock) && now >= clock
    ensures NoLaterUse(Map(Deserialize, s.caches[a].rows), Listing(Map(Stamp(keyHash, now), s.keys), a))
  {
    var cached, stored := Map(Deserialize, s.caches[a].rows), Listing(s.keys, a);
    ListingOfStamped(s.keys, a, keyHash, now);
    assert NoLaterUse(cached, stored);
    forall j | 0 <= j < |stored| ensures NotLater(cached[j].lastUsedAt, Stamp(keyHash, now)(stored[j]).lastUsedAt) {
      ListingMembers(s.keys, a);
      assert stored[j] in s.keys;
    }
  }

  lemma StepKeepsTable(hash: string -> string, s: Store, op: Op)
    requires TableInv(s)
    ensures TableInv(Step(hash, s, op))
  {
    match op
    case Create(account, keyLabel, id, token, now) => CreateKeepsTable(hash, s, account, keyLabel, id, token, now);
    case List(account, now) =>
    case Revoke(account, id, now) => RevokeKeepsTable(s, account, id, now);
    case Authenticate(raw, now) => AuthenticateKeepsTable(hash, s, raw, now);
  }

  lemma StepKeepsCaches(hash: string -> string, s: Store, op: Op)
    requires Unique(s.keys) && CachesAgree(s)
    ensures CachesAgree(Step(hash, s, op))
  {
    match op
    case Create(account, keyLabel, id, token, now) => CreateKeepsListings(hash, s, account, keyLabel, id, token, now);
    case List(account, now) => CachingKeepsKeys(Listing(s.keys, account));
    case Revoke(account, id, now) => RevokeKeepsListings(s, account, id, now);
    case Authenticate(raw, now) => AuthenticateKeepsCaches(hash, s, raw, now);
  }

  lemma SameListingsKeepUses(s: Store, t: Store)
    requires CachesNotLater(s) && SameListings(s, t)
    ensures CachesNotLater(t)
  {
  }

  lemma CreateKeepsUses(hash: string -> string, s: Store, op: Op, clock: int)
    requires UseInv(s, clock) && op.Create? && op.now >= clock
    ensures UseInv(Step(hash, s, op), op.now)
  {
    CreateKeepsListings(hash, s, op.account, op.keyLabel, op.id, op.token, op.now);
    SameListingsKeepUses(s, Step(hash, s, op));
  }

  lemma RevokeKeepsUses(hash: string -> string, s: Store, op: Op, clock: int)
    requires UseInv(s, clock) && op.Revoke? && op.now >= clock
    ensures UseInv(Step(hash, s, op), op.now)
  {
    RevokeKeepsListings(s, op.account, op.id, op.now);
    SameListingsKeepUses(s, Step(hash, s, op));
  }

  lemma ListKeepsUses(s: Store, account: string, now: int, clock: int)
    requires UseInv(s, clock) && now >= clock
    ensures UseInv(AfterList(s, account, now), now)
  {
    CachingKeepsKeys(Listing(s.keys, account));
  }

  lemma StepKeepsUses(hash: string -> string, s: Store, op: Op, clock: int)
    requires Unique(s.keys) && UseInv(s, clock) && op.now >= clock
    ensures UseInv(Step(hash, s, op), op.now)
  {
    match op
    case Create(_, _, _, _, _) => CreateKeepsUses(hash, s, op, clock);
    case List(account, now) => ListKeepsUses(s, account, now, clock);
    case Revoke(_, _, _) => RevokeKeepsUses(hash, s, op, clock);
    case Authenticate(raw, now) => AuthenticateKeepsUses(hash, s, raw, now, clock);
  }

  ghost function LastInstant(ops: seq<Op>, clock: int): int {
    if ops == [] then clock else LastInstant(ops[1..], ops[0].now)
  }

  lemma {:induction false} RunKeepsTable(hash: string -> string, s: Store, ops: seq<Op>)
    requires TableInv(s)
    ensures TableInv(Run(hash, s, ops))
    decreases |ops|
  {
    if ops != [] {
      StepKeepsTable(hash, s, ops[0]);
      RunKeepsTable(hash, Step(hash, s, ops[0]), ops[1..]);
    }
  }

  lemma {:induction false} RunKeepsCaches(hash: string -> string, s: Store, ops: seq<Op>)
    requires TableInv(s) && CachesAgree(s)
    ensures CachesAgree(Run(hash, s, ops))
    decreases |ops|
  {
    if ops != [] {
      StepKeepsTable(hash, s, ops[0]);
      StepKeepsCaches(hash, s, ops[0]);
      RunKeepsCaches(hash, Step(hash, s, ops[0]), ops[1..]);
    }
  }

  lemma {:induction false} RunKeepsUses(hash: string -> string, s: Store, ops: seq<Op>, clock: int)
    requires TableInv(s) && UseInv(s, clock) && Chronological(ops, clock)
    ensures UseInv(Run(hash, s, ops), LastInstant(ops, clock))
    decreases |ops|
  {
    if ops != [] {
      StepKeepsTable(hash, s, ops[0]);
      StepKeepsUses(hash, s, ops[0], clock);
      RunKeepsUses(hash, Step(hash, s, ops[0]), ops[1..], ops[0].now);
    }
  }

  /** After every run, whatever its clock does, the list an account is shown has its rows
      in order and right in every field but the time of last use; so a revoked key is
      always shown as revoked. */
  lemma ShownListAgreesButForUse(hash: string -> string, ops: seq<Op>, account: string, now: int)
    ensures var s := Run(hash, EMPTY, ops);
            var shown, stored := Listed(s, account, now), Listing(s.keys, account);
            && AgreeButUse(shown, stored)
            && forall i :: 0 <= i < |stored| ==> shown[i].revokedAt == stored[i].revokedAt
  {
    RunKeepsCaches(hash, EMPTY, ops);
    var s := Run(hash, EMPTY, ops);
    var shown, stored := Listed(s, account, now), Listing(s.keys, account);
    assert AgreeButUse(shown, stored);
    forall i | 0 <= i < |stored| ensures shown[i].revokedAt == stored[i].revokedAt {
      assert SameButUse(shown[i], stored[i]);
    }
  }

  /** When the clock never runs backwards, the time of last use that is shown is moreover
      never later than the stored one. */
  lemma ShownUseIsNeverTooLate(hash: string -> string, ops: seq<Op>, start: int, account: string, now: int)
    requires Chronological(ops, start)
    ensures var s := Run(hash, EMPTY, ops);
            NoLaterUse(Listed(s, account, now), Listing(s.keys, account))
  {
    RunKeepsUses(hash, EMPTY, ops, start);
  }

  lemma EarlierStampIsLate(keys: seq<ApiKey>, i: nat, account: string, keyHash: string, late: int, early: int)
    requires i < |keys| && keys[i].accountId == account && Usable(keyHash)(keys[i])
    requires keys[i].lastUsedAt == Some(late) && early < late
    ensures !NoLaterUse(Listing(keys, account), Listing(Map(Stamp(keyHash, early), keys), account))
  {
    var shown := Listing(keys, account);
    ListingOfStamped(keys, account, keyHash, early);
    ListingMembers(keys, account);
    assert keys[i] in shown;
    var j :| 0 <= j < |shown| && shown[j] == keys[i];
    assert !NotLater(shown[j].lastUsedAt, Map(Stamp(keyHash, early), shown)[j].lastUsedAt);
  }

  lemma UsedKeyIsStamped(hash: string -> string, s: Store, raw: string, late: int)
    requires Unique(s.keys) && Authenticated(hash, s, raw).Some?
    ensures var i := Authenticated(hash, s, raw).value;
            var keys := AfterAuthenticate(hash, s, raw, late).keys;
            && Unique(keys) && |keys| == |s.keys| && keys[i].accountId == s.keys[i].accountId
            && Usable(hash(raw))(keys[i]) && keys[i].lastUsedAt == Some(late)
  {
  }

  /** The clock is needed: a key that is used, listed, and used again at an earlier instant
      is shown with the later one, exactly as long as the entry lives. */
  lemma ClockStepMakesShownUseLate(hash: string -> string, s: Store, raw: string, account: string, late: int, early: int, now: int)
    requires Unique(s.keys) && early < late && Authenticated(hash, s, raw).Some? && account !in s.caches
    requires s.keys[Authenticated(hash, s, raw).value].accountId == account
    ensures var used := AfterAuthenticate(hash, s, raw, late);
            var t := AfterAuthenticate(hash, AfterList(used, account, late), raw, early);
            NoLaterUse(Listed(t, account, now), Listing(t.keys, account)) <==> now >= late + 30
  {
    var used := AfterAuthenticate(hash, s, raw, late);
    UsedKeyIsStamped(hash, s, raw, late);
    EarlierStampIsLate(used.keys, Authenticated(hash, s, raw).value, account, hash(raw), late, early);
    StampIsMap(hash, AfterList(used, account, late), raw, early);
    CachedIsShown(hash, used, raw, account, late, early, now);
  }

  lemma CachedIsShown(hash: string -> string, used: Store, raw: string, account: string, late: int, early: int, now: int)
    requires account !in used.caches
    ensures var t := AfterAuthenticate(hash, AfterList(used, account, late), raw, early);
            Listed(t, account, now) == Listing(if now < late + 30 then used.keys else t.keys, account)
  {
    CachingKeepsKeys(Listing(used.keys, account));
  }

  lemma StampChangesListingExactly(keys: seq<ApiKey>, account: string, keyHash: string, now: int)
    ensures Map(Stamp(keyHash, now), Listing(keys, account)) != Listing(keys, account) <==>
            exists k :: k in keys && k.accountId == account && Stamp(keyHash, now)(k) != k
  {
    var stamp, stored := Stamp(keyHash, now), Listing(keys, account);
    ListingMembers(keys, account);
    if k :| k in keys && k.accountId == account && stamp(k) != k {
      var j :| 0 <= j < |stored| && stored[j] == k;
      assert Map(stamp, stored)[j] != stored[j];
    } else {
      assert forall j :: 0 <= j < |stored| ==> stored[j] in stored;
    }
  }

  /** The exception is real: while an entry is live a use never changes the shown list,
      and it changes the stored one exactly when the key is the account's own and was
      not already used at that instant. */
  lemma UseIsHiddenByLiveEntry(hash: string -> string, s: Store, raw: string, account: string, now: int)
    requires Unique(s.keys) && Live(s, account, now)
    ensures var t := AfterAuthenticate(hash, s, raw, now);
            var used := Authenticated(hash, s, raw);
            && Listed(t, account, now) == Listed(s, account, now)
            && (Listing(t.keys, account) != Listing(s.keys, account) <==>
                  used.Some? && s.keys[used.value].accountId == account && s.keys[used.value].lastUsedAt != Some(now))
  {
    StampIsMap(hash, s, raw, now);
    ListingOfStamped(s.keys, account, hash(raw), now);
    StampChangesListingExactly(s.keys, account, hash(raw), now);
    OnlyUsableKeyIsStamped(hash, s, raw, account, now);
  }

  lemma OnlyUsableKeyIsStamped(hash: string -> string, s: Store, raw: string, account: string, now: int)
    requires Unique(s.keys)
    ensures var used := Authenticated(hash, s, raw);
            (exists k :: k in s.keys && k.accountId == account && Stamp(hash(raw), now)(k) != k) <==>
            used.Some? && s.keys[used.value].accountId == account && s.keys[used.value].lastUsedAt != Some(now)
  {
    var i := FirstIndex(Usable(hash(raw)), s.keys);
    if k :| k in s.keys && k.accountId == account && Stamp(hash(raw), now)(k) != k {
      var j :| 0 <= j < |s.keys| && s.keys[j] == k;
      assert Usable(hash(raw))(k) && i <= j && s.keys[i].keyHash == s.keys[j].keyHash;
    } else {
      assert i < |s.keys| ==> s.keys[i] in s.keys;
    }
  }

  /** In every run each account has at most ten active keys, and a new one is refused
      for that reason exactly when there are ten. */
  lemma AtMostTenActiveKeys(hash: string -> string, ops: seq<Op>, account: string, id: string, token: string)
    ensures var s := Run(hash, EMPTY, ops);
            var active := set i | 0 <= i < |s.keys| && s.keys[i].accountId == account && s.keys[i].revokedAt == None;
            && |active| <= 10
            && (CreateError(hash, s, account, id, token) == Some(LimitExceeded) <==> |active| == 10)
  {
    var s := Run(hash, EMPTY, ops);
    RunKeepsTable(hash, EMPTY, ops);
    ActiveCountIsPositions(s.keys, account);
  }

  /** A key is created exactly when fewer than ten are active and neither its id nor its
      hash is taken. */
  lemma CreateIsAcceptedExactly(hash: string -> string, s: Store, account: string, id: string, token: string)
    ensures CreateError(hash, s, account, id, token) == None <==>
              && |set i | 0 <= i < |s.keys| && s.keys[i].accountId == account && s.keys[i].revokedAt == None| < 10
              && forall i :: 0 <= i < |s.keys| ==> s.keys[i].id != id && s.keys[i].keyHash != hash("zlk_live_" + token)
  {
    ActiveCountIsPositions(s.keys, account);
  }

  lemma ActiveCountIsPositions(keys: seq<ApiKey>, account: string)
    ensures ActiveCount(keys, account) == |set i | 0 <= i < |keys| && keys[i].accountId == account && keys[i].revokedAt == None|
  {
    FilterCountsHits(ActiveFor(account), keys);
    assert Hits(ActiveFor(account), keys) == set i | 0 <= i < |keys| && keys[i].accountId == account && keys[i].revokedAt == None;
  }

  /** A listing holds exactly the account's rows, each once for each time it is stored,
      newest first. */
  lemma ListingIsOwnKeysNewestFirst(keys: seq<ApiKey>, account: string, k: ApiKey)
    ensures multiset(Listing(keys, account))[k] == if k.accountId == account then multiset(keys)[k] else 0
    ensures forall i, j :: 0 <= i < j < |Listing(keys, account)| ==>
              Listing(keys, account)[i].createdAt >= Listing(keys, account)[j].createdAt
  {
    var own := Filter(OwnedBy(account), keys);
    FilterMultiset(OwnedBy(account), keys, k);
    SortPermutes(NewestFirst, own);
    SortSorts(NewestFirst, own);
    forall i, j | 0 <= i < j < |Listing(keys, account)|
      ensures Listing(keys, account)[i].createdAt >= Listing(keys, account)[j].createdAt
    {
      assert NewestFirst(Listing(keys, account)[i], Listing(keys, account)[j]);
    }
  }

  // ----- what a created key holds -----

  /** A created key: the raw key is the prefix and the token, the row keeps its first
      sixteen characters and its hash, and nothing else of the table changes. */
  lemma CreatedKeyHoldsRequest(hash: string -> string, s: Store, account: string, keyLabel: string, id: string, token: string, now: int)
    requires CreateError(hash, s, account, id, token).None?
    ensures var t := AfterCreate(hash, s, account, keyLabel, id, token, now);
            var raw := "zlk_live_" + token;
            && RawKey(token) == raw
            && |t.keys| == |s.keys| + 1 && t.keys[..|s.keys|] == s.keys && account !in t.caches
            && var k := t.keys[|s.keys|];
               && k.id == id && k.accountId == account && k.keyLabel == keyLabel && k.createdAt == now
               && k.keyHash == hash(raw) && k.lastUsedAt == None && k.revokedAt == None
               && (|raw| >= 16 ==> |k.keyPrefix| == 16 && k.keyPrefix == raw[..16])
               && (|raw| < 16 ==> k.keyPrefix == raw)
  {
  }

  ghost predicate ShortPrefixes(keys: seq<ApiKey>) {
    forall i :: 0 <= i < |keys| ==> |keys[i].keyPrefix| <= 16
  }

  ghost predicate PrefixInv(s: Store) {
    && ShortPrefixes(s.keys)
    && forall account :: account in s.caches ==> ShortPrefixes(Map(Deserialize, s.caches[account].rows))
  }

  lemma ListingHasShortPrefixes(keys: seq<ApiKey>, account: string)
    requires ShortPrefixes(keys)
    ensures ShortPrefixes(Listing(keys, account))
  {
    ListingMembers(keys, account);
    forall i | 0 <= i < |Listing(keys, account)| ensures |Listing(keys, account)[i].keyPrefix| <= 16 {
      assert Listing(keys, account)[i] in keys;
    }
  }

  lemma StepKeepsPrefixes(hash: string -> string, s: Store, op: Op)
    requires PrefixInv(s)
    ensures PrefixInv(Step(hash, s, op))
  {
    if op.List? {
      ListingHasShortPrefixes(s.keys, op.account);
      CachingKeepsKeys(Listing(s.keys, op.account));
    }
  }

  lemma {:induction false} RunKeepsPrefixes(hash: string -> string, s: Store, ops: seq<Op>)
    requires PrefixInv(s)
    ensures PrefixInv(Run(hash, s, ops))
    decreases |ops|
  {
    if ops != [] {
      StepKeepsPrefixes(hash, s, ops[0]);
      RunKeepsPrefixes(hash, Step(hash, s, ops[0]), ops[1..]);
    }
  }

  /** In every run, no stored, cached or shown key holds more than sixteen characters of
      its raw key; so the raw key of a generated token is nowhere kept. */
  lemma RawKeyIsNeverKept(hash: string -> string, ops: seq<Op>, account: string, now: int, token: string)
    ensures var s := Run(hash, EMPTY, ops);
            && (forall k :: k in s.keys || k in Listed(s, account, now) ==> |k.keyPrefix| <= 16)
            && (forall a, c :: a in s.caches && c in s.caches[a].rows ==> |c.keyPrefix| <= 16)
            && (|token| == 48 ==> forall k :: k in s.keys || k in Listed(s, account, now) ==> k.keyPrefix != "zlk_live_" + token)
  {
    var s := Run(hash, EMPTY, ops);
    RunKeepsPrefixes(hash, EMPTY, ops);
    ListingHasShortPrefixes(s.keys, account);
    forall a, c | a in s.caches && c in s.caches[a].rows ensures |c.keyPrefix| <= 16 {
      var i :| 0 <= i < |s.caches[a].rows| && s.caches[a].rows[i] == c;
      assert Map(Deserialize, s.caches[a].rows)[i].keyPrefix == c.keyPrefix;
    }
  }

  // ----- a key works until it is revoked -----

  /** Row i is the row of this key. */
  ghost predicate IsRow(keys: seq<ApiKey>, i: nat, account: string, id: string, keyHash: string) {
    i < |keys| && keys[i].id == id && keys[i].accountId == account && keys[i].keyHash == keyHash
  }

  predicate Revokes(op: Op, account: string, id: string) {
    op.Revoke? && op.account == account && op.id == id
  }

  lemma StepOnRow(hash: string -> string, s: Store, op: Op, i: nat, account: string, id: string, keyHash: string)
    requires TableInv(s) && IsRow(s.keys, i, account, id, keyHash)
    ensures IsRow(Step(hash, s, op).keys, i, account, id, keyHash)
    ensures Step(hash, s, op).keys[i].revokedAt.None? <==> s.keys[i].revokedAt.None? && !Revokes(op, account, id)
  {
    if op.Revoke? {
      var j := FirstIndex(WithId(op.id), s.keys);
      assert op.id == id ==> j == i;
    }
  }

  ghost predicate NeverRevokes(ops: seq<Op>, account: string, id: string) {
    forall j :: 0 <= j < |ops| ==> !Revokes(ops[j], account, id)
  }

  lemma NeverRevokesFrom(ops: seq<Op>, account: string, id: string)
    requires ops != []
    ensures NeverRevokes(ops, account, id) <==> !Revokes(ops[0], account, id) && NeverRevokes(ops[1..], account, id)
  {
    assert ops == [ops[0]] + ops[1..];
  }

  lemma {:induction false} RunOnRow(hash: string -> string, s: Store, ops: seq<Op>, i: nat, account: string, id: string, keyHash: string)
    requires TableInv(s) && IsRow(s.keys, i, account, id, keyHash)
    ensures var t := Run(hash, s, ops);
            && IsRow(t.keys, i, account, id, keyHash)
            && (t.keys[i].revokedAt.None? <==> s.keys[i].revokedAt.None? && NeverRevokes(ops, account, id))
    decreases |ops|
  {
    if ops != [] {
      StepKeepsTable(hash, s, ops[0]);
      StepOnRow(hash, s, ops[0], i, account, id, keyHash);
      RunOnRow(hash, Step(hash, s, ops[0]), ops[1..], i, account, id, keyHash);
      NeverRevokesFrom(ops, account, id);
    }
  }

  lemma RowAuthenticatesExactly(hash: string -> string, s: Store, i: nat, raw: string)
    requires TableInv(s) && i < |s.keys| && s.keys[i].keyHash == hash(raw)
    ensures Authenticated(hash, s, raw) == if s.keys[i].revokedAt.None? then Some(i) else None
  {
    var j := FirstIndex(Usable(hash(raw)), s.keys);
    assert j < |s.keys| ==> j == i;
    assert Usable(hash(raw))(s.keys[i]) <==> s.keys[i].revokedAt.None?;
  }

  /** In every run, a created key authenticates as its row in every later state exactly
      until its account has revoked it. */
  lemma KeyWorksUntilRevoked(hash: string -> string, ops: seq<Op>, account: string, keyLabel: string, id: string, token: string, now: int,
                             more: seq<Op>)
    requires CreateError(hash, Run(hash, EMPTY, ops), account, id, token).None?
    ensures var s := Run(hash, EMPTY, ops);
            var t := Run(hash, AfterCreate(hash, s, account, keyLabel, id, token, now), more);
            Authenticated(hash, t, "zlk_live_" + token) ==
            if forall j :: 0 <= j < |more| ==> !(more[j].Revoke? && more[j].account == account && more[j].id == id)
            then Some(|s.keys|) else None
  {
    var s := Run(hash, EMPTY, ops);
    var c := AfterCreate(hash, s, account, keyLabel, id, token, now);
    var raw := "zlk_live_" + token;
    RunKeepsTable(hash, EMPTY, ops);
    CreateKeepsTable(hash, s, account, keyLabel, id, token, now);
    CreatedKeyHoldsRequest(hash, s, account, keyLabel, id, token, now);
    RunKeepsTable(hash, c, more);
    RunOnRow(hash, c, more, |s.keys|, account, id, hash(raw));
    RowAuthenticatesExactly(hash, Run(hash, c, more), |s.keys|, raw);
    assert forall j :: 0 <= j < |more| ==> (Revokes(more[j], account, id) <==> more[j].Revoke? && more[j].account == account && more[j].id == id);
  }

  /** Revoking, the first time or again, stamps that row with the instant and changes
      nothing else of the table. */
  lemma RevokedRowIsStamped(s: Store, account: string, id: string, now: int, i: nat)
    requires Unique(s.keys) && i < |s.keys| && s.keys[i].id == id
    ensures var t := AfterRevoke(s, account, id, now);
            && |t.keys| == |s.keys|
            && (forall j :: 0 <= j < |s.keys| && j != i ==> t.keys[j] == s.keys[j])
            && t.keys[i] == (if s.keys[i].accountId == account then s.keys[i].(revokedAt := Some(now)) else s.keys[i])
            && (s.keys[i].accountId == account ==> account !in t.caches)
  {
    var j := FirstIndex(WithId(id), s.keys);
    assert j == i;
  }

  // ----- revocation is final -----

  ghost predicate Revoked(keys: seq<ApiKey>, keyHash: string) {
    && Unique(keys)
    && exists i :: 0 <= i < |keys| && keys[i].keyHash == keyHash && keys[i].revokedAt.Some?
  }

  lemma StepKeepsRevoked(hash: string -> string, s: Store, op: Op, keyHash: string)
    requires Revoked(s.keys, keyHash)
    ensures Revoked(Step(hash, s, op).keys, keyHash)
  {
    var t := Step(hash, s, op);
    var i :| 0 <= i < |s.keys| && s.keys[i].keyHash == keyHash && s.keys[i].revokedAt.Some?;
    assert t.keys[i].keyHash == keyHash && t.keys[i].revokedAt.Some?;
  }

  lemma {:induction false} RunKeepsRevoked(hash: string -> string, s: Store, ops: seq<Op>, keyHash: string)
    requires Revoked(s.keys, keyHash)
    ensures Revoked(Run(hash, s, ops).keys, keyHash)
    decreases |ops|
  {
    if ops != [] {
      StepKeepsRevoked(hash, s, ops[0], keyHash);
      RunKeepsRevoked(hash, Step(hash, s, ops[0]), ops[1..], keyHash);
    }
  }

  lemma RevokedNeverAuthenticates(hash: string -> string, s: Store, raw: string)
    requires Revoked(s.keys, hash(raw))
    ensures Authenticated(hash, s, raw).None?
  {
    var i :| 0 <= i < |s.keys| && s.keys[i].keyHash == hash(raw) && s.keys[i].revokedAt.Some?;
    var j := FirstIndex(Usable(hash(raw)), s.keys);
    assert j < |s.keys| ==> j == i;
  }

  /** Once the row of a raw key is revoked, the key authenticates in no later state,
      whatever is created, revoked (again) or listed in between; before that it does. */
  lemma RevocationIsFinal(hash: string -> string, ops: seq<Op>, account: string, id: string, now: int,
                          more: seq<Op>, raw: string)
    requires var s := Run(hash, EMPTY, ops);
             var i := FirstIndex(WithId(id), s.keys);
             MayRevoke(s, account, id) && s.keys[i].keyHash == hash(raw)
    ensures var s := Run(hash, EMPTY, ops);
            && (s.keys[FirstIndex(WithId(id), s.keys)].revokedAt.None? <==> Authenticated(hash, s, raw).Some?)
            && Authenticated(hash, Run(hash, AfterRevoke(s, account, id, now), more), raw).None?
  {
    RunKeepsTable(hash, EMPTY, ops);
    var s := Run(hash, EMPTY, ops);
    var i := FirstIndex(WithId(id), s.keys);
    var t := AfterRevoke(s, account, id, now);
    assert t.keys[i].keyHash == hash(raw) && t.keys[i].revokedAt.Some?;
    RunKeepsRevoked(hash, t, more, hash(raw));
    RevokedNeverAuthenticates(hash, Run(hash, t, more), raw);
    if s.keys[i].revokedAt.Some? {
      RevokedNeverAuthenticates(hash, s, raw);
    } else {
      assert Usable(hash(raw))(s.keys[i]);
    }
  }

  // ----- the service -----

  class Service {
    const hash: string -> string
    var keys: seq<ApiKey>
    var caches: map<string, Entry>

    function Value(): Store
      reads this
    {
      Store(keys, caches)
    }

    constructor (hash: string -> string)
      ensures this.hash == hash && Value() == EMPTY
    {
      this.hash := hash;
      keys, caches := [], map[];
    }

    method CreateApiKey(account: string, keyLabel: string, id: string, token: string, now: int)
      returns (r: Result<(ApiKey, string), ApiKeyError>)
      modifies this
      ensures Value() == AfterCreate(hash, old(Value()), account, keyLabel, id, token, now)
      ensures r == match CreateError(hash, old(Value()), account, id, token)
                   case Some(e) => Err(e)
                   case None => Ok((keys[|keys| - 1], RawKey(token)))
    {
      if ActiveCount(keys, account) >= MAX_KEYS_PER_ACCOUNT {
        return Err(LimitExceeded);
      }
      if Taken(keys, id, hash(RawKey(token))) {
        return Err(IntegrityError);
      }
      var key := NewRow(hash, account, keyLabel, id, token, now);
      keys := keys + [key];
      caches := caches - {account};
      r := Ok((key, RawKey(token)));
    }

    method ListApiKeys(account: string, now: int) returns (r: seq<ApiKey>)
      modifies this`caches
      ensures Value() == AfterList(old(Value()), account, now)
      ensures r == Listed(old(Value()), account, now)
    {
      if account in caches && now < caches[account].expiresAt {
        return Map(Deserialize, caches[account].rows);
      }
      r := Listing(keys, account);
      caches := caches[account := Entry(Map(Serialize, r), now + API_KEYS_CACHE_TTL_SECONDS)];
    }

    method RevokeApiKey(account: string, id: string, now: int) returns (r: Result<(), ApiKeyError>)
      modifies this
      ensures Value() == AfterRevoke(old(Value()), account, id, now)
      ensures r == if MayRevoke(old(Value()), account, id) then Ok(()) else Err(NotYourKey(id))
    {
      var i := FirstIndex(WithId(id), keys);
      if i == |keys| || keys[i].accountId != account {
        return Err(NotYourKey(id));
      }
      keys := keys[i := keys[i].(revokedAt := Some(now))];
      caches := caches - {account};
      r := Ok(());
    }

    method AuthenticateApiKey(raw: string, now: int) returns (r: Option<ApiKey>)
      modifies this`keys
      ensures Value() == AfterAuthenticate(hash, old(Value()), raw, now)
      ensures r.Some? <==> Authenticated(hash, old(Value()), raw).Some?
      ensures r.Some? ==> r.value in keys && r.value.keyHash == hash(raw) && r.value.revokedAt.None? && r.value.lastUsedAt == Some(now)
    {
      var i := FirstIndex(Usable(hash(raw)), keys);
      if i == |keys| {
        return None;
      }
      keys := keys[i := keys[i].(lastUsedAt := Some(now))];
      r := Some(keys[i]);
    }
  }
}
