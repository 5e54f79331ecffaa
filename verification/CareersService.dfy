/** The careers service: the staff operations on the requisition table, the cached
    read behind the public endpoints, and what every run of them keeps.
    Operations are atomic here; CareersInterleaved splits them into steps. */
module CareersService {
  import opened Seqs
  import opened CareersModel
  import opened PublicJobs
  import opened CanonicalState

  datatype CareersError =
    | BlankSlug
    | SlugInUse(slug: string)
    | RemoteLocationRequired
    | NoSuchJob(key: string)
    | InvalidTransition(from: Status, to: Status)
    | AttributeError
    | IntegrityError

  const PUBLIC_JOBS_CACHE_TTL_SECONDS := 30

  const ALLOWED_TRANSITIONS: map<Status, set<Status>> := map[
    Draft := {Approved, Canceled},
    Approved := {Open, Canceled},
    Open := {Paused, Filled, Closed, Canceled},
    Paused := {Open, Filled, Closed, Canceled},
    Filled := {},
    Closed := {},
    Canceled := {}
  ]

  function NextStatuses(s: Status): set<Status> {
    if s in ALLOWED_TRANSITIONS then ALLOWED_TRANSITIONS[s] else {}
  }

  // ----- update arguments -----

  /** One keyword argument of an update; None is Python's None. */
  datatype Field =
    | SetTitle(title: Option<string>)
    | SetHiringOrg(hiringOrg: Option<string>)
    | SetTeam(team: Option<string>)
    | SetEmploymentType(employmentType: Option<EmploymentType>)
    | SetWorkModel(workModel: Option<WorkModel>)
    | SetJobLocations(jobLocations: Option<string>)
    | SetApplicantLocationRules(rules: Option<string>)
    | SetApplyUrl(applyUrl: Option<string>)
    | SetCompensationState(state: Option<CompensationState>)
    | SetCompensationMin(min: Option<int>)
    | SetCompensationMax(max: Option<int>)
    | SetCompensationCurrency(currency: Option<string>)
    | SetFeatured(featured: Option<bool>)
    | SetDescription(description: Option<string>)
    | SetValidThrough(validThrough: Option<int>)

  /** Keyword arguments are distinct; only these two are read before the loop. */
  ghost predicate DistinctKeywords(fields: seq<Field>) {
    && (forall i, j :: 0 <= i < j < |fields| ==> !(fields[i].SetWorkModel? && fields[j].SetWorkModel?))
    && (forall i, j :: 0 <= i < j < |fields| ==> !(fields[i].SetJobLocations? && fields[j].SetJobLocations?))
  }

  /** `if value is not None: setattr(job, key, value)` */
  function SetField(job: Job, f: Field): Job {
    match f
    case SetTitle(Some(v)) => job.(title := v)
    case SetHiringOrg(Some(v)) => job.(hiringOrg := v)
    case SetTeam(Some(v)) => job.(team := v)
    case SetEmploymentType(Some(v)) => job.(employmentType := v)
    case SetWorkModel(Some(v)) => job.(workModel := v)
    case SetJobLocations(Some(v)) => job.(jobLocations := v)
    case SetApplicantLocationRules(Some(v)) => job.(applicantLocationRules := Some(v))
    case SetApplyUrl(Some(v)) => job.(applyUrl := v)
    case SetCompensationState(Some(v)) => job.(compensationState := v)
    case SetCompensationMin(Some(v)) => job.(compensationMin := Some(v))
    case SetCompensationMax(Some(v)) => job.(compensationMax := Some(v))
    case SetCompensationCurrency(Some(v)) => job.(compensationCurrency := Some(v))
    case SetFeatured(Some(v)) => job.(featured := v)
    case SetDescription(Some(v)) => job.(description := v)
    case SetValidThrough(Some(v)) => job.(validThrough := Some(v))
    case _ => job
  }

  function ApplyFields(job: Job, fields: seq<Field>): Job {
    if fields == [] then job
    else SetField(ApplyFields(job, fields[..|fields| - 1]), fields[|fields| - 1])
  }

  /** `fields.get("work_model", stored)`: a passed None wins over the stored value. */
  function GetWorkModel(fields: seq<Field>, stored: Option<WorkModel>): Option<WorkModel> {
    if fields == [] then stored
    else if fields[|fields| - 1].SetWorkModel? then fields[|fields| - 1].workModel
    else GetWorkModel(fields[..|fields| - 1], stored)
  }

  function GetJobLocations(fields: seq<Field>, stored: Option<string>): Option<string> {
    if fields == [] then stored
    else if fields[|fields| - 1].SetJobLocations? then fields[|fields| - 1].jobLocations
    else GetJobLocations(fields[..|fields| - 1], stored)
  }

  /** A REMOTE role needs real geography; `None.strip()` is a crash. */
  function RemoteGeographyError(workModel: Option<WorkModel>, jobLocations: Option<string>): Option<CareersError> {
    if workModel != Some(Remote) then None
    else if jobLocations.None? then Some(AttributeError)
    else if Blank(jobLocations.value) then Some(RemoteLocationRequired)
    else None
  }

  function UpdateError(job: Job, fields: seq<Field>): Option<CareersError> {
    RemoteGeographyError(GetWorkModel(fields, Some(job.workModel)), GetJobLocations(fields, Some(job.jobLocations)))
  }

  // ----- state -----

  datatype CacheEntry = CacheEntry(jobs: seq<PublicJob>, expiresAt: int)

  datatype LogEvent = LogEvent(
    actor: string, action: string, target: string, reason: Option<string>,
    beforeHash: Option<string>, afterHash: Option<string>)

  /** What a staff operation hands to the audit trail. */
  datatype Change =
    | Created(actor: string, id: string, slug: string, title: string, status: Status)
    | Updated(actor: string, id: string, titleBefore: string, titleAfter: string, status: Status)
    | Moved(actor: string, id: string, from: Status, to: Status, reason: Option<string>)

  /** A failed audit write is swallowed. */
  datatype Attempt = Attempt(change: Change, stored: bool)

  /** `attempts` is bookkeeping: every call of the audit writer so far. */
  datatype State = State(rows: seq<Job>, cache: Option<CacheEntry>, log: seq<LogEvent>, attempts: seq<Attempt>)

  const EMPTY := State([], None, [], [])

  const STATUS_CHANGED := "careers.requisition_status_changed"

  function StatusHash(digest: string -> string, s: Status): Option<string> {
    HashState(digest, Quote, Some([("status", StatusName(s))]))
  }

  function EventOf(digest: string -> string, c: Change): LogEvent {
    match c
    case Created(actor, id, slug, title, status) =>
      LogEvent(actor, "careers.requisition_created", "career_job:" + id, None, None,
               HashState(digest, Quote, Some([("slug", slug), ("title", title), ("status", StatusName(status))])))
    case Updated(actor, id, titleBefore, titleAfter, status) =>
      LogEvent(actor, "careers.requisition_updated", "career_job:" + id, None,
               HashState(digest, Quote, Some([("title", titleBefore), ("status", StatusName(status))])),
               HashState(digest, Quote, Some([("title", titleAfter), ("status", StatusName(status))])))
    case Moved(actor, id, from, to, reason) =>
      LogEvent(actor, STATUS_CHANGED, "career_job:" + id, reason, StatusHash(digest, from), StatusHash(digest, to))
  }

  /** How a change becomes a row of the audit trail. */
  type Writer = Change -> LogEvent

  function Hashed(digest: string -> string): Writer {
    (c: Change) => EventOf(digest, c)
  }

  function Record(w: Writer, s: State, c: Change, stored: bool): State {
    s.(log := s.log + (if stored then [w(c)] else []), attempts := s.attempts + [Attempt(c, stored)])
  }

  predicate SlugTaken(rows: seq<Job>, slug: string) {
    exists i :: 0 <= i < |rows| && rows[i].slug == slug
  }

  predicate HasId(rows: seq<Job>, id: string) {
    exists i :: 0 <= i < |rows| && rows[i].id == id
  }

  function IndexOf(rows: seq<Job>, id: string): (r: nat)
    requires HasId(rows, id)
    ensures r < |rows| && rows[r].id == id
  {
    if rows[0].id == id then 0
    else (
      assert HasId(rows[1..], id) by {
        var i :| 0 <= i < |rows| && rows[i].id == id;
        assert rows[1..][i - 1].id == id;
      }
      1 + IndexOf(rows[1..], id)
    )
  }

  // ----- operations -----

  datatype NewJob = NewJob(
    slug: string, title: string, hiringOrg: string, team: string, employmentType: EmploymentType,
    workModel: WorkModel, jobLocations: string, applyUrl: string, applicantLocationRules: Option<string>,
    compensationState: CompensationState, compensationMin: Option<int>, compensationMax: Option<int>,
    compensationCurrency: Option<string>, featured: bool, description: string, validThrough: Option<int>)

  function DraftRow(n: NewJob, id: string, actor: string, postedAt: int, verifiedAt: int): Job {
    Job(id, n.slug, Draft, n.title, n.hiringOrg, n.team, n.employmentType, n.workModel, n.jobLocations,
        n.applicantLocationRules, postedAt, n.validThrough, n.compensationState, n.compensationMin,
        n.compensationMax, n.compensationCurrency, n.featured, n.applyUrl, n.description, verifiedAt, actor)
  }

  function CreateError(rows: seq<Job>, n: NewJob, id: string): Option<CareersError> {
    if Blank(n.slug) then Some(BlankSlug)
    else if SlugTaken(rows, n.slug) then Some(SlugInUse(n.slug))
    else if RemoteGeographyError(Some(n.workModel), Some(n.jobLocations)).Some?
    then RemoteGeographyError(Some(n.workModel), Some(n.jobLocations))
    else if HasId(rows, id) then Some(IntegrityError)
    else None
  }

  function AfterCreate(w: Writer, s: State, n: NewJob, id: string, actor: string,
                       postedAt: int, verifiedAt: int, stored: bool): State {
    if CreateError(s.rows, n, id).Some? then s
    else Record(w, s.(rows := s.rows + [DraftRow(n, id, actor, postedAt, verifiedAt)]),
                Created(actor, id, n.slug, n.title, Draft), stored)
  }

  function AfterUpdate(w: Writer, s: State, id: string, fields: seq<Field>, actor: string,
                       now: int, stored: bool): State {
    if !HasId(s.rows, id) then s
    else
      var i := IndexOf(s.rows, id);
      if UpdateError(s.rows[i], fields).Some? then s
      else
        var job := ApplyFields(s.rows[i], fields).(lastVerifiedAt := now);
        Record(w, s.(rows := s.rows[i := job], cache := None),
               Updated(actor, id, s.rows[i].title, job.title, job.status), stored)
  }

  function AfterTransition(w: Writer, s: State, id: string, to: Status, actor: string,
                           reason: Option<string>, now: int, stored: bool): State {
    if !HasId(s.rows, id) then s
    else
      var i := IndexOf(s.rows, id);
      if to !in NextStatuses(s.rows[i].status) then s
      else Record(w, s.(rows := s.rows[i := s.rows[i].(status := to, lastVerifiedAt := now)], cache := None),
                  Moved(actor, id, s.rows[i].status, to, reason), stored)
  }

  predicate Live(cache: Option<CacheEntry>, now: int) {
    cache.Some? && now < cache.value.expiresAt
  }

  /** The dataset every public endpoint starts from. */
  function Loaded(s: State, now: int): seq<PublicJob> {
    if Live(s.cache, now) then s.cache.value.jobs else Projection(s.rows)
  }

  function AfterLoad(s: State, now: int): State {
    if Live(s.cache, now) then s
    else s.(cache := Some(CacheEntry(Projection(s.rows), now + PUBLIC_JOBS_CACHE_TTL_SECONDS)))
  }

  // ----- runs -----

  datatype Op =
    | Create(draft: NewJob, id: string, actor: string, postedAt: int, verifiedAt: int, stored: bool)
    | Update(id: string, fields: seq<Field>, actor: string, now: int, stored: bool)
    | Transition(id: string, to: Status, actor: string, reason: Option<string>, now: int, stored: bool)
    | Read(now: int)

  function Step(w: Writer, s: State, op: Op): State {
    match op
    case Create(n, id, actor, postedAt, verifiedAt, stored) => AfterCreate(w, s, n, id, actor, postedAt, verifiedAt, stored)
    case Update(id, fields, actor, now, stored) => AfterUpdate(w, s, id, fields, actor, now, stored)
    case Transition(id, to, actor, reason, now, stored) => AfterTransition(w, s, id, to, actor, reason, now, stored)
    case Read(now) => AfterLoad(s, now)
  }

  function Run(w: Writer, s: State, ops: seq<Op>): State
    decreases |ops|
  {
    if ops == [] then s else Run(w, Step(w, s, ops[0]), ops[1..])
  }

  // ----- what updates keep -----

  lemma {:induction false} FieldsKeepIdentity(job: Job, fields: seq<Field>)
    ensures var j := ApplyFields(job, fields);
            j.id == job.id && j.slug == job.slug && j.status == job.status
            && j.datePosted == job.datePosted && j.createdBy == job.createdBy
  {
    if fields != [] {
      FieldsKeepIdentity(job, fields[..|fields| - 1]);
    }
  }

  /** Other keywords cannot touch a row's work model or its locations. */
  lemma {:induction false} FieldsSetGeography(job: Job, fields: seq<Field>)
    requires DistinctKeywords(fields)
    ensures var j := ApplyFields(job, fields);
            var w := GetWorkModel(fields, Some(job.workModel));
            var l := GetJobLocations(fields, Some(job.jobLocations));
            j.workModel == (if w.Some? then w.value else job.workModel)
            && j.jobLocations == (if l.Some? then l.value else job.jobLocations)
  {
    if fields != [] {
      var rest, last := fields[..|fields| - 1], fields[|fields| - 1];
      FieldsSetGeography(job, rest);
      if last.SetWorkModel? { NoWorkModelKeyword(rest, Some(job.workModel)); }
      if last.SetJobLocations? { NoLocationsKeyword(rest, Some(job.jobLocations)); }
    }
  }

  lemma {:induction false} NoWorkModelKeyword(fields: seq<Field>, stored: Option<WorkModel>)
    requires forall i :: 0 <= i < |fields| ==> !fields[i].SetWorkModel?
    ensures GetWorkModel(fields, stored) == stored
  {
    if fields != [] {
      NoWorkModelKeyword(fields[..|fields| - 1], stored);
    }
  }

  lemma {:induction false} NoLocationsKeyword(fields: seq<Field>, stored: Option<string>)
    requires forall i :: 0 <= i < |fields| ==> !fields[i].SetJobLocations?
    ensures GetJobLocations(fields, stored) == stored
  {
    if fields != [] {
      NoLocationsKeyword(fields[..|fields| - 1], stored);
    }
  }

  // ----- the invariant -----

  ghost predicate UniqueRows(rows: seq<Job>) {
    && (forall i, j :: 0 <= i < j < |rows| ==> rows[i].id != rows[j].id)
    && (forall i, j :: 0 <= i < j < |rows| ==> rows[i].slug != rows[j].slug)
  }

  /** The cached projection is the projection of the current rows. */
  ghost predicate Coherent(s: State) {
    s.cache.Some? ==> s.cache.value.jobs == Projection(s.rows)
  }

  /** The status changes of one requisition, in order. */
  function MovesOf(attempts: seq<Attempt>, id: string): seq<(Status, Status)> {
    if attempts == [] then []
    else MovesOf(attempts[..|attempts| - 1], id) + MoveIn(attempts[|attempts| - 1].change, id)
  }

  function MoveIn(c: Change, id: string): seq<(Status, Status)> {
    if c.Moved? && c.id == id then [(c.from, c.to)] else []
  }

  /** A walk through the lifecycle table from DRAFT. */
  ghost predicate Walk(moves: seq<(Status, Status)>, to: Status) {
    if moves == [] then to == Draft
    else
      var last := moves[|moves| - 1];
      last.1 == to && to in NextStatuses(last.0) && Walk(moves[..|moves| - 1], last.0)
  }

  ghost predicate Walked(rows: seq<Job>, attempts: seq<Attempt>) {
    && (forall i :: 0 <= i < |rows| ==> Walk(MovesOf(attempts, rows[i].id), rows[i].status))
    && (forall id :: !HasId(rows, id) ==> MovesOf(attempts, id) == [])
  }

  function Stored(): Attempt -> bool {
    (a: Attempt) => a.stored
  }

  function Written(w: Writer): Attempt -> LogEvent {
    (a: Attempt) => w(a.change)
  }

  /** The log holds exactly the events of the writes that did not fail, in order. */
  ghost predicate Logged(w: Writer, s: State) {
    s.log == Map(Written(w), Filter(Stored(), s.attempts))
  }

  ghost predicate Inv(w: Writer, s: State) {
    UniqueRows(s.rows) && Coherent(s) && Walked(s.rows, s.attempts) && Logged(w, s)
  }

  lemma MovesAppend(attempts: seq<Attempt>, a: Attempt, id: string)
    ensures MovesOf(attempts + [a], id) == MovesOf(attempts, id) + MoveIn(a.change, id)
  {
    assert (attempts + [a])[..|attempts|] == attempts;
  }

  lemma RecordKeepsLogged(w: Writer, s: State, c: Change, stored: bool)
    requires Logged(w, s)
    ensures Logged(w, Record(w, s, c, stored))
  {
    FilterConcat(Stored(), s.attempts, [Attempt(c, stored)]);
    MapConcat(Written(w), Filter(Stored(), s.attempts), Filter(Stored(), [Attempt(c, stored)]));
  }

  /** Creating and editing add no status change. */
  lemma QuietChangeKeepsWalks(rows: seq<Job>, rows': seq<Job>, attempts: seq<Attempt>, a: Attempt)
    requires Walked(rows, attempts) && !a.change.Moved? && |rows| <= |rows'|
    requires forall i :: 0 <= i < |rows| ==> rows'[i].id == rows[i].id && rows'[i].status == rows[i].status
    requires forall i :: |rows| <= i < |rows'| ==> rows'[i].status == Draft && !HasId(rows, rows'[i].id)
    ensures Walked(rows', attempts + [a])
  {
    forall x ensures MovesOf(attempts + [a], x) == MovesOf(attempts, x) {
      MovesAppend(attempts, a, x);
    }
    forall x | HasId(rows, x) ensures HasId(rows', x) {
      assert rows'[IndexOf(rows, x)].id == x;
    }
  }

  lemma WalkOneMore(moves: seq<(Status, Status)>, from: Status, to: Status)
    requires Walk(moves, from)
    ensures Walk(moves + [(from, to)], to) <==> to in NextStatuses(from)
  {
    assert (moves + [(from, to)])[..|moves|] == moves;
  }

  /** A move is the last of its own row's walk, and is in no other row's. */
  lemma MoveInWalk(attempts: seq<Attempt>, a: Attempt, id: string)
    requires a.change.Moved?
    ensures MovesOf(attempts + [a], id) ==
            if a.change.id == id then MovesOf(attempts, id) + [(a.change.from, a.change.to)] else MovesOf(attempts, id)
  {
    MovesAppend(attempts, a, id);
  }

  lemma MoveKeepsWalks(rows: seq<Job>, i: nat, job: Job, attempts: seq<Attempt>, a: Attempt)
    requires Walked(rows, attempts) && UniqueRows(rows) && i < |rows| && job.id == rows[i].id
    requires a.change.Moved? && a.change.id == job.id && a.change.from == rows[i].status && a.change.to == job.status
    requires job.status in NextStatuses(rows[i].status)
    ensures Walked(rows[i := job], attempts + [a])
  {
    var rows' := rows[i := job];
    forall k | 0 <= k < |rows'| ensures Walk(MovesOf(attempts + [a], rows'[k].id), rows'[k].status) {
      MoveInWalk(attempts, a, rows'[k].id);
      if k == i {
        WalkOneMore(MovesOf(attempts, job.id), rows[i].status, job.status);
      } else {
        assert rows'[k] == rows[k] && rows[k].id != job.id;
      }
    }
    forall x | !HasId(rows', x) ensures MovesOf(attempts + [a], x) == [] {
      NotAddedByReplacing(rows, i, job, x);
      MoveInWalk(attempts, a, x);
    }
  }

  lemma NotAddedByReplacing(rows: seq<Job>, i: nat, job: Job, x: string)
    requires i < |rows| && job.id == rows[i].id && !HasId(rows[i := job], x)
    ensures !HasId(rows, x) && x != job.id
  {
    var rows' := rows[i := job];
    assert forall k :: 0 <= k < |rows| ==> rows[k].id == rows'[k].id;
    assert rows'[i].id == job.id;
  }

  lemma NewRowKeepsUnique(rows: seq<Job>, row: Job)
    requires UniqueRows(rows) && !SlugTaken(rows, row.slug) && !HasId(rows, row.id)
    ensures UniqueRows(rows + [row])
  {
  }

  lemma SameIdentityKeepsUnique(rows: seq<Job>, i: nat, job: Job)
    requires UniqueRows(rows) && i < |rows| && job.id == rows[i].id && job.slug == rows[i].slug
    ensures UniqueRows(rows[i := job])
  {
  }

  lemma CreateKeepsInv(w: Writer, s: State, n: NewJob, id: string, actor: string,
                       postedAt: int, verifiedAt: int, stored: bool)
    requires Inv(w, s)
    ensures Inv(w, AfterCreate(w, s, n, id, actor, postedAt, verifiedAt, stored))
  {
    if CreateError(s.rows, n, id).None? {
      var row := DraftRow(n, id, actor, postedAt, verifiedAt);
      var c := Created(actor, id, n.slug, n.title, Draft);
      NewRowKeepsUnique(s.rows, row);
      HiddenRowChangesNothing(s.rows, row);
      RecordKeepsLogged(w, s.(rows := s.rows + [row]), c, stored);
      QuietChangeKeepsWalks(s.rows, s.rows + [row], s.attempts, Attempt(c, stored));
    }
  }

  lemma UpdateKeepsInv(w: Writer, s: State, id: string, fields: seq<Field>, actor: string, now: int, stored: bool)
    requires Inv(w, s)
    ensures Inv(w, AfterUpdate(w, s, id, fields, actor, now, stored))
  {
    if HasId(s.rows, id) {
      var i := IndexOf(s.rows, id);
      if UpdateError(s.rows[i], fields).None? {
        FieldsKeepIdentity(s.rows[i], fields);
        var job := ApplyFields(s.rows[i], fields).(lastVerifiedAt := now);
        var c := Updated(actor, id, s.rows[i].title, job.title, job.status);
        SameIdentityKeepsUnique(s.rows, i, job);
        RecordKeepsLogged(w, s.(rows := s.rows[i := job], cache := None), c, stored);
        QuietChangeKeepsWalks(s.rows, s.rows[i := job], s.attempts, Attempt(c, stored));
      }
    }
  }

  lemma TransitionKeepsInv(w: Writer, s: State, id: string, to: Status, actor: string,
                           reason: Option<string>, now: int, stored: bool)
    requires Inv(w, s)
    ensures Inv(w, AfterTransition(w, s, id, to, actor, reason, now, stored))
  {
    if HasId(s.rows, id) {
      var i := IndexOf(s.rows, id);
      if to in NextStatuses(s.rows[i].status) {
        var job := s.rows[i].(status := to, lastVerifiedAt := now);
        var c := Moved(actor, id, s.rows[i].status, to, reason);
        SameIdentityKeepsUnique(s.rows, i, job);
        RecordKeepsLogged(w, s.(rows := s.rows[i := job], cache := None), c, stored);
        MoveKeepsWalks(s.rows, i, job, s.attempts, Attempt(c, stored));
      }
    }
  }

  lemma StepKeepsInv(w: Writer, s: State, op: Op)
    requires Inv(w, s)
    ensures Inv(w, Step(w, s, op))
  {
    match op
    case Create(n, id, actor, postedAt, verifiedAt, stored) => CreateKeepsInv(w, s, n, id, actor, postedAt, verifiedAt, stored);
    case Update(id, fields, actor, now, stored) => UpdateKeepsInv(w, s, id, fields, actor, now, stored);
    case Transition(id, to, actor, reason, now, stored) => TransitionKeepsInv(w, s, id, to, actor, reason, now, stored);
    case Read(now) =>
  }

  lemma {:induction false} RunKeepsInv(w: Writer, s: State, ops: seq<Op>)
    requires Inv(w, s)
    ensures Inv(w, Run(w, s, ops))
    decreases |ops|
  {
    if ops != [] {
      StepKeepsInv(w, s, ops[0]);
      RunKeepsInv(w, Step(w, s, ops[0]), ops[1..]);
    }
  }

  lemma ReachableInv(w: Writer, ops: seq<Op>)
    ensures Inv(w, Run(w, EMPTY, ops))
  {
    RunKeepsInv(w, EMPTY, ops);
  }

  // ----- cache coherence -----

  /** After any run, a cached entry, live or not, is the projection of the current
      rows, so the cached read answers as an uncached one would. */
  lemma CachedReadIsUncachedRead(w: Writer, ops: seq<Op>, now: int)
    ensures var s := Run(w, EMPTY, ops);
            && (s.cache.Some? ==> s.cache.value.jobs == Projection(s.rows))
            && Loaded(s, now) == Projection(s.rows)
            && AfterLoad(s, now).cache.value.jobs == Projection(s.rows)
  {
    ReachableInv(w, ops);
  }

  /** From a cold cache the public answers depend only on the redacted OPEN rows. */
  lemma PublicSurfaceIsNonInterfering(s: State, t: State, now: int, later: int, lower: string -> string,
                                      query: Query, page: int, pageSize: int, sort: string, key: string)
    requires s.cache.None? && t.cache.None?
    requires Map(Redact, Filter(IsOpen, s.rows)) == Map(Redact, Filter(IsOpen, t.rows))
    ensures ListRoute(lower, Loaded(s, now), query, page, pageSize, sort) ==
            ListRoute(lower, Loaded(t, later), query, page, pageSize, sort)
    ensures Lookup(Loaded(s, now), key) == Lookup(Loaded(t, later), key)
    ensures ListPublicFilters(Loaded(s, now)) == ListPublicFilters(Loaded(t, later))
  {
    ProjectionRevealsExactly(s.rows, t.rows);
  }

  /** In every run, each listed job is found under its own id and its own slug exactly
      when no job listed before it has an id spelled like its slug or a slug spelled
      like its id. */
  lemma ListedJobIsFoundByName(w: Writer, ops: seq<Op>, now: int, k: nat)
    requires k < |Loaded(Run(w, EMPTY, ops), now)|
    ensures var jobs := Loaded(Run(w, EMPTY, ops), now);
            && DistinctNames(jobs)
            && (Lookup(jobs, jobs[k].jobId) == Some(jobs[k]) && Lookup(jobs, jobs[k].slug) == Some(jobs[k]) <==>
                  forall i :: 0 <= i < k ==> jobs[i].slug != jobs[k].jobId && jobs[i].jobId != jobs[k].slug)
  {
    ReachableInv(w, ops);
    var rows := Run(w, EMPTY, ops).rows;
    ProjectionHasDistinctNames(rows);
    JobIsFoundByName(Projection(rows), k);
  }

  // ----- lifecycle -----

  function Rank(s: Status): nat {
    match s
    case Draft => 3
    case Approved => 2
    case Open => 1
    case Paused => 1
    case _ => 0
  }

  predicate Terminal(s: Status) {
    s == Filled || s == Closed || s == Canceled
  }

  /** Status changes other than OPEN to PAUSED and back. */
  function Progress(moves: seq<(Status, Status)>): nat {
    if moves == [] then 0
    else
      var last := moves[|moves| - 1];
      Progress(moves[..|moves| - 1]) + if last == (Open, Paused) || last == (Paused, Open) then 0 else 1
  }

  lemma {:induction false} WalkSpendsRank(moves: seq<(Status, Status)>, to: Status)
    requires Walk(moves, to)
    ensures Progress(moves) + Rank(to) <= 3
  {
    if moves != [] {
      WalkSpendsRank(moves[..|moves| - 1], moves[|moves| - 1].0);
    }
  }

  lemma {:induction false} WalkPassesApproval(moves: seq<(Status, Status)>, to: Status)
    requires Walk(moves, to) && to !in {Draft, Canceled}
    ensures exists i :: 0 <= i < |moves| && moves[i].1 == Approved
  {
    var last := moves[|moves| - 1];
    if to != Approved {
      WalkPassesApproval(moves[..|moves| - 1], last.0);
      var i :| 0 <= i < |moves| - 1 && moves[..|moves| - 1][i].1 == Approved;
      assert moves[i].1 == Approved;
    }
  }

  lemma {:induction false} WalkIsChained(moves: seq<(Status, Status)>, to: Status)
    requires Walk(moves, to)
    ensures forall i :: 0 <= i < |moves| - 1 ==> moves[i].1 == moves[i + 1].0
    ensures moves != [] ==> moves[0].0 == Draft && moves[|moves| - 1].1 == to
  {
    if moves != [] {
      var rest := moves[..|moves| - 1];
      WalkIsChained(rest, moves[|moves| - 1].0);
      forall i | 0 <= i < |moves| - 1 ensures moves[i].1 == moves[i + 1].0 {
        assert moves[i] == rest[i];
        if i + 1 < |rest| { assert moves[i + 1] == rest[i + 1]; }
      }
    }
  }

  /** In every run, a requisition's status changes form a walk from DRAFT to its
      status: at most three of them are not OPEN/PAUSED flips, and a requisition the
      public can see was approved before. Ids and slugs stay unique. */
  lemma LifecycleOfEveryRun(w: Writer, ops: seq<Op>, i: nat)
    requires i < |Run(w, EMPTY, ops).rows|
    ensures var s := Run(w, EMPTY, ops);
            var moves := MovesOf(s.attempts, s.rows[i].id);
            && UniqueRows(s.rows)
            && Walk(moves, s.rows[i].status)
            && Progress(moves) + Rank(s.rows[i].status) <= 3
            && (Serialize(s.rows[i]) in Projection(s.rows) ==> exists k :: 0 <= k < |moves| && moves[k].1 == Approved)
  {
    ReachableInv(w, ops);
    var s := Run(w, EMPTY, ops);
    var moves := MovesOf(s.attempts, s.rows[i].id);
    WalkSpendsRank(moves, s.rows[i].status);
    if Serialize(s.rows[i]) in Projection(s.rows) {
      var j := ProjectedJobIsOpenRow(s.rows, Serialize(s.rows[i]));
      SerializedRowDeterminesNames(s.rows[i], j);
      WalkPassesApproval(moves, s.rows[i].status);
    }
  }

  /** Rows are never removed or reordered, and what a row is never changes. */
  ghost predicate Ages(s: State, t: State) {
    && |s.rows| <= |t.rows|
    && forall i :: 0 <= i < |s.rows| ==>
         && t.rows[i].id == s.rows[i].id && t.rows[i].slug == s.rows[i].slug
         && t.rows[i].datePosted == s.rows[i].datePosted && t.rows[i].createdBy == s.rows[i].createdBy
         && Rank(t.rows[i].status) <= Rank(s.rows[i].status)
         && (Terminal(s.rows[i].status) ==> t.rows[i].status == s.rows[i].status)
  }

  lemma TransitionSpendsRank(from: Status, to: Status)
    ensures to in NextStatuses(from) ==> !Terminal(from) && Rank(to) <= Rank(from)
    ensures to in NextStatuses(from) && Rank(to) == Rank(from) ==> (from, to) in {(Open, Paused), (Paused, Open)}
  {
  }

  lemma StepAges(w: Writer, s: State, op: Op)
    ensures Ages(s, Step(w, s, op))
  {
    if op.Update? && HasId(s.rows, op.id) {
      FieldsKeepIdentity(s.rows[IndexOf(s.rows, op.id)], op.fields);
    }
    if op.Transition? && HasId(s.rows, op.id) {
      TransitionSpendsRank(s.rows[IndexOf(s.rows, op.id)].status, op.to);
    }
  }

  /** From any state on: date posted and slug are fixed, the rank never rises, and a
      FILLED, CLOSED or CANCELED requisition stays so. */
  lemma {:induction false} RunAges(w: Writer, s: State, ops: seq<Op>)
    ensures Ages(s, Run(w, s, ops))
    decreases |ops|
  {
    if ops != [] {
      StepAges(w, s, ops[0]);
      RunAges(w, Step(w, s, ops[0]), ops[1..]);
    }
  }

  /** A requisition that ended is never public again. */
  lemma EndedIsNeverPublicAgain(w: Writer, ops: seq<Op>, more: seq<Op>, i: nat, now: int)
    requires var s := Run(w, EMPTY, ops); i < |s.rows| && Terminal(s.rows[i].status)
    ensures var s := Run(w, EMPTY, ops);
            var t := Run(w, s, more);
            forall p :: p in Loaded(t, now) ==> p.jobId != s.rows[i].id && p.slug != s.rows[i].slug
  {
    var s := Run(w, EMPTY, ops);
    var t := Run(w, s, more);
    ReachableInv(w, ops);
    RunKeepsInv(w, s, more);
    RunAges(w, s, more);
    forall p | p in Loaded(t, now) ensures p.jobId != s.rows[i].id && p.slug != s.rows[i].slug {
      var j := ProjectedJobIsOpenRow(t.rows, p);
      var k :| 0 <= k < |t.rows| && t.rows[k] == j;
      assert k != i;
    }
  }

  // ----- remote roles -----

  predicate RemoteOk(job: Job) {
    job.workModel == Remote ==> !Blank(job.jobLocations)
  }

  /** A caller passes work_model=None for a stored REMOTE role together with blank locations. */
  predicate BlanksRemote(job: Job, fields: seq<Field>) {
    && job.workModel == Remote
    && GetWorkModel(fields, Some(Remote)).None?
    && GetJobLocations(fields, Some(job.jobLocations)).Some?
    && Blank(GetJobLocations(fields, Some(job.jobLocations)).value)
  }

  /** An accepted update keeps the geography rule exactly when it is not of that kind. */
  lemma UpdateKeepsRemoteRule(job: Job, fields: seq<Field>)
    requires DistinctKeywords(fields) && RemoteOk(job) && UpdateError(job, fields).None?
    ensures RemoteOk(ApplyFields(job, fields)) <==> !BlanksRemote(job, fields)
  {
    FieldsSetGeography(job, fields);
  }

  ghost predicate KeywordsAreDistinct(ops: seq<Op>) {
    forall i :: 0 <= i < |ops| && ops[i].Update? ==> DistinctKeywords(ops[i].fields)
  }

  /** No update of the run is of the kind that blanks a REMOTE row. */
  ghost predicate NeverBlanks(w: Writer, s: State, ops: seq<Op>)
    decreases |ops|
  {
    ops != [] ==>
      && (ops[0].Update? && HasId(s.rows, ops[0].id) ==>
            !BlanksRemote(s.rows[IndexOf(s.rows, ops[0].id)], ops[0].fields))
      && NeverBlanks(w, Step(w, s, ops[0]), ops[1..])
  }

  ghost predicate AllRemoteOk(rows: seq<Job>) {
    forall i :: 0 <= i < |rows| ==> RemoteOk(rows[i])
  }

  /** Every state of the run satisfies the rule. */
  ghost predicate AlwaysRemoteOk(w: Writer, s: State, ops: seq<Op>)
    decreases |ops|
  {
    AllRemoteOk(s.rows) && (ops != [] ==> AlwaysRemoteOk(w, Step(w, s, ops[0]), ops[1..]))
  }

  lemma StepKeepsRemoteRule(w: Writer, s: State, op: Op)
    requires AllRemoteOk(s.rows) && (op.Update? ==> DistinctKeywords(op.fields))
    ensures AllRemoteOk(Step(w, s, op).rows) <==>
            (op.Update? && HasId(s.rows, op.id) ==> !BlanksRemote(s.rows[IndexOf(s.rows, op.id)], op.fields))
  {
    if op.Update? && HasId(s.rows, op.id) {
      var i := IndexOf(s.rows, op.id);
      var t := Step(w, s, op);
      assert BlanksRemote(s.rows[i], op.fields) ==> UpdateError(s.rows[i], op.fields).None?;
      if UpdateError(s.rows[i], op.fields).None? {
        UpdateKeepsRemoteRule(s.rows[i], op.fields);
        assert t.rows[i] == ApplyFields(s.rows[i], op.fields).(lastVerifiedAt := op.now);
        assert RemoteOk(t.rows[i]) <==> RemoteOk(ApplyFields(s.rows[i], op.fields));
      }
    }
  }

  /** A run keeps the rule in all its states exactly when it has no such update. */
  lemma {:induction false} RunKeepsRemoteRule(w: Writer, s: State, ops: seq<Op>)
    requires AllRemoteOk(s.rows) && KeywordsAreDistinct(ops)
    ensures AlwaysRemoteOk(w, s, ops) <==> NeverBlanks(w, s, ops)
    decreases |ops|
  {
    if ops != [] {
      StepKeepsRemoteRule(w, s, ops[0]);
      if AllRemoteOk(Step(w, s, ops[0]).rows) {
        RunKeepsRemoteRule(w, Step(w, s, ops[0]), ops[1..]);
      }
    }
  }

  /** The body of the update route: a field left out arrives as None. */
  datatype UpdateRequest = UpdateRequest(
    title: Option<string>, hiringOrg: Option<string>, team: Option<string>, employmentType: Option<EmploymentType>,
    workModel: Option<WorkModel>, jobLocations: Option<string>, applicantLocationRules: Option<string>,
    applyUrl: Option<string>, compensationState: Option<CompensationState>, compensationMin: Option<int>,
    compensationMax: Option<int>, compensationCurrency: Option<string>, featured: Option<bool>,
    description: Option<string>, validThrough: Option<int>)

  /** `payload.model_dump()` passes every key. */
  function RouteFields(r: UpdateRequest): seq<Field> {
    [ SetTitle(r.title), SetHiringOrg(r.hiringOrg), SetTeam(r.team), SetEmploymentType(r.employmentType),
      SetWorkModel(r.workModel), SetJobLocations(r.jobLocations), SetApplicantLocationRules(r.applicantLocationRules),
      SetApplyUrl(r.applyUrl), SetCompensationState(r.compensationState), SetCompensationMin(r.compensationMin),
      SetCompensationMax(r.compensationMax), SetCompensationCurrency(r.compensationCurrency),
      SetFeatured(r.featured), SetDescription(r.description), SetValidThrough(r.validThrough) ]
  }

  lemma RouteKeywords(r: UpdateRequest, w: Option<WorkModel>, l: Option<string>)
    ensures DistinctKeywords(RouteFields(r))
    ensures GetWorkModel(RouteFields(r), w) == r.workModel
    ensures GetJobLocations(RouteFields(r), l) == r.jobLocations
  {
    var f := RouteFields(r);
    WorkModelBefore(f, 15, 5, w);
    LocationsBefore(f, 15, 6, l);
    assert f[..15] == f;
  }

  lemma {:induction false} WorkModelBefore(fields: seq<Field>, n: nat, k: nat, w: Option<WorkModel>)
    requires 0 < k <= n <= |fields| && fields[k - 1].SetWorkModel?
    requires forall i :: k <= i < n ==> !fields[i].SetWorkModel?
    ensures GetWorkModel(fields[..n], w) == fields[k - 1].workModel
  {
    if n > k {
      WorkModelBefore(fields, n - 1, k, w);
      assert fields[..n][..n - 1] == fields[..n - 1];
    }
  }

  lemma {:induction false} LocationsBefore(fields: seq<Field>, n: nat, k: nat, l: Option<string>)
    requires 0 < k <= n <= |fields| && fields[k - 1].SetJobLocations?
    requires forall i :: k <= i < n ==> !fields[i].SetJobLocations?
    ensures GetJobLocations(fields[..n], l) == fields[k - 1].jobLocations
  {
    if n > k {
      LocationsBefore(fields, n - 1, k, l);
      assert fields[..n][..n - 1] == fields[..n - 1];
    }
  }

  /** Through the route, a request is accepted and leaves the rule broken exactly when the
      row is REMOTE, the request omits the work model, and the locations it leaves are
      blank; for a row that kept the rule, when it sets blank locations. */
  lemma RouteBreaksRemoteRule(job: Job, r: UpdateRequest)
    ensures var breaks := UpdateError(job, RouteFields(r)).None? && !RemoteOk(ApplyFields(job, RouteFields(r)));
            && (breaks <==> job.workModel == Remote && r.workModel.None?
                            && Blank(if r.jobLocations.Some? then r.jobLocations.value else job.jobLocations))
            && (RemoteOk(job) ==>
                  (breaks <==> job.workModel == Remote && r.workModel.None? && r.jobLocations.Some? && Blank(r.jobLocations.value)))
  {
    RouteKeywords(r, Some(job.workModel), Some(job.jobLocations));
    FieldsSetGeography(job, RouteFields(r));
  }

  /** The requests that crash are exactly those that make a role REMOTE without
      restating its locations. */
  lemma RouteCannotInferLocations(job: Job, r: UpdateRequest)
    ensures UpdateError(job, RouteFields(r)) == Some(AttributeError) <==>
            r.workModel == Some(Remote) && r.jobLocations.None?
  {
    RouteKeywords(r, Some(job.workModel), Some(job.jobLocations));
  }

  // ----- the status trail -----

  predicate IsStatusEvent(e: LogEvent, id: string) {
    e.action == STATUS_CHANGED && e.target == "career_job:" + id
  }

  function StatusEvents(log: seq<LogEvent>, id: string): seq<LogEvent> {
    if log == [] then []
    else StatusEvents(log[..|log| - 1], id) + if IsStatusEvent(log[|log| - 1], id) then [log[|log| - 1]] else []
  }

  /** The moves whose audit write succeeded. */
  function StoredMovesOf(attempts: seq<Attempt>, id: string): seq<(Status, Status)> {
    if attempts == [] then []
    else
      var last := attempts[|attempts| - 1];
      StoredMovesOf(attempts[..|attempts| - 1], id) + if last.stored then MoveIn(last.change, id) else []
  }

  ghost predicate Renders(digest: string -> string, events: seq<LogEvent>, moves: seq<(Status, Status)>) {
    && |events| == |moves|
    && forall i :: 0 <= i < |events| ==>
         events[i].beforeHash == StatusHash(digest, moves[i].0) && events[i].afterHash == StatusHash(digest, moves[i].1)
  }

  lemma StatusEventIffMove(digest: string -> string, c: Change, id: string)
    ensures IsStatusEvent(EventOf(digest, c), id) <==> c.Moved? && c.id == id
  {
    if EventOf(digest, c).target == "career_job:" + id {
      CancelPrefix("career_job:", "career_job:", c.id, id);
    }
    assert |STATUS_CHANGED| != |"careers.requisition_created"| && |STATUS_CHANGED| != |"careers.requisition_updated"|;
  }

  lemma WrittenAppend(w: Writer, attempts: seq<Attempt>, a: Attempt)
    ensures Map(Written(w), Filter(Stored(), attempts + [a])) ==
            Map(Written(w), Filter(Stored(), attempts)) + if a.stored then [w(a.change)] else []
  {
    FilterConcat(Stored(), attempts, [a]);
    MapConcat(Written(w), Filter(Stored(), attempts), Filter(Stored(), [a]));
  }

  lemma StatusEventsAppend(log: seq<LogEvent>, e: LogEvent, id: string)
    ensures StatusEvents(log + [e], id) == StatusEvents(log, id) + if IsStatusEvent(e, id) then [e] else []
  {
    assert (log + [e])[..|log|] == log;
  }

  lemma RendersAppend(digest: string -> string, events: seq<LogEvent>, moves: seq<(Status, Status)>,
                      e: LogEvent, m: (Status, Status))
    requires Renders(digest, events, moves)
    requires e.beforeHash == StatusHash(digest, m.0) && e.afterHash == StatusHash(digest, m.1)
    ensures Renders(digest, events + [e], moves + [m])
  {
  }

  ghost predicate RendersMoves(digest: string -> string, w: Writer, id: string) {
    forall c :: (IsStatusEvent(w(c), id) <==> c.Moved? && c.id == id)
                && (c.Moved? ==> w(c).beforeHash == StatusHash(digest, c.from) && w(c).afterHash == StatusHash(digest, c.to))
  }

  lemma {:induction false} LogRendersStoredMoves(digest: string -> string, w: Writer, attempts: seq<Attempt>, id: string)
    requires RendersMoves(digest, w, id)
    ensures Renders(digest, StatusEvents(Map(Written(w), Filter(Stored(), attempts)), id), StoredMovesOf(attempts, id))
  {
    if attempts != [] {
      var rest, last := attempts[..|attempts| - 1], attempts[|attempts| - 1];
      assert attempts == rest + [last];
      LogRendersStoredMoves(digest, w, rest, id);
      WrittenAppend(w, rest, last);
      var log, log' := Map(Written(w), Filter(Stored(), rest)), Map(Written(w), Filter(Stored(), attempts));
      if last.stored {
        assert log' == log + [w(last.change)];
        StatusEventsAppend(log, w(last.change), id);
        if last.change.Moved? && last.change.id == id {
          RendersAppend(digest, StatusEvents(log, id), StoredMovesOf(rest, id), w(last.change), (last.change.from, last.change.to));
          assert StoredMovesOf(attempts, id) == StoredMovesOf(rest, id) + [(last.change.from, last.change.to)];
        } else {
          assert StoredMovesOf(attempts, id) == StoredMovesOf(rest, id);
        }
      } else {
        assert log' == log;
        assert StoredMovesOf(attempts, id) == StoredMovesOf(rest, id);
      }
    }
  }

  /** a can be obtained from b by dropping elements. */
  ghost predicate Subsequence<T>(a: seq<T>, b: seq<T>) {
    if a == [] then true
    else if b == [] then false
    else Subsequence(a, b[..|b| - 1]) || (a[|a| - 1] == b[|b| - 1] && Subsequence(a[..|a| - 1], b[..|b| - 1]))
  }

  lemma SubsequenceAppend<T>(a: seq<T>, b: seq<T>, x: T)
    requires Subsequence(a, b)
    ensures Subsequence(a, b + [x]) && Subsequence(a + [x], b + [x])
  {
    assert (b + [x])[..|b|] == b && (a + [x])[..|a|] == a;
  }

  lemma {:induction false} StoredMovesAreSubsequence(attempts: seq<Attempt>, id: string)
    ensures Subsequence(StoredMovesOf(attempts, id), MovesOf(attempts, id))
    ensures (forall i :: 0 <= i < |attempts| ==> attempts[i].stored) ==> StoredMovesOf(attempts, id) == MovesOf(attempts, id)
  {
    if attempts != [] {
      var rest, last := attempts[..|attempts| - 1], attempts[|attempts| - 1];
      StoredMovesAreSubsequence(rest, id);
      var a, b := StoredMovesOf(rest, id), MovesOf(rest, id);
      if last.change.Moved? && last.change.id == id {
        SubsequenceAppend(a, b, (last.change.from, last.change.to));
        assert MovesOf(attempts, id) == b + [(last.change.from, last.change.to)];
        assert !last.stored ==> StoredMovesOf(attempts, id) == a;
      } else {
        assert MovesOf(attempts, id) == b && StoredMovesOf(attempts, id) == a;
      }
    }
  }

  /** In any run, whatever is interleaved, the status events of a requisition render a
      subsequence of its walk; with no failed audit write they render the whole walk,
      and then each event's before-hash is the previous event's after-hash. */
  lemma StatusTrailOfEveryRun(digest: string -> string, ops: seq<Op>, id: string)
    ensures var s := Run(Hashed(digest), EMPTY, ops);
            var trail := StatusEvents(s.log, id);
            && Renders(digest, trail, StoredMovesOf(s.attempts, id))
            && Subsequence(StoredMovesOf(s.attempts, id), MovesOf(s.attempts, id))
            && ((forall k :: 0 <= k < |s.attempts| ==> s.attempts[k].stored) ==>
                  && Renders(digest, trail, MovesOf(s.attempts, id))
                  && forall i :: 0 <= i < |trail| - 1 ==> trail[i].afterHash == trail[i + 1].beforeHash)
  {
    var s := Run(Hashed(digest), EMPTY, ops);
    ReachableInv(Hashed(digest), ops);
    forall c ensures IsStatusEvent(Hashed(digest)(c), id) <==> c.Moved? && c.id == id {
      StatusEventIffMove(digest, c, id);
    }
    LogRendersStoredMoves(digest, Hashed(digest), s.attempts, id);
    StoredMovesAreSubsequence(s.attempts, id);
    if HasId(s.rows, id) {
      WalkIsChained(MovesOf(s.attempts, id), s.rows[IndexOf(s.rows, id)].status);
    }
  }

  lemma LoneField(k: string, v: string)
    ensures k in AsMap([(k, v)]) && AsMap([(k, v)])[k] == v
  {
  }

  /** With an injective digest two events link exactly when the second change starts
      at the status where the first one ended. */
  lemma LinkMeansSameStatus(digest: string -> string, a: Status, b: Status)
    requires Injective(digest)
    ensures StatusHash(digest, a) == StatusHash(digest, b) <==> a == b
  {
    if a != b {
      var p, q := [("status", StatusName(a))], [("status", StatusName(b))];
      TextIsSelfDelimiting();
      HashIdentifiesState(digest, Quote, p, q);
      StatusNamesDiffer(a, b);
      LoneField("status", StatusName(a));
      LoneField("status", StatusName(b));
    }
  }

  // ----- the service -----

  class Service {
    const digest: string -> string
    var rows: seq<Job>
    var cache: Option<CacheEntry>
    var log: seq<LogEvent>
    ghost var attempts: seq<Attempt>

    ghost function Value(): State
      reads this
    {
      State(rows, cache, log, attempts)
    }

    constructor (digest: string -> string)
      ensures this.digest == digest && Value() == EMPTY
    {
      this.digest := digest;
      rows, cache, log, attempts := [], None, [], [];
    }

    method WriteAudit(c: Change, stored: bool)
      modifies this`log, this`attempts
      ensures Value() == Record(Hashed(digest), old(Value()), c, stored)
    {
      if stored {
        log := log + [EventOf(digest, c)];
      }
      attempts := attempts + [Attempt(c, stored)];
    }

    method CreateRequisition(n: NewJob, id: string, actor: string, postedAt: int, verifiedAt: int, stored: bool)
      returns (r: Result<Job, CareersError>)
      modifies this`rows, this`log, this`attempts
      ensures Value() == AfterCreate(Hashed(digest), old(Value()), n, id, actor, postedAt, verifiedAt, stored)
      ensures r == match CreateError(old(rows), n, id)
                   case Some(e) => Err(e)
                   case None => Ok(DraftRow(n, id, actor, postedAt, verifiedAt))
    {
      if Blank(n.slug) {
        return Err(BlankSlug);
      }
      if SlugTaken(rows, n.slug) {
        return Err(SlugInUse(n.slug));
      }
      var remote := RemoteGeographyError(Some(n.workModel), Some(n.jobLocations));
      if remote.Some? {
        return Err(remote.value);
      }
      if HasId(rows, id) {
        return Err(IntegrityError);
      }
      var job := DraftRow(n, id, actor, postedAt, verifiedAt);
      rows := rows + [job];
      WriteAudit(Created(actor, job.id, job.slug, job.title, job.status), stored);
      r := Ok(job);
    }

    method UpdateRequisition(id: string, fields: seq<Field>, actor: string, now: int, stored: bool)
      returns (r: Result<Job, CareersError>)
      modifies this
      ensures Value() == AfterUpdate(Hashed(digest), old(Value()), id, fields, actor, now, stored)
      ensures !HasId(old(rows), id) ==> r == Err(NoSuchJob(id))
      ensures HasId(old(rows), id) ==>
                match UpdateError(old(rows)[IndexOf(old(rows), id)], fields)
                case Some(e) => r == Err(e)
                case None => r == Ok(rows[IndexOf(old(rows), id)])
    {
      if !HasId(rows, id) {
        return Err(NoSuchJob(id));
      }
      var i := IndexOf(rows, id);
      var titleBefore := rows[i].title;
      var error := UpdateError(rows[i], fields);
      if error.Some? {
        return Err(error.value);
      }
      var k := 0;
      while k < |fields|
        invariant 0 <= k <= |fields|
        invariant rows == old(rows)[i := ApplyFields(old(rows)[i], fields[..k])]
        invariant cache == old(cache) && log == old(log) && attempts == old(attempts)
      {
        assert fields[..k + 1][..k] == fields[..k];
        rows := rows[i := SetField(rows[i], fields[k])];
        k := k + 1;
      }
      assert fields[..k] == fields;
      FieldsKeepIdentity(old(rows)[i], fields);
      rows := rows[i := rows[i].(lastVerifiedAt := now)];
      cache := None;
      var job := rows[i];
      WriteAudit(Updated(actor, job.id, titleBefore, job.title, job.status), stored);
      r := Ok(job);
    }

    method TransitionStatus(id: string, to: Status, actor: string, reason: Option<string>, now: int, stored: bool)
      returns (r: Result<Job, CareersError>)
      modifies this
      ensures Value() == AfterTransition(Hashed(digest), old(Value()), id, to, actor, reason, now, stored)
      ensures !HasId(old(rows), id) ==> r == Err(NoSuchJob(id))
      ensures HasId(old(rows), id) ==>
                var i := IndexOf(old(rows), id);
                var from := old(rows)[i].status;
                r == if to in NextStatuses(from) then Ok(rows[i]) else Err(InvalidTransition(from, to))
    {
      if !HasId(rows, id) {
        return Err(NoSuchJob(id));
      }
      var i := IndexOf(rows, id);
      var before := rows[i].status;
      if to !in NextStatuses(before) {
        return Err(InvalidTransition(before, to));
      }
      rows := rows[i := rows[i].(status := to)];
      rows := rows[i := rows[i].(lastVerifiedAt := now)];
      cache := None;
      WriteAudit(Moved(actor, id, before, to, reason), stored);
      r := Ok(rows[i]);
    }

    method LoadPublicJobs(now: int) returns (jobs: seq<PublicJob>)
      modifies this`cache
      ensures Value() == AfterLoad(old(Value()), now)
      ensures jobs == Loaded(old(Value()), now)
    {
      if Live(cache, now) {
        return cache.value.jobs;
      }
      jobs := Projection(rows);
      cache := Some(CacheEntry(jobs, now + PUBLIC_JOBS_CACHE_TTL_SECONDS));
    }

    method ListJobs(lower: string -> string, query: Query, page: int, pageSize: int, sort: string, now: int)
      returns (view: Page)
      modifies this`cache
      ensures Value() == AfterLoad(old(Value()), now)
      ensures view == ListRoute(lower, Loaded(old(Value()), now), query, page, pageSize, sort)
    {
      var jobs := LoadPublicJobs(now);
      view := ListPublicJobs(lower, jobs, query, ClampPage(page), ClampPageSize(pageSize), sort);
    }

    method GetJob(key: string, now: int) returns (r: Result<PublicJob, CareersError>)
      modifies this`cache
      ensures Value() == AfterLoad(old(Value()), now)
      ensures match Lookup(Loaded(old(Value()), now), key)
              case Some(job) => r == Ok(job)
              case None => r == Err(NoSuchJob(key))
    {
      var jobs := LoadPublicJobs(now);
      var i := 0;
      while i < |jobs|
        invariant 0 <= i <= |jobs|
        invariant Lookup(jobs, key) == Lookup(jobs[i..], key)
      {
        if Answers(jobs[i], key) {
          return Ok(jobs[i]);
        }
        assert jobs[i..][1..] == jobs[i + 1..];
        i := i + 1;
      }
      r := Err(NoSuchJob(key));
    }

    method GetFilters(now: int) returns (f: Filters)
      modifies this`cache
      ensures Value() == AfterLoad(old(Value()), now)
      ensures f == ListPublicFilters(Loaded(old(Value()), now))
    {
      var jobs := LoadPublicJobs(now);
      f := ListPublicFilters(jobs);
    }
  }
}
