/** The public surface of the careers module: the projection of the OPEN rows, and
    the list, detail and filter views computed from one loaded projection. */
module PublicJobs {
  import opened Seqs
  import opened CareersModel

  datatype Compensation = Compensation(minMinorUnits: Option<int>, maxMinorUnits: Option<int>, currency: Option<string>)

  datatype PublicJob = PublicJob(
    jobId: string,
    slug: string,
    status: string,
    title: string,
    hiringOrg: string,
    team: string,
    employmentType: string,
    workModel: string,
    jobLocations: string,
    applicantLocationRules: Option<string>,
    datePosted: int,
    validThrough: Option<int>,
    compensationState: string,
    compensation: Option<Compensation>,
    featured: bool,
    applyUrl: string,
    description: string,
    lastVerifiedAt: int)

  // ----- the projection -----

  function Serialize(job: Job): PublicJob {
    PublicJob(
      job.id, job.slug, StatusName(job.status), job.title, job.hiringOrg, job.team,
      EmploymentTypeName(job.employmentType), WorkModelName(job.workModel), job.jobLocations,
      job.applicantLocationRules, job.datePosted, job.validThrough,
      CompensationStateName(job.compensationState),
      if job.compensationState == Disclosed
      then Some(Compensation(job.compensationMin, job.compensationMax, job.compensationCurrency))
      else None,
      job.featured, job.applyUrl, job.description, job.lastVerifiedAt)
  }

  predicate IsOpen(job: Job) {
    job.status == Open
  }

  /** `ORDER BY featured DESC, date_posted DESC`; ties stay in insertion order. */
  predicate ListedBefore(a: Job, b: Job) {
    (a.featured && !b.featured) || (a.featured == b.featured && a.datePosted >= b.datePosted)
  }

  function Projection(rows: seq<Job>): seq<PublicJob> {
    Map(Serialize, StableSort(ListedBefore, Filter(IsOpen, rows)))
  }

  predicate ShownBefore(a: PublicJob, b: PublicJob) {
    (a.featured && !b.featured) || (a.featured == b.featured && a.datePosted >= b.datePosted)
  }

  /** The projection lists exactly the OPEN rows, each as often as it occurs. */
  lemma ProjectionIsOpenRows(rows: seq<Job>)
    ensures multiset(Projection(rows)) == multiset(Map(Serialize, Filter(IsOpen, rows)))
    ensures |Projection(rows)| == |Filter(IsOpen, rows)|
  {
    SortMapMultiset(ListedBefore, Serialize, Filter(IsOpen, rows));
  }

  lemma OpenRowIsProjected(rows: seq<Job>, j: Job)
    requires j in rows && IsOpen(j)
    ensures Serialize(j) in Projection(rows)
  {
    var open := Filter(IsOpen, rows);
    FilterMembers(IsOpen, rows);
    SortPermutes(ListedBefore, open);
    var i :| 0 <= i < |open| && StableSort(ListedBefore, open)[i] == j;
    assert Projection(rows)[i] == Serialize(j);
  }

  lemma ProjectedJobIsOpenRow(rows: seq<Job>, p: PublicJob) returns (j: Job)
    requires p in Projection(rows)
    ensures j in rows && IsOpen(j) && p == Serialize(j)
  {
    var open := Filter(IsOpen, rows);
    FilterMembers(IsOpen, rows);
    SortPermutes(ListedBefore, open);
    var i :| 0 <= i < |Projection(rows)| && Projection(rows)[i] == p;
    j := StableSort(ListedBefore, open)[i];
    assert j in open;
  }

  /** It is ordered featured first and newest first, and rows that tie on both keep
      the order in which they were inserted. */
  lemma ProjectionIsOrdered(rows: seq<Job>, featured: bool, datePosted: int)
    ensures Sorted(ShownBefore, Projection(rows))
    ensures var tied := (j: Job) => j.featured == featured && j.datePosted == datePosted;
            Filter(tied, StableSort(ListedBefore, Filter(IsOpen, rows))) == Filter(tied, Filter(IsOpen, rows))
  {
    var open := Filter(IsOpen, rows);
    SortSorts(ListedBefore, open);
    var tied := (j: Job) => j.featured == featured && j.datePosted == datePosted;
    SortStable(ListedBefore, tied, open);
  }

  /** A row that is not OPEN leaves the projection as it is: creating a draft needs no purge. */
  lemma HiddenRowChangesNothing(rows: seq<Job>, job: Job)
    requires !IsOpen(job)
    ensures Projection(rows + [job]) == Projection(rows)
  {
    FilterConcat(IsOpen, rows, [job]);
    FilterNone(IsOpen, [job]);
    assert Filter(IsOpen, rows) + [] == Filter(IsOpen, rows);
  }

  // ----- the projection, field by field -----

  /** What a listed job tells of its row. */
  ghost predicate Tells(p: PublicJob, job: Job) {
    && p.jobId == job.id && p.slug == job.slug && p.title == job.title && p.hiringOrg == job.hiringOrg
    && p.team == job.team && p.jobLocations == job.jobLocations && p.applicantLocationRules == job.applicantLocationRules
    && p.datePosted == job.datePosted && p.validThrough == job.validThrough && p.lastVerifiedAt == job.lastVerifiedAt
    && p.featured == job.featured && p.applyUrl == job.applyUrl && p.description == job.description
    && (p.employmentType == "full_time" <==> job.employmentType == FullTime)
    && (p.employmentType == "part_time" <==> job.employmentType == PartTime)
    && (p.employmentType == "contract" <==> job.employmentType == Contract)
    && (p.employmentType == "other" <==> job.employmentType == OtherEmployment)
    && (p.workModel == "on_site" <==> job.workModel == OnSite)
    && (p.workModel == "hybrid" <==> job.workModel == Hybrid)
    && (p.workModel == "remote" <==> job.workModel == Remote)
    && (p.compensationState == "disclosed" <==> job.compensationState == Disclosed)
    && (p.compensationState == "not_required" <==> job.compensationState == NotRequired)
    && (p.compensationState == "withheld_pending_disclosure" <==> job.compensationState == WithheldPendingDisclosure)
    && (p.compensation.Some? <==> p.compensationState == "disclosed")
    && (p.compensation.Some? ==>
          && p.compensation.value.minMinorUnits == job.compensationMin
          && p.compensation.value.maxMinorUnits == job.compensationMax
          && p.compensation.value.currency == job.compensationCurrency)
  }

  lemma SerializedTells(job: Job)
    ensures Tells(Serialize(job), job)
  {
    var e, w, c := EmploymentTypeName(job.employmentType), WorkModelName(job.workModel), CompensationStateName(job.compensationState);
    assert |"full_time"| == |"part_time"| == 9 && "full_time"[0] != "part_time"[0] && |"contract"| == 8 && |"other"| == 5;
    assert |"on_site"| == 7 && |"hybrid"| == |"remote"| == 6 && "hybrid"[0] != "remote"[0];
    assert |"disclosed"| == 9 && |"not_required"| == 12 && |"withheld_pending_disclosure"| == 27;
  }

  /** The list has one entry for each row that is OPEN, and each entry is marked open and
      tells what its row holds; amounts only when they are disclosed. */
  lemma ListTellsOpenRows(rows: seq<Job>)
    ensures |Projection(rows)| == |set i | 0 <= i < |rows| && rows[i].status == Open|
    ensures forall p :: p in Projection(rows) ==> p.status == "open" && exists job :: job in rows && job.status == Open && Tells(p, job)
    ensures forall job :: job in rows && job.status == Open ==> exists p :: p in Projection(rows) && Tells(p, job)
  {
    ProjectionIsOpenRows(rows);
    FilterCountsHits(IsOpen, rows);
    assert Hits(IsOpen, rows) == set i | 0 <= i < |rows| && rows[i].status == Open;
    forall p | p in Projection(rows) ensures p.status == "open" && exists job :: job in rows && job.status == Open && Tells(p, job) {
      var job := ProjectedJobIsOpenRow(rows, p);
      SerializedTells(job);
    }
    forall job | job in rows && job.status == Open ensures exists p :: p in Projection(rows) && Tells(p, job) {
      OpenRowIsProjected(rows, job);
      SerializedTells(job);
    }
  }

  // ----- non-interference -----

  /** What the public may learn about an OPEN row: everything but its author and,
      unless the range is disclosed, the compensation amounts. */
  function Redact(job: Job): Job {
    if job.compensationState == Disclosed then job.(createdBy := "")
    else job.(createdBy := "", compensationMin := None, compensationMax := None, compensationCurrency := None)
  }

  lemma RedactedRowSerializesAlike(job: Job)
    ensures Serialize(Redact(job)) == Serialize(job)
  {
  }

  lemma SerializedRowDeterminesNames(a: Job, b: Job)
    requires Serialize(a) == Serialize(b)
    ensures a.status == b.status && a.employmentType == b.employmentType
    ensures a.workModel == b.workModel && a.compensationState == b.compensationState
  {
    if a.status != b.status { StatusNamesDiffer(a.status, b.status); }
    if a.employmentType != b.employmentType { EmploymentTypeNamesDiffer(a.employmentType, b.employmentType); }
    if a.workModel != b.workModel { WorkModelNamesDiffer(a.workModel, b.workModel); }
    if a.compensationState != b.compensationState {
      CompensationStateNamesDiffer(a.compensationState, b.compensationState);
    }
  }

  lemma SerializeRevealsRedacted(a: Job, b: Job)
    ensures Serialize(a) == Serialize(b) <==> Redact(a) == Redact(b)
  {
    if Redact(a) == Redact(b) {
      RedactedRowSerializesAlike(a);
      RedactedRowSerializesAlike(b);
    }
    if Serialize(a) == Serialize(b) {
      SerializedRowDeterminesNames(a, b);
    }
  }

  lemma {:induction false} SerializeAllRevealsRedacted(a: seq<Job>, b: seq<Job>)
    ensures Map(Serialize, a) == Map(Serialize, b) <==> Map(Redact, a) == Map(Redact, b)
  {
    if |a| == |b| {
      forall i | 0 <= i < |a| ensures Serialize(a[i]) == Serialize(b[i]) <==> Redact(a[i]) == Redact(b[i]) {
        SerializeRevealsRedacted(a[i], b[i]);
      }
      assert Map(Serialize, a) == Map(Serialize, b) <==>
        forall i :: 0 <= i < |a| ==> Map(Serialize, a)[i] == Map(Serialize, b)[i];
      assert Map(Redact, a) == Map(Redact, b) <==> forall i :: 0 <= i < |a| ==> Map(Redact, a)[i] == Map(Redact, b)[i];
    } else {
      assert |Map(Serialize, a)| != |Map(Serialize, b)| && |Map(Redact, a)| != |Map(Redact, b)|;
    }
  }

  /** The projection reveals the redacted OPEN rows in listing order, and nothing more. */
  lemma ProjectionRevealsExactly(rows: seq<Job>, rows': seq<Job>)
    ensures Projection(rows) == Projection(rows') <==>
            StableSort(ListedBefore, Map(Redact, Filter(IsOpen, rows))) ==
            StableSort(ListedBefore, Map(Redact, Filter(IsOpen, rows')))
  {
    SortMap(ListedBefore, ListedBefore, Redact, Filter(IsOpen, rows));
    SortMap(ListedBefore, ListedBefore, Redact, Filter(IsOpen, rows'));
    SerializeAllRevealsRedacted(StableSort(ListedBefore, Filter(IsOpen, rows)), StableSort(ListedBefore, Filter(IsOpen, rows')));
  }

  // ----- list -----

  datatype Query = Query(
    q: Option<string>, team: Option<string>, location: Option<string>,
    workModel: Option<string>, employmentType: Option<string>)

  datatype Criterion =
    | TeamIs(team: string)
    | LocationHas(text: string)
    | WorkModelIs(name: string)
    | EmploymentTypeIs(name: string)
    | Mentions(text: string)

  predicate OccursAt(needle: string, hay: string, i: nat)
    requires i + |needle| <= |hay|
  {
    hay[i..i + |needle|] == needle
  }

  /** Python's `needle in hay`. */
  predicate HasSubstring(needle: string, hay: string) {
    exists i :: 0 <= i <= |hay| - |needle| && OccursAt(needle, hay, i)
  }

  /** `lower` stands for `str.lower`; nothing below depends on which letters it folds. */
  predicate Meets(lower: string -> string, c: Criterion, j: PublicJob) {
    match c
    case TeamIs(team) => lower(j.team) == lower(team)
    case LocationHas(text) => HasSubstring(lower(text), lower(j.jobLocations))
    case WorkModelIs(name) => j.workModel == name
    case EmploymentTypeIs(name) => j.employmentType == name
    case Mentions(text) =>
      || HasSubstring(lower(text), lower(j.title))
      || HasSubstring(lower(text), lower(j.team))
      || HasSubstring(lower(text), lower(j.description))
  }

  function Passing(lower: string -> string, c: Criterion): PublicJob -> bool {
    j => Meets(lower, c, j)
  }

  predicate MeetsAll(lower: string -> string, cs: seq<Criterion>, j: PublicJob) {
    forall c :: c in cs ==> Meets(lower, c, j)
  }

  function PassingAll(lower: string -> string, cs: seq<Criterion>): PublicJob -> bool {
    j => MeetsAll(lower, cs, j)
  }

  /** A parameter that is missing or empty filters nothing. */
  predicate Given(o: Option<string>) {
    o.Some? && o.value != ""
  }

  function Criteria(query: Query): seq<Criterion> {
    (if Given(query.team) then [TeamIs(query.team.value)] else []) +
    (if Given(query.location) then [LocationHas(query.location.value)] else []) +
    (if Given(query.workModel) then [WorkModelIs(query.workModel.value)] else []) +
    (if Given(query.employmentType) then [EmploymentTypeIs(query.employmentType.value)] else []) +
    (if Given(query.q) then [Mentions(query.q.value)] else [])
  }

  /** One filtering pass per criterion, one after the other. */
  function Narrow(lower: string -> string, cs: seq<Criterion>, jobs: seq<PublicJob>): seq<PublicJob> {
    if cs == [] then jobs else Narrow(lower, cs[1..], Filter(Passing(lower, cs[0]), jobs))
  }

  /** The chain of passes is one conjunctive filter, so neither the order nor the
      repetition of criteria matters. */
  lemma {:induction false} NarrowIsConjunction(lower: string -> string, cs: seq<Criterion>, jobs: seq<PublicJob>)
    ensures Narrow(lower, cs, jobs) == Filter(PassingAll(lower, cs), jobs)
  {
    if cs == [] {
      FilterAll(PassingAll(lower, cs), jobs);
    } else {
      NarrowIsConjunction(lower, cs[1..], Filter(Passing(lower, cs[0]), jobs));
      FilterTwice(Passing(lower, cs[0]), PassingAll(lower, cs[1..]), PassingAll(lower, cs), jobs);
    }
  }

  lemma FilterOrderIsIrrelevant(lower: string -> string, cs: seq<Criterion>, ds: seq<Criterion>, jobs: seq<PublicJob>)
    requires forall c :: c in cs <==> c in ds
    ensures Narrow(lower, cs, jobs) == Narrow(lower, ds, jobs)
  {
    NarrowIsConjunction(lower, cs, jobs);
    NarrowIsConjunction(lower, ds, jobs);
    FilterAgree(PassingAll(lower, cs), PassingAll(lower, ds), jobs);
  }

  function TitleOrder(lower: string -> string): (PublicJob, PublicJob) -> bool {
    (a: PublicJob, b: PublicJob) => TextLe(lower(a.title), lower(b.title))
  }

  /** Everything that matches, in the requested order, before paging. */
  function Matching(lower: string -> string, jobs: seq<PublicJob>, query: Query, sort: string): seq<PublicJob> {
    var found := Narrow(lower, Criteria(query), jobs);
    if sort == "title" then StableSort(TitleOrder(lower), found) else found
  }

  /** `s[lo:hi]` with a non-negative start. */
  function PySlice<T>(s: seq<T>, lo: nat, hi: int): seq<T> {
    var stop := if hi < 0 then (if hi + |s| < 0 then 0 else hi + |s|) else if hi < |s| then hi else |s|;
    if lo < stop then s[lo..stop] else []
  }

  datatype Page = Page(jobs: seq<PublicJob>, total: nat, page: int, pageSize: int)

  function ListPublicJobs(lower: string -> string, jobs: seq<PublicJob>, query: Query, page: int, pageSize: int, sort: string): Page {
    var found := Matching(lower, jobs, query, sort);
    var start := (page - 1) * pageSize;
    var start' := if start < 0 then 0 else start;
    Page(PySlice(found, start', start' + pageSize), |found|, page, pageSize)
  }

  function ClampPage(page: int): int {
    if page < 1 then 1 else page
  }

  function ClampPageSize(pageSize: int): int {
    var small := if pageSize < 100 then pageSize else 100;
    if small < 1 then 1 else small
  }

  /** The route bounds page and size before it calls the service. */
  function ListRoute(lower: string -> string, jobs: seq<PublicJob>, query: Query, page: int, pageSize: int, sort: string): Page {
    ListPublicJobs(lower, jobs, query, ClampPage(page), ClampPageSize(pageSize), sort)
  }

  /** Pages 1..n as the route returns them, one after the other. */
  function FirstPages(lower: string -> string, jobs: seq<PublicJob>, query: Query, pageSize: int, sort: string, n: nat): seq<PublicJob> {
    if n == 0 then []
    else FirstPages(lower, jobs, query, pageSize, sort, n - 1) + ListRoute(lower, jobs, query, n, pageSize, sort).jobs
  }

  function Least(a: int, b: int): int {
    if a < b then a else b
  }

  lemma BlockArithmetic(page: int, size: int)
    requires page >= 1 && size >= 1
    ensures 0 <= (page - 1) * size
    ensures page * size == (page - 1) * size + size
  {
  }

  lemma SliceIsBlock<T>(s: seq<T>, lo: nat, hi: nat)
    requires lo <= hi
    ensures PySlice(s, lo, hi) == s[Least(lo, |s|)..Least(hi, |s|)]
  {
  }

  /** Page p is the p-th block of the matching list: blocks do not overlap, and a
      page past the end is empty. */
  lemma PageIsBlock(lower: string -> string, jobs: seq<PublicJob>, query: Query, page: int, pageSize: int, sort: string)
    requires page >= 1
    ensures var full := Matching(lower, jobs, query, sort);
            var size := ClampPageSize(pageSize);
            var view := ListRoute(lower, jobs, query, page, pageSize, sort);
            && 1 <= size <= 100
            && 0 <= Least((page - 1) * size, |full|) <= Least(page * size, |full|)
            && view.jobs == full[Least((page - 1) * size, |full|)..Least(page * size, |full|)]
            && view.total == |full|
            && ((page - 1) * size >= |full| ==> view.jobs == [])
  {
    var size := ClampPageSize(pageSize);
    BlockArithmetic(page, size);
    SliceIsBlock(Matching(lower, jobs, query, sort), (page - 1) * size, page * size);
  }

  /** The answer names its page and a size: the one asked for if it is in 1 to 100, else
      the closest that is. */
  lemma PageNamesItself(lower: string -> string, jobs: seq<PublicJob>, query: Query, page: int, pageSize: int, sort: string)
    ensures var view := ListRoute(lower, jobs, query, page, pageSize, sort);
            && view.page == (if page < 1 then 1 else page) && 1 <= view.pageSize <= 100
            && (view.pageSize != pageSize ==> pageSize < view.pageSize == 1 || pageSize > view.pageSize == 100)
            && view.pageSize == ClampPageSize(pageSize)
  {
  }

  /** A page before the first is the first. */
  lemma EarlyPageIsFirst(lower: string -> string, jobs: seq<PublicJob>, query: Query, page: int, pageSize: int, sort: string)
    requires page < 1
    ensures ListRoute(lower, jobs, query, page, pageSize, sort) == ListRoute(lower, jobs, query, 1, pageSize, sort)
  {
  }

  lemma {:induction false} FirstPagesArePrefix(lower: string -> string, jobs: seq<PublicJob>, query: Query, pageSize: int, sort: string, n: nat)
    ensures var full := Matching(lower, jobs, query, sort);
            0 <= Least(n * ClampPageSize(pageSize), |full|) <= |full|
            && FirstPages(lower, jobs, query, pageSize, sort, n) == full[..Least(n * ClampPageSize(pageSize), |full|)]
  {
    if n > 0 {
      FirstPagesArePrefix(lower, jobs, query, pageSize, sort, n - 1);
      PageIsBlock(lower, jobs, query, n, pageSize, sort);
    }
  }

  /** For any filters, sort and size, the pages up to the last one concatenate to
      exactly the matching list; `total` is its length. */
  lemma PagesPartitionMatches(lower: string -> string, jobs: seq<PublicJob>, query: Query, pageSize: int, sort: string, last: nat)
    requires last * ClampPageSize(pageSize) >= |Matching(lower, jobs, query, sort)|
    ensures FirstPages(lower, jobs, query, pageSize, sort, last) == Matching(lower, jobs, query, sort)
    ensures |FirstPages(lower, jobs, query, pageSize, sort, last)| ==
            ListRoute(lower, jobs, query, 1, pageSize, sort).total
  {
    FirstPagesArePrefix(lower, jobs, query, pageSize, sort, last);
  }

  /** The text occurs somewhere in the other. */
  ghost predicate Within(needle: string, hay: string) {
    exists before, after :: hay == before + (needle + after)
  }

  lemma HasSubstringMeansWithin(needle: string, hay: string)
    ensures HasSubstring(needle, hay) <==> Within(needle, hay)
  {
    if HasSubstring(needle, hay) {
      var i :| 0 <= i <= |hay| - |needle| && OccursAt(needle, hay, i);
      assert hay == hay[..i] + (needle + hay[i + |needle|..]);
    }
    if Within(needle, hay) {
      var before, after :| hay == before + (needle + after);
      assert hay[|before|..|before| + |needle|] == needle;
      assert OccursAt(needle, hay, |before|);
    }
  }

  /** The job meets every parameter that is given and not empty. */
  ghost predicate Fits(lower: string -> string, query: Query, j: PublicJob) {
    && (query.team.Some? && query.team.value != "" ==> lower(j.team) == lower(query.team.value))
    && (query.location.Some? && query.location.value != "" ==> Within(lower(query.location.value), lower(j.jobLocations)))
    && (query.workModel.Some? && query.workModel.value != "" ==> j.workModel == query.workModel.value)
    && (query.employmentType.Some? && query.employmentType.value != "" ==> j.employmentType == query.employmentType.value)
    && (query.q.Some? && query.q.value != "" ==>
          || Within(lower(query.q.value), lower(j.title))
          || Within(lower(query.q.value), lower(j.team))
          || Within(lower(query.q.value), lower(j.description)))
  }

  lemma CriteriaMembers(query: Query, c: Criterion)
    ensures c in Criteria(query) <==>
              || (Given(query.team) && c == TeamIs(query.team.value))
              || (Given(query.location) && c == LocationHas(query.location.value))
              || (Given(query.workModel) && c == WorkModelIs(query.workModel.value))
              || (Given(query.employmentType) && c == EmploymentTypeIs(query.employmentType.value))
              || (Given(query.q) && c == Mentions(query.q.value))
  {
  }

  lemma CriterionFits(lower: string -> string, query: Query, j: PublicJob, c: Criterion)
    requires c in Criteria(query) && Fits(lower, query, j)
    ensures Meets(lower, c, j)
  {
    CriteriaMembers(query, c);
    match c
    case LocationHas(text) => HasSubstringMeansWithin(lower(text), lower(j.jobLocations));
    case Mentions(text) =>
      HasSubstringMeansWithin(lower(text), lower(j.title));
      HasSubstringMeansWithin(lower(text), lower(j.team));
      HasSubstringMeansWithin(lower(text), lower(j.description));
    case _ =>
  }

  lemma MetCriteriaFit(lower: string -> string, query: Query, j: PublicJob)
    requires MeetsAll(lower, Criteria(query), j)
    ensures Fits(lower, query, j)
  {
    if Given(query.team) { CriteriaMembers(query, TeamIs(query.team.value)); }
    if Given(query.location) {
      CriteriaMembers(query, LocationHas(query.location.value));
      assert Meets(lower, LocationHas(query.location.value), j);
      HasSubstringMeansWithin(lower(query.location.value), lower(j.jobLocations));
    }
    if Given(query.workModel) { CriteriaMembers(query, WorkModelIs(query.workModel.value)); }
    if Given(query.employmentType) { CriteriaMembers(query, EmploymentTypeIs(query.employmentType.value)); }
    if Given(query.q) {
      CriteriaMembers(query, Mentions(query.q.value));
      assert Meets(lower, Mentions(query.q.value), j);
      HasSubstringMeansWithin(lower(query.q.value), lower(j.title));
      HasSubstringMeansWithin(lower(query.q.value), lower(j.team));
      HasSubstringMeansWithin(lower(query.q.value), lower(j.description));
    }
  }

  lemma MeetsAllMeansFits(lower: string -> string, query: Query, j: PublicJob)
    ensures MeetsAll(lower, Criteria(query), j) <==> Fits(lower, query, j)
  {
    if MeetsAll(lower, Criteria(query), j) { MetCriteriaFit(lower, query, j); }
    if Fits(lower, query, j) {
      forall c | c in Criteria(query) ensures Meets(lower, c, j) {
        CriterionFits(lower, query, j, c);
      }
    }
  }

  /** For every query and sort, a job is listed exactly when it is in the dataset and
      meets each parameter, as often as it is there; and `total` counts the positions of
      the dataset that hold such a job. */
  lemma ListedExactlyWhenFitting(lower: string -> string, jobs: seq<PublicJob>, query: Query, page: int, pageSize: int, sort: string, j: PublicJob)
    ensures multiset(Matching(lower, jobs, query, sort))[j] == if Fits(lower, query, j) then multiset(jobs)[j] else 0
    ensures j in Matching(lower, jobs, query, sort) <==> j in jobs && Fits(lower, query, j)
    ensures ListRoute(lower, jobs, query, page, pageSize, sort).total == |FittingPositions(lower, jobs, query)|
  {
    var passing := PassingAll(lower, Criteria(query));
    MatchingIsFilteredAndSorted(lower, jobs, query, sort, "");
    FilterMultiset(passing, jobs, j);
    MeetsAllMeansFits(lower, query, j);
    assert multiset(Filter(passing, jobs))[j] == if Fits(lower, query, j) then multiset(jobs)[j] else 0;
    assert j in Matching(lower, jobs, query, sort) <==> j in multiset(Matching(lower, jobs, query, sort));
    TotalIsFittingPositions(lower, jobs, query, page, pageSize, sort);
  }

  ghost function FittingPositions(lower: string -> string, jobs: seq<PublicJob>, query: Query): set<int> {
    set i | 0 <= i < |jobs| && Fits(lower, query, jobs[i])
  }

  lemma TotalIsFittingPositions(lower: string -> string, jobs: seq<PublicJob>, query: Query, page: int, pageSize: int, sort: string)
    ensures ListRoute(lower, jobs, query, page, pageSize, sort).total == |FittingPositions(lower, jobs, query)|
  {
    var passing := PassingAll(lower, Criteria(query));
    MatchingIsFilteredAndSorted(lower, jobs, query, sort, "");
    assert |Matching(lower, jobs, query, sort)| == |multiset(Filter(passing, jobs))| == |Filter(passing, jobs)|;
    FilterCountsHits(passing, jobs);
    forall i | 0 <= i < |jobs| ensures passing(jobs[i]) <==> Fits(lower, query, jobs[i]) {
      MeetsAllMeansFits(lower, query, jobs[i]);
    }
    assert Hits(passing, jobs) == FittingPositions(lower, jobs, query);
  }

  /** Sorted by title, the listed titles ascend; otherwise the dataset's order is kept. */
  lemma ListedInOrder(lower: string -> string, jobs: seq<PublicJob>, query: Query, sort: string, i: nat, k: nat)
    requires i < k < |Matching(lower, jobs, query, sort)|
    ensures var full := Matching(lower, jobs, query, sort);
            && (sort == "title" ==> TextLe(lower(full[i].title), lower(full[k].title)))
            && (sort != "title" ==> exists a, b :: 0 <= a < b < |jobs| && jobs[a] == full[i] && jobs[b] == full[k])
  {
    MatchingIsFilteredAndSorted(lower, jobs, query, sort, "");
    if sort == "title" {
      assert TitleOrder(lower)(Matching(lower, jobs, query, sort)[i], Matching(lower, jobs, query, sort)[k]);
    } else {
      var a, b := FilterKeepsOrder(PassingAll(lower, Criteria(query)), jobs, i, k);
    }
  }

  function Titled(lower: string -> string, title: string): PublicJob -> bool {
    (j: PublicJob) => lower(j.title) == title
  }

  /** The matching list is the filtered dataset: in its own order, or by title with
      equal titles left in the dataset's order. */
  lemma MatchingIsFilteredAndSorted(lower: string -> string, jobs: seq<PublicJob>, query: Query, sort: string, title: string)
    ensures var full := Matching(lower, jobs, query, sort);
            var found := Filter(PassingAll(lower, Criteria(query)), jobs);
            && multiset(full) == multiset(found)
            && (sort != "title" ==> full == found)
            && (sort == "title" ==>
                  && Sorted(TitleOrder(lower), full)
                  && Filter(Titled(lower, title), full) == Filter(Titled(lower, title), found))
  {
    var found := Filter(PassingAll(lower, Criteria(query)), jobs);
    NarrowIsConjunction(lower, Criteria(query), jobs);
    if sort == "title" {
      SortByTitle(lower, found, title);
    }
  }

  lemma SortByTitle(lower: string -> string, found: seq<PublicJob>, title: string)
    ensures multiset(StableSort(TitleOrder(lower), found)) == multiset(found)
    ensures Sorted(TitleOrder(lower), StableSort(TitleOrder(lower), found))
    ensures Filter(Titled(lower, title), StableSort(TitleOrder(lower), found)) == Filter(Titled(lower, title), found)
  {
    SortPermutes(TitleOrder(lower), found);
    TitleOrderIsPreorder(lower);
    SortSorts(TitleOrder(lower), found);
    TextLeTotal(title, title);
    SortStable(TitleOrder(lower), Titled(lower, title), found);
  }

  lemma TitleOrderIsPreorder(lower: string -> string)
    ensures TotalPreorder(TitleOrder(lower))
  {
    forall a: PublicJob, b: PublicJob ensures TitleOrder(lower)(a, b) || TitleOrder(lower)(b, a) {
      TextLeTotal(lower(a.title), lower(b.title));
    }
    forall a: PublicJob, b: PublicJob, c: PublicJob | TitleOrder(lower)(a, b) && TitleOrder(lower)(b, c)
      ensures TitleOrder(lower)(a, c)
    {
      TextLeTransitive(lower(a.title), lower(b.title), lower(c.title));
    }
  }

  // ----- list, asked of the table itself -----

  /** A criterion as a condition on the row. */
  predicate RowMeets(lower: string -> string, c: Criterion, job: Job) {
    match c
    case TeamIs(team) => lower(job.team) == lower(team)
    case LocationHas(text) => HasSubstring(lower(text), lower(job.jobLocations))
    case WorkModelIs(name) => WorkModelName(job.workModel) == name
    case EmploymentTypeIs(name) => EmploymentTypeName(job.employmentType) == name
    case Mentions(text) =>
      || HasSubstring(lower(text), lower(job.title))
      || HasSubstring(lower(text), lower(job.team))
      || HasSubstring(lower(text), lower(job.description))
  }

  /** `WHERE status = OPEN AND ...` */
  function Wanted(lower: string -> string, cs: seq<Criterion>): Job -> bool {
    (job: Job) => IsOpen(job) && forall c :: c in cs ==> RowMeets(lower, c, job)
  }

  function RowTitleOrder(lower: string -> string): (Job, Job) -> bool {
    (a: Job, b: Job) => TextLe(lower(a.title), lower(b.title))
  }

  /** The answer of one query over the table, with every condition in it. */
  function Selected(lower: string -> string, rows: seq<Job>, query: Query, sort: string): seq<Job> {
    var found := StableSort(ListedBefore, Filter(Wanted(lower, Criteria(query)), rows));
    if sort == "title" then StableSort(RowTitleOrder(lower), found) else found
  }

  lemma MeetsRowMeets(lower: string -> string, c: Criterion, job: Job)
    ensures Meets(lower, c, Serialize(job)) == RowMeets(lower, c, job)
  {
  }

  /** Loading the whole projection and narrowing it in memory gives what one query over
      the table with all conditions would give, in the same order. */
  lemma ListAnswersFromTable(lower: string -> string, rows: seq<Job>, query: Query, sort: string)
    ensures Matching(lower, Projection(rows), query, sort) == Map(Serialize, Selected(lower, rows, query, sort))
  {
    var cs := Criteria(query);
    var open := Filter(IsOpen, rows);
    var meets := (job: Job) => forall c :: c in cs ==> RowMeets(lower, c, job);
    NarrowIsConjunction(lower, cs, Projection(rows));
    forall job ensures PassingAll(lower, cs)(Serialize(job)) == meets(job) {
      forall c ensures Meets(lower, c, Serialize(job)) == RowMeets(lower, c, job) {
        MeetsRowMeets(lower, c, job);
      }
    }
    FilterMap(meets, PassingAll(lower, cs), Serialize, StableSort(ListedBefore, open));
    FilterSorted(ListedBefore, meets, open);
    FilterTwice(IsOpen, meets, Wanted(lower, cs), rows);
    SortMap(RowTitleOrder(lower), TitleOrder(lower), Serialize, StableSort(ListedBefore, Filter(meets, open)));
  }

  // ----- detail -----

  predicate Answers(job: PublicJob, key: string) {
    job.jobId == key || job.slug == key
  }

  /** The first job in listing order whose id or slug is the key. */
  function Lookup(jobs: seq<PublicJob>, key: string): Option<PublicJob> {
    if jobs == [] then None
    else if Answers(jobs[0], key) then Some(jobs[0])
    else Lookup(jobs[1..], key)
  }

  /** Detail succeeds exactly for the ids and slugs the unfiltered list shows, and
      only ever returns a listed job. */
  lemma {:induction false} DetailAgreesWithList(jobs: seq<PublicJob>, key: string)
    ensures Lookup(jobs, key).Some? <==> exists j :: j in jobs && Answers(j, key)
    ensures Lookup(jobs, key).Some? ==> Lookup(jobs, key).value in jobs && Answers(Lookup(jobs, key).value, key)
  {
    if jobs != [] && !Answers(jobs[0], key) {
      DetailAgreesWithList(jobs[1..], key);
      assert jobs == [jobs[0]] + jobs[1..];
      if j :| j in jobs && Answers(j, key) {
        assert j in jobs[1..];
      }
    }
  }

  /** In terms of the table: detail succeeds exactly when an OPEN row has that id or slug. */
  lemma DetailAnswersFromTable(rows: seq<Job>, key: string)
    ensures Lookup(Projection(rows), key).Some? <==> exists job :: job in rows && IsOpen(job) && (job.id == key || job.slug == key)
  {
    DetailAgreesWithList(Projection(rows), key);
    if p :| p in Projection(rows) && Answers(p, key) {
      var job := ProjectedJobIsOpenRow(rows, p);
      assert job.id == key || job.slug == key;
    }
    if job :| job in rows && IsOpen(job) && (job.id == key || job.slug == key) {
      OpenRowIsProjected(rows, job);
      assert Answers(Serialize(job), key);
    }
  }

  lemma {:induction false} LookupFindsFirst(jobs: seq<PublicJob>, key: string, i: nat)
    requires i < |jobs| && Answers(jobs[i], key)
    ensures exists k :: 0 <= k <= i && Answers(jobs[k], key) && Lookup(jobs, key) == Some(jobs[k])
  {
    if !Answers(jobs[0], key) {
      LookupFindsFirst(jobs[1..], key, i - 1);
      var k :| 0 <= k <= i - 1 && Answers(jobs[1..][k], key) && Lookup(jobs[1..], key) == Some(jobs[1..][k]);
      assert jobs[1..][k] == jobs[k + 1];
    }
  }

  ghost predicate DistinctIds(jobs: seq<PublicJob>) {
    forall i, k :: 0 <= i < k < |jobs| ==> jobs[i].jobId != jobs[k].jobId
  }

  ghost predicate Addressable(jobs: seq<PublicJob>) {
    forall i, k :: 0 <= i < k < |jobs| ==> !Answers(jobs[i], jobs[k].jobId) && !Answers(jobs[i], jobs[k].slug)
  }

  /** Every listed job is found under its own id and its own slug exactly when no
      earlier listed job answers to either: a slug may be spelled like another id. */
  lemma EveryJobAddressable(jobs: seq<PublicJob>)
    requires DistinctIds(jobs)
    ensures Addressable(jobs) <==>
            forall k :: 0 <= k < |jobs| ==> Lookup(jobs, jobs[k].jobId) == Some(jobs[k]) && Lookup(jobs, jobs[k].slug) == Some(jobs[k])
  {
    forall k | 0 <= k < |jobs|
      ensures forall i :: 0 <= i < k && Answers(jobs[i], jobs[k].jobId) ==> Lookup(jobs, jobs[k].jobId) != Some(jobs[k])
      ensures forall i :: 0 <= i < k && Answers(jobs[i], jobs[k].slug) ==> Lookup(jobs, jobs[k].slug) != Some(jobs[k])
      ensures Addressable(jobs) ==> Lookup(jobs, jobs[k].jobId) == Some(jobs[k]) && Lookup(jobs, jobs[k].slug) == Some(jobs[k])
    {
      LookupFindsFirst(jobs, jobs[k].jobId, k);
      LookupFindsFirst(jobs, jobs[k].slug, k);
      forall i | 0 <= i < k && Answers(jobs[i], jobs[k].jobId) ensures Lookup(jobs, jobs[k].jobId) != Some(jobs[k]) {
        LookupFindsFirst(jobs, jobs[k].jobId, i);
      }
      forall i | 0 <= i < k && Answers(jobs[i], jobs[k].slug) ensures Lookup(jobs, jobs[k].slug) != Some(jobs[k]) {
        LookupFindsFirst(jobs, jobs[k].slug, i);
      }
    }
  }

  ghost predicate DistinctNames(jobs: seq<PublicJob>) {
    forall i, k :: 0 <= i < k < |jobs| ==> jobs[i].jobId != jobs[k].jobId && jobs[i].slug != jobs[k].slug
  }

  ghost predicate DistinctRows(rows: seq<Job>) {
    forall i, k :: 0 <= i < k < |rows| ==> rows[i].id != rows[k].id && rows[i].slug != rows[k].slug
  }

  lemma {:induction false} FilterKeepsDistinct(p: Job -> bool, rows: seq<Job>)
    requires DistinctRows(rows)
    ensures DistinctRows(Filter(p, rows))
  {
    if rows != [] {
      var rest := Filter(p, rows[1..]);
      FilterKeepsDistinct(p, rows[1..]);
      FilterMembers(p, rows[1..]);
      forall k | 0 <= k < |rest| ensures rows[0].id != rest[k].id && rows[0].slug != rest[k].slug {
        assert rest[k] in rest;
      }
    }
  }

  lemma {:induction false} InsertKeepsDistinct(job: Job, rows: seq<Job>)
    requires DistinctRows(rows) && forall x :: x in rows ==> x.id != job.id && x.slug != job.slug
    ensures DistinctRows(Insert(ListedBefore, job, rows))
  {
    if rows != [] && !ListedBefore(job, rows[0]) {
      var rest := Insert(ListedBefore, job, rows[1..]);
      InsertKeepsDistinct(job, rows[1..]);
      InsertMembers(ListedBefore, job, rows[1..]);
      forall k | 0 <= k < |rest| ensures rows[0].id != rest[k].id && rows[0].slug != rest[k].slug {
        assert rest[k] in rest;
      }
    }
  }

  lemma {:induction false} SortKeepsDistinct(rows: seq<Job>)
    requires DistinctRows(rows)
    ensures DistinctRows(StableSort(ListedBefore, rows))
  {
    if rows != [] {
      SortKeepsDistinct(rows[1..]);
      SortPermutes(ListedBefore, rows[1..]);
      InsertKeepsDistinct(rows[0], StableSort(ListedBefore, rows[1..]));
    }
  }

  /** Unique ids and slugs in the table are unique in the projection. */
  lemma ProjectionHasDistinctNames(rows: seq<Job>)
    requires DistinctRows(rows)
    ensures DistinctNames(Projection(rows))
  {
    FilterKeepsDistinct(IsOpen, rows);
    SortKeepsDistinct(Filter(IsOpen, rows));
  }

  lemma JobIsFoundByName(jobs: seq<PublicJob>, k: nat)
    requires DistinctNames(jobs) && k < |jobs|
    ensures Lookup(jobs, jobs[k].jobId) == Some(jobs[k]) && Lookup(jobs, jobs[k].slug) == Some(jobs[k]) <==>
            forall i :: 0 <= i < k ==> jobs[i].slug != jobs[k].jobId && jobs[i].jobId != jobs[k].slug
  {
    FoundExactlyWhenFirst(jobs, jobs[k].jobId, k);
    FoundExactlyWhenFirst(jobs, jobs[k].slug, k);
  }

  lemma FoundExactlyWhenFirst(jobs: seq<PublicJob>, key: string, k: nat)
    requires DistinctNames(jobs) && k < |jobs| && Answers(jobs[k], key)
    ensures Lookup(jobs, key) == Some(jobs[k]) <==> forall i :: 0 <= i < k ==> !Answers(jobs[i], key)
  {
    LookupFindsFirst(jobs, key, k);
    if i :| 0 <= i < k && Answers(jobs[i], key) {
      LookupFindsFirst(jobs, key, i);
    }
  }

  // ----- filter metadata -----

  datatype Filters = Filters(teams: seq<string>, locations: seq<string>, workModels: seq<string>, employmentTypes: seq<string>)

  function TeamOf(j: PublicJob): string { j.team }
  function LocationsOf(j: PublicJob): string { j.jobLocations }
  function WorkModelOf(j: PublicJob): string { j.workModel }
  function EmploymentTypeOf(j: PublicJob): string { j.employmentType }

  function ListPublicFilters(jobs: seq<PublicJob>): Filters {
    Filters(SortedSet(Map(TeamOf, jobs)), SortedSet(Map(LocationsOf, jobs)),
            SortedSet(Map(WorkModelOf, jobs)), SortedSet(Map(EmploymentTypeOf, jobs)))
  }

  /** The options offered are exactly the values that OPEN rows have. */
  lemma FiltersDescribeOpenRows(rows: seq<Job>, option: string)
    ensures var f := ListPublicFilters(Projection(rows));
            && (option in f.teams <==> exists job :: job in rows && IsOpen(job) && job.team == option)
            && (option in f.locations <==> exists job :: job in rows && IsOpen(job) && job.jobLocations == option)
            && (option in f.workModels <==> exists job :: job in rows && IsOpen(job) && WorkModelName(job.workModel) == option)
            && (option in f.employmentTypes <==>
                  exists job :: job in rows && IsOpen(job) && EmploymentTypeName(job.employmentType) == option)
  {
    OptionsDescribeOpenRows(rows, TeamOf, (job: Job) => job.team, option);
    OptionsDescribeOpenRows(rows, LocationsOf, (job: Job) => job.jobLocations, option);
    OptionsDescribeOpenRows(rows, WorkModelOf, (job: Job) => WorkModelName(job.workModel), option);
    OptionsDescribeOpenRows(rows, EmploymentTypeOf, (job: Job) => EmploymentTypeName(job.employmentType), option);
  }

  lemma OptionsDescribeOpenRows(rows: seq<Job>, key: PublicJob -> string, field: Job -> string, option: string)
    requires forall job :: key(Serialize(job)) == field(job)
    ensures option in SortedSet(Map(key, Projection(rows))) <==> exists job :: job in rows && IsOpen(job) && field(job) == option
  {
    var jobs := Projection(rows);
    if option in SortedSet(Map(key, jobs)) {
      var p := OfferedValueOccurs(jobs, key, option);
      var job := ProjectedJobIsOpenRow(rows, p);
      assert field(job) == option;
    }
    if job :| job in rows && IsOpen(job) && field(job) == option {
      OpenRowIsProjected(rows, job);
      var i :| 0 <= i < |jobs| && jobs[i] == Serialize(job);
      assert Map(key, jobs)[i] == option;
    }
  }

  /** Each list of options is without repetition and in increasing order. */
  lemma FiltersAreSorted(jobs: seq<PublicJob>)
    ensures var f := ListPublicFilters(jobs);
            && StrictlyIncreasing(f.teams) && StrictlyIncreasing(f.locations)
            && StrictlyIncreasing(f.workModels) && StrictlyIncreasing(f.employmentTypes)
  {
    SortedSetIncreases(Map(TeamOf, jobs));
    SortedSetIncreases(Map(LocationsOf, jobs));
    SortedSetIncreases(Map(WorkModelOf, jobs));
    SortedSetIncreases(Map(EmploymentTypeOf, jobs));
  }

  const NO_QUERY := Query(None, None, None, None, None)

  function Total(lower: string -> string, jobs: seq<PublicJob>, query: Query): nat {
    ListRoute(lower, jobs, query, 1, 20, "recent").total
  }

  lemma TotalCountsMatches(lower: string -> string, jobs: seq<PublicJob>, query: Query)
    ensures Total(lower, jobs, query) == |Filter(PassingAll(lower, Criteria(query)), jobs)|
  {
    MatchingIsFilteredAndSorted(lower, jobs, query, "recent", "");
  }

  /** With one parameter given there is one criterion, or none if it is empty. */
  lemma LoneCriterion(option: string)
    ensures Criteria(NO_QUERY.(team := Some(option))) == if option == "" then [] else [TeamIs(option)]
    ensures Criteria(NO_QUERY.(location := Some(option))) == if option == "" then [] else [LocationHas(option)]
    ensures Criteria(NO_QUERY.(workModel := Some(option))) == if option == "" then [] else [WorkModelIs(option)]
    ensures Criteria(NO_QUERY.(employmentType := Some(option))) == if option == "" then [] else [EmploymentTypeIs(option)]
  {
  }

  lemma LoneMeets(lower: string -> string, cs: seq<Criterion>, c: Criterion, j: PublicJob)
    requires (cs == [] || cs == [c]) && Meets(lower, c, j)
    ensures PassingAll(lower, cs)(j)
  {
  }

  lemma MeetingJobIsCounted(lower: string -> string, jobs: seq<PublicJob>, query: Query, j: PublicJob, c: Criterion)
    requires Criteria(query) == [] || Criteria(query) == [c]
    requires j in jobs && Meets(lower, c, j)
    ensures Total(lower, jobs, query) >= 1
  {
    var passing := PassingAll(lower, Criteria(query));
    LoneMeets(lower, Criteria(query), c, j);
    TotalCountsMatches(lower, jobs, query);
    FilterMembers(passing, jobs);
    assert j in Filter(passing, jobs);
  }

  lemma EveryTextContainsItself(text: string)
    ensures HasSubstring(text, text)
  {
    assert OccursAt(text, text, 0);
  }

  lemma OfferedValueOccurs(jobs: seq<PublicJob>, key: PublicJob -> string, option: string) returns (j: PublicJob)
    requires option in SortedSet(Map(key, jobs))
    ensures j in jobs && key(j) == option
  {
    var i :| 0 <= i < |jobs| && Map(key, jobs)[i] == option;
    j := jobs[i];
  }

  // No offered option, used alone, leads to an empty result.

  lemma OfferedTeamHasJobs(lower: string -> string, jobs: seq<PublicJob>, option: string)
    requires option in ListPublicFilters(jobs).teams
    ensures Total(lower, jobs, NO_QUERY.(team := Some(option))) >= 1
  {
    LoneCriterion(option);
    var j := OfferedValueOccurs(jobs, TeamOf, option);
    MeetingJobIsCounted(lower, jobs, NO_QUERY.(team := Some(option)), j, TeamIs(option));
  }

  lemma OfferedLocationHasJobs(lower: string -> string, jobs: seq<PublicJob>, option: string)
    requires option in ListPublicFilters(jobs).locations
    ensures Total(lower, jobs, NO_QUERY.(location := Some(option))) >= 1
  {
    LoneCriterion(option);
    EveryTextContainsItself(lower(option));
    var j := OfferedValueOccurs(jobs, LocationsOf, option);
    MeetingJobIsCounted(lower, jobs, NO_QUERY.(location := Some(option)), j, LocationHas(option));
  }

  lemma OfferedWorkModelHasJobs(lower: string -> string, jobs: seq<PublicJob>, option: string)
    requires option in ListPublicFilters(jobs).workModels
    ensures Total(lower, jobs, NO_QUERY.(workModel := Some(option))) >= 1
  {
    LoneCriterion(option);
    var j := OfferedValueOccurs(jobs, WorkModelOf, option);
    MeetingJobIsCounted(lower, jobs, NO_QUERY.(workModel := Some(option)), j, WorkModelIs(option));
  }

  lemma OfferedEmploymentTypeHasJobs(lower: string -> string, jobs: seq<PublicJob>, option: string)
    requires option in ListPublicFilters(jobs).employmentTypes
    ensures Total(lower, jobs, NO_QUERY.(employmentType := Some(option))) >= 1
  {
    LoneCriterion(option);
    var j := OfferedValueOccurs(jobs, EmploymentTypeOf, option);
    MeetingJobIsCounted(lower, jobs, NO_QUERY.(employmentType := Some(option)), j, EmploymentTypeIs(option));
  }

  function WorkModelTotals(lower: string -> string, jobs: seq<PublicJob>, names: seq<string>): nat {
    if names == [] then 0
    else Total(lower, jobs, NO_QUERY.(workModel := Some(names[0]))) + WorkModelTotals(lower, jobs, names[1..])
  }

  function EmploymentTypeTotals(lower: string -> string, jobs: seq<PublicJob>, names: seq<string>): nat {
    if names == [] then 0
    else Total(lower, jobs, NO_QUERY.(employmentType := Some(names[0]))) + EmploymentTypeTotals(lower, jobs, names[1..])
  }

  lemma LoneFilter(lower: string -> string, c: Criterion, key: PublicJob -> string, name: string, jobs: seq<PublicJob>)
    requires forall j :: Meets(lower, c, j) == (key(j) == name)
    ensures Filter(PassingAll(lower, [c]), jobs) == Filter(Keyed(key, name), jobs)
  {
    forall j ensures PassingAll(lower, [c])(j) == Keyed(key, name)(j) {
      assert c in [c];
    }
    FilterAgree(PassingAll(lower, [c]), Keyed(key, name), jobs);
  }

  lemma LoneWorkModelTotal(lower: string -> string, jobs: seq<PublicJob>, name: string)
    requires name != ""
    ensures Total(lower, jobs, NO_QUERY.(workModel := Some(name))) == |Filter(Keyed(WorkModelOf, name), jobs)|
  {
    LoneCriterion(name);
    TotalCountsMatches(lower, jobs, NO_QUERY.(workModel := Some(name)));
    LoneFilter(lower, WorkModelIs(name), WorkModelOf, name, jobs);
  }

  lemma LoneEmploymentTypeTotal(lower: string -> string, jobs: seq<PublicJob>, name: string)
    requires name != ""
    ensures Total(lower, jobs, NO_QUERY.(employmentType := Some(name))) == |Filter(Keyed(EmploymentTypeOf, name), jobs)|
  {
    LoneCriterion(name);
    TotalCountsMatches(lower, jobs, NO_QUERY.(employmentType := Some(name)));
    LoneFilter(lower, EmploymentTypeIs(name), EmploymentTypeOf, name, jobs);
  }

  lemma {:induction false} TotalsAreCounts(lower: string -> string, jobs: seq<PublicJob>, names: seq<string>)
    requires "" !in names
    ensures WorkModelTotals(lower, jobs, names) == CountPerKey(WorkModelOf, names, jobs)
    ensures EmploymentTypeTotals(lower, jobs, names) == CountPerKey(EmploymentTypeOf, names, jobs)
  {
    if names != [] {
      TotalsAreCounts(lower, jobs, names[1..]);
      LoneWorkModelTotal(lower, jobs, names[0]);
      LoneEmploymentTypeTotal(lower, jobs, names[0]);
    }
  }

  lemma NoNameIsEmpty(rows: seq<Job>)
    ensures "" !in ListPublicFilters(Projection(rows)).workModels
    ensures "" !in ListPublicFilters(Projection(rows)).employmentTypes
  {
    var jobs := Projection(rows);
    forall p | p in jobs ensures p.workModel != "" && p.employmentType != "" {
      var j := ProjectedJobIsOpenRow(rows, p);
      NamesAreNotEmpty(j.workModel, j.employmentType);
    }
  }

  /** Over the offered work models, and over the offered employment types, the
      single-option totals add up to the unfiltered total. */
  lemma OfferedOptionsPartitionTotal(lower: string -> string, rows: seq<Job>)
    ensures var jobs := Projection(rows);
            && WorkModelTotals(lower, jobs, ListPublicFilters(jobs).workModels) == Total(lower, jobs, NO_QUERY)
            && EmploymentTypeTotals(lower, jobs, ListPublicFilters(jobs).employmentTypes) == Total(lower, jobs, NO_QUERY)
            && Total(lower, jobs, NO_QUERY) == |jobs|
  {
    var jobs := Projection(rows);
    var f := ListPublicFilters(jobs);
    NoNameIsEmpty(rows);
    TotalCountsMatches(lower, jobs, NO_QUERY);
    FilterAll(PassingAll(lower, Criteria(NO_QUERY)), jobs);
    SortedSetIncreases(Map(WorkModelOf, jobs));
    SortedSetIncreases(Map(EmploymentTypeOf, jobs));
    TotalsAreCounts(lower, jobs, f.workModels);
    TotalsAreCounts(lower, jobs, f.employmentTypes);
    KeysPartition(WorkModelOf, f.workModels, jobs);
    KeysPartition(EmploymentTypeOf, f.employmentTypes, jobs);
  }
}
