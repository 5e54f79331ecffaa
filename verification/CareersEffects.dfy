/** What each staff operation of the careers service changes, field by field, and what
    it records. */
module CareersEffects {
  import opened Seqs
  import opened CareersModel
  import opened CanonicalState
  import opened PublicJobs
  import opened CareersService

  // ----- the lifecycle table, by target -----

  /** Which statuses lead to a status: every requisition that has not ended can be
      canceled, one that was opened can be filled or closed, OPEN and PAUSED lead to each
      other, and nothing leads back to DRAFT. */
  lemma TableByTarget(from: Status, to: Status)
    ensures to in NextStatuses(from) <==>
              match to
              case Draft => false
              case Approved => from == Draft
              case Open => from == Approved || from == Paused
              case Paused => from == Open
              case Filled => from == Open || from == Paused
              case Closed => from == Open || from == Paused
              case Canceled => from != Filled && from != Closed && from != Canceled
  {
  }

  // ----- creating -----

  /** Some character is not white space. */
  predicate HasInk(text: string) {
    exists i :: 0 <= i < |text| && !IsSpace(text[i])
  }

  lemma BlankMeansNoInk(text: string)
    ensures Blank(text) <==> !HasInk(text)
  {
  }

  /** A draft is refused exactly for a blank or taken slug, for a REMOTE role without
      locations, or for an id that is taken. */
  lemma CreateIsRefusedExactly(rows: seq<Job>, n: NewJob, id: string)
    ensures CreateError(rows, n, id).None? <==>
              && HasInk(n.slug)
              && (forall i :: 0 <= i < |rows| ==> rows[i].slug != n.slug && rows[i].id != id)
              && (n.workModel == Remote ==> HasInk(n.jobLocations))
  {
    BlankMeansNoInk(n.slug);
    BlankMeansNoInk(n.jobLocations);
  }

  /** An accepted draft becomes the last row, a DRAFT with what was given; the others, and
      the cache, stay. */
  lemma CreatedRowHoldsRequest(w: Writer, s: State, n: NewJob, id: string, actor: string, postedAt: int, verifiedAt: int, stored: bool)
    requires CreateError(s.rows, n, id).None?
    ensures var t := AfterCreate(w, s, n, id, actor, postedAt, verifiedAt, stored);
            && |t.rows| == |s.rows| + 1 && t.rows[..|s.rows|] == s.rows && t.cache == s.cache
            && var job := t.rows[|s.rows|];
               && job.id == id && job.status == Draft && job.createdBy == actor
               && job.datePosted == postedAt && job.lastVerifiedAt == verifiedAt
               && job.slug == n.slug && job.title == n.title && job.hiringOrg == n.hiringOrg && job.team == n.team
               && job.employmentType == n.employmentType && job.workModel == n.workModel
               && job.jobLocations == n.jobLocations && job.applicantLocationRules == n.applicantLocationRules
               && job.applyUrl == n.applyUrl && job.description == n.description && job.featured == n.featured
               && job.compensationState == n.compensationState && job.compensationMin == n.compensationMin
               && job.compensationMax == n.compensationMax && job.compensationCurrency == n.compensationCurrency
               && job.validThrough == n.validThrough
  {
  }

  // ----- updating -----

  function Or<T>(given: Option<T>, stored: T): T {
    if given.Some? then given.value else stored
  }

  /** Each field is the request's where the request gives one, and the stored one otherwise;
      what a request cannot name is unchanged. */
  ghost predicate IsUpdated(job: Job, old_: Job, r: UpdateRequest) {
    && job.title == Or(r.title, old_.title)
    && job.hiringOrg == Or(r.hiringOrg, old_.hiringOrg)
    && job.team == Or(r.team, old_.team)
    && job.employmentType == Or(r.employmentType, old_.employmentType)
    && job.workModel == Or(r.workModel, old_.workModel)
    && job.jobLocations == Or(r.jobLocations, old_.jobLocations)
    && job.applicantLocationRules == Else(r.applicantLocationRules, old_.applicantLocationRules)
    && job.applyUrl == Or(r.applyUrl, old_.applyUrl)
    && job.compensationState == Or(r.compensationState, old_.compensationState)
    && job.compensationMin == Else(r.compensationMin, old_.compensationMin)
    && job.compensationMax == Else(r.compensationMax, old_.compensationMax)
    && job.compensationCurrency == Else(r.compensationCurrency, old_.compensationCurrency)
    && job.featured == Or(r.featured, old_.featured)
    && job.description == Or(r.description, old_.description)
    && job.validThrough == Else(r.validThrough, old_.validThrough)
    && job.id == old_.id && job.slug == old_.slug && job.status == old_.status
    && job.datePosted == old_.datePosted && job.createdBy == old_.createdBy
  }

  lemma ApplyNext(job: Job, fields: seq<Field>, k: nat)
    requires k < |fields|
    ensures ApplyFields(job, fields[..k + 1]) == SetField(ApplyFields(job, fields[..k]), fields[k])
  {
    assert fields[..k + 1][..k] == fields[..k];
  }

  lemma ApplyNextFive(job: Job, fields: seq<Field>, k: nat)
    requires k + 5 <= |fields|
    ensures ApplyFields(job, fields[..k + 5]) ==
            SetField(SetField(SetField(SetField(SetField(ApplyFields(job, fields[..k]), fields[k]), fields[k + 1]), fields[k + 2]),
                     fields[k + 3]), fields[k + 4])
  {
    ApplyNext(job, fields, k);
    ApplyNext(job, fields, k + 1);
    ApplyNext(job, fields, k + 2);
    ApplyNext(job, fields, k + 3);
    ApplyNext(job, fields, k + 4);
  }

  // The fifteen keywords in three groups of five.

  function FirstFive(job: Job, r: UpdateRequest): Job {
    job.(title := Or(r.title, job.title), hiringOrg := Or(r.hiringOrg, job.hiringOrg), team := Or(r.team, job.team),
         employmentType := Or(r.employmentType, job.employmentType), workModel := Or(r.workModel, job.workModel))
  }

  function SecondFive(job: Job, r: UpdateRequest): Job {
    job.(jobLocations := Or(r.jobLocations, job.jobLocations),
         applicantLocationRules := Else(r.applicantLocationRules, job.applicantLocationRules),
         applyUrl := Or(r.applyUrl, job.applyUrl), compensationState := Or(r.compensationState, job.compensationState),
         compensationMin := Else(r.compensationMin, job.compensationMin))
  }

  function ThirdFive(job: Job, r: UpdateRequest): Job {
    job.(compensationMax := Else(r.compensationMax, job.compensationMax),
         compensationCurrency := Else(r.compensationCurrency, job.compensationCurrency),
         featured := Or(r.featured, job.featured), description := Or(r.description, job.description),
         validThrough := Else(r.validThrough, job.validThrough))
  }

  lemma SetsFirstFive(job: Job, r: UpdateRequest)
    ensures SetField(SetField(SetField(SetField(SetField(job, SetTitle(r.title)), SetHiringOrg(r.hiringOrg)), SetTeam(r.team)),
                     SetEmploymentType(r.employmentType)), SetWorkModel(r.workModel)) == FirstFive(job, r)
  {
    var a := SetField(job, SetTitle(r.title));
    assert a == job.(title := Or(r.title, job.title));
    var b := SetField(a, SetHiringOrg(r.hiringOrg));
    assert b == a.(hiringOrg := Or(r.hiringOrg, a.hiringOrg));
    var c := SetField(b, SetTeam(r.team));
    assert c == b.(team := Or(r.team, b.team));
    var d := SetField(c, SetEmploymentType(r.employmentType));
    assert d == c.(employmentType := Or(r.employmentType, c.employmentType));
    assert SetField(d, SetWorkModel(r.workModel)) == d.(workModel := Or(r.workModel, d.workModel));
  }

  lemma SetsSecondFive(job: Job, r: UpdateRequest)
    ensures SetField(SetField(SetField(SetField(SetField(job, SetJobLocations(r.jobLocations)),
                     SetApplicantLocationRules(r.applicantLocationRules)), SetApplyUrl(r.applyUrl)),
                     SetCompensationState(r.compensationState)), SetCompensationMin(r.compensationMin)) == SecondFive(job, r)
  {
    var a := SetField(job, SetJobLocations(r.jobLocations));
    assert a == job.(jobLocations := Or(r.jobLocations, job.jobLocations));
    var b := SetField(a, SetApplicantLocationRules(r.applicantLocationRules));
    assert b == a.(applicantLocationRules := Else(r.applicantLocationRules, a.applicantLocationRules));
    var c := SetField(b, SetApplyUrl(r.applyUrl));
    assert c == b.(applyUrl := Or(r.applyUrl, b.applyUrl));
    var d := SetField(c, SetCompensationState(r.compensationState));
    assert d == c.(compensationState := Or(r.compensationState, c.compensationState));
    assert SetField(d, SetCompensationMin(r.compensationMin)) == d.(compensationMin := Else(r.compensationMin, d.compensationMin));
  }

  lemma SetsThirdFive(job: Job, r: UpdateRequest)
    ensures SetField(SetField(SetField(SetField(SetField(job, SetCompensationMax(r.compensationMax)),
                     SetCompensationCurrency(r.compensationCurrency)), SetFeatured(r.featured)), SetDescription(r.description)),
                     SetValidThrough(r.validThrough)) == ThirdFive(job, r)
  {
    SetsUpperAmount(job, r);
    var b := SetField(SetField(job, SetCompensationMax(r.compensationMax)), SetCompensationCurrency(r.compensationCurrency));
    var c := SetField(b, SetFeatured(r.featured));
    assert c == b.(featured := Or(r.featured, b.featured));
    var d := SetField(c, SetDescription(r.description));
    assert d == c.(description := Or(r.description, c.description));
    assert SetField(d, SetValidThrough(r.validThrough)) == d.(validThrough := Else(r.validThrough, d.validThrough));
  }

  lemma SetsUpperAmount(job: Job, r: UpdateRequest)
    ensures SetField(SetField(job, SetCompensationMax(r.compensationMax)), SetCompensationCurrency(r.compensationCurrency)) ==
            job.(compensationMax := Else(r.compensationMax, job.compensationMax),
                 compensationCurrency := Else(r.compensationCurrency, job.compensationCurrency))
  {
    var a := SetField(job, SetCompensationMax(r.compensationMax));
    assert a == job.(compensationMax := Else(r.compensationMax, job.compensationMax));
  }

  lemma FirstFiveApplied(job: Job, r: UpdateRequest)
    ensures ApplyFields(job, RouteFields(r)[..5]) == FirstFive(job, r)
  {
    ApplyNextFive(job, RouteFields(r), 0);
    assert RouteFields(r)[..0] == [];
    SetsFirstFive(job, r);
  }

  lemma SecondFiveApplied(job: Job, r: UpdateRequest)
    ensures ApplyFields(job, RouteFields(r)[..10]) == SecondFive(FirstFive(job, r), r)
  {
    ApplyNextFive(job, RouteFields(r), 5);
    FirstFiveApplied(job, r);
    SetsSecondFive(FirstFive(job, r), r);
  }

  lemma ThirdFiveApplied(job: Job, r: UpdateRequest)
    ensures ApplyFields(job, RouteFields(r)) == ThirdFive(SecondFive(FirstFive(job, r), r), r)
  {
    ApplyNextFive(job, RouteFields(r), 10);
    assert RouteFields(r)[..15] == RouteFields(r);
    SecondFiveApplied(job, r);
    SetsThirdFive(SecondFive(FirstFive(job, r), r), r);
  }

  lemma RouteSetsFields(job: Job, r: UpdateRequest)
    ensures IsUpdated(ApplyFields(job, RouteFields(r)), job, r)
  {
    ThirdFiveApplied(job, r);
  }

  /** Through the route, an update is refused exactly when it sets REMOTE and gives no
      locations or blank ones. */
  lemma RouteIsRefusedExactly(job: Job, r: UpdateRequest)
    ensures UpdateError(job, RouteFields(r)).Some? <==>
            r.workModel == Some(Remote) && (r.jobLocations == None || !HasInk(r.jobLocations.value))
  {
    RouteKeywords(r, Some(job.workModel), Some(job.jobLocations));
    if r.jobLocations.Some? { BlankMeansNoInk(r.jobLocations.value); }
  }

  /** For every row and every accepted request: each field of the row as given or as it was,
      the row stamped, every other row untouched and the cache purged. */
  lemma UpdateSetsFields(w: Writer, s: State, id: string, r: UpdateRequest, actor: string, now: int, stored: bool)
    requires HasId(s.rows, id)
    requires !(r.workModel == Some(Remote) && (r.jobLocations == None || !HasInk(r.jobLocations.value)))
    ensures var t := AfterUpdate(w, s, id, RouteFields(r), actor, now, stored);
            var i := IndexOf(s.rows, id);
            && |t.rows| == |s.rows| && t.cache == None
            && (forall k :: 0 <= k < |s.rows| && k != i ==> t.rows[k] == s.rows[k])
            && IsUpdated(t.rows[i], s.rows[i], r)
            && t.rows[i].lastVerifiedAt == now
  {
    var i := IndexOf(s.rows, id);
    RouteIsRefusedExactly(s.rows[i], r);
    RouteSetsFields(s.rows[i], r);
  }

  // ----- moving -----

  /** An allowed transition sets the status and the stamp of that row, and nothing else. */
  lemma TransitionSetsStatus(w: Writer, s: State, id: string, to: Status, actor: string, reason: Option<string>, now: int, stored: bool)
    requires HasId(s.rows, id) && to in NextStatuses(s.rows[IndexOf(s.rows, id)].status)
    ensures var t := AfterTransition(w, s, id, to, actor, reason, now, stored);
            var i := IndexOf(s.rows, id);
            && |t.rows| == |s.rows| && t.cache == None
            && (forall k :: 0 <= k < |s.rows| && k != i ==> t.rows[k] == s.rows[k])
            && t.rows[i].status == to && t.rows[i].lastVerifiedAt == now
            && t.rows[i].(status := s.rows[i].status, lastVerifiedAt := s.rows[i].lastVerifiedAt) == s.rows[i]
  {
  }

  // ----- what is recorded -----

  function Fields2(digest: string -> string, title: string, status: Status): Option<string> {
    HashState(digest, Quote, Some([("title", title), ("status", StatusName(status))]))
  }

  /** A creation is recorded under the row's id, without a state before and with slug,
      title and status after. */
  lemma CreationIsRecorded(digest: string -> string, s: State, n: NewJob, id: string, actor: string, postedAt: int, verifiedAt: int)
    requires CreateError(s.rows, n, id).None?
    ensures var t := AfterCreate(Hashed(digest), s, n, id, actor, postedAt, verifiedAt, true);
            t.log == s.log + [LogEvent(actor, "careers.requisition_created", "career_job:" + id, None, None,
                                       HashState(digest, Quote, Some([("slug", n.slug), ("title", n.title), ("status", "draft")])))]
  {
  }

  /** An update is recorded with title and status before and after: its hash before is that
      of the stored row, its hash after that of the updated one. */
  lemma UpdateIsRecorded(digest: string -> string, s: State, id: string, r: UpdateRequest, actor: string, now: int)
    requires HasId(s.rows, id)
    requires !(r.workModel == Some(Remote) && (r.jobLocations == None || !HasInk(r.jobLocations.value)))
    ensures var t := AfterUpdate(Hashed(digest), s, id, RouteFields(r), actor, now, true);
            var old_ := s.rows[IndexOf(s.rows, id)];
            t.log == s.log + [LogEvent(actor, "careers.requisition_updated", "career_job:" + id, None,
                                       Fields2(digest, old_.title, old_.status), Fields2(digest, Or(r.title, old_.title), old_.status))]
  {
    var i := IndexOf(s.rows, id);
    RouteIsRefusedExactly(s.rows[i], r);
    RouteSetsFields(s.rows[i], r);
  }

  /** With an injective digest its two hashes are equal exactly when the title is unchanged. */
  lemma UpdateHashesShowTitle(digest: string -> string, before: string, after: string, status: Status)
    requires Injective(digest)
    ensures Fields2(digest, before, status) == Fields2(digest, after, status) <==> before == after
  {
    var a, b := [("title", before), ("status", StatusName(status))], [("title", after), ("status", StatusName(status))];
    TextIsSelfDelimiting();
    assert "title" != "status" by { assert |"title"| == 5 && |"status"| == 6; }
    HashIdentifiesState(digest, Quote, a, b);
    TitleOf(a);
    TitleOf(b);
  }

  lemma TitleOf(d: Dict<string>)
    requires |d| == 2 && d[0].0 == "title"
    ensures "title" in AsMap(d) && AsMap(d)["title"] == d[0].1
  {
  }

  /** A transition is recorded with its reason and with the status before and after. */
  lemma TransitionIsRecorded(digest: string -> string, s: State, id: string, to: Status, actor: string, reason: Option<string>, now: int)
    requires HasId(s.rows, id) && to in NextStatuses(s.rows[IndexOf(s.rows, id)].status)
    ensures var t := AfterTransition(Hashed(digest), s, id, to, actor, reason, now, true);
            var from := s.rows[IndexOf(s.rows, id)].status;
            t.log == s.log + [LogEvent(actor, "careers.requisition_status_changed", "career_job:" + id, reason,
                                       HashState(digest, Quote, Some([("status", StatusName(from))])),
                                       HashState(digest, Quote, Some([("status", StatusName(to))])))]
  {
  }
}
