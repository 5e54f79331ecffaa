/** The requisition record of the careers console and its fixed vocabularies.
    Instants are integers; `isoformat` is taken to be one-to-one, so a serialised
    instant is the instant itself. */
module CareersModel {
  import opened Seqs

  datatype Status = Draft | Approved | Open | Paused | Filled | Closed | Canceled

  datatype EmploymentType = FullTime | PartTime | Contract | OtherEmployment

  datatype WorkModel = OnSite | Hybrid | Remote

  datatype CompensationState = Disclosed | NotRequired | WithheldPendingDisclosure

  datatype Job = Job(
    id: string,
    slug: string,
    status: Status,
    title: string,
    hiringOrg: string,
    team: string,
    employmentType: EmploymentType,
    workModel: WorkModel,
    jobLocations: string,
    applicantLocationRules: Option<string>,
    datePosted: int,
    validThrough: Option<int>,
    compensationState: CompensationState,
    compensationMin: Option<int>,
    compensationMax: Option<int>,
    compensationCurrency: Option<string>,
    featured: bool,
    applyUrl: string,
    description: string,
    lastVerifiedAt: int,
    createdBy: string)

  function StatusName(s: Status): string {
    match s
    case Draft => "draft"
    case Approved => "approved"
    case Open => "open"
    case Paused => "paused"
    case Filled => "filled"
    case Closed => "closed"
    case Canceled => "canceled"
  }

  function EmploymentTypeName(e: EmploymentType): string {
    match e
    case FullTime => "full_time"
    case PartTime => "part_time"
    case Contract => "contract"
    case OtherEmployment => "other"
  }

  function WorkModelName(w: WorkModel): string {
    match w
    case OnSite => "on_site"
    case Hybrid => "hybrid"
    case Remote => "remote"
  }

  function CompensationStateName(c: CompensationState): string {
    match c
    case Disclosed => "disclosed"
    case NotRequired => "not_required"
    case WithheldPendingDisclosure => "withheld_pending_disclosure"
  }

  // Within each vocabulary different members have different names.

  lemma StatusNamesDiffer(s: Status, s': Status)
    requires s != s'
    ensures StatusName(s) != StatusName(s')
  {
    assert |StatusName(s)| != |StatusName(s')| || StatusName(s)[0] != StatusName(s')[0];
  }

  lemma EmploymentTypeNamesDiffer(e: EmploymentType, e': EmploymentType)
    requires e != e'
    ensures EmploymentTypeName(e) != EmploymentTypeName(e')
  {
    assert |EmploymentTypeName(e)| != |EmploymentTypeName(e')| || EmploymentTypeName(e)[0] != EmploymentTypeName(e')[0];
  }

  lemma WorkModelNamesDiffer(w: WorkModel, w': WorkModel)
    requires w != w'
    ensures WorkModelName(w) != WorkModelName(w')
  {
    assert WorkModelName(w)[0] != WorkModelName(w')[0];
  }

  lemma CompensationStateNamesDiffer(c: CompensationState, c': CompensationState)
    requires c != c'
    ensures CompensationStateName(c) != CompensationStateName(c')
  {
    assert CompensationStateName(c)[0] != CompensationStateName(c')[0];
  }

  lemma NamesAreNotEmpty(w: WorkModel, e: EmploymentType)
    ensures WorkModelName(w) != "" && EmploymentTypeName(e) != ""
  {
  }

  /** What `str.strip` removes. */
  predicate IsSpace(c: char) {
    || '\U{0009}' <= c <= '\U{000D}'
    || '\U{001C}' <= c <= '\U{0020}'
    || c == '\U{0085}' || c == '\U{00A0}' || c == '\U{1680}'
    || '\U{2000}' <= c <= '\U{200A}'
    || c == '\U{2028}' || c == '\U{2029}' || c == '\U{202F}' || c == '\U{205F}' || c == '\U{3000}'
  }

  /** `not text.strip()` */
  predicate Blank(text: string) {
    forall i :: 0 <= i < |text| ==> IsSpace(text[i])
  }
}
