/**
 * The patient-facing pages: the doctor catalog with its filters and paging,
 * the per-patient listings, and the two request handlers that save new
 * consultations and travel plans into the store.
 */
module MainViews {
  import opened Wrappers
  import opened Text
  import opened Collections
  import opened MainModels
  import opened MainForms

  // ---------------------------------------------------------------------
  // Paging, as the site's paginator serves a `?page=` parameter.
  // ---------------------------------------------------------------------

  const DoctorsPerPage: nat := 12
  const RequestsPerPage: nat := 10
  const DashboardLimit: nat := 5

  /** The number of pages: never zero, so an empty listing still has page 1. */
  function NumPages(count: nat, perPage: nat): (n: nat)
    requires perPage > 0
    ensures n >= 1
    ensures count == 0 ==> n == 1
    ensures count > 0 ==> (n - 1) * perPage < count <= n * perPage
  {
    if count == 0 then 1
    else
      var n := (count + perPage - 1) / perPage;
      CeilingDivision(count, perPage, n);
      n
  }

  lemma CeilingDivision(count: nat, perPage: nat, n: int)
    requires count > 0 && perPage > 0 && n == (count + perPage - 1) / perPage
    ensures n >= 1 && (n - 1) * perPage < count <= n * perPage
  {
    var m := count + perPage - 1;
    assert m == n * perPage + m % perPage;
    assert (n - 1) * perPage == n * perPage - perPage;
  }

  lemma MulMonotonic(a: int, b: int, c: nat)
    requires a <= b
    ensures a * c <= b * c
  {
  }

  /**
   * The page actually served: a request that is absent or not an integer
   * gets the first page, one outside 1..NumPages gets the last page.
   */
  function PageNumber(requested: Option<string>, count: nat, perPage: nat): (n: nat)
    requires perPage > 0
    ensures 1 <= n <= NumPages(count, perPage)
    ensures (requested.None? || ParseInt(requested.value).None?) ==> n == 1
    ensures requested.Some? && ParseInt(requested.value).Some? ==>
      var k := ParseInt(requested.value).value;
      (1 <= k <= NumPages(count, perPage) ==> n == k) &&
      (k < 1 || k > NumPages(count, perPage) ==> n == NumPages(count, perPage))
  {
    var last := NumPages(count, perPage);
    match requested
    case None => 1
    case Some(text) =>
      match ParseInt(text)
      case None => 1
      case Some(k) => if 1 <= k <= last then k else last
  }

  /** Where page `n` begins. */
  function PageStart(n: nat, perPage: nat): nat
    requires n >= 1
  {
    (n - 1) * perPage
  }

  /** A served page begins inside a non-empty listing. */
  lemma PageStartInside(n: nat, count: nat, perPage: nat)
    requires perPage > 0 && count > 0 && 1 <= n <= NumPages(count, perPage)
    ensures PageStart(n, perPage) < count
  {
    MulMonotonic(n - 1, NumPages(count, perPage) - 1, perPage);
  }

  /**
   * The items on the served page: at most `perPage` of them, the contiguous
   * run from the page's first position (a full page, or the tail), and never
   * empty while there are items at all.
   */
  function GetPage<T>(items: seq<T>, perPage: nat, requested: Option<string>): (r: seq<T>)
    requires perPage > 0
    ensures |r| <= perPage
    ensures var start := PageStart(PageNumber(requested, |items|, perPage), perPage);
      && start + |r| <= |items| && r == items[start..start + |r|]
      && (|r| == perPage || start + |r| == |items|)
    ensures |items| > 0 ==> |r| > 0
    ensures IsServedPage(r, items, perPage, requested)
  {
    var n := PageNumber(requested, |items|, perPage);
    var bottom := PageStart(n, perPage);
    if |items| == 0 then []
    else
      PageStartInside(n, |items|, perPage);
      var top := if bottom + perPage < |items| then bottom + perPage else |items|;
      items[bottom..top]
  }

  /**
   * `r` is the page that `requested` serves from `items`: the run that starts
   * at the served page's first position, `perPage` long or up to the end.
   */
  ghost predicate IsServedPage<T>(r: seq<T>, items: seq<T>, perPage: nat, requested: Option<string>)
    requires perPage > 0
  {
    var start := PageStart(PageNumber(requested, |items|, perPage), perPage);
    && start + |r| <= |items| && r == items[start..start + |r|]
    && |r| == (if start + perPage <= |items| then perPage else |items| - start)
  }

  /** Item `i` lies on page `i / perPage + 1`, at offset `i % perPage`. */
  lemma ItemPosition(i: nat, count: nat, perPage: nat)
    requires perPage > 0 && i < count
    ensures i / perPage + 1 <= NumPages(count, perPage)
    ensures PageStart(i / perPage + 1, perPage) + i % perPage == i
  {
    var q := i / perPage;
    var last := NumPages(count, perPage);
    assert i == q * perPage + i % perPage;
    if q + 1 > last {
      MulMonotonic(last, q, perPage);
    }
  }

  /** Every item can be reached: item `i` is entry `i % perPage` of page `i / perPage + 1`. */
  lemma EveryItemOnItsPage<T>(items: seq<T>, perPage: nat, i: nat)
    requires perPage > 0 && i < |items|
    ensures var page := GetPage(items, perPage, Some(ShowNat(i / perPage + 1)));
      i % perPage < |page| && page[i % perPage] == items[i]
  {
    var n := i / perPage + 1;
    ItemPosition(i, |items|, perPage);
    ParseIdOfShowNat(n);
    assert PageNumber(Some(ShowNat(n)), |items|, perPage) == n;
    var page := GetPage(items, perPage, Some(ShowNat(n)));
    var start := PageStart(n, perPage);
    assert start + i % perPage == i;
    assert page == items[start..start + |page|];
  }

  // ---------------------------------------------------------------------
  // The doctor catalog.
  // ---------------------------------------------------------------------

  /** A query parameter counts only when present and non-empty. */
  predicate Given(q: Option<string>)
  {
    q.Some? && q.value != ""
  }

  /** Case-insensitive substring search, as `icontains` matches. */
  predicate IContains(text: string, term: string)
  {
    Contains(Lower(text), Lower(term))
  }

  /** The search term occurs in the doctor's name, hospital or specialization code. */
  predicate MatchesSearch(d: Doctor, term: string)
  {
    IContains(d.name, term) || IContains(d.hospital, term) || IContains(SpecializationCode(d.specialization), term)
  }

  /** The catalog's whole criterion, stated once for a single doctor. */
  predicate Listed(d: Doctor, specialization: Option<string>, search: Option<string>)
  {
    && d.isAvailable
    && (Given(specialization) ==> SpecializationCode(d.specialization) == specialization.value)
    && (Given(search) ==> MatchesSearch(d, search.value))
  }

  function IsAvailableDoctor(d: Doctor): bool { d.isAvailable }

  /** The specialization filter, as a condition on one doctor. */
  function HasSpecialization(code: string): Doctor -> bool
  {
    (d: Doctor) => SpecializationCode(d.specialization) == code
  }

  /** The search filter, as a condition on one doctor. */
  function MatchesTerm(term: string): Doctor -> bool
  {
    (d: Doctor) => MatchesSearch(d, term)
  }

  /**
   * The doctor listing, filtered as the page narrows it step by step:
   * available doctors, then the exact specialization code, then the search.
   */
  function DoctorListing(doctors: seq<Doctor>, specialization: Option<string>, search: Option<string>)
    : (r: seq<Doctor>)
    ensures forall k :: 0 <= k < |r| ==> r[k] in doctors && Listed(r[k], specialization, search)
    ensures forall k :: 0 <= k < |doctors| && Listed(doctors[k], specialization, search) ==> doctors[k] in r
  {
    var available := Filter(doctors, IsAvailableDoctor);
    var bySpecialization :=
      if Given(specialization) then Filter(available, HasSpecialization(specialization.value))
      else available;
    if Given(search) then Filter(bySpecialization, MatchesTerm(search.value))
    else bySpecialization
  }

  /** The catalog's criterion as a condition on one doctor. */
  function ListedBy(specialization: Option<string>, search: Option<string>): Doctor -> bool
  {
    (d: Doctor) => Listed(d, specialization, search)
  }

  /** The listing keeps the catalog's order: it is one filter by the whole criterion. */
  lemma DoctorListingKeepsOrder(doctors: seq<Doctor>, specialization: Option<string>, search: Option<string>)
    ensures DoctorListing(doctors, specialization, search) == Filter(doctors, ListedBy(specialization, search))
  {
    var bySpecialization := (d: Doctor) =>
      d.isAvailable && (Given(specialization) ==> SpecializationCode(d.specialization) == specialization.value);
    if Given(specialization) {
      FilterFilter(doctors, IsAvailableDoctor, HasSpecialization(specialization.value), bySpecialization);
    } else {
      FilterSameCondition(doctors, IsAvailableDoctor, bySpecialization);
    }
    if Given(search) {
      FilterFilter(doctors, bySpecialization, MatchesTerm(search.value), ListedBy(specialization, search));
    } else {
      FilterSameCondition(doctors, bySpecialization, ListedBy(specialization, search));
    }
  }

  /** One page of the doctor listing. */
  function DoctorsPage(doctors: seq<Doctor>, specialization: Option<string>, search: Option<string>,
                       page: Option<string>): (r: seq<Doctor>)
    ensures |r| <= DoctorsPerPage
    ensures forall k :: 0 <= k < |r| ==> r[k] in doctors && Listed(r[k], specialization, search)
    ensures IsServedPage(r, DoctorListing(doctors, specialization, search), DoctorsPerPage, page)
  {
    var listing := DoctorListing(doctors, specialization, search);
    PageItemsListed(listing, DoctorsPerPage, page);
    GetPage(listing, DoctorsPerPage, page)
  }

  /** Every item on a page comes from the listing it pages. */
  lemma PageItemsListed<T>(items: seq<T>, perPage: nat, page: Option<string>)
    requires perPage > 0
    ensures var r := GetPage(items, perPage, page); forall k :: 0 <= k < |r| ==> r[k] in items
  {
    var r := GetPage(items, perPage, page);
    var start := PageStart(PageNumber(page, |items|, perPage), perPage);
    assert forall k :: 0 <= k < |r| ==> r[k] == items[start + k];
  }

  // ---------------------------------------------------------------------
  // Per-patient listings: own records, newest first.
  // ---------------------------------------------------------------------

  function ConsultationPatient(c: Consultation): UserId { c.patient }
  function ConsultationCreated(c: Consultation): int { c.createdAt }
  function TravelPlanPatient(p: TravelPlan): UserId { p.patient }
  function TravelPlanCreated(p: TravelPlan): int { p.createdAt }

  /** The records that belong to `user`, in stored order. */
  function OwnedBy<T>(records: seq<T>, owner: T -> UserId, user: UserId): seq<T>
  {
    Filter(records, (x: T) => owner(x) == user)
  }

  /** The user's own records, newest first: exactly their records, reordered. */
  function OwnNewestFirst<T(==)>(records: seq<T>, owner: T -> UserId, created: T -> int, user: UserId)
    : (r: seq<T>)
    ensures NewestFirst(r, created)
    ensures multiset(r) == multiset(OwnedBy(records, owner, user))
    ensures forall k :: 0 <= k < |r| ==> owner(r[k]) == user && r[k] in records
    ensures forall k :: 0 <= k < |records| && owner(records[k]) == user ==> records[k] in r
  {
    var own := OwnedBy(records, owner, user);
    var r := SortNewestFirst(own, created);
    assert forall k :: 0 <= k < |r| ==> r[k] in multiset(own);
    assert forall k :: 0 <= k < |records| && owner(records[k]) == user ==> records[k] in multiset(r) by {
      forall k | 0 <= k < |records| && owner(records[k]) == user
        ensures records[k] in multiset(r)
      {
        assert records[k] in own;
      }
    }
    r
  }

  /** A newest-first slice is still newest first. */
  lemma SliceNewestFirst<T>(s: seq<T>, created: T -> int, lo: nat, hi: nat)
    requires lo <= hi <= |s| && NewestFirst(s, created)
    ensures NewestFirst(s[lo..hi], created)
  {
    assert forall i, j :: 0 <= i < j < hi - lo ==> s[lo..hi][i] == s[lo + i] && s[lo..hi][j] == s[lo + j];
  }

  /**
   * `shown` is the first `limit` of the user's records, newest first: as many
   * as there are up to `limit`, and exactly the front of the user's
   * newest-first list, so no record appears more often than it is stored.
   */
  ghost predicate NewestShown<T>(shown: seq<T>, records: seq<T>, owner: T -> UserId, created: T -> int,
                                     user: UserId, limit: nat)
  {
    var own := OwnedBy(records, owner, user);
    var all := OwnNewestFirst(records, owner, created, user);
    && |shown| == (if |own| < limit then |own| else limit)
    && |shown| <= |all| && shown == all[..|shown|]
    && multiset(shown) <= multiset(own)
  }

  /** The first `limit` of the user's records, newest first. */
  function NewestOwn<T(==)>(records: seq<T>, owner: T -> UserId, created: T -> int, user: UserId, limit: nat)
    : (r: seq<T>)
    ensures |r| == (if |OwnedBy(records, owner, user)| < limit then |OwnedBy(records, owner, user)| else limit)
    ensures NewestFirst(r, created)
    ensures forall k :: 0 <= k < |r| ==> owner(r[k]) == user && r[k] in records
    ensures var all := OwnNewestFirst(records, owner, created, user); |r| <= |all| && r == all[..|r|]
    ensures multiset(r) <= multiset(OwnedBy(records, owner, user))
    ensures NewestShown(r, records, owner, created, user, limit)
  {
    var all := OwnNewestFirst(records, owner, created, user);
    PrefixSubMultiset(all, if |all| < limit then |all| else limit);
    assert |all| == |multiset(all)| == |OwnedBy(records, owner, user)|;
    var n := if |all| < limit then |all| else limit;
    SliceNewestFirst(all, created, 0, n);
    assert forall k :: 0 <= k < n ==> all[..n][k] == all[k];
    all[..n]
  }

  /** A prefix holds each element at most as often as the whole sequence. */
  lemma PrefixSubMultiset<T>(s: seq<T>, n: nat)
    requires n <= |s|
    ensures multiset(s[..n]) <= multiset(s)
  {
    assert s == s[..n] + s[n..];
  }

  /** What is left out of the first `limit` is no newer than anything shown. */
  lemma NewestOwnIsNewest<T>(records: seq<T>, owner: T -> UserId, created: T -> int, user: UserId,
                                 limit: nat, k: nat, j: nat)
    requires k < |records| && owner(records[k]) == user
    requires records[k] !in NewestOwn(records, owner, created, user, limit)
    requires j < |NewestOwn(records, owner, created, user, limit)|
    ensures created(NewestOwn(records, owner, created, user, limit)[j]) >= created(records[k])
  {
    var all := OwnNewestFirst(records, owner, created, user);
    var shown := NewestOwn(records, owner, created, user, limit);
    assert shown == all[..|shown|];
    assert records[k] in all;
    var m :| 0 <= m < |all| && all[m] == records[k];
    assert shown[j] == all[j];
  }

  /** The dashboard: up to five consultations and five travel plans, the patient's newest. */
  datatype DashboardView = DashboardView(consultations: seq<Consultation>, travelPlans: seq<TravelPlan>)

  function Dashboard(consultations: seq<Consultation>, travelPlans: seq<TravelPlan>, user: UserId)
    : (v: DashboardView)
    ensures |v.consultations| <= DashboardLimit && |v.travelPlans| <= DashboardLimit
    ensures forall k :: 0 <= k < |v.consultations| ==>
      v.consultations[k].patient == user && v.consultations[k] in consultations
    ensures forall k :: 0 <= k < |v.travelPlans| ==>
      v.travelPlans[k].patient == user && v.travelPlans[k] in travelPlans
    ensures NewestFirst(v.consultations, ConsultationCreated) && NewestFirst(v.travelPlans, TravelPlanCreated)
    ensures NewestShown(v.consultations, consultations, ConsultationPatient, ConsultationCreated, user, DashboardLimit)
    ensures NewestShown(v.travelPlans, travelPlans, TravelPlanPatient, TravelPlanCreated, user, DashboardLimit)
  {
    DashboardView(
      NewestOwn(consultations, ConsultationPatient, ConsultationCreated, user, DashboardLimit),
      NewestOwn(travelPlans, TravelPlanPatient, TravelPlanCreated, user, DashboardLimit))
  }

  /** A consultation the dashboard leaves out is no newer than any it shows. */
  lemma DashboardShowsNewestConsultations(consultations: seq<Consultation>, travelPlans: seq<TravelPlan>,
                                          user: UserId, k: nat, j: nat)
    requires k < |consultations| && consultations[k].patient == user
    requires consultations[k] !in Dashboard(consultations, travelPlans, user).consultations
    requires j < |Dashboard(consultations, travelPlans, user).consultations|
    ensures Dashboard(consultations, travelPlans, user).consultations[j].createdAt >= consultations[k].createdAt
  {
    NewestOwnIsNewest(consultations, ConsultationPatient, ConsultationCreated, user, DashboardLimit, k, j);
  }

  /** A travel plan the dashboard leaves out is no newer than any it shows. */
  lemma DashboardShowsNewestTravelPlans(consultations: seq<Consultation>, travelPlans: seq<TravelPlan>,
                                        user: UserId, k: nat, j: nat)
    requires k < |travelPlans| && travelPlans[k].patient == user
    requires travelPlans[k] !in Dashboard(consultations, travelPlans, user).travelPlans
    requires j < |Dashboard(consultations, travelPlans, user).travelPlans|
    ensures Dashboard(consultations, travelPlans, user).travelPlans[j].createdAt >= travelPlans[k].createdAt
  {
    NewestOwnIsNewest(travelPlans, TravelPlanPatient, TravelPlanCreated, user, DashboardLimit, k, j);
  }

  /** One page of the patient's consultations, newest first. */
  function MyConsultations(consultations: seq<Consultation>, user: UserId, page: Option<string>)
    : (r: seq<Consultation>)
    ensures |r| <= RequestsPerPage
    ensures forall k :: 0 <= k < |r| ==> r[k].patient == user && r[k] in consultations
    ensures NewestFirst(r, ConsultationCreated)
    ensures IsServedPage(r, OwnNewestFirst(consultations, ConsultationPatient, ConsultationCreated, user),
                         RequestsPerPage, page)
  {
    OwnPage(consultations, ConsultationPatient, ConsultationCreated, user, page)
  }

  /** One page of the patient's travel plans, newest first. */
  function MyTravelPlans(travelPlans: seq<TravelPlan>, user: UserId, page: Option<string>)
    : (r: seq<TravelPlan>)
    ensures |r| <= RequestsPerPage
    ensures forall k :: 0 <= k < |r| ==> r[k].patient == user && r[k] in travelPlans
    ensures NewestFirst(r, TravelPlanCreated)
    ensures IsServedPage(r, OwnNewestFirst(travelPlans, TravelPlanPatient, TravelPlanCreated, user),
                         RequestsPerPage, page)
  {
    OwnPage(travelPlans, TravelPlanPatient, TravelPlanCreated, user, page)
  }

  /** One page of the user's own records, newest first. */
  function OwnPage<T(==)>(records: seq<T>, owner: T -> UserId, created: T -> int, user: UserId, page: Option<string>)
    : (r: seq<T>)
    ensures |r| <= RequestsPerPage
    ensures forall k :: 0 <= k < |r| ==> owner(r[k]) == user && r[k] in records
    ensures NewestFirst(r, created)
    ensures IsServedPage(r, OwnNewestFirst(records, owner, created, user), RequestsPerPage, page)
  {
    var all := OwnNewestFirst(records, owner, created, user);
    OwnRunPage(records, owner, created, user, all, page);
    GetPage(all, RequestsPerPage, page)
  }

  /** Any page of a newest-first listing of the user's records is again one. */
  lemma OwnRunPage<T>(records: seq<T>, owner: T -> UserId, created: T -> int, user: UserId, all: seq<T>,
                      page: Option<string>)
    requires NewestFirst(all, created)
    requires forall k :: 0 <= k < |all| ==> owner(all[k]) == user && all[k] in records
    ensures var r := GetPage(all, RequestsPerPage, page);
      && NewestFirst(r, created)
      && forall k :: 0 <= k < |r| ==> owner(r[k]) == user && r[k] in records
  {
    var r := GetPage(all, RequestsPerPage, page);
    var start := PageStart(PageNumber(page, |all|, RequestsPerPage), RequestsPerPage);
    SliceNewestFirst(all, created, start, start + |r|);
    assert forall k :: 0 <= k < |r| ==> r[k] == all[start + k];
  }

  // ---------------------------------------------------------------------
  // Request submission.
  // ---------------------------------------------------------------------

  /** The doctor named in the URL, if any: 0 or absence names none. */
  datatype UrlDoctor = NoUrlDoctor | UrlDoctorFound(doctor: Doctor) | UrlDoctorMissing

  function ResolveUrlDoctor(doctors: seq<Doctor>, urlDoctorId: Option<nat>): (r: UrlDoctor)
    ensures r.NoUrlDoctor? <==> urlDoctorId.None? || urlDoctorId.value == 0
    ensures r.UrlDoctorFound? ==>
      r.doctor in doctors && r.doctor.isAvailable && urlDoctorId == Some(r.doctor.id)
    ensures r.UrlDoctorMissing? <==>
      urlDoctorId.Some? && urlDoctorId.value != 0 && !OffersDoctor(doctors, urlDoctorId.value)
  {
    if urlDoctorId.None? || urlDoctorId.value == 0 then NoUrlDoctor
    else
      match FindAvailableDoctor(doctors, urlDoctorId.value)
      case None => UrlDoctorMissing
      case Some(d) => UrlDoctorFound(d)
  }

  /** The request's doctor: the one named in the URL when there is one, the form's otherwise. */
  function ChosenDoctor(urlDoctorId: Option<nat>, formDoctor: DoctorId): DoctorId
  {
    if urlDoctorId.Some? && urlDoctorId.value != 0 then urlDoctorId.value else formDoctor
  }

  /** What a request handler answers. */
  datatype Response<T> =
    | NotFound                            // the URL doctor is unknown or unavailable
    | ShowForm(errors: seq<FieldError>)   // a blank form, or the submitted one with its errors
    | Created(record: T)                  // the record that was saved
    | Refused(error: DbError)             // the database refused the row

  /**
   * The consultation request handler: the URL doctor must be available, a
   * valid form then yields a fresh consultation for the requester, whose
   * doctor is the URL doctor when one is named and the form's otherwise.
   */
  function ConsultationResponse(doctors: seq<Doctor>, requester: UserId, urlDoctorId: Option<nat>,
                                post: Option<FormData>, files: FileData, id: nat, now: nat)
    : (r: Response<Consultation>)
    ensures r.NotFound? <==> ResolveUrlDoctor(doctors, urlDoctorId).UrlDoctorMissing?
    ensures !r.NotFound? && post.None? ==> r == ShowForm([])
    ensures r.Created? <==>
      !r.NotFound? && post.Some? && CleanConsultationForm(post.value, files, doctors).Ok?
    ensures r.ShowForm? && post.Some? ==> |r.errors| > 0
    ensures !r.Refused?
    ensures r.Created? ==>
      && IsFreshConsultation(r.record)
      && r.record.id == id && r.record.patient == requester && r.record.createdAt == now
      && OffersDoctor(doctors, r.record.doctor)
      && (urlDoctorId.Some? && urlDoctorId.value != 0 ==> r.record.doctor == urlDoctorId.value)
    ensures r.Created? ==>
      && post.Some? && CleanConsultationForm(post.value, files, doctors).Ok?
      && var f := CleanConsultationForm(post.value, files, doctors).value;
         r.record == NewConsultation(id, requester, ChosenDoctor(urlDoctorId, f.doctor), f.consultationType,
                                     f.chiefComplaint, f.medicalDocuments, now)
  {
    var url := ResolveUrlDoctor(doctors, urlDoctorId);
    if url.UrlDoctorMissing? then NotFound
    else if post.None? then ShowForm([])
    else
      match CleanConsultationForm(post.value, files, doctors)
      case Err(errors) => ShowForm(errors)
      case Ok(request) =>
        var record := NewConsultation(id, requester, request.doctor, request.consultationType,
                                      request.chiefComplaint, request.medicalDocuments, now);
        var record := if url.UrlDoctorFound? then record.(doctor := url.doctor.id) else record;
        assert url.UrlDoctorFound? ==> OffersDoctor(doctors, url.doctor.id) by {
          if url.UrlDoctorFound? {
            var k :| 0 <= k < |doctors| && doctors[k] == url.doctor;
          }
        }
        Created(record)
  }

  /** The plan a valid travel-plan form builds, with the URL doctor applied, before it is saved. */
  function FormTravelPlan(request: TravelPlanRequest, urlDoctorId: Option<nat>, id: nat, patient: UserId, now: nat)
    : TravelPlan
  {
    DefaultTravelPlan(id, patient, ChosenDoctor(urlDoctorId, request.doctor), now).(
      treatmentType := request.treatmentType,
      estimatedDuration := request.estimatedDuration,
      visaAssistance := request.visaAssistance,
      accommodationAssistance := request.accommodationAssistance,
      translatorRequired := request.translatorRequired,
      notes := request.notes)
  }

  /**
   * The travel plan request handler, with the row written by `save`: the
   * site's store uses the nullable-cost save, and the schema as declared is
   * examined in TravelPlanRefusedAsDeclared.
   */
  function TravelPlanResponse(doctors: seq<Doctor>, requester: UserId, urlDoctorId: Option<nat>,
                              post: Option<FormData>, id: nat, now: nat,
                              save: TravelPlan -> Result<TravelPlan, DbError>)
    : (r: Response<TravelPlan>)
    ensures r.NotFound? <==> ResolveUrlDoctor(doctors, urlDoctorId).UrlDoctorMissing?
    ensures !r.NotFound? && post.None? ==> r == ShowForm([])
    ensures r.Created? || r.Refused? <==>
      !r.NotFound? && post.Some? && CleanTravelPlanForm(post.value, doctors).Ok?
    ensures r.ShowForm? && post.Some? ==> |r.errors| > 0
    ensures r.Created? || r.Refused? ==>
      && post.Some? && CleanTravelPlanForm(post.value, doctors).Ok?
      && var plan := FormTravelPlan(CleanTravelPlanForm(post.value, doctors).value, urlDoctorId, id, requester, now);
         (r.Created? ==> save(plan) == Ok(r.record)) && (r.Refused? ==> save(plan) == Err(r.error))
  {
    var url := ResolveUrlDoctor(doctors, urlDoctorId);
    if url.UrlDoctorMissing? then NotFound
    else if post.None? then ShowForm([])
    else
      match CleanTravelPlanForm(post.value, doctors)
      case Err(errors) => ShowForm(errors)
      case Ok(request) =>
        var plan := FormTravelPlan(request, urlDoctorId, id, requester, now);
        match save(plan)
        case Ok(row) => Created(row)
        case Err(e) => Refused(e)
  }

  /**
   * With the nullable-cost save, a valid travel plan request is always
   * saved: the row is the requester's, carries the treatment, duration,
   * flags and notes the form cleaned, starts in planning with no cost,
   * hospital, city or dates, and names the URL doctor when one is given and
   * the form's doctor otherwise.
   */
  lemma TravelPlanResponseCreates(doctors: seq<Doctor>, requester: UserId, urlDoctorId: Option<nat>,
                                  post: Option<FormData>, id: nat, now: nat)
    ensures var r := TravelPlanResponse(doctors, requester, urlDoctorId, post, id, now, SaveTravelPlan);
      && !r.Refused?
      && (r.Created? ==>
        && r.record.id == id && r.record.patient == requester && r.record.createdAt == now
        && r.record.status == Planning && r.record.estimatedCostCents == None
        && r.record.hospital == "" && r.record.city == ""
        && r.record.travelDate == None && r.record.returnDate == None
        && OffersDoctor(doctors, r.record.doctor)
        && (urlDoctorId.Some? && urlDoctorId.value != 0 ==> r.record.doctor == urlDoctorId.value)
        && post.Some? && CleanTravelPlanForm(post.value, doctors).Ok?
        && var f := CleanTravelPlanForm(post.value, doctors).value;
           r.record == TravelPlan(id, requester, ChosenDoctor(urlDoctorId, f.doctor), "", "",
                                  f.treatmentType, f.estimatedDuration, None, None, None, Planning,
                                  f.visaAssistance, f.accommodationAssistance, f.translatorRequired,
                                  f.notes, now, now))
  {
    var url := ResolveUrlDoctor(doctors, urlDoctorId);
    if url.UrlDoctorFound? {
      var k :| 0 <= k < |doctors| && doctors[k] == url.doctor;
      assert OffersDoctor(doctors, url.doctor.id);
    }
  }

  /**
   * With the schema as declared, no valid travel plan request is ever
   * saved: every one ends in the NOT NULL refusal on `estimated_cost`.
   */
  lemma TravelPlanRefusedAsDeclared(doctors: seq<Doctor>, requester: UserId, urlDoctorId: Option<nat>,
                                    post: Option<FormData>, id: nat, now: nat)
    ensures var r := TravelPlanResponse(doctors, requester, urlDoctorId, post, id, now, SaveTravelPlanAsDeclared);
      !r.Created? && (r.Refused? ==> r.error == NotNullViolated("estimated_cost"))
  {
  }

  /** A saved travel plan takes the id it was given. */
  lemma TravelPlanResponseTakesId(doctors: seq<Doctor>, requester: UserId, urlDoctorId: Option<nat>,
                                  post: Option<FormData>, id: nat, now: nat)
    ensures var r := TravelPlanResponse(doctors, requester, urlDoctorId, post, id, now, SaveTravelPlan);
      r.Created? ==> r.record.id == id
  {
  }

  /** Consultation ids rise strictly with position and stay below `next`. */
  ghost predicate ConsultationIdsAscend(cs: seq<Consultation>, next: nat)
  {
    && (forall i, j :: 0 <= i < j < |cs| ==> cs[i].id < cs[j].id)
    && (forall k :: 0 <= k < |cs| ==> cs[k].id < next)
  }

  /** Travel plan ids rise strictly with position and stay below `next`. */
  ghost predicate TravelPlanIdsAscend(ts: seq<TravelPlan>, next: nat)
  {
    && (forall i, j :: 0 <= i < j < |ts| ==> ts[i].id < ts[j].id)
    && (forall k :: 0 <= k < |ts| ==> ts[k].id < next)
  }

  /** Appending a consultation that takes the next id keeps ids ascending. */
  lemma AppendNextConsultation(cs: seq<Consultation>, next: nat, c: Consultation)
    requires ConsultationIdsAscend(cs, next) && c.id == next
    ensures ConsultationIdsAscend(cs + [c], next + 1)
  {
    assert forall k :: 0 <= k < |cs| ==> (cs + [c])[k] == cs[k];
  }

  /** Appending a travel plan that takes the next id keeps ids ascending. */
  lemma AppendNextTravelPlan(ts: seq<TravelPlan>, next: nat, p: TravelPlan)
    requires TravelPlanIdsAscend(ts, next) && p.id == next
    ensures TravelPlanIdsAscend(ts + [p], next + 1)
  {
    assert forall k :: 0 <= k < |ts| ==> (ts + [p])[k] == ts[k];
  }

  /**
   * The request tables: the doctor catalog the forms offer, the saved
   * consultations and travel plans, and the next primary key of each.
   */
  class RequestStore {
    var doctors: seq<Doctor>
    var consultations: seq<Consultation>
    var travelPlans: seq<TravelPlan>
    var nextConsultationId: nat
    var nextTravelPlanId: nat

    /** Primary keys are unique: they rise with insertion and stay below the next key. */
    ghost predicate Valid()
      reads this
    {
      && ConsultationIdsAscend(consultations, nextConsultationId)
      && TravelPlanIdsAscend(travelPlans, nextTravelPlanId)
    }

    constructor (doctors: seq<Doctor>)
      ensures Valid()
      ensures this.doctors == doctors && consultations == [] && travelPlans == []
      ensures nextConsultationId == 1 && nextTravelPlanId == 1
    {
      this.doctors := doctors;
      consultations := [];
      travelPlans := [];
      nextConsultationId := 1;
      nextTravelPlanId := 1;
    }

    /**
     * Handles a consultation request from `requester`: `post` is the
     * submitted form, None for a plain page visit.
     */
    method SubmitConsultation(requester: UserId, urlDoctorId: Option<nat>, post: Option<FormData>,
                              files: FileData, now: nat)
      returns (response: Response<Consultation>)
      requires Valid()
      modifies this
      ensures Valid()
      ensures response == ConsultationResponse(doctors, requester, urlDoctorId, post, files,
                                               old(nextConsultationId), now)
      ensures response.Created? ==>
        consultations == old(consultations) + [response.record] && nextConsultationId == old(nextConsultationId) + 1
      ensures !response.Created? ==>
        consultations == old(consultations) && nextConsultationId == old(nextConsultationId)
      ensures doctors == old(doctors) && travelPlans == old(travelPlans) && nextTravelPlanId == old(nextTravelPlanId)
    {
      response := ConsultationResponse(doctors, requester, urlDoctorId, post, files, nextConsultationId, now);
      if response.Created? {
        AppendNextConsultation(consultations, nextConsultationId, response.record);
        consultations := consultations + [response.record];
        nextConsultationId := nextConsultationId + 1;
      }
    }

    /**
     * Handles a travel plan request from `requester`; the row is written
     * with the nullable-cost save.
     */
    method SubmitTravelPlan(requester: UserId, urlDoctorId: Option<nat>, post: Option<FormData>, now: nat)
      returns (response: Response<TravelPlan>)
      requires Valid()
      modifies this
      ensures Valid()
      ensures response == TravelPlanResponse(doctors, requester, urlDoctorId, post,
                                             old(nextTravelPlanId), now, SaveTravelPlan)
      ensures response.Created? ==>
        travelPlans == old(travelPlans) + [response.record] && nextTravelPlanId == old(nextTravelPlanId) + 1
      ensures !response.Created? ==>
        travelPlans == old(travelPlans) && nextTravelPlanId == old(nextTravelPlanId)
      ensures doctors == old(doctors) && consultations == old(consultations)
      ensures nextConsultationId == old(nextConsultationId)
    {
      response := TravelPlanResponse(doctors, requester, urlDoctorId, post, nextTravelPlanId, now, SaveTravelPlan);
      TravelPlanResponseTakesId(doctors, requester, urlDoctorId, post, nextTravelPlanId, now);
      if response.Created? {
        AppendNextTravelPlan(travelPlans, nextTravelPlanId, response.record);
        travelPlans := travelPlans + [response.record];
        nextTravelPlanId := nextTravelPlanId + 1;
      }
    }
  }
}
