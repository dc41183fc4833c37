/**
 * The records of the medical-travel site: doctors, patient profiles,
 * consultation requests, travel plans and testimonials, with their fixed
 * choice codes, their default values, the bounds of their decimal columns
 * and their newest-first ordering.
 */
module MainModels {
  import opened Wrappers
  import opened Text
  import opened Locale

  type UserId = nat
  type DoctorId = nat

  // ---------------------------------------------------------------------
  // Choice lists. Each enumeration is stored as a fixed string code.
  // ---------------------------------------------------------------------

  /** The value whose code is `code`, searching `values` in order. */
  function FindByCode<T(==)>(values: seq<T>, code: T -> string, c: string): (r: Option<T>)
    ensures r.Some? ==> r.value in values && code(r.value) == c
    ensures r.None? ==> forall v :: v in values ==> code(v) != c
    decreases |values|
  {
    if |values| == 0 then None
    else if code(values[0]) == c then Some(values[0])
    else FindByCode(values[1..], code, c)
  }

  /** With distinct codes, a value's own code finds that value. */
  lemma {:induction false} FindByOwnCode<T>(values: seq<T>, code: T -> string, v: T)
    requires v in values
    requires forall i, j :: 0 <= i < j < |values| ==> code(values[i]) != code(values[j])
    ensures FindByCode(values, code, code(v)) == Some(v)
    decreases |values|
  {
    if values[0] != v {
      assert v in values[1..];
      var k :| 0 <= k < |values[1..]| && values[1..][k] == v;
      assert code(values[0]) != code(values[k + 1]);
      FindByOwnCode(values[1..], code, v);
    }
  }

  datatype Specialization =
    | Cardiology | Neurology | Oncology | Orthopedics | Dermatology | Gastroenterology
    | Pediatrics | Psychiatry | Radiology | Surgery | Other

  const AllSpecializations: seq<Specialization> :=
    [Cardiology, Neurology, Oncology, Orthopedics, Dermatology, Gastroenterology,
     Pediatrics, Psychiatry, Radiology, Surgery, Other]

  function SpecializationCode(s: Specialization): string
  {
    match s
    case Cardiology => "cardiology"
    case Neurology => "neurology"
    case Oncology => "oncology"
    case Orthopedics => "orthopedics"
    case Dermatology => "dermatology"
    case Gastroenterology => "gastroenterology"
    case Pediatrics => "pediatrics"
    case Psychiatry => "psychiatry"
    case Radiology => "radiology"
    case Surgery => "surgery"
    case Other => "other"
  }

  function ParseSpecialization(code: string): Option<Specialization>
  {
    FindByCode(AllSpecializations, SpecializationCode, code)
  }

  /** No two listed specializations share a code. */
  lemma SpecializationCodesDistinct()
    ensures forall i, j :: 0 <= i < j < |AllSpecializations| ==>
      SpecializationCode(AllSpecializations[i]) != SpecializationCode(AllSpecializations[j])
  {
  }

  /** Eleven specializations, each listed once with its own code, and every code reads back. */
  lemma SpecializationCodes()
    ensures |AllSpecializations| == 11
    ensures forall s :: s in AllSpecializations
    ensures forall s :: ParseSpecialization(SpecializationCode(s)) == Some(s)
  {
    SpecializationCodesDistinct();
    forall s ensures s in AllSpecializations && ParseSpecialization(SpecializationCode(s)) == Some(s) {
      assert s in AllSpecializations by {
        match s {
          case Cardiology => case Neurology => case Oncology => case Orthopedics =>
          case Dermatology => case Gastroenterology => case Pediatrics => case Psychiatry =>
          case Radiology => case Surgery => case Other =>
        }
      }
      FindByOwnCode(AllSpecializations, SpecializationCode, s);
    }
  }

  /** The accepted specialization codes are exactly the eleven listed ones. */
  lemma SpecializationCodeSet(c: string)
    ensures ParseSpecialization(c).Some? <==>
      c in {"cardiology", "neurology", "oncology", "orthopedics", "dermatology", "gastroenterology",
            "pediatrics", "psychiatry", "radiology", "surgery", "other"}
  {
    SpecializationCodes();
  }

  datatype ConsultationType = Teleconsultation | SecondOpinion | PreTravel

  const AllConsultationTypes: seq<ConsultationType> := [Teleconsultation, SecondOpinion, PreTravel]

  function ConsultationTypeCode(t: ConsultationType): string
  {
    match t
    case Teleconsultation => "teleconsultation"
    case SecondOpinion => "second_opinion"
    case PreTravel => "pre_travel"
  }

  function ParseConsultationType(code: string): Option<ConsultationType>
  {
    FindByCode(AllConsultationTypes, ConsultationTypeCode, code)
  }

  /** Exactly three consultation type codes, each reading back as its type. */
  lemma ConsultationTypeCodes()
    ensures forall t :: ParseConsultationType(ConsultationTypeCode(t)) == Some(t)
    ensures forall c :: ParseConsultationType(c).Some? <==>
      c in {"teleconsultation", "second_opinion", "pre_travel"}
  {
    forall t ensures ParseConsultationType(ConsultationTypeCode(t)) == Some(t) {
      assert t in AllConsultationTypes by { match t { case Teleconsultation => case SecondOpinion => case PreTravel => } }
      FindByOwnCode(AllConsultationTypes, ConsultationTypeCode, t);
    }
  }

  datatype ConsultationStatus = Pending | Scheduled | Completed | Cancelled

  const AllConsultationStatuses: seq<ConsultationStatus> := [Pending, Scheduled, Completed, Cancelled]

  function ConsultationStatusCode(s: ConsultationStatus): string
  {
    match s
    case Pending => "pending"
    case Scheduled => "scheduled"
    case Completed => "completed"
    case Cancelled => "cancelled"
  }

  function ParseConsultationStatus(code: string): Option<ConsultationStatus>
  {
    FindByCode(AllConsultationStatuses, ConsultationStatusCode, code)
  }

  /** Exactly four consultation status codes, each reading back as its status. */
  lemma ConsultationStatusCodes()
    ensures forall s :: ParseConsultationStatus(ConsultationStatusCode(s)) == Some(s)
    ensures forall c :: ParseConsultationStatus(c).Some? <==>
      c in {"pending", "scheduled", "completed", "cancelled"}
  {
    forall s ensures ParseConsultationStatus(ConsultationStatusCode(s)) == Some(s) {
      assert s in AllConsultationStatuses by { match s { case Pending => case Scheduled => case Completed => case Cancelled => } }
      FindByOwnCode(AllConsultationStatuses, ConsultationStatusCode, s);
    }
  }

  datatype TravelStatus = Planning | Approved | VisaProcessing | TravelScheduled | TravelCompleted | TravelCancelled

  const AllTravelStatuses: seq<TravelStatus> :=
    [Planning, Approved, VisaProcessing, TravelScheduled, TravelCompleted, TravelCancelled]

  function TravelStatusCode(s: TravelStatus): string
  {
    match s
    case Planning => "planning"
    case Approved => "approved"
    case VisaProcessing => "visa_processing"
    case TravelScheduled => "scheduled"
    case TravelCompleted => "completed"
    case TravelCancelled => "cancelled"
  }

  function ParseTravelStatus(code: string): Option<TravelStatus>
  {
    FindByCode(AllTravelStatuses, TravelStatusCode, code)
  }

  /** Exactly six travel-plan status codes, each reading back as its status. */
  lemma TravelStatusCodes()
    ensures forall s :: ParseTravelStatus(TravelStatusCode(s)) == Some(s)
    ensures forall c :: ParseTravelStatus(c).Some? <==>
      c in {"planning", "approved", "visa_processing", "scheduled", "completed", "cancelled"}
  {
    forall s ensures ParseTravelStatus(TravelStatusCode(s)) == Some(s) {
      assert s in AllTravelStatuses by { match s { case Planning => case Approved => case VisaProcessing => case TravelScheduled => case TravelCompleted => case TravelCancelled => } }
      FindByOwnCode(AllTravelStatuses, TravelStatusCode, s);
    }
  }

  datatype Gender = Male | Female | OtherGender

  function GenderCode(g: Gender): string
  {
    match g
    case Male => "M"
    case Female => "F"
    case OtherGender => "O"
  }

  function ParseGender(code: string): (r: Option<Gender>)
    ensures r.Some? ==> GenderCode(r.value) == code
    ensures r.None? <==> code !in {"M", "F", "O"}
  {
    if code == "M" then Some(Male) else if code == "F" then Some(Female)
    else if code == "O" then Some(OtherGender) else None
  }

  // ---------------------------------------------------------------------
  // Decimal columns. Money is held as an integer number of cents, so the
  // two decimal places are built in and only the digit count is checked.
  // ---------------------------------------------------------------------

  function Pow10(n: nat): (r: nat)
    ensures r >= 1
  {
    if n == 0 then 1 else 10 * Pow10(n - 1)
  }

  /** A column of `maxDigits` digits, two of them decimals, holds `cents`. */
  predicate DecimalFits(cents: int, maxDigits: nat)
  {
    -(Pow10(maxDigits) as int) < cents < Pow10(maxDigits)
  }

  function Abs(x: int): nat
  {
    if x < 0 then -x else x
  }

  /** A number below 10^n is exactly one written with at most n digits. */
  lemma {:induction false} DigitCountBound(m: nat, n: nat)
    requires n >= 1
    ensures |ShowNat(m)| <= n <==> m < Pow10(n)
    decreases m
  {
    if m >= 10 {
      if n == 1 {
        assert |ShowNat(m)| >= 2 by { assert |ShowNat(m)| == |ShowNat(m / 10)| + 1; }
      } else {
        DigitCountBound(m / 10, n - 1);
        assert |ShowNat(m)| == |ShowNat(m / 10)| + 1;
        assert m < Pow10(n) <==> m / 10 < Pow10(n - 1);
      }
    } else {
      assert Pow10(n) >= 10 by { assert Pow10(n) == 10 * Pow10(n - 1); }
    }
  }

  /** A consultation fee fits its column (10 digits, 2 of them decimals). */
  predicate FeeFits(cents: int)
  {
    DecimalFits(cents, 10)
  }

  /** An estimated cost fits its column (12 digits, 2 of them decimals). */
  predicate CostFits(cents: int)
  {
    DecimalFits(cents, 12)
  }

  /** The fee bound is "at most 10 digits counting the two decimals". */
  lemma FeeFitsDigits(cents: int)
    ensures FeeFits(cents) <==> |ShowNat(Abs(cents))| <= 10
    ensures FeeFits(9999999999) && !FeeFits(10000000000)
  {
    DigitCountBound(Abs(cents), 10);
  }

  /** The cost bound is "at most 12 digits counting the two decimals". */
  lemma CostFitsDigits(cents: int)
    ensures CostFits(cents) <==> |ShowNat(Abs(cents))| <= 12
    ensures CostFits(999999999999) && !CostFits(1000000000000)
  {
    DigitCountBound(Abs(cents), 12);
  }

  // ---------------------------------------------------------------------
  // Records. Times are clock readings (`now`) supplied by the caller.
  // ---------------------------------------------------------------------

  datatype Doctor = Doctor(
    id: DoctorId,
    name: string,
    nameChinese: string,
    specialization: Specialization,
    hospital: string,
    city: string,
    experienceYears: int,
    education: string,
    biography: string,
    biographyBangla: string,
    consultationFeeCents: int,
    isAvailable: bool,
    createdAt: nat,
    updatedAt: nat)

  datatype PatientProfile = PatientProfile(
    id: nat,
    user: UserId,
    phone: string,
    dateOfBirth: Option<string>,
    gender: Gender,
    address: string,
    emergencyContact: string,
    medicalHistory: string,
    preferredLanguage: Language,
    createdAt: nat,
    updatedAt: nat)

  datatype Consultation = Consultation(
    id: nat,
    patient: UserId,
    doctor: DoctorId,
    consultationType: ConsultationType,
    status: ConsultationStatus,
    scheduledDate: Option<nat>,
    chiefComplaint: string,
    medicalDocuments: Option<string>,
    notes: string,
    prescription: string,
    followUpRequired: bool,
    createdAt: nat,
    updatedAt: nat)

  /** The state a consultation is in before staff have touched it. */
  predicate IsFreshConsultation(c: Consultation)
  {
    && c.status == Pending
    && c.scheduledDate == None
    && c.notes == ""
    && c.prescription == ""
    && !c.followUpRequired
    && c.createdAt == c.updatedAt
  }

  /**
   * A consultation as first saved: the request's own fields come from the
   * caller and every other column takes its declared default.
   */
  function NewConsultation(id: nat, patient: UserId, doctor: DoctorId, kind: ConsultationType,
                           complaint: string, documents: Option<string>, now: nat): (c: Consultation)
    ensures IsFreshConsultation(c)
    ensures c.id == id && c.patient == patient && c.doctor == doctor && c.consultationType == kind
    ensures c.chiefComplaint == complaint && c.medicalDocuments == documents && c.createdAt == now
  {
    Consultation(id, patient, doctor, kind, Pending, None, complaint, documents, "", "", false, now, now)
  }

  datatype TravelPlan = TravelPlan(
    id: nat,
    patient: UserId,
    doctor: DoctorId,
    hospital: string,
    city: string,
    treatmentType: string,
    estimatedDuration: string,
    /** None while no cost has been entered. */
    estimatedCostCents: Option<int>,
    travelDate: Option<nat>,
    returnDate: Option<nat>,
    status: TravelStatus,
    visaAssistance: bool,
    accommodationAssistance: bool,
    translatorRequired: bool,
    notes: string,
    createdAt: nat,
    updatedAt: nat)

  /** The defaults a travel plan starts from before any field is filled in. */
  predicate HasTravelPlanDefaults(p: TravelPlan)
  {
    && p.status == Planning
    && p.visaAssistance && p.accommodationAssistance && p.translatorRequired
    && p.hospital == "" && p.city == ""
    && p.estimatedCostCents == None
    && p.travelDate == None && p.returnDate == None
    && p.notes == ""
  }

  /**
   * A travel plan holding only its declared defaults, for a patient and a
   * doctor; the form then overwrites the fields it reads.
   */
  function DefaultTravelPlan(id: nat, patient: UserId, doctor: DoctorId, now: nat): (p: TravelPlan)
    ensures HasTravelPlanDefaults(p)
    ensures p.id == id && p.patient == patient && p.doctor == doctor && p.createdAt == now
  {
    TravelPlan(id, patient, doctor, "", "", "", "", None, None, None, Planning, true, true, true, "", now, now)
  }

  /** What the database reports when an insert breaks a column constraint. */
  datatype DbError = NotNullViolated(column: string)

  /**
   * Saving a travel-plan row as the schema declares it: `estimated_cost` has
   * neither a default nor `null=True`, so a row without a cost is refused.
   */
  function SaveTravelPlanAsDeclared(p: TravelPlan): (r: Result<TravelPlan, DbError>)
    ensures r.Ok? <==> p.estimatedCostCents.Some?
    ensures r.Ok? ==> r.value == p
    ensures r.Err? ==> r.error == NotNullViolated("estimated_cost")
  {
    if p.estimatedCostCents.None? then Err(NotNullViolated("estimated_cost")) else Ok(p)
  }

  /**
   * Saving a travel-plan row with `estimated_cost` nullable, so that a plan
   * is kept without a cost until one is entered.
   */
  function SaveTravelPlan(p: TravelPlan): (r: Result<TravelPlan, DbError>)
    ensures r.Ok? && r.value == p
    ensures SaveTravelPlanAsDeclared(p).Ok? ==> r == SaveTravelPlanAsDeclared(p)
    ensures r != SaveTravelPlanAsDeclared(p) <==> p.estimatedCostCents.None?
  {
    Ok(p)
  }

  /** A plan built from its defaults carries no cost, so the declared schema refuses it. */
  lemma DefaultTravelPlanRefusedAsDeclared(id: nat, patient: UserId, doctor: DoctorId, now: nat,
                                           treatment: string, duration: string,
                                           visa: bool, accommodation: bool, translator: bool, notes: string)
    ensures var p := DefaultTravelPlan(id, patient, doctor, now).(
              treatmentType := treatment, estimatedDuration := duration, visaAssistance := visa,
              accommodationAssistance := accommodation, translatorRequired := translator, notes := notes);
            SaveTravelPlanAsDeclared(p) == Err(NotNullViolated("estimated_cost")) && SaveTravelPlan(p) == Ok(p)
  {
  }

  datatype Testimonial = Testimonial(
    id: nat,
    patientName: string,
    patientNameBangla: string,
    treatment: string,
    testimonial: string,
    testimonialBangla: string,
    rating: int,
    isFeatured: bool,
    isPublished: bool,
    createdAt: nat)

  /** The rating choices, one through five as `range(1, 6)` lists them. */
  const RatingChoices: seq<int> := seq(5, i => i + 1)

  /** The ratings the choice list admits are exactly 1..5. */
  lemma RatingChoicesAreOneToFive(r: int)
    ensures r in RatingChoices <==> 1 <= r <= 5
  {
    if 1 <= r <= 5 {
      assert RatingChoices[r - 1] == r;
    }
  }

  /** A fresh testimonial is published and not featured. */
  function NewTestimonial(id: nat, name: string, treatment: string, text: string, rating: int, now: nat)
    : (t: Testimonial)
    ensures t.isPublished && !t.isFeatured && t.rating == rating && t.createdAt == now
  {
    Testimonial(id, name, "", treatment, text, "", rating, false, true, now)
  }

  // ---------------------------------------------------------------------
  // Ordering: consultations, travel plans and testimonials list the most
  // recently created first.
  // ---------------------------------------------------------------------

  ghost predicate NewestFirst<T>(s: seq<T>, created: T -> int)
  {
    forall i, j :: 0 <= i < j < |s| ==> created(s[i]) >= created(s[j])
  }

  /** Places `x` before the first element that is not newer than it. */
  function InsertNewest<T(==)>(x: T, s: seq<T>, created: T -> int): (r: seq<T>)
    requires NewestFirst(s, created)
    ensures NewestFirst(r, created)
    ensures multiset(r) == multiset(s) + multiset{x}
    decreases |s|
  {
    if |s| == 0 then [x]
    else if created(s[0]) <= created(x) then [x] + s
    else
      var rest := InsertNewest(x, s[1..], created);
      assert s == [s[0]] + s[1..];
      assert forall m :: 0 <= m < |s[1..]| ==> s[1..][m] == s[m + 1];
      MembersNotNewer(s[0], s[1..], x, rest, created);
      PrependNewest(s[0], rest, created);
      [s[0]] + rest
  }

  /** Every element of `rest`, `x` or one of `s`, is no newer than `y` when those are not. */
  lemma MembersNotNewer<T>(y: T, s: seq<T>, x: T, rest: seq<T>, created: T -> int)
    requires multiset(rest) == multiset(s) + multiset{x}
    requires forall m :: 0 <= m < |s| ==> created(s[m]) <= created(y)
    requires created(x) <= created(y)
    ensures forall k :: 0 <= k < |rest| ==> created(rest[k]) <= created(y)
  {
    forall k | 0 <= k < |rest|
      ensures created(rest[k]) <= created(y)
    {
      assert rest[k] in multiset(rest);
      if rest[k] != x {
        assert rest[k] in multiset(s);
        var m :| 0 <= m < |s| && s[m] == rest[k];
      }
    }
  }

  /** An element no older than any of a newest-first sequence may lead it. */
  lemma PrependNewest<T>(y: T, rest: seq<T>, created: T -> int)
    requires NewestFirst(rest, created)
    requires forall k :: 0 <= k < |rest| ==> created(rest[k]) <= created(y)
    ensures NewestFirst([y] + rest, created)
  {
    var r := [y] + rest;
    assert forall k :: 0 < k < |r| ==> r[k] == rest[k - 1];
  }

  /** The records reordered newest first, nothing added and nothing lost. */
  function SortNewestFirst<T(==)>(s: seq<T>, created: T -> int): (r: seq<T>)
    ensures NewestFirst(r, created)
    ensures multiset(r) == multiset(s)
    decreases |s|
  {
    if |s| == 0 then []
    else
      assert s == [s[0]] + s[1..];
      InsertNewest(s[0], SortNewestFirst(s[1..], created), created)
  }
}
