/**
 * The site's input forms as validation functions: each takes the submitted
 * fields (and uploaded files) and returns either the cleaned values or the
 * list of field errors. A form reads only the fields it declares, so
 * anything else in a submission has no effect on its result.
 */
module MainForms {
  import opened Wrappers
  import opened Text
  import opened Locale
  import opened Collections
  import opened MainModels

  /** Submitted fields by name, each with its raw text. */
  type FormData = map<string, string>

  /** Uploaded files by field name, each given by its stored file name. */
  type FileData = map<string, string>

  datatype FieldError =
    | Required(field: string)
    | TooLong(field: string, maxLength: nat)
    | InvalidChoice(field: string)
    | NullCharacter(field: string)

  /** The raw text of a field; a field that was not submitted reads as "". */
  function Raw(data: FormData, field: string): string
  {
    if field in data then data[field] else ""
  }

  /** Two submissions carry the same raw text for each of `fields`. */
  ghost predicate AgreeOn(d1: FormData, d2: FormData, fields: set<string>)
  {
    forall f :: f in fields ==> Raw(d1, f) == Raw(d2, f)
  }

  /** Text fields refuse any value that holds the NUL character. */
  predicate NoNul(s: string)
  {
    '\0' !in s
  }

  /**
   * A text field: the value is stripped of surrounding whitespace, a required
   * field must not be blank, a bounded one may not exceed its length, and
   * none may hold a NUL character.
   */
  function CleanText(data: FormData, field: string, required: bool, maxLength: Option<nat>)
    : (r: Result<string, FieldError>)
    ensures r.Ok? <==>
      (!required || Strip(Raw(data, field)) != "")
      && (maxLength.None? || |Strip(Raw(data, field))| <= maxLength.value)
      && NoNul(Strip(Raw(data, field)))
    ensures r.Ok? ==> r.value == Strip(Raw(data, field))
    ensures r.Err? ==> r.error.field == field
    ensures r.Err? && r.error.NullCharacter? ==> !NoNul(Strip(Raw(data, field)))
  {
    var v := Strip(Raw(data, field));
    if required && v == "" then Err(Required(field))
    else if maxLength.Some? && |v| > maxLength.value then Err(TooLong(field, maxLength.value))
    else if !NoNul(v) then Err(NullCharacter(field))
    else Ok(v)
  }

  /**
   * A checkbox: unchecked boxes are not submitted at all and read as false;
   * a submitted value reads as false only when it is empty or spells "false"
   * in any letter case.
   */
  function Checkbox(data: FormData, field: string): (b: bool)
    ensures field !in data ==> !b
    ensures field in data && data[field] == "on" ==> b
    ensures !b <==>
      (|| field !in data || data[field] == ""
       || (|data[field]| == 5 && forall k :: 0 <= k < 5 ==> LowerChar(data[field][k]) == "false"[k]))
  {
    field in data && data[field] != "" && Lower(data[field]) != "false"
  }

  /** Some available doctor has primary key `id`. */
  ghost predicate OffersDoctor(doctors: seq<Doctor>, id: DoctorId)
  {
    exists k :: 0 <= k < |doctors| && doctors[k].id == id && doctors[k].isAvailable
  }

  /** The first available doctor with primary key `id`, as the form's choice list finds it. */
  function FindAvailableDoctor(doctors: seq<Doctor>, id: DoctorId): (r: Option<Doctor>)
    ensures r.Some? ==> r.value in doctors && r.value.id == id && r.value.isAvailable
    ensures r.None? <==> !OffersDoctor(doctors, id)
    decreases |doctors|
  {
    if |doctors| == 0 then None
    else if doctors[0].id == id && doctors[0].isAvailable then Some(doctors[0])
    else
      var r := FindAvailableDoctor(doctors[1..], id);
      assert OffersDoctor(doctors, id) ==> OffersDoctor(doctors[1..], id) by {
        if OffersDoctor(doctors, id) {
          var k :| 0 <= k < |doctors| && doctors[k].id == id && doctors[k].isAvailable;
          assert k > 0 && doctors[1..][k - 1] == doctors[k];
        }
      }
      assert OffersDoctor(doctors[1..], id) ==> OffersDoctor(doctors, id) by {
        if OffersDoctor(doctors[1..], id) {
          var k :| 0 <= k < |doctors[1..]| && doctors[1..][k].id == id && doctors[1..][k].isAvailable;
          assert doctors[k + 1] == doctors[1..][k];
        }
      }
      r
  }

  /**
   * The doctor field: a required choice whose submitted primary key must
   * name a doctor that is currently available.
   */
  function CleanDoctor(data: FormData, doctors: seq<Doctor>): (r: Result<DoctorId, FieldError>)
    ensures r.Ok? <==> ParseId(Raw(data, "doctor")).Some? && OffersDoctor(doctors, ParseId(Raw(data, "doctor")).value)
    ensures r.Ok? ==> ParseId(Raw(data, "doctor")) == Some(r.value)
    ensures r.Err? ==> r.error == (if Raw(data, "doctor") == "" then Required("doctor") else InvalidChoice("doctor"))
  {
    var raw := Raw(data, "doctor");
    if raw == "" then Err(Required("doctor"))
    else
      match ParseId(raw)
      case None => Err(InvalidChoice("doctor"))
      case Some(id) =>
        if FindAvailableDoctor(doctors, id).Some? then Ok(id) else Err(InvalidChoice("doctor"))
  }

  /** A choice field: the raw text (not stripped) must be one of the codes. */
  function CleanChoice<T>(data: FormData, field: string, parse: string -> Option<T>): (r: Result<T, FieldError>)
    ensures r.Ok? <==> parse(Raw(data, field)).Some?
    ensures r.Ok? ==> r.value == parse(Raw(data, field)).value
  {
    var raw := Raw(data, field);
    if raw == "" && parse(raw).None? then Err(Required(field))
    else match parse(raw)
      case None => Err(InvalidChoice(field))
      case Some(v) => Ok(v)
  }

  function ErrorsOf<T>(r: Result<T, FieldError>): seq<FieldError>
  {
    if r.Err? then [r.error] else []
  }

  // ---------------------------------------------------------------------
  // Consultation request form.
  // ---------------------------------------------------------------------

  /** The submitted fields a consultation request reads. */
  const ConsultationFields: set<string> := {"doctor", "consultation_type", "chief_complaint"}

  /** The only upload a consultation request reads. */
  const ConsultationFileField: string := "medical_documents"

  /** What a valid consultation request carries into the new record. */
  datatype ConsultationRequest = ConsultationRequest(
    doctor: DoctorId,
    consultationType: ConsultationType,
    chiefComplaint: string,
    medicalDocuments: Option<string>)

  /**
   * The consultation form accepts exactly when the doctor is available, the
   * type is one of its codes and the complaint is not blank; the documents
   * upload is optional.
   */
  function CleanConsultationForm(data: FormData, files: FileData, doctors: seq<Doctor>)
    : (r: Result<ConsultationRequest, seq<FieldError>>)
    ensures r.Ok? <==>
      && ParseId(Raw(data, "doctor")).Some? && OffersDoctor(doctors, ParseId(Raw(data, "doctor")).value)
      && ParseConsultationType(Raw(data, "consultation_type")).Some?
      && Strip(Raw(data, "chief_complaint")) != "" && NoNul(Strip(Raw(data, "chief_complaint")))
    ensures r.Ok? ==>
      && OffersDoctor(doctors, r.value.doctor)
      && Some(r.value.doctor) == ParseId(Raw(data, "doctor"))
      && Some(r.value.consultationType) == ParseConsultationType(Raw(data, "consultation_type"))
      && r.value.chiefComplaint == Strip(Raw(data, "chief_complaint"))
      && r.value.medicalDocuments == (if ConsultationFileField in files then Some(files[ConsultationFileField]) else None)
    ensures r.Err? ==> |r.error| > 0
  {
    var doctor := CleanDoctor(data, doctors);
    var kind := CleanChoice(data, "consultation_type", ParseConsultationType);
    var complaint := CleanText(data, "chief_complaint", true, None);
    var documents := if ConsultationFileField in files then Some(files[ConsultationFileField]) else None;
    if doctor.Ok? && kind.Ok? && complaint.Ok? then
      Ok(ConsultationRequest(doctor.value, kind.value, complaint.value, documents))
    else
      Err(ErrorsOf(doctor) + ErrorsOf(kind) + ErrorsOf(complaint))
  }

  /** Fields outside the consultation form's list have no effect on it. */
  lemma ConsultationFormReadsOnlyItsFields(d1: FormData, d2: FormData, f1: FileData, f2: FileData, doctors: seq<Doctor>)
    requires AgreeOn(d1, d2, ConsultationFields)
    requires (ConsultationFileField in f1 <==> ConsultationFileField in f2)
    requires ConsultationFileField in f1 ==> f1[ConsultationFileField] == f2[ConsultationFileField]
    ensures CleanConsultationForm(d1, f1, doctors) == CleanConsultationForm(d2, f2, doctors)
  {
    assert Raw(d1, "doctor") == Raw(d2, "doctor");
    assert Raw(d1, "consultation_type") == Raw(d2, "consultation_type");
    assert Raw(d1, "chief_complaint") == Raw(d2, "chief_complaint");
  }

  // ---------------------------------------------------------------------
  // Travel plan request form.
  // ---------------------------------------------------------------------

  /** The submitted fields a travel plan request reads. */
  const TravelPlanFields: set<string> :=
    {"doctor", "treatment_type", "estimated_duration", "visa_assistance",
     "accommodation_assistance", "translator_required", "notes"}

  datatype TravelPlanRequest = TravelPlanRequest(
    doctor: DoctorId,
    treatmentType: string,
    estimatedDuration: string,
    visaAssistance: bool,
    accommodationAssistance: bool,
    translatorRequired: bool,
    notes: string)

  /**
   * The travel plan form accepts exactly when the doctor is available, the
   * treatment type is non-blank and at most 255 characters, and the duration
   * is non-blank and at most 100; the three flags and the notes never fail.
   */
  function CleanTravelPlanForm(data: FormData, doctors: seq<Doctor>)
    : (r: Result<TravelPlanRequest, seq<FieldError>>)
    ensures r.Ok? <==>
      && ParseId(Raw(data, "doctor")).Some? && OffersDoctor(doctors, ParseId(Raw(data, "doctor")).value)
      && 0 < |Strip(Raw(data, "treatment_type"))| <= 255 && NoNul(Strip(Raw(data, "treatment_type")))
      && 0 < |Strip(Raw(data, "estimated_duration"))| <= 100 && NoNul(Strip(Raw(data, "estimated_duration")))
      && NoNul(Strip(Raw(data, "notes")))
    ensures r.Ok? ==>
      && OffersDoctor(doctors, r.value.doctor)
      && Some(r.value.doctor) == ParseId(Raw(data, "doctor"))
      && r.value.treatmentType == Strip(Raw(data, "treatment_type"))
      && r.value.estimatedDuration == Strip(Raw(data, "estimated_duration"))
      && r.value.visaAssistance == Checkbox(data, "visa_assistance")
      && r.value.accommodationAssistance == Checkbox(data, "accommodation_assistance")
      && r.value.translatorRequired == Checkbox(data, "translator_required")
      && r.value.notes == Strip(Raw(data, "notes"))
    ensures r.Err? ==> |r.error| > 0
  {
    var doctor := CleanDoctor(data, doctors);
    var treatment := CleanText(data, "treatment_type", true, Some(255));
    var duration := CleanText(data, "estimated_duration", true, Some(100));
    var notes := CleanText(data, "notes", false, None);
    if doctor.Ok? && treatment.Ok? && duration.Ok? && notes.Ok? then
      Ok(TravelPlanRequest(doctor.value, treatment.value, duration.value,
                           Checkbox(data, "visa_assistance"), Checkbox(data, "accommodation_assistance"),
                           Checkbox(data, "translator_required"), notes.value))
    else
      Err(ErrorsOf(doctor) + ErrorsOf(treatment) + ErrorsOf(duration) + ErrorsOf(notes))
  }

  /** Fields outside the travel plan form's list (status, cost, dates...) have no effect on it. */
  lemma TravelPlanFormReadsOnlyItsFields(d1: FormData, d2: FormData, doctors: seq<Doctor>)
    requires AgreeOn(d1, d2, TravelPlanFields)
    requires forall f :: f in TravelPlanFields ==> (f in d1 <==> f in d2)
    ensures CleanTravelPlanForm(d1, doctors) == CleanTravelPlanForm(d2, doctors)
  {
    assert CleanDoctor(d1, doctors) == CleanDoctor(d2, doctors) by {
      assert Raw(d1, "doctor") == Raw(d2, "doctor");
    }
    assert CleanText(d1, "treatment_type", true, Some(255)) == CleanText(d2, "treatment_type", true, Some(255)) by {
      assert Raw(d1, "treatment_type") == Raw(d2, "treatment_type");
    }
    assert CleanText(d1, "estimated_duration", true, Some(100)) == CleanText(d2, "estimated_duration", true, Some(100)) by {
      assert Raw(d1, "estimated_duration") == Raw(d2, "estimated_duration");
    }
    assert CleanText(d1, "notes", false, None) == CleanText(d2, "notes", false, None) by {
      assert Raw(d1, "notes") == Raw(d2, "notes");
    }
    CheckboxAgrees(d1, d2, "visa_assistance");
    CheckboxAgrees(d1, d2, "accommodation_assistance");
    CheckboxAgrees(d1, d2, "translator_required");
  }

  /** A checkbox reads the same from two submissions that agree on its field. */
  lemma CheckboxAgrees(d1: FormData, d2: FormData, field: string)
    requires (field in d1 <==> field in d2) && Raw(d1, field) == Raw(d2, field)
    ensures Checkbox(d1, field) == Checkbox(d2, field)
  {
  }

  // ---------------------------------------------------------------------
  // Contact form.
  // ---------------------------------------------------------------------

  datatype ContactMessage = ContactMessage(name: string, email: string, phone: string, subject: string, message: string)

  /**
   * The contact form: name (at most 100), email, subject (at most 200) and
   * message are required; the phone (at most 20) may be left out.
   */
  function CleanContactForm(data: FormData): (r: Result<ContactMessage, seq<FieldError>>)
    ensures r.Ok? <==>
      && 0 < |Strip(Raw(data, "name"))| <= 100 && NoNul(Strip(Raw(data, "name")))
      && Strip(Raw(data, "email")) != "" && NoNul(Strip(Raw(data, "email")))
      && |Strip(Raw(data, "phone"))| <= 20 && NoNul(Strip(Raw(data, "phone")))
      && 0 < |Strip(Raw(data, "subject"))| <= 200 && NoNul(Strip(Raw(data, "subject")))
      && Strip(Raw(data, "message")) != "" && NoNul(Strip(Raw(data, "message")))
    ensures r.Ok? ==> r.value == ContactMessage(Strip(Raw(data, "name")), Strip(Raw(data, "email")),
                                                Strip(Raw(data, "phone")), Strip(Raw(data, "subject")),
                                                Strip(Raw(data, "message")))
    ensures r.Err? ==> |r.error| > 0
  {
    var name := CleanText(data, "name", true, Some(100));
    var email := CleanText(data, "email", true, None);
    var phone := CleanText(data, "phone", false, Some(20));
    var subject := CleanText(data, "subject", true, Some(200));
    var message := CleanText(data, "message", true, None);
    if name.Ok? && email.Ok? && phone.Ok? && subject.Ok? && message.Ok? then
      Ok(ContactMessage(name.value, email.value, phone.value, subject.value, message.value))
    else
      Err(ErrorsOf(name) + ErrorsOf(email) + ErrorsOf(phone) + ErrorsOf(subject) + ErrorsOf(message))
  }

  /** A message without a phone number is accepted when the rest is filled in. */
  lemma ContactPhoneOptional(name: string, email: string, subject: string, message: string)
    requires 0 < |Strip(name)| <= 100 && Strip(email) != "" && 0 < |Strip(subject)| <= 200 && Strip(message) != ""
    requires NoNul(Strip(name)) && NoNul(Strip(email)) && NoNul(Strip(subject)) && NoNul(Strip(message))
    ensures CleanContactForm(map["name" := name, "email" := email, "subject" := subject, "message" := message]).Ok?
  {
    var data := map["name" := name, "email" := email, "subject" := subject, "message" := message];
    assert Raw(data, "name") == name;
    assert Raw(data, "email") == email;
    assert Raw(data, "subject") == subject;
    assert Raw(data, "message") == message;
    assert Raw(data, "phone") == "";
    assert |Strip("")| == 0;
  }

  // ---------------------------------------------------------------------
  // Patient profile form.
  // ---------------------------------------------------------------------

  /** The submitted fields the patient profile form reads; the user link is not one of them. */
  const PatientProfileFields: set<string> :=
    {"phone", "date_of_birth", "gender", "address", "emergency_contact", "medical_history", "preferred_language"}

  /**
   * The patient profile form edits `instance`: phone (at most 20), gender,
   * address, emergency contact (at most 255) and language are required; the
   * date of birth and medical history are optional. The profile's identity,
   * user and creation time are never taken from the submission.
   */
  function CleanPatientProfileForm(data: FormData, instance: PatientProfile)
    : (r: Result<PatientProfile, seq<FieldError>>)
    ensures r.Ok? <==>
      && 0 < |Strip(Raw(data, "phone"))| <= 20 && NoNul(Strip(Raw(data, "phone")))
      && NoNul(Strip(Raw(data, "date_of_birth")))
      && ParseGender(Raw(data, "gender")).Some?
      && Strip(Raw(data, "address")) != "" && NoNul(Strip(Raw(data, "address")))
      && 0 < |Strip(Raw(data, "emergency_contact"))| <= 255 && NoNul(Strip(Raw(data, "emergency_contact")))
      && NoNul(Strip(Raw(data, "medical_history")))
      && ParseLanguage(Raw(data, "preferred_language")).Some?
    ensures r.Ok? ==>
      && r.value.id == instance.id && r.value.user == instance.user
      && r.value.createdAt == instance.createdAt && r.value.updatedAt == instance.updatedAt
      && r.value.phone == Strip(Raw(data, "phone"))
      && r.value.dateOfBirth == (if Strip(Raw(data, "date_of_birth")) == "" then None else Some(Strip(Raw(data, "date_of_birth"))))
      && Some(r.value.gender) == ParseGender(Raw(data, "gender"))
      && r.value.address == Strip(Raw(data, "address"))
      && r.value.emergencyContact == Strip(Raw(data, "emergency_contact"))
      && r.value.medicalHistory == Strip(Raw(data, "medical_history"))
      && Some(r.value.preferredLanguage) == ParseLanguage(Raw(data, "preferred_language"))
    ensures r.Err? ==> |r.error| > 0
  {
    var phone := CleanText(data, "phone", true, Some(20));
    var birth := CleanText(data, "date_of_birth", false, None);
    var gender := CleanChoice(data, "gender", ParseGender);
    var address := CleanText(data, "address", true, None);
    var contact := CleanText(data, "emergency_contact", true, Some(255));
    var history := CleanText(data, "medical_history", false, None);
    var language := CleanChoice(data, "preferred_language", ParseLanguage);
    if phone.Ok? && birth.Ok? && gender.Ok? && address.Ok? && contact.Ok? && history.Ok? && language.Ok? then
      Ok(instance.(phone := phone.value,
                   dateOfBirth := if birth.value == "" then None else Some(birth.value),
                   gender := gender.value, address := address.value, emergencyContact := contact.value,
                   medicalHistory := history.value, preferredLanguage := language.value))
    else
      Err(ErrorsOf(phone) + ErrorsOf(birth) + ErrorsOf(gender) + ErrorsOf(address)
          + ErrorsOf(contact) + ErrorsOf(history) + ErrorsOf(language))
  }

  /** Fields outside the patient profile form's list, the user link among them, have no effect on it. */
  lemma PatientProfileFormReadsOnlyItsFields(d1: FormData, d2: FormData, instance: PatientProfile)
    requires AgreeOn(d1, d2, PatientProfileFields)
    ensures CleanPatientProfileForm(d1, instance) == CleanPatientProfileForm(d2, instance)
  {
    assert CleanText(d1, "phone", true, Some(20)) == CleanText(d2, "phone", true, Some(20)) by {
      assert Raw(d1, "phone") == Raw(d2, "phone");
    }
    assert CleanText(d1, "date_of_birth", false, None) == CleanText(d2, "date_of_birth", false, None) by {
      assert Raw(d1, "date_of_birth") == Raw(d2, "date_of_birth");
    }
    assert CleanChoice(d1, "gender", ParseGender) == CleanChoice(d2, "gender", ParseGender) by {
      assert Raw(d1, "gender") == Raw(d2, "gender");
    }
    assert CleanText(d1, "address", true, None) == CleanText(d2, "address", true, None) by {
      assert Raw(d1, "address") == Raw(d2, "address");
    }
    assert CleanText(d1, "emergency_contact", true, Some(255)) == CleanText(d2, "emergency_contact", true, Some(255)) by {
      assert Raw(d1, "emergency_contact") == Raw(d2, "emergency_contact");
    }
    assert CleanText(d1, "medical_history", false, None) == CleanText(d2, "medical_history", false, None) by {
      assert Raw(d1, "medical_history") == Raw(d2, "medical_history");
    }
    assert CleanChoice(d1, "preferred_language", ParseLanguage) == CleanChoice(d2, "preferred_language", ParseLanguage) by {
      assert Raw(d1, "preferred_language") == Raw(d2, "preferred_language");
    }
  }

  /** In particular, a submitted `user` value cannot re-link the profile. */
  lemma PatientProfileFormIgnoresUser(data: FormData, value: string, instance: PatientProfile)
    ensures CleanPatientProfileForm(data["user" := value], instance) == CleanPatientProfileForm(data, instance)
  {
    PatientProfileFormReadsOnlyItsFields(data["user" := value], data, instance);
  }
}
