# UberMedLife request core, in Dafny

A model of the core of UberMedLife, a Django site for medical tourism to
China. Patients browse a catalog of Chinese doctors, submit consultation
requests and medical travel plans, and follow their own requests on a
dashboard. Accounts carry an extended profile that signal receivers create
and re-save. A small browser script reads cookies, guesses the visitor's
language and rewrites the path when the visitor switches between English
and Bangla.

The project is organised by source file:

- `Common.dfy` holds the shared vocabulary:
  - `Wrappers`: `Option` and `Result`.
  - `Text`: ASCII lower-casing, substring search, Django's whitespace strip, Python `int()` on digit strings, JavaScript `split`.
  - `Locale`: the `en`/`bn` language choice.
  - `Collections`: order-preserving `Filter`.
- `MainModels.dfy` (`main/models.py`) covers:
  - the records Doctor, PatientProfile, Consultation, TravelPlan and Testimonial;
  - their choice codes with parse/print round trips;
  - the column defaults and the decimal-width bounds;
  - the newest-first ordering.
- `MainForms.dfy` (`main/forms.py`):
  - A submission is a map from field name to raw text.
  - Each form cleans only its whitelisted fields into a `Result`: a request value, or the list of field errors.
  - The doctor choice is restricted to available doctors.
- `MainViews.dfy` (`main/views.py`) covers:
  - the doctor catalog filter and search;
  - Django's `Paginator.get_page`;
  - the dashboard and the "my requests" listings;
  - the two request handlers as functions from the request to a response;
  - the class `RequestStore`, whose `SubmitConsultation` and `SubmitTravelPlan` methods append the saved row and advance the primary key.
- `Accounts.dfy`, module `AccountsModels` (`accounts/models.py`):
  - the UserProfile record and its defaults;
  - the class `UserStore`, holding the user and profile tables;
  - the `create_user_profile` and `save_user_profile` receivers, run in order after every user save.
- `Accounts.dfy`, module `AccountsViews` (`accounts/views.py`):
  - the registration form and the `register` view;
  - the get-or-create `profile` view.
- `ClientScripts.dfy` (`static/js/main.js`):
  - `getCookie` as a method with its two loops;
  - `detectUserLanguage` as a loop with an early return;
  - the `/en`|`/bn` path rewrite as a function.

Modelling conventions:

- Clock readings (`now`) and the signed-in user are parameters.
- A request's POST body and uploaded files are maps.
- The verdict of Django's password validators is a boolean parameter.
- Record timestamps are naturals, and money is an integer number of cents.

Request status has no workflow in the code. It is a plain choice field with a default (`main/models.py:117`, `main/models.py:155`). Staff may set any status from the admin lists (`list_editable = ('status',)`, `main/admin.py:47`, `main/admin.py:56`). So the model holds the status codes and the defaults, and no transition relation.

## Model

| member | source | states |
|---|---|---|
| MainModels.SpecializationCodesDistinct | main/models.py:7-19 | the eleven specialization codes are pairwise distinct |
| MainModels.SpecializationCodes | main/models.py:7-19 | there are exactly eleven specializations, the list holds every one, and each code parses back to its own specialization |
| MainModels.SpecializationCodeSet | main/models.py:7-19 | a string parses as a specialization exactly when it is one of the eleven codes |
| MainModels.ConsultationTypeCodes | main/models.py:108-112 | consultation type codes round-trip, and exactly teleconsultation, second_opinion and pre_travel parse |
| MainModels.ConsultationStatusCodes | main/models.py:101-106 | status codes round-trip, and exactly pending, scheduled, completed and cancelled parse |
| MainModels.TravelStatusCodes | main/models.py:137-144 | travel status codes round-trip, and exactly the six codes planning … cancelled parse |
| MainModels.ParseGender | main/models.py:75-79 | a parsed gender prints back as the input, and exactly M, F and O parse |
| MainModels.FeeFitsDigits | main/models.py:31 | a fee fits `max_digits=10, decimal_places=2` exactly when its cent count has at most 10 digits; 9999999999 fits and 10^10 does not |
| MainModels.CostFitsDigits | main/models.py:152 | the same for `max_digits=12`: at most 12 digits of cents |
| MainModels.DigitCountBound | main/models.py:31 | a number has at most n decimal digits exactly when it is below 10^n |
| MainModels.NewConsultation | main/models.py:114-125 | a new consultation is pending, unscheduled, has empty notes and prescription and no follow-up, and carries exactly the given patient, doctor, type, complaint, documents and time |
| MainModels.DefaultTravelPlan | main/models.py:146-161 | a new travel plan is in planning, has all three assistance flags set, no hospital, city, cost or dates, and the given patient, doctor and time |
| MainModels.SaveTravelPlanAsDeclared | main/models.py:152 | with the column as declared, a row is stored (unchanged) exactly when it has a cost; otherwise the NOT NULL error on estimated_cost |
| MainModels.SaveTravelPlan | main/models.py:152 | with the cost column nullable, every row is stored unchanged; this agrees with the declared schema on every row that schema accepts, and differs from it exactly on the rows without a cost |
| MainModels.DefaultTravelPlanRefusedAsDeclared | main/models.py:152 | every plan built from the defaults, whatever the form supplies, is refused by the declared schema and stored by the nullable one |
| MainModels.RatingChoicesAreOneToFive | main/models.py:178 | the rating choice list `range(1, 6)` admits exactly 1..5 |
| MainModels.NewTestimonial | main/models.py:180-182 | a new testimonial is published and not featured, with the given rating and time |
| MainModels.InsertNewest | main/models.py:166 | inserting into a newest-first list keeps it newest first and adds exactly that record |
| MainModels.SortNewestFirst | main/models.py:130 | the `-created_at` ordering sorts newest first and is a permutation of its input |
| Text.Lower | main/views.py:47-49 | lower-casing keeps the length and lowers each character on its own |
| Text.ContainsIffOccurs | main/views.py:47-49 | the substring test holds exactly when the term occurs at some position |
| Text.ParseIdOfShowNat | main/views.py:53-54 | a printed number parses back to itself, both as a key and as a page number |
| Text.ParseInt | main/views.py:53-54 | a text is refused exactly when, once stripped, it is not a digit run with an optional `+` or `-` sign; plain digits read as their number, `+k` as k, `-k` as minus k, and only a `-` sign gives a negative number |
| Text.ParseId | main/forms.py:27 | a submitted doctor key is read as the key column's `int()` reads it: plain digits or a `+` sign before them, and never a negative number |
| Text.Split | static/js/main.js:296 | `split(';')` yields at least one piece, no piece holds `;`, and joining the pieces with `;` restores the string |
| Text.SplitAtFirst | static/js/main.js:296 | the first `;` ends the first piece and the remainder splits on its own |
| Locale.ParseLanguage | main/models.py:88 | a parsed language prints back as the input, and exactly en and bn parse |
| Collections.Filter | main/views.py:36 | a filter keeps only matching elements of the input and keeps every matching element, each as often as the input holds it |
| Collections.FilterAppend | main/views.py:36-50 | filtering keeps order: filtering two runs one after the other gives the two filtered runs one after the other |
| Collections.FilterFilter | main/views.py:39-50 | two filters in a row keep the same sequence as one filter on the conjunction |
| MainForms.Checkbox | main/forms.py:44-46 | a checkbox reads false exactly when it is not submitted, is empty, or spells "false" in any letter case; so a submitted "on" reads true |
| MainForms.FindAvailableDoctor | main/forms.py:27 | a doctor with that key is found exactly when some available doctor has it, and what is found is available and has it |
| MainForms.CleanDoctor | main/forms.py:61 | the doctor field is valid exactly when it parses to the key of an available doctor; empty input is "required", anything else "invalid choice" |
| MainForms.CleanConsultationForm | main/forms.py:11 | valid exactly when the doctor is available, the type is one of the three codes and the complaint is not blank and holds no NUL; the request then holds exactly those cleaned values and the uploaded document |
| MainForms.ConsultationFormReadsOnlyItsFields | main/forms.py:11 | submissions that agree on doctor, type and complaint, and carry the same documents upload, clean to the same result |
| MainForms.CleanTravelPlanForm | main/forms.py:35-39 | valid exactly when the doctor is available, treatment type (≤255) and duration (≤100) are not blank, and no text field holds a NUL; the request holds the cleaned text, the three checkboxes and the notes |
| MainForms.TravelPlanFormReadsOnlyItsFields | main/forms.py:35-39 | status, hospital, city, cost, dates and every other unlisted field have no effect on the travel plan form |
| MainForms.CleanContactForm | main/forms.py:63-88 | valid exactly when name (1..100), email, subject (1..200) and message are given, phone is at most 20, and no field holds a NUL; the message holds the stripped values |
| MainForms.ContactPhoneOptional | main/forms.py:74-79 | a contact form without any phone field is valid when the other fields are |
| MainForms.CleanPatientProfileForm | main/forms.py:96-99 | valid exactly when phone (1..20), gender, address, emergency contact (1..255) and language are valid and no text field holds a NUL; the profile keeps its id, user and times and takes the cleaned fields |
| MainForms.PatientProfileFormReadsOnlyItsFields | main/forms.py:96-99 | fields outside the seven listed have no effect on the profile form |
| MainForms.PatientProfileFormIgnoresUser | main/forms.py:96-99 | a submitted `user` value cannot re-link the profile |
| MainViews.NumPages | main/views.py:52 | the page count is at least 1, is 1 for an empty list, and is the least n with count ≤ n·perPage |
| MainViews.PageNumber | main/views.py:53-54 | the page served is always in 1..page count: a missing or non-integer page is 1, an in-range page is itself, and an out-of-range one is the last |
| MainViews.GetPage | main/views.py:52-54 | a page is a contiguous run of the list starting at its page offset, at most perPage long, full unless it is the last, and non-empty when the list is |
| MainViews.EveryItemOnItsPage | main/views.py:52-54 | item i is found on page i / perPage + 1, at position i mod perPage |
| MainViews.DoctorListing | main/views.py:36-50 | the listing holds exactly the catalog's doctors that are available, have the given specialization code (when one is given) and match the search term in name, hospital or code, ignoring case (when one is given) |
| MainViews.DoctorListingKeepsOrder | main/views.py:36-50 | the chained filters equal one filter on the combined condition, so catalog order is kept |
| MainViews.DoctorsPage | main/views.py:52-54 | a catalog page holds at most 12 doctors, each of them listed, and is exactly the served page of the doctor listing: the run from the page's first position, 12 long or up to the end |
| MainViews.OwnNewestFirst | main/views.py:151 | a patient's list is newest first and is a permutation of exactly their own records |
| MainViews.NewestOwn | main/views.py:139-140 | the first `limit` of a patient's records: min(limit, count) of them, exactly the front of the patient's newest-first list, so no record appears more often than the patient has it |
| MainViews.NewestOwnIsNewest | main/views.py:139-140 | a record of the patient left out of the capped list is no newer than any record shown |
| MainViews.Dashboard | main/views.py:136-146 | min(5, count) consultations and min(5, count) travel plans, each exactly the front of the patient's newest-first list, all their own, and no record more often than stored |
| MainViews.DashboardShowsNewestConsultations | main/views.py:139 | no consultation of the patient left off the dashboard is newer than one shown |
| MainViews.DashboardShowsNewestTravelPlans | main/views.py:140 | no travel plan of the patient left off the dashboard is newer than one shown |
| MainViews.OwnPage | main/views.py:151-155 | a page of the patient's records holds at most 10, all their own, newest first, and is exactly the served page of the patient's newest-first list |
| MainViews.MyConsultations | main/views.py:148-160 | a page of "my consultations" is exactly the served page, 10 per page, of the patient's consultations newest first; all are their own |
| MainViews.MyTravelPlans | main/views.py:162-174 | a page of "my travel plans" is exactly the served page, 10 per page, of the patient's plans newest first; all are their own |
| MainViews.ResolveUrlDoctor | main/views.py:77-79 | an absent or 0 id names no doctor; a named doctor must be available, and the lookup fails exactly when no available doctor has that id |
| MainViews.ConsultationResponse | main/views.py:74-103 | not found exactly when the URL doctor is unknown or unavailable; a GET shows a blank form; a record is created exactly when the form is valid; a refused form shows errors; the record is the new consultation built from the cleaned type, complaint and documents, for the requester, naming the URL doctor when one is given and the form's doctor otherwise |
| MainViews.TravelPlanResponse | main/views.py:105-134 | not found exactly when the URL doctor is unknown or unavailable; a GET shows a blank form; a save is attempted exactly when the form is valid; a refused form shows errors; the saved or refused row is the plan built from the cleaned form, with the URL doctor applied |
| MainViews.TravelPlanResponseCreates | main/views.py:112-121 | with the nullable-cost save nothing is refused; a created plan is exactly the requester's plan with the cleaned treatment, duration, flags and notes, in planning, without cost, hospital, city or dates, naming an available doctor: the URL doctor when given, the form's otherwise |
| MainViews.TravelPlanRefusedAsDeclared | main/views.py:115-119 | with the declared schema no request creates a plan; every valid one is refused on estimated_cost |
| MainViews.RequestStore.SubmitConsultation | main/views.py:81-90 | answers as ConsultationResponse; on creation appends exactly that row and advances the key, otherwise changes nothing; keys stay unique and ascending |
| MainViews.RequestStore.SubmitTravelPlan | main/views.py:112-121 | answers as TravelPlanResponse with the nullable-cost save; on creation appends exactly that row and advances the key, otherwise changes nothing; keys stay unique and ascending |
| AccountsModels.UserTypeCodes | accounts/models.py:9-13 | user type codes round-trip, and exactly patient, staff and admin parse |
| AccountsModels.NewUserProfile | accounts/models.py:16-21 | a new profile is a patient's, with no phone, English, and both notifications on, for the given user and time |
| AccountsModels.AtMostOneProfile | accounts/models.py:15 | under the one-to-one link, a user has at most one profile |
| AccountsModels.ProfileIndex | accounts/views.py:57 | the reverse accessor finds a profile of that user exactly when the user has one |
| AccountsModels.UserStore.InsertProfile | accounts/views.py:59 | inserts one default profile for a user that had none; afterwards the user has exactly one |
| AccountsModels.UserStore.CreateUserProfile | accounts/models.py:32-36 | on creation inserts the default profile, refused as a uniqueness violation if the user already has one; otherwise does nothing |
| AccountsModels.UserStore.SaveUserProfile | accounts/models.py:38-42 | re-saves the user's profile, stamping `updated_at`, when there is one; creates none and changes no user's count |
| AccountsModels.UserStore.PostSave | accounts/models.py:32-42 | both receivers in order: a created user gets exactly one new default profile; on a re-save the only change to the profiles is the user's own profile getting `updated_at` stamped |
| AccountsModels.UserStore.CreateUser | accounts/views.py:34 | stores the user under a fresh key and leaves it with exactly one default profile |
| AccountsModels.UserStore.SaveUser | accounts/models.py:38-42 | saving an existing user stores it and changes the profiles only by stamping `updated_at` on that user's profile, if any |
| AccountsViews.CleanRegistrationForm | accounts/views.py:10-24 | valid exactly when username (1..150, not taken), first and last name (1..150), email (1..254) are given, the passwords are given and equal, no field holds a NUL, and the validators accept them; holds exactly those values |
| AccountsViews.RegistrationNeedsNamesAndEmail | accounts/views.py:22-24 | a blank first name, last name or email alone makes registration fail |
| AccountsViews.RegistrationReadsOnlyItsFields | accounts/views.py:15 | fields outside the six listed have no effect on registration |
| AccountsViews.Register | accounts/views.py:26-51 | a signed-in visitor is redirected and nothing changes; a GET or an invalid form creates no user; a valid form creates that user under the next key, with one default profile |
| AccountsViews.Profile | accounts/views.py:53-64 | returns the user's existing profile and changes nothing, or creates exactly one default profile when there is none; afterwards the user has exactly one |
| AccountsViews.ProfileRevisit | accounts/views.py:56-59 | a second visit finds the same profile and creates nothing, and the store stays consistent |
| ClientScripts.TrimLeadingSpacesSpec | static/js/main.js:299 | trimming removes exactly the leading ' ' characters, and the rest does not start with one |
| ClientScripts.CookieLookup | static/js/main.js:294-303 | the lookup is null exactly when no trimmed segment starts with `name=` |
| ClientScripts.CookieLookupFindsFirst | static/js/main.js:297-300 | a found value is the text after `name=` in a matching segment with no match before it |
| ClientScripts.FirstMatchIsFound | static/js/main.js:297-300 | the first matching segment is the one whose value is returned |
| ClientScripts.GetCookie | static/js/main.js:294-303 | the loops compute the cookie lookup over the `;`-separated segments with key `name=` |
| ClientScripts.CookieRoundTrip | static/js/main.js:295-300 | a lone `name=value` without `;` reads back as value |
| ClientScripts.SecondCookieFound | static/js/main.js:296-300 | in `other; name=value`, the value is found past a first cookie that does not match |
| ClientScripts.KeyIncludesEquals | static/js/main.js:295-300 | `xname=` and `names=` are not the `name` cookie |
| ClientScripts.ValueIsVerbatim | static/js/main.js:299-300 | only leading spaces go: the value after `name=`, later `=` and trailing spaces included, is returned as it stands |
| ClientScripts.LanguageFor | static/js/main.js:276-284 | the result is en or bn, and bn exactly when the browser language starts with "bn" |
| ClientScripts.DetectUserLanguage | static/js/main.js:274-285 | raises when the browser reports no language; otherwise returns the first supported prefix, falling back to en |
| ClientScripts.StripLanguagePrefix | static/js/main.js:86 | the path is the result with nothing, `/en` or `/bn` in front; it is kept unchanged exactly when it does not start with `/en` or `/bn` |
| ClientScripts.RewriteLanguagePath | static/js/main.js:86-91 | English gets the stripped path; any other language gets `/`+language before the stripped path |
| ClientScripts.PrefixMatchIsPlain | static/js/main.js:86 | the match is plain text: `/english` becomes `glish` and `/bnx/page` is kept under bn |
| ClientScripts.OnePrefixRemoved | static/js/main.js:86 | only one prefix goes: `/en/en/about` becomes `/en/about` |
| ClientScripts.BanglaRewriteIdempotent | static/js/main.js:86-91 | switching to Bangla twice gives the path switching once gives |
| ClientScripts.RewriteNotIdempotent | static/js/main.js:86-91 | for every other language some path changes again on a second switch |
| ClientScripts.SwitchBackToEnglish | static/js/main.js:86-91 | switching to Bangla and back to English leaves the path without its language prefix |

## Left out

- Uploads: image and file fields are stored as given (`medicalDocuments` is the upload's name, if any). Upload validation and storage are not modelled.
- CleanContactForm: does not check the email address format of `EmailField`. Only its presence is required.
- CleanPatientProfileForm: keeps `date_of_birth` as its stripped text and does not parse or validate dates.
- MainViews.MatchesSearch and Text.Lower fold only ASCII letters. Django's `icontains` uses the database's case folding, which is not modelled.
- Text.ParseId and Text.ParseInt accept ASCII digits only, after stripping whitespace and an optional sign. Python's `int()` also accepts underscores between digits and other Unicode digits.
- MainForms.CleanText reports one error per field. When a value is both too long and holds a NUL, Django lists both messages; the model gives only the length error. Which submissions are valid is the same.
- AccountsViews.CleanRegistrationForm does not check the email address format that `User.email`'s EmailField validates. Only its presence and length are required. It also leaves out Django's username character validator and NFKC normalisation. It checks username uniqueness by exact match. Password validation is the `passwordAccepted` parameter, and passwords are stored as given, without hashing.
- Sessions: `authenticate`, `login`, `messages`, `redirect`, `render` and templates are left out. A response is a datatype naming what the view answers.
- The `login_required` redirect is left out: the handlers take the signed-in user as a parameter.
- Deleting a user cascades to the profile and requests, and deleting a doctor cascades to requests. Cascade deletes are ORM behaviour and are not modelled.
- Status workflow: the code has no status transitions, so none are modelled, and staff edits in the admin are not part of this model.
- Admin, URL configuration and the seed script: `main/admin.py`, `accounts/admin.py`, `main/urls.py` and `populate_data.py` are not part of this model.
- The other views: `home`, `services`, `about`, `doctor_detail`, `testimonials` and the news views only render query results and are not part of this model. `contact` validates a ContactForm, stores nothing and redirects on success. Its form rules are modelled in MainForms.CleanContactForm; the redirect itself is not.
- Browser plumbing: `setCookie` (date arithmetic), `formatFileSize` (floating point), `showNotification`, `submitFormAjax`, timers and DOM listeners are left out.
- JavaScript strings are sequences of UTF-16 code units. Here they are sequences of characters, which agree for the ASCII text involved.
- Concurrency: two requests acting on the store at once are not modelled. Each method runs as one step.

## Findings

| source | as written | input that shows it | evidently intended | confidence | as-written member | corrected member |
|---|---|---|---|---|---|---|
| main/models.py:152 | `estimated_cost` is a required DecimalField with no default and no `null=True`, while TravelPlanForm (main/forms.py:35-39) never sets it, so `travel_plan.save()` inserts NULL into a NOT NULL column | any valid travel plan form, e.g. an available doctor's key, treatment "Knee replacement", duration "2 weeks" | the plan is stored without a cost until staff set one (`null=True, blank=True`) | medium, not executed | MainViews.TravelPlanRefusedAsDeclared | MainViews.TravelPlanResponseCreates |
