/**
 * Accounts: the extended user profile, the two `post_save` receivers that
 * keep one profile per user, and the store they act on.
 */
module AccountsModels {
  import opened Wrappers
  import opened Locale
  import opened MainModels

  datatype UserType = Patient | Staff | Admin

  const AllUserTypes: seq<UserType> := [Patient, Staff, Admin]

  function UserTypeCode(t: UserType): string
  {
    match t
    case Patient => "patient"
    case Staff => "staff"
    case Admin => "admin"
  }

  function ParseUserType(code: string): Option<UserType>
  {
    FindByCode(AllUserTypes, UserTypeCode, code)
  }

  /** The user type is stored as one of exactly three codes, each read back as itself. */
  lemma UserTypeCodes()
    ensures forall t: UserType :: ParseUserType(UserTypeCode(t)) == Some(t)
    ensures forall t: UserType :: UserTypeCode(t) in {"patient", "staff", "admin"}
    ensures forall c :: ParseUserType(c).Some? <==> c in {"patient", "staff", "admin"}
  {
    forall t: UserType ensures ParseUserType(UserTypeCode(t)) == Some(t) {
      assert t in AllUserTypes by {
        match t { case Patient => case Staff => case Admin => }
      }
      FindByOwnCode(AllUserTypes, UserTypeCode, t);
    }
  }

  /** A login account; the password is kept as submitted, hashing is not modelled. */
  datatype User = User(
    id: UserId,
    username: string,
    firstName: string,
    lastName: string,
    email: string,
    password: string)

  datatype UserProfile = UserProfile(
    id: nat,
    user: UserId,
    userType: UserType,
    phone: string,
    preferredLanguage: Language,
    emailNotifications: bool,
    smsNotifications: bool,
    createdAt: nat,
    updatedAt: nat)

  /** The column defaults of a profile row. */
  predicate HasProfileDefaults(p: UserProfile)
  {
    && p.userType == Patient
    && p.phone == ""
    && p.preferredLanguage == En
    && p.emailNotifications
    && p.smsNotifications
  }

  /** A profile created for `user` with nothing but its defaults. */
  function NewUserProfile(id: nat, user: UserId, now: nat): (p: UserProfile)
    ensures HasProfileDefaults(p)
    ensures p.id == id && p.user == user && p.createdAt == now && p.updatedAt == now
  {
    UserProfile(id, user, Patient, "", En, true, true, now, now)
  }

  /** How many profiles belong to `user`. */
  function CountFor(profiles: seq<UserProfile>, user: UserId): (n: nat)
    ensures n <= |profiles|
    ensures n == 0 <==> forall k :: 0 <= k < |profiles| ==> profiles[k].user != user
    decreases |profiles|
  {
    if |profiles| == 0 then 0
    else
      var rest := CountFor(profiles[1..], user);
      assert forall k :: 1 <= k < |profiles| ==> profiles[k] == profiles[1..][k - 1];
      (if profiles[0].user == user then 1 else 0) + rest
  }

  /** Adding one profile adds one to its user's count and nothing to anyone else's. */
  lemma {:induction false} CountForAppend(profiles: seq<UserProfile>, p: UserProfile, user: UserId)
    ensures CountFor(profiles + [p], user) == CountFor(profiles, user) + (if p.user == user then 1 else 0)
    decreases |profiles|
  {
    if |profiles| > 0 {
      assert (profiles + [p])[1..] == profiles[1..] + [p];
      CountForAppend(profiles[1..], p, user);
    }
  }

  /** Re-saving a profile in place changes no user's count. */
  lemma {:induction false} CountForResave(profiles: seq<UserProfile>, k: nat, now: nat, user: UserId)
    requires k < |profiles|
    ensures CountFor(profiles[k := profiles[k].(updatedAt := now)], user) == CountFor(profiles, user)
    decreases |profiles|
  {
    var updated := profiles[k := profiles[k].(updatedAt := now)];
    if k > 0 {
      assert updated[1..] == profiles[1..][k - 1 := profiles[k].(updatedAt := now)];
      CountForResave(profiles[1..], k - 1, now, user);
    } else {
      assert updated[1..] == profiles[1..];
    }
  }

  /** The one-to-one link: no two profiles share a user. */
  ghost predicate OneProfilePerUser(profiles: seq<UserProfile>)
  {
    forall i, j :: 0 <= i < j < |profiles| ==> profiles[i].user != profiles[j].user
  }

  /** Under the one-to-one link, a user has at most one profile. */
  lemma {:induction false} AtMostOneProfile(profiles: seq<UserProfile>, user: UserId)
    requires OneProfilePerUser(profiles)
    ensures CountFor(profiles, user) <= 1
    decreases |profiles|
  {
    if |profiles| > 0 {
      assert OneProfilePerUser(profiles[1..]) by {
        forall i, j | 0 <= i < j < |profiles[1..]|
          ensures profiles[1..][i].user != profiles[1..][j].user
        {
          assert profiles[1..][i] == profiles[i + 1] && profiles[1..][j] == profiles[j + 1];
        }
      }
      AtMostOneProfile(profiles[1..], user);
      if profiles[0].user == user {
        assert forall k :: 0 <= k < |profiles[1..]| ==> profiles[1..][k] == profiles[k + 1];
      }
    }
  }

  /** Where `user`'s profile is, as the reverse one-to-one accessor finds it. */
  function ProfileIndex(profiles: seq<UserProfile>, user: UserId): (r: Option<nat>)
    ensures r.Some? ==> r.value < |profiles| && profiles[r.value].user == user
    ensures r.None? <==> CountFor(profiles, user) == 0
    decreases |profiles|
  {
    if |profiles| == 0 then None
    else if profiles[0].user == user then Some(0)
    else
      match ProfileIndex(profiles[1..], user)
      case None => None
      case Some(k) => Some(k + 1)
  }

  /** What the database reports when an insert would break a uniqueness constraint. */
  datatype IntegrityError = UniqueViolated(column: string)

  /**
   * The user and profile tables. Profiles are kept in insertion order; each
   * names an existing user, and no user has two.
   */
  class UserStore {
    var users: map<UserId, User>
    var profiles: seq<UserProfile>
    var nextUserId: nat
    var nextProfileId: nat

    ghost predicate Valid()
      reads this
    {
      && (forall u :: u in users ==> users[u].id == u && u < nextUserId)
      && (forall k :: 0 <= k < |profiles| ==> profiles[k].user in users && profiles[k].id < nextProfileId)
      && OneProfilePerUser(profiles)
    }

    /** A store holding accounts that have no profiles yet. */
    constructor (users: map<UserId, User>, nextUserId: nat)
      requires forall u :: u in users ==> users[u].id == u && u < nextUserId
      ensures Valid()
      ensures this.users == users && this.nextUserId == nextUserId
      ensures profiles == [] && nextProfileId == 1
    {
      this.users := users;
      this.nextUserId := nextUserId;
      profiles := [];
      nextProfileId := 1;
    }

    /** Inserts a default profile for a user that has none. */
    method InsertProfile(user: UserId, now: nat) returns (p: UserProfile)
      requires Valid() && user in users && CountFor(profiles, user) == 0
      modifies this
      ensures Valid()
      ensures p == NewUserProfile(old(nextProfileId), user, now)
      ensures profiles == old(profiles) + [p] && nextProfileId == old(nextProfileId) + 1
      ensures users == old(users) && nextUserId == old(nextUserId)
      ensures CountFor(profiles, user) == 1
    {
      p := NewUserProfile(nextProfileId, user, now);
      CountForAppend(profiles, p, user);
      profiles := profiles + [p];
      nextProfileId := nextProfileId + 1;
    }

    /**
     * The `create_user_profile` receiver: on creation it inserts the user's
     * profile, which the one-to-one constraint refuses if one is there.
     */
    method CreateUserProfile(instance: UserId, created: bool, now: nat) returns (error: Option<IntegrityError>)
      requires Valid() && instance in users
      modifies this
      ensures Valid()
      ensures users == old(users) && nextUserId == old(nextUserId)
      ensures created && CountFor(old(profiles), instance) == 0 ==>
        && error == None
        && profiles == old(profiles) + [NewUserProfile(old(nextProfileId), instance, now)]
        && nextProfileId == old(nextProfileId) + 1
      ensures created && CountFor(old(profiles), instance) > 0 ==> error == Some(UniqueViolated("user_id"))
      ensures !created ==> error == None
      ensures !(created && CountFor(old(profiles), instance) == 0) ==>
        profiles == old(profiles) && nextProfileId == old(nextProfileId)
    {
      error := None;
      if created {
        if CountFor(profiles, instance) > 0 {
          error := Some(UniqueViolated("user_id"));
        } else {
          var _ := InsertProfile(instance, now);
        }
      }
    }

    /**
     * The `save_user_profile` receiver: re-saves the user's profile when
     * there is one, which stamps its `updated_at`; otherwise does nothing.
     */
    method SaveUserProfile(instance: UserId, now: nat)
      requires Valid()
      modifies this
      ensures Valid()
      ensures users == old(users) && nextUserId == old(nextUserId) && nextProfileId == old(nextProfileId)
      ensures ProfileIndex(old(profiles), instance).None? ==> profiles == old(profiles)
      ensures ProfileIndex(old(profiles), instance).Some? ==>
        var k := ProfileIndex(old(profiles), instance).value;
        profiles == old(profiles)[k := old(profiles)[k].(updatedAt := now)]
      ensures forall u :: CountFor(profiles, u) == CountFor(old(profiles), u)
      ensures |profiles| == |old(profiles)| && forall k :: 0 <= k < |profiles| ==> profiles[k].user == old(profiles)[k].user
    {
      var found := ProfileIndex(profiles, instance);
      if found.Some? {
        var k := found.value;
        forall u ensures CountFor(profiles[k := profiles[k].(updatedAt := now)], u) == CountFor(profiles, u) {
          CountForResave(profiles, k, now, u);
        }
        profiles := profiles[k := profiles[k].(updatedAt := now)];
      }
    }

    /** A user row was saved: the receivers run in the order they are connected. */
    method PostSave(instance: UserId, created: bool, now: nat) returns (error: Option<IntegrityError>)
      requires Valid() && instance in users
      modifies this
      ensures Valid()
      ensures users == old(users) && nextUserId == old(nextUserId)
      ensures !created ==> error == None && nextProfileId == old(nextProfileId)
      ensures !created ==> forall u :: CountFor(profiles, u) == CountFor(old(profiles), u)
      ensures !created ==>
        |profiles| == |old(profiles)| && forall k :: 0 <= k < |profiles| ==> profiles[k].user == old(profiles)[k].user
      ensures !created && ProfileIndex(old(profiles), instance).None? ==> profiles == old(profiles)
      ensures !created && ProfileIndex(old(profiles), instance).Some? ==>
        var k := ProfileIndex(old(profiles), instance).value;
        profiles == old(profiles)[k := old(profiles)[k].(updatedAt := now)]
      ensures created && CountFor(old(profiles), instance) == 0 ==>
        && error == None
        && profiles == old(profiles) + [NewUserProfile(old(nextProfileId), instance, now)]
        && nextProfileId == old(nextProfileId) + 1
      ensures created && CountFor(old(profiles), instance) > 0 ==>
        error == Some(UniqueViolated("user_id")) && profiles == old(profiles)
    {
      error := CreateUserProfile(instance, created, now);
      if error.None? {
        ghost var inserted := profiles;
        if created {
          CountForAppend(old(profiles), NewUserProfile(old(nextProfileId), instance, now), instance);
        }
        SaveUserProfile(instance, now);
        if created {
          // The profile just inserted was stamped with `now` already.
          var k := ProfileIndex(inserted, instance).value;
          assert k == |inserted| - 1 by {
            assert forall j :: 0 <= j < |old(profiles)| ==> inserted[j] == old(profiles)[j];
          }
          assert inserted[k].(updatedAt := now) == inserted[k];
        }
      }
    }

    /**
     * Creates a user account; the `post_save` receivers then give it exactly
     * one profile, with the defaults.
     */
    method CreateUser(username: string, firstName: string, lastName: string, email: string,
                      password: string, now: nat) returns (id: UserId)
      requires Valid()
      modifies this
      ensures Valid()
      ensures id == old(nextUserId) && id !in old(users) && nextUserId == old(nextUserId) + 1
      ensures users == old(users)[id := User(id, username, firstName, lastName, email, password)]
      ensures profiles == old(profiles) + [NewUserProfile(old(nextProfileId), id, now)]
      ensures CountFor(profiles, id) == 1
    {
      id := nextUserId;
      users := users[id := User(id, username, firstName, lastName, email, password)];
      nextUserId := nextUserId + 1;
      assert CountFor(profiles, id) == 0;
      var error := PostSave(id, true, now);
      CountForAppend(old(profiles), NewUserProfile(old(nextProfileId), id, now), id);
    }

    /**
     * Saves changes to an existing user; no profile is created, and the
     * user's profile, if any, is re-saved.
     */
    method SaveUser(user: User, now: nat)
      requires Valid() && user.id in users
      modifies this
      ensures Valid()
      ensures users == old(users)[user.id := user] && nextUserId == old(nextUserId)
      ensures nextProfileId == old(nextProfileId) && |profiles| == |old(profiles)|
      ensures forall u :: CountFor(profiles, u) == CountFor(old(profiles), u)
      ensures forall k :: 0 <= k < |profiles| ==> profiles[k].user == old(profiles)[k].user
      ensures ProfileIndex(old(profiles), user.id).None? ==> profiles == old(profiles)
      ensures ProfileIndex(old(profiles), user.id).Some? ==>
        var k := ProfileIndex(old(profiles), user.id).value;
        profiles == old(profiles)[k := old(profiles)[k].(updatedAt := now)]
    {
      users := users[user.id := user];
      var _ := PostSave(user.id, false, now);
    }
  }
}

/** The account pages: registration and the profile page. */
module AccountsViews {
  import opened Wrappers
  import opened Text
  import opened MainModels
  import opened MainForms
  import opened AccountsModels

  /** The fields the registration form reads. */
  const RegistrationFields: set<string> :=
    {"username", "first_name", "last_name", "email", "password1", "password2"}

  datatype RegistrationError =
    | BadField(error: FieldError)
    | UsernameTaken
    | PasswordMismatch
    | PasswordRejected   // the configured password validators refused it

  datatype Registration = Registration(
    username: string,
    firstName: string,
    lastName: string,
    email: string,
    password: string)

  /** Some account already has exactly this username. */
  predicate UsernameInUse(users: map<UserId, User>, username: string)
  {
    exists u :: u in users && users[u].username == username
  }

  /** A password field: required, never stripped, and like every text field free of NUL. */
  function CleanPassword(data: FormData, field: string): (r: Result<string, FieldError>)
    ensures r.Ok? <==> Raw(data, field) != "" && NoNul(Raw(data, field))
    ensures r.Ok? ==> r.value == Raw(data, field)
  {
    if Raw(data, field) == "" then Err(Required(field))
    else if !NoNul(Raw(data, field)) then Err(NullCharacter(field))
    else Ok(Raw(data, field))
  }

  function FieldErrors<T>(r: Result<T, FieldError>): seq<RegistrationError>
  {
    if r.Err? then [BadField(r.error)] else []
  }

  /**
   * The registration form: username (unique, at most 150), first and last
   * name (at most 150) and email (at most 254) are all required, and the two
   * passwords must be given, agree, and pass the password validators, whose
   * verdict is `passwordAccepted`; no field may hold a NUL character.
   */
  function CleanRegistrationForm(data: FormData, users: map<UserId, User>, passwordAccepted: bool)
    : (r: Result<Registration, seq<RegistrationError>>)
    ensures r.Ok? <==>
      && 0 < |Strip(Raw(data, "username"))| <= 150 && !UsernameInUse(users, Strip(Raw(data, "username")))
      && 0 < |Strip(Raw(data, "first_name"))| <= 150
      && 0 < |Strip(Raw(data, "last_name"))| <= 150
      && 0 < |Strip(Raw(data, "email"))| <= 254
      && NoNul(Strip(Raw(data, "username"))) && NoNul(Strip(Raw(data, "first_name")))
      && NoNul(Strip(Raw(data, "last_name"))) && NoNul(Strip(Raw(data, "email")))
      && Raw(data, "password1") != "" && NoNul(Raw(data, "password1"))
      && Raw(data, "password1") == Raw(data, "password2")
      && passwordAccepted
    ensures r.Ok? ==>
      && r.value.username == Strip(Raw(data, "username"))
      && r.value.firstName == Strip(Raw(data, "first_name"))
      && r.value.lastName == Strip(Raw(data, "last_name"))
      && r.value.email == Strip(Raw(data, "email"))
      && r.value.password == Raw(data, "password1")
    ensures r.Err? ==> |r.error| > 0
  {
    var username := CleanText(data, "username", true, Some(150));
    var firstName := CleanText(data, "first_name", true, Some(150));
    var lastName := CleanText(data, "last_name", true, Some(150));
    var email := CleanText(data, "email", true, Some(254));
    var password1 := CleanPassword(data, "password1");
    var password2 := CleanPassword(data, "password2");
    AssembleRegistration(username, firstName, lastName, email, password1, password2, users, passwordAccepted)
  }

  /** Gathers the field results into the account details or every error found, in the form's order. */
  function AssembleRegistration(username: Result<string, FieldError>, firstName: Result<string, FieldError>,
                                lastName: Result<string, FieldError>, email: Result<string, FieldError>,
                                password1: Result<string, FieldError>, password2: Result<string, FieldError>,
                                users: map<UserId, User>, passwordAccepted: bool)
    : Result<Registration, seq<RegistrationError>>
  {
    var taken := username.Ok? && UsernameInUse(users, username.value);
    var mismatch := password1.Ok? && password2.Ok? && password1.value != password2.value;
    var rejected := password2.Ok? && !mismatch && !passwordAccepted;
    var errors :=
      FieldErrors(username) + FieldErrors(firstName) + FieldErrors(lastName) + FieldErrors(email)
      + FieldErrors(password1) + FieldErrors(password2)
      + (if mismatch then [PasswordMismatch] else [])
      + (if rejected then [PasswordRejected] else [])
      + (if taken then [UsernameTaken] else []);
    if errors == [] then
      Ok(Registration(username.value, firstName.value, lastName.value, email.value, password1.value))
    else
      Err(errors)
  }

  /** First name, last name and email are each required on their own. */
  lemma RegistrationNeedsNamesAndEmail(data: FormData, users: map<UserId, User>, passwordAccepted: bool)
    requires Strip(Raw(data, "first_name")) == "" || Strip(Raw(data, "last_name")) == ""
             || Strip(Raw(data, "email")) == ""
    ensures CleanRegistrationForm(data, users, passwordAccepted).Err?
  {
  }

  /** Fields outside the registration form's list have no effect on it. */
  lemma RegistrationReadsOnlyItsFields(d1: FormData, d2: FormData, users: map<UserId, User>, passwordAccepted: bool)
    requires AgreeOn(d1, d2, RegistrationFields)
    ensures CleanRegistrationForm(d1, users, passwordAccepted) == CleanRegistrationForm(d2, users, passwordAccepted)
  {
    assert CleanText(d1, "username", true, Some(150)) == CleanText(d2, "username", true, Some(150)) by {
      assert Raw(d1, "username") == Raw(d2, "username");
    }
    assert CleanText(d1, "first_name", true, Some(150)) == CleanText(d2, "first_name", true, Some(150)) by {
      assert Raw(d1, "first_name") == Raw(d2, "first_name");
    }
    assert CleanText(d1, "last_name", true, Some(150)) == CleanText(d2, "last_name", true, Some(150)) by {
      assert Raw(d1, "last_name") == Raw(d2, "last_name");
    }
    assert CleanText(d1, "email", true, Some(254)) == CleanText(d2, "email", true, Some(254)) by {
      assert Raw(d1, "email") == Raw(d2, "email");
    }
    assert CleanPassword(d1, "password1") == CleanPassword(d2, "password1") by {
      assert Raw(d1, "password1") == Raw(d2, "password1");
    }
    assert CleanPassword(d1, "password2") == CleanPassword(d2, "password2") by {
      assert Raw(d1, "password2") == Raw(d2, "password2");
    }
  }

  datatype RegisterOutcome =
    | RedirectToDashboard(account: Option<UserId>)   // the account just created, if any
    | ShowRegistration(errors: seq<RegistrationError>)

  /**
   * The registration page: a signed-in visitor is sent to the dashboard; a
   * valid form creates the account (and through the receivers its profile).
   */
  method Register(store: UserStore, authenticated: bool, post: Option<FormData>, passwordAccepted: bool, now: nat)
    returns (outcome: RegisterOutcome)
    requires store.Valid()
    modifies store
    ensures store.Valid()
    ensures authenticated ==> outcome == RedirectToDashboard(None)
    ensures !authenticated && post.None? ==> outcome == ShowRegistration([])
    ensures !authenticated && post.Some? && CleanRegistrationForm(post.value, old(store.users), passwordAccepted).Err? ==>
      outcome == ShowRegistration(CleanRegistrationForm(post.value, old(store.users), passwordAccepted).error)
    ensures !outcome.RedirectToDashboard? || outcome.account.None? ==>
      && store.users == old(store.users) && store.profiles == old(store.profiles)
      && store.nextUserId == old(store.nextUserId) && store.nextProfileId == old(store.nextProfileId)
    ensures !authenticated && post.Some? && CleanRegistrationForm(post.value, old(store.users), passwordAccepted).Ok? ==>
      var reg := CleanRegistrationForm(post.value, old(store.users), passwordAccepted).value;
      var id := old(store.nextUserId);
      && outcome == RedirectToDashboard(Some(id))
      && store.users == old(store.users)[id := User(id, reg.username, reg.firstName, reg.lastName, reg.email, reg.password)]
      && store.profiles == old(store.profiles) + [NewUserProfile(old(store.nextProfileId), id, now)]
  {
    if authenticated {
      return RedirectToDashboard(None);
    }
    if post.None? {
      return ShowRegistration([]);
    }
    var form := CleanRegistrationForm(post.value, store.users, passwordAccepted);
    if form.Err? {
      return ShowRegistration(form.error);
    }
    var reg := form.value;
    var id := store.CreateUser(reg.username, reg.firstName, reg.lastName, reg.email, reg.password, now);
    outcome := RedirectToDashboard(Some(id));
  }

  /**
   * The profile page: returns the signed-in user's profile, creating one
   * with the defaults when it is missing; afterwards the user has exactly one.
   */
  method Profile(store: UserStore, user: UserId, now: nat) returns (profile: UserProfile, created: bool)
    requires store.Valid() && user in store.users
    modifies store
    ensures store.Valid()
    ensures store.users == old(store.users) && store.nextUserId == old(store.nextUserId)
    ensures created <==> CountFor(old(store.profiles), user) == 0
    ensures !created ==>
      && store.profiles == old(store.profiles) && store.nextProfileId == old(store.nextProfileId)
      && profile == old(store.profiles)[ProfileIndex(old(store.profiles), user).value]
    ensures created ==>
      && profile == NewUserProfile(old(store.nextProfileId), user, now)
      && store.profiles == old(store.profiles) + [profile]
    ensures profile.user == user && profile in store.profiles
    ensures CountFor(store.profiles, user) == 1
  {
    var found := ProfileIndex(store.profiles, user);
    if found.Some? {
      AtMostOneProfile(store.profiles, user);
      profile, created := store.profiles[found.value], false;
    } else {
      profile := store.InsertProfile(user, now);
      created := true;
    }
  }

  /** Visiting the profile page again finds the same profile and creates nothing. */
  method ProfileRevisit(store: UserStore, user: UserId, first: nat, second: nat)
    returns (p1: UserProfile, p2: UserProfile, createdAgain: bool)
    requires store.Valid() && user in store.users
    modifies store
    ensures store.Valid()
    ensures p1 == p2 && !createdAgain
    ensures CountFor(store.profiles, user) == 1
  {
    var created;
    p1, created := Profile(store, user, first);
    p2, createdAgain := Profile(store, user, second);
  }
}
