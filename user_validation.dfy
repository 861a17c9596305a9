/**
 * The request-body validators of src/validations/userValidation.ts.
 *
 * Each handler receives `req.body` and either answers 400 Bad Request or
 * calls `next()` with the body rewritten by its `Object.assign` calls. A value
 * where the library expects a string (trim, isLength, normalizeEmail) makes
 * the library throw; the handler's `catch` answers 400 as well, so those cases
 * are 400 here too.
 */
module UserValidation {
  import opened Wrappers
  import opened Js
  import opened Validator

  type Body = Js.Object

  /** How a handler ends: a JSON response, or `next()` with the (rewritten) body. */
  datatype Outcome = Respond(status: int, message: string) | Next(body: Body)

  /** `res.status(StatusCodes.BAD_REQUEST).json({ message: ReasonPhrases.BAD_REQUEST, ... })`. */
  const BadRequest: Outcome := Respond(400, "Bad Request")

  /** The `UserTypes` enum of src/constants/index.ts. */
  const UserTypeValues: seq<string> := ["Admin", "User"]

  /**
   * The two e-mail helpers of the `validator` library, whose rules are not
   * modelled: `normalizeEmail` (None for its `false` result) and `isEmail`
   * with `allow_utf8_local_part: false`.
   */
  datatype EmailLibrary = EmailLibrary(
    normalizeEmail: string -> Option<string>,
    isEmail: string -> bool)

  const NameMin: nat := 2
  const NameMax: nat := 48
  const PasswordMin: nat := 6
  const PasswordMax: nat := 48

  // ---------------------------------------------------------------------------
  // The individual checks

  /**
   * `email && normalizeEmail(email)`, trimmed when truthy, then refused when
   * falsy or not an e-mail address: the value stored, or None for a 400.
   */
  function NormalizedEmail(email: Value, lib: EmailLibrary): (r: Option<string>)
    ensures r.Some? ==> email.Str? && lib.normalizeEmail(email.s).Some?
    ensures r.Some? ==> r.value == Trim(lib.normalizeEmail(email.s).value)
    ensures r.Some? ==> r.value != "" && lib.isEmail(r.value)
    ensures r.None? <==>
      !Truthy(email) || !email.Str? || lib.normalizeEmail(email.s).None? ||
      Trim(lib.normalizeEmail(email.s).value) == "" ||
      !lib.isEmail(Trim(lib.normalizeEmail(email.s).value))
  {
    if !Truthy(email) then None            // `email && ...` keeps the falsy value
    else if !email.Str? then None          // normalizeEmail throws on a non-string
    else
      var normalized := lib.normalizeEmail(email.s);
      var trimmed := if normalized.Some? && normalized.value != "" then Some(Trim(normalized.value)) else normalized;
      if trimmed.None? || trimmed.value == "" || !lib.isEmail(trimmed.value) then None
      else trimmed
  }

  /** `if (name) { trim; isLength(2, 48) }`: a falsy name is skipped. */
  predicate NameOk(name: Value) {
    !Truthy(name) || (name.Str? && IsLength(Trim(name.s), NameMin, NameMax))
  }

  /** `Object.assign(req.body, { [key]: trimmed })` when the name is truthy. */
  function AssignTrimmedName(body: Body, key: string): (b: Body)
    requires NameOk(Get(body, key))
    ensures Truthy(Get(body, key)) ==> b == body[key := Str(Trim(Get(body, key).s))]
    ensures !Truthy(Get(body, key)) ==> b == body
  {
    var name := Get(body, key);
    if Truthy(name) then body[key := Str(Trim(name.s))] else body
  }

  /** `isLength(password, 6, 48)` on the untrimmed value (it throws on a non-string). */
  predicate PasswordOk(password: Value) {
    password.Str? && IsLength(password.s, PasswordMin, PasswordMax)
  }

  /** `userType && ![Admin, User].includes(userType)` is refused. */
  predicate UserTypeOk(userType: Value) {
    !Truthy(userType) || (userType.Str? && userType.s in UserTypeValues)
  }

  /** `subscriptionStatus && !Object.values(SubscriptionStatus).includes(...)` is refused. */
  predicate SubscriptionOk(status: Value, subscriptionValues: set<string>) {
    !Truthy(status) || (status.Str? && status.s in subscriptionValues)
  }

  /** `verified !== undefined && typeof verified !== 'boolean'` is refused. */
  predicate VerifiedOk(verified: Value) {
    verified == Undefined || verified.Bool?
  }

  // ---------------------------------------------------------------------------
  // The handlers, each in the order its checks appear in the source

  /** `userValidation.adminCreateUser`. */
  function AdminCreateUser(body: Body, lib: EmailLibrary, subscriptionValues: set<string>): (r: Outcome)
    ensures r.Respond? ==> r == BadRequest
    ensures !Truthy(Get(body, "email")) || !Truthy(Get(body, "password")) ==> r == BadRequest
    ensures r.Next? <==>
      NormalizedEmail(Get(body, "email"), lib).Some? &&
      PasswordOk(Get(body, "password")) &&
      NameOk(Get(body, "firstName")) && NameOk(Get(body, "lastName")) &&
      UserTypeOk(Get(body, "userType")) &&
      SubscriptionOk(Get(body, "subscriptionStatus"), subscriptionValues) &&
      VerifiedOk(Get(body, "verified"))
    ensures r.Next? ==>
      r.body == AssignTrimmedName(AssignTrimmedName(body, "firstName"), "lastName")
                  ["email" := Str(NormalizedEmail(Get(body, "email"), lib).value)]
  {
    var email, password := Get(body, "email"), Get(body, "password");
    var firstName, lastName := Get(body, "firstName"), Get(body, "lastName");
    var userType, subscriptionStatus := Get(body, "userType"), Get(body, "subscriptionStatus");
    var verified := Get(body, "verified");
    if !Truthy(email) || !Truthy(password) then BadRequest
    else
      var normalizedEmail := NormalizedEmail(email, lib);
      if normalizedEmail.None? then BadRequest
      else if !PasswordOk(password) then BadRequest
      else if !NameOk(firstName) then BadRequest
      else
        var body1 := AssignTrimmedName(body, "firstName");
        if !NameOk(lastName) then BadRequest
        else
          assert Get(body1, "lastName") == lastName;
          var body2 := AssignTrimmedName(body1, "lastName");
          if !UserTypeOk(userType) then BadRequest
          else if !SubscriptionOk(subscriptionStatus, subscriptionValues) then BadRequest
          else if !VerifiedOk(verified) then BadRequest
          else Next(body2["email" := Str(normalizedEmail.value)])
  }

  /** None of the six fields `adminUpdateUser` looks at is present (`=== undefined`). */
  predicate NoAdminUpdateField(body: Body) {
    Get(body, "firstName") == Undefined && Get(body, "lastName") == Undefined &&
    Get(body, "userType") == Undefined && Get(body, "subscriptionStatus") == Undefined &&
    Get(body, "verified") == Undefined && Get(body, "password") == Undefined
  }

  /** `userValidation.adminUpdateUser`. */
  function AdminUpdateUser(body: Body, subscriptionValues: set<string>): (r: Outcome)
    ensures r.Respond? ==> r == BadRequest
    ensures NoAdminUpdateField(body) ==> r == BadRequest
    ensures r.Next? <==>
      !NoAdminUpdateField(body) &&
      NameOk(Get(body, "firstName")) && NameOk(Get(body, "lastName")) &&
      UserTypeOk(Get(body, "userType")) &&
      SubscriptionOk(Get(body, "subscriptionStatus"), subscriptionValues) &&
      VerifiedOk(Get(body, "verified")) &&
      (Get(body, "password") == Undefined || PasswordOk(Get(body, "password")))
    ensures r.Next? ==> r.body == AssignTrimmedName(AssignTrimmedName(body, "firstName"), "lastName")
  {
    var firstName, lastName := Get(body, "firstName"), Get(body, "lastName");
    var userType, subscriptionStatus := Get(body, "userType"), Get(body, "subscriptionStatus");
    var verified, password := Get(body, "verified"), Get(body, "password");
    if firstName == Undefined && lastName == Undefined && userType == Undefined &&
       subscriptionStatus == Undefined && verified == Undefined && password == Undefined
    then BadRequest
    else if !NameOk(firstName) then BadRequest
    else
      var body1 := AssignTrimmedName(body, "firstName");
      if !NameOk(lastName) then BadRequest
      else
        assert Get(body1, "lastName") == lastName;
        var body2 := AssignTrimmedName(body1, "lastName");
        if !UserTypeOk(userType) then BadRequest
        else if !SubscriptionOk(subscriptionStatus, subscriptionValues) then BadRequest
        else if !VerifiedOk(verified) then BadRequest
        else if password != Undefined && !PasswordOk(password) then BadRequest
        else Next(body2)
  }

  /** `userValidation.updateUserTypeByMail`: `user_type` is required but not checked against UserTypes. */
  function UpdateUserTypeByMail(body: Body, lib: EmailLibrary): (r: Outcome)
    ensures r.Respond? ==> r == BadRequest
    ensures r.Next? <==>
      Truthy(Get(body, "user_type")) && NormalizedEmail(Get(body, "email"), lib).Some?
    ensures r.Next? ==>
      r.body == body["email" := Str(NormalizedEmail(Get(body, "email"), lib).value)]
  {
    var email, userType := Get(body, "email"), Get(body, "user_type");
    if !Truthy(email) || !Truthy(userType) then BadRequest
    else
      var normalizedEmail := NormalizedEmail(email, lib);
      if normalizedEmail.None? then BadRequest
      else Next(body["email" := Str(normalizedEmail.value)]["user_type" := userType])
  }

  /** `userValidation.verificationRequest`. */
  function VerificationRequest(body: Body, lib: EmailLibrary): (r: Outcome)
    ensures r.Respond? ==> r == BadRequest
    ensures r.Next? <==> NormalizedEmail(Get(body, "email"), lib).Some?
    ensures r.Next? ==>
      r.body == body["email" := Str(NormalizedEmail(Get(body, "email"), lib).value)]
  {
    var email := Get(body, "email");
    if !Truthy(email) then BadRequest
    else
      var normalizedEmail := NormalizedEmail(email, lib);
      if normalizedEmail.None? then BadRequest
      else Next(body["email" := Str(normalizedEmail.value)])
  }

  /** `userValidation.updateProfile`: both names are required, both are trimmed. */
  function UpdateProfile(body: Body): (r: Outcome)
    ensures r.Respond? ==> r == BadRequest
    ensures r.Next? <==>
      Get(body, "firstName").Str? && Get(body, "lastName").Str? &&
      IsLength(Trim(Get(body, "firstName").s), NameMin, NameMax) &&
      IsLength(Trim(Get(body, "lastName").s), NameMin, NameMax)
    ensures r.Next? ==>
      r.body == body["firstName" := Str(Trim(Get(body, "firstName").s))]
                    ["lastName" := Str(Trim(Get(body, "lastName").s))]
  {
    var firstName, lastName := Get(body, "firstName"), Get(body, "lastName");
    if !Truthy(firstName) || !Truthy(lastName) then BadRequest
    else if !firstName.Str? || !lastName.Str? then BadRequest   // trim throws
    else
      var trimmedFirstName, trimmedLastName := Trim(firstName.s), Trim(lastName.s);
      if !IsLength(trimmedFirstName, NameMin, NameMax) || !IsLength(trimmedLastName, NameMin, NameMax)
      then BadRequest
      else Next(body["firstName" := Str(trimmedFirstName)]["lastName" := Str(trimmedLastName)])
  }

  /** `userValidation.updateEmail`: the password is only required to be present. */
  function UpdateEmail(body: Body, lib: EmailLibrary): (r: Outcome)
    ensures r.Respond? ==> r == BadRequest
    ensures r.Next? <==>
      Truthy(Get(body, "password")) && NormalizedEmail(Get(body, "email"), lib).Some?
    ensures r.Next? ==>
      r.body == body["email" := Str(NormalizedEmail(Get(body, "email"), lib).value)]
  {
    var email, password := Get(body, "email"), Get(body, "password");
    if !Truthy(email) || !Truthy(password) then BadRequest
    else
      var normalizedEmail := NormalizedEmail(email, lib);
      if normalizedEmail.None? then BadRequest
      else Next(body["email" := Str(normalizedEmail.value)])
  }

  /** `userValidation.updatePassword`: the body is passed on unchanged. */
  function UpdatePassword(body: Body): (r: Outcome)
    ensures r.Respond? ==> r == BadRequest
    ensures r.Next? <==> Truthy(Get(body, "oldPassword")) && PasswordOk(Get(body, "newPassword"))
    ensures r.Next? ==> r.body == body
  {
    var oldPassword, newPassword := Get(body, "oldPassword"), Get(body, "newPassword");
    if !Truthy(oldPassword) || !Truthy(newPassword) || !PasswordOk(newPassword) then BadRequest
    else Next(body)
  }

  /** `userValidation.updateAvatar`. */
  function UpdateAvatar(body: Body): (r: Outcome)
    ensures r.Respond? ==> r == BadRequest
    ensures r.Next? <==> Truthy(Get(body, "imageId"))
    ensures r.Next? ==> r.body == body
  {
    if !Truthy(Get(body, "imageId")) then BadRequest else Next(body)
  }

  /** `userValidation.deleteProfile`. */
  function DeleteProfile(body: Body): (r: Outcome)
    ensures r.Respond? ==> r == BadRequest
    ensures r.Next? <==> Truthy(Get(body, "password"))
    ensures r.Next? ==> r.body == body
  {
    if !Truthy(Get(body, "password")) then BadRequest else Next(body)
  }

  // ---------------------------------------------------------------------------
  // Properties of the handlers

  /**
   * What a name field holds after a handler accepted the body: a truthy
   * name is replaced by its whitespace-stripped form of 2 to 48 characters,
   * a falsy one is left as it was.
   */
  ghost predicate NameStored(before: Value, after: Value) {
    if Truthy(before) then
      before.Str? && after.Str? && StripsTo(before.s, after.s) && NameMin <= |after.s| <= NameMax
    else after == before
  }

  lemma AssignTrimmedNameStores(body: Body, key: string)
    requires NameOk(Get(body, key))
    ensures NameStored(Get(body, key), Get(AssignTrimmedName(body, key), key))
    ensures forall k :: k != key ==> Get(AssignTrimmedName(body, key), k) == Get(body, k)
  {
    if Truthy(Get(body, key)) {
      TrimStrips(Get(body, key).s);
    }
  }

  /**
   * adminCreateUser on success: the password is a 6..48 character string
   * kept untrimmed, the e-mail is the trimmed normalised address that passed
   * isEmail, the names are stored trimmed, the enumerations hold, and no
   * other field of the body changes.
   */
  lemma AdminCreateUserAccepted(body: Body, lib: EmailLibrary, subscriptionValues: set<string>)
    requires AdminCreateUser(body, lib, subscriptionValues).Next?
    ensures var after := AdminCreateUser(body, lib, subscriptionValues).body;
      && Get(after, "password") == Get(body, "password")
      && Get(after, "password").Str?
      && PasswordMin <= |Get(after, "password").s| <= PasswordMax
      && Get(after, "email").Str? && lib.isEmail(Get(after, "email").s)
      && Get(after, "email") == Str(Trim(lib.normalizeEmail(Get(body, "email").s).value))
      && NameStored(Get(body, "firstName"), Get(after, "firstName"))
      && NameStored(Get(body, "lastName"), Get(after, "lastName"))
      && (Truthy(Get(after, "userType")) ==> Get(after, "userType") in {Str("Admin"), Str("User")})
      && (Truthy(Get(after, "subscriptionStatus")) ==>
            Get(after, "subscriptionStatus").Str? && Get(after, "subscriptionStatus").s in subscriptionValues)
      && (Get(after, "verified") == Undefined || Get(after, "verified").Bool?)
      && (forall k :: k != "email" && k != "firstName" && k != "lastName" ==> Get(after, k) == Get(body, k))
  {
    var body1 := AssignTrimmedName(body, "firstName");
    AssignTrimmedNameStores(body, "firstName");
    assert Get(body1, "lastName") == Get(body, "lastName");
    AssignTrimmedNameStores(body1, "lastName");
  }

  /**
   * adminUpdateUser on success: names stored trimmed, enumerations and the
   * optional password checked, and no other field changed.
   */
  lemma AdminUpdateUserAccepted(body: Body, subscriptionValues: set<string>)
    requires AdminUpdateUser(body, subscriptionValues).Next?
    ensures var after := AdminUpdateUser(body, subscriptionValues).body;
      && NameStored(Get(body, "firstName"), Get(after, "firstName"))
      && NameStored(Get(body, "lastName"), Get(after, "lastName"))
      && (Get(after, "password") == Undefined ||
          (Get(after, "password").Str? && PasswordMin <= |Get(after, "password").s| <= PasswordMax))
      && (forall k :: k != "firstName" && k != "lastName" ==> Get(after, k) == Get(body, k))
  {
    var body1 := AssignTrimmedName(body, "firstName");
    AssignTrimmedNameStores(body, "firstName");
    assert Get(body1, "lastName") == Get(body, "lastName");
    AssignTrimmedNameStores(body1, "lastName");
  }

  /**
   * adminUpdateUser counts a field as present as soon as it is not
   * `undefined`: an empty first name is enough to pass, and it skips the
   * length check. An empty password, by contrast, is refused.
   */
  lemma AdminUpdateUserPresence(subscriptionValues: set<string>)
    ensures AdminUpdateUser(map[], subscriptionValues) == BadRequest
    ensures AdminUpdateUser(map["firstName" := Str("")], subscriptionValues) ==
      Next(map["firstName" := Str("")])
    ensures AdminUpdateUser(map["verified" := Null], subscriptionValues) == BadRequest
    ensures AdminUpdateUser(map["password" := Str("")], subscriptionValues) == BadRequest
  {
  }

  /** A body that adminUpdateUser accepted is accepted again unchanged. */
  lemma {:induction false} AdminUpdateUserFixedPoint(body: Body, subscriptionValues: set<string>)
    requires AdminUpdateUser(body, subscriptionValues).Next?
    ensures var after := AdminUpdateUser(body, subscriptionValues).body;
      AdminUpdateUser(after, subscriptionValues) == Next(after)
  {
    var body1 := AssignTrimmedName(body, "firstName");
    assert Get(body1, "lastName") == Get(body, "lastName");
    AssignTrimmedNameAgain(body, "firstName");
    AssignTrimmedNameAgain(body1, "lastName");
    var after := AssignTrimmedName(body1, "lastName");
    assert Get(after, "firstName") == Get(body1, "firstName");
    assert AssignTrimmedName(after, "firstName") == after;
  }

  /**
   * Trimming a name a second time changes nothing, the name still passes
   * the check, and a name that was present stays present.
   */
  lemma AssignTrimmedNameAgain(body: Body, key: string)
    requires NameOk(Get(body, key))
    ensures var b := AssignTrimmedName(body, key);
      && NameOk(Get(b, key))
      && AssignTrimmedName(b, key) == b
      && (Get(body, key) == Undefined <==> Get(b, key) == Undefined)
  {
    if Truthy(Get(body, key)) {
      var t := Trim(Get(body, key).s);
      TrimIdempotent(Get(body, key).s);
      var b := body[key := Str(t)];
      assert Get(b, key) == Str(t);
      assert b[key := Str(Trim(t))] == b;
    }
  }

  /** updateProfile on success: both names are stored stripped of outer whitespace, 2 to 48 long. */
  lemma UpdateProfileAccepted(body: Body)
    requires UpdateProfile(body).Next?
    ensures var after := UpdateProfile(body).body;
      && NameStored(Get(body, "firstName"), Get(after, "firstName"))
      && NameStored(Get(body, "lastName"), Get(after, "lastName"))
      && Truthy(Get(after, "firstName")) && Truthy(Get(after, "lastName"))
      && (forall k :: k != "firstName" && k != "lastName" ==> Get(after, k) == Get(body, k))
  {
    TrimStrips(Get(body, "firstName").s);
    TrimStrips(Get(body, "lastName").s);
  }

  /** A body that updateProfile accepted is accepted again unchanged. */
  lemma UpdateProfileFixedPoint(body: Body)
    requires UpdateProfile(body).Next?
    ensures UpdateProfile(UpdateProfile(body).body) == Next(UpdateProfile(body).body)
  {
    TrimIdempotent(Get(body, "firstName").s);
    TrimIdempotent(Get(body, "lastName").s);
  }

  /**
   * Outer whitespace around the first name changes nothing: the handler
   * decides and rewrites exactly as for the bare name.
   */
  lemma UpdateProfileIgnoresPadding(body: Body, p: string, name: string, q: string)
    requires forall k :: 0 <= k < |p| ==> IsWhitespace(p[k])
    requires forall k :: 0 <= k < |q| ==> IsWhitespace(q[k])
    ensures UpdateProfile(body["firstName" := Str(p + name + q)]) == UpdateProfile(body["firstName" := Str(name)])
  {
    TrimPadding(p, name, q);
    var padded, bare := body["firstName" := Str(p + name + q)], body["firstName" := Str(name)];
    assert Get(padded, "lastName") == Get(bare, "lastName");
    if UpdateProfile(bare).Next? {
      var t := Str(Trim(name));
      var l := Str(Trim(Get(bare, "lastName").s));
      assert padded["firstName" := t]["lastName" := l] == bare["firstName" := t]["lastName" := l];
    }
  }

  /** " A  " trims to a one-character name and is refused. */
  lemma UpdateProfileShortName()
    ensures UpdateProfile(map["firstName" := Str(" A  "), "lastName" := Str("Bo")]) == BadRequest
  {
    TrimShortExample();
    var body := map["firstName" := Str(" A  "), "lastName" := Str("Bo")];
    assert Get(body, "firstName") == Str(" A  ");
  }

  /** The body an e-mail handler passes on: `email` replaced by an accepted address, nothing else changed. */
  ghost predicate OnlyEmailChanged(body: Body, after: Body, lib: EmailLibrary) {
    Get(after, "email").Str? && Get(after, "email").s != "" && lib.isEmail(Get(after, "email").s) &&
    forall k :: k != "email" ==> Get(after, k) == Get(body, k)
  }

  /**
   * The e-mail handlers (updateUserTypeByMail, verificationRequest,
   * updateEmail) replace `email` by an address that passed isEmail and
   * change nothing else.
   */
  lemma EmailHandlersChangeOnlyEmail(body: Body, lib: EmailLibrary)
    ensures UpdateUserTypeByMail(body, lib).Next? ==>
      OnlyEmailChanged(body, UpdateUserTypeByMail(body, lib).body, lib)
    ensures VerificationRequest(body, lib).Next? ==>
      OnlyEmailChanged(body, VerificationRequest(body, lib).body, lib)
    ensures UpdateEmail(body, lib).Next? ==>
      OnlyEmailChanged(body, UpdateEmail(body, lib).body, lib)
  {
  }

  /** updateUserTypeByMail does not check `user_type` against UserTypes. */
  lemma UpdateUserTypeByMailAnyUserType()
    ensures var lib := EmailLibrary(s => Some(s), s => true);
      var body := map["email" := Str("a@b.co"), "user_type" := Str("SuperAdmin")];
      UpdateUserTypeByMail(body, lib) == Next(body)
  {
    var lib := EmailLibrary(s => Some(s), s => true);
    TrimNoOuterSpace("a@b.co");
    var body := map["email" := Str("a@b.co"), "user_type" := Str("SuperAdmin")];
    assert NormalizedEmail(Str("a@b.co"), lib) == Some("a@b.co");
    assert body["email" := Str("a@b.co")]["user_type" := Str("SuperAdmin")] == body;
  }

  /** A failed normalisation or a failed isEmail answers 400, whatever else the body holds. */
  lemma EmailRejections(body: Body, lib: EmailLibrary)
    requires Get(body, "email").Str?
    requires lib.normalizeEmail(Get(body, "email").s).None? ||
             !lib.isEmail(Trim(lib.normalizeEmail(Get(body, "email").s).value))
    ensures VerificationRequest(body, lib) == BadRequest
    ensures UpdateEmail(body, lib) == BadRequest
    ensures UpdateUserTypeByMail(body, lib) == BadRequest
    ensures forall sv :: AdminCreateUser(body, lib, sv) == BadRequest
  {
  }
}
