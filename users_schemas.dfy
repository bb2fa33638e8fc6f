// `users.schemas.ts`: the create and update bodies of the user admin API.
// The e-mail format check is zod's own and enters as a predicate.
module UserSchemas {
  import opened Common
  import opened Store
  import opened Zod

  /** The role names an admin may assign. */
  const RoleNames: set<string> := {"VictorAdmin", "OperatorAdmin", "Handler", "AuthorityUser"}

  /** The stored enum's names. */
  function StatusName(s: UserStatus): string
  {
    match s
    case USER_ACTIVE => "ACTIVE"
    case DISABLED => "DISABLED"
    case INVITE_PENDING => "INVITE_PENDING"
  }

  function ParseStatus(s: string): (r: Option<UserStatus>)
    ensures r.Some? ==> StatusName(r.value) == s
  {
    if s == "ACTIVE" then Some(USER_ACTIVE)
    else if s == "DISABLED" then Some(DISABLED)
    else if s == "INVITE_PENDING" then Some(INVITE_PENDING)
    else None
  }

  lemma ParseStatusName(s: UserStatus)
    ensures ParseStatus(StatusName(s)) == Some(s)
  {
  }

  /** `z.string().min(10)`: a password of at least ten characters. */
  const MinPasswordLength: nat := 10

  predicate EmailOk(body: Body, isEmail: string -> bool)
  {
    IsStr(body, "email") && isEmail(body["email"].s)
  }

  predicate RoleOk(body: Body) { IsStr(body, "role") && body["role"].s in RoleNames }

  predicate StatusOk(body: Body) { IsStr(body, "status") && ParseStatus(body["status"].s).Some? }

  datatype CreateUserData = CreateUserData(email: string, password: string, role: string, status: Option<UserStatus>)

  function CreateUserSchema(body: Body, isEmail: string -> bool): (r: Parsed<CreateUserData>)
    ensures r.Accepted? <==>
      && EmailOk(body, isEmail)
      && IsStr(body, "password") && |body["password"].s| >= MinPasswordLength
      && RoleOk(body)
      && ("status" in body ==> StatusOk(body))
    ensures r.Accepted? ==> r.value.role in RoleNames && |r.value.password| >= MinPasswordLength
    ensures r.Accepted? ==> r.value.email == body["email"].s && isEmail(r.value.email)
    ensures r.Accepted? ==> r.value.password == body["password"].s && r.value.role == body["role"].s
    ensures r.Accepted? ==> (r.value.status.Some? <==> "status" in body)
    ensures r.Accepted? && r.value.status.Some? ==> StatusName(r.value.status.value) == body["status"].s
  {
    if EmailOk(body, isEmail) && StrWithin(body, "password", MinPasswordLength, None) && RoleOk(body)
       && ("status" in body ==> StatusOk(body))
    then
      Accepted(CreateUserData(Str(body, "email"), Str(body, "password"), Str(body, "role"),
                              if "status" in body then ParseStatus(body["status"].s) else None))
    else Rejected
  }

  datatype UserPatchInput = UserPatchInput(email: Option<string>, password: Option<string>,
                                           role: Option<string>, status: Option<UserStatus>)

  const UpdateKeys: set<string> := {"email", "password", "role", "status"}

  function UpdateUserSchema(body: Body, isEmail: string -> bool): (r: Parsed<UserPatchInput>)
    ensures r.Accepted? <==>
      && ("email" in body ==> EmailOk(body, isEmail))
      && ("password" in body ==> IsStr(body, "password") && |body["password"].s| >= MinPasswordLength)
      && ("role" in body ==> RoleOk(body))
      && ("status" in body ==> StatusOk(body))
      && PresentKeys(body, UpdateKeys) != {}
    ensures r.Accepted? ==> r.value != UserPatchInput(None, None, None, None)
    ensures r.Accepted? ==> (r.value.password.Some? <==> "password" in body)
    ensures r.Accepted? && r.value.password.Some? ==> |r.value.password.value| >= MinPasswordLength
    ensures r.Accepted? && r.value.password.Some? ==> r.value.password.value == body["password"].s
    ensures r.Accepted? ==> (r.value.email.Some? <==> "email" in body)
    ensures r.Accepted? && r.value.email.Some? ==> isEmail(r.value.email.value) && r.value.email.value == body["email"].s
    ensures r.Accepted? ==> (r.value.role.Some? <==> "role" in body)
    ensures r.Accepted? && r.value.role.Some? ==> r.value.role.value in RoleNames && r.value.role.value == body["role"].s
    ensures r.Accepted? ==> (r.value.status.Some? <==> "status" in body)
    ensures r.Accepted? && r.value.status.Some? ==> StatusName(r.value.status.value) == body["status"].s
  {
    if && ("email" in body ==> EmailOk(body, isEmail))
       && OptStrWithin(body, "password", MinPasswordLength, None)
       && ("role" in body ==> RoleOk(body))
       && ("status" in body ==> StatusOk(body))
       && PresentKeys(body, UpdateKeys) != {}
    then
      assert exists k :: k in body && k in UpdateKeys;
      Accepted(UserPatchInput(OptStr(body, "email"), OptStr(body, "password"), OptStr(body, "role"),
                              if "status" in body then ParseStatus(body["status"].s) else None))
    else Rejected
  }

  /** A password shorter than ten characters is refused on update too. */
  lemma ShortPasswordRefused(body: Body, isEmail: string -> bool)
    requires IsStr(body, "password") && |body["password"].s| < MinPasswordLength
    ensures UpdateUserSchema(body, isEmail).Rejected? && CreateUserSchema(body, isEmail).Rejected?
  {
  }
}
