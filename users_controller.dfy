/**
 * UsersController: registration (`new`, `create`) and the profile of the
 * signed-in user (`show`, `edit`, `update`). Request parameters go through the
 * `user_params` whitelist; responses are redirects with a flash notice, or a
 * re-render with status 422.
 */
module UsersController {
  import opened Wrappers
  import opened Text
  import opened UserModel
  import opened CurrentAttributes

  datatype Action = New | Create | Show | Edit | Update

  /** `skip_before_action :require_authentication, only: [ :new, :create ]`. */
  const PublicActions: set<Action> := {New, Create}

  /** Every action except the two registration actions requires a signed-in user. */
  predicate RequiresAuthentication(a: Action)
    ensures RequiresAuthentication(a) <==> a == Show || a == Edit || a == Update
    ensures !RequiresAuthentication(a) <==> a == New || a == Create
  {
    assert a.New? || a.Create? || a.Show? || a.Edit? || a.Update?;
    a !in PublicActions
  }

  /** A request parameter: a string, nil (a JSON `null`), or a nested hash of parameters. */
  datatype Param = Scalar(s: string) | NullParam | Nested(fields: map<string, Param>)

  datatype ParamsError =
    | ParameterMissing  // `require` found no `user` key, or a blank value: 400 Bad Request
    | NotAHash          // `require` returned a scalar, which has no `permit`: 500

  predicate BlankParam(p: Param) {
    match p
    case Scalar(s) => AllBlank(s)
    case NullParam => true
    case Nested(fields) => fields == map[]
  }

  /**
   * `permit(key)` keeps a listed key only when its value is a permitted scalar
   * (a string or nil); a nested hash is dropped.
   */
  function Permitted(fields: map<string, Param>, key: string): (r: Attribute)
    ensures r.Given? <==> key in fields && fields[key].Scalar?
    ensures r.Given? ==> r.value == fields[key].s
    ensures r.Null? <==> key in fields && fields[key].NullParam?
    ensures r.Omitted? <==> key !in fields || fields[key].Nested?
  {
    if key !in fields then Omitted
    else match fields[key]
      case Scalar(v) => Given(v)
      case NullParam => Null
      case Nested(_) => Omitted
  }

  const PermittedKeys: set<string> := {"email_address", "password", "password_confirmation"}

  /** `params.require(:user).permit(:email_address, :password, :password_confirmation)`. */
  function UserParamsOf(params: map<string, Param>): (r: Result<UserParams, ParamsError>)
    ensures r == Err(ParameterMissing) <==> "user" !in params || BlankParam(params["user"])
    ensures r == Err(NotAHash) <==> "user" in params && params["user"].Scalar? && !BlankParam(params["user"])
    ensures r.Ok? <==> "user" in params && params["user"].Nested? && !BlankParam(params["user"])
    ensures r.Ok? ==> "user" in params && params["user"].Nested?
    ensures r.Ok? ==>
      && r.value.email == Permitted(params["user"].fields, "email_address")
      && r.value.password == Permitted(params["user"].fields, "password")
      && r.value.confirmation == Permitted(params["user"].fields, "password_confirmation")
  {
    if "user" !in params || BlankParam(params["user"]) then Err(ParameterMissing)
    else match params["user"]
      case Scalar(_) => Err(NotAHash)
      case NullParam => Err(ParameterMissing)
      case Nested(fields) =>
        Ok(UserParams(Permitted(fields, "email_address"), Permitted(fields, "password"),
                      Permitted(fields, "password_confirmation")))
  }

  /**
   * `require` judges a scalar by `blank?`, not by `strip`: NUL is present, so
   * `permit` fails on it, while a no-break space is blank and missing.
   */
  lemma ScalarUserParamByBlank()
    ensures UserParamsOf(map["user" := Scalar("\0")]) == Err(NotAHash)
    ensures UserParamsOf(map["user" := Scalar("\U{00A0}")]) == Err(ParameterMissing)
  {
    assert !AllBlank("\0") by { assert !IsBlankChar("\0"[0]); }
  }

  /** A `user` of nil is missing (400); a nil password inside it is kept as nil. */
  lemma NullParams(fields: map<string, Param>)
    requires "password" in fields && fields["password"] == NullParam
    ensures UserParamsOf(map["user" := NullParam]) == Err(ParameterMissing)
    ensures UserParamsOf(map["user" := Nested(fields)]).Ok?
    ensures UserParamsOf(map["user" := Nested(fields)]).value.password == Null
  {
    assert !BlankParam(Nested(fields));
  }

  /**
   * Keys outside the whitelist, `admin` among them, never reach the model:
   * adding one to a non-empty `user` hash changes nothing.
   */
  lemma UnpermittedKeysIgnored(params: map<string, Param>, key: string, v: Param)
    requires key !in PermittedKeys
    requires "user" in params && params["user"].Nested? && params["user"].fields != map[]
    ensures UserParamsOf(params["user" := Nested(params["user"].fields[key := v])]) == UserParamsOf(params)
  {
    var fields := params["user"].fields;
    var p' := params["user" := Nested(fields[key := v])];
    assert key in fields[key := v];
    assert !BlankParam(p'["user"]);
  }

  datatype Route = NewSessionPath | UserPath
  datatype Template = NewTemplate | EditTemplate
  datatype Response =
    | Redirect(to: Route, notice: string)
    | Render(template: Template, status: nat)
    | Failure(status: nat)

  const AccountCreated := "Account created successfully! Please sign in."
  const ProfileUpdated := "Profile updated successfully."
  const BadRequest: nat := 400
  const UnprocessableEntity: nat := 422
  const InternalServerError: nat := 500

  function ParamsFailure(e: ParamsError): Response {
    Failure(if e == ParameterMissing then BadRequest else InternalServerError)
  }

  /** The stored record of the current user, as `show` and `edit` read it. */
  function CurrentRecord(store: UserStore, current: Current): (r: Option<Account>)
    reads store, current
    ensures r.Some? <==> current.User(store).Some?
    ensures r.Some? ==> r.value == store.users[current.User(store).value]
  {
    match current.User(store)
    case None => None
    case Some(id) => Some(store.users[id])
  }

  /** `new`: a fresh, unsaved User with every attribute at its default. */
  method NewAction() returns (user: Draft)
    ensures user == EmptyDraft && !user.admin
  {
    user := EmptyDraft;
  }

  /**
   * `create`: a valid submission adds exactly one user, never an admin, and
   * redirects to the sign-in page; an invalid one changes nothing and answers 422.
   */
  method CreateAction(store: UserStore, params: map<string, Param>) returns (response: Response)
    requires store.Valid()
    modifies store
    ensures store.Valid()
    ensures store.sessions == old(store.sessions)
    ensures UserParamsOf(params).Err? ==>
      response == ParamsFailure(UserParamsOf(params).error) && store.users == old(store.users)
    ensures UserParamsOf(params).Ok? ==>
      var p := UserParamsOf(params).value;
      if Errors(Assign(EmptyDraft, p, store.digestOf), old(store.users), None, store.emailFormat) == {} then
        && response == Redirect(NewSessionPath, AccountCreated)
        && p.email.Given? && p.password.Given?
        && |store.users| == |old(store.users)| + 1
        && old(store.nextUserId) !in old(store.users)
        && store.users == old(store.users)[old(store.nextUserId) := Account(Normalize(p.email.value), store.digestOf(p.password.value), false)]
      else
        response == Render(NewTemplate, UnprocessableEntity) && store.users == old(store.users)
  {
    var p := UserParamsOf(params);
    if p.Err? {
      return ParamsFailure(p.error);
    }
    var result := store.Create(p.value);
    if result.Ok? {
      response := Redirect(NewSessionPath, AccountCreated);
    } else {
      response := Render(NewTemplate, UnprocessableEntity);
    }
  }

  /** `show`: the current user's record and no other. */
  method ShowAction(store: UserStore, current: Current) returns (user: Option<Account>)
    ensures user == CurrentRecord(store, current)
  {
    user := CurrentRecord(store, current);
  }

  /** `edit`: the current user's record and no other. */
  method EditAction(store: UserStore, current: Current) returns (user: Option<Account>)
    ensures user == CurrentRecord(store, current)
  {
    user := CurrentRecord(store, current);
  }

  /**
   * `update`: only the current user's record can change. A valid submission
   * stores the normalised address and redirects to the profile; an invalid
   * one answers 422 and leaves the record as it was. Without a current user
   * `nil.update` raises (500); the parameters are read before that.
   */
  method UpdateAction(store: UserStore, current: Current, params: map<string, Param>) returns (response: Response)
    requires store.Valid()
    modifies store
    ensures store.Valid()
    ensures store.sessions == old(store.sessions)
    ensures forall id :: id in old(store.users) && Some(id) != old(current.User(store)) ==>
      id in store.users && store.users[id] == old(store.users[id])
    ensures UserParamsOf(params).Err? ==>
      response == ParamsFailure(UserParamsOf(params).error) && store.users == old(store.users)
    ensures UserParamsOf(params).Ok? && old(current.User(store)).None? ==>
      response == Failure(InternalServerError) && store.users == old(store.users)
    ensures UserParamsOf(params).Ok? && old(current.User(store)).Some? ==>
      var p := UserParamsOf(params).value;
      var id := old(current.User(store)).value;
      var draft := Assign(Loaded(old(store.users)[id]), p, store.digestOf);
      if Errors(draft, old(store.users), Some(id), store.emailFormat) == {} then
        && response == Redirect(UserPath, ProfileUpdated)
        && store.users == old(store.users)[id := Row(draft)]
        && store.users[id].email == (if p.email.Given? then Normalize(p.email.value) else old(store.users)[id].email)
        && store.users[id].admin == old(store.users)[id].admin
      else
        response == Render(EditTemplate, UnprocessableEntity) && store.users == old(store.users)
  {
    var p := UserParamsOf(params);
    if p.Err? {
      return ParamsFailure(p.error);
    }
    var user := current.User(store);
    if user.None? {
      return Failure(InternalServerError);
    }
    var result := store.Update(user.value, p.value);
    if result.Ok? {
      response := Redirect(UserPath, ProfileUpdated);
    } else {
      response := Render(EditTemplate, UnprocessableEntity);
    }
  }
}
