/**
 * The self-service handlers of the user controller: `getMe`, `updateMe` and
 * `deleteMe`. The authenticated caller's id comes with the request; the
 * handlers never take an id from the body.
 */
module UserController {
  import opened Wrappers
  import opened JsValues
  import opened AppErrors
  import opened FilterObject
  import opened UserStore

  /** The parts of an Express request these handlers read or write. */
  class Request {
    /** `req.params`. */
    var params: map<string, string>
    /** `req.body`, as parsed. */
    const body: Record
    /** `req.user.id`, set by the authentication middleware. */
    const userId: Id
    /** `req.file.filename` when a single uploaded file is attached. */
    const upload: Option<string>

    constructor (params: map<string, string>, body: Record, userId: Id, upload: Option<string>)
      ensures this.params == params && this.body == body && this.userId == userId && this.upload == upload
    {
      this.params := params;
      this.body := body;
      this.userId := userId;
      this.upload := upload;
    }
  }

  /** Why a handler passed an error to `next`. */
  datatype Failure =
    | Operational(error: AppError)    // an AppError raised by the handler itself
    | Rejected(cause: StoreError)     // the store's validators refused the update

  /** The only body fields a user may change about themselves. */
  const SelfServiceFields: seq<string> := ["name", "email"]

  const PasswordRouteError: AppError :=
    AppError("This route is not for password updates. Please use /updateMyPassword.", 400)

  /** The body tries to set a password: `password` or `passwordConfirm` is truthy. */
  predicate SubmitsCredentials(body: Record) {
    Truthy(Get(body, "password")) || Truthy(Get(body, "passwordConfirm"))
  }

  /** `key` is in `patch` exactly when it is in `body`, with the body's value. */
  predicate CopiedFrom(patch: Record, body: Record, key: string) {
    (key in patch <==> key in body) && (key in body ==> patch[key] == body[key])
  }

  /**
   * The update `updateMe` sends for a body and an optional uploaded file:
   * refused with a 400 error when credentials are submitted; otherwise only
   * `name` and `email` from the body, plus `photo` set to the uploaded
   * file's name exactly when a file came with the request.
   */
  function Patch(body: Record, upload: Option<string>): (r: Result<Record, AppError>)
    ensures r.Err? <==> SubmitsCredentials(body)
    ensures r.Err? ==> r.error == PasswordRouteError && IsClientError(r.error)
    ensures r.Ok? ==> r.value.Keys <= {"name", "email", "photo"}
    ensures r.Ok? ==> CopiedFrom(r.value, body, "name") && CopiedFrom(r.value, body, "email")
    ensures r.Ok? ==> ("photo" in r.value <==> upload.Some?)
    ensures r.Ok? && upload.Some? ==> r.value["photo"] == Str(upload.value)
  {
    if SubmitsCredentials(body) then Err(PasswordRouteError)
    else
      var filtered := Filtered(body, SelfServiceFields);
      Ok(if upload.Some? then filtered["photo" := Str(upload.value)] else filtered)
  }

  /** Nothing the body says can reach the password, role or active fields of the record. */
  lemma PatchKeepsProtectedFields(body: Record, upload: Option<string>)
    requires Patch(body, upload).Ok?
    ensures forall k :: k in Patch(body, upload).value ==> k in SelfServiceFields || k == "photo"
    ensures "password" !in Patch(body, upload).value && "passwordConfirm" !in Patch(body, upload).value
    ensures "role" !in Patch(body, upload).value && "active" !in Patch(body, upload).value
  {
  }

  /** An empty string is falsy, so `{ password: "" }` is not refused, and the field is dropped. */
  lemma EmptyPasswordNotRefused(name: Value)
    ensures Patch(map["password" := Str(""), "name" := name], None) == Ok(map["name" := name])
  {
    var body := map["password" := Str(""), "name" := name];
    var p := Patch(body, None);
    assert p.Ok?;
    assert p.value.Keys == {"name"};
  }

  /**
   * `getMe`: point the request's `id` parameter at the caller, so that the
   * generic single-user handler that follows reads the caller's own record.
   */
  method GetMe(req: Request)
    modifies req
    ensures req.params == old(req.params)["id" := req.userId]
  {
    req.params := req.params["id" := req.userId];
  }

  /**
   * `updateMe`: refuse credential changes, build the filtered patch, and
   * merge it, with validators, into the caller's own record. On any error
   * nothing is written; otherwise only the caller's record changes.
   */
  method UpdateMe(req: Request, users: Store) returns (r: Result<Option<Record>, Failure>)
    modifies users
    ensures SubmitsCredentials(req.body) ==>
      r == Err(Operational(PasswordRouteError)) && users.records == old(users.records)
    ensures !SubmitsCredentials(req.body) ==>
      var patch := Patch(req.body, req.upload).value;
      if users.Violations(patch) != {} then
        r == Err(Rejected(ValidationError(users.Violations(patch)))) && users.records == old(users.records)
      else
        users.records == Committed(old(users.records), req.userId, patch)
        && r == Ok(if req.userId in users.records then Some(users.records[req.userId]) else None)
  {
    if Truthy(Get(req.body, "password")) || Truthy(Get(req.body, "passwordConfirm")) {
      return Err(Operational(PasswordRouteError));
    }
    var filteredBody := FilterObj(req.body, SelfServiceFields);
    if req.upload.Some? {
      filteredBody := filteredBody["photo" := Str(req.upload.value)];
    }
    var updated := users.FindByIdAndUpdate(req.userId, filteredBody, true);
    match updated
    case Err(e) => r := Err(Rejected(e));
    case Ok(user) => r := Ok(user);
  }

  /**
   * `deleteMe`: soft-delete the caller by setting `active` to false on the
   * caller's record; no validators run and no other record changes.
   */
  method DeleteMe(req: Request, users: Store)
    modifies users
    ensures users.records == Committed(old(users.records), req.userId, Deactivation)
  {
    var _ := users.FindByIdAndUpdate(req.userId, Deactivation, false);
  }
}
