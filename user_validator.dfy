/**
 * The user request validators: the list query, the create and the update
 * schemas as predicates, and the e-mail uniqueness checks that follow them.
 */
module UserValidator {
  import opened Wrappers
  import opened Entities
  import opened UserRepository
  import opened Requests
  import opened Pagination
  import opened Strings

  /** A user request body as submitted; every field may be missing. */
  datatype UserRequest = UserRequest(id: Option<int>, name: Option<string>, email: Option<string>,
                                     password: Option<string>, confirmPassword: Option<string>,
                                     blocked: Option<bool>)

  const FieldMax: nat := 50
  const PasswordMin: nat := 8
  const PasswordMax: nat := 20
  const FilterMin: nat := 3
  const IndexLimitMax: int := 20

  const EmailInUseMessage: string := "User email is alredy in use."
  const EmailExistsMessage: string := "Email already exists"

  /** A required string: present and not empty. */
  predicate Required(s: Option<string>) {
    s.Some? && |s.value| > 0
  }

  predicate PasswordLength(s: string) {
    PasswordMin <= UTF16Length(s) <= PasswordMax
  }

  // ---------------------------------------------------------------------------
  // indexSchema, over the query the pagination middleware left behind
  // ---------------------------------------------------------------------------

  predicate OptionalNumber(query: map<string, QueryValue>, key: string) {
    key in query ==> NumberValue(query[key]).Some?
  }

  predicate OptionalFilter(query: map<string, QueryValue>, key: string) {
    key in query ==> UTF16Length(StringValue(query[key])) >= FilterMin
  }

  predicate IndexSchema(query: map<string, QueryValue>) {
    && OptionalNumber(query, "id")
    && OptionalFilter(query, "name") && OptionalFilter(query, "email")
    && "limit" in query && NumberValue(query["limit"]).Some? && NumberValue(query["limit"]).value <= IndexLimitMax
    && "offset" in query && NumberValue(query["offset"]).Some?
  }

  function Index(query: map<string, QueryValue>): (v: Verdict)
    ensures v == Next <==> IndexSchema(query)
    ensures v != Next ==> v == Rejected(None)
  {
    if IndexSchema(query) then Next else Rejected(None)
  }

  /**
   * The pagination middleware runs before the list validator; whatever page and
   * limit were asked for, its output meets the limit and offset rules, so only
   * the filters decide.
   */
  lemma PaginatedQueryPassesIndex(query: map<string, QueryValue>)
    ensures Index(PaginatedQuery(query)) == Next <==>
      OptionalNumber(query, "id") && OptionalFilter(query, "name") && OptionalFilter(query, "email")
  {
    var q := PaginatedQuery(query);
    assert q["limit"].Num? && q["limit"].n <= IndexLimitMax;
    assert q["offset"].Num?;
    assert OptionalNumber(q, "id") <==> OptionalNumber(query, "id") by {
      if "id" in query {
        assert "id" in q && q["id"] == query["id"];
      }
    }
    assert OptionalFilter(q, "name") <==> OptionalFilter(query, "name") by {
      if "name" in query {
        assert "name" in q && q["name"] == query["name"];
      }
    }
    assert OptionalFilter(q, "email") <==> OptionalFilter(query, "email") by {
      if "email" in query {
        assert "email" in q && q["email"] == query["email"];
      }
    }
  }

  /** A filter is measured in UTF-16 code units: U+1F600 followed by `a` is three of them and passes `min(3)`. */
  lemma ShortSupplementaryFilterAccepted(query: map<string, QueryValue>)
    requires IndexSchema(query)
    ensures IndexSchema(query["name" := Text("\U{1F600}a")])
  {
    var q := query["name" := Text("\U{1F600}a")];
    assert UTF16Length("\U{1F600}a") == 3;
    assert OptionalNumber(q, "id") by {
      if "id" in q {
        assert q["id"] == query["id"];
      }
    }
    assert OptionalFilter(q, "email") by {
      if "email" in q {
        assert q["email"] == query["email"];
      }
    }
  }

  /** Without the middleware, a page size above 20 is refused. */
  lemma LargeLimitRejected(query: map<string, QueryValue>, n: int)
    requires n > IndexLimitMax
    ensures Index(query["limit" := Num(n)]) == Rejected(None)
  {
  }

  // ---------------------------------------------------------------------------
  // storeSchema and store
  // ---------------------------------------------------------------------------

  predicate NameAndEmail(req: UserRequest, validEmail: string -> bool) {
    && Required(req.name) && UTF16Length(req.name.value) <= FieldMax
    && Required(req.email) && validEmail(req.email.value) && UTF16Length(req.email.value) <= FieldMax
  }

  /** A confirmation, when given, has the password's length bounds and equals it. */
  predicate StoreSchema(req: UserRequest, validEmail: string -> bool) {
    && NameAndEmail(req, validEmail)
    && Required(req.password) && PasswordLength(req.password.value)
    && (req.confirmPassword.Some? ==>
          PasswordLength(req.confirmPassword.value) && req.confirmPassword == req.password)
    && req.blocked.Some?
  }

  /** store: `blocked` is overwritten with false, then the schema, then the e-mail must be unused. */
  function Store(users: seq<User>, req: UserRequest, validEmail: string -> bool): Verdict {
    var body := req.(blocked := Some(false));
    if !StoreSchema(body, validEmail) then Rejected(None)
    else if DoesUserEmailExists(users, body.email.value) then Rejected(Some(EmailInUseMessage))
    else Next
  }

  /** The submitted `blocked` plays no part in store's verdict. */
  lemma StoreIgnoresBlocked(users: seq<User>, req: UserRequest, validEmail: string -> bool, b: Option<bool>)
    ensures Store(users, req, validEmail) == Store(users, req.(blocked := b), validEmail)
  {
    assert req.(blocked := Some(false)) == req.(blocked := b).(blocked := Some(false));
  }

  /** Generated user ids start at 1, so the default id 0 excludes nobody. */
  predicate GeneratedIds(users: seq<User>) {
    forall i :: 0 <= i < |users| ==> users[i].id > 0
  }

  /** The outcomes of store, each with the condition that leads to it. */
  lemma StoreOutcomes(users: seq<User>, req: UserRequest, validEmail: string -> bool)
    requires GeneratedIds(users)
    ensures Store(users, req, validEmail) == Next <==>
      && StoreSchema(req.(blocked := Some(false)), validEmail)
      && forall i :: 0 <= i < |users| ==> users[i].email != req.email.value
    ensures Store(users, req, validEmail) == Rejected(Some(EmailInUseMessage)) <==>
      && StoreSchema(req.(blocked := Some(false)), validEmail)
      && exists i :: 0 <= i < |users| && users[i].email == req.email.value
    ensures Store(users, req, validEmail) == Rejected(None) <==> !StoreSchema(req.(blocked := Some(false)), validEmail)
  {
  }

  // ---------------------------------------------------------------------------
  // updateSchema and update
  // ---------------------------------------------------------------------------

  /** A non-empty password, at most 20 characters, needs a confirmation of 8 to 20 characters equal to it. */
  predicate UpdateSchema(req: UserRequest, validEmail: string -> bool) {
    && req.id.Some?
    && NameAndEmail(req, validEmail)
    && (req.password.Some? ==> UTF16Length(req.password.value) <= PasswordMax)
    && (req.password.Some? && req.password.value != "" ==>
          Required(req.confirmPassword) && PasswordLength(req.confirmPassword.value)
          && req.confirmPassword == req.password)
    && req.blocked.Some?
  }

  /** A negative route id matches no generated id; like the default 0 it excludes nobody. */
  function ExcludedId(id: int): nat {
    if id >= 0 then id else 0
  }

  /** update: `id` from the route, the schema, then the e-mail must not belong to another user. */
  function Update(users: seq<User>, req: UserRequest, routeId: string, validEmail: string -> bool): Verdict {
    var body := req.(id := ParseIntText(routeId));
    if !UpdateSchema(body, validEmail) then Rejected(None)
    else if DoesUserEmailExists(users, body.email.value, ExcludedId(body.id.value)) then Rejected(Some(EmailExistsMessage))
    else Next
  }

  /** A passed update's e-mail belongs to no user other than the one being updated. */
  lemma UpdateRejectsOthersEmail(users: seq<User>, req: UserRequest, routeId: string, validEmail: string -> bool)
    requires GeneratedIds(users)
    requires Update(users, req, routeId, validEmail) == Next
    ensures ParseIntText(routeId).Some?
    ensures forall i :: 0 <= i < |users| && users[i].email == req.email.value ==> users[i].id == ParseIntText(routeId).value
  {
  }

  /** Keeping one's own e-mail is allowed: when no other user has it, only the schema decides. */
  lemma UpdateAllowsOwnEmail(users: seq<User>, req: UserRequest, routeId: string, validEmail: string -> bool)
    requires ParseIntText(routeId).Some? && ParseIntText(routeId).value >= 0
    requires req.email.Some?
    requires forall i :: 0 <= i < |users| && users[i].email == req.email.value ==> users[i].id == ParseIntText(routeId).value
    ensures Update(users, req, routeId, validEmail) == Next <==>
      UpdateSchema(req.(id := ParseIntText(routeId)), validEmail)
  {
  }

  /** A non-empty new password passes the update schema only with an equal confirmation of 8 to 20 characters. */
  lemma UpdatePasswordNeedsConfirmation(req: UserRequest, validEmail: string -> bool)
    requires UpdateSchema(req, validEmail)
    requires req.password.Some? && req.password.value != ""
    ensures req.confirmPassword == req.password && PasswordLength(req.password.value)
  {
  }

  /** 11 copies of U+1F600 are 22 code units: too long for a password, though only 11 chars. */
  lemma LongEmojiPasswordRejected()
    ensures var p := seq(11, _ => '\U{1F600}'); |p| == 11 && !PasswordLength(p)
  {
    var p := seq(11, _ => '\U{1F600}');
    UTF16LengthSupplementary(p);
  }

  /** Without a new password the confirmation is not looked at. */
  lemma UpdateWithoutPasswordIgnoresConfirmation(req: UserRequest, validEmail: string -> bool, c: Option<string>)
    requires req.password.None? || req.password == Some("")
    ensures UpdateSchema(req, validEmail) <==> UpdateSchema(req.(confirmPassword := c), validEmail)
  {
  }

  /**
   * The update schema accepts a body store accepts, once `id` is set, provided
   * the confirmation was given: store lets it be left out, update does not.
   */
  lemma StoreBodyFitsUpdate(req: UserRequest, validEmail: string -> bool, id: int)
    requires StoreSchema(req, validEmail) && req.confirmPassword.Some?
    ensures UpdateSchema(req.(id := Some(id)), validEmail)
  {
  }
}
