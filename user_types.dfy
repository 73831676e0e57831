/** The `User` record and `userFormSchema`, the zod schema that validates the user form. */
module UserTypes {
  import opened JsValues
  import opened KeyValues

  /** `User`: `id`, `created_at` and `updated_at` may be left out or null; the passwords may
      be left out. */
  datatype User = User(id: Nullable<int>, name: string, email: string, role: string,
                       password: Option<string>, passwordVerify: Option<string>,
                       createdAt: Nullable<string>, updatedAt: Nullable<string>)

  /** What a successful parse returns: the schema's keys only, so `passwordVerify` is dropped. */
  datatype UserFormData = UserFormData(name: string, email: string, role: string,
                                       password: Option<string>, createdAt: Nullable<string>,
                                       updatedAt: Nullable<string>, id: Nullable<int>)

  /** `safeParse`: the data, or the issues as (field, message) pairs in the schema's key order. */
  datatype ParseResult = Success(data: UserFormData) | Failure(issues: seq<Entry<string>>)

  const NameRequired := "Nome é obrigatório"
  const EmailInvalid := "Email inválido"
  const RoleRequired := "Função é obrigatória"
  const PasswordTooShort := "Senha deve ter pelo menos 6 caracteres"

  /** The fields that can fail, in the schema's key order. */
  const CheckedFields: seq<string> := ["name", "email", "role", "password"]

  /** One check per field: the issue is raised when `present` holds. `isEmail` stands for
      zod's email pattern. */
  function NameCheck(u: User): Candidate<string>
  {
    Candidate(|u.name| < 1, "name", NameRequired)
  }

  function EmailCheck(u: User, isEmail: string -> bool): Candidate<string>
  {
    Candidate(!isEmail(u.email), "email", EmailInvalid)
  }

  function RoleCheck(u: User): Candidate<string>
  {
    Candidate(|u.role| < 1, "role", RoleRequired)
  }

  /** `.min(6).optional()`: a missing password passes, a present one needs six characters. */
  function PasswordCheck(u: User): Candidate<string>
  {
    Candidate(u.password.Some? && |u.password.value| < 6, "password", PasswordTooShort)
  }

  function Checks(u: User, isEmail: string -> bool): seq<Candidate<string>>
  {
    [NameCheck(u), EmailCheck(u, isEmail), RoleCheck(u), PasswordCheck(u)]
  }

  /** The issues of `u`, in key order. */
  function Issues(u: User, isEmail: string -> bool): seq<Entry<string>>
  {
    Appended(Checks(u, isEmail))
  }

  /** `userFormSchema.safeParse(u)`. */
  function ParseUser(u: User, isEmail: string -> bool): ParseResult
  {
    var issues := Issues(u, isEmail);
    if issues == [] then
      Success(UserFormData(u.name, u.email, u.role, u.password, u.createdAt, u.updatedAt, u.id))
    else Failure(issues)
  }

  /** The rules of the schema as one predicate. */
  predicate SchemaAccepts(u: User, isEmail: string -> bool)
  {
    u.name != "" && isEmail(u.email) && u.role != "" &&
    (u.password.None? || |u.password.value| >= 6)
  }

  /** A user parses exactly when every rule holds, and then keeps every schema field. */
  lemma ParseUserSucceedsIff(u: User, isEmail: string -> bool)
    ensures ParseUser(u, isEmail).Success? <==> SchemaAccepts(u, isEmail)
    ensures ParseUser(u, isEmail).Success? ==>
      var d := ParseUser(u, isEmail).data;
      d.name == u.name && d.email == u.email && d.role == u.role && d.password == u.password &&
      d.createdAt == u.createdAt && d.updatedAt == u.updatedAt && d.id == u.id
  {
    var cs := Checks(u, isEmail);
    AppendedEmpty(cs);
    assert cs[0] == NameCheck(u) && cs[1] == EmailCheck(u, isEmail);
    assert cs[2] == RoleCheck(u) && cs[3] == PasswordCheck(u);
  }

  /** Each failing field reports its own message, and a passing field reports none. */
  lemma IssueMessages(u: User, isEmail: string -> bool)
    ensures Lookup(Issues(u, isEmail), "name") == if u.name == "" then Some(NameRequired) else None
    ensures Lookup(Issues(u, isEmail), "email") == if !isEmail(u.email) then Some(EmailInvalid) else None
    ensures Lookup(Issues(u, isEmail), "role") == if u.role == "" then Some(RoleRequired) else None
    ensures Lookup(Issues(u, isEmail), "password")
         == if u.password.Some? && |u.password.value| < 6 then Some(PasswordTooShort) else None
  {
    var cs := Checks(u, isEmail);
    assert "name" != "email" && "name" != "role" && "name" != "password";
    assert "email" != "role" && "email" != "password" && "role" != "password";
    AppendedLookup(cs, 0);
    AppendedLookup(cs, 1);
    AppendedLookup(cs, 2);
    AppendedLookup(cs, 3);
  }

  /** Issues follow the schema's key order, at most one per field. */
  lemma IssueOrder(u: User, isEmail: string -> bool)
    ensures DistinctKeys(Issues(u, isEmail))
    ensures IsSubsequence(Keys(Issues(u, isEmail)), CheckedFields)
  {
    var cs := Checks(u, isEmail);
    assert "name" != "email" && "name" != "role" && "name" != "password";
    assert "email" != "role" && "email" != "password" && "role" != "password";
    AppendedDistinct(cs);
    assert CandidateKeys(cs) == CheckedFields;
    AppendedKeys(cs);
  }

  /** `created_at`, `updated_at` and `id` are never the reason a parse fails: any value,
      null or a missing key is accepted. */
  lemma OptionalFieldsAccepted(u: User, isEmail: string -> bool, id: Nullable<int>,
                               createdAt: Nullable<string>, updatedAt: Nullable<string>)
    ensures Issues(u.(id := id, createdAt := createdAt, updatedAt := updatedAt), isEmail)
         == Issues(u, isEmail)
  {
    assert Checks(u.(id := id, createdAt := createdAt, updatedAt := updatedAt), isEmail)
        == Checks(u, isEmail);
  }
}
