/** The user wrappers: the JSON bodies of `registerUser`, `updateUser` and `updateUserPassword`,
    and the `/users/${id}` path. */
module UserApi {
  import opened JsValues
  import opened Decimal
  import opened KeyValues
  import opened Http
  import opened UserTypes

  /** An object literal: its keys in writing order, a value `None` where it is `undefined`. */
  type Payload = seq<Entry<Option<string>>>

  /** The body `JSON.stringify` sends: keys whose value is `undefined` are left out. */
  function Stringified(payload: Payload): seq<Entry<string>>
  {
    Appended(AsCandidates(payload))
  }

  function AsCandidates(payload: Payload): (cs: seq<Candidate<string>>)
    ensures |cs| == |payload|
    ensures forall i :: 0 <= i < |payload| ==>
      cs[i] == Candidate(payload[i].value.Some?, payload[i].key,
                         if payload[i].value.Some? then payload[i].value.value else "")
  {
    if payload == [] then []
    else
      var e := payload[0];
      [Candidate(e.value.Some?, e.key, if e.value.Some? then e.value.value else "")]
        + AsCandidates(payload[1..])
  }

  /** In the sent body a key carries its value when it is defined and is absent otherwise. */
  lemma StringifiedLookup(payload: Payload, i: nat)
    requires DistinctKeys(payload) && i < |payload|
    ensures Lookup(Stringified(payload), payload[i].key) == payload[i].value
  {
    AppendedLookup(AsCandidates(payload), i);
  }

  /** `registerUser`: the confirmation travels under `password_confirmation`, taken from
      `passwordVerify`. */
  function RegisterPayload(user: User): Payload
  {
    [Entry("name", Some(user.name)), Entry("email", Some(user.email)),
     Entry("password", user.password), Entry("password_confirmation", user.passwordVerify),
     Entry("role", Some(user.role))]
  }

  /** `updateUser`: the profile fields only. */
  function UpdatePayload(user: User): Payload
  {
    [Entry("name", Some(user.name)), Entry("email", Some(user.email)), Entry("role", Some(user.role))]
  }

  /** `updateUserPassword`: the two password fields only. */
  function PasswordPayload(user: User): Payload
  {
    [Entry("password", user.password), Entry("password_confirmation", user.passwordVerify)]
  }

  /** `${user.id}`: the number in decimal, or the words `null` and `undefined`. */
  function IdText(id: Nullable<int>): string
  {
    match id
    case Present(n) => IntToString(n)
    case Null => "null"
    case Undefined => "undefined"
  }

  function UserPath(id: Nullable<int>): string
  {
    "/users/" + IdText(id)
  }

  function RegisterUser(user: User): (request: Request<Payload>)
    ensures request.verb == Post && request.path == "/users"
    ensures Keys(request.body) == ["name", "email", "password", "password_confirmation", "role"]
  {
    Request(Post, "/users", RegisterPayload(user))
  }

  function UpdateUser(user: User): (request: Request<Payload>)
    ensures request.verb == Put && request.path == UserPath(user.id)
    ensures Keys(request.body) == ["name", "email", "role"]
  {
    Request(Put, UserPath(user.id), UpdatePayload(user))
  }

  function UpdateUserPassword(user: User): (request: Request<Payload>)
    ensures request.verb == Put && request.path == UserPath(user.id)
    ensures Keys(request.body) == ["password", "password_confirmation"]
  {
    Request(Put, UserPath(user.id), PasswordPayload(user))
  }

  /** What the server receives on registration: the profile fields always, the passwords
      only when set, and the confirmation from `passwordVerify`. */
  lemma RegisterBody(user: User)
    ensures Lookup(Stringified(RegisterPayload(user)), "name") == Some(user.name)
    ensures Lookup(Stringified(RegisterPayload(user)), "email") == Some(user.email)
    ensures Lookup(Stringified(RegisterPayload(user)), "password") == user.password
    ensures Lookup(Stringified(RegisterPayload(user)), "password_confirmation") == user.passwordVerify
    ensures Lookup(Stringified(RegisterPayload(user)), "role") == Some(user.role)
  {
    var p := RegisterPayload(user);
    assert DistinctKeys(p);
    StringifiedLookup(p, 0);
    StringifiedLookup(p, 1);
    StringifiedLookup(p, 2);
    StringifiedLookup(p, 3);
    StringifiedLookup(p, 4);
  }

  /** A profile update never carries a password. */
  lemma ProfileUpdateHasNoPassword(user: User)
    ensures Lookup(Stringified(UpdatePayload(user)), "password").None?
    ensures Lookup(Stringified(UpdatePayload(user)), "password_confirmation").None?
  {
    var cu := AsCandidates(UpdatePayload(user));
    assert "password" != "name" && "password" != "email" && "password" != "role";
    assert "password_confirmation" != "name" && "password_confirmation" != "email";
    assert "password_confirmation" != "role";
    AppendedMissing(cu, "password");
    AppendedMissing(cu, "password_confirmation");
  }

  /** A password update never carries the profile fields. */
  lemma PasswordUpdateHasNoProfile(user: User)
    ensures Lookup(Stringified(PasswordPayload(user)), "name").None?
    ensures Lookup(Stringified(PasswordPayload(user)), "email").None?
    ensures Lookup(Stringified(PasswordPayload(user)), "role").None?
  {
    var cp := AsCandidates(PasswordPayload(user));
    assert "password" != "name" && "password" != "email" && "password" != "role";
    assert "password_confirmation" != "name" && "password_confirmation" != "email";
    assert "password_confirmation" != "role";
    AppendedMissing(cp, "name");
    AppendedMissing(cp, "email");
    AppendedMissing(cp, "role");
  }

  /** Both updates address the same resource, and different ids different ones: a number,
      `null` and `undefined` each give their own path. */
  lemma UserPathsDistinct(a: Nullable<int>, b: Nullable<int>)
    ensures UserPath(a) == UserPath(b) <==> a == b
  {
    var pre := "/users/";
    assert UserPath(a)[|pre|..] == IdText(a);
    assert UserPath(b)[|pre|..] == IdText(b);
    if a.Present? && b.Present? {
      IntToStringInjective(a.value, b.value);
    } else if a.Present? != b.Present? {
      assert IdText(a)[0] != IdText(b)[0];
    } else if a != b {
      assert |IdText(a)| != |IdText(b)|;
    }
  }
}
