/**
  The account side of the application service: validating a new email/password account,
  turning a failure into the message shown, building a first profile for a signed-in
  account, choosing the sign-in route, classifying what a sign-in step hands back, and
  loading the profile for an account. The sign-in service and the stores are inputs.
 */
module Api {
  import opened Values

  // ---------------------------------------------------------------------------
  // Error messages

  /**
    `callbackError(error)`: the message it reports. A known code maps to its message; an
    error with no truthy code is its own message; anything else, including no error and an
    unknown code, is "Unknown error occurred".
   */
  function CallbackError(error: Option<Value>): (msg: Value)
    ensures Truthy(msg)
    ensures Prop(error, "code") == Some(Str("EMAIL_TAKEN")) ==> msg == Str("Email address is in use")
    ensures IsTruthy(error) && !IsTruthy(Prop(error, "code")) ==> msg == error.value
    ensures !IsTruthy(error) ==> msg == Str("Unknown error occurred")
    ensures IsTruthy(Prop(error, "code")) && Prop(error, "code") != Some(Str("EMAIL_TAKEN")) ==>
              msg == Str("Unknown error occurred")
  {
    var errorMsg :=
      if !IsTruthy(error) then Str("")
      else if IsTruthy(Prop(error, "code")) then
        (if Prop(error, "code") == Some(Str("EMAIL_TAKEN")) then Str("Email address is in use") else Str(""))
      else error.value;
    if !Truthy(errorMsg) then Str("Unknown error occurred") else errorMsg
  }

  /**
    Reporting a reported message again changes nothing: the message has no truthy code, and
    it is truthy, so it is its own message.
   */
  lemma CallbackErrorIdempotent(error: Option<Value>)
    ensures CallbackError(Some(CallbackError(error))) == CallbackError(error)
  {
  }

  /** A plain-text error is reported as it is. */
  lemma TextErrorIsItsOwnMessage(text: string)
    requires text != ""
    ensures CallbackError(Some(Str(text))) == Str(text)
  {
  }

  // ---------------------------------------------------------------------------
  // Creating an email/password account

  /** What `createAccount` does: report an error, or ask the sign-in service to create the user. */
  datatype AccountStep = Reported(message: Value) | CreateUser(email: string, password: string)

  /** The error object for an address already in use. */
  const EmailTaken := Obj(map["code" := Str("EMAIL_TAKEN")])

  /**
    `createAccount(email, password, passwordConfirm)`. The checks run in order and the first
    that fails is reported: no email, no password, a password under six characters, a
    confirmation that differs, an address already in use. `emailTaken` is the answer of
    the existence check.
   */
  function CreateAccount(email: Option<string>, password: Option<string>, confirm: Option<string>, emailTaken: bool): (r: AccountStep)
    ensures r.CreateUser? <==>
              TruthyString(email) && TruthyString(password) && |password.value| >= 6 && confirm == password && !emailTaken
    ensures r.CreateUser? ==> r == CreateUser(email.value, password.value)
    ensures !TruthyString(email) ==> r == Reported(Str("No email"))
    ensures TruthyString(email) && !TruthyString(password) ==> r == Reported(Str("No password"))
    ensures TruthyString(email) && TruthyString(password) && |password.value| < 6 ==>
              r == Reported(Str("Passwords is too short"))
    ensures TruthyString(email) && TruthyString(password) && |password.value| >= 6 && confirm != password ==>
              r == Reported(Str("Passwords don't match"))
    ensures TruthyString(email) && TruthyString(password) && |password.value| >= 6 && confirm == password && emailTaken ==>
              r == Reported(Str("Email address is in use"))
  {
    if !TruthyString(email) then Reported(CallbackError(Some(Str("No email"))))
    else if !TruthyString(password) then Reported(CallbackError(Some(Str("No password"))))
    else if |password.value| < 6 then Reported(CallbackError(Some(Str("Passwords is too short"))))
    else if confirm != password then Reported(CallbackError(Some(Str("Passwords don't match"))))
    else if emailTaken then Reported(CallbackError(Some(EmailTaken)))
    else CreateUser(email.value, password.value)
  }

  /**
    Every refusal of `createAccount` is a message `callbackError` would report for itself,
    and never the fallback for an unknown error.
   */
  lemma CreateAccountReportsKnownMessages(email: Option<string>, password: Option<string>, confirm: Option<string>, emailTaken: bool)
    ensures var r := CreateAccount(email, password, confirm, emailTaken);
            r.Reported? ==> CallbackError(Some(r.message)) == r.message && r.message != Str("Unknown error occurred")
  {
  }

  /** A created account always carries a password of at least six characters that both fields agree on. */
  lemma CreatedPasswordsAgree(email: Option<string>, password: Option<string>, confirm: Option<string>, emailTaken: bool)
    requires CreateAccount(email, password, confirm, emailTaken).CreateUser?
    ensures var r := CreateAccount(email, password, confirm, emailTaken);
            |r.password| >= 6 && confirm == Some(r.password) && r.email != ""
  {
  }

  /** Fixing the first failing field moves the report on to the next check, never back. */
  lemma ChecksInOrder(email: string, password: string, emailTaken: bool)
    requires email != "" && |password| >= 6
    ensures CreateAccount(Some(email), Some(password), None, emailTaken) == Reported(Str("Passwords don't match"))
    ensures CreateAccount(Some(email), Some(password), Some(password), emailTaken)
            == (if emailTaken then Reported(Str("Email address is in use")) else CreateUser(email, password))
  {
  }

  // ---------------------------------------------------------------------------
  // New profiles

  /**
    A signed-in account as the sign-in service reports it; `thirdPartyEmail` is the
    provider's user data email, None when either is missing.
   */
  datatype Account = Account(
    uid: Option<string>,
    email: Option<string>,
    thirdPartyEmail: Option<string>,
    displayName: Option<string>,
    provider: Option<string>)

  /** One field of the user model with its default value, which may be undefined. */
  datatype Field = Field(name: string, value: Option<Value>)

  /** A regular-expression word character: a letter, a digit or `_`. */
  predicate WordChar(c: char) {
    ('a' <= c <= 'z') || ('A' <= c <= 'Z') || ('0' <= c <= '9') || c == '_'
  }

  /** The length of the longest prefix of `s` made of word characters. */
  function WordPrefix(s: string): (n: nat)
    ensures n <= |s|
    ensures forall i :: 0 <= i < n ==> WordChar(s[i])
    ensures n < |s| ==> !WordChar(s[n])
  {
    if |s| == 0 || !WordChar(s[0]) then 0
    else 1 + WordPrefix(s[1..])
  }

  /** A possibly missing string as a possibly missing value. */
  function Opt(s: Option<string>): (v: Option<Value>)
    ensures v.Some? <==> s.Some?
    ensures s.Some? ==> v == Some(Str(s.value))
  {
    if s.Some? then Some(Str(s.value)) else None
  }

  /** The capture of `/^(\w+)@/` in `email`, None when it does not match. */
  function NameFromEmail(email: string): (name: Option<string>)
  {
    var n := WordPrefix(email);
    if 0 < n < |email| && email[n] == '@' then Some(email[..n]) else None
  }

  /**
    The pattern matches exactly when the address starts with one or more word characters
    directly followed by `@`, and it captures those characters.
   */
  lemma {:induction false} NameFromEmailIff(email: string, name: string)
    ensures NameFromEmail(email) == Some(name)
            <==> name != "" && (forall i :: 0 <= i < |name| ==> WordChar(name[i]))
                 && |name| < |email| && email[..|name|] == name && email[|name|] == '@'
  {
    var n := WordPrefix(email);
    if name != "" && (forall i :: 0 <= i < |name| ==> WordChar(name[i]))
       && |name| < |email| && email[..|name|] == name && email[|name|] == '@' {
      forall i | 0 <= i < |name| ensures WordChar(email[i]) {
        assert email[i] == name[i];
      }
      assert n == |name|;
    }
  }

  /** The profile before the model defaults: new, linked to the account, with email, name and confirmation. */
  function BaseProfile(account: Account): (p: map<string, Value>)
    requires TruthyString(account.uid)
    ensures Get(p, "new") == Some(Bool(true))
    ensures Get(p, "linked") == Some(Obj(map[account.uid.value := Bool(true)]))
    ensures TruthyString(account.email) ==> Get(p, "email") == Some(Str(account.email.value))
    ensures !TruthyString(account.email) && TruthyString(account.thirdPartyEmail) ==>
              Get(p, "email") == Some(Str(account.thirdPartyEmail.value))
    ensures !TruthyString(account.email) && !TruthyString(account.thirdPartyEmail) ==> "email" !in p
    ensures TruthyString(account.displayName) ==> Get(p, "name") == Some(Str(account.displayName.value))
    ensures !TruthyString(account.displayName) && "email" in p ==> Get(p, "name") == Opt(NameFromEmail(p["email"].s))
    ensures Get(p, "confirmed") == Some(Bool(account.provider == Some("password") && "email" in p))
    ensures p.Keys <= {"new", "confirmed", "linked", "email", "name"}
  {
    var email :=
      if TruthyString(account.email) then account.email
      else if TruthyString(account.thirdPartyEmail) then account.thirdPartyEmail
      else None;
    var name :=
      if TruthyString(account.displayName) then account.displayName
      else if email.Some? then NameFromEmail(email.value)
      else None;
    var p := map["new" := Bool(true),
                 "confirmed" := Bool(account.provider == Some("password") && email.Some?),
                 "linked" := Obj(map[account.uid.value := Bool(true)])];
    var p := if email.Some? then p["email" := Str(email.value)] else p;
    if name.Some? then p["name" := Str(name.value)] else p
  }

  /** The default the model gives field `k`: the value of the first field named `k` that has one. */
  function FirstDefault(fields: seq<Field>, k: string): (v: Option<Value>)
    ensures v.Some? ==> exists i :: 0 <= i < |fields| && fields[i] == Field(k, v)
    ensures v.None? <==> forall i :: 0 <= i < |fields| && fields[i].name == k ==> fields[i].value.None?
    decreases |fields|
  {
    if |fields| == 0 then None
    else if fields[0].name == k && fields[0].value.Some? then fields[0].value
    else
      var v := FirstDefault(fields[1..], k);
      assert forall i :: 1 <= i < |fields| ==> fields[1..][i - 1] == fields[i];
      v
  }

  /** The model defaults, in order: a field still undefined takes its default; defined fields keep their value. */
  function FillDefaults(p: map<string, Value>, fields: seq<Field>): (r: map<string, Value>)
    ensures forall k :: k in p ==> k in r && r[k] == p[k]
    ensures forall k :: k !in p ==> Get(r, k) == FirstDefault(fields, k)
    decreases |fields|
  {
    if |fields| == 0 then p
    else
      var f := fields[0];
      var p1 := if f.name !in p && f.value.Some? then p[f.name := f.value.value] else p;
      FillDefaults(p1, fields[1..])
  }

  /**
    `newProfile(account)`: null without a uid. Otherwise a new profile linked to the account:
    the account's email (or the provider's), the display name (or the word before `@` in the
    email), confirmed only for an email/password account that has an email, and the model
    defaults for whatever is still undefined.
   */
  function NewProfile(account: Account, defaults: seq<Field>): (r: Option<map<string, Value>>)
    ensures r.None? <==> !TruthyString(account.uid)
    ensures r.Some? ==> Get(r.value, "new") == Some(Bool(true))
    ensures r.Some? ==> Get(r.value, "linked") == Some(Obj(map[account.uid.value := Bool(true)]))
    ensures r.Some? && TruthyString(account.email) ==> Get(r.value, "email") == Some(Str(account.email.value))
    ensures r.Some? && !TruthyString(account.email) && TruthyString(account.thirdPartyEmail) ==>
              Get(r.value, "email") == Some(Str(account.thirdPartyEmail.value))
    ensures r.Some? && TruthyString(account.displayName) ==> Get(r.value, "name") == Some(Str(account.displayName.value))
    ensures r.Some? ==> (Get(r.value, "confirmed") == Some(Bool(true))
                         <==> account.provider == Some("password") && (TruthyString(account.email) || TruthyString(account.thirdPartyEmail)))
    ensures r.Some? ==> Get(r.value, "confirmed").Some? && Get(r.value, "confirmed").value.Bool?
  {
    if !TruthyString(account.uid) then None
    else Some(FillDefaults(BaseProfile(account), defaults))
  }

  /** Without a display name, an address like `ann_2@host` names the profile `ann_2`. */
  lemma NameParsedFromEmail(account: Account, defaults: seq<Field>, word: string, rest: string)
    requires TruthyString(account.uid) && !TruthyString(account.displayName)
    requires account.email == Some(word + "@" + rest) && word != ""
    requires forall i :: 0 <= i < |word| ==> WordChar(word[i])
    ensures Get(NewProfile(account, defaults).value, "name") == Some(Str(word))
  {
    var email := word + "@" + rest;
    assert email[..|word|] == word && email[|word|] == '@';
    NameFromEmailIff(email, word);
  }

  /** A default never replaces what the account supplied, and it fills a field left undefined. */
  lemma DefaultsOnlyFill(account: Account, defaults: seq<Field>, k: string, v: Value)
    requires TruthyString(account.uid)
    requires defaults == [Field(k, Some(v))]
    ensures k in BaseProfile(account) ==> NewProfile(account, defaults).value == BaseProfile(account)
    ensures k !in BaseProfile(account) ==> NewProfile(account, defaults).value == BaseProfile(account)[k := v]
  {
  }

  // ---------------------------------------------------------------------------
  // Signing in

  /** The sign-in route `login` takes. */
  datatype LoginRoute = Active | Password(email: Option<string>, password: Option<string>) | Provider(name: string) | NoRoute

  /** `login(provider, email, password)`: the remembered session, the password sign-in, a social provider, or nothing. */
  function Login(provider: Option<string>, email: Option<string>, password: Option<string>): (r: LoginRoute)
    ensures r.Active? <==> provider == Some("active")
    ensures r.Password? <==> provider == Some("password")
    ensures r.Password? ==> r.email == email && r.password == password
    ensures r.Provider? <==> provider in {Some("facebook"), Some("twitter"), Some("google")}
    ensures r.Provider? ==> Some(r.name) == provider
    ensures r.NoRoute? <==> provider !in {Some("active"), Some("password"), Some("facebook"), Some("twitter"), Some("google")}
  {
    match provider
    case Some("active") => Active
    case Some("password") => Password(email, password)
    case Some("facebook") => Provider("facebook")
    case Some("twitter") => Provider("twitter")
    case Some("google") => Provider("google")
    case _ => NoRoute
  }

  /** The route taken names the provider it was taken for: two providers that start a sign-in never share a route. */
  lemma LoginRouteDeterminesProvider(p1: Option<string>, p2: Option<string>, email: Option<string>, password: Option<string>)
    requires Login(p1, email, password) == Login(p2, email, password) != NoRoute
    ensures p1 == p2
  {
  }

  /** Only the five known names start a sign-in. */
  lemma UnknownProviderDoesNothing(provider: string, email: Option<string>, password: Option<string>)
    requires provider !in {"active", "password", "facebook", "twitter", "google"}
    ensures Login(Some(provider), email, password) == NoRoute
    ensures Login(None, email, password) == NoRoute
  {
  }

  /**
    What a sign-in step resolves with: a plain value (an account, a profile), a reference
    to a stored record (its parent's name and its own), or nothing.
   */
  datatype Reply = Data(v: Value) | StoreRef(parentName: string, name: string) | NoReply

  /** What `callbackSuccess` does with a reply. */
  datatype Reaction =
    | LoadProfileOf(account: Value)
    | TakeNewProfile(profile: Value, createNow: bool)
    | TakeProfile(profile: Value)
    | LinkAccounts(userId: string)
    | Ignore

  /**
    `callbackSuccess(result)`: an account (it has a uid) loads its profile; a new linked
    profile becomes the session's profile and is created at once when confirmed; a profile
    with username and email becomes the session's profile; a stored record under `users`
    has its accounts linked; anything else is ignored. The first test that holds decides.
   */
  function CallbackSuccess(result: Reply): (r: Reaction)
    ensures result.NoReply? ==> r == Ignore
    ensures result.Data? && !Truthy(result.v) ==> r == Ignore
    ensures r.LoadProfileOf? <==> result.Data? && IsTruthy(Prop(Some(result.v), "uid"))
    ensures r.TakeNewProfile? <==>
              (result.Data? && !IsTruthy(Prop(Some(result.v), "uid"))
               && IsTruthy(Prop(Some(result.v), "new")) && IsTruthy(Prop(Some(result.v), "linked")))
    ensures r.TakeNewProfile? ==> r.profile == result.v && (r.createNow <==> IsTruthy(Prop(Some(result.v), "confirmed")))
    ensures r.TakeProfile? <==>
              (result.Data? && !IsTruthy(Prop(Some(result.v), "uid"))
               && !(IsTruthy(Prop(Some(result.v), "new")) && IsTruthy(Prop(Some(result.v), "linked")))
               && IsTruthy(Prop(Some(result.v), "username")) && IsTruthy(Prop(Some(result.v), "email")))
    ensures r.TakeProfile? ==> r.profile == result.v
    ensures r.LinkAccounts? <==> result.StoreRef? && result.parentName == "users"
    ensures r.LinkAccounts? ==> r.userId == result.name
    ensures r.Ignore? <==>
              result.NoReply? || (result.StoreRef? && result.parentName != "users")
              || (result.Data? && !IsTruthy(Prop(Some(result.v), "uid"))
                  && !(IsTruthy(Prop(Some(result.v), "new")) && IsTruthy(Prop(Some(result.v), "linked")))
                  && !(IsTruthy(Prop(Some(result.v), "username")) && IsTruthy(Prop(Some(result.v), "email"))))
  {
    match result
    case NoReply => Ignore
    case StoreRef(parent, name) => if parent == "users" then LinkAccounts(name) else Ignore
    case Data(v) =>
      var o := Some(v);
      if !Truthy(v) then Ignore
      else if IsTruthy(Prop(o, "uid")) then LoadProfileOf(v)
      else if IsTruthy(Prop(o, "new")) && IsTruthy(Prop(o, "linked")) then
        TakeNewProfile(v, IsTruthy(Prop(o, "confirmed")))
      else if IsTruthy(Prop(o, "username")) && IsTruthy(Prop(o, "email")) then TakeProfile(v)
      else Ignore
  }

  // ---------------------------------------------------------------------------
  // Loading a profile

  /** The settled `loadProfile` promise: rejected with a reason, or resolved with a profile (null possible). */
  datatype Loaded = LoadRejected(reason: Value) | LoadResolved(profile: Value)

  /**
    `loadProfile(account)`: without a uid it rejects. Otherwise the account table maps the
    uid to a user id, and that user's stored profile is the answer; with no entry, or no
    truthy profile under it, a new profile is built. Only string entries of the account
    table are followed.
   */
  function LoadProfile(account: Account, defaults: seq<Field>, userAccounts: map<string, Value>, users: map<string, Value>): (r: Loaded)
    ensures r.LoadRejected? <==> !TruthyString(account.uid)
    ensures r.LoadRejected? ==> r.reason == Str("No account to load uid for")
    ensures r.LoadResolved? ==> Truthy(r.profile)
    ensures forall id ::
              (r.LoadResolved? && Get(userAccounts, account.uid.value) == Some(Str(id)) && id != ""
               && IsTruthy(Get(users, id))) ==> r.profile == users[id]
    ensures r.LoadResolved? && !IsTruthy(Get(userAccounts, account.uid.value)) ==>
              r.profile == Obj(NewProfile(account, defaults).value)
    ensures r.LoadResolved? &&
            !(exists id :: Get(userAccounts, account.uid.value) == Some(Str(id)) && id != "" && IsTruthy(Get(users, id))) ==>
              r.profile == Obj(NewProfile(account, defaults).value)
  {
    if !TruthyString(account.uid) then LoadRejected(Str("No account to load uid for"))
    else
      var uid := account.uid.value;
      var stored :=
        if IsTruthy(Get(userAccounts, uid)) && userAccounts[uid].Str? then Get(users, userAccounts[uid].s) else None;
      if IsTruthy(stored) then LoadResolved(stored.value)
      else LoadResolved(Obj(NewProfile(account, defaults).value))
  }

  /** The account as a plain value, the shape a sign-in step resolves with. */
  function AccountValue(account: Account): (v: Value)
    requires TruthyString(account.uid)
    ensures IsTruthy(Prop(Some(v), "uid"))
  {
    Obj(map["uid" := Str(account.uid.value)])
  }

  /**
    A first sign-in: the account's reply loads its profile; with no account table entry a new
    profile is built, and handing it back to `callbackSuccess` makes it the session's
    profile, created at once exactly for an email/password account with an email. No
    default may define a truthy `uid`, or the new profile would be read as an account.
   */
  lemma FirstSignIn(account: Account, defaults: seq<Field>, userAccounts: map<string, Value>, users: map<string, Value>)
    requires TruthyString(account.uid) && account.uid.value !in userAccounts
    requires forall i :: 0 <= i < |defaults| && defaults[i].name == "uid" ==> defaults[i].value.None?
    ensures CallbackSuccess(Data(AccountValue(account))) == LoadProfileOf(AccountValue(account))
    ensures var l := LoadProfile(account, defaults, userAccounts, users);
            l.LoadResolved? && CallbackSuccess(Data(l.profile)).TakeNewProfile?
            && (CallbackSuccess(Data(l.profile)).createNow
                <==> account.provider == Some("password") && (TruthyString(account.email) || TruthyString(account.thirdPartyEmail)))
  {
    var p := NewProfile(account, defaults).value;
    NewProfileReadAsNew(account, defaults);
    assert LoadProfile(account, defaults, userAccounts, users) == LoadResolved(Obj(p));
    assert CallbackSuccess(Data(Obj(p))) == TakeNewProfile(Obj(p), IsTruthy(Get(p, "confirmed")));
  }

  /** A new profile without a default `uid` has no `uid`, and is new and linked. */
  lemma NewProfileReadAsNew(account: Account, defaults: seq<Field>)
    requires TruthyString(account.uid)
    requires forall i :: 0 <= i < |defaults| && defaults[i].name == "uid" ==> defaults[i].value.None?
    ensures var p := NewProfile(account, defaults).value;
            && "uid" !in p && IsTruthy(Get(p, "new")) && IsTruthy(Get(p, "linked"))
            && (IsTruthy(Get(p, "confirmed"))
                <==> account.provider == Some("password") && (TruthyString(account.email) || TruthyString(account.thirdPartyEmail)))
  {
    assert "uid" !in BaseProfile(account);
  }
}
