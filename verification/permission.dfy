/**
  The permission evaluator of the secure mirror: whether the acting user may see
  (or write) a record of one type, from the type's access tokens, the user's roles,
  the user's personal index for the type, and the record's own `users` list.
 */
module Permission {
  import opened Values

  /** A record type: its name and its access tokens ("public", "user", or role names). */
  datatype TypePolicy = TypePolicy(name: string, access: seq<string>)

  /** A type's access as configured: a single token or a list of tokens. */
  datatype AccessSpec = Single(token: string) | Tokens(tokens: seq<string>)

  /**
    The acting user's profile: its `$id` and its other properties, among them
    `roles` (role name -> flag) and one personal index per type name (record id -> flag).
   */
  datatype User = User(id: string, props: map<string, Value>)

  /** A record key as the callers pass it: left out, `null`, or a name. */
  datatype Key = Undefined | NullKey | Name(name: string)

  /**
    The sign-in state the profile bootstrap consults: the signed-in account's uid and,
    once loaded, the account -> profile-id table (`userAccounts`).
   */
  datatype Login = SignedOut | SignedIn(uid: string, accounts: Option<map<string, Value>>)

  /** Access normalisation: a single token becomes a one-token list. */
  function NormaliseAccess(a: AccessSpec): (r: seq<string>)
    ensures |r| >= 1 || a.Tokens?
    ensures forall t :: t in r <==> (if a.Single? then t == a.token else t in a.tokens)
    ensures a.Tokens? ==> r == a.tokens
  {
    match a
    case Single(t) => [t]
    case Tokens(ts) => ts
  }

  /** A key is truthy when it is a non-empty name. */
  predicate KeyTruthy(key: Key) {
    key.Name? && key.name != ""
  }

  predicate PublicAllowed(p: TypePolicy) {
    "public" in p.access
  }

  /** The user's flags for one name in its `roles` object. */
  predicate RoleAllowed(p: TypePolicy, user: Option<User>, role: string) {
    && user.Some?
    && role in p.access
    && IsObject(Get(user.value.props, "roles"))
    && IsTruthy(Prop(Get(user.value.props, "roles"), role))
  }

  /**
    User-level access: with a truthy key, the user's personal index for the type lists
    the key; without one, the value's `users` object lists the user.
   */
  predicate UserAllowed(p: TypePolicy, user: Option<User>, key: Key, value: Option<Value>) {
    && user.Some?
    && if KeyTruthy(key) then
         IsObject(Get(user.value.props, p.name)) && IsTruthy(Prop(Get(user.value.props, p.name), key.name))
       else
         IsTruthy(Prop(Prop(value, "users"), user.value.id))
  }

  /** One access token grants: "user" with user-level access, or any non-public role the user holds. */
  predicate TokenGrants(p: TypePolicy, user: Option<User>, token: string, key: Key, value: Option<Value>) {
    (token == "user" && UserAllowed(p, user, key, value))
    || (token != "public" && RoleAllowed(p, user, token))
  }

  /** The scan over the access tokens in order, stopping at the first that grants. */
  function ScanTokens(p: TypePolicy, user: Option<User>, tokens: seq<string>, key: Key, value: Option<Value>): bool
  {
    if |tokens| == 0 then false
    else if TokenGrants(p, user, tokens[0], key, value) then true
    else ScanTokens(p, user, tokens[1..], key, value)
  }

  /** The scan finds a grant exactly when some token grants. */
  lemma {:induction false} ScanTokensIff(p: TypePolicy, user: Option<User>, tokens: seq<string>, key: Key, value: Option<Value>)
    ensures ScanTokens(p, user, tokens, key, value)
            <==> exists i :: 0 <= i < |tokens| && TokenGrants(p, user, tokens[i], key, value)
    decreases |tokens|
  {
    if |tokens| > 0 {
      ScanTokensIff(p, user, tokens[1..], key, value);
      if !TokenGrants(p, user, tokens[0], key, value) {
        forall i | 0 <= i < |tokens| && TokenGrants(p, user, tokens[i], key, value)
          ensures 1 <= i && TokenGrants(p, user, tokens[1..][i - 1], key, value)
        {
        }
      }
    }
  }

  /** `key === userAccounts[uid]`, JavaScript strict equality with undefined for a missing entry. */
  predicate StrictEqualsEntry(key: Key, entry: Option<Value>) {
    match key
    case Undefined => entry.None?
    case NullKey => entry == Some(Null)
    case Name(n) => entry == Some(Str(n))
  }

  /**
    The profile bootstrap for the "users" type with no user yet, as the code states it:
    the value links the signed-in account, or the key equals the account table's entry
    for it. A missing entry compared with a missing key counts as equal here.
   */
  predicate BootstrapAsWritten(login: Login, key: Key, value: Option<Value>) {
    && login.SignedIn?
    && (|| IsTruthy(Prop(Prop(value, "linked"), login.uid))
        || (login.accounts.Some? && StrictEqualsEntry(key, Get(login.accounts.value, login.uid))))
  }

  /** The profile bootstrap with the key comparison restricted to named keys. */
  predicate Bootstrap(login: Login, key: Key, value: Option<Value>) {
    && login.SignedIn?
    && (|| IsTruthy(Prop(Prop(value, "linked"), login.uid))
        || (login.accounts.Some? && key.Name? && Get(login.accounts.value, login.uid) == Some(Str(key.name))))
  }

  /** `permit` as written, including the bootstrap's undefined-equals-undefined comparison. */
  predicate PermitAsWritten(p: TypePolicy, user: Option<User>, login: Login, key: Key, value: Option<Value>) {
    if PublicAllowed(p) then true
    else if user.Some? then ScanTokens(p, user, p.access, key, value)
    else if p.name == "users" then BootstrapAsWritten(login, key, value)
    else false
  }

  /** `permit`, with the bootstrap compared on named keys only; the rest of the model uses this one. */
  predicate Permit(p: TypePolicy, user: Option<User>, login: Login, key: Key, value: Option<Value>) {
    if PublicAllowed(p) then true
    else if user.Some? then ScanTokens(p, user, p.access, key, value)
    else if p.name == "users" then Bootstrap(login, key, value)
    else false
  }

  /** Public access grants everything, to anyone, including nobody. */
  lemma PublicGrantsAll(p: TypePolicy, user: Option<User>, login: Login, key: Key, value: Option<Value>)
    requires "public" in p.access
    ensures Permit(p, user, login, key, value)
  {
  }

  /**
    With a user and no public access, permission holds exactly when some token is "user"
    with user-level access, or a non-public token the user holds as a truthy role.
   */
  lemma UserPermitIff(p: TypePolicy, u: User, login: Login, key: Key, value: Option<Value>)
    requires "public" !in p.access
    ensures Permit(p, Some(u), login, key, value)
            <==> exists i :: 0 <= i < |p.access| &&
                   ((p.access[i] == "user" && UserAllowed(p, Some(u), key, value))
                    || (p.access[i] != "public" && IsObject(Get(u.props, "roles"))
                        && IsTruthy(Prop(Get(u.props, "roles"), p.access[i]))))
  {
    ScanTokensIff(p, Some(u), p.access, key, value);
  }

  /** Without public access, a type other than "users" is closed to nobody-signed-in readers. */
  lemma NoUserNoAccess(p: TypePolicy, login: Login, key: Key, value: Option<Value>)
    requires "public" !in p.access && p.name != "users"
    ensures !Permit(p, None, login, key, value)
  {
  }

  /** User-level access by key: exactly the personal index's flag for the key. */
  lemma UserAllowedByKey(p: TypePolicy, u: User, key: Key, value: Option<Value>)
    requires KeyTruthy(key)
    ensures UserAllowed(p, Some(u), key, value)
            <==> p.name in u.props && IsObject(Some(u.props[p.name])) && IsTruthy(Prop(Some(u.props[p.name]), key.name))
  {
  }

  /** User-level access without a key: exactly the value's `users` flag for the user's id. */
  lemma UserAllowedByValue(p: TypePolicy, u: User, key: Key, value: Option<Value>)
    requires !KeyTruthy(key)
    ensures UserAllowed(p, Some(u), key, value)
            <==> value.Some? && value.value.Obj? && "users" in value.value.fields
                 && value.value.fields["users"].Obj? && u.id in value.value.fields["users"].fields
                 && Truthy(value.value.fields["users"].fields[u.id])
  {
  }

  /** Nobody signed in never has user-level access. */
  lemma UserAllowedNeedsUser(p: TypePolicy, key: Key, value: Option<Value>)
    ensures !UserAllowed(p, None, key, value)
  {
  }

  /**
    The bootstrap as written grants a signed-in account the root check (no key) of the
    "users" type as soon as the account table is loaded and lacks that account, so a
    visitor without a profile would be handed every profile.
   */
  lemma BootstrapRootLeak()
    ensures var p := TypePolicy("users", ["user"]);
            var login := SignedIn("acct", Some(map[]));
            PermitAsWritten(p, None, login, Undefined, None) && !Permit(p, None, login, Undefined, None)
  {
  }

  /** The corrected bootstrap grants a key only when the account table names it as the profile. */
  lemma BootstrapNamesProfile(login: Login, key: Key)
    requires Bootstrap(login, key, None)
    ensures login.SignedIn? && login.accounts.Some? && key.Name?
    ensures Get(login.accounts.value, login.uid) == Some(Str(key.name))
  {
  }

  /** Both versions agree everywhere except on the comparison of a missing key with a missing entry. */
  lemma BootstrapAgreesOnNamedKeys(p: TypePolicy, user: Option<User>, login: Login, key: Key, value: Option<Value>)
    requires key.Name?
    ensures PermitAsWritten(p, user, login, key, value) == Permit(p, user, login, key, value)
  {
  }
}
