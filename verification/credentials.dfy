/** How both entry points choose and assemble their credentials at process
    start: `load_firebase_credentials` and `load_google_calendar_credentials`
    (api/main.py and main.py), and, for main.py, the `try` blocks that turn
    any failure into an absent client. The SDK constructors themselves
    (`credentials.Certificate`, `Credentials.from_authorized_user_info`,
    `Credentials.from_authorized_user_file`, `build`, `initialize_app`,
    `firestore.client`) are not modelled: `Sdk` says only whether each call
    returns or raises. */
module Credentials {
  import opened Wrappers
  import opened Text
  import opened Environment
  import Scopes

  /** A value in the dictionaries handed to the SDK; `None` from
      `os.getenv` is `Null`. */
  datatype Value = Null | Str(text: string) | StrList(items: seq<string>)

  /** `os.getenv(name)` placed in a dictionary. */
  function EnvValue(env: Env, name: string): (v: Value)
    ensures v.Str? <==> name in env
    ensures v.Str? ==> v.text == env[name]
  {
    if name in env then Str(env[name]) else Null
  }

  // ---------------------------------------------------------------- Firebase

  const PrivateKeyVar: string := "FIREBASE_PRIVATE_KEY"
  const TypeVar: string := "FIREBASE_TYPE"
  const ServiceAccountFile: string := "./serviceAccountKey.json"

  /** The keys of the service-account dictionary. */
  datatype FirebaseKey =
    | Type | ProjectId | PrivateKeyId | PrivateKey | ClientEmail | ClientId
    | AuthUri | TokenUri | AuthProviderCertUrl | ClientCertUrl | UniverseDomain

  /** The key as it is spelled in the dictionary. */
  function FirebaseKeyName(k: FirebaseKey): (name: string)
    ensures name != []
  {
    match k
    case Type => "type"
    case ProjectId => "project_id"
    case PrivateKeyId => "private_key_id"
    case PrivateKey => "private_key"
    case ClientEmail => "client_email"
    case ClientId => "client_id"
    case AuthUri => "auth_uri"
    case TokenUri => "token_uri"
    case AuthProviderCertUrl => "auth_provider_x509_cert_url"
    case ClientCertUrl => "client_x509_cert_url"
    case UniverseDomain => "universe_domain"
  }

  /** Distinct keys are spelled differently, so the dictionary keyed by
      `FirebaseKey` has one entry per key of the source's dictionary. */
  lemma FirebaseKeyNamesDistinct(a: FirebaseKey, b: FirebaseKey)
    requires FirebaseKeyName(a) == FirebaseKeyName(b)
    ensures a == b
  {
  }

  /** The environment variable each key is read from. */
  function FirebaseVar(k: FirebaseKey): (name: string)
    ensures |name| > 9 && name[..9] == "FIREBASE_"
  {
    match k
    case Type => TypeVar
    case ProjectId => "FIREBASE_PROJECT_ID"
    case PrivateKeyId => "FIREBASE_PRIVATE_KEY_ID"
    case PrivateKey => PrivateKeyVar
    case ClientEmail => "FIREBASE_CLIENT_EMAIL"
    case ClientId => "FIREBASE_CLIENT_ID"
    case AuthUri => "FIREBASE_AUTH_URI"
    case TokenUri => "FIREBASE_TOKEN_URI"
    case AuthProviderCertUrl => "FIREBASE_AUTH_PROVIDER_X509_CERT_URL"
    case ClientCertUrl => "FIREBASE_CLIENT_X509_CERT_URL"
    case UniverseDomain => "FIREBASE_UNIVERSE_DOMAIN"
  }

  /** The argument `load_firebase_credentials` passes to
      `credentials.Certificate`. */
  datatype FirebaseSource =
    | ServiceAccountInfo(info: map<FirebaseKey, Value>)
    | ServiceAccountPath(path: string)

  predicate HasFirebaseEnv(env: Env) {
    IsSet(env, PrivateKeyVar) && IsSet(env, TypeVar)
  }

  /** The value stored under one key when the dictionary is built. */
  function FirebaseField(env: Env, k: FirebaseKey): Value
    requires HasFirebaseEnv(env)
  {
    if k == PrivateKey then Str(UnescapeNewlines(env[PrivateKeyVar])) else EnvValue(env, FirebaseVar(k))
  }

  function LoadFirebaseCredentials(env: Env): (r: FirebaseSource)
    ensures r.ServiceAccountInfo? <==> HasFirebaseEnv(env)
    ensures r.ServiceAccountPath? ==> r.path == ServiceAccountFile
    ensures r.ServiceAccountInfo? ==>
              && (forall k :: k in r.info)
              && r.info[PrivateKey] == Str(UnescapeNewlines(env[PrivateKeyVar]))
              && r.info[Type] == Str(env[TypeVar]) && env[TypeVar] != []
              && (forall k :: k != PrivateKey ==> r.info[k] == EnvValue(env, FirebaseVar(k)))
  {
    if HasFirebaseEnv(env) then
      ServiceAccountInfo(map k: FirebaseKey | true :: FirebaseField(env, k))
    else
      ServiceAccountPath(ServiceAccountFile)
  }

  /** A PEM key stored in the environment with its line breaks written as
      backslash-`n` reaches the SDK with real line breaks again. */
  lemma PrivateKeyRestored(env: Env, key: string)
    requires HasFirebaseEnv(env)
    requires NoEscapedNewline(key)
    requires env[PrivateKeyVar] == EscapeNewlines(key)
    ensures LoadFirebaseCredentials(env).info[PrivateKey] == Str(key)
  {
    UnescapeEscape(key);
  }

  // ---------------------------------------------------------------- Calendar

  const TokenVar: string := "CALENDAR_TOKEN"
  const RefreshTokenVar: string := "CALENDAR_REFRESH_TOKEN"
  const TokenUriVar: string := "CALENDAR_TOKEN_URI"
  const ClientIdVar: string := "CALENDAR_CLIENT_ID"
  const ClientSecretVar: string := "CALENDAR_CLIENT_SECRET"
  const ExpiryVar: string := "CALENDAR_EXPIRY"
  const AccountVar: string := "CALENDAR_ACCOUNT"
  const TokenFile: string := "token.json"

  /** The keys of the authorized-user dictionary. */
  datatype CalendarKey =
    | Token | RefreshToken | CalendarTokenUri | CalendarClientId | ClientSecret
    | ScopeList | CalendarUniverseDomain | Account | Expiry

  /** The key as it is spelled in the dictionary. */
  function CalendarKeyName(k: CalendarKey): (name: string)
    ensures name != []
  {
    match k
    case Token => "token"
    case RefreshToken => "refresh_token"
    case CalendarTokenUri => "token_uri"
    case CalendarClientId => "client_id"
    case ClientSecret => "client_secret"
    case ScopeList => "scopes"
    case CalendarUniverseDomain => "universe_domain"
    case Account => "account"
    case Expiry => "expiry"
  }

  /** Distinct keys are spelled differently. */
  lemma CalendarKeyNamesDistinct(a: CalendarKey, b: CalendarKey)
    requires CalendarKeyName(a) == CalendarKeyName(b)
    ensures a == b
  {
  }

  /** The argument `load_google_calendar_credentials` passes to
      `Credentials.from_authorized_user_info` or `_file`, with the scopes
      passed alongside. */
  datatype CalendarSource =
    | AuthorizedUserInfo(info: map<CalendarKey, Value>, scopes: seq<string>)
    | AuthorizedUserPath(path: string, scopes: seq<string>)

  predicate HasCalendarEnv(env: Env) {
    && IsSet(env, TokenVar)
    && IsSet(env, RefreshTokenVar)
    && IsSet(env, TokenUriVar)
    && IsSet(env, ClientIdVar)
    && IsSet(env, ClientSecretVar)
  }

  /** The value stored under one key when the dictionary is built. */
  function CalendarField(env: Env, scopes: seq<string>, k: CalendarKey): Value
    requires HasCalendarEnv(env)
    requires k == Expiry ==> ExpiryVar in env
  {
    match k
    case Token => Str(env[TokenVar])
    case RefreshToken => Str(env[RefreshTokenVar])
    case CalendarTokenUri => Str(env[TokenUriVar])
    case CalendarClientId => Str(env[ClientIdVar])
    case ClientSecret => Str(env[ClientSecretVar])
    case ScopeList => StrList(scopes)
    case CalendarUniverseDomain => EnvValue(env, "CALENDAR_UNIVERSE_DOMAIN")
    case Account => Str(if AccountVar in env then env[AccountVar] else "")
    case Expiry => Str(env[ExpiryVar])
  }

  function CalendarSourceOf(env: Env, scopes: seq<string>): (r: CalendarSource)
    ensures r.scopes == scopes
    ensures r.AuthorizedUserInfo? <==> HasCalendarEnv(env)
    ensures r.AuthorizedUserPath? ==> r.path == TokenFile
    ensures r.AuthorizedUserInfo? ==>
              && (forall k :: k in r.info <==> k != Expiry || IsSet(env, ExpiryVar))
              && (Expiry in r.info ==> r.info[Expiry] == Str(env[ExpiryVar]))
              && r.info[Account] == Str(if AccountVar in env then env[AccountVar] else "")
              && r.info[ScopeList] == StrList(scopes)
              && r.info[CalendarUniverseDomain] == EnvValue(env, "CALENDAR_UNIVERSE_DOMAIN")
              && r.info[Token] == Str(env[TokenVar])
              && r.info[RefreshToken] == Str(env[RefreshTokenVar])
              && r.info[CalendarTokenUri] == Str(env[TokenUriVar])
              && r.info[CalendarClientId] == Str(env[ClientIdVar])
              && r.info[ClientSecret] == Str(env[ClientSecretVar])
  {
    if HasCalendarEnv(env) then
      AuthorizedUserInfo(map k: CalendarKey | k != Expiry || IsSet(env, ExpiryVar) :: CalendarField(env, scopes, k), scopes)
    else
      AuthorizedUserPath(TokenFile, scopes)
  }

  // ------------------------------------------------------------- SDK calls

  /** Whether each third-party call returns (true) or raises (false). */
  datatype Sdk = Sdk(
    certificateLoads: FirebaseSource -> bool,
    appInitializes: bool,
    firestoreConnects: bool,
    userCredentialsLoad: CalendarSource -> bool,
    serviceBuilds: Option<CalendarSource> -> bool)

  /** The calendar client: built on the credentials from the given source,
      or, in main.py, on no credentials at all. */
  datatype CalendarService = CalendarService(credentials: Option<CalendarSource>)

  /** The Firestore client, initialised from the given certificate source. */
  datatype Firestore = Firestore(source: FirebaseSource)

  /** api/main.py's module-level state once start-up has completed. */
  datatype ApiState = ApiState(scopes: seq<string>, calendar: CalendarService, db: Firestore)

  datatype StartupFailure = FirebaseFailed | CalendarCredentialsFailed | ServiceBuildFailed | FirestoreFailed

  /** api/main.py start-up: every failure propagates and the process does
      not start. Firebase is set up first, then the scopes and calendar
      client, then the Firestore client. */
  function StartApi(env: Env, sdk: Sdk): (r: Result<ApiState, StartupFailure>)
    ensures r.Ok? <==>
              && sdk.certificateLoads(LoadFirebaseCredentials(env)) && sdk.appInitializes
              && sdk.userCredentialsLoad(CalendarSourceOf(env, Scopes.ResolveScopes(env)))
              && sdk.serviceBuilds(Some(CalendarSourceOf(env, Scopes.ResolveScopes(env))))
              && sdk.firestoreConnects
    ensures r.Ok? ==> && r.value.scopes == Scopes.ResolveScopes(env)
                      && r.value.calendar.credentials == Some(CalendarSourceOf(env, r.value.scopes))
                      && r.value.db == Firestore(LoadFirebaseCredentials(env))
  {
    var firebase := LoadFirebaseCredentials(env);
    if !(sdk.certificateLoads(firebase) && sdk.appInitializes) then Err(FirebaseFailed)
    else
      var scopes := Scopes.ResolveScopes(env);
      var source := CalendarSourceOf(env, scopes);
      if !sdk.userCredentialsLoad(source) then Err(CalendarCredentialsFailed)
      else if !sdk.serviceBuilds(Some(source)) then Err(ServiceBuildFailed)
      else if !sdk.firestoreConnects then Err(FirestoreFailed)
      else Ok(ApiState(scopes, CalendarService(Some(source)), Firestore(firebase)))
  }

  /** main.py's `load_google_calendar_credentials(DEFAULT_SCOPES)`: a failure
      of the environment branch raises (`Err`), a failure of the file branch
      is caught and gives no credentials (`Ok(None)`). */
  function LoadCalendarCredentialsMain(env: Env, sdk: Sdk): (r: Result<Option<CalendarSource>, StartupFailure>)
    ensures r.Err? <==> HasCalendarEnv(env) && !sdk.userCredentialsLoad(CalendarSourceOf(env, Scopes.DefaultScopes))
    ensures r == Ok(None) <==> !HasCalendarEnv(env) && !sdk.userCredentialsLoad(CalendarSourceOf(env, Scopes.DefaultScopes))
    ensures r.Ok? && r.value.Some? ==> r.value.value == CalendarSourceOf(env, Scopes.DefaultScopes)
  {
    var source := CalendarSourceOf(env, Scopes.DefaultScopes);
    if sdk.userCredentialsLoad(source) then Ok(Some(source))
    else if HasCalendarEnv(env) then Err(CalendarCredentialsFailed)
    else Ok(None)
  }

  /** main.py's module-level state: either client may be absent. */
  datatype MainState = MainState(calendarService: Option<CalendarService>, db: Option<Firestore>)

  /** main.py start-up. It always completes: any failure while setting up
      Firebase leaves `db` as `None`, and any failure while loading the
      calendar credentials or building the client leaves `calendar_service`
      as `None`. The scopes are always the default list. */
  function StartMain(env: Env, sdk: Sdk): (r: MainState)
    ensures r.db.Some? <==> sdk.certificateLoads(LoadFirebaseCredentials(env)) && sdk.appInitializes && sdk.firestoreConnects
    ensures r.db.Some? ==> r.db.value.source == LoadFirebaseCredentials(env)
    ensures r.calendarService.Some? <==>
              && LoadCalendarCredentialsMain(env, sdk).Ok?
              && sdk.serviceBuilds(LoadCalendarCredentialsMain(env, sdk).value)
    ensures r.calendarService.Some? ==>
              r.calendarService.value.credentials == LoadCalendarCredentialsMain(env, sdk).value
  {
    var firebase := LoadFirebaseCredentials(env);
    var db := if sdk.certificateLoads(firebase) && sdk.appInitializes && sdk.firestoreConnects
              then Some(Firestore(firebase)) else None;
    var service := match LoadCalendarCredentialsMain(env, sdk)
                   case Err(_) => None
                   case Ok(creds) => if sdk.serviceBuilds(creds) then Some(CalendarService(creds)) else None;
    MainState(service, db)
  }

  /** When `CALENDAR_SCOPES` is not set, both entry points request the same
      scopes, so whenever api/main.py starts, main.py starts with both
      clients, and with the same calendar client. */
  lemma ApiStartMeansMainStart(env: Env, sdk: Sdk)
    requires !IsSet(env, Scopes.ScopesVar)
    requires StartApi(env, sdk).Ok?
    ensures StartMain(env, sdk).db == Some(StartApi(env, sdk).value.db)
    ensures StartMain(env, sdk).calendarService == Some(StartApi(env, sdk).value.calendar)
  {
  }
}
