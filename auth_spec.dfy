/**
 * What each entry operation of the authentication service decides, as a
 * function of the collaborators, the database and the refresh-token cookie
 * before the call: the outcome, the user table after the call and the
 * cookie after the call. The methods of `Service.AuthService` are proved to
 * end exactly as these functions say; the lemmas of `AuthProperties` state
 * what the functions guarantee.
 */
module AuthSpec {
  import opened AuthTypes
  import opened Scopes
  import opened JsString
  import opened Prisma

  /** The effect of one call: its outcome, the user rows afterwards, the refresh-token cookie afterwards. */
  datatype Run = Run(outcome: AuthOutcome, users: seq<User>, cookie: Option<string>)

  /** The catch block of `register`: only a unique-constraint violation on `email` is reported as such. */
  function RegisterCatch(e: Thrown): (r: AuthOutcome)
    ensures r == BadRequest(EmailField, EmailInUseMessage) || r == InternalServerError
  {
    if e.code == Some(UniqueConstraintViolation) && "email" in e.target then
      BadRequest(EmailField, EmailInUseMessage)
    else
      InternalServerError
  }

  /** The error `login` throws itself when the hasher says the password does not match. */
  const IncorrectPassword := Thrown(None, IncorrectPasswordSignal, [])

  /** The catch block around password verification in `login`. */
  function LoginCatch(e: Thrown): (r: AuthOutcome)
    ensures r == BadRequest(PasswordField, IncorrectPasswordMessage) || r == InternalServerError
  {
    if e.message == IncorrectPasswordSignal then
      BadRequest(PasswordField, IncorrectPasswordMessage)
    else
      InternalServerError
  }

  /** The row `register` asks the database to create, given the hash of the trimmed password. */
  function RegistrationData(input: RegisterUserInput, hashedPassword: string): UserCreateData
  {
    UserCreateData(
      input.email, Trim(input.firstName), NormalizeName(input.lastName),
      NormalizeName(input.fatherInitial), hashedPassword)
  }

  /** The payload minted for a new account: its id and no universities. */
  function NewUserPayload(id: UserId): TokensPayload
  {
    TokensPayload(PayloadUser(id, map[], map[]), map[])
  }

  /** The payload minted at login. */
  function LoginPayload(id: UserId, universities: ScopeMap): TokensPayload
  {
    TokensPayload(PayloadUser(id, universities, map[]), map[])
  }

  /** The payload minted at refresh: the previous one with `user.universities` replaced. */
  function RefreshedPayload(prev: TokensPayload, universities: ScopeMap): TokensPayload
  {
    prev.(user := prev.user.(universities := universities))
  }

  /** `getUniversitiesScopes(userId)`: the fold over the user's memberships, or the query's failure. */
  function UniversitiesScopesOf(st: StoreState, userId: UserId): Try<ScopeMap>
  {
    if FindMemberships in st.failing then Threw(Unreachable)
    else Ok(UniversitiesScopes(MembershipsOf(st.universityUsers, userId)))
  }

  /** The avatar step of `register`: the user rows after it, or the exception it ends in. */
  function AttachAvatar(files: FileService, st: StoreState, id: UserId, avatar: Option<FileUpload>): Try<seq<User>>
  {
    if avatar.None? then Ok(st.users)
    else
      match files.createUserAvatar(id, avatar.value)
      case Threw(e) => Threw(e)
      case Ok(path) =>
        match UpdateAvatar(st, id, path)
        case Threw(e) => Threw(e)
        case Ok(_) => Ok(WithAvatar(st.users, id, path))
  }

  /**
   * `register`: hash the trimmed password, create the row, attach the
   * avatar if one was sent, mint tokens for the new id with no universities,
   * set the cookie and return the access token. Every exception on the way
   * goes through `RegisterCatch`, and a row already created stays.
   */
  function RegisterSpec(
    argon2: Argon2, tokens: TokensService, files: FileService, st: StoreState,
    cookie: Option<string>, input: RegisterUserInput, avatar: Option<FileUpload>, newId: UserId): Run
  {
    match argon2.hash(Trim(input.password))
    case Threw(e) => Run(RegisterCatch(e), st.users, cookie)
    case Ok(hashed) => RegisterHashed(tokens, files, st, cookie, RegistrationData(input, hashed), avatar, newId)
  }

  /** `register` from the creation of the row on. */
  function RegisterHashed(
    tokens: TokensService, files: FileService, st: StoreState, cookie: Option<string>,
    data: UserCreateData, avatar: Option<FileUpload>, newId: UserId): Run
  {
    match Create(st, data, newId)
    case Threw(e) => Run(RegisterCatch(e), st.users, cookie)
    case Ok(created) =>
      var afterCreate := st.(users := st.users + [created]);
      match AttachAvatar(files, afterCreate, created.id, avatar)
      case Threw(e) => Run(RegisterCatch(e), afterCreate.users, cookie)
      case Ok(users) => RegisterMint(tokens, users, cookie, created.id)
  }

  /** The end of `register`: mint the first token pair of the new account. */
  function RegisterMint(tokens: TokensService, users: seq<User>, cookie: Option<string>, id: UserId): Run
  {
    match tokens.generateTokens(NewUserPayload(id))
    case Threw(e) => Run(RegisterCatch(e), users, cookie)
    case Ok(pair) => Run(Authenticated(Authentication(pair.accessToken)), users, Some(pair.refreshToken))
  }

  /**
   * `login`: look the user up by email, verify the password as given,
   * compute the user's scopes, mint tokens, set the cookie and return the
   * access token. Only verification sits in a try block; the lookup, the
   * scope query and minting let their exceptions through.
   */
  function LoginSpec(argon2: Argon2, tokens: TokensService, st: StoreState, cookie: Option<string>, input: LoginUserInput): Run
  {
    if FindUser in st.failing then Run(Uncaught(Unreachable), st.users, cookie)
    else
      match FindByEmail(st.users, input.email)
      case None => Run(BadRequest(EmailField, NoUserMessage), st.users, cookie)
      case Some(user) =>
        match argon2.verify(user.password, input.password)
        case Threw(e) => Run(LoginCatch(e), st.users, cookie)
        case Ok(correct) =>
          if !correct then Run(LoginCatch(IncorrectPassword), st.users, cookie)
          else
            match UniversitiesScopesOf(st, user.id)
            case Threw(e) => Run(Uncaught(e), st.users, cookie)
            case Ok(universities) =>
              match tokens.generateTokens(LoginPayload(user.id, universities))
              case Threw(e) => Run(Uncaught(e), st.users, cookie)
              case Ok(pair) => Run(Authenticated(Authentication(pair.accessToken)), st.users, Some(pair.refreshToken))
  }

  /**
   * `refreshTokens`: decode the request's cookie as a refresh token,
   * recompute the scopes of its user, mint tokens from the old payload with
   * the new scopes, set the cookie and return the access token. Nothing is
   * caught.
   */
  function RefreshSpec(tokens: TokensService, st: StoreState, cookie: Option<string>, req: Request): Run
  {
    match tokens.getPayloadFromToken(req.refreshTokenCookie, Refresh)
    case Threw(e) => Run(Uncaught(e), st.users, cookie)
    case Ok(prev) =>
      match UniversitiesScopesOf(st, prev.user.id)
      case Threw(e) => Run(Uncaught(e), st.users, cookie)
      case Ok(universities) =>
        match tokens.generateTokens(RefreshedPayload(prev, universities))
        case Threw(e) => Run(Uncaught(e), st.users, cookie)
        case Ok(pair) => Run(Authenticated(Authentication(pair.accessToken)), st.users, Some(pair.refreshToken))
  }
}
