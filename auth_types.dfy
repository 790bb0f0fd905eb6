/**
 * Values exchanged by the authentication service: its inputs, the token
 * payload, the outcomes it reports, the exceptions its collaborators throw,
 * the collaborators themselves, and the response object the refresh-token
 * cookie is written to.
 */
module AuthTypes {
  import opened Scopes

  datatype Option<T> = None | Some(value: T)

  /** What a collaborator call gives back: its value, or the exception it throws. */
  datatype Try<T> = Ok(value: T) | Threw(error: Thrown)

  /**
   * A thrown error as the catch blocks inspect it: the Prisma error `code`
   * (absent for other errors), the `message`, and the fields named by
   * `meta.target` (empty when the error carries none).
   */
  datatype Thrown = Thrown(code: Option<string>, message: string, target: seq<string>)

  type UserId = string

  /** The input field a bad-request error is reported against. */
  datatype Field = EmailField | PasswordField

  /** What a successful call returns: the access token and nothing else. */
  datatype Authentication = Authentication(accessToken: string)

  /** How a call of the service ends. */
  datatype AuthOutcome =
    | Authenticated(auth: Authentication)
      /** `MyBadRequestException({field: message})`. */
    | BadRequest(field: Field, message: string)
      /** `InternalServerErrorException`: the cause is not shown to the caller. */
    | InternalServerError
      /** A collaborator's exception that no catch block of the service handles. */
    | Uncaught(error: Thrown)

  const EmailInUseMessage := "Email is already in use"
  const NoUserMessage := "There is no user registered with this email"
  const IncorrectPasswordMessage := "Incorrect password"
  /** The message of the error `login` throws itself when verification says no. */
  const IncorrectPasswordSignal := "incorrect password"

  datatype TokenKind = Access | Refresh

  datatype TokenPair = TokenPair(accessToken: string, refreshToken: string)

  /**
   * The `user` part of a token payload. `otherFields` stands for whatever
   * else a decoded payload carries there; the service copies it unread.
   */
  datatype PayloadUser = PayloadUser(id: UserId, universities: ScopeMap, otherFields: map<string, string>)

  /** A token payload; `otherFields` holds its other top-level claims (issue and expiry times and the like). */
  datatype TokensPayload = TokensPayload(user: PayloadUser, otherFields: map<string, string>)

  /** An uploaded avatar file, handed on to the file service unread. */
  datatype FileUpload = FileUpload(filename: string)

  datatype RegisterUserInput = RegisterUserInput(
    email: string, fatherInitial: string, firstName: string, lastName: string, password: string)

  datatype LoginUserInput = LoginUserInput(email: string, password: string)

  /** The incoming request: the value of its refresh-token cookie, if it has one. */
  datatype Request = Request(refreshTokenCookie: Option<string>)

  /** The password hasher: `hash(plain)` and `verify(hash, plain)`. */
  datatype Argon2 = Argon2(hash: string -> Try<string>, verify: (string, string) -> Try<bool>)

  /** Token minting and decoding; signing and expiry live behind these two functions. */
  datatype TokensService = TokensService(
    generateTokens: TokensPayload -> Try<TokenPair>,
    getPayloadFromToken: (Option<string>, TokenKind) -> Try<TokensPayload>)

  /** Stores an avatar for a user and gives back its path. */
  datatype FileService = FileService(createUserAvatar: (UserId, FileUpload) -> Try<string>)

  /** The outgoing response; the only part the service touches is the refresh-token cookie. */
  class Response {
    var refreshTokenCookie: Option<string>

    constructor ()
      ensures refreshTokenCookie == None
    {
      refreshTokenCookie := None;
    }

    /** `TokensService.setRefreshTokenCookie(token, res)`: the cookie now holds `token`. */
    method SetRefreshTokenCookie(token: string)
      modifies this
      ensures refreshTokenCookie == Some(token)
    {
      refreshTokenCookie := Some(token);
    }
  }
}
