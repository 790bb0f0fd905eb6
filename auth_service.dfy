/**
 * `AuthService`: registration, login and token refresh over the database,
 * the password hasher, the file service and the token service. `Register`,
 * `Login` and `RefreshTokens` take the steps of `register`, `login` and
 * `refreshTokens` in the same order, and each is proved to end as the
 * matching function of `AuthSpec` says.
 */
module Service {
  import opened AuthTypes
  import opened Scopes
  import opened JsString
  import opened Prisma
  import opened AuthSpec

  class AuthService {
    const prisma: Store
    const tokensService: TokensService
    const fileService: FileService
    const argon2: Argon2

    constructor (prisma: Store, tokensService: TokensService, fileService: FileService, argon2: Argon2)
      ensures this.prisma == prisma && this.tokensService == tokensService
      ensures this.fileService == fileService && this.argon2 == argon2
    {
      this.prisma := prisma;
      this.tokensService := tokensService;
      this.fileService := fileService;
      this.argon2 := argon2;
    }

    /**
     * Creates the account, then mints the first token pair. Whatever fails
     * inside the try block ends in the one catch block, `RegisterCatch`.
     */
    method Register(res: Response, input: RegisterUserInput, avatar: Option<FileUpload>, newId: UserId)
      returns (r: AuthOutcome)
      requires prisma.Valid()
      modifies prisma, res
      ensures prisma.Valid()
      ensures prisma.universityUsers == old(prisma.universityUsers) && prisma.failing == old(prisma.failing)
      ensures Run(r, prisma.users, res.refreshTokenCookie) ==
              RegisterSpec(argon2, tokensService, fileService, old(prisma.State()), old(res.refreshTokenCookie), input, avatar, newId)
    {
      var hashedPassword := argon2.hash(Trim(input.password));
      if hashedPassword.Threw? {
        return RegisterCatch(hashedPassword.error);
      }
      r := CreateAccount(res, RegistrationData(input, hashedPassword.value), avatar, newId);
    }

    /** `register` from `user.create` on, once the password is hashed. */
    method CreateAccount(res: Response, data: UserCreateData, avatar: Option<FileUpload>, newId: UserId)
      returns (r: AuthOutcome)
      requires prisma.Valid()
      modifies prisma, res
      ensures prisma.Valid()
      ensures prisma.universityUsers == old(prisma.universityUsers) && prisma.failing == old(prisma.failing)
      ensures Run(r, prisma.users, res.refreshTokenCookie) ==
              RegisterHashed(tokensService, fileService, old(prisma.State()), old(res.refreshTokenCookie), data, avatar, newId)
    {
      ghost var st := prisma.State();
      var createdUser := prisma.UserCreate(data, newId);
      if createdUser.Threw? {
        return RegisterCatch(createdUser.error);
      }
      var user := createdUser.value;
      assert prisma.State() == st.(users := st.users + [user]);
      var attached := SaveAvatar(user.id, avatar);
      if attached.Threw? {
        return RegisterCatch(attached.error);
      }
      r := MintFirstTokens(res, user.id);
    }

    /** The end of `register`: mint tokens for the new id and set the cookie. */
    method MintFirstTokens(res: Response, id: UserId) returns (r: AuthOutcome)
      modifies res
      ensures Run(r, prisma.users, res.refreshTokenCookie) ==
              RegisterMint(tokensService, prisma.users, old(res.refreshTokenCookie), id)
    {
      var tokens := tokensService.generateTokens(NewUserPayload(id));
      if tokens.Threw? {
        return RegisterCatch(tokens.error);
      }
      res.SetRefreshTokenCookie(tokens.value.refreshToken);
      r := Authenticated(Authentication(tokens.value.accessToken));
    }

    /**
     * The avatar step of `register`: when a file was sent, store it and
     * record its path on the user's row.
     */
    method SaveAvatar(id: UserId, avatar: Option<FileUpload>) returns (r: Try<seq<User>>)
      requires prisma.Valid()
      modifies prisma
      ensures prisma.Valid()
      ensures r == AuthSpec.AttachAvatar(fileService, old(prisma.State()), id, avatar)
      ensures prisma.users == (if r.Ok? then r.value else old(prisma.users))
      ensures prisma.universityUsers == old(prisma.universityUsers) && prisma.failing == old(prisma.failing)
    {
      if avatar.None? {
        return Ok(prisma.users);
      }
      var avatarPath := fileService.createUserAvatar(id, avatar.value);
      if avatarPath.Threw? {
        return Threw(avatarPath.error);
      }
      var updated := prisma.UserUpdateAvatar(id, avatarPath.value);
      if updated.Threw? {
        return Threw(updated.error);
      }
      r := Ok(prisma.users);
    }

    /** Checks the credentials, then mints a token pair carrying the user's current scopes. */
    method Login(userProvided: LoginUserInput, res: Response) returns (r: AuthOutcome)
      modifies res
      ensures Run(r, prisma.users, res.refreshTokenCookie) ==
              LoginSpec(argon2, tokensService, prisma.State(), old(res.refreshTokenCookie), userProvided)
    {
      var user := prisma.UserFindUniqueByEmail(userProvided.email);
      if user.Threw? {
        return Uncaught(user.error);
      }
      if user.value.None? {
        return BadRequest(EmailField, NoUserMessage);
      }
      var found := user.value.value;
      var hasCorrectPassword := argon2.verify(found.password, userProvided.password);
      if hasCorrectPassword.Threw? {
        return LoginCatch(hasCorrectPassword.error);
      }
      if !hasCorrectPassword.value {
        return LoginCatch(IncorrectPassword);
      }
      var universities := GetUniversitiesScopes(found.id);
      if universities.Threw? {
        return Uncaught(universities.error);
      }
      var tokens := tokensService.generateTokens(LoginPayload(found.id, universities.value));
      if tokens.Threw? {
        return Uncaught(tokens.error);
      }
      res.SetRefreshTokenCookie(tokens.value.refreshToken);
      r := Authenticated(Authentication(tokens.value.accessToken));
    }

    /** Mints a new token pair from the refresh-token cookie, with the user's scopes recomputed. */
    method RefreshTokens(req: Request, res: Response) returns (r: AuthOutcome)
      modifies res
      ensures Run(r, prisma.users, res.refreshTokenCookie) ==
              RefreshSpec(tokensService, prisma.State(), old(res.refreshTokenCookie), req)
    {
      var prevTokensPayload := tokensService.getPayloadFromToken(req.refreshTokenCookie, Refresh);
      if prevTokensPayload.Threw? {
        return Uncaught(prevTokensPayload.error);
      }
      var prev := prevTokensPayload.value;
      var universities := GetUniversitiesScopes(prev.user.id);
      if universities.Threw? {
        return Uncaught(universities.error);
      }
      var tokens := tokensService.generateTokens(RefreshedPayload(prev, universities.value));
      if tokens.Threw? {
        return Uncaught(tokens.error);
      }
      res.SetRefreshTokenCookie(tokens.value.refreshToken);
      r := Authenticated(Authentication(tokens.value.accessToken));
    }

    /**
     * The scope map of a user: one entry per university the user is a member
     * of, built from the membership rows.
     */
    method GetUniversitiesScopes(userId: UserId) returns (r: Try<ScopeMap>)
      ensures r == UniversitiesScopesOf(prisma.State(), userId)
      ensures r.Ok? ==> r.value.Keys == MemberUniversityIds(prisma.universityUsers, userId)
      ensures r.Threw? <==> FindMemberships in prisma.failing
    {
      var universities := prisma.UniversityUserFindMany(userId);
      if universities.Threw? {
        return Threw(universities.error);
      }
      MembershipsOfUniversities(prisma.universityUsers, userId);
      r := Ok(UniversitiesScopes(universities.value));
    }
  }
}
