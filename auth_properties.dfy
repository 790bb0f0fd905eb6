/**
 * What `register`, `login` and `refreshTokens` guarantee, stated about the
 * functions of `AuthSpec` that the methods of `Service.AuthService` are
 * proved to follow: which errors each can end in, what a registration
 * stores, what each minted payload holds, and that the refresh-token cookie
 * changes only when a call succeeds.
 */
module AuthProperties {
  import opened AuthTypes
  import opened Scopes
  import opened JsString
  import opened Prisma
  import opened AuthSpec

  /* ----- Store facts used below ----- */

  /** Appending a row whose email is new: looking that email up finds the new row. */
  lemma {:induction false} FindByEmailOfNewRow(users: seq<User>, u: User)
    requires !EmailTaken(users, u.email)
    ensures FindByEmail(users + [u], u.email) == Some(u)
  {
    if users != [] {
      assert users[0] in users;
      assert (users + [u])[1..] == users[1..] + [u];
      assert !EmailTaken(users[1..], u.email) by {
        forall v | v in users[1..] ensures v.email != u.email {
          assert v in users;
        }
      }
      FindByEmailOfNewRow(users[1..], u);
    }
  }

  /** Setting the avatar of a row appended with a new id touches that row only. */
  lemma WithAvatarOfNewRow(users: seq<User>, u: User, path: string)
    requires !IdTaken(users, u.id)
    ensures WithAvatar(users + [u], u.id, path) == users + [u.(avatar := Some(path))]
  {
    var all := users + [u];
    forall i | 0 <= i < |users| ensures all[i].id != u.id {
      assert all[i] == users[i] && users[i] in users;
    }
  }

  /**
   * A table that is `prefix` with one row appended: that row's email is
   * taken, and an email new to `prefix` is found in the appended row.
   */
  lemma AppendedRowFound(prefix: seq<User>, users: seq<User>)
    requires |users| == |prefix| + 1 && users[..|prefix|] == prefix
    ensures EmailTaken(users, users[|prefix|].email)
    ensures !EmailTaken(prefix, users[|prefix|].email) ==> FindByEmail(users, users[|prefix|].email) == Some(users[|prefix|])
  {
    var row := users[|prefix|];
    assert users == prefix + [row];
    assert row in users;
    if !EmailTaken(prefix, row.email) {
      FindByEmailOfNewRow(prefix, row);
    }
  }

  /** An id free in `prefix` and different from the appended row's is free in the whole table. */
  lemma AppendedRowIdFree(prefix: seq<User>, users: seq<User>, otherId: UserId)
    requires |users| == |prefix| + 1 && users[..|prefix|] == prefix
    requires !IdTaken(prefix, otherId) && users[|prefix|].id != otherId
    ensures !IdTaken(users, otherId)
  {
    var row := users[|prefix|];
    assert users == prefix + [row];
    forall u | u in users ensures u.id != otherId {
      if u != row {
        assert u in prefix;
      }
    }
  }

  /* ----- register ----- */

  /**
   * The row `register` creates: the email as given, the first name trimmed,
   * the last name and father's initial trimmed and upper-cased, the hash of
   * the trimmed password.
   */
  function RegisteredRow(argon2: Argon2, input: RegisterUserInput, newId: UserId): User
    requires argon2.hash(Trim(input.password)).Ok?
  {
    User(newId, input.email, Trim(input.firstName), NormalizeName(input.lastName),
         NormalizeName(input.fatherInitial), argon2.hash(Trim(input.password)).value, None)
  }

  /** The hash succeeds, the database is up, and neither the new id nor the email is taken. */
  predicate RowCreated(argon2: Argon2, st: StoreState, input: RegisterUserInput, newId: UserId)
  {
    argon2.hash(Trim(input.password)).Ok? &&
    CreateUser !in st.failing && !IdTaken(st.users, newId) && !EmailTaken(st.users, input.email)
  }

  /* `register` from `user.create` on, one fact at a time. */

  /** A refused row ends the call through the catch block with nothing changed. */
  lemma AccountRefused(
    tokens: TokensService, files: FileService, st: StoreState, cookie: Option<string>,
    data: UserCreateData, avatar: Option<FileUpload>, newId: UserId)
    requires Create(st, data, newId).Threw?
    ensures RegisterHashed(tokens, files, st, cookie, data, avatar, newId) ==
            Run(RegisterCatch(Create(st, data, newId).error), st.users, cookie)
  {
  }

  /** An accepted row stays whatever happens next; only its avatar may be set afterwards. */
  lemma AccountRowKept(
    tokens: TokensService, files: FileService, st: StoreState, cookie: Option<string>,
    data: UserCreateData, avatar: Option<FileUpload>, newId: UserId)
    requires Create(st, data, newId).Ok?
    ensures var run := RegisterHashed(tokens, files, st, cookie, data, avatar, newId);
            |run.users| == |st.users| + 1 && run.users[..|st.users|] == st.users &&
            run.users[|st.users|].(avatar := None) == Create(st, data, newId).value
  {
    var row := Create(st, data, newId).value;
    assert (st.users + [row])[..|st.users|] == st.users;
    if avatar.Some? && files.createUserAvatar(newId, avatar.value).Ok? {
      var path := files.createUserAvatar(newId, avatar.value).value;
      WithAvatarOfNewRow(st.users, row, path);
      assert (st.users + [row.(avatar := Some(path))])[..|st.users|] == st.users;
    }
  }

  /** On success the new row's avatar is the stored file's path, or none when no file was sent. */
  lemma AccountAvatar(
    tokens: TokensService, files: FileService, st: StoreState, cookie: Option<string>,
    data: UserCreateData, avatar: Option<FileUpload>, newId: UserId)
    requires RegisterHashed(tokens, files, st, cookie, data, avatar, newId).outcome.Authenticated?
    ensures Create(st, data, newId).Ok?
    ensures var run := RegisterHashed(tokens, files, st, cookie, data, avatar, newId);
            |run.users| == |st.users| + 1 &&
            var avatarPath := run.users[|st.users|].avatar;
            if avatar.None? then avatarPath == None
            else avatarPath.Some? && files.createUserAvatar(newId, avatar.value) == Ok(avatarPath.value)
  {
    var row := Create(st, data, newId).value;
    if avatar.Some? {
      var path := files.createUserAvatar(newId, avatar.value).value;
      WithAvatarOfNewRow(st.users, row, path);
    }
  }

  /**
   * The cookie changes only on success, to the refresh token minted for
   * the new id with no universities; the caller gets that pair's access
   * token.
   */
  lemma AccountCookie(
    tokens: TokensService, files: FileService, st: StoreState, cookie: Option<string>,
    data: UserCreateData, avatar: Option<FileUpload>, newId: UserId)
    ensures var run := RegisterHashed(tokens, files, st, cookie, data, avatar, newId);
            var minted := tokens.generateTokens(NewUserPayload(newId));
            (run.outcome.Authenticated? ==>
               minted.Ok? && run.outcome.auth == Authentication(minted.value.accessToken) &&
               run.cookie == Some(minted.value.refreshToken)) &&
            (!run.outcome.Authenticated? ==> run.cookie == cookie)
  {
  }

  /** The outcome is the access token, the email field error or an internal error. */
  lemma AccountOutcomes(
    tokens: TokensService, files: FileService, st: StoreState, cookie: Option<string>,
    data: UserCreateData, avatar: Option<FileUpload>, newId: UserId)
    ensures var o := RegisterHashed(tokens, files, st, cookie, data, avatar, newId).outcome;
            o.Authenticated? || o == BadRequest(EmailField, EmailInUseMessage) || o == InternalServerError
  {
  }

  /** A call that threw a unique-constraint violation whose target names `email`. */
  predicate ThrewEmailClash<T>(t: Try<T>)
  {
    t.Threw? && t.error.code == Some(UniqueConstraintViolation) && "email" in t.error.target
  }

  /**
   * Once the row is created, each later step that throws ends the call in
   * the catch block with that step's own error: storing the avatar, the
   * avatar update (an internal error, since a refused query is no unique
   * violation) and minting.
   */
  lemma AccountStepFailures(
    tokens: TokensService, files: FileService, st: StoreState, cookie: Option<string>,
    data: UserCreateData, avatar: Option<FileUpload>, newId: UserId)
    requires Create(st, data, newId).Ok?
    ensures var o := RegisterHashed(tokens, files, st, cookie, data, avatar, newId).outcome;
            avatar.Some? && files.createUserAvatar(newId, avatar.value).Threw? ==>
              o == RegisterCatch(files.createUserAvatar(newId, avatar.value).error)
    ensures var o := RegisterHashed(tokens, files, st, cookie, data, avatar, newId).outcome;
            avatar.Some? && files.createUserAvatar(newId, avatar.value).Ok? && UpdateUser in st.failing ==>
              o == InternalServerError
    ensures var o := RegisterHashed(tokens, files, st, cookie, data, avatar, newId).outcome;
            (avatar.None? || (files.createUserAvatar(newId, avatar.value).Ok? && UpdateUser !in st.failing)) &&
            tokens.generateTokens(NewUserPayload(newId)).Threw? ==>
              o == RegisterCatch(tokens.generateTokens(NewUserPayload(newId)).error)
  {
    var row := Create(st, data, newId).value;
    assert row in st.users + [row];
  }

  /**
   * From `user.create` on, the email field error has one of three causes:
   * the email already has a row, or the file service or the token service
   * threw a unique violation naming `email`.
   */
  lemma AccountEmailErrorCause(
    tokens: TokensService, files: FileService, st: StoreState, cookie: Option<string>,
    data: UserCreateData, avatar: Option<FileUpload>, newId: UserId)
    requires RegisterHashed(tokens, files, st, cookie, data, avatar, newId).outcome == BadRequest(EmailField, EmailInUseMessage)
    ensures (CreateUser !in st.failing && !IdTaken(st.users, newId) && EmailTaken(st.users, data.email)) ||
            (Create(st, data, newId).Ok? && avatar.Some? && ThrewEmailClash(files.createUserAvatar(newId, avatar.value))) ||
            (Create(st, data, newId).Ok? && ThrewEmailClash(tokens.generateTokens(NewUserPayload(newId))))
  {
    if Create(st, data, newId).Ok? {
      var row := Create(st, data, newId).value;
      assert row in st.users + [row];
    }
  }

  /**
   * `register` ends in one of three ways: the access token, the email
   * field error, or an internal error. It never reports a password error
   * and never lets an exception through.
   */
  lemma RegisterOutcomes(
    argon2: Argon2, tokens: TokensService, files: FileService, st: StoreState,
    cookie: Option<string>, input: RegisterUserInput, avatar: Option<FileUpload>, newId: UserId)
    ensures var o := RegisterSpec(argon2, tokens, files, st, cookie, input, avatar, newId).outcome;
            o.Authenticated? || o == BadRequest(EmailField, EmailInUseMessage) || o == InternalServerError
  {
    var hashed := argon2.hash(Trim(input.password));
    if hashed.Ok? {
      AccountOutcomes(tokens, files, st, cookie, RegistrationData(input, hashed.value), avatar, newId);
    }
  }

  /** A hash that throws ends `register` in the catch block with that error, adding no row and leaving the cookie. */
  lemma RegisterHashFailure(
    argon2: Argon2, tokens: TokensService, files: FileService, st: StoreState,
    cookie: Option<string>, input: RegisterUserInput, avatar: Option<FileUpload>, newId: UserId)
    ensures var hashed := argon2.hash(Trim(input.password));
            hashed.Threw? ==>
              RegisterSpec(argon2, tokens, files, st, cookie, input, avatar, newId) == Run(RegisterCatch(hashed.error), st.users, cookie)
  {
  }

  /**
   * After the row is created, a throw from storing the avatar or from
   * minting ends `register` in the catch block with that same error, and a
   * refused avatar update ends it in an internal error.
   */
  lemma RegisterStepFailures(
    argon2: Argon2, tokens: TokensService, files: FileService, st: StoreState,
    cookie: Option<string>, input: RegisterUserInput, avatar: Option<FileUpload>, newId: UserId)
    requires RowCreated(argon2, st, input, newId)
    ensures var o := RegisterSpec(argon2, tokens, files, st, cookie, input, avatar, newId).outcome;
            avatar.Some? && files.createUserAvatar(newId, avatar.value).Threw? ==>
              o == RegisterCatch(files.createUserAvatar(newId, avatar.value).error)
    ensures var o := RegisterSpec(argon2, tokens, files, st, cookie, input, avatar, newId).outcome;
            avatar.Some? && files.createUserAvatar(newId, avatar.value).Ok? && UpdateUser in st.failing ==>
              o == InternalServerError
    ensures var o := RegisterSpec(argon2, tokens, files, st, cookie, input, avatar, newId).outcome;
            (avatar.None? || (files.createUserAvatar(newId, avatar.value).Ok? && UpdateUser !in st.failing)) &&
            tokens.generateTokens(NewUserPayload(newId)).Threw? ==>
              o == RegisterCatch(tokens.generateTokens(NewUserPayload(newId)).error)
  {
    var data := RegistrationData(input, argon2.hash(Trim(input.password)).value);
    CreateOutcome(st, data, newId);
    AccountStepFailures(tokens, files, st, cookie, data, avatar, newId);
  }

  /**
   * The email field error of `register` has one of four causes: the email
   * already has a row, or the hasher, the file service or the token service
   * threw a unique violation naming `email`.
   */
  lemma RegisterEmailErrorCause(
    argon2: Argon2, tokens: TokensService, files: FileService, st: StoreState,
    cookie: Option<string>, input: RegisterUserInput, avatar: Option<FileUpload>, newId: UserId)
    ensures RegisterSpec(argon2, tokens, files, st, cookie, input, avatar, newId).outcome == BadRequest(EmailField, EmailInUseMessage) ==>
            ThrewEmailClash(argon2.hash(Trim(input.password))) ||
            (argon2.hash(Trim(input.password)).Ok? &&
             CreateUser !in st.failing && !IdTaken(st.users, newId) && EmailTaken(st.users, input.email)) ||
            (RowCreated(argon2, st, input, newId) && avatar.Some? && ThrewEmailClash(files.createUserAvatar(newId, avatar.value))) ||
            (RowCreated(argon2, st, input, newId) && ThrewEmailClash(tokens.generateTokens(NewUserPayload(newId))))
  {
    var hashed := argon2.hash(Trim(input.password));
    var o := RegisterSpec(argon2, tokens, files, st, cookie, input, avatar, newId).outcome;
    if hashed.Ok? && o == BadRequest(EmailField, EmailInUseMessage) {
      var data := RegistrationData(input, hashed.value);
      CreateOutcome(st, data, newId);
      AccountEmailErrorCause(tokens, files, st, cookie, data, avatar, newId);
    }
  }

  /**
   * `register` adds no row unless the hash succeeds and the database
   * accepts the row.
   */
  lemma RegisterNoRowUnlessCreated(
    argon2: Argon2, tokens: TokensService, files: FileService, st: StoreState,
    cookie: Option<string>, input: RegisterUserInput, avatar: Option<FileUpload>, newId: UserId)
    ensures !RowCreated(argon2, st, input, newId) ==>
            RegisterSpec(argon2, tokens, files, st, cookie, input, avatar, newId).users == st.users
  {
    var hashed := argon2.hash(Trim(input.password));
    if hashed.Ok? {
      var data := RegistrationData(input, hashed.value);
      CreateOutcome(st, data, newId);
      if Create(st, data, newId).Threw? {
        AccountRefused(tokens, files, st, cookie, data, avatar, newId);
      }
    }
  }

  /**
   * When the hash succeeds and the database accepts the row, `register`
   * adds exactly that one row, and it stays even when a later step (the
   * avatar, minting) fails: nothing is rolled back. Rows already there are
   * left as they were. Apart from its avatar the new row holds the
   * normalised fields.
   */
  lemma RegisterStoresNormalisedRow(
    argon2: Argon2, tokens: TokensService, files: FileService, st: StoreState,
    cookie: Option<string>, input: RegisterUserInput, avatar: Option<FileUpload>, newId: UserId)
    requires RowCreated(argon2, st, input, newId)
    ensures var run := RegisterSpec(argon2, tokens, files, st, cookie, input, avatar, newId);
            |run.users| == |st.users| + 1 && run.users[..|st.users|] == st.users &&
            run.users[|st.users|].(avatar := None) == RegisteredRow(argon2, input, newId)
  {
    var data := RegistrationData(input, argon2.hash(Trim(input.password)).value);
    CreateOutcome(st, data, newId);
    AccountRowKept(tokens, files, st, cookie, data, avatar, newId);
  }

  /**
   * After a successful registration the new row's avatar is the path the
   * file service gave for the uploaded file, or none when no file was sent.
   */
  lemma RegisterStoresAvatar(
    argon2: Argon2, tokens: TokensService, files: FileService, st: StoreState,
    cookie: Option<string>, input: RegisterUserInput, avatar: Option<FileUpload>, newId: UserId)
    requires RegisterSpec(argon2, tokens, files, st, cookie, input, avatar, newId).outcome.Authenticated?
    ensures RowCreated(argon2, st, input, newId)
    ensures var run := RegisterSpec(argon2, tokens, files, st, cookie, input, avatar, newId);
            |run.users| == |st.users| + 1 &&
            var avatarPath := run.users[|st.users|].avatar;
            if avatar.None? then avatarPath == None
            else avatarPath.Some? && files.createUserAvatar(newId, avatar.value) == Ok(avatarPath.value)
  {
    var data := RegistrationData(input, argon2.hash(Trim(input.password)).value);
    CreateOutcome(st, data, newId);
    AccountAvatar(tokens, files, st, cookie, data, avatar, newId);
  }

  /**
   * A registration under an email that already has a row is refused with
   * the email field error and adds no row (when the hash and the fresh id
   * are fine and the database is up).
   */
  lemma RegisterDuplicateEmail(
    argon2: Argon2, tokens: TokensService, files: FileService, st: StoreState,
    cookie: Option<string>, input: RegisterUserInput, avatar: Option<FileUpload>, newId: UserId)
    requires argon2.hash(Trim(input.password)).Ok?
    requires CreateUser !in st.failing && !IdTaken(st.users, newId)
    requires EmailTaken(st.users, input.email)
    ensures RegisterSpec(argon2, tokens, files, st, cookie, input, avatar, newId) ==
            Run(BadRequest(EmailField, EmailInUseMessage), st.users, cookie)
  {
    var data := RegistrationData(input, argon2.hash(Trim(input.password)).value);
    assert Create(st, data, newId) == Threw(UniqueViolation("email"));
    AccountRefused(tokens, files, st, cookie, data, avatar, newId);
  }

  /**
   * The email field error is reported exactly for a unique-constraint
   * violation whose target names `email`, whichever step threw it.
   */
  lemma RegisterCatchReportsEmailOnly(e: Thrown)
    ensures RegisterCatch(e) == BadRequest(EmailField, EmailInUseMessage) <==>
            e.code == Some(UniqueConstraintViolation) && "email" in e.target
    ensures RegisterCatch(e) != BadRequest(EmailField, EmailInUseMessage) ==> RegisterCatch(e) == InternalServerError
  {
  }

  /**
   * A successful registration mints the pair for the payload holding the
   * new id and no universities (even when the database already lists
   * memberships under that id); the caller gets that pair's access token
   * and the cookie gets its refresh token. A failed one leaves the cookie.
   */
  lemma RegisterMintsEmptyScopes(
    argon2: Argon2, tokens: TokensService, files: FileService, st: StoreState,
    cookie: Option<string>, input: RegisterUserInput, avatar: Option<FileUpload>, newId: UserId)
    ensures var run := RegisterSpec(argon2, tokens, files, st, cookie, input, avatar, newId);
            var minted := tokens.generateTokens(TokensPayload(PayloadUser(newId, map[], map[]), map[]));
            (run.outcome.Authenticated? ==>
               minted.Ok? &&
               run.outcome.auth == Authentication(minted.value.accessToken) &&
               run.cookie == Some(minted.value.refreshToken)) &&
            (!run.outcome.Authenticated? ==> run.cookie == cookie)
  {
    var hashed := argon2.hash(Trim(input.password));
    if hashed.Ok? {
      AccountCookie(tokens, files, st, cookie, RegistrationData(input, hashed.value), avatar, newId);
    }
  }

  /**
   * Registering the same email twice: the second call is refused with the
   * email field error and adds no row (when its hash and its fresh id are
   * fine).
   */
  lemma RegisterTwice(
    argon2: Argon2, tokens: TokensService, files: FileService, st: StoreState,
    cookie: Option<string>, input: RegisterUserInput, avatar: Option<FileUpload>, newId: UserId,
    again: RegisterUserInput, avatar2: Option<FileUpload>, newId2: UserId)
    requires RowCreated(argon2, st, input, newId)
    requires again.email == input.email && argon2.hash(Trim(again.password)).Ok?
    requires newId2 != newId && !IdTaken(st.users, newId2)
    ensures var first := RegisterSpec(argon2, tokens, files, st, cookie, input, avatar, newId);
            RegisterSpec(argon2, tokens, files, st.(users := first.users), first.cookie, again, avatar2, newId2) ==
              Run(BadRequest(EmailField, EmailInUseMessage), first.users, first.cookie)
  {
    var first := RegisterSpec(argon2, tokens, files, st, cookie, input, avatar, newId);
    RegisterStoresNormalisedRow(argon2, tokens, files, st, cookie, input, avatar, newId);
    AppendedRowFound(st.users, first.users);
    AppendedRowIdFree(st.users, first.users, newId2);
    RegisterDuplicateEmail(argon2, tokens, files, st.(users := first.users), first.cookie, again, avatar2, newId2);
  }

  /* ----- login ----- */

  /**
   * `login` reports the email field error exactly when the lookup succeeds
   * and finds no row with that email.
   */
  lemma LoginUnknownEmail(argon2: Argon2, tokens: TokensService, st: StoreState, cookie: Option<string>, input: LoginUserInput)
    ensures LoginSpec(argon2, tokens, st, cookie, input).outcome == BadRequest(EmailField, NoUserMessage) <==>
            FindUser !in st.failing && !EmailTaken(st.users, input.email)
  {
  }

  /**
   * `login` reports the password field error exactly when the row is found
   * and verifying the password as given (untrimmed) against its hash says
   * no, or throws an error whose message is the one `login` itself throws
   * on a mismatch. Any other error from verification is an internal error.
   */
  lemma LoginWrongPassword(argon2: Argon2, tokens: TokensService, st: StoreState, cookie: Option<string>, input: LoginUserInput)
    ensures var o := LoginSpec(argon2, tokens, st, cookie, input).outcome;
            o == BadRequest(PasswordField, IncorrectPasswordMessage) <==>
              FindUser !in st.failing && EmailTaken(st.users, input.email) &&
              var verified := argon2.verify(FindByEmail(st.users, input.email).value.password, input.password);
              verified == Ok(false) || (verified.Threw? && verified.error.message == IncorrectPasswordSignal)
    ensures var o := LoginSpec(argon2, tokens, st, cookie, input).outcome;
            o == InternalServerError <==>
              FindUser !in st.failing && EmailTaken(st.users, input.email) &&
              var verified := argon2.verify(FindByEmail(st.users, input.email).value.password, input.password);
              verified.Threw? && verified.error.message != IncorrectPasswordSignal
  {
  }

  /**
   * A successful login found the row for the email, verified the password
   * exactly as given, and minted the pair for the payload holding the row's
   * id and one scope entry per university the user is a member of.
   */
  lemma LoginSuccessPayload(argon2: Argon2, tokens: TokensService, st: StoreState, cookie: Option<string>, input: LoginUserInput)
    requires LoginSpec(argon2, tokens, st, cookie, input).outcome.Authenticated?
    ensures var run := LoginSpec(argon2, tokens, st, cookie, input);
            FindUser !in st.failing && FindMemberships !in st.failing &&
            FindByEmail(st.users, input.email).Some? &&
            var u := FindByEmail(st.users, input.email).value;
            var scopes := UniversitiesScopes(MembershipsOf(st.universityUsers, u.id));
            var minted := tokens.generateTokens(TokensPayload(PayloadUser(u.id, scopes, map[]), map[]));
            u in st.users && u.email == input.email &&
            argon2.verify(u.password, input.password) == Ok(true) &&
            scopes.Keys == MemberUniversityIds(st.universityUsers, u.id) &&
            minted.Ok? &&
            run.outcome.auth == Authentication(minted.value.accessToken) &&
            run.cookie == Some(minted.value.refreshToken)
  {
    var u := FindByEmail(st.users, input.email).value;
    MembershipsOfUniversities(st.universityUsers, u.id);
  }

  /**
   * With unique emails, as the table guarantees, a successful login is a
   * login into the one row holding the email: any row with that email is the
   * one whose id and scopes were minted.
   */
  lemma LoginOnlyRowWithEmail(
    argon2: Argon2, tokens: TokensService, st: StoreState, cookie: Option<string>, input: LoginUserInput, i: int)
    requires UniqueUsers(st.users)
    requires 0 <= i < |st.users| && st.users[i].email == input.email
    requires LoginSpec(argon2, tokens, st, cookie, input).outcome.Authenticated?
    ensures var u := st.users[i];
            var minted := tokens.generateTokens(LoginPayload(u.id, UniversitiesScopes(MembershipsOf(st.universityUsers, u.id))));
            minted.Ok? && LoginSpec(argon2, tokens, st, cookie, input).outcome.auth == Authentication(minted.value.accessToken)
  {
    FindByEmailOnlyRow(st.users, input.email, i);
    LoginSuccessPayload(argon2, tokens, st, cookie, input);
  }

  /** `login` changes no row, and lets through only the exceptions of the lookups and of minting. */
  lemma LoginOutcomes(argon2: Argon2, tokens: TokensService, st: StoreState, cookie: Option<string>, input: LoginUserInput)
    ensures var run := LoginSpec(argon2, tokens, st, cookie, input);
            run.users == st.users &&
            (run.outcome.Uncaught? ==>
              run.outcome.error == Unreachable || exists p :: tokens.generateTokens(p) == Threw(run.outcome.error))
  {
    var run := LoginSpec(argon2, tokens, st, cookie, input);
    if run.outcome.Uncaught? && run.outcome.error != Unreachable {
      var u := FindByEmail(st.users, input.email).value;
      var scopes := UniversitiesScopes(MembershipsOf(st.universityUsers, u.id));
      assert tokens.generateTokens(LoginPayload(u.id, scopes)) == Threw(run.outcome.error);
    }
  }

  /**
   * The hasher is faithful: hashing never fails, and a hash verifies
   * against exactly the text it was made from.
   */
  ghost predicate FaithfulHasher(argon2: Argon2)
  {
    forall p, q :: argon2.hash(p).Ok? && argon2.verify(argon2.hash(p).value, q) == Ok(p == q)
  }

  /**
   * With a faithful hasher, a login whose email finds a row holding the
   * hash of `registered` gets past the password check exactly when the
   * typed password is `registered` itself.
   */
  lemma LoginChecksStoredHash(
    argon2: Argon2, tokens: TokensService, st: StoreState, cookie: Option<string>,
    input: LoginUserInput, row: User, registered: string)
    requires FaithfulHasher(argon2)
    requires FindUser !in st.failing && FindByEmail(st.users, input.email) == Some(row)
    requires argon2.hash(registered).Ok? && row.password == argon2.hash(registered).value
    ensures var o := LoginSpec(argon2, tokens, st, cookie, input).outcome;
            o == BadRequest(PasswordField, IncorrectPasswordMessage) <==> input.password != registered
    ensures var o := LoginSpec(argon2, tokens, st, cookie, input).outcome;
            !o.BadRequest? && o != InternalServerError <==> input.password == registered
  {
    assert argon2.verify(row.password, input.password) == Ok(registered == input.password);
  }

  /**
   * Logging in after a successful registration, with a faithful hasher:
   * `register` stored the hash of the trimmed password while `login`
   * verifies the password as typed, so the login gets past the password
   * check exactly when the typed password equals the trimmed registration
   * password. In particular a password registered with surrounding
   * whitespace is refused when typed again exactly the same way.
   */
  lemma LoginAfterRegister(
    argon2: Argon2, tokens: TokensService, files: FileService, st: StoreState,
    cookie: Option<string>, input: RegisterUserInput, avatar: Option<FileUpload>, newId: UserId,
    tokens2: TokensService, password: string)
    requires FaithfulHasher(argon2)
    requires RowCreated(argon2, st, input, newId)
    requires FindUser !in st.failing
    ensures var first := RegisterSpec(argon2, tokens, files, st, cookie, input, avatar, newId);
            var o := LoginSpec(argon2, tokens2, st.(users := first.users), first.cookie, LoginUserInput(input.email, password)).outcome;
            o == BadRequest(PasswordField, IncorrectPasswordMessage) <==> password != Trim(input.password)
    ensures var first := RegisterSpec(argon2, tokens, files, st, cookie, input, avatar, newId);
            var o := LoginSpec(argon2, tokens2, st.(users := first.users), first.cookie, LoginUserInput(input.email, password)).outcome;
            !o.BadRequest? && o != InternalServerError <==> password == Trim(input.password)
  {
    var first := RegisterSpec(argon2, tokens, files, st, cookie, input, avatar, newId);
    RegisterStoresNormalisedRow(argon2, tokens, files, st, cookie, input, avatar, newId);
    AppendedRowFound(st.users, first.users);
    var row := first.users[|st.users|];
    LoginChecksStoredHash(argon2, tokens2, st.(users := first.users), first.cookie,
                          LoginUserInput(input.email, password), row, Trim(input.password));
  }

  /* ----- refreshTokens ----- */

  /**
   * A successful refresh decoded the request's cookie as a refresh token
   * and minted the pair for the decoded payload with only
   * `user.universities` replaced, by the scopes the database gives now.
   */
  lemma RefreshReplacesOnlyScopes(tokens: TokensService, st: StoreState, cookie: Option<string>, req: Request)
    requires RefreshSpec(tokens, st, cookie, req).outcome.Authenticated?
    ensures var run := RefreshSpec(tokens, st, cookie, req);
            var decoded := tokens.getPayloadFromToken(req.refreshTokenCookie, Refresh);
            decoded.Ok? && FindMemberships !in st.failing &&
            var prev := decoded.value;
            var scopes := UniversitiesScopes(MembershipsOf(st.universityUsers, prev.user.id));
            var next := TokensPayload(PayloadUser(prev.user.id, scopes, prev.user.otherFields), prev.otherFields);
            var minted := tokens.generateTokens(next);
            scopes.Keys == MemberUniversityIds(st.universityUsers, prev.user.id) &&
            minted.Ok? &&
            run.outcome.auth == Authentication(minted.value.accessToken) &&
            run.cookie == Some(minted.value.refreshToken) &&
            run.users == st.users
  {
    var prev := tokens.getPayloadFromToken(req.refreshTokenCookie, Refresh).value;
    MembershipsOfUniversities(st.universityUsers, prev.user.id);
  }

  /**
   * The scopes carried by the old refresh token play no part: two decoders
   * that agree on everything but `user.universities` lead to the same run.
   * So a membership revoked since the token was minted is gone from the
   * new tokens.
   */
  lemma RefreshIgnoresStaleScopes(
    generate: TokensPayload -> Try<TokenPair>,
    decode1: (Option<string>, TokenKind) -> Try<TokensPayload>,
    decode2: (Option<string>, TokenKind) -> Try<TokensPayload>,
    st: StoreState, cookie: Option<string>, req: Request)
    requires decode1(req.refreshTokenCookie, Refresh).Ok? && decode2(req.refreshTokenCookie, Refresh).Ok?
    requires var p1 := decode1(req.refreshTokenCookie, Refresh).value;
             var p2 := decode2(req.refreshTokenCookie, Refresh).value;
             p1.(user := p1.user.(universities := map[])) == p2.(user := p2.user.(universities := map[]))
    ensures RefreshSpec(TokensService(generate, decode1), st, cookie, req) ==
            RefreshSpec(TokensService(generate, decode2), st, cookie, req)
  {
    var p1 := decode1(req.refreshTokenCookie, Refresh).value;
    var p2 := decode2(req.refreshTokenCookie, Refresh).value;
    assert p1.user.id == p1.(user := p1.user.(universities := map[])).user.id;
    assert p1.user.id == p2.user.id;
    if FindMemberships !in st.failing {
      var u := UniversitiesScopes(MembershipsOf(st.universityUsers, p1.user.id));
      assert RefreshedPayload(p1, u) == RefreshedPayload(p1, u).(user := RefreshedPayload(p1, u).user.(universities := u));
      assert RefreshedPayload(p1, u) == RefreshedPayload(p2, u) by {
        assert p1.otherFields == p2.otherFields;
        assert p1.user.otherFields == p2.user.otherFields;
      }
    }
  }

  /**
   * `refreshTokens` catches nothing: a token that fails to decode ends the
   * call with that very exception, and no call ends in a field error or an
   * internal error.
   */
  lemma RefreshDecodeFailure(tokens: TokensService, st: StoreState, cookie: Option<string>, req: Request)
    ensures var decoded := tokens.getPayloadFromToken(req.refreshTokenCookie, Refresh);
            decoded.Threw? ==> RefreshSpec(tokens, st, cookie, req) == Run(Uncaught(decoded.error), st.users, cookie)
    ensures var o := RefreshSpec(tokens, st, cookie, req).outcome;
            o.Authenticated? || o.Uncaught?
  {
  }

  /* ----- all three ----- */

  /**
   * `login` and `refreshTokens` write the refresh-token cookie only when
   * they succeed; a call that ends in any error leaves it as it was.
   */
  lemma FailureLeavesCookie(
    argon2: Argon2, tokens: TokensService, st: StoreState, cookie: Option<string>,
    login: LoginUserInput, req: Request)
    ensures var run := LoginSpec(argon2, tokens, st, cookie, login);
            (!run.outcome.Authenticated? ==> run.cookie == cookie) && (run.outcome.Authenticated? ==> run.cookie.Some?)
    ensures var run := RefreshSpec(tokens, st, cookie, req);
            (!run.outcome.Authenticated? ==> run.cookie == cookie) && (run.outcome.Authenticated? ==> run.cookie.Some?)
  {
  }
}
