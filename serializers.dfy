/**
 * Input validation of api/serializers.py as functions from the request data
 * (and, where a serializer queries the database, the stored rows) to either
 * the accepted values or a validation error. An absent key is None.
 */
module Serializers {
  import opened Wrappers
  import opened Errors
  import opened Users
  import opened Catalog
  import opened Permissions

  /** A required CharField with max_length n; blank strings are refused. */
  predicate RequiredText(v: Option<string>, maxLength: nat)
  {
    v.Some? && 0 < |v.value| <= maxLength
  }

  /** A CharField the client may leave out; when given it is non-blank and at most n long. */
  predicate OptionalText(v: Option<string>, maxLength: nat)
  {
    v.None? || 0 < |v.value| <= maxLength
  }

  /**
   * validate_username, written identically in MeSerializer and in
   * ConfirmationCodeSerializer (and inherited by AdminUserSerializer).
   */
  function ValidateUsername(value: string): (r: Result<string, ApiError>)
    ensures r.Err? <==> value == "me"
    ensures r.Err? ==> r.error == ValidationError
    ensures r.Ok? ==> r.value == value
  {
    if value == "me" then Err(ValidationError) else Ok(value)
  }

  // ---------------------------------------------------------------- signup

  datatype SignupRequest = SignupRequest(username: Option<string>, email: Option<string>, confirmationCode: Option<string>)

  datatype Identity = Identity(username: string, email: string)

  /** ConfirmationCodeSerializer.is_valid(): the (username, email) pair a signup asks for. */
  function ValidateSignup(req: SignupRequest): (r: Result<Identity, ApiError>)
    ensures r.Ok? <==>
      && req.username.Some? && 0 < |req.username.value| <= 150 && req.username.value != "me"
      && req.email.Some? && 0 < |req.email.value| <= 254
      && (req.confirmationCode.Some? ==> 0 < |req.confirmationCode.value| <= 150)
    ensures r.Ok? ==> r.value == Identity(req.username.value, req.email.value)
    ensures r.Err? ==> r.error == ValidationError
  {
    if !RequiredText(req.username, UsernameMaxLength) || !RequiredText(req.email, EmailMaxLength)
       || !OptionalText(req.confirmationCode, 150)
    then Err(ValidationError)
    else
      match ValidateUsername(req.username.value)
      case Err(e) => Err(e)
      case Ok(name) => Ok(Identity(name, req.email.value))
  }

  /** A signup for the reserved name "me" is refused whatever else it carries. */
  lemma SignupAsMeRejected(req: SignupRequest)
    requires req.username == Some("me")
    ensures ValidateSignup(req) == Err(ValidationError)
  {
  }

  datatype TokenRequest = TokenRequest(username: Option<string>, confirmationCode: Option<string>)

  /**
   * JWTTokenSerializer.is_valid(): both fields are required and at most 150
   * long. It has no validate_username, so "me" passes here.
   */
  function ValidateTokenRequest(req: TokenRequest): (r: Result<(string, string), ApiError>)
    ensures r.Ok? <==> RequiredText(req.username, 150) && RequiredText(req.confirmationCode, 150)
    ensures r.Ok? ==> r.value == (req.username.value, req.confirmationCode.value)
    ensures r.Err? ==> r.error == ValidationError
  {
    if RequiredText(req.username, UsernameMaxLength) && RequiredText(req.confirmationCode, 150)
    then Ok((req.username.value, req.confirmationCode.value))
    else Err(ValidationError)
  }

  // ------------------------------------------------------- account profiles

  /**
   * The data a client sends to the profile endpoints; role is read only by
   * AdminUserSerializer. bio is nullable (null=True): None means the key was
   * left out, Some(None) that it was sent as null.
   */
  datatype ProfileInput = ProfileInput(
    username: Option<string>,
    email: Option<string>,
    firstName: Option<string>,
    lastName: Option<string>,
    bio: Option<Option<string>>,
    role: Option<string>)

  /** Some account other than self holds this username (UniqueValidator leaves out the instance edited). */
  predicate UsernameTaken(users: map<nat, User>, name: string, self: Option<nat>)
  {
    exists k :: k in users && Some(k) != self && users[k].username == name
  }

  predicate EmailTaken(users: map<nat, User>, email: string, self: Option<nat>)
  {
    exists k :: k in users && Some(k) != self && users[k].email == email
  }

  /** The username field of MeSerializer: max_length 150, unique, not "me"; required unless partial. */
  predicate UsernameFieldOk(users: map<nat, User>, self: Option<nat>, v: Option<string>, partial: bool)
  {
    match v
    case None => partial
    case Some(name) =>
      0 < |name| <= UsernameMaxLength && ValidateUsername(name).Ok? && !UsernameTaken(users, name, self)
  }

  /** The email field of MeSerializer: unique; required unless partial. */
  predicate EmailFieldOk(users: map<nat, User>, self: Option<nat>, v: Option<string>, partial: bool)
  {
    match v
    case None => partial
    case Some(e) => 0 < |e| && !EmailTaken(users, e, self)
  }

  /** first_name and last_name: the model's max_length 150, blank allowed. */
  predicate PersonNameOk(v: Option<string>)
  {
    v.None? || |v.value| <= PersonNameMaxLength
  }

  /**
   * MeSerializer.is_valid() on the data of a request about account self (None
   * on creation). role is read-only here: whatever the client sends for it
   * does not affect the outcome.
   */
  function ValidateProfile(users: map<nat, User>, self: Option<nat>, input: ProfileInput, partial: bool): (r: Result<(), ApiError>)
    ensures r.Ok? <==>
      && UsernameFieldOk(users, self, input.username, partial)
      && EmailFieldOk(users, self, input.email, partial)
      && PersonNameOk(input.firstName) && PersonNameOk(input.lastName)
    ensures r.Err? ==> r.error == ValidationError
  {
    if UsernameFieldOk(users, self, input.username, partial) && EmailFieldOk(users, self, input.email, partial)
       && PersonNameOk(input.firstName) && PersonNameOk(input.lastName)
    then Ok(())
    else Err(ValidationError)
  }

  /** The role a client sends to the self profile changes neither the verdict nor the saved account. */
  lemma ProfileIgnoresRole(users: map<nat, User>, self: Option<nat>, input: ProfileInput, partial: bool, role: Option<string>, u: User)
    ensures ValidateProfile(users, self, input.(role := role), partial) == ValidateProfile(users, self, input, partial)
    ensures ApplyProfile(u, input.(role := role)) == ApplyProfile(u, input)
    ensures ApplyProfile(u, input.(role := role)).role == u.role
  {
  }

  /** A reserved username never passes profile validation. */
  lemma ProfileAsMeRejected(users: map<nat, User>, self: Option<nat>, input: ProfileInput, partial: bool)
    requires input.username == Some("me")
    ensures ValidateProfile(users, self, input, partial) == Err(ValidationError)
  {
  }

  function Pick<T>(given: Option<T>, current: T): T
  {
    if given.Some? then given.value else current
  }

  /**
   * MeSerializer.save() on account u: every declared field the client sent
   * replaces the stored one. The role and the staff flag stay as they were.
   */
  function ApplyProfile(u: User, input: ProfileInput): (r: User)
    ensures r.id == u.id && r.role == u.role && r.isStaff == u.isStaff
    ensures r.username == (if input.username.Some? then input.username.value else u.username)
    ensures r.email == (if input.email.Some? then input.email.value else u.email)
    ensures r.firstName == (if input.firstName.Some? then input.firstName.value else u.firstName)
    ensures r.lastName == (if input.lastName.Some? then input.lastName.value else u.lastName)
    ensures r.bio == (if input.bio.Some? then input.bio.value else u.bio)
    ensures input.bio == Some(None) ==> r.bio.None?
    ensures input == ProfileInput(None, None, None, None, None, input.role) ==> r == u
  {
    u.(username := Pick(input.username, u.username),
       email := Pick(input.email, u.email),
       firstName := Pick(input.firstName, u.firstName),
       lastName := Pick(input.lastName, u.lastName),
       bio := Pick(input.bio, u.bio))
  }

  /**
   * The role field of AdminUserSerializer: a ChoiceField over User.CHOICES
   * with default USER. The default applies whenever the update is not
   * partial, so a full update without a role resets it to "user".
   */
  function AdminRoleField(given: Option<string>, partial: bool, current: Role): (r: Result<Role, ApiError>)
    ensures given.Some? ==> (r.Ok? <==> exists x: Role :: RoleKey(x) == given.value)
    ensures given.Some? && r.Ok? ==> RoleKey(r.value) == given.value
    ensures given.None? ==> r == Ok(if partial then current else DefaultRole)
    ensures r.Err? ==> r.error == ValidationError
  {
    match given
    case None => Ok(if partial then current else DefaultRole)
    case Some(s) =>
      match ParseRole(s)
      case None => Err(ValidationError)
      case Some(x) => Ok(x)
  }

  /** AdminUserSerializer.is_valid(): the profile fields plus the role. */
  function ValidateAdminProfile(users: map<nat, User>, self: Option<nat>, input: ProfileInput, partial: bool, current: Role): (r: Result<Role, ApiError>)
    ensures r.Ok? <==> ValidateProfile(users, self, input, partial).Ok? && AdminRoleField(input.role, partial, current).Ok?
    ensures r.Ok? ==> r == AdminRoleField(input.role, partial, current)
    ensures r.Err? ==> r.error == ValidationError
  {
    match ValidateProfile(users, self, input, partial)
    case Err(e) => Err(e)
    case Ok(_) => AdminRoleField(input.role, partial, current)
  }

  /** AdminUserSerializer.save() on an existing account: the profile fields and then the role. */
  function ApplyAdminProfile(u: User, input: ProfileInput, role: Role): (r: User)
    ensures r.id == u.id && r.isStaff == u.isStaff && r.role == role
    ensures r.(role := u.role) == ApplyProfile(u, input)
  {
    ApplyProfile(u, input).(role := role)
  }

  /**
   * AdminUserSerializer.save() creating account id from validated data: the
   * fields left out get the model's defaults (empty names, no bio) and the
   * staff flag is off.
   */
  function NewAccount(id: nat, input: ProfileInput, role: Role): (u: User)
    requires input.username.Some? && input.email.Some?
    ensures u.id == id && u.role == role && !u.isStaff
    ensures u.username == input.username.value && u.email == input.email.value
    ensures u.firstName == (if input.firstName.Some? then input.firstName.value else "")
    ensures u.lastName == (if input.lastName.Some? then input.lastName.value else "")
    ensures u.bio == (if input.bio.Some? then input.bio.value else None)
  {
    User(id, input.username.value, input.email.value,
         Pick(input.firstName, ""), Pick(input.lastName, ""), Pick(input.bio, None), role, false)
  }

  /** The account get_or_create makes on signup: the pair, the default role, no staff flag. */
  function SignupAccount(id: nat, who: Identity): (u: User)
    ensures u.id == id && u.username == who.username && u.email == who.email
    ensures u.role == DefaultRole && !u.isStaff && !IsAdmin(u) && !IsModerator(u)
  {
    User(id, who.username, who.email, "", "", None, DefaultRole, false)
  }

  // --------------------------------------------------- reviews and comments

  /**
   * The data a client sends for a review. author and title may be present in
   * the request but the serializer never reads them (author is read-only,
   * title is excluded).
   */
  datatype ReviewInput = ReviewInput(text: Option<string>, score: Option<int>, author: Option<nat>, title: Option<nat>)

  datatype CommentInput = CommentInput(text: Option<string>, author: Option<nat>, review: Option<nat>)

  /** Some review by this author on this title is stored. */
  predicate HasReviewBy(reviews: map<nat, Review>, authorId: nat, titleId: nat)
  {
    exists k :: k in reviews && reviews[k].author == authorId && reviews[k].title == titleId
  }

  /** The declared fields of ReviewSerializer: text non-blank, score in 1..10; both required unless partial. */
  predicate ReviewFieldsOk(input: ReviewInput, partial: bool)
  {
    (if input.text.None? then partial else |input.text.value| > 0)
    && (if input.score.None? then partial else ValidScore(input.score.value))
  }

  /**
   * ReviewSerializer.is_valid() for request method m by the given author
   * under title titleId: the fields, then validate(), which refuses a POST
   * when that author already reviewed that title.
   */
  function ValidateReview(reviews: map<nat, Review>, authorId: nat, titleId: nat, m: Method, input: ReviewInput, partial: bool): (r: Result<(), ApiError>)
    ensures r.Ok? <==> ReviewFieldsOk(input, partial) && !(m == POST && HasReviewBy(reviews, authorId, titleId))
    ensures r.Err? ==> r.error == ValidationError
  {
    if !ReviewFieldsOk(input, partial) then Err(ValidationError)
    else if HasReviewBy(reviews, authorId, titleId) && m == POST then Err(ValidationError)
    else Ok(())
  }

  /** A second review by one author on one title is refused; updates are not. */
  lemma SecondReviewRejected(reviews: map<nat, Review>, k: nat, m: Method, input: ReviewInput, partial: bool)
    requires k in reviews
    ensures m == POST ==> ValidateReview(reviews, reviews[k].author, reviews[k].title, m, input, partial) == Err(ValidationError)
    ensures m != POST && ReviewFieldsOk(input, partial) ==> ValidateReview(reviews, reviews[k].author, reviews[k].title, m, input, partial) == Ok(())
  {
    assert HasReviewBy(reviews, reviews[k].author, reviews[k].title);
  }

  /** What a client sends as author or parent reaches neither serializer's verdict. */
  lemma ClientAuthorAndParentIgnored(reviews: map<nat, Review>, authorId: nat, titleId: nat, m: Method,
                                     input: ReviewInput, partial: bool, a: Option<nat>, t: Option<nat>,
                                     c: CommentInput, v: Option<nat>)
    ensures ValidateReview(reviews, authorId, titleId, m, input.(author := a, title := t), partial)
         == ValidateReview(reviews, authorId, titleId, m, input, partial)
    ensures ValidateComment(c.(author := a, review := v), partial) == ValidateComment(c, partial)
  {
  }

  /** CommentSerializer.is_valid(): text non-blank, required unless partial. */
  function ValidateComment(input: CommentInput, partial: bool): (r: Result<(), ApiError>)
    ensures r.Ok? <==> (if input.text.None? then partial else |input.text.value| > 0)
  {
    if input.text.None? then (if partial then Ok(()) else Err(ValidationError))
    else if |input.text.value| > 0 then Ok(())
    else Err(ValidationError)
  }

  // ------------------------------------------------------------- catalogue

  /**
   * The data TitlePostSerializer reads: category is a slug (required), genres
   * a list of slugs (required, may be empty). description is nullable:
   * None means the key was left out, Some(None) that it was sent as null.
   */
  datatype TitleInput = TitleInput(
    name: Option<string>,
    year: Option<int>,
    description: Option<Option<string>>,
    category: Option<string>,
    genres: Option<seq<string>>)

  /**
   * The fields of TitlePostSerializer that need no lookup: name non-blank,
   * year in 0..currentYear, description up to 256, null or absent, and the two
   * slug fields present. On a partial update any of them may be left out.
   */
  predicate TitleFieldsOk(input: TitleInput, currentYear: nat, partial: bool)
  {
    && (if input.name.None? then partial else |input.name.value| > 0)
    && (if input.year.None? then partial else ValidYear(input.year.value, currentYear))
    && (input.description.None? || input.description.value.None? || |input.description.value.value| <= DescriptionMaxLength)
    && (input.category.Some? || partial)
    && (input.genres.Some? || partial)
  }

  /** CategorySerializer and GenreSerializer: name up to 256, a unique slug up to 50. */
  predicate NameAndSlugOk(name: Option<string>, slug: Option<string>, slugTaken: bool)
  {
    RequiredText(name, CatalogNameMaxLength) && RequiredText(slug, SlugMaxLength) && IsSlug(slug.value) && !slugTaken
  }
}
