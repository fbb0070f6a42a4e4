/**
 * The request handlers of api/views.py over a Store: each checks the
 * permission of its viewset first, then validates the request data, then
 * looks the objects of the URL up, and finally writes through one primitive
 * of the store. Every failure leaves the store as it was, except a mail
 * failure after signup, which keeps the account created.
 */
module Views {
  import opened Wrappers
  import opened Errors
  import opened Users
  import opened Catalog
  import opened Permissions
  import opened Serializers
  import opened Database

  /**
   * How Django REST framework answers a request its permissions refuse:
   * NotAuthenticated (401) for the anonymous user, PermissionDenied (403)
   * for a signed-in one.
   */
  function Refusal(p: Principal): (e: ApiError)
    ensures e == NotAuthenticated <==> p.Anonymous?
    ensures e == PermissionDenied <==> p.Authenticated?
  {
    if p.Anonymous? then NotAuthenticated else PermissionDenied
  }

  /** The account a signed-in principal stands for is stored (authentication loaded it). */
  ghost predicate ActorStored(s: Store, p: Principal)
    reads s`users
  {
    p.Authenticated? ==> p.user.id in s.users
  }

  // ---------------------------------------------------------------- signup

  /** What get_or_create(username=..., email=...) meets for a validated pair. */
  datatype SignupCase = Existing(id: nat) | Fresh | Conflict

  /**
   * Existing: an account has exactly this pair. Fresh: neither the username
   * nor the email is taken, so the row can be inserted. Conflict: one of them
   * belongs to an account without the other, and the insert breaks a
   * unique constraint.
   */
  function SignupCaseOf(users: map<nat, User>, who: Identity): (c: SignupCase)
    requires UsersOk(users)
    ensures c.Existing? <==> exists k :: k in users && users[k].username == who.username && users[k].email == who.email
    ensures c.Existing? ==> c.id in users && users[c.id].username == who.username && users[c.id].email == who.email
    ensures c == Fresh <==> !UsernameTaken(users, who.username, None) && !EmailTaken(users, who.email, None)
  {
    match UserNamed(users, who.username)
    case Some(k) =>
      if users[k].email == who.email then Existing(k) else Conflict
    case None =>
      if EmailTaken(users, who.email, None) then Conflict else Fresh
  }

  /** A username held by an account with another email, or an email held under another username, is a conflict. */
  lemma SignupConflicts(users: map<nat, User>, who: Identity, k: nat)
    requires UsersOk(users) && k in users
    requires (users[k].username == who.username) != (users[k].email == who.email)
    ensures SignupCaseOf(users, who) == Conflict
  {
    assert users[k].username == who.username ==> UsernameTaken(users, who.username, None);
    assert users[k].email == who.email ==> EmailTaken(users, who.email, None);
  }

  /** The account a non-conflicting signup ends with: the one found, or the one made under id. */
  function SignupTarget(users: map<nat, User>, who: Identity, id: nat): (u: User)
    requires UsersOk(users) && SignupCaseOf(users, who) != Conflict
    ensures u.username == who.username && u.email == who.email
    ensures SignupCaseOf(users, who) == Fresh ==> u == SignupAccount(id, who)
  {
    match SignupCaseOf(users, who)
    case Existing(k) => users[k]
    case Fresh => SignupAccount(id, who)
  }

  /**
   * send_confirmation_code: validate, get_or_create the account, mail it a
   * code made by make, and answer 201 for a new account or 200 for a known
   * one. mailOk says whether the mail server accepts the message; when it
   * does not the request fails, but an account created stays.
   */
  method SendConfirmationCode(s: Store, req: SignupRequest, make: User -> string, mailOk: bool)
      returns (r: Result<nat, ApiError>)
    requires s.Valid()
    modifies s`users, s`nextId, s`outbox
    ensures s.Valid()
    ensures ValidateSignup(req).Err? ==>
      r == Err(ValidationError) && s.users == old(s.users) && s.nextId == old(s.nextId) && s.outbox == old(s.outbox)
    ensures ValidateSignup(req).Ok? && SignupCaseOf(old(s.users), ValidateSignup(req).value) == Conflict ==>
      r == Err(ValidationError) && s.users == old(s.users) && s.nextId == old(s.nextId) && s.outbox == old(s.outbox)
    ensures ValidateSignup(req).Ok? && SignupCaseOf(old(s.users), ValidateSignup(req).value) != Conflict ==>
      var who := ValidateSignup(req).value;
      var created := SignupCaseOf(old(s.users), who) == Fresh;
      var u := SignupTarget(old(s.users), who, old(s.nextId));
      && s.users == (if created then old(s.users)[u.id := u] else old(s.users))
      && s.nextId == (if created then old(s.nextId) + 1 else old(s.nextId))
      && s.outbox == old(s.outbox) + (if mailOk then [Mail(who.email, make(u))] else [])
      && r == (if !mailOk then Err(DeliveryFailed) else if created then Ok(201) else Ok(200))
  {
    var v := ValidateSignup(req);
    if v.Err? {
      return Err(ValidationError);
    }
    var who := v.value;
    var c := SignupCaseOf(s.users, who);
    if c == Conflict {
      return Err(ValidationError);
    }
    var u := SignupTarget(s.users, who, s.nextId);
    var status: nat := 200;
    if c == Fresh {
      s.InsertUser(u);
      status := 201;
    }
    if mailOk {
      s.Deliver(Mail(u.email, make(u)));
      r := Ok(status);
    } else {
      r := Err(DeliveryFailed);
    }
  }

  /**
   * get_jwt_token: validate, find the account by username (404 otherwise),
   * and hand out issue(account) when check accepts the code for it.
   */
  function GetJwtToken(users: map<nat, User>, req: TokenRequest, check: (User, string) -> bool, issue: User -> string)
      : (r: Result<string, ApiError>)
    requires UsersOk(users)
    ensures ValidateTokenRequest(req).Err? ==> r == Err(ValidationError)
    ensures r == Err(NotFound) <==>
      ValidateTokenRequest(req).Ok? && forall k :: k in users ==> users[k].username != req.username.value
    ensures r.Ok? <==>
      && ValidateTokenRequest(req).Ok?
      && exists k :: k in users && users[k].username == req.username.value && check(users[k], req.confirmationCode.value)
    ensures r.Ok? ==> exists k :: k in users && users[k].username == req.username.value && r.value == issue(users[k])
    ensures r.Err? ==> r.error == ValidationError || r.error == NotFound
  {
    match ValidateTokenRequest(req)
    case Err(e) => Err(e)
    case Ok((name, code)) =>
      match UserNamed(users, name)
      case None => Err(NotFound)
      case Some(k) => if check(users[k], code) then Ok(issue(users[k])) else Err(ValidationError)
  }

  // --------------------------------------------------------------- users/me

  /**
   * The me action: IsMe lets any signed-in principal in; the account is
   * looked up by the principal's username; GET answers it and PATCH
   * (patch is Some) saves a partial MeSerializer over it.
   */
  method Me(s: Store, p: Principal, patch: Option<ProfileInput>) returns (r: Result<User, ApiError>)
    requires s.Valid()
    modifies s`users
    ensures s.Valid()
    ensures p.Anonymous? ==> r == Err(NotAuthenticated) && s.users == old(s.users)
    ensures p.Authenticated? && UserNamed(old(s.users), p.user.username).None? ==>
      r == Err(NotFound) && s.users == old(s.users)
    ensures p.Authenticated? && UserNamed(old(s.users), p.user.username).Some? ==>
      var k := UserNamed(old(s.users), p.user.username).value;
      match patch
      case None => r == Ok(old(s.users)[k]) && s.users == old(s.users)
      case Some(input) =>
        if ValidateProfile(old(s.users), Some(k), input, true).Err? then
          r == Err(ValidationError) && s.users == old(s.users)
        else
          r == Ok(ApplyProfile(old(s.users)[k], input)) && s.users == old(s.users)[k := r.value]
    ensures s.users.Keys == old(s.users).Keys
    ensures forall k :: k in s.users ==> s.users[k].role == old(s.users)[k].role && s.users[k].isStaff == old(s.users)[k].isStaff
    ensures p.Authenticated? && p.user.id in old(s.users) && old(s.users)[p.user.id] == p.user ==>
      (r.Ok? && IsMeObject(p, r.value)) || r == Err(ValidationError)
  {
    if !IsMeAllows(p) {
      return Err(Refusal(p));
    }
    if p.user.id in s.users && s.users[p.user.id] == p.user {
      MeFindsOwnRecord(s.users, p);
    }
    var found := UserNamed(s.users, p.user.username);
    if found.None? {
      return Err(NotFound);
    }
    var k := found.value;
    if patch.None? {
      return Ok(s.users[k]);
    }
    var input := patch.value;
    if ValidateProfile(s.users, Some(k), input, true).Err? {
      return Err(ValidationError);
    }
    var u := ApplyProfile(s.users[k], input);
    s.UpdateUser(u);
    r := Ok(u);
  }

  /**
   * The lookup by username that /users/me/ does lands on the caller's own
   * record, so IsMe.has_object_permission holds for the object it serves.
   */
  lemma MeFindsOwnRecord(users: map<nat, User>, p: Principal)
    requires UsersOk(users) && p.Authenticated? && p.user.id in users && users[p.user.id] == p.user
    ensures UserNamed(users, p.user.username) == Some(p.user.id)
    ensures IsMeObject(p, users[p.user.id])
  {
    var found := UserNamed(users, p.user.username);
    assert found.Some? by {
      assert users[p.user.id].username == p.user.username;
    }
    var k := found.value;
    assert users[k].username == users[p.user.id].username;
    assert k == p.user.id;
  }

  // ------------------------------------------------------------------ users

  /** POST /users/: an administrator creates an account with the role sent, "user" by default. */
  method AdminCreateUser(s: Store, p: Principal, input: ProfileInput) returns (r: Result<User, ApiError>)
    requires s.Valid()
    modifies s`users, s`nextId
    ensures s.Valid()
    ensures !IsAdminRoleAllows(p) ==> r == Err(Refusal(p))
    ensures r.Ok? <==> IsAdminRoleAllows(p) && ValidateAdminProfile(old(s.users), None, input, false, DefaultRole).Ok?
    ensures r.Err? ==> s.users == old(s.users) && s.nextId == old(s.nextId)
    ensures IsAdminRoleAllows(p) && r.Err? ==> r.error == ValidationError
    ensures r.Ok? ==>
      && r.value == NewAccount(old(s.nextId), input, ValidateAdminProfile(old(s.users), None, input, false, DefaultRole).value)
      && r.value.role == (if input.role.Some? then ParseRole(input.role.value).value else DefaultRole)
      && s.users == old(s.users)[r.value.id := r.value] && s.nextId == old(s.nextId) + 1
  {
    if !IsAdminRoleAllows(p) {
      return Err(Refusal(p));
    }
    var v := ValidateAdminProfile(s.users, None, input, false, DefaultRole);
    if v.Err? {
      return Err(ValidationError);
    }
    var u := NewAccount(s.nextId, input, v.value);
    s.InsertUser(u);
    r := Ok(u);
  }

  /** PUT or PATCH /users/{username}/: an administrator edits an account, role included. */
  method AdminUpdateUser(s: Store, p: Principal, username: string, input: ProfileInput, partial: bool)
      returns (r: Result<User, ApiError>)
    requires s.Valid()
    modifies s`users
    ensures s.Valid()
    ensures !IsAdminRoleAllows(p) ==> r == Err(Refusal(p))
    ensures r.Err? ==> s.users == old(s.users)
    ensures IsAdminRoleAllows(p) && UserNamed(old(s.users), username).None? ==> r == Err(NotFound)
    ensures IsAdminRoleAllows(p) && UserNamed(old(s.users), username).Some? ==>
      var k := UserNamed(old(s.users), username).value;
      var v := ValidateAdminProfile(old(s.users), Some(k), input, partial, old(s.users)[k].role);
      && (v.Err? ==> r == Err(ValidationError))
      && (v.Ok? ==> r == Ok(ApplyAdminProfile(old(s.users)[k], input, v.value)) && s.users == old(s.users)[k := r.value])
  {
    if !IsAdminRoleAllows(p) {
      return Err(Refusal(p));
    }
    var found := UserNamed(s.users, username);
    if found.None? {
      return Err(NotFound);
    }
    var k := found.value;
    var v := ValidateAdminProfile(s.users, Some(k), input, partial, s.users[k].role);
    if v.Err? {
      return Err(ValidationError);
    }
    var u := ApplyAdminProfile(s.users[k], input, v.value);
    s.UpdateUser(u);
    r := Ok(u);
  }

  /** DELETE /users/{username}/: an administrator removes an account and what it wrote. */
  method AdminDestroyUser(s: Store, p: Principal, username: string) returns (r: Result<(), ApiError>)
    requires s.Valid()
    modifies s`users, s`reviews, s`comments
    ensures s.Valid()
    ensures !IsAdminRoleAllows(p) ==> r == Err(Refusal(p))
    ensures IsAdminRoleAllows(p) && UserNamed(old(s.users), username).None? ==> r == Err(NotFound)
    ensures r.Err? ==> s.users == old(s.users) && s.reviews == old(s.reviews) && s.comments == old(s.comments)
    ensures r.Ok? <==> IsAdminRoleAllows(p) && UserNamed(old(s.users), username).Some?
    ensures r.Ok? ==>
      var k := UserNamed(old(s.users), username).value;
      && s.users == old(s.users) - {k}
      && s.reviews == ReviewsNotBy(old(s.reviews), k)
      && s.comments == CommentsUnder(CommentsNotBy(old(s.comments), k), s.reviews)
  {
    if !IsAdminRoleAllows(p) {
      return Err(Refusal(p));
    }
    var found := UserNamed(s.users, username);
    if found.None? {
      return Err(NotFound);
    }
    s.DeleteUser(found.value);
    r := Ok(());
  }

  // ----------------------------------------------------- categories, genres

  /** The category with this slug; slugs are unique. */
  function CategoryWithSlug(categories: map<nat, Category>, slug: string): (r: Option<nat>)
    requires CategoriesOk(categories)
    ensures r.Some? ==> r.value in categories && categories[r.value].slug == slug
    ensures r.None? <==> forall k :: k in categories ==> categories[k].slug != slug
  {
    if exists k :: k in categories && categories[k].slug == slug then
      var k :| k in categories && categories[k].slug == slug; Some(k)
    else None
  }

  /** The genre with this slug; slugs are unique. */
  function GenreWithSlug(genres: map<nat, Genre>, slug: string): (r: Option<nat>)
    requires GenresOk(genres)
    ensures r.Some? ==> r.value in genres && genres[r.value].slug == slug
    ensures r.None? <==> forall k :: k in genres ==> genres[k].slug != slug
  {
    if exists k :: k in genres && genres[k].slug == slug then
      var k :| k in genres && genres[k].slug == slug; Some(k)
    else None
  }

  /**
   * SlugRelatedField(many=True) on genre: every slug must name a genre, and
   * the result is the set of genres named.
   */
  function GenresWithSlugs(genres: map<nat, Genre>, slugs: seq<string>): (r: Option<set<nat>>)
    requires GenresOk(genres)
    ensures r.Some? <==> forall i :: 0 <= i < |slugs| ==> GenreWithSlug(genres, slugs[i]).Some?
    ensures r.Some? ==> forall g :: g in r.value <==> g in genres && genres[g].slug in slugs
  {
    if slugs == [] then Some({})
    else
      match (GenreWithSlug(genres, slugs[0]), GenresWithSlugs(genres, slugs[1..]))
      case (Some(g), Some(rest)) =>
        assert forall x :: x in slugs <==> x == slugs[0] || x in slugs[1..];
        Some({g} + rest)
      case (None, _) => None
      case (_, None) =>
        assert forall i :: 0 <= i < |slugs[1..]| ==> slugs[1..][i] == slugs[i + 1];
        None
  }

  /** POST /categories/: an administrator adds a category under a slug no category has. */
  method CreateCategory(s: Store, p: Principal, name: Option<string>, slug: Option<string>)
      returns (r: Result<Category, ApiError>)
    requires s.Valid()
    modifies s`categories, s`nextId
    ensures s.Valid()
    ensures !CatalogAllows(p, POST) ==> r == Err(Refusal(p))
    ensures r.Ok? <==>
      && CatalogAllows(p, POST)
      && NameAndSlugOk(name, slug, slug.Some? && CategoryWithSlug(old(s.categories), slug.value).Some?)
    ensures CatalogAllows(p, POST) && r.Err? ==> r.error == ValidationError
    ensures r.Err? ==> s.categories == old(s.categories) && s.nextId == old(s.nextId)
    ensures r.Ok? ==>
      && r.value == Category(old(s.nextId), name.value, slug.value)
      && s.categories == old(s.categories)[r.value.id := r.value] && s.nextId == old(s.nextId) + 1
  {
    if !CatalogAllows(p, POST) {
      return Err(Refusal(p));
    }
    var taken := slug.Some? && CategoryWithSlug(s.categories, slug.value).Some?;
    if !NameAndSlugOk(name, slug, taken) {
      return Err(ValidationError);
    }
    var c := Category(s.nextId, name.value, slug.value);
    s.InsertCategory(c);
    r := Ok(c);
  }

  /** POST /genres/: an administrator adds a genre under a slug no genre has. */
  method CreateGenre(s: Store, p: Principal, name: Option<string>, slug: Option<string>)
      returns (r: Result<Genre, ApiError>)
    requires s.Valid()
    modifies s`genres, s`nextId
    ensures s.Valid()
    ensures !CatalogAllows(p, POST) ==> r == Err(Refusal(p))
    ensures r.Ok? <==>
      && CatalogAllows(p, POST)
      && NameAndSlugOk(name, slug, slug.Some? && GenreWithSlug(old(s.genres), slug.value).Some?)
    ensures CatalogAllows(p, POST) && r.Err? ==> r.error == ValidationError
    ensures r.Err? ==> s.genres == old(s.genres) && s.nextId == old(s.nextId)
    ensures r.Ok? ==>
      && r.value == Genre(old(s.nextId), name.value, slug.value)
      && s.genres == old(s.genres)[r.value.id := r.value] && s.nextId == old(s.nextId) + 1
  {
    if !CatalogAllows(p, POST) {
      return Err(Refusal(p));
    }
    var taken := slug.Some? && GenreWithSlug(s.genres, slug.value).Some?;
    if !NameAndSlugOk(name, slug, taken) {
      return Err(ValidationError);
    }
    var g := Genre(s.nextId, name.value, slug.value);
    s.InsertGenre(g);
    r := Ok(g);
  }

  /** DELETE /categories/{slug}/: the titles of the category stay, without a category. */
  method DestroyCategory(s: Store, p: Principal, slug: string) returns (r: Result<(), ApiError>)
    requires s.Valid()
    modifies s`categories, s`titles
    ensures s.Valid()
    ensures !CatalogAllows(p, DELETE) ==> r == Err(Refusal(p))
    ensures CatalogAllows(p, DELETE) && CategoryWithSlug(old(s.categories), slug).None? ==> r == Err(NotFound)
    ensures r.Ok? <==> CatalogAllows(p, DELETE) && CategoryWithSlug(old(s.categories), slug).Some?
    ensures r.Err? ==> s.categories == old(s.categories) && s.titles == old(s.titles)
    ensures r.Ok? ==>
      var k := CategoryWithSlug(old(s.categories), slug).value;
      s.categories == old(s.categories) - {k} && s.titles == WithoutCategory(old(s.titles), k)
  {
    if !CatalogAllows(p, DELETE) {
      return Err(Refusal(p));
    }
    var found := CategoryWithSlug(s.categories, slug);
    if found.None? {
      return Err(NotFound);
    }
    s.DeleteCategory(found.value);
    r := Ok(());
  }

  /** DELETE /genres/{slug}/: the titles of the genre stay and lose it. */
  method DestroyGenre(s: Store, p: Principal, slug: string) returns (r: Result<(), ApiError>)
    requires s.Valid()
    modifies s`genres, s`titles
    ensures s.Valid()
    ensures !CatalogAllows(p, DELETE) ==> r == Err(Refusal(p))
    ensures CatalogAllows(p, DELETE) && GenreWithSlug(old(s.genres), slug).None? ==> r == Err(NotFound)
    ensures r.Ok? <==> CatalogAllows(p, DELETE) && GenreWithSlug(old(s.genres), slug).Some?
    ensures r.Err? ==> s.genres == old(s.genres) && s.titles == old(s.titles)
    ensures r.Ok? ==>
      var k := GenreWithSlug(old(s.genres), slug).value;
      s.genres == old(s.genres) - {k} && s.titles == WithoutGenre(old(s.titles), k)
  {
    if !CatalogAllows(p, DELETE) {
      return Err(Refusal(p));
    }
    var found := GenreWithSlug(s.genres, slug);
    if found.None? {
      return Err(NotFound);
    }
    s.DeleteGenre(found.value);
    r := Ok(());
  }

  // ----------------------------------------------------------------- titles

  datatype TitleSerializer = ViewSerializer | PostSerializer

  /** TitleViewSet.get_serializer_class: the read serializer for list and retrieve only. */
  function TitleSerializerFor(a: Action): (k: TitleSerializer)
    ensures k == ViewSerializer <==> a == List || a == Retrieve
    ensures a in {Create, Update, PartialUpdate, Destroy} ==> k == PostSerializer
  {
    if a == List || a == Retrieve then ViewSerializer else PostSerializer
  }

  /** What TitleViewSerializer shows: the row and the average score of its reviews, None with no review. */
  datatype TitleView = TitleView(title: Title, rating: Option<real>)

  /** GET /titles/{id}/, open to everyone: the title annotated with Avg('reviews__score'). */
  function RetrieveTitle(s: Store, id: nat): (r: Result<TitleView, ApiError>)
    reads s`titles, s`reviews, s`nextId
    ensures r.Err? <==> id !in s.titles
    ensures r.Err? ==> r.error == NotFound
    ensures r.Ok? ==> r.value.title == s.titles[id] && r.value.rating == RatingOf(s.reviews, id, s.nextId)
  {
    if id in s.titles then Ok(TitleView(s.titles[id], RatingOf(s.reviews, id, s.nextId))) else Err(NotFound)
  }

  /** The rating shown is absent exactly when the title has no review, and otherwise within 1..10. */
  lemma RetrievedRatingInScale(s: Store, id: nat)
    requires s.Valid() && id in s.titles
    ensures RetrieveTitle(s, id).Ok?
    ensures var rating := RetrieveTitle(s, id).value.rating;
      && (rating.None? <==> forall k :: k in s.reviews ==> s.reviews[k].title != id)
      && (rating.Some? ==> MinScore as real <= rating.value <= MaxScore as real)
  {
    RatingWithinScale(s.reviews, id, s.nextId);
  }

  /** The category and genres a title request names, looked up by slug; None for the fields left out. */
  datatype TitleRefs = TitleRefs(category: Option<nat>, genres: Option<set<nat>>)

  /** The slug fields of TitlePostSerializer: a slug given must name a stored row. */
  function ResolveTitleRefs(categories: map<nat, Category>, genres: map<nat, Genre>, input: TitleInput)
      : (r: Result<TitleRefs, ApiError>)
    requires CategoriesOk(categories) && GenresOk(genres)
    ensures r.Ok? <==>
      && (input.category.Some? ==> CategoryWithSlug(categories, input.category.value).Some?)
      && (input.genres.Some? ==> GenresWithSlugs(genres, input.genres.value).Some?)
    ensures r.Err? ==> r.error == ValidationError
    ensures r.Ok? ==>
      && (r.value.category.Some? <==> input.category.Some?)
      && (r.value.genres.Some? <==> input.genres.Some?)
      && (r.value.category.Some? ==>
            r.value.category.value in categories && categories[r.value.category.value].slug == input.category.value)
      && (r.value.genres.Some? ==>
            forall g :: g in r.value.genres.value <==> g in genres && genres[g].slug in input.genres.value)
  {
    var c := if input.category.Some? then CategoryWithSlug(categories, input.category.value) else None;
    var gs := if input.genres.Some? then GenresWithSlugs(genres, input.genres.value) else None;
    if (input.category.Some? && c.None?) || (input.genres.Some? && gs.None?) then Err(ValidationError)
    else Ok(TitleRefs(c, gs))
  }

  /** TitlePostSerializer.is_valid() and save() over title t (None on creation). */
  function MergeTitle(id: nat, current: Option<Title>, input: TitleInput, refs: TitleRefs): (t: Title)
    requires current.Some? || (input.name.Some? && input.year.Some? && refs.category.Some? && refs.genres.Some?)
    requires input.year.Some? ==> input.year.value >= 0
    ensures t.id == id
    ensures t.name == (if input.name.Some? then input.name.value else current.value.name)
    ensures t.year as int == (if input.year.Some? then input.year.value else current.value.year)
    ensures t.category == (if refs.category.Some? then refs.category else current.value.category)
    ensures t.genres == (if refs.genres.Some? then refs.genres.value else current.value.genres)
    ensures t.description == (if input.description.Some? then input.description.value
                              else if current.Some? then current.value.description else None)
  {
    Title(id,
          if input.name.Some? then input.name.value else current.value.name,
          if input.year.Some? then input.year.value as nat else current.value.year,
          if input.description.Some? then input.description.value
          else if current.Some? then current.value.description else None,
          if refs.category.Some? then refs.category else current.value.category,
          if refs.genres.Some? then refs.genres.value else current.value.genres)
  }

  /** POST /titles/: an administrator adds a title in a stored category with stored genres. */
  method CreateTitle(s: Store, p: Principal, input: TitleInput) returns (r: Result<Title, ApiError>)
    requires s.Valid()
    modifies s`titles, s`nextId
    ensures s.Valid()
    ensures !CatalogAllows(p, POST) ==> r == Err(Refusal(p))
    ensures r.Ok? <==>
      && CatalogAllows(p, POST)
      && TitleFieldsOk(input, s.currentYear, false)
      && ResolveTitleRefs(old(s.categories), old(s.genres), input).Ok?
    ensures CatalogAllows(p, POST) && r.Err? ==> r.error == ValidationError
    ensures r.Err? ==> s.titles == old(s.titles) && s.nextId == old(s.nextId)
    ensures r.Ok? ==>
      && r.value == MergeTitle(old(s.nextId), None, input, ResolveTitleRefs(old(s.categories), old(s.genres), input).value)
      && r.value.category.Some? && r.value.category.value in s.categories
      && s.titles == old(s.titles)[r.value.id := r.value] && s.nextId == old(s.nextId) + 1
  {
    if !CatalogAllows(p, POST) {
      return Err(Refusal(p));
    }
    if !TitleFieldsOk(input, s.currentYear, false) {
      return Err(ValidationError);
    }
    var refs := ResolveTitleRefs(s.categories, s.genres, input);
    if refs.Err? {
      return Err(ValidationError);
    }
    var t := MergeTitle(s.nextId, None, input, refs.value);
    s.InsertTitle(t);
    r := Ok(t);
  }

  /** PUT (partial false) or PATCH (partial true) /titles/{id}/ by an administrator. */
  method UpdateTitle(s: Store, p: Principal, id: nat, input: TitleInput, partial: bool) returns (r: Result<Title, ApiError>)
    requires s.Valid()
    modifies s`titles
    ensures s.Valid()
    ensures !CatalogAllows(p, if partial then PATCH else PUT) ==> r == Err(Refusal(p))
    ensures CatalogAllows(p, if partial then PATCH else PUT) && id !in old(s.titles) ==> r == Err(NotFound)
    ensures CatalogAllows(p, if partial then PATCH else PUT) && id in old(s.titles) &&
            (!TitleFieldsOk(input, s.currentYear, partial) || ResolveTitleRefs(s.categories, s.genres, input).Err?) ==>
      r == Err(ValidationError)
    ensures r.Ok? <==>
      && CatalogAllows(p, if partial then PATCH else PUT) && id in old(s.titles)
      && TitleFieldsOk(input, s.currentYear, partial)
      && ResolveTitleRefs(s.categories, s.genres, input).Ok?
    ensures r.Err? ==> s.titles == old(s.titles)
    ensures r.Ok? ==>
      && r.value == MergeTitle(id, Some(old(s.titles)[id]), input, ResolveTitleRefs(s.categories, s.genres, input).value)
      && s.titles == old(s.titles)[id := r.value]
  {
    if !CatalogAllows(p, if partial then PATCH else PUT) {
      return Err(Refusal(p));
    }
    if id !in s.titles {
      return Err(NotFound);
    }
    if !TitleFieldsOk(input, s.currentYear, partial) {
      return Err(ValidationError);
    }
    var refs := ResolveTitleRefs(s.categories, s.genres, input);
    if refs.Err? {
      return Err(ValidationError);
    }
    var t := MergeTitle(id, Some(s.titles[id]), input, refs.value);
    s.UpdateTitle(t);
    r := Ok(t);
  }

  /** DELETE /titles/{id}/ by an administrator: its reviews and their comments go too. */
  method DestroyTitle(s: Store, p: Principal, id: nat) returns (r: Result<(), ApiError>)
    requires s.Valid()
    modifies s`titles, s`reviews, s`comments
    ensures s.Valid()
    ensures !CatalogAllows(p, DELETE) ==> r == Err(Refusal(p))
    ensures CatalogAllows(p, DELETE) && id !in old(s.titles) ==> r == Err(NotFound)
    ensures r.Ok? <==> CatalogAllows(p, DELETE) && id in old(s.titles)
    ensures r.Err? ==> s.titles == old(s.titles) && s.reviews == old(s.reviews) && s.comments == old(s.comments)
    ensures r.Ok? ==>
      && s.titles == old(s.titles) - {id}
      && s.reviews == ReviewsNotOn(old(s.reviews), id)
      && s.comments == CommentsUnder(old(s.comments), s.reviews)
  {
    if !CatalogAllows(p, DELETE) {
      return Err(Refusal(p));
    }
    if id !in s.titles {
      return Err(NotFound);
    }
    s.DeleteTitle(id);
    r := Ok(());
  }

  // ---------------------------------------------------------------- reviews

  /** ReviewView.get_queryset, open to everyone: the reviews of a stored title, newest first. */
  function ListReviews(s: Store, titleId: nat): (r: Result<seq<Review>, ApiError>)
    reads s`users, s`categories, s`genres, s`titles, s`reviews, s`comments, s`nextId, s`clock
    requires s.Valid()
    ensures r.Err? <==> titleId !in s.titles
    ensures r.Err? ==> r.error == NotFound
    ensures r.Ok? ==> forall x :: x in r.value <==> x.id in s.reviews && s.reviews[x.id] == x && x.title == titleId
    ensures r.Ok? ==> forall i, j :: 0 <= i < j < |r.value| ==> r.value[i].pubDate > r.value[j].pubDate
  {
    if titleId in s.titles then Ok(ReviewsOf(s.reviews, titleId, s.nextId)) else Err(NotFound)
  }

  /**
   * The review a detail URL names: the title must be stored and the review
   * must be one of its reviews (404 otherwise).
   */
  function ReviewUnder(s: Store, titleId: nat, reviewId: nat): (r: Result<Review, ApiError>)
    reads s`titles, s`reviews
    ensures r.Ok? <==> titleId in s.titles && reviewId in s.reviews && s.reviews[reviewId].title == titleId
    ensures r.Ok? ==> r.value == s.reviews[reviewId]
    ensures r.Err? ==> r.error == NotFound
  {
    if titleId in s.titles && reviewId in s.reviews && s.reviews[reviewId].title == titleId
    then Ok(s.reviews[reviewId])
    else Err(NotFound)
  }

  /**
   * POST /titles/{title_id}/reviews/: a signed-in account reviews a title,
   * once. The serializer runs before the title is looked up, so a bad body
   * is refused even under a missing title.
   */
  method CreateReview(s: Store, p: Principal, titleId: nat, input: ReviewInput) returns (r: Result<Review, ApiError>)
    requires s.Valid() && ActorStored(s, p)
    modifies s`reviews, s`nextId, s`clock
    ensures s.Valid()
    ensures p.Anonymous? ==> r == Err(NotAuthenticated)
    ensures r.Ok? <==>
      && p.Authenticated?
      && ValidateReview(old(s.reviews), p.user.id, titleId, POST, input, false).Ok?
      && titleId in s.titles
    ensures p.Authenticated? && ValidateReview(old(s.reviews), p.user.id, titleId, POST, input, false).Err? ==>
      r == Err(ValidationError)
    ensures p.Authenticated? && ValidateReview(old(s.reviews), p.user.id, titleId, POST, input, false).Ok? &&
            titleId !in s.titles ==>
      r == Err(NotFound)
    ensures r.Err? ==> s.reviews == old(s.reviews) && s.nextId == old(s.nextId) && s.clock == old(s.clock)
    ensures r.Ok? ==>
      && r.value == Review(old(s.nextId), titleId, p.user.id, input.text.value, input.score.value, old(s.clock))
      && s.reviews == old(s.reviews)[r.value.id := r.value]
      && s.nextId == old(s.nextId) + 1 && s.clock == old(s.clock) + 1
  {
    if !ContentAllows(p, POST) {
      return Err(Refusal(p));
    }
    if ValidateReview(s.reviews, p.user.id, titleId, POST, input, false).Err? {
      return Err(ValidationError);
    }
    if titleId !in s.titles {
      return Err(NotFound);
    }
    var review := Review(s.nextId, titleId, p.user.id, input.text.value, input.score.value, s.clock);
    s.InsertReview(review);
    r := Ok(review);
  }

  /**
   * PUT (partial false) or PATCH (partial true) of a review: the view-level
   * check, the lookup, the object-level check, then the serializer.
   */
  method UpdateReview(s: Store, p: Principal, titleId: nat, reviewId: nat, input: ReviewInput, partial: bool)
      returns (r: Result<Review, ApiError>)
    requires s.Valid() && ActorStored(s, p)
    modifies s`reviews
    ensures s.Valid()
    ensures p.Anonymous? ==> r == Err(NotAuthenticated)
    ensures r.Err? ==> s.reviews == old(s.reviews)
    ensures p.Authenticated? && old(ReviewUnder(s, titleId, reviewId)).Err? ==> r == Err(NotFound)
    ensures p.Authenticated? && old(ReviewUnder(s, titleId, reviewId)).Ok? &&
            ContentObjectDecision(p, if partial then PartialUpdate else Update, old(s.reviews)[reviewId].author) != Allow ==>
      r == Err(PermissionDenied)
    ensures p.Authenticated? && old(ReviewUnder(s, titleId, reviewId)).Ok? &&
            ContentObjectDecision(p, if partial then PartialUpdate else Update, old(s.reviews)[reviewId].author) == Allow &&
            !ReviewFieldsOk(input, partial) ==>
      r == Err(ValidationError)
    ensures r.Ok? <==>
      && p.Authenticated?
      && old(ReviewUnder(s, titleId, reviewId)).Ok?
      && ContentObjectDecision(p, if partial then PartialUpdate else Update, old(s.reviews)[reviewId].author) == Allow
      && ReviewFieldsOk(input, partial)
    ensures r.Ok? ==>
      var was := old(s.reviews)[reviewId];
      && r.value == was.(text := Pick(input.text, was.text), score := Pick(input.score, was.score))
      && s.reviews == old(s.reviews)[reviewId := r.value]
  {
    if !ContentAllows(p, if partial then PATCH else PUT) {
      return Err(Refusal(p));
    }
    var found := ReviewUnder(s, titleId, reviewId);
    if found.Err? {
      return Err(NotFound);
    }
    var was := found.value;
    if ContentObjectDecision(p, if partial then PartialUpdate else Update, was.author) != Allow {
      return Err(PermissionDenied);
    }
    if ValidateReview(s.reviews, p.user.id, titleId, if partial then PATCH else PUT, input, partial).Err? {
      return Err(ValidationError);
    }
    s.UpdateReview(reviewId, Pick(input.text, was.text), Pick(input.score, was.score));
    r := Ok(s.reviews[reviewId]);
  }

  /** DELETE of a review by its author, a moderator or an administrator: its comments go too. */
  method DestroyReview(s: Store, p: Principal, titleId: nat, reviewId: nat) returns (r: Result<(), ApiError>)
    requires s.Valid() && ActorStored(s, p)
    modifies s`reviews, s`comments
    ensures s.Valid()
    ensures p.Anonymous? ==> r == Err(NotAuthenticated)
    ensures p.Authenticated? && old(ReviewUnder(s, titleId, reviewId)).Err? ==> r == Err(NotFound)
    ensures p.Authenticated? && old(ReviewUnder(s, titleId, reviewId)).Ok? &&
            ContentObjectDecision(p, Destroy, old(s.reviews)[reviewId].author) != Allow ==>
      r == Err(PermissionDenied)
    ensures r.Ok? <==>
      && p.Authenticated?
      && old(ReviewUnder(s, titleId, reviewId)).Ok?
      && ContentObjectDecision(p, Destroy, old(s.reviews)[reviewId].author) == Allow
    ensures r.Err? ==> s.reviews == old(s.reviews) && s.comments == old(s.comments)
    ensures r.Ok? ==> s.reviews == old(s.reviews) - {reviewId} && s.comments == CommentsNotOn(old(s.comments), reviewId)
  {
    if !ContentAllows(p, DELETE) {
      return Err(Refusal(p));
    }
    var found := ReviewUnder(s, titleId, reviewId);
    if found.Err? {
      return Err(NotFound);
    }
    if ContentObjectDecision(p, Destroy, found.value.author) != Allow {
      return Err(PermissionDenied);
    }
    s.DeleteReview(reviewId);
    r := Ok(());
  }

  // --------------------------------------------------------------- comments

  /** The parent review of a comments URL: get_object_or_404(Review, pk=review_id, title__pk=title_id). */
  function ParentReview(s: Store, titleId: nat, reviewId: nat): (r: Result<Review, ApiError>)
    reads s`reviews
    ensures r.Ok? <==> reviewId in s.reviews && s.reviews[reviewId].title == titleId
    ensures r.Ok? ==> r.value == s.reviews[reviewId]
    ensures r.Err? ==> r.error == NotFound
  {
    if reviewId in s.reviews && s.reviews[reviewId].title == titleId then Ok(s.reviews[reviewId]) else Err(NotFound)
  }

  /** CommentView.get_queryset, open to everyone: the comments of the parent review, newest first. */
  function ListComments(s: Store, titleId: nat, reviewId: nat): (r: Result<seq<Comment>, ApiError>)
    reads s`users, s`categories, s`genres, s`titles, s`reviews, s`comments, s`nextId, s`clock
    requires s.Valid()
    ensures r.Err? <==> ParentReview(s, titleId, reviewId).Err?
    ensures r.Err? ==> r.error == NotFound
    ensures r.Ok? ==> forall x :: x in r.value <==> x.id in s.comments && s.comments[x.id] == x && x.review == reviewId
    ensures r.Ok? ==> forall i, j :: 0 <= i < j < |r.value| ==> r.value[i].pubDate > r.value[j].pubDate
  {
    match ParentReview(s, titleId, reviewId)
    case Err(e) => Err(e)
    case Ok(_) => Ok(CommentsOf(s.comments, reviewId, s.nextId))
  }

  /** The comment a detail URL names: one of the parent review's comments (404 otherwise). */
  function CommentUnder(s: Store, titleId: nat, reviewId: nat, commentId: nat): (r: Result<Comment, ApiError>)
    reads s`reviews, s`comments
    ensures r.Ok? <==>
      ParentReview(s, titleId, reviewId).Ok? && commentId in s.comments && s.comments[commentId].review == reviewId
    ensures r.Ok? ==> r.value == s.comments[commentId]
    ensures r.Err? ==> r.error == NotFound
  {
    if ParentReview(s, titleId, reviewId).Ok? && commentId in s.comments && s.comments[commentId].review == reviewId
    then Ok(s.comments[commentId])
    else Err(NotFound)
  }

  /** POST of a comment on a review, by a signed-in account. */
  method CreateComment(s: Store, p: Principal, titleId: nat, reviewId: nat, input: CommentInput)
      returns (r: Result<Comment, ApiError>)
    requires s.Valid() && ActorStored(s, p)
    modifies s`comments, s`nextId, s`clock
    ensures s.Valid()
    ensures p.Anonymous? ==> r == Err(NotAuthenticated)
    ensures p.Authenticated? && ValidateComment(input, false).Err? ==> r == Err(ValidationError)
    ensures p.Authenticated? && ValidateComment(input, false).Ok? && ParentReview(s, titleId, reviewId).Err? ==>
      r == Err(NotFound)
    ensures r.Ok? <==>
      p.Authenticated? && ValidateComment(input, false).Ok? && ParentReview(s, titleId, reviewId).Ok?
    ensures r.Err? ==> s.comments == old(s.comments) && s.nextId == old(s.nextId) && s.clock == old(s.clock)
    ensures r.Ok? ==>
      && r.value == Comment(old(s.nextId), reviewId, p.user.id, input.text.value, old(s.clock))
      && s.comments == old(s.comments)[r.value.id := r.value]
      && s.nextId == old(s.nextId) + 1 && s.clock == old(s.clock) + 1
  {
    if !ContentAllows(p, POST) {
      return Err(Refusal(p));
    }
    if ValidateComment(input, false).Err? {
      return Err(ValidationError);
    }
    if ParentReview(s, titleId, reviewId).Err? {
      return Err(NotFound);
    }
    var c := Comment(s.nextId, reviewId, p.user.id, input.text.value, s.clock);
    s.InsertComment(c);
    r := Ok(c);
  }

  /** PUT or PATCH of a comment by its author, a moderator or an administrator. */
  method UpdateComment(s: Store, p: Principal, titleId: nat, reviewId: nat, commentId: nat, input: CommentInput, partial: bool)
      returns (r: Result<Comment, ApiError>)
    requires s.Valid() && ActorStored(s, p)
    modifies s`comments
    ensures s.Valid()
    ensures p.Anonymous? ==> r == Err(NotAuthenticated)
    ensures p.Authenticated? && old(CommentUnder(s, titleId, reviewId, commentId)).Err? ==> r == Err(NotFound)
    ensures p.Authenticated? && old(CommentUnder(s, titleId, reviewId, commentId)).Ok? &&
            ContentObjectDecision(p, if partial then PartialUpdate else Update, old(s.comments)[commentId].author) != Allow ==>
      r == Err(PermissionDenied)
    ensures p.Authenticated? && old(CommentUnder(s, titleId, reviewId, commentId)).Ok? &&
            ContentObjectDecision(p, if partial then PartialUpdate else Update, old(s.comments)[commentId].author) == Allow &&
            ValidateComment(input, partial).Err? ==>
      r == Err(ValidationError)
    ensures r.Ok? <==>
      && p.Authenticated?
      && old(CommentUnder(s, titleId, reviewId, commentId)).Ok?
      && ContentObjectDecision(p, if partial then PartialUpdate else Update, old(s.comments)[commentId].author) == Allow
      && ValidateComment(input, partial).Ok?
    ensures r.Err? ==> s.comments == old(s.comments)
    ensures r.Ok? ==>
      var was := old(s.comments)[commentId];
      && r.value == was.(text := Pick(input.text, was.text))
      && s.comments == old(s.comments)[commentId := r.value]
  {
    if !ContentAllows(p, if partial then PATCH else PUT) {
      return Err(Refusal(p));
    }
    var found := CommentUnder(s, titleId, reviewId, commentId);
    if found.Err? {
      return Err(NotFound);
    }
    var was := found.value;
    if ContentObjectDecision(p, if partial then PartialUpdate else Update, was.author) != Allow {
      return Err(PermissionDenied);
    }
    if ValidateComment(input, partial).Err? {
      return Err(ValidationError);
    }
    s.UpdateComment(commentId, Pick(input.text, was.text));
    r := Ok(s.comments[commentId]);
  }

  /** DELETE of a comment by its author, a moderator or an administrator. */
  method DestroyComment(s: Store, p: Principal, titleId: nat, reviewId: nat, commentId: nat) returns (r: Result<(), ApiError>)
    requires s.Valid() && ActorStored(s, p)
    modifies s`comments
    ensures s.Valid()
    ensures p.Anonymous? ==> r == Err(NotAuthenticated)
    ensures p.Authenticated? && old(CommentUnder(s, titleId, reviewId, commentId)).Err? ==> r == Err(NotFound)
    ensures p.Authenticated? && old(CommentUnder(s, titleId, reviewId, commentId)).Ok? &&
            ContentObjectDecision(p, Destroy, old(s.comments)[commentId].author) != Allow ==>
      r == Err(PermissionDenied)
    ensures r.Ok? <==>
      && p.Authenticated?
      && old(CommentUnder(s, titleId, reviewId, commentId)).Ok?
      && ContentObjectDecision(p, Destroy, old(s.comments)[commentId].author) == Allow
    ensures r.Err? ==> s.comments == old(s.comments)
    ensures r.Ok? ==> s.comments == old(s.comments) - {commentId}
  {
    if !ContentAllows(p, DELETE) {
      return Err(Refusal(p));
    }
    var found := CommentUnder(s, titleId, reviewId, commentId);
    if found.Err? {
      return Err(NotFound);
    }
    if ContentObjectDecision(p, Destroy, found.value.author) != Allow {
      return Err(PermissionDenied);
    }
    s.DeleteComment(commentId);
    r := Ok(());
  }
}
