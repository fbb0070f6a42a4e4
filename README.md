# yamdb: authorization and data integrity

yamdb is a Django REST service where accounts review titles (books,
films, songs), grouped into categories and genres, and comment on those
reviews. This project models its authorization and data-integrity core and
proves properties of that model:

- **Roles and permissions.** There are three roles. The `is_admin` and
  `is_moderator` capabilities derive from the role and the staff flag. Four
  permission classes are built from them: admin role, read only, "retrieve
  always, otherwise author, moderator or admin", and "is me". The views
  combine them.
- **Entity constraints.**
  - Usernames, emails and slugs are unique.
  - A score is in 1..10, and a year is neither negative nor after the
    current year.
  - An author has at most one review per title.
  - Every foreign key resolves.
  - Each foreign key's `on_delete` action is modelled: CASCADE for reviews,
    comments and authors, SET_NULL for a title's category.
  - Listings are ordered newest first.
- **Input validation.**
  - The name `"me"` is reserved.
  - A second review by an author on a title is refused, but only on POST.
  - `role` is read-only on an account's own profile and a writable choice
    on the administrators' profile.
  - The author and the parent of a review or comment are assigned by the
    server.
- **Request handlers.**
  - Signup uses get-or-create on the pair (username, email) and mails the
    account a confirmation code.
  - The token exchange looks the account up and checks the code.
  - The `me` endpoint reads or edits the caller's own account.
  - Administrators manage accounts, categories, genres and titles.
  - A title's rating is the mean score of its reviews.
  - Reviews are nested under a title and comments under a review of that
    title.

### Layout

| file | module | content |
|---|---|---|
| `wrappers.dfy` | `Wrappers`, `Errors` | `Option`, `Result`, and the error outcomes with their HTTP status codes. |
| `users.dfy` | `Users` | Roles and their keys, the width of the role column, the `User` row, `is_admin` and `is_moderator`. |
| `catalog.dfy` | `Catalog` | The catalogue and content rows, and the score, year and slug constraints. |
| `permissions.dfy` | `Permissions` | The permission classes as functions of the principal, the method or action, and the object. |
| `serializers.dfy` | `Serializers` | Serializer validation as functions from the request data, and the stored rows, to a verdict. |
| `database.dfy` | `Database` | The `Store` class described below. |
| `views.dfy` | `Views` | One method per handler that writes and one function per handler that only reads. |

`Store` holds one map per table. The table constraints are its invariant
`Valid()`. Its insert, update and delete methods realise the `on_delete`
behaviour and preserve `Valid()`. The rating and the ordered listings are
plain functions over the maps.

Each handler checks permissions first, in the order Django REST framework
uses:

1. the view-level permission;
2. the serializer, for a create;
3. the lookups of the URL, which return 404;
4. the object-level permission;
5. the serializer, for an update.

A refusal answers 401 to the anonymous user and 403 to a signed-in one.
Every failure leaves the store as it was. The one exception is a failed
mail after signup: the new account stays.

### Modelling choices

- **Ids and time.**
  - Ids come from one counter for all tables, and `pub_date` from one
    monotonic clock.
  - The invariant ties a higher id to a later `pub_date`, so scanning ids
    downwards lists rows newest first.
  - `MaxValueValidator(dt.datetime.today().year)` is evaluated once, when
    the models are imported, so the current year is a constant field of
    the store.
- **External calls.** Code generation (`make_token`), code checking
  (`check_token`) and JWT issuance are function parameters. Whether the
  mail server accepts a message is a boolean parameter.
- **Rating.** The rating is an exact rational, the sum of the scores over
  their count. It is `None` for a title without reviews.
- **Unreachable fault.** The object-level check of
  `RetrieveOnlyOrHasCUDPermissions` asks the anonymous user for `is_admin`.
  `AnonymousUser` lacks that attribute, so the check would raise. The model
  writes this outcome as `Fault` and proves it cannot happen on a routed
  request.
- **The reserved name.** `"me"` is refused because `/users/me/` is routed
  to the `me` action before the detail route. An account named "me" could
  therefore never be addressed by username.
- **Category required, following the code.** `TitlePostSerializer`
  declares `category` as a required `SlugRelatedField`, so a title cannot
  be created without a category through the API. The model follows the
  code: `CreateTitle` refuses a request without a category. A title loses
  its category only when that category is deleted.
- **PUT resets the role.** On a full update (PUT) of an account by an
  administrator, a request without `role` sets the role back to `user`,
  because the `ChoiceField` default applies whenever the update is not
  partial. The model keeps this behaviour (`AdminRoleField`).
- **Nullable inputs.** `bio` and `description` are the two nullable
  inputs. Their columns are `null=True`, and the serializers accept null
  for them. In the request data each is absent (`None`), sent as null
  (`Some(None)`, which clears the stored value) or sent with a value
  (`Some(Some(v))`). The `category` column of a title is nullable too,
  but only for `SET_NULL`. `TitlePostSerializer` declares `category` as a
  required `SlugRelatedField` without `allow_null`, so a request cannot
  send it as null.

## Model

| member | source | states |
|---|---|---|
| Errors.StatusOf | api_yamdb/api/views.py:61-65 | Every outcome is a 4xx or 5xx status. 400 is exactly a validation error and 404 exactly a missing object. |
| Users.RoleKey | api_yamdb/reviews/models.py:10-17 | The stored key of each role: "user", "moderator", "admin". `Users.ParseRole` and `Users.ParseRoleKey` show that the keys are distinct and parse back. |
| Users.ChoiceKeys | api_yamdb/reviews/models.py:13-17 | The keys of a choice list, position by position, with the same length. |
| Users.MaxLength | api_yamdb/reviews/models.py:32 | The result is at least the length of every key and equal to the length of one of them. |
| Users.RoleColumnFitsEveryChoice | api_yamdb/reviews/models.py:10-17 | The role column is 9 wide, every role key fits it, and every role is one of the three choices. |
| Users.ParseRole | api_yamdb/reviews/models.py:13-17 | A string is accepted as a role exactly when it is the key of a role, and it yields that role. |
| Users.ParseRoleKey | api_yamdb/reviews/models.py:30-35 | Parsing the key of a role gives that role back. |
| Users.IsAdmin | api_yamdb/reviews/models.py:37-39 | `is_admin`: the admin role or the staff flag. |
| Users.IsModerator | api_yamdb/reviews/models.py:41-43 | `is_moderator`: the moderator role. |
| Users.StaffIsAdminNotModerator | api_yamdb/reviews/models.py:37-43 | A staff account is an admin whatever its role. Staff does not make it a moderator. |
| Users.CapabilitiesOfNonStaff | api_yamdb/reviews/models.py:37-43 | Without staff, admin and moderator exclude each other, and the plain role has neither. |
| Catalog.ValidScore | api_yamdb/reviews/models.py:131-136 | `MinValueValidator(1)` and `MaxValueValidator(10)` on a review's score: 1..10. |
| Catalog.ValidYear | api_yamdb/reviews/models.py:86-94 | A `PositiveIntegerField` under `MaxValueValidator(today().year)`: 0..the year fixed at import time. |
| Catalog.IsSlug | api_yamdb/reviews/models.py:49-51 | A `SlugField` value: non-empty, made of ASCII letters, digits, `-` and `_`. |
| Permissions.RouteAction | api_yamdb/api/permissions.py:31 | Each action in both directions: list and retrieve are exactly GET or HEAD on a collection or a detail URL, create exactly POST on a collection, update, partial update and destroy exactly PUT, PATCH and DELETE on a detail URL. |
| Permissions.IsSafe | api_yamdb/api/permissions.py:1 | `SAFE_METHODS`: GET, HEAD and OPTIONS. `Permissions.IsReadOnlyAllows` states it method by method. |
| Permissions.IsReadOnlyAllows | api_yamdb/api/permissions.py:17-22 | Allowed exactly for GET, HEAD and OPTIONS. |
| Permissions.IsAdminRoleAllows | api_yamdb/api/permissions.py:10-14 | Allowed exactly for an authenticated principal with the admin role or the staff flag. |
| Permissions.CatalogAllows | api_yamdb/api/views.py:132 | `IsReadOnly \| IsAdminRole` allows exactly a safe method or an authenticated admin. The anonymous user only gets the safe methods. |
| Permissions.ContentAllows | api_yamdb/api/permissions.py:25 | `IsAuthenticatedOrReadOnly`. `Permissions.AnonymousCannotWrite` shows it keeps the anonymous user from every write, and `Permissions.AnyoneRetrieves` shows it lets every caller read. |
| Permissions.ContentObjectDecision | api_yamdb/api/permissions.py:30-39 | Retrieve is always allowed. For an authenticated principal, any other action is allowed exactly for an admin, a moderator or the author. It faults exactly for the anonymous user on a non-retrieve action. |
| Permissions.IsMeAllows | api_yamdb/api/permissions.py:47-48 | The anonymous user is refused; every authenticated principal passes. |
| Permissions.IsMeObject | api_yamdb/api/permissions.py:50-51 | The object is the requesting account. `Views.MeFindsOwnRecord` and `Views.Me` show that the record `/users/me/` serves always passes it. |
| Permissions.ContentRequestDecision | api_yamdb/api/permissions.py:25-39 | The view-level check followed, on a detail action, by the object-level check. |
| Permissions.AnonymousCannotWrite | api_yamdb/api/permissions.py:25 | The anonymous user is denied every unsafe method, both on reviews and comments and on the catalogue. |
| Permissions.AnyoneRetrieves | api_yamdb/api/permissions.py:31-32 | GET and HEAD of a single review or comment are allowed to every principal. |
| Permissions.RoutedRequestsNeverFault | api_yamdb/api/permissions.py:34-39 | The object-level check is never reached in a state where it would fault. |
| Permissions.PlainUserCannotModifyOthers | api_yamdb/api/permissions.py:34-39 | A non-staff account with the plain role is denied PUT, PATCH and DELETE on someone else's review or comment. |
| Permissions.ModifyAllowedIff | api_yamdb/api/permissions.py:34-39 | For an account, PUT, PATCH and DELETE on an object are allowed exactly for an admin, a moderator or the author. |
| Serializers.ValidateUsername | api_yamdb/api/serializers.py:36-41 | Refuses exactly "me" and returns every other value unchanged. |
| Serializers.ValidateSignup | api_yamdb/api/serializers.py:62-77 | Accepts exactly these requests: a username of 1..150 characters that is not "me", an email of 1..254, and an optional code of 1..150. It yields that pair. |
| Serializers.SignupAsMeRejected | api_yamdb/api/serializers.py:72-77 | A signup for "me" is refused whatever else it carries. |
| Serializers.ValidateTokenRequest | api_yamdb/api/serializers.py:85-86 | Accepts exactly a username and a code that are both present and of 1..150 characters. "me" is not refused here. |
| Serializers.UsernameFieldOk | api_yamdb/api/serializers.py:12-18 | MeSerializer's username: required unless partial, 1..150 characters, not "me", and held by no other account (UniqueValidator). |
| Serializers.EmailFieldOk | api_yamdb/api/serializers.py:19-24 | MeSerializer's email: required unless partial, non-blank, and held by no other account (UniqueValidator). |
| Serializers.PersonNameOk | api_yamdb/reviews/models.py:24 | first_name and last_name: at most 150 characters, blank allowed, optional. |
| Serializers.ValidateProfile | api_yamdb/api/serializers.py:11-41 | Accepts exactly when username and email are valid and unique among the other accounts (required unless partial), username is not "me", and the names fit. |
| Serializers.ProfileIgnoresRole | api_yamdb/api/serializers.py:11 | The role sent to the self profile changes neither the verdict nor the saved account, and the role stays as stored. |
| Serializers.ProfileAsMeRejected | api_yamdb/api/serializers.py:36-41 | A profile naming "me" is refused. |
| Serializers.ApplyProfile | api_yamdb/api/serializers.py:28-33 | Saving a profile keeps id, role and staff flag. Username, email, first name, last name and bio each take the value sent, a bio sent as null clears it, and a field left out keeps the stored value. Nothing sent keeps the account unchanged. |
| Serializers.AdminRoleField | api_yamdb/api/serializers.py:49-54 | A role sent is accepted exactly when it is a choice key. A missing role gives "user" on a full update and keeps the current role on a partial one. |
| Serializers.ValidateAdminProfile | api_yamdb/api/serializers.py:44-54 | Accepts exactly when the profile fields and the role field are both valid, and yields that role. |
| Serializers.ApplyAdminProfile | api_yamdb/api/serializers.py:44-54 | Saves every profile field exactly as the self profile does and sets the validated role. Id and staff flag stay. |
| Serializers.NewAccount | api_yamdb/api/serializers.py:44-54 | A created account has the sent username, email and role, under the given id and without staff. First and last name default to blank and bio to null. |
| Serializers.SignupAccount | api_yamdb/api/views.py:56-59 | An account made on signup has the pair, the default role and no capability. |
| Serializers.ValidateReview | api_yamdb/api/serializers.py:157-165 | Accepts exactly when the fields are valid, unless the method is POST and the author already reviewed the title. |
| Serializers.HasReviewBy | api_yamdb/api/serializers.py:157-160 | The `filter(author=..., title=...).exists()` of `validate`: some stored review has that author and title. |
| Serializers.SecondReviewRejected | api_yamdb/api/serializers.py:157-165 | A POST for an author and title that already have a review is refused. A PUT or PATCH with valid fields passes. |
| Serializers.ClientAuthorAndParentIgnored | api_yamdb/api/serializers.py:148-154 | The author, title or review a client sends changes neither serializer's verdict. |
| Serializers.ValidateComment | api_yamdb/api/serializers.py:168-179 | Accepts exactly a non-blank text, or no text on a partial update. |
| Serializers.ReviewFieldsOk | api_yamdb/reviews/models.py:131-136 | A non-blank text and a score in 1..10, each required unless the update is partial. |
| Serializers.TitleFieldsOk | api_yamdb/reviews/models.py:82-100 | A non-blank name and a year in 0..current year, a description of at most 256 characters, null or absent, and a category and genres, each required unless the update is partial. |
| Serializers.NameAndSlugOk | api_yamdb/reviews/models.py:46-71 | A category or genre name of 1..256 characters and a slug of 1..50 letters, digits, `-` or `_` that no other row of the table holds. |
| Database.ReviewIdsBelow | api_yamdb/reviews/models.py:145 | Exactly the ids below n of the title's reviews, strictly descending. |
| Database.CommentIdsBelow | api_yamdb/reviews/models.py:178 | Exactly the ids below n of the review's comments, strictly descending. |
| Database.ReviewCount | api_yamdb/api/views.py:160 | The number of the title's reviews with id below n, the count behind `Avg`. `Database.CountPositiveIff` and `Database.CountIsListed` state what it counts. |
| Database.ScoreTotal | api_yamdb/api/views.py:160 | The sum of those reviews' scores, the sum behind `Avg`. `Database.TotalBounds` and `Database.FiguresAgree` state its properties. |
| Database.CountPositiveIff | api_yamdb/api/views.py:160 | A title's review count is positive exactly when it has a review. |
| Database.TotalBounds | api_yamdb/api/views.py:160 | With valid scores, the total of c reviews is between c and 10c. |
| Database.MeanBounds | api_yamdb/api/views.py:160 | A mean of values in 1..10 lies in 1..10. |
| Database.RatingOf | api_yamdb/api/views.py:160 | None exactly when the title has no reviews. Otherwise the rating times the count is the total, so the rating is the mean score. |
| Database.RatingWithinScale | api_yamdb/api/views.py:160 | The rating is absent exactly when the title has no reviews. Otherwise it lies in 1..10. |
| Database.FiguresAgree | api_yamdb/api/views.py:160 | A title's count and total depend only on its own reviews and their scores. |
| Database.RatingAfterInsert | api_yamdb/api/views.py:160 | A new review adds 1 to its title's count and its score to the total. Other titles' figures do not change. |
| Database.CountAfterRemove | api_yamdb/api/views.py:160 | Deleting a review takes 1 from its title's count only. |
| Database.TotalAfterRemove | api_yamdb/api/views.py:160 | Deleting a review takes its score from its title's total only. |
| Database.CountIsListed | api_yamdb/api/views.py:160 | The count is the length of the title's listing. |
| Database.ReviewsOf | api_yamdb/api/views.py:185-187 | Exactly the stored reviews of the title, with strictly decreasing pub_date (ordering `-pub_date`). |
| Database.ReviewListing | api_yamdb/reviews/models.py:145 | The rows behind a sorted id listing are the title's reviews, newest first. |
| Database.CommentsOf | api_yamdb/api/views.py:208-214 | Exactly the stored comments of the review, with strictly decreasing pub_date. |
| Database.CommentListing | api_yamdb/reviews/models.py:178 | The rows behind a sorted id listing are the review's comments, newest first. |
| Database.UserNamed | api_yamdb/api/views.py:79-81 | The account with that username, or None exactly when no account has it. |
| Database.CommentsNotOn | api_yamdb/reviews/models.py:160-164 | The comments not on the review, unchanged. |
| Database.CommentsNotBy | api_yamdb/reviews/models.py:166-170 | The comments not written by the account, unchanged. |
| Database.CommentsUnder | api_yamdb/reviews/models.py:160-164 | The comments whose review is still stored, unchanged. |
| Database.ReviewsNotOn | api_yamdb/reviews/models.py:119-124 | The reviews not of the title, unchanged. |
| Database.ReviewsNotBy | api_yamdb/reviews/models.py:126-130 | The reviews not written by the account, unchanged. |
| Database.WithoutCategory | api_yamdb/reviews/models.py:101-107 | Every title stays. Those of the category lose only their category. |
| Database.WithoutGenre | api_yamdb/reviews/models.py:108 | Every title stays and loses only that genre. |
| Database.UsersOk | api_yamdb/reviews/models.py:18-23 | A row's id is its key, and no two accounts share a username or an email. |
| Database.CategoriesOk | api_yamdb/reviews/models.py:46-53 | A row's id is its key, and category slugs are unique. |
| Database.GenresOk | api_yamdb/reviews/models.py:64-71 | A row's id is its key, and genre slugs are unique. |
| Database.TitlesOk | api_yamdb/reviews/models.py:82-108 | A row's id is its key, a title's year lies in 0..current year, its category is null or stored, and its genres are stored. |
| Database.ReviewsOk | api_yamdb/reviews/models.py:118-153 | A row's id is its key, a review's title and author are stored, its score is in 1..10, an author has at most one review per title, and a higher id has a later pub_date. |
| Database.CommentsOk | api_yamdb/reviews/models.py:159-175 | A row's id is its key, a comment's review and author are stored, and a higher id has a later pub_date. |
| Database.UsersOkInsert | api_yamdb/reviews/models.py:18-23 | A new account with a username and an email no one holds keeps them unique. |
| Database.InsertUserKeeps | api_yamdb/reviews/models.py:18-23 | Inserting such an account under the next id keeps every table constraint and counter. |
| Database.UpdateUserKeeps | api_yamdb/reviews/models.py:18-23 | Editing an account so that its username and email still clash with no other keeps every constraint. |
| Database.InsertCategoryKeeps | api_yamdb/reviews/models.py:51-53 | A category with an unused slug keeps every constraint. |
| Database.InsertGenreKeeps | api_yamdb/reviews/models.py:69-71 | A genre with an unused slug keeps every constraint. |
| Database.InsertTitleKeeps | api_yamdb/reviews/models.py:86-108 | A title with a year in range and resolving references keeps every constraint. |
| Database.UpdateTitleKeeps | api_yamdb/reviews/models.py:86-108 | Such a title edited in place keeps every constraint. |
| Database.InsertReviewKeeps | api_yamdb/reviews/models.py:131-153 | A first review by its author on its title, with a score in 1..10, under the next id and the current pub_date, keeps every constraint, the one-review-per-author one included. |
| Database.UpdateReviewKeeps | api_yamdb/reviews/models.py:131-136 | A new text and a score in 1..10 keep every constraint. |
| Database.InsertCommentKeeps | api_yamdb/reviews/models.py:159-175 | A comment on a stored review by a stored account keeps every constraint. |
| Database.UpdateCommentKeeps | api_yamdb/reviews/models.py:165 | A new text keeps every constraint. |
| Database.DeleteCommentKeeps | api_yamdb/reviews/models.py:159-164 | Deleting a comment keeps every constraint. |
| Database.DeleteReviewKeeps | api_yamdb/reviews/models.py:160-164 | Deleting a review with its comments (CASCADE) keeps every constraint. |
| Database.DeleteTitleKeeps | api_yamdb/reviews/models.py:119-124 | Deleting a title with its reviews and their comments keeps every constraint. |
| Database.DeleteCategoryKeeps | api_yamdb/reviews/models.py:101-107 | Deleting a category and nulling its titles' category (SET_NULL) keeps every constraint. |
| Database.DeleteGenreKeeps | api_yamdb/reviews/models.py:108 | Deleting a genre and its relation rows keeps every constraint. |
| Database.DeleteUserKeeps | api_yamdb/reviews/models.py:126-130 | Deleting an account with its reviews, its comments and the comments on its reviews keeps every constraint. |
| Database.CommentsOkAfterUser | api_yamdb/reviews/models.py:166-170 | The comments left after an account and its reviews go refer only to what is left. |
| Database.Store.Valid | api_yamdb/reviews/models.py:9-178 | The store's invariant: every table constraint (`UsersOk` … `CommentsOk`), ids below the counter, and pub_dates below the clock. Every Store method keeps it. |
| Database.Store.constructor | api_yamdb/reviews/models.py:9-35 | A store of accounts made outside the API satisfies the invariant, with empty catalogue and content tables. |
| Database.Store.InsertUser | api_yamdb/reviews/models.py:18-23 | Adds the account under the next id and keeps the invariant. |
| Database.Store.UpdateUser | api_yamdb/reviews/models.py:18-23 | Replaces the account and keeps the invariant. |
| Database.Store.InsertCategory | api_yamdb/reviews/models.py:46-53 | Adds the category and keeps the invariant. |
| Database.Store.InsertGenre | api_yamdb/reviews/models.py:64-71 | Adds the genre and keeps the invariant. |
| Database.Store.InsertTitle | api_yamdb/reviews/models.py:82-108 | Adds the title and keeps the invariant. |
| Database.Store.UpdateTitle | api_yamdb/reviews/models.py:82-108 | Replaces the title and keeps the invariant. |
| Database.Store.InsertReview | api_yamdb/reviews/models.py:138-153 | Adds the review stamped with the clock, ticks id and clock, and keeps the invariant. |
| Database.Store.UpdateReview | api_yamdb/reviews/models.py:125-136 | Changes only text and score and keeps the invariant. |
| Database.Store.InsertComment | api_yamdb/reviews/models.py:171-175 | Adds the comment stamped with the clock and keeps the invariant. |
| Database.Store.UpdateComment | api_yamdb/reviews/models.py:165 | Changes only the text and keeps the invariant. |
| Database.Store.DeleteComment | api_yamdb/reviews/models.py:159 | Removes the comment and keeps the invariant. |
| Database.Store.DeleteReview | api_yamdb/reviews/models.py:160-164 | Removes the review and exactly the comments on it. |
| Database.Store.DeleteTitle | api_yamdb/reviews/models.py:119-124 | Removes the title, exactly its reviews and the comments on them. |
| Database.Store.DeleteCategory | api_yamdb/reviews/models.py:101-107 | Removes the category. Every title stays, and those in the category lose it. |
| Database.Store.DeleteGenre | api_yamdb/reviews/models.py:108 | Removes the genre. Every title stays without it. |
| Database.Store.DeleteUser | api_yamdb/reviews/models.py:126-130 | Removes the account, its reviews, its comments and the comments on its reviews. |
| Database.Store.Deliver | api_yamdb/api/views.py:36-42 | Appends exactly one message to the outbox. |
| Views.Refusal | api_yamdb/api/permissions.py:6-14 | The answer to a request a permission class refuses: NotAuthenticated (401) exactly for the anonymous user, PermissionDenied (403) exactly for a signed-in one. The permission classes only return False. The framework's `permission_denied` makes this choice, and the model writes that choice here. |
| Views.ActorStored | api_yamdb/api/permissions.py:6-14 | A signed-in principal's account is stored, as authentication guarantees when it loads `request.user`. |
| Views.SignupCaseOf | api_yamdb/api/views.py:55-61 | Existing exactly when an account has the pair. Fresh exactly when neither the username nor the email is taken. |
| Views.SignupConflicts | api_yamdb/api/views.py:60-61 | A username held with another email, or an email held under another username, is a conflict. |
| Views.SignupTarget | api_yamdb/api/views.py:56-59 | The account get_or_create returns carries the pair, and is the new account when none existed. |
| Views.SendConfirmationCode | api_yamdb/api/views.py:45-65 | An invalid request or a conflict gives 400, creates nothing and sends no mail. Otherwise exactly one code goes to the pair's email, and the answer is 201 for a new account or 200 for an existing one. A mail failure fails the request and keeps a created account. |
| Views.GetJwtToken | api_yamdb/api/views.py:68-86 | An invalid request gives 400. An unknown username gives 404. A token is issued exactly when the checker accepts the code for that account, and it is the token for that account. |
| Views.Me | api_yamdb/api/views.py:104-119 | Anonymous gives 401. GET returns the caller's own account unchanged. PATCH validates a partial profile against the other accounts and saves it over the caller's account only. No role or staff flag changes. For a caller whose row is stored, the answer is its own account or a 400. |
| Views.MeFindsOwnRecord | api_yamdb/api/views.py:104-119 | For a stored caller, the lookup by username finds the caller's own row, so the object served passes `IsMe.has_object_permission`. |
| Views.AdminCreateUser | api_yamdb/api/views.py:89-102 | Only an admin may create. The account gets the validated role, "user" by default, under the next id. Nothing changes on failure. |
| Views.AdminUpdateUser | api_yamdb/api/views.py:89-102 | Only an admin may update. An unknown username gives 404. A valid profile is saved with the validated role. |
| Views.AdminDestroyUser | api_yamdb/api/views.py:89-102 | Only an admin may delete. An unknown username gives 404. The account goes with its reviews and comments. |
| Views.CategoryWithSlug | api_yamdb/api/views.py:135 | The category with that slug, or None exactly when no category has it. |
| Views.GenreWithSlug | api_yamdb/api/views.py:135 | The genre with that slug, or None exactly when no genre has it. |
| Views.GenresWithSlugs | api_yamdb/api/serializers.py:129-133 | Defined exactly when every slug names a genre, and then exactly the genres named. |
| Views.CreateCategory | api_yamdb/api/views.py:122-145 | Only an admin may create. The category is added exactly when the name and slug are valid and the slug is unused. |
| Views.CreateGenre | api_yamdb/api/views.py:122-153 | Only an admin may create. The genre is added exactly when the name and slug are valid and the slug is unused. |
| Views.DestroyCategory | api_yamdb/api/views.py:122-145 | Only an admin may delete. An unknown slug gives 404. The titles of the category stay without it. |
| Views.DestroyGenre | api_yamdb/api/views.py:122-153 | Only an admin may delete. An unknown slug gives 404. The titles stay without the genre. |
| Views.TitleSerializerFor | api_yamdb/api/views.py:165-168 | The read serializer is used exactly for list and retrieve. |
| Views.RetrieveTitle | api_yamdb/api/views.py:160 | A missing title gives 404. Otherwise the row with the mean score of its reviews. |
| Views.RetrievedRatingInScale | api_yamdb/api/views.py:160 | The rating shown is absent exactly when the title has no reviews, and otherwise lies in 1..10. |
| Views.ResolveTitleRefs | api_yamdb/api/serializers.py:129-137 | Succeeds exactly when every slug given names a row, and yields those rows. |
| Views.MergeTitle | api_yamdb/api/serializers.py:124-141 | Every field sent replaces the stored one and the others stay; a description sent as null clears it, and one left out keeps the stored one (null on creation). The id is kept. |
| Views.CreateTitle | api_yamdb/api/views.py:156-168 | Only an admin may create. The title is added exactly when every field is valid, the category is given, and every slug resolves. |
| Views.UpdateTitle | api_yamdb/api/views.py:156-168 | Only an admin may update. A missing title gives 404. Invalid fields or an unknown slug then give 400. A PUT needs every field, a PATCH any subset. |
| Views.DestroyTitle | api_yamdb/api/views.py:156-168 | Only an admin may delete. A missing title gives 404. Its reviews and their comments go too. |
| Views.ListReviews | api_yamdb/api/views.py:185-187 | A missing title gives 404. Otherwise exactly that title's reviews, newest first. |
| Views.ReviewUnder | api_yamdb/api/views.py:185-187 | A review is found exactly when it belongs to the stored title named in the URL. |
| Views.CreateReview | api_yamdb/api/views.py:181-183 | Anonymous gives 401, then invalid data or a second review by the author gives 400, then a missing title gives 404. The stored review has author = caller and title = the URL's title. |
| Views.UpdateReview | api_yamdb/api/views.py:171-187 | Anonymous gives 401, then a review not under the title gives 404, then a caller who is not an admin, a moderator or the author gives 403, then invalid fields give 400. Saved exactly otherwise. Only text and score change. |
| Views.DestroyReview | api_yamdb/api/views.py:171-187 | Anonymous gives 401, then a review not under the title gives 404, then a caller who is not an admin, a moderator or the author gives 403. Deleted exactly otherwise. Its comments go too. |
| Views.ParentReview | api_yamdb/api/views.py:208-213 | Found exactly when the review exists and belongs to the title named in the URL. |
| Views.ListComments | api_yamdb/api/views.py:208-214 | The parent review not found gives 404. Otherwise exactly its comments, newest first. |
| Views.CommentUnder | api_yamdb/api/views.py:208-214 | A comment is found exactly when it is on the parent review. |
| Views.CreateComment | api_yamdb/api/views.py:200-206 | Anonymous gives 401, then a blank text gives 400, then a missing parent review gives 404. The stored comment has author = caller and review = the parent. |
| Views.UpdateComment | api_yamdb/api/views.py:190-214 | Anonymous gives 401, then a comment not under the review gives 404, then a caller who is not an admin, a moderator or the author gives 403, then a blank text gives 400. Saved exactly otherwise. Only the text changes. |
| Views.DestroyComment | api_yamdb/api/views.py:190-214 | Anonymous gives 401, then a comment not under the review gives 404, then a caller who is not an admin, a moderator or the author gives 403. Deleted exactly otherwise. |

## Left out

- **Formats and truncation.**
  - Email format validation (`EmailField`) and the whitespace trimming of `CharField` are not modelled. Strings are compared as given.
- **External code.** The internals of `default_token_generator` (HMAC and timestamp) and of `AccessToken.for_user` are function parameters. The `.access_token()` call on the issued token is library code outside the model.
- **Mail.** `send_mail` is reduced to a boolean (delivered or not) and an outbox. Subject, sender and message text are not modelled.
- **Framework plumbing.** Pagination, `SearchFilter`, `TitleFilter`, the `import_data` command, response serialization and the 405 answer for unrouted methods are not modelled.
- **List endpoints.** The list endpoints for accounts, categories, genres and titles are framework listings with no constraint of their own, so no member models them; the retrieve of a title is modelled.
- **Rating representation.** The float `rating` field (`FloatField` over `Avg`) is modelled as an exact rational.
- **Real time.** Real clock values and `datetime.today()` are a monotonic counter and a constant year.
- **Concurrency.** Each request is atomic. Races between the check in `ReviewSerializer.validate` and the insert, and transactions, are not modelled.
- **The `me` action's object check.** The action never calls `get_object`, so the framework never applies `IsMe.has_object_permission` there. The model does not apply it either; instead `Views.Me` and `Views.MeFindsOwnRecord` prove that the record served satisfies `IsMeObject`.
- ValidateProfile: a null sent for a non-nullable field (`username`, `email`, `first_name`, `last_name`) is read as the field left out, whereas Django REST framework answers 400. Only `bio` tells null from absent.
- AdminRoleField: a `role` sent as null is read as left out, so a PUT with `"role": null` resets the role to `user` where the framework answers 400.
- ValidateReview: a null `text` or `score` is read as left out (400 on POST or PUT either way, but accepted on PATCH where the framework answers 400).
- ValidateComment: a null `text` is read as left out, with the same difference on PATCH.
- TitleFieldsOk: a null `name`, `year`, `category` or `genres` is read as left out. Only `description` tells null from absent.
