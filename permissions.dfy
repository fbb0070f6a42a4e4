/**
 * The access policies of api/permissions.py as predicates over the acting
 * principal, the HTTP method or viewset action, and the target object, and
 * the compositions views.py builds from them.
 */
module Permissions {
  import opened Users

  datatype Method = GET | HEAD | OPTIONS | POST | PUT | PATCH | DELETE

  /** rest_framework.permissions.SAFE_METHODS. */
  const SafeMethods: set<Method> := {GET, HEAD, OPTIONS}

  predicate IsSafe(m: Method)
  {
    m in SafeMethods
  }

  /** request.user: the anonymous user, or an account loaded by authentication. */
  datatype Principal = Anonymous | Authenticated(user: User)

  /** The viewset action a request is served by; Unrouted for methods a route does not map. */
  datatype Action = List | Create | Retrieve | Update | PartialUpdate | Destroy | Unrouted

  /**
   * The router's mapping of a method on a collection URL or a detail URL to
   * an action (HEAD is served like GET).
   */
  function RouteAction(m: Method, detail: bool): (a: Action)
    ensures a == List <==> !detail && (m == GET || m == HEAD)
    ensures a == Retrieve <==> detail && (m == GET || m == HEAD)
    ensures a == Create <==> !detail && m == POST
    ensures a == Update <==> detail && m == PUT
    ensures a == PartialUpdate <==> detail && m == PATCH
    ensures a == Destroy <==> detail && m == DELETE
  {
    match m
    case GET => if detail then Retrieve else List
    case HEAD => if detail then Retrieve else List
    case OPTIONS => Unrouted
    case POST => if detail then Unrouted else Create
    case PUT => if detail then Update else Unrouted
    case PATCH => if detail then PartialUpdate else Unrouted
    case DELETE => if detail then Destroy else Unrouted
  }

  /** IsReadOnly.has_permission. */
  function IsReadOnlyAllows(m: Method): (allowed: bool)
    ensures allowed <==> m == GET || m == HEAD || m == OPTIONS
  {
    IsSafe(m)
  }

  /** IsAdminRole.has_permission: IsAuthenticated's check, then is_admin. */
  function IsAdminRoleAllows(p: Principal): (allowed: bool)
    ensures allowed <==> p.Authenticated? && (p.user.role == AdminRole || p.user.isStaff)
  {
    p.Authenticated? && IsAdmin(p.user)
  }

  /**
   * The permission of the catalogue endpoints (categories, genres, titles):
   * IsReadOnly | IsAdminRole.
   */
  function CatalogAllows(p: Principal, m: Method): (allowed: bool)
    ensures allowed <==> IsSafe(m) || (p.Authenticated? && IsAdmin(p.user))
    ensures p.Anonymous? ==> (allowed <==> IsSafe(m))
  {
    IsReadOnlyAllows(m) || IsAdminRoleAllows(p)
  }

  /**
   * RetrieveOnlyOrHasCUDPermissions.has_permission, inherited from
   * IsAuthenticatedOrReadOnly: safe methods for anyone, the rest for
   * authenticated principals.
   */
  function ContentAllows(p: Principal, m: Method): (allowed: bool)
    ensures p.Anonymous? ==> (allowed <==> m in {GET, HEAD, OPTIONS})
    ensures p.Authenticated? ==> allowed
  {
    IsSafe(m) || p.Authenticated?
  }

  /**
   * The result of an object-level check. Fault stands for the exception the
   * source raises when it asks the anonymous user for is_admin, an attribute
   * AnonymousUser does not have.
   */
  datatype Decision = Allow | Deny | Fault

  /**
   * RetrieveOnlyOrHasCUDPermissions.has_object_permission on an object whose
   * author has id authorId. Accounts are equal when their ids are.
   */
  function ContentObjectDecision(p: Principal, a: Action, authorId: nat): (d: Decision)
    ensures a == Retrieve ==> d == Allow
    ensures a != Retrieve && p.Authenticated? ==>
      (d == Allow <==> IsAdmin(p.user) || IsModerator(p.user) || p.user.id == authorId)
    ensures d == Fault <==> a != Retrieve && p.Anonymous?
  {
    if a == Retrieve then Allow
    else if p.Anonymous? then Fault
    else if IsAdmin(p.user) || IsModerator(p.user) || p.user.id == authorId then Allow
    else Deny
  }

  /** IsMe.has_permission. */
  function IsMeAllows(p: Principal): (allowed: bool)
    ensures p.Anonymous? ==> !allowed
    ensures p.Authenticated? ==> allowed
  {
    p.Authenticated?
  }

  /** IsMe.has_object_permission: the object is the requesting account itself. */
  function IsMeObject(p: Principal, target: User): (allowed: bool)
    ensures p.Anonymous? ==> !allowed
    ensures p.Authenticated? ==> (allowed <==> p.user.id == target.id)
  {
    p.Authenticated? && p.user.id == target.id
  }

  /**
   * The whole check a review or comment request goes through: the view-level
   * permission and, for an action that fetches a single object, the
   * object-level one.
   */
  function ContentRequestDecision(p: Principal, m: Method, detail: bool, authorId: nat): Decision
  {
    if !ContentAllows(p, m) then Deny
    else if detail && RouteAction(m, detail) != Unrouted then ContentObjectDecision(p, RouteAction(m, detail), authorId)
    else Allow
  }

  /** An anonymous principal can never create, change or delete a review or a comment. */
  lemma AnonymousCannotWrite(m: Method, detail: bool, authorId: nat)
    requires !IsSafe(m)
    ensures ContentRequestDecision(Anonymous, m, detail, authorId) == Deny
    ensures !CatalogAllows(Anonymous, m)
  {
  }

  /** Anyone, signed in or not, may retrieve any single review or comment. */
  lemma AnyoneRetrieves(p: Principal, authorId: nat)
    ensures ContentRequestDecision(p, GET, true, authorId) == Allow
    ensures ContentRequestDecision(p, HEAD, true, authorId) == Allow
  {
  }

  /**
   * The object-level check is only reached with an authenticated principal
   * or for a retrieve, so the fault in it never happens on a routed request.
   */
  lemma RoutedRequestsNeverFault(p: Principal, m: Method, detail: bool, authorId: nat)
    ensures ContentRequestDecision(p, m, detail, authorId) != Fault
  {
    if ContentAllows(p, m) && detail && RouteAction(m, detail) != Unrouted && RouteAction(m, detail) != Retrieve {
      assert !IsSafe(m);
    }
  }

  /**
   * A signed-in account with the plain role and no staff flag may not
   * change or delete someone else's review or comment.
   */
  lemma PlainUserCannotModifyOthers(u: User, m: Method, authorId: nat)
    requires u.role == UserRole && !u.isStaff && u.id != authorId
    requires m in {PUT, PATCH, DELETE}
    ensures ContentRequestDecision(Authenticated(u), m, true, authorId) == Deny
  {
  }

  /**
   * For an authenticated principal, a change or deletion of one object is
   * allowed exactly for administrators, moderators and the object's author.
   */
  lemma ModifyAllowedIff(u: User, m: Method, authorId: nat)
    requires m in {PUT, PATCH, DELETE}
    ensures ContentRequestDecision(Authenticated(u), m, true, authorId) == Allow
        <==> IsAdmin(u) || IsModerator(u) || u.id == authorId
  {
  }
}
