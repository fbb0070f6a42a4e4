/**
 * Accounts and their roles, after class User of reviews/models.py: the
 * three role choices, the width of the role column, and the derived
 * capabilities is_admin and is_moderator.
 */
module Users {
  import opened Wrappers

  datatype Role = UserRole | ModeratorRole | AdminRole

  /** The value stored in the role column for each choice (User.USER, User.MODERATOR, User.ADMIN). */
  function RoleKey(r: Role): string
  {
    match r
    case UserRole => "user"
    case ModeratorRole => "moderator"
    case AdminRole => "admin"
  }

  /** User.CHOICES, in the order the source lists them. */
  const Choices: seq<Role> := [UserRole, ModeratorRole, AdminRole]

  /** The role a new account gets when none is given (default=USER). */
  const DefaultRole: Role := UserRole

  /** The keys of a list of choices, position by position. */
  function ChoiceKeys(choices: seq<Role>): (keys: seq<string>)
    ensures |keys| == |choices|
    ensures forall i :: 0 <= i < |choices| ==> keys[i] == RoleKey(choices[i])
  {
    seq(|choices|, i requires 0 <= i < |choices| => RoleKey(choices[i]))
  }

  /**
   * The length of the longest key: max(len(choice) for choice, _ in CHOICES).
   * Python's max refuses an empty sequence, hence the precondition.
   */
  function MaxLength(keys: seq<string>): (n: nat)
    requires |keys| > 0
    ensures forall i :: 0 <= i < |keys| ==> |keys[i]| <= n
    ensures exists i :: 0 <= i < |keys| && |keys[i]| == n
  {
    if |keys| == 1 then |keys[0]|
    else
      var rest := MaxLength(keys[1..]);
      assert forall i :: 1 <= i < |keys| ==> keys[i] == keys[1..][i - 1];
      if |keys[0]| >= rest then |keys[0]| else rest
  }

  /** max_length of the role column. */
  const RoleMaxLength: nat := MaxLength(ChoiceKeys(Choices))

  /** Every choice fits the role column, and the column is exactly as wide as "moderator". */
  lemma RoleColumnFitsEveryChoice()
    ensures RoleMaxLength == 9
    ensures forall r: Role :: |RoleKey(r)| <= RoleMaxLength
    ensures forall r: Role :: r in Choices
  {
    var keys := ChoiceKeys(Choices);
    assert keys == ["user", "moderator", "admin"];
    assert |keys[1]| == 9;
    forall r: Role ensures r in Choices {
      match r
      case UserRole => assert Choices[0] == r;
      case ModeratorRole => assert Choices[1] == r;
      case AdminRole => assert Choices[2] == r;
    }
  }

  /** The choice a ChoiceField(choices=User.CHOICES) accepts for an input string, if any. */
  function ParseRole(s: string): (r: Option<Role>)
    ensures r.Some? ==> RoleKey(r.value) == s
    ensures r.None? <==> forall x: Role :: RoleKey(x) != s
  {
    if s == "user" then Some(UserRole)
    else if s == "moderator" then Some(ModeratorRole)
    else if s == "admin" then Some(AdminRole)
    else None
  }

  /** Parsing a stored key gives back its choice: the keys identify the roles. */
  lemma ParseRoleKey(x: Role)
    ensures ParseRole(RoleKey(x)) == Some(x)
  {
  }

  /**
   * The account fields the core reads. isStaff is AbstractUser.is_staff;
   * passwords, is_superuser, last_login and the like play no part here.
   */
  datatype User = User(
    id: nat,
    username: string,
    email: string,
    firstName: string,
    lastName: string,
    bio: Option<string>,
    role: Role,
    isStaff: bool)

  /** User.is_admin: the admin role or the staff flag. */
  predicate IsAdmin(u: User)
  {
    u.role == AdminRole || u.isStaff
  }

  /** User.is_moderator: the moderator role; the staff flag plays no part. */
  predicate IsModerator(u: User)
  {
    u.role == ModeratorRole
  }

  /** A staff account is an administrator whatever role it holds, and staff does not make a moderator. */
  lemma StaffIsAdminNotModerator(u: User)
    requires u.isStaff
    ensures IsAdmin(u)
    ensures IsModerator(u) <==> u.role == ModeratorRole
  {
  }

  /** Without the staff flag, at most one of the two capabilities holds, and neither for the plain role. */
  lemma CapabilitiesOfNonStaff(u: User)
    requires !u.isStaff
    ensures !(IsAdmin(u) && IsModerator(u))
    ensures u.role == UserRole <==> !IsAdmin(u) && !IsModerator(u)
  {
  }

  const UsernameMaxLength: nat := 150
  const EmailMaxLength: nat := 254
  const PersonNameMaxLength: nat := 150
}
