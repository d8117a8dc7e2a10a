// Column types of prisma/schema.prisma, the errors a request can end with and
// the caller's identity (TenantContext).
module Schema {
  import opened Wrappers
  import opened Tables

  // Milliseconds since the epoch, as Date.now() counts them.
  type Millis = nat

  // An ideal one-way hash: deterministic and collision free.
  datatype Digest<+T> = Digest(preimage: T)

  datatype Role = OWNER | ADMIN | MANAGER | AGENT

  datatype User = User(
    email: string, passwordHash: Digest<string>,
    firstName: Option<string>, lastName: Option<string>, avatarUrl: Option<string>,
    role: Role, isActive: bool, emailVerified: bool, lastLoginAt: Option<Millis>)

  // A user without the password hash.
  datatype SafeUser = SafeUser(
    id: Id, org: OrgId, email: string, firstName: Option<string>, lastName: Option<string>,
    avatarUrl: Option<string>, role: Role, isActive: bool, emailVerified: bool, lastLoginAt: Option<Millis>)

  /** UserService.sanitize */
  function Sanitize(id: Id, user: Owned<User>): SafeUser {
    var u := user.row;
    SafeUser(id, user.org, u.email, u.firstName, u.lastName, u.avatarUrl, u.role, u.isActive, u.emailVerified,
             u.lastLoginAt)
  }

  datatype Failure =
    | NotFound
    | CustomerNotInOrg
    | AgentNotInOrg
    | OwnerOnly
    | UniqueViolation
    | ForeignKeyViolation
    | InvalidCredentials
    | InvalidRefreshToken
    | RefreshReuse
    | RefreshExpired
    | AccountInactive
    | InvalidVerification
    | WrongPassword
    | Unauthorized
}
