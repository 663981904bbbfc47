/** The enumerations shared by the tables and the screens: user roles and voucher statuses,
    with the lower-case names the database and the messages use. */
module Schema {

  datatype Role = Admin | Requester | Approver

  datatype Status = Pending | Approved | Rejected

  type UserId = string

  /** Milliseconds since the epoch; the ISO-8601 text the database stores is not modelled. */
  type Timestamp = int

  /** A voucher amount in whole paise. */
  type Amount = int

  /** The role's string in the `UserRole` union: lower-case letters only. */
  function RoleName(r: Role): (name: string)
    ensures |name| > 0
    ensures forall i | 0 <= i < |name| :: 'a' <= name[i] <= 'z'
  {
    match r
    case Admin => "admin"
    case Requester => "requester"
    case Approver => "approver"
  }

  /** Distinct roles have distinct names, so comparing names compares roles. */
  lemma RoleNameInjective(a: Role, b: Role)
    ensures RoleName(a) == RoleName(b) <==> a == b
  {
    if a != b {
      assert RoleName(a)[0] != RoleName(b)[0] || RoleName(a)[1] != RoleName(b)[1];
    }
  }
}
