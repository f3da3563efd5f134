/** The account roles (classes.py). Role is a string enum: each member is equal to its name. */
module Roles {
  import opened Wrappers

  datatype Role = Admin | Owner | Employee {

    /** The string the enum member stands for. */
    function Name(): (s: string)
      ensures |s| > 0
    {
      match this
      case Admin => "admin"
      case Owner => "owner"
      case Employee => "employee"
    }
  }

  /** `Role(s)`: the member whose value is `s`, if there is one. */
  function Parse(s: string): (r: Option<Role>)
    ensures r.Some? ==> r.value.Name() == s
  {
    if s == "admin" then Some(Admin)
    else if s == "owner" then Some(Owner)
    else if s == "employee" then Some(Employee)
    else None
  }

  /** Every role's name parses back to that role, and the three names differ. */
  lemma {:induction false} ParseName(r: Role)
    ensures Parse(r.Name()) == Some(r)
  {
    match r
    case Admin =>
    case Owner =>
    case Employee =>
  }
}
