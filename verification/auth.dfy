/** The session guards in front of the routes: any logged-in user, customers
    only, restaurants only. A guard either passes the request on or answers
    401 with a fixed message; it never does both. */
module Auth {
  import opened Wrappers

  datatype User = User(id: nat, role: string)

  /** The request's session; `user` is absent when nobody is logged in. */
  datatype Session = Session(user: Option<User>)

  datatype Verdict = Next | Reject(code: int, error: string)

  const CustomerRole := "customer"
  const RestaurantRole := "restaurant"

  predicate HasRole(s: Session, role: string) {
    s.user.Some? && s.user.value.role == role
  }

  function IsAuthenticated(s: Session): (r: Verdict)
    ensures r.Next? <==> s.user.Some?
    ensures r.Reject? ==> r == Reject(401, "Unauthorized - Please login first")
  {
    if s.user.None? then Reject(401, "Unauthorized - Please login first") else Next
  }

  function IsCustomer(s: Session): (r: Verdict)
    ensures r.Next? <==> HasRole(s, CustomerRole)
    ensures r.Reject? ==> r == Reject(401, "Unauthorized - Customer access only")
  {
    if s.user.None? || s.user.value.role != CustomerRole
    then Reject(401, "Unauthorized - Customer access only")
    else Next
  }

  function IsRestaurant(s: Session): (r: Verdict)
    ensures r.Next? <==> HasRole(s, RestaurantRole)
    ensures r.Reject? ==> r == Reject(401, "Unauthorized - Restaurant access only")
  {
    if s.user.None? || s.user.value.role != RestaurantRole
    then Reject(401, "Unauthorized - Restaurant access only")
    else Next
  }

  /** The role guards are stricter than the login guard, and no session
      passes both of them. */
  lemma RoleGuardsExclusive(s: Session)
    ensures IsCustomer(s).Next? ==> IsAuthenticated(s).Next?
    ensures IsRestaurant(s).Next? ==> IsAuthenticated(s).Next?
    ensures !(IsCustomer(s).Next? && IsRestaurant(s).Next?)
  {
  }
}
