/** The navigation bar of frontend/src/components/Navbar.js: hidden on the
    login and register pages, a profile link chosen by role for a signed-in
    user and a login link otherwise. Styling and the logo are left out; the
    bar is described by the texts and targets of its links. */
module Navbar {
  import opened Collections

  datatype User = User(username: string, role: string)

  datatype NavLink = NavLink(text: string, to: string)

  /** What the component renders: an optional greeting and the links, left to right. */
  datatype NavBar = NavBar(welcome: Option<string>, links: seq<NavLink>)

  const HiddenRoutes: seq<string> := ["/login", "/register"]

  /** `hideNavbarRoutes.includes(location.pathname)`. */
  predicate Hidden(path: string) {
    path in HiddenRoutes
  }

  /** `getProfileLink`: each role's dashboard, the home page for any other role. */
  function ProfileLink(role: string): (to: string)
    ensures to == "/tenant-dashboard" <==> role == "Tenant"
    ensures to == "/owner-dashboard" <==> role == "Owner"
    ensures to == "/" <==> role != "Tenant" && role != "Owner"
  {
    if role == "Tenant" then "/tenant-dashboard"
    else if role == "Owner" then "/owner-dashboard"
    else "/"
  }

  /** The whole component for the current path and user. */
  function Render(path: string, user: Option<User>): (r: Option<NavBar>)
    ensures r.None? <==> path == "/login" || path == "/register"
    ensures r.Some? ==>
      && |r.value.links| == 3
      && r.value.links[0] == NavLink("RentEase", "/")
      && r.value.links[1] == NavLink("Map View", "/mapview")
    ensures r.Some? && user.Some? ==>
      && r.value.welcome == Some("Welcome, " + user.value.username)
      && r.value.links[2] == NavLink("Profile", ProfileLink(user.value.role))
    ensures r.Some? && user.None? ==>
      r.value.welcome.None? && r.value.links[2] == NavLink("Login", "/login")
  {
    if Hidden(path) then None
    else
      var brand := [NavLink("RentEase", "/"), NavLink("Map View", "/mapview")];
      match user
      case Some(u) => Some(NavBar(Some("Welcome, " + u.username), brand + [NavLink("Profile", ProfileLink(u.role))]))
      case None => Some(NavBar(None, brand + [NavLink("Login", "/login")]))
  }

  /** A signed-in user is never offered the login page, a visitor always is,
      and no link leads to the register page; every link but the login link
      leads to a page that shows the bar again. */
  lemma LinksOfRender(path: string, user: Option<User>, i: nat)
    requires Render(path, user).Some? && i < |Render(path, user).value.links|
    ensures var l := Render(path, user).value.links[i];
      && l.to != "/register"
      && (l.to == "/login" <==> user.None? && i == 2)
      && (l.to != "/login" ==> Render(l.to, user).Some?)
  {
    var l := Render(path, user).value.links[i];
    if i == 2 && user.Some? {
      var to := ProfileLink(user.value.role);
      assert to == "/tenant-dashboard" || to == "/owner-dashboard" || to == "/";
    }
  }
}
