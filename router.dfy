/** The route table of the Vue package and its navigation guard. Routes for
    the application pages are generated from a small descriptor table; the
    account pages are listed by hand. Before every navigation the guard
    decides, from the destination and whether the user is logged in, what
    to pass to `next`, and it may call `next` twice. */
module VueRouter {
  import opened JsBuiltins

  datatype Layout = DefaultLayout | SimpleLayout

  datatype Meta = Meta(requiresAuth: bool, layout: Layout, title: Option<string>)

  /** A route record. `component` is the page module the route's lazy
      loader imports. */
  datatype RouteRecord = RouteRecord(
    path: string,
    name: Option<string>,
    meta: Option<Meta>,
    component: Option<string>,
    redirect: Option<string>)

  /** One entry of the page descriptor table; absent fields are `undefined`. */
  datatype PageDescriptor = PageDescriptor(folder: Option<string>, name: Option<string>, file: Option<string>)

  const LoginFormName := "login-form"
  const HomeName := "home"

  /** The module `loadComponent(fileName)` imports:
      `@/pages/${fileName}.vue`. */
  function PageModule(fileName: string): (m: string)
    ensures PageFileName(m) == Some(fileName)
  {
    var m := "@/pages/" + fileName + ".vue";
    assert m[..8] == "@/pages/" && m[|m| - 4..] == ".vue" && m[8..|m| - 4] == fileName;
    m
  }

  /** The file name inside a page module path, when it has that shape. */
  function PageFileName(m: string): Option<string> {
    if |m| >= 12 && m[..8] == "@/pages/" && m[|m| - 4..] == ".vue"
    then Some(m[8..|m| - 4]) else None
  }

  /** Distinct file names load distinct page modules. */
  lemma PageModuleInjective(f: string, g: string)
    requires PageModule(f) == PageModule(g)
    ensures f == g
  {
    assert Some(f) == PageFileName(PageModule(f)) == PageFileName(PageModule(g)) == Some(g);
  }

  /** `[folder, name, name, file].filter(Boolean).join('/')`: empty exactly
      when the descriptor sets no field. */
  function ComponentPath(d: PageDescriptor): (p: string)
    ensures p == "" <==> !(Truthy(d.folder) || Truthy(d.name) || Truthy(d.file))
  {
    var vs := [d.folder, d.name, d.name, d.file];
    var xs := TruthyValues(vs);
    assert Truthy(d.folder) ==> vs[0].value in xs;
    assert Truthy(d.name) ==> vs[1].value in xs;
    assert Truthy(d.file) ==> vs[3].value in xs;
    assert xs != [] ==> Truthy(d.folder) || Truthy(d.name) || Truthy(d.file) by {
      if xs != [] {
        TruthyValueOfIndex(xs[0], vs);
      }
    }
    Join(xs, "/")
  }

  /** `/${name || file}`: the name when it is truthy, else the file. */
  function PagePath(d: PageDescriptor): (p: string)
    ensures |p| >= 1 && p[0] == '/'
    ensures Truthy(d.name) || Truthy(d.file) ==>
      p == "/" + (if Truthy(d.name) then d.name.value else d.file.value)
  {
    "/" + Interpolate(Or(d.name, d.file))
  }

  /** A descriptor with neither a truthy name nor a file gets the path
      `/undefined`. */
  lemma PagePathUndefined(d: PageDescriptor)
    requires !Truthy(d.name) && d.file.None?
    ensures PagePath(d)[1..] == "undefined"
  {
    assert PagePath(d) == "/" + "undefined";
  }

  /** The route the table's `map` produces for one descriptor: it requires
      authentication, uses the default layout, has neither a name nor a
      redirect, and its path is `/` with the name, or the file when there is
      no name. */
  function PageRoute(d: PageDescriptor): (r: RouteRecord)
    ensures RequiresAuth(r) && r.meta.value.layout == DefaultLayout
    ensures r.name.None? && r.redirect.None?
    ensures Truthy(d.name) || Truthy(d.file) ==>
      r.path == "/" + (if Truthy(d.name) then d.name.value else d.file.value)
  {
    RouteRecord(PagePath(d), None, Some(Meta(true, DefaultLayout, None)),
                Some(PageModule(ComponentPath(d))), None)
  }

  const PageDescriptors: seq<PageDescriptor> := [
    PageDescriptor(None, Some("crm-contact-list"), None),
    PageDescriptor(None, Some("crm-contact-details"), None),
    PageDescriptor(Some("planning"), Some("planning-task-list"), None),
    PageDescriptor(Some("planning"), None, Some("planning-task-details")),
    PageDescriptor(Some("analytics"), Some("analytics-dashboard"), None),
    PageDescriptor(Some("analytics"), Some("analytics-sales-report"), None),
    PageDescriptor(Some("analytics"), Some("analytics-geography"), None)
  ]

  function PageRoutes(ds: seq<PageDescriptor>): (rs: seq<RouteRecord>)
    ensures |rs| == |ds|
    ensures forall i :: 0 <= i < |ds| ==> rs[i] == PageRoute(ds[i])
  {
    seq(|ds|, i requires 0 <= i < |ds| => PageRoute(ds[i]))
  }

  function AccountRoute(path: string, name: string, title: string, file: string): RouteRecord {
    RouteRecord(path, Some(name), Some(Meta(false, SimpleLayout, Some(title))), Some(PageModule(file)), None)
  }

  /** The router's `routes` option, in order: the root redirect, the four
      account routes, then one route per page descriptor. */
  function RouteTable(): (t: seq<RouteRecord>)
    ensures |t| == 5 + |PageDescriptors|
  {
    [ RouteRecord("/", None, None, None, Some("/crm-contact-list")),
      AccountRoute("/login-form", LoginFormName, "Sign In", "login-form"),
      AccountRoute("/reset-password", "reset-password", "Reset Password", "reset-password-form"),
      AccountRoute("/create-account", "create-account", "Sign Up", "create-account-form"),
      AccountRoute("/change-password/:recoveryCode", "change-password", "Change Password", "change-password-form")
    ] + PageRoutes(PageDescriptors)
  }

  /** The root redirects to a route of the table: the first page route. */
  lemma RootRedirectsToFirstPage()
    ensures RouteTable()[0].redirect == Some(RouteTable()[5].path)
  {
    var t := RouteTable();
    var d := PageDescriptors[0];
    PageRouteAt(5);
    assert Truthy(d.name) && d.name.value == "crm-contact-list";
    assert t[5].path == "/" + "crm-contact-list";
    RootRedirectLiteral();
  }

  /** The concatenation behind the first page route's path, written out
      on its own so the solver meets the two literals in a small context. */
  lemma RootRedirectLiteral()
    ensures "/" + "crm-contact-list" == "/crm-contact-list"
  {
  }

  /** Every path of the table is absolute. */
  lemma RoutePathsAbsolute()
    ensures forall r :: r in RouteTable() ==> |r.path| >= 1 && r.path[0] == '/'
  {
    var t := RouteTable();
    forall r | r in t
      ensures |r.path| >= 1 && r.path[0] == '/'
    {
      var i :| 0 <= i < |t| && t[i] == r;
      if i < 5 {
        AccountRouteAt(i);
      } else {
        PageRouteAt(i);
      }
    }
  }

  /** The first five routes: the root redirect, which has neither a name
      nor a meta, and the four named account routes; none requires
      authentication and every path is absolute. */
  lemma AccountRouteAt(i: int)
    requires 0 <= i < 5
    ensures var r := RouteTable()[i];
      && !RequiresAuth(r)
      && (r.redirect.Some? <==> i == 0)
      && (r.name.Some? <==> i != 0)
      && (r.name.Some? ==> IsAccountRouteName(r.name.value))
      && |r.path| >= 1 && r.path[0] == '/'
  {
  }

  /** Past the root and the account routes, the table holds the generated
      page routes in descriptor order. */
  lemma PageRouteAt(i: int)
    requires 5 <= i < |RouteTable()|
    ensures RouteTable()[i] == PageRoute(PageDescriptors[i - 5])
  {
  }

  /** `record.meta.requiresAuth`, falsy when the record has no meta. */
  predicate RequiresAuth(r: RouteRecord) {
    r.meta.Some? && r.meta.value.requiresAuth
  }

  /** When no descriptor field contains `/` and some field is set, the
      component path splits back into the set fields, in the order folder,
      name, name, file. */
  lemma ComponentPathSegments(d: PageDescriptor)
    requires Truthy(d.folder) || Truthy(d.name) || Truthy(d.file)
    requires forall v :: v in [d.folder, d.name, d.file] && v.Some? ==> '/' !in v.value
    ensures Split(ComponentPath(d), '/') == TruthyValues([d.folder, d.name, d.name, d.file])
  {
    var vs := [d.folder, d.name, d.name, d.file];
    var xs := TruthyValues(vs);
    forall i | 0 <= i < |xs|
      ensures '/' !in xs[i]
    {
      TruthyValueOfIndex(xs[i], vs);
      var j :| 0 <= j < |vs| && Truthy(vs[j]) && vs[j].value == xs[i];
      assert vs[j] in [d.folder, d.name, d.file];
    }
    assert Truthy(d.folder) ==> vs[0].value in xs;
    assert Truthy(d.name) ==> vs[1].value in xs;
    assert Truthy(d.file) ==> vs[3].value in xs;
    SplitJoin(xs, '/');
  }

  /** The filter of the four component path parts, part by part. */
  lemma TruthyValuesFour(a: Option<string>, b: Option<string>, c: Option<string>, e: Option<string>)
    ensures TruthyValues([a, b, c, e])
      == TruthyValues([a]) + (TruthyValues([b]) + (TruthyValues([c]) + TruthyValues([e])))
  {
    TruthyValuesAppend([c], [e]);
    assert [c] + [e] == [c, e];
    TruthyValuesAppend([b], [c, e]);
    assert [b] + [c, e] == [b, c, e];
    TruthyValuesAppend([a], [b, c, e]);
    assert [a] + [b, c, e] == [a, b, c, e];
  }

  /** Joining two pieces with `/`. */
  lemma JoinTwo(a: string, b: string)
    ensures Join([a, b], "/") == a + "/" + b
  {
    assert [a, b][1..] == [b];
  }

  /** Joining three pieces with `/`. */
  lemma JoinThree(a: string, b: string, c: string)
    ensures Join([a, b, c], "/") == a + "/" + b + "/" + c
  {
    assert [a, b, c][1..] == [b, c];
    JoinTwo(b, c);
  }

  /** A descriptor with only a name loads `name/name`. */
  lemma ComponentPathNameOnly(name: string)
    requires name != ""
    ensures ComponentPath(PageDescriptor(None, Some(name), None)) == name + "/" + name
  {
    var none: Option<string> := None;
    var d := PageDescriptor(None, Some(name), None);
    assert ComponentPath(d) == Join(TruthyValues([none, Some(name), Some(name), none]), "/");
    FilterNameOnly(name);
    JoinTwo(name, name);
  }

  /** The set parts of a descriptor with only a name. */
  lemma FilterNameOnly(name: string)
    requires name != ""
    ensures TruthyValues([None, Some(name), Some(name), None]) == [name, name]
  {
    var none: Option<string> := None;
    assert [] + ([name] + ([name] + [])) == [name, name];
    TruthyValuesSingle(none);
    TruthyValuesSingle(Some(name));
    TruthyValuesFour(none, Some(name), Some(name), none);
  }

  /** A descriptor with a folder and a name loads `folder/name/name`. */
  lemma ComponentPathFolderName(folder: string, name: string)
    requires folder != "" && name != ""
    ensures ComponentPath(PageDescriptor(Some(folder), Some(name), None)) == folder + "/" + name + "/" + name
  {
    var none: Option<string> := None;
    var d := PageDescriptor(Some(folder), Some(name), None);
    assert ComponentPath(d) == Join(TruthyValues([Some(folder), Some(name), Some(name), none]), "/");
    FilterFolderName(folder, name);
    JoinThree(folder, name, name);
  }

  /** The set parts of a descriptor with a folder and a name. */
  lemma FilterFolderName(folder: string, name: string)
    requires folder != "" && name != ""
    ensures TruthyValues([Some(folder), Some(name), Some(name), None]) == [folder, name, name]
  {
    assert [folder] + ([name] + ([name] + [])) == [folder, name, name];
    var none: Option<string> := None;
    TruthyValuesSingle(Some(folder));
    TruthyValuesSingle(none);
    TruthyValuesSingle(Some(name));
    TruthyValuesFour(Some(folder), Some(name), Some(name), none);
  }

  /** A descriptor with a folder and a file loads `folder/file`. */
  lemma ComponentPathFolderFile(folder: string, file: string)
    requires folder != "" && file != ""
    ensures ComponentPath(PageDescriptor(Some(folder), None, Some(file))) == folder + "/" + file
  {
    var none: Option<string> := None;
    var d := PageDescriptor(Some(folder), None, Some(file));
    assert ComponentPath(d) == Join(TruthyValues([Some(folder), none, none, Some(file)]), "/");
    FilterFolderFile(folder, file);
    JoinTwo(folder, file);
  }

  /** The set parts of a descriptor with a folder and a file. */
  lemma FilterFolderFile(folder: string, file: string)
    requires folder != "" && file != ""
    ensures TruthyValues([Some(folder), None, None, Some(file)]) == [folder, file]
  {
    assert [folder] + ([] + ([] + [file])) == [folder, file];
    var none: Option<string> := None;
    TruthyValuesSingle(Some(folder));
    TruthyValuesSingle(none);
    TruthyValuesSingle(Some(file));
    TruthyValuesFour(Some(folder), none, none, Some(file));
  }

  /** The component module of `crm-contact-list`: the name serves as
      folder and as file. */
  lemma CrmContactListComponent()
    ensures RouteTable()[5].component == Some(PageModule("crm-contact-list" + "/" + "crm-contact-list"))
  {
    var t := RouteTable();
    var d := PageDescriptors[0];
    assert d == PageDescriptor(None, Some("crm-contact-list"), None);
    PageRouteAt(5);
    assert t[5].component == Some(PageModule(ComponentPath(d)));
    ComponentPathNameOnly("crm-contact-list");
  }

  /** The component module of `planning-task-details`: a file under the
      `planning` folder. */
  lemma PlanningTaskDetailsComponent()
    ensures RouteTable()[8].component == Some(PageModule("planning" + "/" + "planning-task-details"))
  {
    var t := RouteTable();
    var d := PageDescriptors[3];
    assert d == PageDescriptor(Some("planning"), None, Some("planning-task-details"));
    PageRouteAt(8);
    assert t[8].component == Some(PageModule(ComponentPath(d)));
    ComponentPathFolderFile("planning", "planning-task-details");
  }

  /** Every generated route of the table requires authentication, has no
      name, and has the path `/` followed by its descriptor's name, or its
      file when it has no name; as every descriptor has one of the two, no
      generated path is `/undefined`. */
  lemma PageRoutesProtected()
    ensures forall i :: 5 <= i < |RouteTable()| ==>
      var r, d := RouteTable()[i], PageDescriptors[i - 5];
      && RequiresAuth(r)
      && r.meta.value.layout == DefaultLayout
      && r.name.None?
      && (Truthy(d.name) || Truthy(d.file))
      && r.path == "/" + (if Truthy(d.name) then d.name.value else d.file.value)
  {
    var t := RouteTable();
    PageDescriptorsNamed();
    PageRoutesShape(PageDescriptors);
    forall i | 5 <= i < |t|
      ensures t[i] == PageRoutes(PageDescriptors)[i - 5]
    {
      PageRouteAt(i);
    }
  }

  /** The routes generated from descriptors that each have a name or a
      file, in the terms of those descriptors. */
  lemma PageRoutesShape(ds: seq<PageDescriptor>)
    requires forall k :: 0 <= k < |ds| ==> Truthy(ds[k].name) || Truthy(ds[k].file)
    ensures forall k :: 0 <= k < |ds| ==>
      var r, d := PageRoutes(ds)[k], ds[k];
      && RequiresAuth(r)
      && r.meta.value.layout == DefaultLayout
      && r.name.None?
      && r.path == "/" + (if Truthy(d.name) then d.name.value else d.file.value)
  {
  }

  /** Every descriptor of the table has a name or a file. */
  lemma PageDescriptorsNamed()
    ensures forall k :: 0 <= k < |PageDescriptors| ==>
      Truthy(PageDescriptors[k].name) || Truthy(PageDescriptors[k].file)
  {
  }

  /** The names of the account routes. */
  predicate IsAccountRouteName(n: string) {
    n == LoginFormName || n == "reset-password" || n == "create-account" || n == "change-password"
  }

  /** The four account routes are all in the table. */
  lemma AccountRoutesPresent()
    ensures forall n :: IsAccountRouteName(n) ==>
      exists r :: r in RouteTable() && r.name == Some(n)
  {
    var t := RouteTable();
    forall n | IsAccountRouteName(n)
      ensures exists r :: r in t && r.name == Some(n)
    {
      var i := if n == LoginFormName then 1 else if n == "reset-password" then 2
               else if n == "create-account" then 3 else 4;
      assert t[i].name == Some(n);
    }
  }

  /** Only the account routes carry a name, and all of them are public. */
  lemma AccountRoutesPublic()
    ensures forall r :: r in RouteTable() && r.name.Some? ==>
      IsAccountRouteName(r.name.value) && !RequiresAuth(r)
  {
    var t := RouteTable();
    forall r | r in t && r.name.Some?
      ensures IsAccountRouteName(r.name.value) && !RequiresAuth(r)
    {
      var i :| 0 <= i < |t| && t[i] == r;
      if i < 5 {
        AccountRouteAt(i);
      } else {
        PageRouteAt(i);
      }
    }
  }

  /** The routes that require authentication are exactly the generated
      page routes: those with neither a name nor a redirect. */
  lemma ProtectedExactlyPages()
    ensures forall r :: r in RouteTable() ==>
      (RequiresAuth(r) <==> r.name.None? && r.redirect.None?)
  {
    var t := RouteTable();
    forall r | r in t
      ensures RequiresAuth(r) <==> r.name.None? && r.redirect.None?
    {
      var i :| 0 <= i < |t| && t[i] == r;
      if i < 5 {
        AccountRouteAt(i);
      } else {
        PageRouteAt(i);
      }
    }
  }

  /** What a navigation guard passes to `next`: nothing (go ahead) or a
      named route to go to instead, with an optional `redirect` query. */
  datatype NextArg = Proceed | Redirect(name: string, redirectQuery: Option<string>)

  /** What the guard sees of the destination. */
  datatype Destination = Destination(name: Option<string>, fullPath: string, matched: seq<RouteRecord>)

  /** `matched.some((record) => record.meta.requiresAuth)`. */
  function SomeRequiresAuth(matched: seq<RouteRecord>): (b: bool)
    ensures b <==> exists i :: 0 <= i < |matched| && RequiresAuth(matched[i])
  {
    if matched == [] then false
    else RequiresAuth(matched[0]) || SomeRequiresAuth(matched[1..])
  }

  /** The calls the guard makes to `next`, in order: one or two; when there
      are two, the user was sent home and then let through; a last call
      that does not proceed is the only one, and sends a logged-out user to
      the login form. */
  function GuardCalls(to: Destination, loggedIn: bool): (c: seq<NextArg>)
    ensures 1 <= |c| <= 2
    ensures |c| == 2 ==> c == [Redirect(HomeName, None), Proceed]
    ensures c[|c| - 1] != Proceed ==> !loggedIn && c == [Redirect(LoginFormName, Some(to.fullPath))]
  {
    (if to.name == Some(LoginFormName) && loggedIn then [Redirect(HomeName, None)] else [])
    + [if SomeRequiresAuth(to.matched) && !loggedIn
       then Redirect(LoginFormName, Some(to.fullPath)) else Proceed]
  }

  /** The three-way decision a navigation should get: a logged-in user
      going to the login form is sent home, a logged-out user going to a
      protected route is sent to the login form with the original path as
      `redirect`, and everything else goes ahead. */
  function Decision(to: Destination, loggedIn: bool): (d: NextArg)
    ensures d == Redirect(HomeName, None) <==> loggedIn && to.name == Some(LoginFormName)
    ensures d == Redirect(LoginFormName, Some(to.fullPath)) <==> !loggedIn && SomeRequiresAuth(to.matched)
    ensures d == Proceed || d == Redirect(HomeName, None) || d == Redirect(LoginFormName, Some(to.fullPath))
  {
    if to.name == Some(LoginFormName) && loggedIn then Redirect(HomeName, None)
    else if SomeRequiresAuth(to.matched) && !loggedIn then Redirect(LoginFormName, Some(to.fullPath))
    else Proceed
  }

  /** `router.beforeEach((to, from, next) => …)`: each `next` call is
      appended to the returned log. `loggedIn` is `authInfo.loggedIn()`. */
  method BeforeEach(to: Destination, loggedIn: bool) returns (calls: seq<NextArg>)
    ensures calls == GuardCalls(to, loggedIn)
    ensures 1 <= |calls| <= 2 && calls[0] == Decision(to, loggedIn)
  {
    calls := [];
    if to.name == Some(LoginFormName) && loggedIn {
      calls := calls + [Redirect(HomeName, None)];
    }
    if SomeRequiresAuth(to.matched) {
      if !loggedIn {
        calls := calls + [Redirect(LoginFormName, Some(to.fullPath))];
      } else {
        calls := calls + [Proceed];
      }
    } else {
      calls := calls + [Proceed];
    }
  }

  /** `next` is called twice exactly for a logged-in user going to the
      login form; otherwise once. The first call is always the three-way
      decision. */
  lemma GuardFirstCallDecides(to: Destination, loggedIn: bool)
    ensures var calls := GuardCalls(to, loggedIn);
      && (|calls| == 2 <==> to.name == Some(LoginFormName) && loggedIn)
      && (|calls| == 1 <==> !(to.name == Some(LoginFormName) && loggedIn))
      && calls[0] == Decision(to, loggedIn)
  {
  }

  /** A logged-out user going where some matched record requires
      authentication is sent to the login form, carrying the full path. */
  lemma GuardLoggedOutProtected(to: Destination)
    requires exists i :: 0 <= i < |to.matched| && RequiresAuth(to.matched[i])
    ensures GuardCalls(to, false) == [Redirect(LoginFormName, Some(to.fullPath))]
  {
  }

  /** A logged-in user going anywhere but the login form goes ahead. */
  lemma GuardLoggedIn(to: Destination)
    requires to.name != Some(LoginFormName)
    ensures GuardCalls(to, true) == [Proceed]
  {
  }

  /** Where no matched record requires authentication the guard calls
      `next()`, after sending a logged-in user away from the login form. */
  lemma GuardUnprotected(to: Destination, loggedIn: bool)
    requires forall i :: 0 <= i < |to.matched| ==> !RequiresAuth(to.matched[i])
    ensures GuardCalls(to, loggedIn)[|GuardCalls(to, loggedIn)| - 1] == Proceed
    ensures !(to.name == Some(LoginFormName) && loggedIn) ==> GuardCalls(to, loggedIn) == [Proceed]
  {
  }

  /** A logged-in user opening the login form is sent home and then, as the
      login route is public, `next()` is called a second time. */
  lemma GuardLoginFormTwice()
    ensures var login := RouteTable()[1];
      GuardCalls(Destination(login.name, login.path, [login]), true)
        == [Redirect(HomeName, None), Proceed]
  {
  }

  /** Logged out, opening `/planning-task-list` leads to
      `/login-form?redirect=/planning-task-list`. */
  lemma GuardPlanningTaskListLoggedOut()
    ensures var r := RouteTable()[7];
      && r.path == "/" + "planning-task-list"
      && GuardCalls(Destination(r.name, r.path, [r]), false)
           == [Redirect(LoginFormName, Some("/" + "planning-task-list"))]
  {
    var r := RouteTable()[7];
    PageRouteAt(7);
    assert SomeRequiresAuth([r]);
  }

  /** For a destination matched by a single route of the table, a
      logged-out user is turned away to the login form exactly when that
      route is a generated page route. */
  lemma GuardProtectsExactlyPages(fullPath: string)
    ensures forall r :: r in RouteTable() ==>
      (GuardCalls(Destination(r.name, fullPath, [r]), false)[0].Redirect?
       <==> r.name.None? && r.redirect.None?)
  {
    ProtectedExactlyPages();
    forall r | r in RouteTable()
      ensures (GuardCalls(Destination(r.name, fullPath, [r]), false)[0].Redirect?
               <==> r.name.None? && r.redirect.None?)
    {
      assert SomeRequiresAuth([r]) == RequiresAuth(r);
    }
  }
}
