/** The application's own controllers (the four classes under
    backend/src/controllers) as route declarations, mounted in the order
    `App` registers them (backend/src/app.ts), and what the resulting stack
    does with requests whose outcome the ordering decides. */
module Application {
  import opened Wrappers
  import opened Errors
  import opened Routes
  import Envelopes = ErrorHandler

  // The `@Route` declarations of each class, in source order.
  const HealthCheck := Decl(Get, Some([Lit("")]), [], Action("getHealthCheck"))
  const SignupDecl := Decl(Post, Some([Lit("signup")]), [Validate("signupSchema")], Action("signup"))
  const LoginDecl := Decl(Post, Some([Lit("login")]), [Validate("loginSchema")], Action("login"))
  const LogoutDecl := Decl(Post, Some([Lit("logout")]), [], Action("logout"))
  const CheckDecl := Decl(Get, Some([Lit("check")]), [ProtectRoute], Action("checkAuth"))
  const GetAllDecl := Decl(Get, Some([]), [], Action("getAll"))
  const GetOneDecl := Decl(Get, Some([Param("id")]), [], Action("get"))
  const UpdateProfileDecl :=
    Decl(Patch, Some([Lit("update-profile")]), [ProtectRoute, Validate("updateUserSchema")], Action("updateProfile"))
  const SidebarDecl := Decl(Get, Some([Lit("users")]), [ProtectRoute], Action("getUsersForSidebar"))
  const ConversationDecl := Decl(Get, Some([Param("receiverId")]), [ProtectRoute], Action("getMessages"))
  const SendDecl :=
    Decl(Post, Some([Lit("send"), Param("receiverId")]), [ProtectRoute, Validate("messageSchema")], Action("sendMessage"))

  /** `@Controller()` MainController. */
  const MainRoutes := Controller([], [HealthCheck])
  /** `@Controller('/auth')` AuthController. */
  const AuthRoutes := Controller([Lit("auth")], [SignupDecl, LoginDecl, LogoutDecl, CheckDecl])
  /** `@Controller('/users')` UserController. */
  const UserRoutes := Controller([Lit("users")], [GetAllDecl, GetOneDecl, UpdateProfileDecl])
  /** `@Controller('/messages')` MessageController. */
  const MessageRoutes := Controller([Lit("messages")], [SidebarDecl, ConversationDecl, SendDecl])

  /** `configureRoutes([MainController, AuthController, UserController, MessageController])`. */
  const AppControllers := [MainRoutes, AuthRoutes, UserRoutes, MessageRoutes]

  /** The entry a declaration puts in its method's path table. */
  function Entry(d: Decl): (RoutePath, seq<Handler>) {
    (PathOf(d), d.middleware + [d.action])
  }

  /** The tables the decorators build, one per class: methods in first-use
      order, and within a method the paths in declaration order. */
  lemma MainTable()
    ensures Register(MainRoutes.decls) == [(Get, [Entry(HealthCheck)])]
  {
    RegisterFirstUse([], HealthCheck);
    assert [] + [HealthCheck] == MainRoutes.decls;
  }

  lemma AuthTable()
    ensures Register(AuthRoutes.decls) ==
      [(Post, [Entry(SignupDecl), Entry(LoginDecl), Entry(LogoutDecl)]), (Get, [Entry(CheckDecl)])]
  {
    RegisterFour(SignupDecl, LoginDecl, LogoutDecl, CheckDecl);
  }

  lemma UserTable()
    ensures Register(UserRoutes.decls) ==
      [(Get, [Entry(GetAllDecl), Entry(GetOneDecl)]), (Patch, [Entry(UpdateProfileDecl)])]
  {
    RegisterThree(GetAllDecl, GetOneDecl, UpdateProfileDecl);
  }

  lemma MessageTable()
    ensures Register(MessageRoutes.decls) ==
      [(Get, [Entry(SidebarDecl), Entry(ConversationDecl)]), (Post, [Entry(SendDecl)])]
  {
    RegisterThree(SidebarDecl, ConversationDecl, SendDecl);
  }

  // The table steps, stated for any declarations so that the solver never
  // unfolds `Register` on the literal ones.

  lemma RegisterOne(d: Decl)
    ensures Register([d]) == [(d.verb, [Entry(d)])]
  {
    RegisterFirstUse([], d);
    assert [] + [d] == [d];
  }

  lemma RegisterSameVerb(ds: seq<Decl>, d: Decl, es: PathTable)
    requires Register(ds) == [(d.verb, es)] && PathOf(d) !in OrderedMaps.Keys(es)
    ensures Register(ds + [d]) == [(d.verb, es + [Entry(d)])]
  {
    RegisterNewPath(ds, d, 0);
  }

  lemma RegisterOtherVerb(ds: seq<Decl>, d: Decl, v: Verb, es: PathTable)
    requires Register(ds) == [(v, es)] && d.verb != v
    ensures Register(ds + [d]) == [(v, es), (d.verb, [Entry(d)])]
  {
    assert OrderedMaps.Keys([(v, es)]) == [v];
    RegisterFirstUse(ds, d);
  }

  lemma RegisterTwo(d1: Decl, d2: Decl)
    requires d2.verb == d1.verb && PathOf(d2) != PathOf(d1)
    ensures Register([d1, d2]) == [(d1.verb, [Entry(d1), Entry(d2)])]
  {
    assert Register([d1] + [d2]) == [(d1.verb, [Entry(d1)] + [Entry(d2)])] by {
      RegisterOne(d1);
      assert OrderedMaps.Keys([Entry(d1)]) == [PathOf(d1)];
      RegisterSameVerb([d1], d2, [Entry(d1)]);
    }
    Snoc2(d1, d2);
    Snoc2(Entry(d1), Entry(d2));
  }

  lemma RegisterThreeSame(d1: Decl, d2: Decl, d3: Decl)
    requires d2.verb == d1.verb && d3.verb == d1.verb
    requires PathOf(d2) != PathOf(d1) && PathOf(d3) != PathOf(d1) && PathOf(d3) != PathOf(d2)
    ensures Register([d1, d2, d3]) == [(d1.verb, [Entry(d1), Entry(d2), Entry(d3)])]
  {
    assert Register([d1, d2] + [d3]) == [(d1.verb, [Entry(d1), Entry(d2)] + [Entry(d3)])] by {
      RegisterTwo(d1, d2);
      KeysOfTwo(Entry(d1), Entry(d2));
      RegisterSameVerb([d1, d2], d3, [Entry(d1), Entry(d2)]);
    }
    Snoc3(d1, d2, d3);
    Snoc3(Entry(d1), Entry(d2), Entry(d3));
  }

  /** Two paths of one method, then a declaration with another method. */
  lemma RegisterThree(d1: Decl, d2: Decl, d3: Decl)
    requires d2.verb == d1.verb && PathOf(d2) != PathOf(d1) && d3.verb != d1.verb
    ensures Register([d1, d2, d3]) == [(d1.verb, [Entry(d1), Entry(d2)]), (d3.verb, [Entry(d3)])]
  {
    assert Register([d1, d2] + [d3]) == [(d1.verb, [Entry(d1), Entry(d2)]), (d3.verb, [Entry(d3)])] by {
      RegisterTwo(d1, d2);
      RegisterOtherVerb([d1, d2], d3, d1.verb, [Entry(d1), Entry(d2)]);
    }
    Snoc3(d1, d2, d3);
  }

  /** Three paths of one method, then a declaration with another method. */
  lemma RegisterFour(d1: Decl, d2: Decl, d3: Decl, d4: Decl)
    requires d2.verb == d1.verb && d3.verb == d1.verb && d4.verb != d1.verb
    requires PathOf(d2) != PathOf(d1) && PathOf(d3) != PathOf(d1) && PathOf(d3) != PathOf(d2)
    ensures Register([d1, d2, d3, d4]) ==
      [(d1.verb, [Entry(d1), Entry(d2), Entry(d3)]), (d4.verb, [Entry(d4)])]
  {
    assert Register([d1, d2, d3] + [d4]) == [(d1.verb, [Entry(d1), Entry(d2), Entry(d3)]), (d4.verb, [Entry(d4)])] by {
      RegisterThreeSame(d1, d2, d3);
      RegisterOtherVerb([d1, d2, d3], d4, d1.verb, [Entry(d1), Entry(d2), Entry(d3)]);
    }
    Snoc4(d1, d2, d3, d4);
  }

  lemma KeysOfTwo<K, V>(a: (K, V), b: (K, V))
    ensures OrderedMaps.Keys([a, b]) == [a.0, b.0]
  {
  }

  lemma Snoc2<T>(a: T, b: T)
    ensures [a] + [b] == [a, b]
  {
  }

  lemma Snoc3<T>(a: T, b: T, c: T)
    ensures [a, b] + [c] == [a, b, c]
  {
  }

  lemma Snoc4<T>(a: T, b: T, c: T, d: T)
    ensures [a, b, c] + [d] == [a, b, c, d]
  {
  }

  // The layers each class contributes, with the full paths Express is given.
  const MainLayers: seq<Layer> := [
    RouteLayer(Get, Exact([Lit("api"), Lit("v1"), Lit("")]), [Action("getHealthCheck")])]
  const AuthLayers: seq<Layer> := [
    RouteLayer(Post, Exact([Lit("api"), Lit("v1"), Lit("auth"), Lit("signup")]), [Validate("signupSchema"), Action("signup")]),
    RouteLayer(Post, Exact([Lit("api"), Lit("v1"), Lit("auth"), Lit("login")]), [Validate("loginSchema"), Action("login")]),
    RouteLayer(Post, Exact([Lit("api"), Lit("v1"), Lit("auth"), Lit("logout")]), [Action("logout")]),
    RouteLayer(Get, Exact([Lit("api"), Lit("v1"), Lit("auth"), Lit("check")]), [ProtectRoute, Action("checkAuth")])]
  const UserLayers: seq<Layer> := [
    RouteLayer(Get, Exact([Lit("api"), Lit("v1"), Lit("users")]), [Action("getAll")]),
    RouteLayer(Get, Exact([Lit("api"), Lit("v1"), Lit("users"), Param("id")]), [Action("get")]),
    RouteLayer(Patch, Exact([Lit("api"), Lit("v1"), Lit("users"), Lit("update-profile")]),
               [ProtectRoute, Validate("updateUserSchema"), Action("updateProfile")])]
  const MessageLayers: seq<Layer> := [
    RouteLayer(Get, Exact([Lit("api"), Lit("v1"), Lit("messages"), Lit("users")]), [ProtectRoute, Action("getUsersForSidebar")]),
    RouteLayer(Get, Exact([Lit("api"), Lit("v1"), Lit("messages"), Param("receiverId")]), [ProtectRoute, Action("getMessages")]),
    RouteLayer(Post, Exact([Lit("api"), Lit("v1"), Lit("messages"), Lit("send"), Param("receiverId")]),
               [ProtectRoute, Validate("messageSchema"), Action("sendMessage")])]

  /** A class's layers under its mounted prefix, for a table of one or two methods. */
  lemma TwoMethods(prefix: RoutePath, e1: (Verb, PathTable), e2: (Verb, PathTable))
    ensures TableLayers(prefix, [e1, e2]) == PathLayers(e1.0, prefix, e1.1) + PathLayers(e2.0, prefix, e2.1)
  {
    TableLayersCons(prefix, e1, [e2]);
    TableLayersCons(prefix, e2, []);
    assert [e1] + [e2] == [e1, e2] && [e2] + [] == [e2];
  }

  lemma MainMounted()
    ensures TableLayers(ApiBase + MainRoutes.base, Register(MainRoutes.decls)) == MainLayers
  {
    MainTable();
    var e := (Get, [Entry(HealthCheck)]);
    assert ApiBase + MainRoutes.base == ApiBase;
    TableLayersCons(ApiBase, e, []);
    assert [e] + [] == [e];
    assert ApiBase + [Lit("")] == [Lit("api"), Lit("v1"), Lit("")];
    assert PathLayers(Get, ApiBase, e.1)[0] == MainLayers[0];
  }

  lemma AuthMounted()
    ensures TableLayers(ApiBase + AuthRoutes.base, Register(AuthRoutes.decls)) == AuthLayers
  {
    AuthTable();
    var prefix := ApiBase + [Lit("auth")];
    var post := [Entry(SignupDecl), Entry(LoginDecl), Entry(LogoutDecl)];
    TwoMethods(prefix, (Post, post), (Get, [Entry(CheckDecl)]));
    AuthPostLayers(prefix, post);
    AuthGetLayers(prefix, [Entry(CheckDecl)]);
    assert AuthLayers == AuthLayers[..3] + [AuthLayers[3]];
  }

  lemma AuthGetLayers(prefix: RoutePath, get: PathTable)
    requires prefix == ApiBase + [Lit("auth")] && get == [Entry(CheckDecl)]
    ensures PathLayers(Get, prefix, get) == [AuthLayers[3]]
  {
    assert prefix + [Lit("check")] == [Lit("api"), Lit("v1"), Lit("auth"), Lit("check")];
    assert PathLayers(Get, prefix, get)[0] == AuthLayers[3];
  }

  lemma AuthPostLayers(prefix: RoutePath, post: PathTable)
    requires prefix == ApiBase + [Lit("auth")]
    requires post == [Entry(SignupDecl), Entry(LoginDecl), Entry(LogoutDecl)]
    ensures PathLayers(Post, prefix, post) == AuthLayers[..3]
  {
    var r := PathLayers(Post, prefix, post);
    assert prefix + [Lit("signup")] == [Lit("api"), Lit("v1"), Lit("auth"), Lit("signup")];
    assert prefix + [Lit("login")] == [Lit("api"), Lit("v1"), Lit("auth"), Lit("login")];
    assert prefix + [Lit("logout")] == [Lit("api"), Lit("v1"), Lit("auth"), Lit("logout")];
    assert r[0] == AuthLayers[0] && r[1] == AuthLayers[1] && r[2] == AuthLayers[2];
  }

  lemma UserMounted()
    ensures TableLayers(ApiBase + UserRoutes.base, Register(UserRoutes.decls)) == UserLayers
  {
    UserTable();
    var prefix := ApiBase + [Lit("users")];
    TwoMethods(prefix, (Get, [Entry(GetAllDecl), Entry(GetOneDecl)]), (Patch, [Entry(UpdateProfileDecl)]));
    UserGetLayers(prefix, [Entry(GetAllDecl), Entry(GetOneDecl)]);
    UserPatchLayers(prefix, [Entry(UpdateProfileDecl)]);
    assert UserLayers == [UserLayers[0], UserLayers[1]] + [UserLayers[2]];
  }

  lemma UserGetLayers(prefix: RoutePath, get: PathTable)
    requires prefix == ApiBase + [Lit("users")] && get == [Entry(GetAllDecl), Entry(GetOneDecl)]
    ensures PathLayers(Get, prefix, get) == [UserLayers[0], UserLayers[1]]
  {
    assert prefix + [] == [Lit("api"), Lit("v1"), Lit("users")];
    assert prefix + [Param("id")] == [Lit("api"), Lit("v1"), Lit("users"), Param("id")];
    var r := PathLayers(Get, prefix, get);
    assert r[0] == UserLayers[0] && r[1] == UserLayers[1];
  }

  lemma UserPatchLayers(prefix: RoutePath, patch: PathTable)
    requires prefix == ApiBase + [Lit("users")] && patch == [Entry(UpdateProfileDecl)]
    ensures PathLayers(Patch, prefix, patch) == [UserLayers[2]]
  {
    assert prefix + [Lit("update-profile")] == [Lit("api"), Lit("v1"), Lit("users"), Lit("update-profile")];
    assert PathLayers(Patch, prefix, patch)[0] == UserLayers[2];
  }

  lemma MessageMounted()
    ensures TableLayers(ApiBase + MessageRoutes.base, Register(MessageRoutes.decls)) == MessageLayers
  {
    MessageTable();
    var prefix := ApiBase + [Lit("messages")];
    TwoMethods(prefix, (Get, [Entry(SidebarDecl), Entry(ConversationDecl)]), (Post, [Entry(SendDecl)]));
    MessageGetLayers(prefix, [Entry(SidebarDecl), Entry(ConversationDecl)]);
    MessagePostLayers(prefix, [Entry(SendDecl)]);
    assert MessageLayers == [MessageLayers[0], MessageLayers[1]] + [MessageLayers[2]];
  }

  lemma MessageGetLayers(prefix: RoutePath, get: PathTable)
    requires prefix == ApiBase + [Lit("messages")] && get == [Entry(SidebarDecl), Entry(ConversationDecl)]
    ensures PathLayers(Get, prefix, get) == [MessageLayers[0], MessageLayers[1]]
  {
    assert prefix + [Lit("users")] == [Lit("api"), Lit("v1"), Lit("messages"), Lit("users")];
    assert prefix + [Param("receiverId")] == [Lit("api"), Lit("v1"), Lit("messages"), Param("receiverId")];
    var r := PathLayers(Get, prefix, get);
    assert r[0] == MessageLayers[0] && r[1] == MessageLayers[1];
  }

  lemma MessagePostLayers(prefix: RoutePath, post: PathTable)
    requires prefix == ApiBase + [Lit("messages")] && post == [Entry(SendDecl)]
    ensures PathLayers(Post, prefix, post) == [MessageLayers[2]]
  {
    assert prefix + [Lit("send"), Param("receiverId")] ==
      [Lit("api"), Lit("v1"), Lit("messages"), Lit("send"), Param("receiverId")];
    assert PathLayers(Post, prefix, post)[0] == MessageLayers[2];
  }

  /** The application's routes: the health check, then the auth, user and
      message routes, eleven layers in all. */
  const AppRoutes: seq<Layer> := MainLayers + (AuthLayers + (UserLayers + MessageLayers))

  lemma AppMounted()
    ensures Mount(AppControllers) == AppRoutes
    ensures |AppRoutes| == 11
  {
    MainMounted();
    AuthMounted();
    UserMounted();
    MessageMounted();
    MountFour(MainRoutes, AuthRoutes, UserRoutes, MessageRoutes);
  }

  lemma MountFour(c1: Controller, c2: Controller, c3: Controller, c4: Controller)
    ensures Mount([c1, c2, c3, c4]) ==
      TableLayers(ApiBase + c1.base, Register(c1.decls)) + (TableLayers(ApiBase + c2.base, Register(c2.decls)) +
      (TableLayers(ApiBase + c3.base, Register(c3.decls)) + TableLayers(ApiBase + c4.base, Register(c4.decls))))
  {
    var t1 := TableLayers(ApiBase + c1.base, Register(c1.decls));
    var t2 := TableLayers(ApiBase + c2.base, Register(c2.decls));
    var t3 := TableLayers(ApiBase + c3.base, Register(c3.decls));
    var t4 := TableLayers(ApiBase + c4.base, Register(c4.decls));
    assert Mount([]) == [];
    MountCons(c4, []);
    assert [c4] == [c4] + [];
    assert Mount([c4]) == t4;
    MountCons(c3, [c4]);
    assert [c3, c4] == [c3] + [c4];
    assert Mount([c3, c4]) == t3 + t4;
    MountCons(c2, [c3, c4]);
    assert [c2, c3, c4] == [c2] + [c3, c4];
    assert Mount([c2, c3, c4]) == t2 + (t3 + t4);
    MountCons(c1, [c2, c3, c4]);
    assert [c1, c2, c3, c4] == [c1] + [c2, c3, c4];
  }

  /** Where each class's layers sit in the stack. */
  lemma AppRoutesAt()
    ensures |MainLayers| == 1 && |AuthLayers| == 4 && |UserLayers| == 3 && |MessageLayers| == 3
    ensures forall i :: 0 <= i < 1 ==> AppRoutes[i] == MainLayers[i]
    ensures forall i :: 0 <= i < 4 ==> AppRoutes[1 + i] == AuthLayers[i]
    ensures forall i :: 0 <= i < 3 ==> AppRoutes[5 + i] == UserLayers[i]
    ensures forall i :: 0 <= i < 3 ==> AppRoutes[8 + i] == MessageLayers[i]
  {
    NestedIndex(MainLayers, AuthLayers, UserLayers, MessageLayers);
  }

  lemma NestedIndex<T>(a: seq<T>, b: seq<T>, c: seq<T>, d: seq<T>)
    ensures forall i :: 0 <= i < |a| ==> (a + (b + (c + d)))[i] == a[i]
    ensures forall i :: 0 <= i < |b| ==> (a + (b + (c + d)))[|a| + i] == b[i]
    ensures forall i :: 0 <= i < |c| ==> (a + (b + (c + d)))[|a| + |b| + i] == c[i]
    ensures forall i :: 0 <= i < |d| ==> (a + (b + (c + d)))[|a| + |b| + |c| + i] == d[i]
  {
  }

  /** The request path of `GET /api/v1/messages/users`, with or without a trailing slash. */
  predicate IsSidebarUrl(u: UrlPath) {
    TrimUrl(u) == ["api", "v1", "messages", "users"]
  }

  lemma SidebarSkipsEarlierRoutes(u: UrlPath)
    requires IsSidebarUrl(u)
    ensures forall j :: 0 <= j < 8 ==> !Handles(AppRoutes[j], Get, u)
  {
    AppRoutesAt();
    SidebarSkipsMainAndAuth(u);
    SidebarSkipsUsers(u);
  }

  lemma SidebarSkipsMainAndAuth(u: UrlPath)
    requires IsSidebarUrl(u)
    ensures !Handles(MainLayers[0], Get, u)
    ensures forall i :: 0 <= i < 4 ==> !Handles(AuthLayers[i], Get, u)
  {
    assert TrimRoute(MainLayers[0].pattern.path) == [Lit("api"), Lit("v1")];
    assert !SegmentMatches(Lit("auth"), TrimUrl(u)[2]);
  }

  lemma SidebarSkipsUsers(u: UrlPath)
    requires IsSidebarUrl(u)
    ensures forall i :: 0 <= i < 3 ==> !Handles(UserLayers[i], Get, u)
  {
    assert !SegmentMatches(Lit("users"), TrimUrl(u)[2]);
  }

  lemma SidebarRouteTakes(u: UrlPath)
    requires IsSidebarUrl(u)
    ensures Handles(AppRoutes[8], Get, u) && Handles(AppRoutes[9], Get, u)
    ensures AppRoutes[8].handlers == [ProtectRoute, Action("getUsersForSidebar")]
  {
    AppRoutesAt();
  }

  /** `GET /api/v1/messages/users` reaches `getUsersForSidebar`, although the
      later '/messages/:receiverId' route would take it too: the sidebar is
      declared first, so the conversation route never sees 'users' as a peer. */
  lemma SidebarBeforeConversation(u: UrlPath)
    requires IsSidebarUrl(u)
    ensures Serve(AppControllers, Get, u) == Handled(8, [ProtectRoute, Action("getUsersForSidebar")])
    ensures Handles(AppRoutes[9], Get, u)
  {
    AppMounted();
    SidebarSkipsEarlierRoutes(u);
    SidebarRouteTakes(u);
    ServeFirst(AppControllers, Get, u, 8);
  }

  /** Whatever `GET /api/v1/messages/:receiverId` serves has a real peer id:
      a non-empty last segment other than 'users', which the sidebar takes. */
  lemma ConversationPeer(verb: Verb, u: UrlPath, hs: seq<Handler>)
    requires Serve(AppControllers, verb, u) == Handled(9, hs)
    ensures verb == Get && hs == [ProtectRoute, Action("getMessages")]
    ensures |TrimUrl(u)| == 4 && TrimUrl(u)[2] == "messages"
    ensures TrimUrl(u)[3] != "" && TrimUrl(u)[3] != "users"
  {
    AppMounted();
    AppRoutesAt();
    ConversationPattern(verb, u);
  }

  lemma ConversationPattern(verb: Verb, u: UrlPath)
    requires Handles(MessageLayers[1], verb, u) && !Handles(MessageLayers[0], verb, u)
    ensures verb == Get && |TrimUrl(u)| == 4 && TrimUrl(u)[2] == "messages"
    ensures TrimUrl(u)[3] != "" && TrimUrl(u)[3] != "users"
  {
    var t := TrimUrl(u);
    var p := MessageLayers[1].pattern.path;
    assert TrimRoute(p) == p;
    assert SegmentMatches(p[0], t[0]) && SegmentMatches(p[1], t[1]);
    assert SegmentMatches(p[2], t[2]) && SegmentMatches(p[3], t[3]);
  }

  /** The request path of the health check, with or without its trailing slash. */
  predicate IsHealthUrl(u: UrlPath) {
    TrimUrl(u) == ["api", "v1"]
  }

  /** `GET /api/v1/` (and `GET /api/v1`) reaches the health check, the first route. */
  lemma HealthCheckServed(u: UrlPath)
    requires IsHealthUrl(u)
    ensures Serve(AppControllers, Get, u) == Handled(0, [Action("getHealthCheck")])
  {
    AppMounted();
    HealthRouteTakes(u);
    ServeFirst(AppControllers, Get, u, 0);
  }

  lemma HealthRouteTakes(u: UrlPath)
    requires IsHealthUrl(u)
    ensures Handles(AppRoutes[0], Get, u) && AppRoutes[0].handlers == [Action("getHealthCheck")]
  {
    AppRoutesAt();
    assert TrimRoute(MainLayers[0].pattern.path) == [Lit("api"), Lit("v1")];
  }

  /** A path below '/api/v1/' whose first segment names no controller. */
  predicate InUnknownSection(u: UrlPath) {
    var t := TrimUrl(u);
    |t| >= 3 && t[0] == "api" && t[1] == "v1" && t[2] != "auth" && t[2] != "users" && t[2] != "messages"
  }

  /** Such a path is taken by no route, whatever the method, so the catch-all
      answers it with a 404 naming the path. */
  lemma UnknownSectionNotFound(verb: Verb, u: UrlPath)
    requires InUnknownSection(u)
    ensures Serve(AppControllers, verb, u) == RouteNotFound(NotFoundError(u))
  {
    AppMounted();
    UnknownSkipsRoutes(verb, u);
    UnderApiBase(u);
  }

  lemma UnderApiBase(u: UrlPath)
    requires InUnknownSection(u)
    ensures Matches(Prefix(ApiBase), u)
  {
    var t := TrimUrl(u);
    assert u[..2] == t[..2];
  }

  lemma UnknownSkipsRoutes(verb: Verb, u: UrlPath)
    requires InUnknownSection(u)
    ensures forall j :: 0 <= j < 11 ==> !Handles(AppRoutes[j], verb, u)
  {
    AppRoutesAt();
    UnknownSkipsMainAndAuth(verb, u);
    UnknownSkipsUsersAndMessages(verb, u);
  }

  lemma UnknownSkipsMainAndAuth(verb: Verb, u: UrlPath)
    requires InUnknownSection(u)
    ensures !Handles(MainLayers[0], verb, u)
    ensures forall i :: 0 <= i < 4 ==> !Handles(AuthLayers[i], verb, u)
  {
    assert TrimRoute(MainLayers[0].pattern.path) == [Lit("api"), Lit("v1")];
    forall i | 0 <= i < 4 ensures !Handles(AuthLayers[i], verb, u) {
      SectionDiffers(AuthLayers[i], verb, u);
    }
  }

  lemma UnknownSkipsUsersAndMessages(verb: Verb, u: UrlPath)
    requires InUnknownSection(u)
    ensures forall i :: 0 <= i < 3 ==> !Handles(UserLayers[i], verb, u)
    ensures forall i :: 0 <= i < 3 ==> !Handles(MessageLayers[i], verb, u)
  {
    forall i | 0 <= i < 3 ensures !Handles(UserLayers[i], verb, u) {
      SectionDiffers(UserLayers[i], verb, u);
    }
    forall i | 0 <= i < 3 ensures !Handles(MessageLayers[i], verb, u) {
      SectionDiffers(MessageLayers[i], verb, u);
    }
  }

  /** An exact route whose third segment is a literal other than the
      request's third segment does not take it. */
  lemma SectionDiffers(l: Layer, verb: Verb, u: UrlPath)
    requires l.RouteLayer? && l.pattern.Exact? && |l.pattern.path| >= 3
    requires l.pattern.path[|l.pattern.path| - 1] != Lit("")
    requires |TrimUrl(u)| >= 3
    requires l.pattern.path[2].Lit? && l.pattern.path[2].text != TrimUrl(u)[2]
    ensures !Handles(l, verb, u)
  {
    assert TrimRoute(l.pattern.path) == l.pattern.path;
  }

  /** The catch-all's 404 reaches the client as a 404 envelope whose message
      names the path, without a code or an errors record. */
  lemma NotFoundEnvelope(u: UrlPath, stack: string, nodeEnv: Option<string>)
    ensures var env := Envelopes.Handle(App(NotFoundError(u)), stack, nodeEnv);
      && !env.success && env.status == 404
      && env.message == "API route " + UrlText(u) + " not found"
      && env.errorCode.None? && env.errors.None?
  {
  }
}
