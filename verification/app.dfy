/** The top-level navigation of src/App.tsx: which view is on screen, which
    role the session holds, the role's label and the tab set the dashboard
    shows.

    Each event is the callback of a control, and a control exists only in
    one view: the home page offers login and registration, the login page
    offers login and back, the registration wizard offers back and its final
    submission, and the dashboard header offers logout.

    The login page calls `onLogin` with the whole form object
    `{email, password, userType}`, while `handleLogin` stores its argument as
    the role. `StepAsWritten` keeps that wiring, so the stored value is the
    object itself and matches no role. `Step` passes the form's `userType`
    instead, and the rest of the model uses it.

    The login form's submit event fires only when its e-mail input holds a
    valid address and its password input is filled in (both are `required`,
    and the first has `type="email"`); otherwise the browser keeps the page
    as it is. */
module App {
  import opened Wrappers
  import opened Api
  import opened Html

  datatype View = Home | Login | RegisterCommunity | Dashboard

  /** The value held in the `userType` state: null, a role, or (with the
      login wiring as written) the login form object. */
  datatype UserTypeValue = NoUser | Role(role: UserType) | LoginObject(payload: LoginPayload)

  datatype State = State(view: View, userType: UserTypeValue)

  datatype Event =
    | OpenLogin                      // home page: "log in"
    | OpenRegistration               // home page: "register a community"
    | SubmitLogin(payload: LoginPayload)
    | BackFromLogin
    | BackFromRegistration
    | RegistrationSubmitted          // the wizard's request was accepted
    | Logout

  const Initial := State(Home, NoUser)

  /** The login form passes the browser's constraint validation. */
  predicate LoginFormValid(p: LoginPayload) {
    EmailInputValid(p.email) && !ValueMissing(p.password)
  }

  /** `handleLogin`: the dashboard, holding the value it was given. */
  function HandleLogin(s: State, value: UserTypeValue): (t: State)
    ensures t.view == Dashboard && t.userType == value
  {
    State(Dashboard, value)
  }

  /** `handleLogout`: back home with no role. */
  function HandleLogout(s: State): (t: State)
    ensures t == Initial
  {
    State(Home, NoUser)
  }

  /** `handleRegistrationSubmit`: on to the login page; the role is kept. */
  function HandleRegistrationSubmit(s: State): (t: State)
    ensures t.view == Login && t.userType == s.userType
  {
    s.(view := Login)
  }

  /** The transitions every view shares, whatever the login wiring. */
  function Common(s: State, e: Event): Option<State>
  {
    match (s.view, e)
    case (Home, OpenLogin) => Some(s.(view := Login))
    case (Home, OpenRegistration) => Some(s.(view := RegisterCommunity))
    case (Login, BackFromLogin) => Some(s.(view := Home))
    case (RegisterCommunity, BackFromRegistration) => Some(s.(view := Home))
    case (RegisterCommunity, RegistrationSubmitted) => Some(HandleRegistrationSubmit(s))
    case (Dashboard, Logout) => Some(HandleLogout(s))
    case _ => None
  }

  /** One event with the login callback as wired in the source: the whole
      form object becomes the role. `None` when the event's control is not
      on screen or its form does not pass validation. */
  function StepAsWritten(s: State, e: Event): (t: Option<State>)
    ensures e.SubmitLogin? ==> (t.Some? <==> s.view == Login && LoginFormValid(e.payload))
    ensures e.SubmitLogin? && t.Some? ==> t.value == State(Dashboard, LoginObject(e.payload))
    ensures !e.SubmitLogin? ==> t == Common(s, e)
  {
    match e
    case SubmitLogin(p) =>
      if s.view == Login && LoginFormValid(p) then Some(HandleLogin(s, LoginObject(p))) else None
    case _ => Common(s, e)
  }

  /** One event with the login callback passing the chosen role. From home
      only the login and registration views can follow; back from either
      returns home; submitting a registration leads to the login page;
      logging in with a form that passes validation leads to the dashboard
      holding the chosen role, and logging out returns to the initial
      state. */
  function Step(s: State, e: Event): (t: Option<State>)
    ensures t.Some? && s.view == Home ==> t.value.view in {Login, RegisterCommunity}
    ensures t.Some? && s.view == Home ==> t.value.userType == s.userType
    ensures s.view == Home ==> (t.Some? <==> e == OpenLogin || e == OpenRegistration)
    ensures s.view == Home && e == OpenLogin ==> t == Some(s.(view := Login))
    ensures s.view == Home && e == OpenRegistration ==> t == Some(s.(view := RegisterCommunity))
    ensures s.view == Login && e != BackFromLogin && !e.SubmitLogin? ==> t.None?
    ensures s.view == RegisterCommunity && e != BackFromRegistration && e != RegistrationSubmitted ==> t.None?
    ensures s.view == Login && e == BackFromLogin ==> t == Some(s.(view := Home))
    ensures s.view == RegisterCommunity && e == BackFromRegistration ==> t == Some(s.(view := Home))
    ensures s.view == RegisterCommunity && e == RegistrationSubmitted ==> t == Some(s.(view := Login))
    ensures e.SubmitLogin? ==>
      (t.Some? <==> s.view == Login && LoginFormValid(e.payload))
      && (t.Some? ==> t.value == State(Dashboard, Role(e.payload.userType)))
    ensures s.view == Dashboard && e == Logout ==> t == Some(Initial)
    ensures s.view == Dashboard && e != Logout ==> t.None?
  {
    match e
    case SubmitLogin(p) =>
      if s.view == Login && LoginFormValid(p) then Some(HandleLogin(s, Role(p.userType))) else None
    case _ => Common(s, e)
  }

  /** Events whose control is not on screen leave the state alone. */
  function Run(s: State, es: seq<Event>): State
    decreases |es|
  {
    if |es| == 0 then s
    else match Step(s, es[0])
      case Some(t) => Run(t, es[1..])
      case None => Run(s, es[1..])
  }

  function RunAsWritten(s: State, es: seq<Event>): State
    decreases |es|
  {
    if |es| == 0 then s
    else match StepAsWritten(s, es[0])
      case Some(t) => RunAsWritten(t, es[1..])
      case None => RunAsWritten(s, es[1..])
  }

  // ---------------------------------------------------------------------
  // the dashboard header and tabs

  /** `getUserTypeLabel`. */
  function UserTypeLabel(u: UserTypeValue): (l: string)
    ensures u == Role(Admin) <==> l == "Administrador"
    ensures u == Role(Owner) <==> l == "Propietario"
    ensures u == Role(Committee) <==> l == "Miembro del Comité"
    ensures !u.Role? <==> l == ""
  {
    match u
    case Role(Admin) => "Administrador"
    case Role(Owner) => "Propietario"
    case Role(Committee) => "Miembro del Comité"
    case _ => ""
  }

  /** A tab set: the value of the tab shown first and the values of all its
      tabs, in order. */
  datatype TabSet = TabSet(defaultTab: string, tabs: seq<string>)

  const AdminTabs := TabSet("dashboard", ["dashboard", "finances", "projects", "users"])
  const OwnerTabs := TabSet("finances", ["finances", "projects", "history"])
  const CommitteeTabs := TabSet("dashboard", ["dashboard", "votations", "communications"])

  function TabSetOf(t: UserType): TabSet
  {
    match t
    case Admin => AdminTabs
    case Owner => OwnerTabs
    case Committee => CommitteeTabs
  }

  /** The three `userType === ...` blocks of the dashboard, each rendering
      its tab set when the stored value is that role: exactly the tab set of
      the role held, and none when no role is held. */
  function RenderedTabSets(u: UserTypeValue): (r: seq<TabSet>)
    ensures u.Role? ==> r == [TabSetOf(u.role)]
    ensures !u.Role? ==> r == []
  {
    (if u == Role(Admin) then [AdminTabs] else [])
    + (if u == Role(Owner) then [OwnerTabs] else [])
    + (if u == Role(Committee) then [CommitteeTabs] else [])
  }

  // ---------------------------------------------------------------------
  // reachable states

  /** Off the dashboard no role is held; on it a role is. */
  predicate Consistent(s: State) {
    if s.view == Dashboard then s.userType.Role? else s.userType == NoUser
  }

  lemma StepPreservesConsistent(s: State, e: Event)
    requires Consistent(s)
    ensures Step(s, e).Some? ==> Consistent(Step(s, e).value)
  {
  }

  lemma {:induction false} RunPreservesConsistent(s: State, es: seq<Event>)
    requires Consistent(s)
    ensures Consistent(Run(s, es))
    decreases |es|
  {
    if |es| > 0 {
      StepPreservesConsistent(s, es[0]);
      match Step(s, es[0])
      case Some(t) => RunPreservesConsistent(t, es[1..]);
      case None => RunPreservesConsistent(s, es[1..]);
    }
  }

  /** Whatever the user does, a dashboard on screen shows exactly one tab
      set, the one of the role held, under a non-empty label. */
  lemma DashboardShowsOneTabSet(es: seq<Event>)
    ensures Run(Initial, es).view == Dashboard ==>
      |RenderedTabSets(Run(Initial, es).userType)| == 1
      && UserTypeLabel(Run(Initial, es).userType) != ""
  {
    RunPreservesConsistent(Initial, es);
  }

  /** As written, logging in through the login page with any form the
      browser lets through reaches a dashboard with no tab set and an empty
      label. */
  lemma LoginAsWrittenShowsNoTabs(p: LoginPayload)
    requires LoginFormValid(p)
    ensures RunAsWritten(Initial, [OpenLogin, SubmitLogin(p)]).view == Dashboard
    ensures RenderedTabSets(RunAsWritten(Initial, [OpenLogin, SubmitLogin(p)]).userType) == []
    ensures UserTypeLabel(RunAsWritten(Initial, [OpenLogin, SubmitLogin(p)]).userType) == ""
  {
    var s1 := State(Login, NoUser);
    var s2 := State(Dashboard, LoginObject(p));
    assert StepAsWritten(Initial, OpenLogin) == Some(s1);
    assert StepAsWritten(s1, SubmitLogin(p)) == Some(s2);
    assert RunAsWritten(s2, []) == s2;
    assert RunAsWritten(s1, [SubmitLogin(p)]) == RunAsWritten(s2, []);
    assert [OpenLogin, SubmitLogin(p)][1..] == [SubmitLogin(p)];
    assert RunAsWritten(Initial, [OpenLogin, SubmitLogin(p)]) == RunAsWritten(s1, [SubmitLogin(p)]);
  }

  /** With the role passed through, the same two steps reach the dashboard
      of the role chosen on the form. */
  lemma LoginShowsRoleTabs(p: LoginPayload)
    requires LoginFormValid(p)
    ensures Run(Initial, [OpenLogin, SubmitLogin(p)]) == State(Dashboard, Role(p.userType))
    ensures RenderedTabSets(Run(Initial, [OpenLogin, SubmitLogin(p)]).userType) == [TabSetOf(p.userType)]
  {
    var s1 := State(Login, NoUser);
    var s2 := State(Dashboard, Role(p.userType));
    assert Step(Initial, OpenLogin) == Some(s1);
    assert Step(s1, SubmitLogin(p)) == Some(s2);
    assert Run(s2, []) == s2;
    assert Run(s1, [SubmitLogin(p)]) == Run(s2, []);
    assert [OpenLogin, SubmitLogin(p)][1..] == [SubmitLogin(p)];
    assert Run(Initial, [OpenLogin, SubmitLogin(p)]) == Run(s1, [SubmitLogin(p)]);
  }

  /** A login form that does not pass validation never leaves the login
      page, whatever the role chosen. */
  lemma InvalidLoginStaysOnPage(p: LoginPayload)
    requires !LoginFormValid(p)
    ensures Run(Initial, [OpenLogin, SubmitLogin(p)]) == State(Login, NoUser)
    ensures RunAsWritten(Initial, [OpenLogin, SubmitLogin(p)]) == State(Login, NoUser)
  {
    var s1 := State(Login, NoUser);
    assert Step(Initial, OpenLogin) == Some(s1);
    assert StepAsWritten(Initial, OpenLogin) == Some(s1);
    assert Step(s1, SubmitLogin(p)).None?;
    assert StepAsWritten(s1, SubmitLogin(p)).None?;
    assert Run(s1, []) == s1;
    assert RunAsWritten(s1, []) == s1;
    assert [OpenLogin, SubmitLogin(p)][1..] == [SubmitLogin(p)];
    assert Run(Initial, [OpenLogin, SubmitLogin(p)]) == Run(s1, [SubmitLogin(p)]);
    assert RunAsWritten(Initial, [OpenLogin, SubmitLogin(p)]) == RunAsWritten(s1, [SubmitLogin(p)]);
  }
}
