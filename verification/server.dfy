/** The in-memory REST server of server/index.js: login against the seeded
    users, registration of community requests, creation of projects, toggling
    of one task of one project, and creation of finance records.

    The arrays the server keeps in process memory form a `Store`; every
    handler takes the store and the request and returns the new store with
    the reply. Request bodies are read with JavaScript truthiness: an absent
    text field and an empty one are both `""`, and an absent or `null` number
    is `None`. Identifiers and timestamps the server would draw from `uuid`
    and the clock are parameters. */
module Server {
  import opened Wrappers
  import opened Js
  import opened Seqs
  import opened Api

  // ---------------------------------------------------------------------
  // state and replies

  datatype User = User(email: string, password: string, userType: string, name: string)

  /** A registration request as stored: the submitted form plus the id and
      timestamp the server adds. */
  datatype StoredCommunityRequest = StoredCommunityRequest(id: string, request: CommunityRequest, createdAt: string)

  datatype Store = Store(
    communityRequests: seq<StoredCommunityRequest>,
    projects: seq<Project>,
    finances: seq<FinanceRecord>)

  /** An error reply: the HTTP status and the `message` of its JSON body. */
  datatype HttpError = HttpError(status: int, message: string)

  /** The store after a request, and either the reply body or the error. */
  datatype Handled<T> = Handled(store: Store, reply: Result<T, HttpError>)

  const MissingCredentials := HttpError(400, "Faltan credenciales")
  const InvalidCredentials := HttpError(401, "Credenciales inválidas")
  const IncompleteProject := HttpError(400, "Datos incompletos para el proyecto")
  const ProjectNotFound := HttpError(404, "Proyecto no encontrado")
  const TaskNotFound := HttpError(404, "Tarea no encontrada")
  const IncompleteTransaction := HttpError(400, "Datos incompletos para la transacción")

  // ---------------------------------------------------------------------
  // seed data

  const SeedUsers: seq<User> := [
    User("admin@uniora.com", "admin123", "admin", "Administradora Demo"),
    User("propietario@uniora.com", "owner123", "owner", "Propietario Demo"),
    User("comite@uniora.com", "committee123", "committee", "Miembro Comité Demo")
  ]

  const SeedProjects: seq<Project> := [
    Project("1", "Rediseño Web Corporativo",
      "Actualización completa del sitio web corporativo con nuevo diseño responsive",
      "en-progreso", "alta", "2025-01-15", "2025-03-30", 15000, 9750,
      ["Ana García", "Carlos López", "María Fernández"],
      [ProjectTask("1", "Diseño UI/UX", true), ProjectTask("2", "Desarrollo Frontend", true),
       ProjectTask("3", "Desarrollo Backend", false), ProjectTask("4", "Testing y QA", false)]),
    Project("2", "App Móvil E-commerce",
      "Desarrollo de aplicación móvil para plataforma de ventas",
      "en-progreso", "alta", "2025-02-01", "2025-05-15", 25000, 10000,
      ["Pedro Martínez", "Laura Ruiz"],
      [ProjectTask("1", "Prototipo", true), ProjectTask("2", "Desarrollo iOS", false),
       ProjectTask("3", "Desarrollo Android", false), ProjectTask("4", "Integración APIs", false)]),
    Project("3", "Sistema CRM",
      "Implementación de sistema de gestión de relaciones con clientes",
      "retrasado", "media", "2024-12-01", "2025-02-28", 18000, 12000,
      ["José Torres", "Carmen Silva"],
      [ProjectTask("1", "Análisis de requisitos", true), ProjectTask("2", "Configuración base", true),
       ProjectTask("3", "Personalización", false), ProjectTask("4", "Migración de datos", false)]),
    Project("4", "Campaña Marketing Digital",
      "Campaña de marketing en redes sociales y Google Ads",
      "completado", "media", "2024-11-01", "2025-01-31", 8000, 7500,
      ["Sandra Morales"],
      [ProjectTask("1", "Estrategia de contenido", true), ProjectTask("2", "Diseño de creatividades", true),
       ProjectTask("3", "Ejecución de campaña", true), ProjectTask("4", "Análisis de resultados", true)])
  ]

  const SeedFinances: seq<FinanceRecord> := [
    FinanceRecord("1", "2025-06-15", "Desarrollo", "Rediseño Web", "Desarrollo Frontend", 5000, "gasto"),
    FinanceRecord("2", "2025-06-14", "Diseño", "App Móvil", "Diseño UI/UX", 3500, "gasto"),
    FinanceRecord("3", "2025-06-12", "Marketing", "Campaña Digital", "Google Ads", 2000, "gasto"),
    FinanceRecord("4", "2025-06-10", "Operaciones", "General", "Licencias software", 800, "gasto"),
    FinanceRecord("5", "2025-06-08", "Ingreso", "Cliente A", "Pago parcial proyecto", 15000, "ingreso"),
    FinanceRecord("6", "2025-06-05", "Desarrollo", "Sistema CRM", "Backend development", 4500, "gasto"),
    FinanceRecord("7", "2025-06-03", "Diseño", "Rediseño Web", "Diseño de prototipos", 2800, "gasto"),
    FinanceRecord("8", "2025-06-01", "Ingreso", "Cliente B", "Pago proyecto completado", 25000, "ingreso")
  ]

  const InitialStore := Store([], SeedProjects, SeedFinances)

  // ---------------------------------------------------------------------
  // POST /api/auth/login

  datatype LoginBody = LoginBody(email: string, password: string, userType: string)

  /** The success body: a fresh token, the role and the user's public data. */
  datatype LoginReply = LoginReply(token: string, userType: string, email: string, name: string)

  predicate MissingCredential(b: LoginBody) {
    FalsyText(b.email) || FalsyText(b.password) || FalsyText(b.userType)
  }

  /** A user matches when email, password and role are all equal. */
  predicate Matches(u: User, b: LoginBody) {
    u.email == b.email && u.password == b.password && u.userType == b.userType
  }

  /** The position of the first user matching all three credentials. */
  function FindUser(users: seq<User>, b: LoginBody): (r: Option<nat>)
    ensures r.Some? ==> r.value < |users| && Matches(users[r.value], b)
    ensures r.Some? ==> forall j :: 0 <= j < r.value ==> !Matches(users[j], b)
    ensures r.None? <==> forall j :: 0 <= j < |users| ==> !Matches(users[j], b)
  {
    FirstIndex(users, (u: User) => Matches(u, b))
  }

  /** Login never changes the store. It is refused with 400 when a
      credential is missing and with 401 when no user matches all three.
      Otherwise it answers with the role, email and name of the matched
      user. */
  function Login(users: seq<User>, body: LoginBody, token: string): (r: Result<LoginReply, HttpError>)
    ensures r == Err(MissingCredentials) <==> MissingCredential(body)
    ensures r == Err(InvalidCredentials) <==>
      !MissingCredential(body) && forall j :: 0 <= j < |users| ==> !Matches(users[j], body)
    ensures r.Ok? <==> !MissingCredential(body) && exists j :: 0 <= j < |users| && Matches(users[j], body)
    ensures r.Ok? ==> FindUser(users, body).Some? && r.value.name == users[FindUser(users, body).value].name
    ensures r.Ok? ==> exists j :: (0 <= j < |users| && Matches(users[j], body)
      && r.value == LoginReply(token, users[j].userType, users[j].email, users[j].name))
  {
    if MissingCredential(body) then Err(MissingCredentials)
    else match FindUser(users, body)
      case None => Err(InvalidCredentials)
      case Some(i) => Ok(LoginReply(token, users[i].userType, users[i].email, users[i].name))
  }

  predicate DistinctEmails(users: seq<User>) {
    forall i, j :: 0 <= i < j < |users| ==> users[i].email != users[j].email
  }

  /** With distinct emails, a user who gives their own credentials is logged
      in as exactly themselves. */
  lemma LoginOwnCredentials(users: seq<User>, i: nat, token: string)
    requires DistinctEmails(users)
    requires i < |users|
    requires users[i].email != "" && users[i].password != "" && users[i].userType != ""
    ensures Login(users, LoginBody(users[i].email, users[i].password, users[i].userType), token)
      == Ok(LoginReply(token, users[i].userType, users[i].email, users[i].name))
  {
    var b := LoginBody(users[i].email, users[i].password, users[i].userType);
    assert Matches(users[i], b);
  }

  lemma SeedUsersDistinct()
    ensures DistinctEmails(SeedUsers)
  {
  }

  // ---------------------------------------------------------------------
  // POST /api/community

  /** The request is stored as sent, with the server's time, after all
      earlier requests. Nothing is validated. The stored id is the fresh one
      unless the body carries an `id` of its own, which is spread over the
      fresh one and wins; a `createdAt` in the body loses to the server's
      time, which is spread last. */
  function RegisterCommunity(st: Store, body: CommunityRequest, bodyId: Option<string>, freshId: string, now: string)
    : (r: Handled<StoredCommunityRequest>)
    ensures r.reply.Ok?
    ensures bodyId.None? ==> r.reply.value.id == freshId
    ensures bodyId.Some? ==> r.reply.value.id == bodyId.value
    ensures r.reply.value.request == body && r.reply.value.createdAt == now
    ensures |r.store.communityRequests| == |st.communityRequests| + 1
    ensures r.store.communityRequests[..|st.communityRequests|] == st.communityRequests
    ensures r.store.communityRequests[|st.communityRequests|] == r.reply.value
    ensures r.store.projects == st.projects && r.store.finances == st.finances
  {
    var req := StoredCommunityRequest(bodyId.GetOr(freshId), body, now);
    Handled(st.(communityRequests := st.communityRequests + [req]), Ok(req))
  }

  /** With a stored id no earlier request holds, the registered request is
      the one that id finds, at the end of the list. The stored id is the
      body's own when it carries one. */
  lemma RegisteredRequestIsFound(st: Store, body: CommunityRequest, bodyId: Option<string>, freshId: string, now: string)
    requires forall j :: 0 <= j < |st.communityRequests| ==> st.communityRequests[j].id != bodyId.GetOr(freshId)
    ensures var rs := RegisterCommunity(st, body, bodyId, freshId, now).store.communityRequests;
      FirstIndex(rs, (q: StoredCommunityRequest) => q.id == bodyId.GetOr(freshId)) == Some(|st.communityRequests|)
  {
    var id := bodyId.GetOr(freshId);
    var rs := RegisterCommunity(st, body, bodyId, freshId, now).store.communityRequests;
    assert rs[|st.communityRequests|].id == id;
    assert forall j :: 0 <= j < |st.communityRequests| ==> rs[j] == st.communityRequests[j];
  }

  /** A body that reuses the id of an earlier request shadows nothing: the
      lookup still finds the earlier one. */
  lemma ReusedIdFindsEarlier(st: Store, body: CommunityRequest, k: nat, freshId: string, now: string)
    requires k < |st.communityRequests|
    requires forall j :: 0 <= j < k ==> st.communityRequests[j].id != st.communityRequests[k].id
    ensures var id := st.communityRequests[k].id;
      var rs := RegisterCommunity(st, body, Some(id), freshId, now).store.communityRequests;
      FirstIndex(rs, (q: StoredCommunityRequest) => q.id == id) == Some(k)
  {
    var rs := RegisterCommunity(st, body, Some(st.communityRequests[k].id), freshId, now).store.communityRequests;
    assert forall j :: 0 <= j < |st.communityRequests| ==> rs[j] == st.communityRequests[j];
  }

  /** The first request registered on a freshly started server is found at
      the head of the list, under the id it was stored with. */
  lemma FirstRegistrationIsFound(body: CommunityRequest, bodyId: Option<string>, freshId: string, now: string)
    ensures var rs := RegisterCommunity(InitialStore, body, bodyId, freshId, now).store.communityRequests;
      FirstIndex(rs, (q: StoredCommunityRequest) => q.id == bodyId.GetOr(freshId)) == Some(0)
  {
    RegisteredRequestIsFound(InitialStore, body, bodyId, freshId, now);
  }

  // ---------------------------------------------------------------------
  // POST /api/projects

  datatype ProjectBody = ProjectBody(
    name: string, description: string, status: string, priority: string,
    startDate: string, endDate: string, budget: Option<int>, team: Option<seq<string>>)

  /** Every required field is truthy; a budget of 0 is not. */
  predicate ProjectBodyComplete(b: ProjectBody) {
    && !FalsyText(b.name) && !FalsyText(b.description) && !FalsyText(b.status)
    && !FalsyText(b.priority) && !FalsyText(b.startDate) && !FalsyText(b.endDate)
    && !FalsyNumber(b.budget)
  }

  /** An incomplete body is refused with 400 and the store is left alone.
      Otherwise the new project copies the body's fields, with a numeric
      budget, nothing spent, no tasks and an empty team when none was sent,
      and it is appended after every existing project. */
  function CreateProject(st: Store, b: ProjectBody, id: string): (r: Handled<Project>)
    ensures !ProjectBodyComplete(b) ==> r == Handled(st, Err(IncompleteProject))
    ensures ProjectBodyComplete(b) ==> r.reply.Ok?
    ensures r.reply.Ok? ==>
      var p := r.reply.value;
      && p.id == id && p.name == b.name && p.description == b.description
      && p.status == b.status && p.priority == b.priority
      && p.startDate == b.startDate && p.endDate == b.endDate
      && b.budget == Some(p.budget) && p.budget != 0
      && p.spent == 0 && p.tasks == []
      && (b.team.None? ==> p.team == []) && (b.team.Some? ==> p.team == b.team.value)
      && |r.store.projects| == |st.projects| + 1
      && r.store.projects[..|st.projects|] == st.projects
      && r.store.projects[|st.projects|] == p
      && r.store.finances == st.finances
      && r.store.communityRequests == st.communityRequests
  {
    if !ProjectBodyComplete(b) then Handled(st, Err(IncompleteProject))
    else
      var p := Project(id, b.name, b.description, b.status, b.priority, b.startDate, b.endDate,
        b.budget.value, 0, b.team.GetOr([]), []);
      Handled(st.(projects := st.projects + [p]), Ok(p))
  }

  // ---------------------------------------------------------------------
  // PATCH /api/projects/:projectId/tasks/:taskId

  /** The position of the first project with this id (`projects.find`). */
  function ProjectIndex(ps: seq<Project>, id: string): (r: Option<nat>)
    ensures r.Some? ==> r.value < |ps| && ps[r.value].id == id
    ensures r.Some? ==> forall j :: 0 <= j < r.value ==> ps[j].id != id
    ensures r.None? <==> forall j :: 0 <= j < |ps| ==> ps[j].id != id
  {
    FirstIndex(ps, (p: Project) => p.id == id)
  }

  /** The position of the first task with this id within one project. */
  function TaskIndex(ts: seq<ProjectTask>, id: string): (r: Option<nat>)
    ensures r.Some? ==> r.value < |ts| && ts[r.value].id == id
    ensures r.Some? ==> forall j :: 0 <= j < r.value ==> ts[j].id != id
    ensures r.None? <==> forall j :: 0 <= j < |ts| ==> ts[j].id != id
  {
    FirstIndex(ts, (t: ProjectTask) => t.id == id)
  }

  /** The project with the completion flag of task `ti` negated. */
  function FlipTask(p: Project, ti: nat): (q: Project)
    requires ti < |p.tasks|
    ensures q.(tasks := p.tasks) == p
    ensures |q.tasks| == |p.tasks|
    ensures q.tasks[ti].completed == !p.tasks[ti].completed
    ensures q.tasks[ti].id == p.tasks[ti].id && q.tasks[ti].title == p.tasks[ti].title
    ensures forall j :: 0 <= j < |p.tasks| && j != ti ==> q.tasks[j] == p.tasks[j]
  {
    var t := p.tasks[ti];
    p.(tasks := p.tasks[ti := t.(completed := !t.completed)])
  }

  /** Unknown project: 404, nothing changes. Known project but unknown
      task: 404, nothing changes. Otherwise the first matching task of the
      first matching project has its flag negated, every other task and
      project is kept, and the reply is the updated project. */
  function ToggleTask(st: Store, projectId: string, taskId: string): (r: Handled<Project>)
    ensures ProjectIndex(st.projects, projectId).None? ==> r == Handled(st, Err(ProjectNotFound))
    ensures ProjectIndex(st.projects, projectId).Some? ==>
      var pi := ProjectIndex(st.projects, projectId).value;
      && (TaskIndex(st.projects[pi].tasks, taskId).None? ==> r == Handled(st, Err(TaskNotFound)))
      && (TaskIndex(st.projects[pi].tasks, taskId).Some? ==>
            var ti := TaskIndex(st.projects[pi].tasks, taskId).value;
            && r.reply == Ok(FlipTask(st.projects[pi], ti))
            && |r.store.projects| == |st.projects|
            && r.store.projects[pi] == r.reply.value
            && (forall j :: 0 <= j < |st.projects| && j != pi ==> r.store.projects[j] == st.projects[j])
            && r.store.finances == st.finances
            && r.store.communityRequests == st.communityRequests)
  {
    match ProjectIndex(st.projects, projectId)
    case None => Handled(st, Err(ProjectNotFound))
    case Some(pi) =>
      var p := st.projects[pi];
      match TaskIndex(p.tasks, taskId)
      case None => Handled(st, Err(TaskNotFound))
      case Some(ti) =>
        var q := FlipTask(p, ti);
        Handled(st.(projects := st.projects[pi := q]), Ok(q))
  }

  /** Toggling the same task twice succeeds both times and restores the
      store exactly. */
  lemma ToggleTwiceRestores(st: Store, projectId: string, taskId: string)
    requires ToggleTask(st, projectId, taskId).reply.Ok?
    ensures ToggleTask(ToggleTask(st, projectId, taskId).store, projectId, taskId).reply.Ok?
    ensures ToggleTask(ToggleTask(st, projectId, taskId).store, projectId, taskId).store == st
  {
    var pi := ProjectIndex(st.projects, projectId).value;
    var ti := TaskIndex(st.projects[pi].tasks, taskId).value;
    var st1 := ToggleTask(st, projectId, taskId).store;
    var q := FlipTask(st.projects[pi], ti);
    assert st1.projects == st.projects[pi := q];
    assert ProjectIndex(st1.projects, projectId) == Some(pi) by {
      assert forall j :: 0 <= j < pi ==> st1.projects[j] == st.projects[j];
    }
    assert TaskIndex(q.tasks, taskId) == Some(ti) by {
      assert forall j :: 0 <= j < ti ==> q.tasks[j] == st.projects[pi].tasks[j];
    }
    var q2 := FlipTask(q, ti);
    assert q2.tasks == st.projects[pi].tasks;
    assert q2 == st.projects[pi];
    assert st1.projects[pi := q2] == st.projects;
  }

  // ---------------------------------------------------------------------
  // POST /api/finances

  datatype FinanceBody = FinanceBody(
    date: string, category: string, project: string, description: string,
    amount: Option<int>, kind: string)

  /** Every required field is truthy; an amount of 0 is not. The project
      is optional. */
  predicate FinanceBodyComplete(b: FinanceBody) {
    && !FalsyText(b.date) && !FalsyText(b.category) && !FalsyText(b.description)
    && !FalsyNumber(b.amount) && !FalsyText(b.kind)
  }

  /** An incomplete body is refused with 400 and the store is left alone.
      Otherwise the record copies the body, with project 'General' when none
      was given, and it is placed before every existing record. */
  function CreateFinance(st: Store, b: FinanceBody, id: string): (r: Handled<FinanceRecord>)
    ensures !FinanceBodyComplete(b) ==> r == Handled(st, Err(IncompleteTransaction))
    ensures FinanceBodyComplete(b) ==> r.reply.Ok?
    ensures r.reply.Ok? ==>
      var f := r.reply.value;
      && f.id == id && f.date == b.date && f.category == b.category
      && f.description == b.description && f.kind == b.kind
      && b.amount == Some(f.amount) && f.amount != 0
      && (b.project == "" ==> f.project == "General")
      && (b.project != "" ==> f.project == b.project)
      && |r.store.finances| == |st.finances| + 1
      && r.store.finances[0] == f
      && r.store.finances[1..] == st.finances
      && r.store.projects == st.projects
      && r.store.communityRequests == st.communityRequests
  {
    if !FinanceBodyComplete(b) then Handled(st, Err(IncompleteTransaction))
    else
      var f := FinanceRecord(id, b.date, b.category, if b.project == "" then "General" else b.project,
        b.description, b.amount.value, b.kind);
      Handled(st.(finances := [f] + st.finances), Ok(f))
  }
}
