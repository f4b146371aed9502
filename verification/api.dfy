/** The records exchanged between the browser and the REST server, as
    declared in src/services/api.ts. Amounts, budgets and spending are
    integers here. Project status and priority and the finance record's type
    are strings, because the server stores whatever text it is sent. */
module Api {
  /** `UserType = 'admin' | 'owner' | 'committee'`. */
  datatype UserType = Admin | Owner | Committee

  /** What the login form hands to its `onLogin` callback. */
  datatype LoginPayload = LoginPayload(email: string, password: string, userType: UserType)

  /** The fields of the community registration form, all sent as text. */
  datatype CommunityRequest = CommunityRequest(
    communityName: string, address: string, city: string, postalCode: string,
    totalUnits: string, communityType: string,
    adminName: string, adminEmail: string, adminPhone: string, adminPosition: string,
    description: string, currentSoftware: string)

  /** One ledger entry; `kind` is the record's `type`, 'gasto' or 'ingreso'. */
  datatype FinanceRecord = FinanceRecord(
    id: string, date: string, category: string, project: string,
    description: string, amount: int, kind: string)

  datatype ProjectTask = ProjectTask(id: string, title: string, completed: bool)

  datatype Project = Project(
    id: string, name: string, description: string, status: string, priority: string,
    startDate: string, endDate: string, budget: int, spent: int,
    team: seq<string>, tasks: seq<ProjectTask>)
}
