# Uniora, modelled in Dafny

Uniora is a web application for managing a residential community. A small
Express server keeps users, projects, tasks, community registration requests
and ledger records in memory. React dashboards show figures over these lists
and send the creation and update requests. This project models the logic of
both halves as pure functions over immutable records and proves what that
logic promises.

- `Server` (`server/index.js`): login against the seed users, community
  registration, project creation, the task toggle with its two 404 errors,
  and ledger entries. Each handler takes the store and returns the new store
  together with an `Ok` reply or an HTTP status and message.
- `App` (`src/App.tsx`): the view and role state machine, the role label, and
  which tab set the dashboard renders.
- `CommunityRegistration`: the three-step wizard, with field editing, back,
  submission and the progress bar.
- `VotationCenter`, `FinanceDashboard`, `ProjectList`, `UserManagement`,
  `RequestCenter`: each dashboard's derived figures, its form guard, and
  where a created or updated item goes in the list.
- Helper modules:
  - `Js` holds the JavaScript semantics the code relies on: truthiness,
    `trim`, `split` and `join`, `Number()`/`String()`, and `localeCompare`.
  - `Seqs` holds the array operations: `filter`, counting, `reduce` to a
    sum, `find` and the `map` that swaps in an updated element.
  - `Api` holds the shared records of `src/services/api.ts`.
  - `Html` holds the browser's constraint validation of form inputs:
    `required`, and the valid e-mail address syntax that `type="email"`
    imposes (section 4.10.5.1.5 of the HTML Living Standard). A form that
    fails it never fires its submit event.
  - `Wrappers` holds `Option` and `Result`.

A client handler takes the server's answer as a parameter: `Ok` with the
returned record, or `Err` with the message the browser would show. It
returns the new screen state and, where the handler can refuse before
sending, the request it sent. Fresh ids, the server clock and login tokens
are parameters as well.

Truthiness is explicit:
- a text field is falsy exactly when it is empty;
- a numeric field is falsy when it is absent, `null` or `0`.

So the server refuses a budget or an amount of 0.

The votation, user and service-request screens call client functions that
`src/services/api.ts` does not define, against endpoints that
`server/index.js` does not define either, and `src/App.tsx` mounts none of
the three screens. Their records are therefore declared in their own
modules, and their handlers model the wiring the screens evidently intend:
the answer is a parameter, and the `Ok` branch is what an implemented call
would give. As shipped, every such call throws, so only the `Err` branch
occurs (see "Left out").

## Model

| member | source | states |
|---|---|---|
| Server.FindUser | server/index.js:111 | The result is the first user matching email, password and role; there is none exactly when no user matches all three |
| Server.Login | server/index.js:105-121 | 400 'Faltan credenciales' exactly when email, password or role is empty; 401 exactly when they are present but no user matches all three; success exactly when they are present and some user matches all three, and then the reply carries the role, email and name of a matching user, the name being that of the first match |
| Server.LoginOwnCredentials | server/index.js:111-120 | When emails are distinct, a user presenting their own credentials is logged in as exactly themselves |
| Server.SeedUsersDistinct | server/index.js:11-15 | The three seed users have distinct emails, so the previous row applies to them |
| Server.RegisterCommunity | server/index.js:123-127 | The request is stored unvalidated, after every earlier request, with the server's time. Its id is the fresh one when the body carries none and the body's own otherwise; nothing else changes |
| Server.RegisteredRequestIsFound | server/index.js:123-127 | When the stored id (the body's own, or else the fresh one) is held by no earlier request, looking it up finds the registered request, at the end of the list |
| Server.ReusedIdFindsEarlier | server/index.js:124 | A body carrying the id of an earlier request is stored, but looking that id up still finds the earlier request |
| Server.FirstRegistrationIsFound | server/index.js:17-127 | On a freshly started server, which holds no requests, the first registered request is found at the head of the list under the id it was stored with |
| Server.CreateProject | server/index.js:133-155 | An incomplete body, including a budget of 0, gives 400 and leaves the store unchanged. Otherwise the project copies the body, has a non-zero numeric budget, spent 0, no tasks and team [] when none was sent. It is appended, and the earlier projects and other lists are unchanged |
| Server.ProjectIndex | server/index.js:159 | The position of the first project with the id; none exactly when no project has it |
| Server.TaskIndex | server/index.js:162 | The position of the first task with the id within one project; none exactly when no task has it |
| Server.FlipTask | server/index.js:165 | Only the completion flag of the chosen task is negated; every other task and every other project field is kept |
| Server.ToggleTask | server/index.js:157-167 | An unknown project gives 404 and an unknown task in a known project gives 404, both with the store unchanged. Otherwise only the first matching task of the first matching project is flipped, and the reply is that updated project |
| Server.ToggleTwiceRestores | server/index.js:157-167 | A toggle that succeeded succeeds again, and the second one restores the store exactly |
| Server.CreateFinance | server/index.js:173-191 | A missing date, category, description or type, or an amount of 0, gives 400 and leaves the store unchanged. Otherwise the record copies the body with project 'General' when none was given, and it goes in front of the unchanged earlier records |
| App.HandleLogin | src/App.tsx:45-48 | The dashboard is shown and the given value is stored as the role |
| App.HandleLogout | src/App.tsx:50-53 | Back to the initial state: home view, no role |
| App.HandleRegistrationSubmit | src/App.tsx:55-59 | The login view is shown and the role is kept |
| App.StepAsWritten | src/App.tsx:62-87 | With the login page wired as written, submitting the login form acts exactly when the login view is on screen and the form passes validation (a valid e-mail address and a password), and it stores the whole form object as the role; every other event behaves as in Step |
| App.Step | src/App.tsx:62-87 | From home, 'log in' shows the login view and 'register' the registration view, with the role unchanged, and every other event is ignored. On the login view only back and a login act; on the registration view only back and a submitted registration act. Back from login or registration returns home, and submitting a registration shows the login view. Logging in acts exactly when the login view is on screen and the form passes validation, and it leads to the dashboard with the chosen role. On the dashboard only logout acts, and it leads to the initial state |
| App.UserTypeLabel | src/App.tsx:90-101 | 'Administrador', 'Propietario' and 'Miembro del Comité' for the three roles, each if and only if; '' for anything that is not a role |
| App.RenderedTabSets | src/App.tsx:157-272 | Exactly the tab set of the role held is rendered, and none when the value held is not a role |
| App.StepPreservesConsistent | src/App.tsx:45-87 | Every step keeps this invariant: a role is held on the dashboard and no role is held anywhere else |
| App.RunPreservesConsistent | src/App.tsx:45-87 | Any sequence of events from a consistent state keeps the invariant |
| App.DashboardShowsOneTabSet | src/App.tsx:157-272 | Whatever the user does, a dashboard on screen renders exactly one tab set, under a non-empty role label |
| App.LoginAsWrittenShowsNoTabs | src/components/LoginPage.tsx:23-26 | As written, opening the login page and submitting any form the browser lets through reaches a dashboard with no tab set and an empty label |
| App.LoginShowsRoleTabs | src/App.tsx:45-48 | With the chosen role passed on, the same two steps with any form the browser lets through reach the dashboard of that role and render its tab set |
| App.InvalidLoginStaysOnPage | src/components/LoginPage.tsx:53-99 | A login form whose e-mail is not a valid address or whose password is empty leaves the login page on screen, under either wiring |
| Html.ValidEmailShape | src/components/LoginPage.tsx:78-83 | An address the e-mail input accepts has exactly one '@', with text on both sides |
| Html.ValidEmailOfParts | src/components/LoginPage.tsx:78-83 | A non-empty local part of allowed characters, '@', and a domain of valid dot-separated labels make an address the e-mail input accepts |
| CommunityRegistration.HandleChange | src/components/CommunityRegistrationForm.tsx:58-60 | The named field holds the new value and every other field is unchanged |
| CommunityRegistration.FormExtensionality | src/components/CommunityRegistrationForm.tsx:19-38 | Two forms that agree on every field are equal, so the twelve fields are the whole form |
| CommunityRegistration.ChangeToSameValue | src/components/CommunityRegistrationForm.tsx:58-60 | Writing back a field's current value leaves the form unchanged |
| CommunityRegistration.ChangeOutsideStepKeepsComplete | src/components/CommunityRegistrationForm.tsx:108-238 | Typing into a field of another step changes neither whether step 1's required inputs are filled nor whether step 2's are |
| CommunityRegistration.HandleSubmit | src/components/CommunityRegistrationForm.tsx:41-56 | When the current step's required inputs are not filled (step 1: name, address, city, postal code, units; step 2: name, a valid e-mail, phone) nothing happens. Otherwise before step 3 the step advances by one and nothing is sent, and on step 3 the whole form is sent and the step stays. A form is sent exactly on step 3; steps stay within 1 to 3 |
| CommunityRegistration.EmptyFormStaysOnStepOne | src/components/CommunityRegistrationForm.tsx:108-161 | Submitting the wizard as it opens, with every field empty, does nothing |
| CommunityRegistration.Apply | src/components/CommunityRegistrationForm.tsx:96-298 | Typing changes the form only for a field whose input is on the current step, and never changes the step |
| CommunityRegistration.ApplyKeepsReachable | src/components/CommunityRegistrationForm.tsx:41-298 | Every event keeps the wizard within steps 1 to 3 with the required inputs of every earlier step filled in |
| CommunityRegistration.RunKeepsReachable | src/components/CommunityRegistrationForm.tsx:41-298 | Any sequence of events keeps that invariant |
| CommunityRegistration.SentFormIsComplete | src/components/CommunityRegistrationForm.tsx:41-298 | Whatever the user does from the start, a form is sent exactly on step 3, and a sent form has every required input of steps 1 and 2 filled in, with a valid administrator e-mail |
| CommunityRegistration.Back | src/components/CommunityRegistrationForm.tsx:315-319 | Back exists exactly when the step is above 1, and it goes back one step |
| CommunityRegistration.StepStaysInRange | src/components/CommunityRegistrationForm.tsx:41-60 | Any sequence of submissions, back clicks and edits keeps the wizard within steps 1 to 3 |
| CommunityRegistration.ThirdSubmitSends | src/components/CommunityRegistrationForm.tsx:41-49 | From step 1 with the required inputs of steps 1 and 2 filled in, the first two submissions send nothing and the third reaches step 3 and sends the form as typed |
| CommunityRegistration.ProgressSegments | src/components/CommunityRegistrationForm.tsx:83-92 | Segment s is highlighted if and only if s is not past the current step |
| CommunityRegistration.HighlightedSegments | src/components/CommunityRegistrationForm.tsx:83-92 | On every valid step exactly `step` segments are highlighted |
| VotationCenter.OpenCount | src/components/VotationCenter.tsx:57 | Never more than the list holds; together with the closed votations it accounts for every votation; zero exactly when all are closed |
| VotationCenter.TotalVotesBounds | src/components/VotationCenter.tsx:101 | The total is at least every option's count, and it is zero exactly when no option has a vote |
| VotationCenter.TotalVotesAddOne | src/components/VotationCenter.tsx:101 | One more vote for one option adds exactly one to the total |
| VotationCenter.FreshDraft | src/components/VotationCenter.tsx:29-39 | A fresh draft has empty texts and exactly the options 'A favor' and 'En contra' |
| VotationCenter.AddOption | src/components/VotationCenter.tsx:157 | One option with an empty label is appended; the existing options and texts are unchanged |
| VotationCenter.EditOption | src/components/VotationCenter.tsx:163-172 | Only option i's label changes; its id, the other options and the option count are kept |
| VotationCenter.AddedOptionBlocksCreation | src/components/VotationCenter.tsx:60 | A freshly added option makes the creation guard refuse until its label is filled |
| VotationCenter.FreshDraftOptionsFilled | src/components/VotationCenter.tsx:60 | Neither default option label is blank after trimming |
| VotationCenter.Payload | src/components/VotationCenter.tsx:67-72 | The payload carries the draft's texts and its labels untrimmed, in the same order |
| VotationCenter.HandleCreate | src/components/VotationCenter.tsx:59-90 | Nothing is sent and nothing changes exactly when title, description or closing date is empty or some label is blank. Otherwise the payload is sent; an accepted votation goes first and the draft starts afresh, and a refusal changes nothing |
| VotationCenter.CreatedVotationRaisesOpenCount | src/components/VotationCenter.tsx:57-80 | An accepted votation raises the open figure by one when it is open and leaves it alone otherwise |
| VotationCenter.FreshDraftRefused | src/components/VotationCenter.tsx:59-83 | The draft left after a creation is refused on the spot: nothing is sent and nothing changes, whatever the answer would be |
| VotationCenter.VoteRequests | src/components/VotationCenter.tsx:252-259 | An open votation offers one vote request per option, in option order, carrying the votation's and the option's ids; a closed votation offers none |
| VotationCenter.HandleVote | src/components/VotationCenter.tsx:92-99 | The answer replaces exactly the votations with the id voted on; length and order are kept, and a refusal changes nothing |
| VotationCenter.OpenClosingDates | src/components/VotationCenter.tsx:210-211 | As many dates as open votations; every open votation's date is among them, and each of them belongs to an open votation |
| VotationCenter.NextClosing | src/components/VotationCenter.tsx:208-216 | 'Sin registros' exactly for an empty list. 'Sin fecha próxima' exactly when nothing is open or some open votation has an empty date. Otherwise the date shown is non-empty, belongs to an open votation, and is ordered before or equal to every open votation's date |
| FinanceDashboard.NetProfitPrepend | src/components/FinanceDashboard.tsx:62-64 | A record placed in front raises the net figure by its amount for 'ingreso', lowers it for 'gasto', and leaves it alone for any other type |
| FinanceDashboard.TotalsCoverLedger | src/components/FinanceDashboard.tsx:62-63 | When every type is 'ingreso' or 'gasto', income plus expenses is the sum of all amounts |
| FinanceDashboard.ProfitMargin | src/components/FinanceDashboard.tsx:65 | The margin is the text '0', with no division, exactly when income is 0; otherwise margin times income equals net times 100 |
| FinanceDashboard.HandleSaveTransaction | src/components/FinanceDashboard.tsx:71-80 | The draft is always sent. An accepted record goes first with the others in the same order, and the draft resets to amount 0, project 'General', type 'gasto'; a refusal changes nothing |
| FinanceDashboard.EmptyDraftRefused | src/components/FinanceDashboard.tsx:76 | Saving the reset draft untouched is refused by the server with 400, and the server ledger is unchanged |
| FinanceDashboard.SavedTransactionMovesNet | src/components/FinanceDashboard.tsx:71-80 | A record the server accepted and the screen placed in front moves the net figure by its amount, in its type's direction |
| ProjectList.ParseTeam | src/components/ProjectList.tsx:61 | An empty field gives no members. Every member is non-empty and trimmed, and is the trim of one of the comma-separated pieces; the trim of every piece that is not blank is a member; there are at most one more members than commas |
| ProjectList.ParseJoinedPieces | src/components/ProjectList.tsx:61 | Comma-free pieces joined by commas parse to the trims of the pieces, in the same order, with the blank ones dropped |
| ProjectList.ParseJoinedNames | src/components/ProjectList.tsx:61 | When no piece is blank, every piece is kept, trimmed and in order, so "Ana García, Carlos López" gives the two names |
| ProjectList.ParseJoinedTeam | src/components/ProjectList.tsx:61 | Trimmed, non-empty, comma-free names joined by commas parse back to the same names in the same order |
| ProjectList.ParsedMembersCommaFree | src/components/ProjectList.tsx:61 | No parsed member holds a comma |
| ProjectList.TrimIsInfix | src/components/ProjectList.tsx:61 | Trimming adds no character, so a comma-free piece trims to a comma-free member |
| ProjectList.ParseTeamIdempotent | src/components/ProjectList.tsx:61 | A non-empty parsed team, joined with commas and parsed again, gives the same team |
| ProjectList.CreatePayload | src/components/ProjectList.tsx:58-63 | The payload keeps the form's texts, reads the budget with `Number`, parses the team, and sets spent to 0 |
| ProjectList.TypedBudgetIsSent | src/components/ProjectList.tsx:60 | A budget typed as the decimal text of an integer is sent as that integer |
| ProjectList.ServerAcceptsFormIff | server/index.js:134-137 | The server accepts the form's request exactly when every text field is filled and the budget reads as a non-zero number; an empty, blank or non-numeric budget is refused |
| ProjectList.ResetFormRefused | src/components/ProjectList.tsx:56-71 | The form left after a creation, sent untouched, is refused by the server with 400 and the store is unchanged |
| ProjectList.HandleCreateProject | src/components/ProjectList.tsx:56-71 | The payload is always sent. An accepted project goes first and the form resets to status 'pendiente' and priority 'media'; a refusal changes nothing |
| ProjectList.HandleToggle | src/components/ProjectList.tsx:73-80 | The answer replaces exactly the projects with its id; length and order are kept, and a refusal changes nothing |
| ProjectList.CompletedTasks | src/components/ProjectList.tsx:83 | The completed count never exceeds the number of tasks |
| ProjectList.Progress | src/components/ProjectList.tsx:82-85 | 0 without tasks; always between 0 and 100; 100 exactly when there are tasks and all are completed |
| ProjectList.FlipMovesCompletedByOne | src/components/ProjectList.tsx:83 | A server toggle moves the completed count by exactly one: down for a done task, up for an open one |
| UserManagement.ComputeStats | src/components/UserManagement.tsx:45-54 | activos counts the users with status 'activo', and activos plus inactivos is the number of users |
| UserManagement.InactivosCountsInactive | src/components/UserManagement.tsx:46-47 | When every status is 'activo' or 'inactivo', inactivos is exactly the number of inactive users |
| UserManagement.Bump | src/components/UserManagement.tsx:49 | One more for the user's role; the other roles are unchanged |
| UserManagement.TallyFromCounts | src/components/UserManagement.tsx:48-51 | The left fold adds to its start the number of users of each role |
| UserManagement.RolesPartitionUsers | src/components/UserManagement.tsx:48-51 | The per-role counts add up to the number of users |
| UserManagement.PorRolCountsRoles | src/components/UserManagement.tsx:48-51 | Each entry of porRol counts exactly the users with that role, and the three entries add up to the number of users |
| UserManagement.HandleCreateUser | src/components/UserManagement.tsx:56-73 | Nothing is sent and nothing changes exactly when name, email or password is empty. Otherwise the form is sent; an accepted user is appended at the end and the form resets with the owner role, and a refusal changes nothing |
| UserManagement.CountRoleSnoc | src/components/UserManagement.tsx:48-51 | A user added at the end counts once more for their own role and not for the others |
| UserManagement.CreatedUserRaisesRole | src/components/UserManagement.tsx:45-73 | An accepted user raises the porRol entry of their role by one and leaves the others alone, and raises activos by one exactly when they are active |
| UserManagement.ResetFormRefused | src/components/UserManagement.tsx:56-73 | The form left after a creation is refused on the spot: nothing is sent and nothing changes |
| UserManagement.NextStatus | src/components/UserManagement.tsx:76 | 'inactivo' for an active user and 'activo' for any other, so a known status always changes |
| UserManagement.NextStatusInvolution | src/components/UserManagement.tsx:76 | On a known status, two switches give the status back |
| UserManagement.HandleToggleStatus | src/components/UserManagement.tsx:75-83 | The status asked for is the other one; the answer replaces exactly the users with that id, keeping length and order, and a refusal changes nothing |
| UserManagement.ToggleMovesActivos | src/components/UserManagement.tsx:75-83 | Switching a user with a unique id moves activos by exactly one: down for an active user, up otherwise |
| RequestCenter.ComputeStats | src/components/RequestCenter.tsx:43-48 | Each figure is at most the number of requests, and each is zero exactly when no request holds its status |
| RequestCenter.StatsCoverRequests | src/components/RequestCenter.tsx:44-46 | No request is counted twice, and the three figures add up to the number of requests exactly when every status is one of the three |
| RequestCenter.HandleCreate | src/components/RequestCenter.tsx:63-80 | Nothing is sent and nothing changes exactly when title or description is empty. Otherwise the form is sent; an accepted request goes first and the form resets with category 'mantenimiento', and a refusal changes nothing |
| RequestCenter.CreatedRequestRaisesItsFigure | src/components/RequestCenter.tsx:43-80 | An accepted request raises the figure of its own status by one and leaves the other two alone |
| RequestCenter.ResetFormRefused | src/components/RequestCenter.tsx:63-80 | The form left after a creation is refused on the spot: nothing is sent and nothing changes |
| RequestCenter.HandleStatus | src/components/RequestCenter.tsx:82-89 | The answer replaces exactly the requests with that id; length and order are kept, and a refusal changes nothing |
| RequestCenter.EnabledTargets | src/components/RequestCenter.tsx:242-265 | The enabled buttons are exactly the known statuses other than the one held: two for a known status, and all three otherwise. So any status can be reached from any other, and the current one is never asked for |
| Js.Trim | src/components/ProjectList.tsx:61 | The result is trimmed, is the infix left after removing all leading and trailing whitespace, and is empty exactly when the input is all whitespace |
| Js.TrimIdempotent | src/components/VotationCenter.tsx:60 | Trimming twice is trimming once |
| Js.Split | src/components/ProjectList.tsx:61 | One more piece than there are separators, and no piece contains one |
| Js.JoinSplit | src/components/ProjectList.tsx:61 | Joining the pieces of a split with the same separator gives back the text |
| Js.SplitJoin | src/components/ProjectList.tsx:61 | Splitting a join of separator-free pieces gives back the pieces |
| Js.NumberRoundTrip | src/components/ProjectList.tsx:60 | `Number` reads back every integer that `String` writes |
| Js.LexLeTotal | src/components/VotationCenter.tsx:212 | Any two dates are ordered one way or the other by the comparison that sorts them |
| Js.LexLeTransitive | src/components/VotationCenter.tsx:212 | The comparison that sorts dates is transitive |
| Js.LexLeAntisymmetric | src/components/VotationCenter.tsx:212 | Two dates ordered both ways are equal, so the earliest date is unique |
| Js.MinString | src/components/VotationCenter.tsx:210-212 | The first date after sorting is one of the dates and is ordered before or equal to all of them |
| Seqs.Filter | src/components/VotationCenter.tsx:57 | The kept elements all pass the test and come from the list; every passing element is kept; nothing is kept exactly when nothing passes, and everything exactly when everything does |
| Seqs.FilterAppend | src/components/VotationCenter.tsx:57 | Filtering a concatenation filters each part and concatenates the results in the same order |
| Seqs.FilterSnoc | src/components/VotationCenter.tsx:57 | An element added at the end is kept at the end when it passes and dropped otherwise; with the empty list giving nothing, this fixes the order and multiplicity of the result |
| Seqs.FilterAll | src/components/ProjectList.tsx:61 | When every element passes, the filter returns the list unchanged |
| Seqs.ReplaceWhere | src/components/ProjectList.tsx:77 | Every selected element becomes the replacement and every other element stays in place |
| Seqs.FirstIndex | server/index.js:160 | The position of the first element passing the test, or none when no element passes |

## Left out

- Network I/O. The `fetch` wrapper in `src/services/api.ts`, its JSON decoding and error bodies, Express and cors set-up, and `app.listen` are not modelled. A server answer is a parameter of each client handler.
- The GET handlers for projects and finances. They return the store's lists unchanged, which needs no model.
- Fresh values. uuid and `crypto.randomUUID` ids, login tokens and `new Date().toISOString()` are parameters.
- Server.RegisterCommunity: keys of the body beyond the twelve form fields and `id` are stored verbatim by the spread at `server/index.js:124`; the typed body has no room for them, so the stored request here holds only the form fields. The body's own `id`, which overrides the fresh one, is modelled.
- JSON values of unexpected types. A text field holding a number or an object is not modelled; text fields are strings and numeric fields are integers or absent.
- Js.StringToNumber: reads only optionally signed decimal integers after trimming. Fractions, exponents, hexadecimal and `Infinity` become NaN here, where `Number` would read them; amounts and budgets are integers throughout.
- Js.LexLe: `localeCompare` is modelled as code-point order. Locale collation rules are left out. The order matters only for ISO dates, whose characters sort the same way under both.
- ProjectList.Progress: an exact rational percentage. The rounding of `toFixed`, `toLocaleString` and the floating-point division are left out; `budgetUsage` is display only.
- FinanceDashboard.ProfitMargin: an exact rational, not the one-decimal text of `toFixed(1)`.
- Rendering. JSX, recharts charts, badge styles, the theme effect (`src/App.tsx:27-43`, DOM and `matchMedia`) and the settings panel are left out.
- `src/components/HomePage.tsx` and `src/components/SettingsPanel.tsx` are markup only. `src/components/LoginPage.tsx` contributes its `onLogin` call and its form's validation (`required` e-mail and password, `type="email"`), which `App` models.
- Html.ValidEmail: the value sanitization the browser applies before validating is left out. An e-mail input strips newlines and leading and trailing whitespace, so " a@b.c " passes in the browser and not here. A `type="number"` input whose text is not a number holds the empty value, which `required` refuses; here `totalUnits` is any non-empty text. The `<select>` fields (`communityType`, `adminPosition`) are not `required` and are free text here.
- `src/components/ProjectDashboard.tsx` sums hard-coded constant arrays into float percentages. It is not part of this model.
- Loading and error flags, `alert`, dialog open state, and React's scheduling of state updates are left out. Each handler is one atomic step from the answer it receives.
- The login page never calls the server's login endpoint. `Server.Login` is modelled on its own, with no client connected to it.
- Votation, user and service-request endpoints on the server do not exist in `server/index.js`, and no server-side vote counting is modelled.
- VotationCenter.HandleCreate: `src/services/api.ts:80-113` defines only `login`, `registerCommunity`, `getFinances`, `createFinance`, `getProjects`, `createProject` and `toggleTask`. So `api.createVotation` is undefined; calling it throws inside the `try`, the alert shows, and only the `Err` branch occurs as shipped. The `Ok` branch models the evidently intended wiring.
- VotationCenter.HandleVote: `api.submitVote` is undefined in the same way, so only the `Err` branch occurs as shipped.
- UserManagement.HandleCreateUser: `api.createUser` is undefined, so only the `Err` branch occurs as shipped.
- UserManagement.HandleToggleStatus: `api.updateUserStatus` is undefined, so only the `Err` branch occurs as shipped.
- RequestCenter.HandleCreate: `api.createRequest` is undefined, so only the `Err` branch occurs as shipped.
- RequestCenter.HandleStatus: `api.updateRequestStatus` is undefined, so only the `Err` branch occurs as shipped.
- The list loaders `getVotations`, `getUsers` and `getRequests` are undefined too, so these three lists stay empty as shipped. `src/services/api.ts` also exports none of the types `Votation`, `ManagedUser` and `ServiceRequest` that the screens import, and `src/App.tsx` mounts none of the three screens. Every figure and lemma about their lists describes the screens as they are evidently meant to run.
- Security aspects are left out: plaintext password comparison, and tokens that grant nothing.

## Findings

| source | as written | input that shows it | evidently intended | confidence | as-written member | corrected member |
|---|---|---|---|---|---|---|
| src/App.tsx:74 | The login page calls `onLogin({email, password, userType})` (src/components/LoginPage.tsx:25). `App` passes `handleLogin` as that callback, so the whole object is stored as the role. Every `userType === ...` test then fails: the dashboard renders no tab set and the role label is empty | Open the login page and submit any form the browser lets through, e.g. `{email: 'admin@uniora.com', password: 'admin123', userType: 'admin'}` | The form's `userType` is stored, and the dashboard shows that role's tab set and label | not executed | App.StepAsWritten (exhibited by App.LoginAsWrittenShowsNoTabs) | App.Step (proved by App.LoginShowsRoleTabs and App.DashboardShowsOneTabSet) |
