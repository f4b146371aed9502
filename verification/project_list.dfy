/** The project screen of src/components/ProjectList.tsx: turning the
    creation form into a request, the comma-separated team field, placing
    created and toggled projects in the list, and task progress. */
module ProjectList {
  import opened Wrappers
  import opened Js
  import opened Seqs
  import opened Api
  import Server

  // ---------------------------------------------------------------------
  // the team field

  predicate NonEmpty(s: string) {
    !FalsyText(s)
  }

  /** `team ? team.split(',').map(m => m.trim()).filter(Boolean) : []`.
      Every member is non-empty and trimmed, each is the trim of one of the
      comma-separated pieces, the trim of every piece that is not blank is a
      member, and there are at most as many members as pieces. */
  function ParseTeam(t: string): (r: seq<string>)
    ensures t == "" ==> r == []
    ensures |r| <= Occurrences(t, ',') + 1
    ensures forall i :: 0 <= i < |r| ==> r[i] != "" && Trimmed(r[i])
    ensures t != "" ==> forall i :: 0 <= i < |r| ==> r[i] in MapSeq(Split(t, ','), Trim)
    ensures forall j :: 0 <= j < |Split(t, ',')| && !AllWhitespace(Split(t, ',')[j]) ==>
      Trim(Split(t, ',')[j]) in r
  {
    if FalsyText(t) then []
    else
      var trimmed := MapSeq(Split(t, ','), Trim);
      Filter(trimmed, NonEmpty)
  }

  /** A team field typed as comma-free pieces joined by commas reads as
      the trims of the pieces, in order, with the blank ones dropped. */
  lemma ParseJoinedPieces(pieces: seq<string>)
    requires |pieces| > 0
    requires forall i :: 0 <= i < |pieces| ==> ',' !in pieces[i]
    ensures ParseTeam(Join(pieces, ',')) == Filter(MapSeq(pieces, Trim), NonEmpty)
  {
    var t := Join(pieces, ',');
    SplitJoin(pieces, ',');
    if t == "" {
      assert MapSeq(pieces, Trim) == [""];
    }
  }

  /** When no piece is blank, every piece is kept: "Ana García, Carlos
      López" reads as the two names without the space after the comma. */
  lemma ParseJoinedNames(pieces: seq<string>)
    requires |pieces| > 0
    requires forall i :: 0 <= i < |pieces| ==> ',' !in pieces[i] && !AllWhitespace(pieces[i])
    ensures ParseTeam(Join(pieces, ',')) == MapSeq(pieces, Trim)
  {
    ParseJoinedPieces(pieces);
    FilterAll(MapSeq(pieces, Trim), NonEmpty);
  }

  /** A team written as its members joined by commas reads back as the same
      members in the same order, when each member is non-empty, trimmed and
      free of commas. */
  lemma ParseJoinedTeam(names: seq<string>)
    requires |names| > 0
    requires forall i :: 0 <= i < |names| ==> names[i] != "" && Trimmed(names[i]) && ',' !in names[i]
    ensures ParseTeam(Join(names, ',')) == names
  {
    forall i | 0 <= i < |names| ensures !AllWhitespace(names[i]) {
      TrimOfTrimmed(names[i]);
    }
    ParseJoinedNames(names);
    TrimAllTrimmed(names);
  }

  /** No member holds a comma: each is the trim of a piece between
      commas. */
  lemma ParsedMembersCommaFree(t: string)
    ensures forall i :: 0 <= i < |ParseTeam(t)| ==> ',' !in ParseTeam(t)[i]
  {
    var r := ParseTeam(t);
    if t != "" {
      var pieces := Split(t, ',');
      var trimmed := MapSeq(pieces, Trim);
      forall i | 0 <= i < |r| ensures ',' !in r[i] {
        var k :| 0 <= k < |trimmed| && trimmed[k] == r[i];
        TrimIsInfix(pieces[k], ',');
      }
    }
  }

  /** Trimming removes characters and adds none. */
  lemma TrimIsInfix(s: string, c: char)
    requires c !in s
    ensures c !in Trim(s)
  {
    var a := LeadingWhitespace(s);
    assert Trim(s) == s[a..a + |Trim(s)|];
  }

  /** Parsing is a normal form: joining a parsed team with commas and
      parsing it again gives the same team. */
  lemma ParseTeamIdempotent(t: string)
    ensures |ParseTeam(t)| > 0 ==> ParseTeam(Join(ParseTeam(t), ',')) == ParseTeam(t)
  {
    if |ParseTeam(t)| > 0 {
      ParsedMembersCommaFree(t);
      ParseJoinedTeam(ParseTeam(t));
    }
  }

  /** Trimming each of a list of trimmed names changes none of them. */
  lemma TrimAllTrimmed(names: seq<string>)
    requires forall i :: 0 <= i < |names| ==> Trimmed(names[i])
    ensures MapSeq(names, Trim) == names
  {
    var trimmed := MapSeq(names, Trim);
    forall i | 0 <= i < |names| ensures trimmed[i] == names[i] {
      TrimOfTrimmed(names[i]);
    }
  }

  // ---------------------------------------------------------------------
  // creating a project

  datatype Form = Form(
    name: string, description: string, status: string, priority: string,
    startDate: string, endDate: string, budget: string, team: string)

  const EmptyForm := Form("", "", "pendiente", "media", "", "", "", "")

  /** The request body: the form's texts, the budget read as a number, the
      parsed team and nothing spent. */
  datatype Payload = Payload(
    name: string, description: string, status: string, priority: string,
    startDate: string, endDate: string, budget: Num, team: seq<string>, spent: int)

  /** The payload the form produces: its texts unchanged, `spent` 0, the
      budget as `Number` reads it and the team as parsed above. */
  function CreatePayload(f: Form): (p: Payload)
    ensures p.spent == 0
    ensures p.budget == StringToNumber(f.budget)
    ensures p.team == ParseTeam(f.team)
    ensures p.name == f.name && p.description == f.description && p.status == f.status
    ensures p.priority == f.priority && p.startDate == f.startDate && p.endDate == f.endDate
  {
    Payload(f.name, f.description, f.status, f.priority, f.startDate, f.endDate,
      StringToNumber(f.budget), ParseTeam(f.team), 0)
  }

  /** A budget typed as the decimal text of an integer is sent as that
      integer. */
  lemma TypedBudgetIsSent(f: Form, n: int)
    ensures CreatePayload(f.(budget := NumberToString(n))).budget == Finite(n)
  {
    NumberRoundTrip(n);
  }

  /** The JSON body the payload becomes; NaN becomes `null`, and `spent` is
      sent but ignored by the server. */
  function ToBody(p: Payload): Server.ProjectBody
  {
    Server.ProjectBody(p.name, p.description, p.status, p.priority, p.startDate, p.endDate,
      ToJson(p.budget), Some(p.team))
  }

  /** The server accepts the form exactly when every text field is filled
      in and the budget reads as a non-zero number. So a form whose budget is
      empty, blank or not a number is refused. */
  lemma ServerAcceptsFormIff(st: Server.Store, f: Form, id: string)
    ensures Server.CreateProject(st, ToBody(CreatePayload(f)), id).reply.Ok? <==>
      && f.name != "" && f.description != "" && f.status != "" && f.priority != ""
      && f.startDate != "" && f.endDate != ""
      && StringToNumber(f.budget).Finite? && StringToNumber(f.budget).value != 0
  {
  }

  /** The form left after a creation is refused by the server: its name,
      description, dates and budget are empty. */
  lemma ResetFormRefused(st: Server.Store, id: string)
    ensures Server.CreateProject(st, ToBody(CreatePayload(EmptyForm)), id)
      == Server.Handled(st, Err(Server.IncompleteProject))
  {
    assert !Server.ProjectBodyComplete(ToBody(CreatePayload(EmptyForm)));
  }

  datatype Screen = Screen(projects: seq<Project>, form: Form)

  /** `handleCreateProject`: the payload is always sent. An accepted project
      goes first and the form is reset; a refusal changes nothing. */
  function HandleCreateProject(sc: Screen, reply: Result<Project, string>): (r: (Screen, Payload))
    ensures r.1 == CreatePayload(sc.form)
    ensures reply.Err? ==> r.0 == sc
    ensures reply.Ok? ==>
      && |r.0.projects| == |sc.projects| + 1
      && r.0.projects[0] == reply.value
      && r.0.projects[1..] == sc.projects
      && r.0.form == EmptyForm
  {
    var payload := CreatePayload(sc.form);
    match reply
    case Ok(created) => (Screen([created] + sc.projects, EmptyForm), payload)
    case Err(_) => (sc, payload)
  }

  /** `toggleTask`: the server's updated project replaces every project with
      its id; the others keep their place. A refusal changes nothing. */
  function HandleToggle(ps: seq<Project>, reply: Result<Project, string>): (r: seq<Project>)
    ensures |r| == |ps|
    ensures reply.Err? ==> r == ps
    ensures reply.Ok? ==> forall i :: 0 <= i < |ps| ==>
      r[i] == (if ps[i].id == reply.value.id then reply.value else ps[i])
  {
    match reply
    case Ok(updated) => ReplaceWhere(ps, (p: Project) => p.id == updated.id, updated)
    case Err(_) => ps
  }

  // ---------------------------------------------------------------------
  // progress

  predicate IsCompleted(t: ProjectTask) {
    t.completed
  }

  /** The number of completed tasks, as shown in "Tareas (k/n)". */
  function CompletedTasks(p: Project): (k: nat)
    ensures k <= |p.tasks|
  {
    Count(p.tasks, IsCompleted)
  }

  /** `getProgress`, as an exact percentage: 0 without tasks, between 0 and
      100, and 100 exactly when there are tasks and all are completed. */
  function Progress(p: Project): (r: real)
    ensures |p.tasks| == 0 ==> r == 0.0
    ensures 0.0 <= r <= 100.0
    ensures r == 100.0 <==> |p.tasks| > 0 && forall i :: 0 <= i < |p.tasks| ==> p.tasks[i].completed
  {
    var n := |p.tasks|;
    if n == 0 then 0.0
    else
      var k := CompletedTasks(p);
      PercentBounds(k, n);
      Percent(k, n)
  }

  /** `k / n * 100`. */
  function Percent(k: nat, n: nat): real
    requires n > 0
  {
    ((k as real) / (n as real)) * 100.0
  }

  /** A share of a positive whole lies between 0 and 100 percent and is
      100 exactly when it is the whole. */
  lemma PercentBounds(k: nat, n: nat)
    requires 0 < n && k <= n
    ensures 0.0 <= Percent(k, n) <= 100.0
    ensures Percent(k, n) == 100.0 <==> k == n
  {
    var q := (k as real) / (n as real);
    assert q * (n as real) == k as real;
    assert 0.0 <= q <= 1.0;
    if q == 1.0 {
      assert k as real == n as real;
    }
  }

  /** Toggling one task moves the completed count by exactly one, up when
      the task was open and down when it was done. */
  lemma FlipMovesCompletedByOne(p: Project, ti: nat)
    requires ti < |p.tasks|
    ensures CompletedTasks(Server.FlipTask(p, ti)) ==
      CompletedTasks(p) + (if p.tasks[ti].completed then -1 else 1)
  {
    var q := Server.FlipTask(p, ti);
    var ts := p.tasks;
    var us := q.tasks;
    assert ts == ts[..ti] + [ts[ti]] + ts[ti + 1..];
    assert us == ts[..ti] + [us[ti]] + ts[ti + 1..];
    CountAppend(ts[..ti] + [ts[ti]], ts[ti + 1..], IsCompleted);
    CountAppend(ts[..ti], [ts[ti]], IsCompleted);
    CountAppend(ts[..ti] + [us[ti]], ts[ti + 1..], IsCompleted);
    CountAppend(ts[..ti], [us[ti]], IsCompleted);
  }
}
