/** The service request screen of src/components/RequestCenter.tsx: the
    figures per status, filing a request, and moving a request between the
    statuses 'abierto', 'en-progreso' and 'cerrado'. Statuses arrive from the
    server as plain text. */
module RequestCenter {
  import opened Wrappers
  import opened Js
  import opened Seqs

  const Abierto := "abierto"
  const EnProgreso := "en-progreso"
  const Cerrado := "cerrado"

  /** The statuses in the order of the buttons: mark open, in progress,
      close. */
  const Statuses := [Abierto, EnProgreso, Cerrado]

  datatype ServiceRequest = ServiceRequest(
    id: string, title: string, description: string, category: string,
    status: string, requestedBy: string, createdAt: string)

  predicate IsAbierto(r: ServiceRequest) { r.status == Abierto }
  predicate IsEnProgreso(r: ServiceRequest) { r.status == EnProgreso }
  predicate IsCerrado(r: ServiceRequest) { r.status == Cerrado }

  /** One of the three statuses the screen knows. */
  predicate KnownStatus(s: string) {
    s == Abierto || s == EnProgreso || s == Cerrado
  }

  predicate KnownStatuses(rs: seq<ServiceRequest>) {
    forall i :: 0 <= i < |rs| ==> KnownStatus(rs[i].status)
  }

  datatype Stats = Stats(abiertos: nat, enCurso: nat, cerrados: nat)

  /** `stats`: the requests of each status. */
  function ComputeStats(rs: seq<ServiceRequest>): (s: Stats)
    ensures s.abiertos <= |rs| && s.enCurso <= |rs| && s.cerrados <= |rs|
    ensures s.abiertos == 0 <==> forall i :: 0 <= i < |rs| ==> rs[i].status != Abierto
    ensures s.enCurso == 0 <==> forall i :: 0 <= i < |rs| ==> rs[i].status != EnProgreso
    ensures s.cerrados == 0 <==> forall i :: 0 <= i < |rs| ==> rs[i].status != Cerrado
  {
    Stats(Count(rs, IsAbierto), Count(rs, IsEnProgreso), Count(rs, IsCerrado))
  }

  function Total(s: Stats): nat {
    s.abiertos + s.enCurso + s.cerrados
  }

  /** The first request adds one to the total when its status is known and
      nothing otherwise. */
  lemma TotalCons(rs: seq<ServiceRequest>)
    requires |rs| > 0
    ensures Total(ComputeStats(rs)) ==
      (if KnownStatus(rs[0].status) then 1 else 0) + Total(ComputeStats(rs[1..]))
  {
    CountCons(rs, IsAbierto);
    CountCons(rs, IsEnProgreso);
    CountCons(rs, IsCerrado);
  }

  /** All statuses are known exactly when the first one is and all the
      rest are. */
  lemma KnownStatusesCons(rs: seq<ServiceRequest>)
    requires |rs| > 0
    ensures KnownStatuses(rs) <==> KnownStatus(rs[0].status) && KnownStatuses(rs[1..])
  {
    if KnownStatus(rs[0].status) && KnownStatuses(rs[1..]) {
      forall i | 1 <= i < |rs| ensures KnownStatus(rs[i].status) {
        assert rs[i] == rs[1..][i - 1];
      }
    }
  }

  /** No request is counted twice, and the three figures add up to the
      number of requests exactly when every request holds one of the three
      statuses; a request of any other status is in none of them. */
  lemma {:induction false} StatsCoverRequests(rs: seq<ServiceRequest>)
    ensures Total(ComputeStats(rs)) <= |rs|
    ensures Total(ComputeStats(rs)) == |rs| <==> KnownStatuses(rs)
  {
    if |rs| > 0 {
      StatsCoverRequests(rs[1..]);
      TotalCons(rs);
      KnownStatusesCons(rs);
    }
  }

  // ---------------------------------------------------------------------
  // filing a request

  datatype Form = Form(title: string, description: string, category: string, requestedBy: string)

  const EmptyForm := Form("", "", "mantenimiento", "")

  datatype Screen = Screen(requests: seq<ServiceRequest>, form: Form)

  /** `handleCreate`: a form without title or description is refused on the
      spot and nothing is sent. Otherwise the form is sent; an accepted
      request goes first and the form is reset to category 'mantenimiento',
      and a refusal changes nothing. The second component is the request
      sent, if any. */
  function HandleCreate(sc: Screen, reply: Result<ServiceRequest, string>): (r: (Screen, Option<Form>))
    ensures r.1.None? <==> sc.form.title == "" || sc.form.description == ""
    ensures r.1.Some? ==> r.1.value == sc.form
    ensures r.1.None? || reply.Err? ==> r.0 == sc
    ensures r.1.Some? && reply.Ok? ==>
      && r.0.requests == [reply.value] + sc.requests
      && r.0.form == Form("", "", "mantenimiento", "")
  {
    var f := sc.form;
    if FalsyText(f.title) || FalsyText(f.description) then (sc, None)
    else match reply
      case Ok(created) => (Screen([created] + sc.requests, EmptyForm), Some(f))
      case Err(_) => (sc, Some(f))
  }

  /** An accepted request raises the figure of its own status by one and
      leaves the other two figures alone. */
  lemma CreatedRequestRaisesItsFigure(sc: Screen, created: ServiceRequest)
    requires sc.form.title != "" && sc.form.description != ""
    ensures var before := ComputeStats(sc.requests);
      var after := ComputeStats(HandleCreate(sc, Ok(created)).0.requests);
      && after.abiertos == before.abiertos + (if IsAbierto(created) then 1 else 0)
      && after.enCurso == before.enCurso + (if IsEnProgreso(created) then 1 else 0)
      && after.cerrados == before.cerrados + (if IsCerrado(created) then 1 else 0)
  {
    var rs := [created] + sc.requests;
    assert rs[1..] == sc.requests;
    CountCons(rs, IsAbierto);
    CountCons(rs, IsEnProgreso);
    CountCons(rs, IsCerrado);
  }

  /** The form left after a creation is refused on the spot: nothing is
      sent, whatever the server would answer. */
  lemma ResetFormRefused(rs: seq<ServiceRequest>, reply: Result<ServiceRequest, string>)
    ensures HandleCreate(Screen(rs, EmptyForm), reply) == (Screen(rs, EmptyForm), None)
  {
  }

  // ---------------------------------------------------------------------
  // changing a status

  /** `handleStatus`: the server's answer replaces every request with the
      same id; a refusal changes nothing. */
  function HandleStatus(rs: seq<ServiceRequest>, req: ServiceRequest, reply: Result<ServiceRequest, string>): (r: seq<ServiceRequest>)
    ensures |r| == |rs|
    ensures reply.Err? ==> r == rs
    ensures reply.Ok? ==> forall i :: 0 <= i < |rs| ==>
      r[i] == (if rs[i].id == req.id then reply.value else rs[i])
  {
    match reply
    case Ok(updated) => ReplaceWhere(rs, (x: ServiceRequest) => x.id == req.id, updated)
    case Err(_) => rs
  }

  /** The statuses whose buttons are enabled on a request's card, in
      button order: each button is disabled when the request already holds
      its status. So every other status can be reached and the one held
      cannot be asked for. */
  function EnabledTargets(current: string): (ts: seq<string>)
    ensures forall i :: 0 <= i < |ts| ==> KnownStatus(ts[i]) && ts[i] != current
    ensures forall t :: KnownStatus(t) && t != current ==> t in ts
    ensures KnownStatus(current) ==> |ts| == 2
    ensures !KnownStatus(current) ==> ts == Statuses
  {
    (if current == Abierto then [] else [Abierto])
    + (if current == EnProgreso then [] else [EnProgreso])
    + (if current == Cerrado then [] else [Cerrado])
  }
}
