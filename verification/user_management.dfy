/** The user administration screen of src/components/UserManagement.tsx:
    the figures over the user list, creating a user, and switching a user
    between active and inactive. Statuses arrive from the server as plain
    text; the two the screen knows are 'activo' and 'inactivo'. */
module UserManagement {
  import opened Wrappers
  import opened Js
  import opened Seqs
  import opened Api

  const Activo := "activo"
  const Inactivo := "inactivo"

  datatype ManagedUser = ManagedUser(
    id: string, name: string, email: string, phone: string, userType: UserType, status: string)

  predicate IsActive(u: ManagedUser) {
    u.status == Activo
  }

  predicate IsInactive(u: ManagedUser) {
    u.status == Inactivo
  }

  /** Every user holds one of the two statuses the screen knows. */
  predicate KnownStatuses(us: seq<ManagedUser>) {
    forall i :: 0 <= i < |us| ==> us[i].status == Activo || us[i].status == Inactivo
  }

  // ---------------------------------------------------------------------
  // the figures

  /** The users per role, as the `porRol` record. */
  datatype RoleTally = RoleTally(admin: nat, owner: nat, committee: nat)

  function Get(t: RoleTally, r: UserType): nat
  {
    match r
    case Admin => t.admin
    case Owner => t.owner
    case Committee => t.committee
  }

  /** `acc[userType] = (acc[userType] || 0) + 1`: one more for that role,
      the others unchanged. */
  function Bump(t: RoleTally, r: UserType): (b: RoleTally)
    ensures Get(b, r) == Get(t, r) + 1
    ensures forall r' :: r' != r ==> Get(b, r') == Get(t, r')
  {
    match r
    case Admin => t.(admin := t.admin + 1)
    case Owner => t.(owner := t.owner + 1)
    case Committee => t.(committee := t.committee + 1)
  }

  /** The `reduce` over the users, from left to right. */
  function TallyFrom(acc: RoleTally, us: seq<ManagedUser>): RoleTally
    decreases |us|
  {
    if |us| == 0 then acc else TallyFrom(Bump(acc, us[0].userType), us[1..])
  }

  /** The number of users holding role `r`. */
  function CountRole(us: seq<ManagedUser>, r: UserType): nat
  {
    if |us| == 0 then 0 else (if us[0].userType == r then 1 else 0) + CountRole(us[1..], r)
  }

  datatype Stats = Stats(activos: nat, inactivos: int, porRol: RoleTally)

  /** `stats`: the active users, the rest, and the users per role. */
  function ComputeStats(us: seq<ManagedUser>): (s: Stats)
    ensures s.activos + s.inactivos == |us|
    ensures s.activos == Count(us, IsActive)
    ensures 0 <= s.inactivos
  {
    var activos := Count(us, IsActive);
    Stats(activos, |us| - activos, TallyFrom(RoleTally(0, 0, 0), us))
  }

  /** The left fold adds to its start the number of users of each role. */
  lemma {:induction false} TallyFromCounts(acc: RoleTally, us: seq<ManagedUser>, r: UserType)
    ensures Get(TallyFrom(acc, us), r) == Get(acc, r) + CountRole(us, r)
    decreases |us|
  {
    if |us| > 0 {
      TallyFromCounts(Bump(acc, us[0].userType), us[1..], r);
    }
  }

  /** Every user has exactly one role. */
  lemma {:induction false} RolesPartitionUsers(us: seq<ManagedUser>)
    ensures CountRole(us, Admin) + CountRole(us, Owner) + CountRole(us, Committee) == |us|
  {
    if |us| > 0 {
      RolesPartitionUsers(us[1..]);
    }
  }

  /** Each entry of `porRol` counts exactly the users with that role, and
      the three entries together count every user. */
  lemma PorRolCountsRoles(us: seq<ManagedUser>)
    ensures forall r :: Get(ComputeStats(us).porRol, r) == CountRole(us, r)
    ensures ComputeStats(us).porRol.admin + ComputeStats(us).porRol.owner
      + ComputeStats(us).porRol.committee == |us|
  {
    forall r ensures Get(ComputeStats(us).porRol, r) == CountRole(us, r) {
      TallyFromCounts(RoleTally(0, 0, 0), us, r);
    }
    TallyFromCounts(RoleTally(0, 0, 0), us, Admin);
    TallyFromCounts(RoleTally(0, 0, 0), us, Owner);
    TallyFromCounts(RoleTally(0, 0, 0), us, Committee);
    RolesPartitionUsers(us);
  }

  /** When every status is one the screen knows, `inactivos` is the number
      of inactive users; otherwise it also counts users of any other
      status. */
  lemma {:induction false} InactivosCountsInactive(us: seq<ManagedUser>)
    requires KnownStatuses(us)
    ensures ComputeStats(us).inactivos == Count(us, IsInactive)
  {
    if |us| > 0 {
      KnownStatusesTail(us);
      InactivosCountsInactive(us[1..]);
      CountCons(us, IsActive);
      CountCons(us, IsInactive);
    }
  }

  lemma KnownStatusesTail(us: seq<ManagedUser>)
    requires |us| > 0 && KnownStatuses(us)
    ensures us[0].status == Activo || us[0].status == Inactivo
    ensures KnownStatuses(us[1..])
  {
    forall i | 0 <= i < |us[1..]| ensures us[1..][i].status == Activo || us[1..][i].status == Inactivo {
      assert us[1..][i] == us[i + 1];
    }
  }

  // ---------------------------------------------------------------------
  // creating a user

  datatype NewUser = NewUser(name: string, email: string, phone: string, userType: UserType, password: string)

  const EmptyNewUser := NewUser("", "", "", Owner, "")

  datatype Screen = Screen(users: seq<ManagedUser>, form: NewUser)

  /** `handleCreateUser`: a form without name, email or password is refused
      on the spot and nothing is sent. Otherwise the form is sent; an
      accepted user joins the end of the list and the form is reset with the
      owner role, and a refusal changes nothing. The second component is the
      request sent, if any. */
  function HandleCreateUser(sc: Screen, reply: Result<ManagedUser, string>): (r: (Screen, Option<NewUser>))
    ensures r.1.None? <==> sc.form.name == "" || sc.form.email == "" || sc.form.password == ""
    ensures r.1.Some? ==> r.1.value == sc.form
    ensures r.1.None? || reply.Err? ==> r.0 == sc
    ensures r.1.Some? && reply.Ok? ==> r.0 == Screen(sc.users + [reply.value], EmptyNewUser)
  {
    var f := sc.form;
    if FalsyText(f.name) || FalsyText(f.email) || FalsyText(f.password) then (sc, None)
    else match reply
      case Ok(created) => (Screen(sc.users + [created], EmptyNewUser), Some(f))
      case Err(_) => (sc, Some(f))
  }

  /** A user added at the end counts once more for their own role. */
  lemma {:induction false} CountRoleSnoc(us: seq<ManagedUser>, u: ManagedUser, r: UserType)
    ensures CountRole(us + [u], r) == CountRole(us, r) + (if u.userType == r then 1 else 0)
  {
    if |us| > 0 {
      assert (us + [u])[1..] == us[1..] + [u];
      CountRoleSnoc(us[1..], u, r);
    } else {
      assert us + [u] == [u];
    }
  }

  /** An accepted user raises the `porRol` entry of their role by one,
      leaves the other entries alone, and raises the active figure by one
      exactly when they are active. */
  lemma CreatedUserRaisesRole(sc: Screen, created: ManagedUser, r: UserType)
    requires sc.form.name != "" && sc.form.email != "" && sc.form.password != ""
    ensures var before := ComputeStats(sc.users);
      var after := ComputeStats(HandleCreateUser(sc, Ok(created)).0.users);
      && Get(after.porRol, r) == Get(before.porRol, r) + (if created.userType == r then 1 else 0)
      && after.activos == before.activos + (if IsActive(created) then 1 else 0)
  {
    var us := sc.users + [created];
    TallyFromCounts(RoleTally(0, 0, 0), sc.users, r);
    TallyFromCounts(RoleTally(0, 0, 0), us, r);
    CountRoleSnoc(sc.users, created, r);
    CountAppend(sc.users, [created], IsActive);
  }

  /** The form left after a creation is refused on the spot: nothing is
      sent, whatever the server would answer. */
  lemma ResetFormRefused(us: seq<ManagedUser>, reply: Result<ManagedUser, string>)
    ensures HandleCreateUser(Screen(us, EmptyNewUser), reply) == (Screen(us, EmptyNewUser), None)
  {
  }

  // ---------------------------------------------------------------------
  // switching a user's status

  /** The status asked for: 'inactivo' for an active user, 'activo' for any
      other. */
  function NextStatus(s: string): (n: string)
    ensures n == Activo || n == Inactivo
    ensures s == Activo || s == Inactivo ==> n != s
    ensures n == Activo <==> s != Activo
  {
    if s == Activo then Inactivo else Activo
  }

  /** On a known status, two switches give back the status. */
  lemma NextStatusInvolution(s: string)
    requires s == Activo || s == Inactivo
    ensures NextStatus(NextStatus(s)) == s
  {
  }

  /** `handleToggleStatus`: the status asked for is the other one, and the
      server's answer replaces every user with the same id; a refusal
      changes nothing. The second component is the status asked for. */
  function HandleToggleStatus(us: seq<ManagedUser>, user: ManagedUser, reply: Result<ManagedUser, string>): (r: (seq<ManagedUser>, string))
    ensures r.1 == NextStatus(user.status)
    ensures |r.0| == |us|
    ensures reply.Err? ==> r.0 == us
    ensures reply.Ok? ==> forall i :: 0 <= i < |us| ==>
      r.0[i] == (if us[i].id == user.id then reply.value else us[i])
  {
    var next := NextStatus(user.status);
    match reply
    case Ok(updated) => (ReplaceWhere(us, (u: ManagedUser) => u.id == user.id, updated), next)
    case Err(_) => (us, next)
  }

  /** A user whose id is unique, switched to the status asked for, moves the
      active figure by one: down when they were active, up otherwise. */
  lemma ToggleMovesActivos(us: seq<ManagedUser>, k: nat)
    requires k < |us|
    requires forall i :: 0 <= i < |us| && i != k ==> us[i].id != us[k].id
    ensures var r := HandleToggleStatus(us, us[k], Ok(us[k].(status := NextStatus(us[k].status))));
      ComputeStats(r.0).activos == ComputeStats(us).activos + (if IsActive(us[k]) then -1 else 1)
  {
    var updated := us[k].(status := NextStatus(us[k].status));
    var vs := HandleToggleStatus(us, us[k], Ok(updated)).0;
    assert us == us[..k] + [us[k]] + us[k + 1..];
    assert vs[..k] == us[..k];
    assert vs[k + 1..] == us[k + 1..];
    assert vs == us[..k] + [updated] + us[k + 1..];
    CountAppend(us[..k] + [us[k]], us[k + 1..], IsActive);
    CountAppend(us[..k], [us[k]], IsActive);
    CountAppend(us[..k] + [updated], us[k + 1..], IsActive);
    CountAppend(us[..k], [updated], IsActive);
  }
}
