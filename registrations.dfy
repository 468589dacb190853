/**
 * What `registerRoutes` in server/routes.ts installs: for each endpoint of
 * the route table it registers (under its own Express verb), the middleware
 * that guards it. The auth endpoints are installed by the authentication
 * setup, which is not part of this model, and so are not registered here.
 */
module Registrations {
  import opened Wrappers
  import opened Schema
  import opened Gates
  import opened ApiTable
  import opened AccessPolicy

  datatype Gate = AccessGate | AdminGate

  /** `app.<verb>(route.path, gate, handler)`. */
  datatype Registration = Registration(verb: HttpMethod, route: Route, gate: Gate)

  /** The registrations, in the order `registerRoutes` makes them. */
  const Registered: seq<Registration> := [
    Registration(GET, ListMedications, AccessGate),
    Registration(POST, CreateMedication, AccessGate),
    Registration(DELETE, DeleteMedication, AccessGate),
    Registration(GET, ListAppointments, AccessGate),
    Registration(POST, CreateAppointment, AccessGate),
    Registration(DELETE, DeleteAppointment, AccessGate),
    Registration(POST, TriggerPanic, AccessGate),
    Registration(GET, ListUsers, AdminGate),
    Registration(PATCH, ToggleBlock, AdminGate)
  ]

  /** Running a gate. */
  function Guard(gate: Gate, user: Option<User>, now: int): Decision {
    match gate
    case AccessGate => CheckAccess(user, now)
    case AdminGate => RequireAdmin(user)
  }

  /** The gate registered for a verb and a path pattern, if any registration has them. */
  function GateFor(regs: seq<Registration>, m: HttpMethod, path: string): (g: Option<Gate>)
    ensures g.Some? <==> exists r :: r in regs && r.verb == m && r.route.path == path
    ensures g.Some? ==> exists r :: r in regs && r.verb == m && r.route.path == path && r.gate == g.value
  {
    if regs == [] then None
    else if regs[0].verb == m && regs[0].route.path == path then Some(regs[0].gate)
    else GateFor(regs[1..], m, path)
  }

  /** The gate a table group's routes get. */
  function GroupGate(group: string): Option<Gate> {
    if group in {"medications", "appointments", "panic"} then Some(AccessGate)
    else if group == "admin" then Some(AdminGate)
    else None
  }

  // ---------------------------------------------------------------------
  // Properties of the table and of the registrations

  /**
   * The (method, path) pair of each entry of `api`, in declaration order.
   * It repeats what `Api` holds, as a small literal the uniqueness proof can
   * compare without unfolding whole `Route` values.
   */
  const ApiSignatures: seq<(HttpMethod, string)> := [
    (POST, "/api/register"), (POST, "/api/login"), (POST, "/api/logout"), (GET, "/api/user"),
    (GET, "/api/medications"), (POST, "/api/medications"), (DELETE, "/api/medications/:id"),
    (GET, "/api/appointments"), (POST, "/api/appointments"), (DELETE, "/api/appointments/:id"),
    (POST, "/api/panic"),
    (GET, "/api/admin/users"), (PATCH, "/api/admin/users/:id/block")
  ]

  /** Entry k of `api` has the k-th (method, path) pair. */
  lemma ApiSignature(k: nat)
    requires k < |Api|
    ensures k < |ApiSignatures| && (Api[k].verb, Api[k].path) == ApiSignatures[k]
  {
    // One case per entry keeps the literal evaluation small; it is there for solver cost.
    if k == 0 {} else if k == 1 {} else if k == 2 {} else if k == 3 {} else if k == 4 {}
    else if k == 5 {} else if k == 6 {} else if k == 7 {} else if k == 8 {} else if k == 9 {}
    else if k == 10 {} else if k == 11 {} else {}
  }

  /** No two entries of `api` share a method and a path. */
  lemma ApiUnambiguous()
    ensures Unambiguous(Api)
  {
    assert |ApiSignatures| == |Api|;
    forall i, j | 0 <= i < j < |Api| ensures Api[i].verb != Api[j].verb || Api[i].path != Api[j].path {
      ApiSignature(i);
      ApiSignature(j);
    }
  }

  /** No two registrations share a verb and a path. */
  predicate RegistrationsUnambiguous(regs: seq<Registration>) {
    forall i, j :: 0 <= i < j < |regs| ==> regs[i].verb != regs[j].verb || regs[i].route.path != regs[j].route.path
  }

  /** The k-th registration is the (k + 4)-th table entry, under that entry's own method. */
  lemma RegistrationEntry(k: nat)
    requires k < |Registered|
    ensures Registered[k].route == Api[k + 4] && Registered[k].verb == Api[k + 4].verb
    ensures Some(Registered[k].gate) == GroupGate(Api[k + 4].group)
  {
    // One case per entry keeps the literal evaluation small; it is there for solver cost.
    if k == 0 {} else if k == 1 {} else if k == 2 {} else if k == 3 {} else if k == 4 {}
    else if k == 5 {} else if k == 6 {} else if k == 7 {} else {}
  }

  /** Every registration uses its table entry's method, and every registered route is an entry of the table. */
  lemma RegistrationsFollowTable()
    ensures forall r :: r in Registered ==> r.verb == r.route.verb && r.route in Api
  {
    forall k | 0 <= k < |Registered|
      ensures Registered[k].verb == Registered[k].route.verb && Registered[k].route in Api
    {
      RegistrationEntry(k);
    }
  }

  /** No two registrations share a verb and a path, because the table's entries do not. */
  lemma RegisteredUnambiguous()
    ensures RegistrationsUnambiguous(Registered)
  {
    ApiUnambiguous();
    forall i, j | 0 <= i < j < |Registered|
      ensures Registered[i].verb != Registered[j].verb || Registered[i].route.path != Registered[j].route.path
    {
      RegistrationEntry(i);
      RegistrationEntry(j);
      assert Api[i + 4].verb != Api[j + 4].verb || Api[i + 4].path != Api[j + 4].path;
    }
  }

  /** In an unambiguous list, looking up a registration's verb and path gives its own gate. */
  lemma {:induction false} GateForEntry(regs: seq<Registration>, k: nat)
    requires RegistrationsUnambiguous(regs) && k < |regs|
    ensures GateFor(regs, regs[k].verb, regs[k].route.path) == Some(regs[k].gate)
  {
    // Follows from GateFor's contract and uniqueness; the induction keeps the proof cheap.
    if k > 0 {
      assert regs[0].verb != regs[k].verb || regs[0].route.path != regs[k].route.path;
      assert RegistrationsUnambiguous(regs[1..]) by {
        forall i, j | 0 <= i < j < |regs| - 1
          ensures regs[1..][i].verb != regs[1..][j].verb || regs[1..][i].route.path != regs[1..][j].route.path
        {
          assert regs[1..][i] == regs[i + 1] && regs[1..][j] == regs[j + 1];
        }
      }
      GateForEntry(regs[1..], k - 1);
    }
  }

  /** The same, for a verb and a path known to be registration k's. */
  lemma GateAt(regs: seq<Registration>, k: nat, m: HttpMethod, path: string)
    requires RegistrationsUnambiguous(regs) && k < |regs|
    requires regs[k].verb == m && regs[k].route.path == path
    ensures GateFor(regs, m, path) == Some(regs[k].gate)
  {
    GateForEntry(regs, k);
  }

  /**
   * Every entry of the table outside `auth` is registered, under the gate of
   * its group: `checkAccess` for medications, appointments and panic,
   * `requireAdmin` for admin.
   */
  lemma EveryResourceRouteIsGated()
    ensures forall k :: 0 <= k < |Api| && Api[k].group != "auth" ==>
      GroupGate(Api[k].group).Some? && GateFor(Registered, Api[k].verb, Api[k].path) == GroupGate(Api[k].group)
  {
    RegisteredUnambiguous();
    forall k | 0 <= k < |Api| && Api[k].group != "auth"
      ensures GroupGate(Api[k].group).Some? && GateFor(Registered, Api[k].verb, Api[k].path) == GroupGate(Api[k].group)
    {
      assert 4 <= k by {
        if k == 0 {} else if k == 1 {} else if k == 2 {} else if k == 3 {}
      }
      RegistrationEntry(k - 4);
      GateForEntry(Registered, k - 4);
    }
  }

  /** An `auth` entry has no registration here: no gate runs before its handler. */
  lemma AuthRoutesUngated(k: nat)
    requires k < |Api| && Api[k].group == "auth"
    ensures GateFor(Registered, Api[k].verb, Api[k].path).None?
  {
    ApiUnambiguous();
    forall r | r in Registered
      ensures r.verb != Api[k].verb || r.route.path != Api[k].path
    {
      var j :| 0 <= j < |Registered| && Registered[j] == r;
      RegistrationEntry(j);
      assert Api[j + 4].group != "auth";
    }
    GateForAbsent(Registered, Api[k].verb, Api[k].path);
  }

  /** No registration with that verb and path, no gate. */
  lemma GateForAbsent(regs: seq<Registration>, m: HttpMethod, path: string)
    requires forall r :: r in regs ==> r.verb != m || r.route.path != path
    ensures GateFor(regs, m, path).None?
  {
  }

  /**
   * Every entry of the table is guarded by exactly its group's class: the
   * public `auth` entries by no gate, every other entry by a gate that
   * decides as the class's policy does, for every user and time.
   */
  lemma RoutesFollowPolicy(k: nat, user: Option<User>, now: int)
    requires k < |Api|
    ensures GroupClass(Api[k].group) == Public <==> GateFor(Registered, Api[k].verb, Api[k].path).None?
    ensures GateFor(Registered, Api[k].verb, Api[k].path).Some? ==>
      Guard(GateFor(Registered, Api[k].verb, Api[k].path).value, user, now) == Render(Evaluate(user, GroupClass(Api[k].group), now))
  {
    GatesImplementPolicy(user, now);
    if Api[k].group == "auth" {
      AuthRoutesUngated(k);
    } else {
      EveryResourceRouteIsGated();
    }
  }

  /** A user who is not an administrator is refused on both admin routes, however valid the account. */
  lemma AdminRoutesRefuseStandardUsers(u: User, now: int)
    requires !IsAdmin(u)
    ensures GateFor(Registered, GET, ListUsers.path) == Some(AdminGate)
    ensures GateFor(Registered, PATCH, ToggleBlock.path) == Some(AdminGate)
    ensures Guard(AdminGate, Some(u), now) == Forbidden
  {
    RegisteredUnambiguous();
    GateAt(Registered, 7, GET, ListUsers.path);
    GateAt(Registered, 8, PATCH, ToggleBlock.path);
  }

  /** The block toggle is `PATCH /api/admin/users/:id/block`, taking a single required boolean `isBlocked`. */
  lemma ToggleBlockEntry()
    ensures Find(Api, PATCH, "/api/admin/users/:id/block") == Some(ToggleBlock)
    ensures ToggleBlock.input == ObjectInput([Field("isBlocked", BooleanField, true)])
  {
    ApiUnambiguous();
    FindEntry(Api, 12);
  }

  /** Registration takes exactly a username, a password and a full name, each a required string. */
  lemma RegisterInput()
    ensures Resolve(Register.input) == ObjectInput([Field("username", StringField, true),
                                           Field("password", StringField, true),
                                           Field("fullName", StringField, true)])
  {
    InsertUserSchemaFields();
  }
}
