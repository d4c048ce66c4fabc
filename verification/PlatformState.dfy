/**
  The master console's denormalised organisation counters: what each handler does to the four
  collections, and for each handler exactly which calls keep the counters equal to the real counts.
*/
module PlatformState {
  import opened Options
  import opened Filtering

  datatype Organization = Organization(id: string, companyName: string, users: int, fleetSize: int)

  datatype User = User(id: string, name: string, organizationId: string)

  datatype Vehicle = Vehicle(id: string, vehicleName: string, organizationId: string)

  datatype Dimo = Dimo(id: string)

  datatype Platform = Platform(orgs: seq<Organization>, users: seq<User>, vehicles: seq<Vehicle>, dimo: seq<Dimo>)

  datatype Command =
    | AddOrg(org: Organization)
    | UpdateOrg(org: Organization)
    | DeleteOrg(id: string)
    | AddUser(user: User)
    | UpdateUser(user: User)
    | DeleteUser(id: string)
    | RegisterVehicle(vehicle: Vehicle, dimoId: string)

  // ---------------------------------------------------------------- the handlers

  function ReplaceOrg(orgs: seq<Organization>, org: Organization): seq<Organization> {
    seq(|orgs|, i requires 0 <= i < |orgs| => if orgs[i].id == org.id then org else orgs[i])
  }

  function ReplaceUser(users: seq<User>, user: User): seq<User> {
    seq(|users|, i requires 0 <= i < |users| => if users[i].id == user.id then user else users[i])
  }

  function OtherOrg(id: string): Organization -> bool {
    (org: Organization) => org.id != id
  }

  function OtherUser(id: string): User -> bool {
    (user: User) => user.id != id
  }

  function OtherDimo(id: string): Dimo -> bool {
    (vehicle: Dimo) => vehicle.id != id
  }

  function UserOutside(orgId: string): User -> bool {
    (user: User) => user.organizationId != orgId
  }

  function VehicleOutside(orgId: string): Vehicle -> bool {
    (vehicle: Vehicle) => vehicle.organizationId != orgId
  }

  function FindUser(users: seq<User>, id: string): Option<User> {
    if users == [] then None else if users[0].id == id then Some(users[0]) else FindUser(users[1..], id)
  }

  /** Adds to the counters of one organisation; a decrement of `users` stops at 0. */
  function Adjust(orgs: seq<Organization>, orgId: string, users: int, fleet: int): seq<Organization> {
    seq(|orgs|, i requires 0 <= i < |orgs| =>
      if orgs[i].id != orgId then orgs[i]
      else orgs[i].(users := if users < 0 && orgs[i].users + users < 0 then 0 else orgs[i].users + users,
                    fleetSize := orgs[i].fleetSize + fleet))
  }

  function Step(p: Platform, c: Command): Platform {
    match c
    case AddOrg(org) => p.(orgs := [org] + p.orgs)
    case UpdateOrg(org) => p.(orgs := ReplaceOrg(p.orgs, org))
    case DeleteOrg(id) =>
      Platform(Filter(p.orgs, OtherOrg(id)), Filter(p.users, UserOutside(id)),
               Filter(p.vehicles, VehicleOutside(id)), p.dimo)
    case AddUser(user) => p.(users := [user] + p.users, orgs := Adjust(p.orgs, user.organizationId, 1, 0))
    case UpdateUser(user) => p.(users := ReplaceUser(p.users, user))
    case DeleteUser(id) =>
      var user := FindUser(p.users, id);
      p.(users := Filter(p.users, OtherUser(id)),
         orgs := if user.Some? then Adjust(p.orgs, user.value.organizationId, -1, 0) else p.orgs)
    case RegisterVehicle(vehicle, dimoId) =>
      p.(vehicles := [vehicle] + p.vehicles, dimo := Filter(p.dimo, OtherDimo(dimoId)),
         orgs := Adjust(p.orgs, vehicle.organizationId, 0, 1))
  }

  function Run(p: Platform, cs: seq<Command>): Platform
    decreases |cs|
  {
    if cs == [] then p else Run(Step(p, cs[0]), cs[1..])
  }

  /** The component's state; each handler assigns the collections it updates. */
  class PlatformStore {
    var organizations: seq<Organization>
    var users: seq<User>
    var registeredVehicles: seq<Vehicle>
    var dimoVehicles: seq<Dimo>

    ghost function State(): Platform
      reads this
    {
      Platform(organizations, users, registeredVehicles, dimoVehicles)
    }

    method HandleAddOrg(org: Organization)
      modifies this
      ensures State() == Step(old(State()), AddOrg(org))
      ensures old(Consistent(State())) ==> (Consistent(State()) <==> old(Allowed(State(), AddOrg(org))))
    {
      if Consistent(State()) { StepConsistentIff(State(), AddOrg(org)); }
      organizations := [org] + organizations;
    }

    method HandleUpdateOrg(org: Organization)
      modifies this
      ensures State() == Step(old(State()), UpdateOrg(org))
      ensures old(Consistent(State())) ==> (Consistent(State()) <==> old(Allowed(State(), UpdateOrg(org))))
    {
      if Consistent(State()) { StepConsistentIff(State(), UpdateOrg(org)); }
      organizations := ReplaceOrg(organizations, org);
    }

    method HandleDeleteOrg(id: string)
      modifies this
      ensures State() == Step(old(State()), DeleteOrg(id))
      ensures old(Consistent(State())) ==> Consistent(State())
    {
      if Consistent(State()) { StepConsistentIff(State(), DeleteOrg(id)); }
      organizations := Filter(organizations, OtherOrg(id));
      users := Filter(users, UserOutside(id));
      registeredVehicles := Filter(registeredVehicles, VehicleOutside(id));
    }

    method HandleAddUser(user: User)
      modifies this
      ensures State() == Step(old(State()), AddUser(user))
      ensures old(Consistent(State())) ==> (Consistent(State()) <==> old(Allowed(State(), AddUser(user))))
    {
      if Consistent(State()) { StepConsistentIff(State(), AddUser(user)); }
      users := [user] + users;
      organizations := Adjust(organizations, user.organizationId, 1, 0);
    }

    method HandleUpdateUser(user: User)
      modifies this
      ensures State() == Step(old(State()), UpdateUser(user))
      ensures old(Consistent(State())) ==> (Consistent(State()) <==> old(Allowed(State(), UpdateUser(user))))
    {
      if Consistent(State()) { StepConsistentIff(State(), UpdateUser(user)); }
      users := ReplaceUser(users, user);
    }

    method HandleDeleteUser(id: string)
      modifies this
      ensures State() == Step(old(State()), DeleteUser(id))
      ensures old(Consistent(State())) ==> Consistent(State())
    {
      if Consistent(State()) { StepConsistentIff(State(), DeleteUser(id)); }
      var user := FindUser(users, id);
      users := Filter(users, OtherUser(id));
      if user.Some? {
        organizations := Adjust(organizations, user.value.organizationId, -1, 0);
      }
    }

    method HandleRegisterVehicle(vehicle: Vehicle, dimoId: string)
      modifies this
      ensures State() == Step(old(State()), RegisterVehicle(vehicle, dimoId))
      ensures old(Consistent(State())) ==>
        (Consistent(State()) <==> old(Allowed(State(), RegisterVehicle(vehicle, dimoId))))
    {
      if Consistent(State()) { StepConsistentIff(State(), RegisterVehicle(vehicle, dimoId)); }
      registeredVehicles := [vehicle] + registeredVehicles;
      dimoVehicles := Filter(dimoVehicles, OtherDimo(dimoId));
      organizations := Adjust(organizations, vehicle.organizationId, 0, 1);
    }
  }

  // ---------------------------------------------------------------- counters and references

  ghost function UserCount(users: seq<User>, orgId: string): nat {
    if users == [] then 0 else (if users[0].organizationId == orgId then 1 else 0) + UserCount(users[1..], orgId)
  }

  ghost function VehicleCount(vehicles: seq<Vehicle>, orgId: string): nat {
    if vehicles == [] then 0
    else (if vehicles[0].organizationId == orgId then 1 else 0) + VehicleCount(vehicles[1..], orgId)
  }

  ghost predicate HasOrg(orgs: seq<Organization>, id: string) {
    exists i :: 0 <= i < |orgs| && orgs[i].id == id
  }

  ghost predicate HasUser(users: seq<User>, id: string) {
    exists i :: 0 <= i < |users| && users[i].id == id
  }

  ghost predicate HasVehicle(vehicles: seq<Vehicle>, id: string) {
    exists i :: 0 <= i < |vehicles| && vehicles[i].id == id
  }

  ghost predicate UniqueOrgs(orgs: seq<Organization>) {
    forall i, j :: 0 <= i < j < |orgs| ==> orgs[i].id != orgs[j].id
  }

  ghost predicate UniqueUsers(users: seq<User>) {
    forall i, j :: 0 <= i < j < |users| ==> users[i].id != users[j].id
  }

  ghost predicate UniqueVehicles(vehicles: seq<Vehicle>) {
    forall i, j :: 0 <= i < j < |vehicles| ==> vehicles[i].id != vehicles[j].id
  }

  ghost predicate Counted(orgs: seq<Organization>, users: seq<User>, vehicles: seq<Vehicle>) {
    forall i :: 0 <= i < |orgs| ==>
      orgs[i].users == UserCount(users, orgs[i].id) && orgs[i].fleetSize == VehicleCount(vehicles, orgs[i].id)
  }

  ghost predicate Referenced(orgs: seq<Organization>, users: seq<User>, vehicles: seq<Vehicle>) {
    && (forall i :: 0 <= i < |users| ==> HasOrg(orgs, users[i].organizationId))
    && (forall i :: 0 <= i < |vehicles| ==> HasOrg(orgs, vehicles[i].organizationId))
  }

  /** Ids are unique, no reference dangles, and the stored counters are the real counts. */
  ghost predicate Consistent(p: Platform) {
    && UniqueOrgs(p.orgs) && UniqueUsers(p.users) && UniqueVehicles(p.vehicles)
    && Referenced(p.orgs, p.users, p.vehicles)
    && Counted(p.orgs, p.users, p.vehicles)
  }

  /** What a caller must check for a call to keep the platform consistent. */
  ghost predicate Allowed(p: Platform, c: Command) {
    match c
    case AddOrg(org) => !HasOrg(p.orgs, org.id) && org.users == 0 && org.fleetSize == 0
    case UpdateOrg(org) =>
      forall i :: 0 <= i < |p.orgs| && p.orgs[i].id == org.id ==>
        org.users == p.orgs[i].users && org.fleetSize == p.orgs[i].fleetSize
    case AddUser(user) => !HasUser(p.users, user.id) && HasOrg(p.orgs, user.organizationId)
    case UpdateUser(user) =>
      forall i :: 0 <= i < |p.users| && p.users[i].id == user.id ==> user.organizationId == p.users[i].organizationId
    case RegisterVehicle(vehicle, _) => !HasVehicle(p.vehicles, vehicle.id) && HasOrg(p.orgs, vehicle.organizationId)
    case DeleteOrg(_) => true
    case DeleteUser(_) => true
  }

  // ---------------------------------------------------------------- filters and counts

  lemma OtherOrgsKeep(orgs: seq<Organization>, gone: string, id: string)
    requires HasOrg(orgs, id) && id != gone
    ensures HasOrg(Filter(orgs, OtherOrg(gone)), id)
  {
    var i :| 0 <= i < |orgs| && orgs[i].id == id;
    FilterElements(orgs, OtherOrg(gone));
    assert orgs[i] in Filter(orgs, OtherOrg(gone));
  }

  ghost function UserIn(orgId: string): User -> bool {
    (user: User) => user.organizationId == orgId
  }

  ghost function VehicleIn(orgId: string): Vehicle -> bool {
    (vehicle: Vehicle) => vehicle.organizationId == orgId
  }

  lemma {:induction false} UserCountIsFilter(users: seq<User>, orgId: string)
    ensures UserCount(users, orgId) == |Filter(users, UserIn(orgId))|
  {
    if users != [] {
      UserCountIsFilter(users[1..], orgId);
    }
  }

  lemma {:induction false} VehicleCountIsFilter(vehicles: seq<Vehicle>, orgId: string)
    ensures VehicleCount(vehicles, orgId) == |Filter(vehicles, VehicleIn(orgId))|
  {
    if vehicles != [] {
      VehicleCountIsFilter(vehicles[1..], orgId);
    }
  }

  lemma DeletedOrgCounts(p: Platform, gone: string, orgId: string)
    requires orgId != gone
    ensures UserCount(Filter(p.users, UserOutside(gone)), orgId) == UserCount(p.users, orgId)
    ensures VehicleCount(Filter(p.vehicles, VehicleOutside(gone)), orgId) == VehicleCount(p.vehicles, orgId)
  {
    UserCountIsFilter(p.users, orgId);
    UserCountIsFilter(Filter(p.users, UserOutside(gone)), orgId);
    FilterTwice(p.users, UserOutside(gone), UserIn(orgId), UserIn(orgId));
    VehicleCountIsFilter(p.vehicles, orgId);
    VehicleCountIsFilter(Filter(p.vehicles, VehicleOutside(gone)), orgId);
    FilterTwice(p.vehicles, VehicleOutside(gone), VehicleIn(orgId), VehicleIn(orgId));
  }

  /** Replacing user `i` moves one unit of the count from the old organisation to the new one. */
  lemma UserCountOfUpdate(users: seq<User>, i: nat, user: User, orgId: string)
    requires i < |users|
    ensures UserCount(users[i := user], orgId) == UserCount(users, orgId)
      - (if users[i].organizationId == orgId then 1 else 0) + (if user.organizationId == orgId then 1 else 0)
  {
    UserCountIsFilter(users, orgId);
    UserCountIsFilter(users[i := user], orgId);
    FilterSizeOfUpdate(users, i, user, UserIn(orgId));
  }

  lemma StoredElements(p: Platform, id: string)
    requires UniqueOrgs(p.orgs) && UniqueUsers(p.users) && UniqueVehicles(p.vehicles)
    ensures var q := Step(p, DeleteOrg(id));
      && UniqueOrgs(q.orgs) && UniqueUsers(q.users) && UniqueVehicles(q.vehicles)
      && (forall i :: 0 <= i < |q.orgs| ==> q.orgs[i] in p.orgs && q.orgs[i].id != id)
      && (forall i :: 0 <= i < |q.users| ==> q.users[i] in p.users && q.users[i].organizationId != id)
      && (forall i :: 0 <= i < |q.vehicles| ==> q.vehicles[i] in p.vehicles && q.vehicles[i].organizationId != id)
  {
    FilterKeepsPairs(p.orgs, OtherOrg(id), (a: Organization, b: Organization) => a.id != b.id);
    FilterKeepsPairs(p.users, UserOutside(id), (a: User, b: User) => a.id != b.id);
    FilterKeepsPairs(p.vehicles, VehicleOutside(id), (a: Vehicle, b: Vehicle) => a.id != b.id);
    FilterElements(p.orgs, OtherOrg(id));
    FilterElements(p.users, UserOutside(id));
    FilterElements(p.vehicles, VehicleOutside(id));
  }

  lemma {:induction false} FoundUserIsStored(users: seq<User>, id: string)
    requires FindUser(users, id).Some?
    ensures FindUser(users, id).value in users
  {
    if users[0].id != id {
      FoundUserIsStored(users[1..], id);
    }
  }

  lemma {:induction false} OtherUsersCount(users: seq<User>, id: string, orgId: string)
    requires UniqueUsers(users)
    ensures var found := FindUser(users, id);
      UserCount(Filter(users, OtherUser(id)), orgId) ==
        UserCount(users, orgId) - (if found.Some? && found.value.organizationId == orgId then 1 else 0)
  {
    if users != [] {
      if users[0].id == id {
        FilterKeepsAll(users[1..], OtherUser(id));
      } else {
        OtherUsersCount(users[1..], id, orgId);
      }
    }
  }

  lemma UserCountPositive(users: seq<User>, i: nat)
    requires i < |users|
    ensures UserCount(users, users[i].organizationId) > 0
  {
    UserCountIsFilter(users, users[i].organizationId);
    FilterElements(users, UserIn(users[i].organizationId));
    assert users[i] in Filter(users, UserIn(users[i].organizationId));
  }

  lemma ReplaceUserIsUpdate(users: seq<User>, user: User, i: nat)
    requires UniqueUsers(users) && i < |users| && users[i].id == user.id
    ensures ReplaceUser(users, user) == users[i := user]
  {
  }

  // ---------------------------------------------------------------- one handler at a time

  lemma SameOrgIds(a: seq<Organization>, b: seq<Organization>)
    requires |a| == |b| && forall i :: 0 <= i < |a| ==> a[i].id == b[i].id
    ensures UniqueOrgs(a) <==> UniqueOrgs(b)
    ensures forall id :: HasOrg(a, id) <==> HasOrg(b, id)
  {
  }

  lemma AddOrgIff(p: Platform, org: Organization)
    requires Consistent(p)
    ensures Consistent(Step(p, AddOrg(org))) <==> Allowed(p, AddOrg(org))
  {
    var q := Step(p, AddOrg(org));
    assert q.orgs[0] == org && forall i :: 1 <= i < |q.orgs| ==> q.orgs[i] == p.orgs[i - 1];
    if HasOrg(p.orgs, org.id) {
      var i :| 0 <= i < |p.orgs| && p.orgs[i].id == org.id;
      assert q.orgs[0].id == q.orgs[i + 1].id;
    } else {
      NobodyIn(p, org.id);
      MoreOrgsReferenced(org, p);
    }
  }

  lemma NobodyIn(p: Platform, orgId: string)
    requires Referenced(p.orgs, p.users, p.vehicles) && !HasOrg(p.orgs, orgId)
    ensures UserCount(p.users, orgId) == 0 && VehicleCount(p.vehicles, orgId) == 0
  {
    UserCountIsFilter(p.users, orgId);
    FilterDropsAll(p.users, UserIn(orgId));
    VehicleCountIsFilter(p.vehicles, orgId);
    FilterDropsAll(p.vehicles, VehicleIn(orgId));
  }

  lemma MoreOrgsReferenced(org: Organization, p: Platform)
    requires Referenced(p.orgs, p.users, p.vehicles)
    ensures Referenced([org] + p.orgs, p.users, p.vehicles)
  {
    forall id | HasOrg(p.orgs, id) ensures HasOrg([org] + p.orgs, id) {
      var i :| 0 <= i < |p.orgs| && p.orgs[i].id == id;
      assert ([org] + p.orgs)[i + 1].id == id;
    }
  }

  lemma UpdateOrgIff(p: Platform, org: Organization)
    requires Consistent(p)
    ensures Consistent(Step(p, UpdateOrg(org))) <==> Allowed(p, UpdateOrg(org))
  {
    var q := Step(p, UpdateOrg(org));
    SameOrgIds(p.orgs, q.orgs);
    forall i | 0 <= i < |p.orgs| && p.orgs[i].id == org.id
      ensures Counted(q.orgs, q.users, q.vehicles) ==>
        org.users == p.orgs[i].users && org.fleetSize == p.orgs[i].fleetSize
    {
      assert q.orgs[i] == org;
    }
  }

  lemma DeleteOrgConsistent(p: Platform, id: string)
    requires Consistent(p)
    ensures Consistent(Step(p, DeleteOrg(id)))
  {
    var q := Step(p, DeleteOrg(id));
    StoredElements(p, id);
    forall i | 0 <= i < |q.orgs|
      ensures q.orgs[i].users == UserCount(q.users, q.orgs[i].id)
      ensures q.orgs[i].fleetSize == VehicleCount(q.vehicles, q.orgs[i].id)
    {
      DeletedOrgCounts(p, id, q.orgs[i].id);
    }
    forall i | 0 <= i < |q.users| ensures HasOrg(q.orgs, q.users[i].organizationId) {
      assert HasOrg(p.orgs, q.users[i].organizationId);
      OtherOrgsKeep(p.orgs, id, q.users[i].organizationId);
    }
    forall i | 0 <= i < |q.vehicles| ensures HasOrg(q.orgs, q.vehicles[i].organizationId) {
      assert HasOrg(p.orgs, q.vehicles[i].organizationId);
      OtherOrgsKeep(p.orgs, id, q.vehicles[i].organizationId);
    }
  }

  lemma AddUserIff(p: Platform, user: User)
    requires Consistent(p)
    ensures Consistent(Step(p, AddUser(user))) <==> Allowed(p, AddUser(user))
  {
    var q := Step(p, AddUser(user));
    SameOrgIds(p.orgs, q.orgs);
    AddUserCounted(p, user);
    assert q.users[0] == user && forall i :: 1 <= i < |q.users| ==> q.users[i] == p.users[i - 1];
    if HasUser(p.users, user.id) {
      var i :| 0 <= i < |p.users| && p.users[i].id == user.id;
      assert q.users[0].id == q.users[i + 1].id;
    }
  }

  lemma AddUserCounted(p: Platform, user: User)
    requires Counted(p.orgs, p.users, p.vehicles)
    ensures var q := Step(p, AddUser(user)); Counted(q.orgs, q.users, q.vehicles)
  {
    assert ([user] + p.users)[1..] == p.users;
  }

  lemma UpdateUserIff(p: Platform, user: User)
    requires Consistent(p)
    ensures Consistent(Step(p, UpdateUser(user))) <==> Allowed(p, UpdateUser(user))
  {
    if HasUser(p.users, user.id) {
      var i :| 0 <= i < |p.users| && p.users[i].id == user.id;
      UpdateAllowedIff(p, user, i);
      if user.organizationId == p.users[i].organizationId {
        UpdateWithinOrg(p, user, i);
      } else {
        MovingUserBreaksCounts(p, user, i);
      }
    } else {
      UpdateUnknownUser(p, user);
    }
  }

  lemma UpdateAllowedIff(p: Platform, user: User, i: nat)
    requires UniqueUsers(p.users) && i < |p.users| && p.users[i].id == user.id
    ensures Allowed(p, UpdateUser(user)) <==> user.organizationId == p.users[i].organizationId
  {
  }

  lemma UpdateUnknownUser(p: Platform, user: User)
    requires !HasUser(p.users, user.id)
    ensures Step(p, UpdateUser(user)) == p
  {
    assert forall i :: 0 <= i < |p.users| ==> p.users[i].id != user.id;
    assert Step(p, UpdateUser(user)).users == p.users;
  }

  lemma UpdateWithinOrg(p: Platform, user: User, i: nat)
    requires Consistent(p) && i < |p.users| && p.users[i].id == user.id
    requires user.organizationId == p.users[i].organizationId
    ensures Consistent(Step(p, UpdateUser(user)))
  {
    ReplaceUserIsUpdate(p.users, user, i);
    forall k | 0 <= k < |p.orgs|
      ensures UserCount(p.users[i := user], p.orgs[k].id) == UserCount(p.users, p.orgs[k].id)
    {
      UserCountOfUpdate(p.users, i, user, p.orgs[k].id);
    }
  }

  /** Moving a user leaves the old and, if it exists, the new organisation's counter wrong, and no other. */
  lemma MovingUserBreaksCounts(p: Platform, user: User, i: nat)
    requires Consistent(p) && i < |p.users| && p.users[i].id == user.id
    requires user.organizationId != p.users[i].organizationId
    ensures var q := Step(p, UpdateUser(user));
      && |q.orgs| == |p.orgs| && !Counted(q.orgs, q.users, q.vehicles)
      && (forall k :: 0 <= k < |p.orgs| ==>
            (q.orgs[k].users != UserCount(q.users, q.orgs[k].id) <==>
              q.orgs[k].id == p.users[i].organizationId || q.orgs[k].id == user.organizationId))
  {
    ReplaceUserIsUpdate(p.users, user, i);
    forall k | 0 <= k < |p.orgs|
      ensures p.orgs[k].users != UserCount(p.users[i := user], p.orgs[k].id) <==>
        p.orgs[k].id == p.users[i].organizationId || p.orgs[k].id == user.organizationId
    {
      UserCountOfUpdate(p.users, i, user, p.orgs[k].id);
    }
    assert HasOrg(p.orgs, p.users[i].organizationId);
    var j :| 0 <= j < |p.orgs| && p.orgs[j].id == p.users[i].organizationId;
  }

  /** The clamp at 0 never changes the result: a stored user's organisation counts at least one. */
  lemma ClampNeverFires(p: Platform, id: string)
    requires Consistent(p) && FindUser(p.users, id).Some?
    ensures var orgId := FindUser(p.users, id).value.organizationId;
      forall i :: 0 <= i < |p.orgs| && p.orgs[i].id == orgId ==>
        p.orgs[i].users >= 1 && Step(p, DeleteUser(id)).orgs[i].users == p.orgs[i].users - 1
  {
    FoundUserIsStored(p.users, id);
    var j :| 0 <= j < |p.users| && p.users[j] == FindUser(p.users, id).value;
    UserCountPositive(p.users, j);
  }

  lemma DeleteUserCounted(p: Platform, id: string)
    requires Consistent(p)
    ensures var q := Step(p, DeleteUser(id)); Counted(q.orgs, q.users, q.vehicles)
  {
    var q := Step(p, DeleteUser(id));
    if FindUser(p.users, id).Some? {
      ClampNeverFires(p, id);
    }
    forall i | 0 <= i < |p.orgs| ensures q.orgs[i].users == UserCount(q.users, q.orgs[i].id) {
      OtherUsersCount(p.users, id, p.orgs[i].id);
    }
  }

  lemma DeleteUserConsistent(p: Platform, id: string)
    requires Consistent(p)
    ensures Consistent(Step(p, DeleteUser(id)))
  {
    var q := Step(p, DeleteUser(id));
    DeleteUserCounted(p, id);
    SameOrgIds(p.orgs, q.orgs);
    FilterKeepsPairs(p.users, OtherUser(id), (a: User, b: User) => a.id != b.id);
    FilterElements(p.users, OtherUser(id));
  }

  lemma RegisterVehicleIff(p: Platform, vehicle: Vehicle, dimoId: string)
    requires Consistent(p)
    ensures Consistent(Step(p, RegisterVehicle(vehicle, dimoId))) <==> Allowed(p, RegisterVehicle(vehicle, dimoId))
  {
    var q := Step(p, RegisterVehicle(vehicle, dimoId));
    SameOrgIds(p.orgs, q.orgs);
    RegisterVehicleCounted(p, vehicle, dimoId);
    assert q.vehicles[0] == vehicle && forall i :: 1 <= i < |q.vehicles| ==> q.vehicles[i] == p.vehicles[i - 1];
    if HasVehicle(p.vehicles, vehicle.id) {
      var i :| 0 <= i < |p.vehicles| && p.vehicles[i].id == vehicle.id;
      assert q.vehicles[0].id == q.vehicles[i + 1].id;
    }
  }

  lemma RegisterVehicleCounted(p: Platform, vehicle: Vehicle, dimoId: string)
    requires Counted(p.orgs, p.users, p.vehicles)
    ensures var q := Step(p, RegisterVehicle(vehicle, dimoId)); Counted(q.orgs, q.users, q.vehicles)
  {
    assert ([vehicle] + p.vehicles)[1..] == p.vehicles;
  }

  // ---------------------------------------------------------------- what each handler changes

  ghost predicate OrgsChange(before: seq<Organization>, after: seq<Organization>, orgId: string,
                             changed: Organization -> Organization)
  {
    |after| == |before| &&
    forall i :: 0 <= i < |before| ==> after[i] == if before[i].id == orgId then changed(before[i]) else before[i]
  }

  /** The user a deletion finds: the first one with the id. */
  ghost predicate IsFirstUser(users: seq<User>, id: string, i: nat) {
    i < |users| && users[i].id == id && forall j :: 0 <= j < i ==> users[j].id != id
  }

  /** What is added, replaced or removed by the call, and which counters move by how much. */
  ghost predicate Changes(p: Platform, c: Command, q: Platform) {
    match c
    case AddOrg(org) => q == p.(orgs := [org] + p.orgs)
    case UpdateOrg(org) =>
      q == p.(orgs := q.orgs) && OrgsChange(p.orgs, q.orgs, org.id, (o: Organization) => org)
    case DeleteOrg(id) =>
      && q.orgs == Filter(p.orgs, (o: Organization) => o.id != id)
      && q.users == Filter(p.users, (u: User) => u.organizationId != id)
      && q.vehicles == Filter(p.vehicles, (v: Vehicle) => v.organizationId != id)
      && q.dimo == p.dimo
    case AddUser(user) =>
      && q == p.(users := [user] + p.users, orgs := q.orgs)
      && OrgsChange(p.orgs, q.orgs, user.organizationId, (o: Organization) => o.(users := o.users + 1))
    case UpdateUser(user) =>
      && q == p.(users := q.users) && |q.users| == |p.users|
      && (forall i :: 0 <= i < |p.users| ==> q.users[i] == if p.users[i].id == user.id then user else p.users[i])
    case DeleteUser(id) =>
      && q == p.(users := Filter(p.users, (u: User) => u.id != id), orgs := q.orgs)
      && (!HasUser(p.users, id) ==> q == p)
      && (forall i: nat :: IsFirstUser(p.users, id, i) ==>
            OrgsChange(p.orgs, q.orgs, p.users[i].organizationId,
                       (o: Organization) => o.(users := if o.users >= 1 then o.users - 1 else 0)))
    case RegisterVehicle(vehicle, dimoId) =>
      && q.users == p.users && q.vehicles == [vehicle] + p.vehicles
      && q.dimo == Filter(p.dimo, (d: Dimo) => d.id != dimoId)
      && OrgsChange(p.orgs, q.orgs, vehicle.organizationId, (o: Organization) => o.(fleetSize := o.fleetSize + 1))
  }

  lemma {:induction false} FirstUserIsFound(users: seq<User>, id: string, i: nat)
    requires IsFirstUser(users, id, i)
    ensures FindUser(users, id) == Some(users[i])
  {
    if i > 0 {
      FirstUserIsFound(users[1..], id, i - 1);
    }
  }

  lemma {:induction false} NoUserFound(users: seq<User>, id: string)
    requires forall i :: 0 <= i < |users| ==> users[i].id != id
    ensures FindUser(users, id) == None
  {
    if users != [] {
      NoUserFound(users[1..], id);
    }
  }

  lemma DeleteUserChanges(p: Platform, id: string)
    ensures Changes(p, DeleteUser(id), Step(p, DeleteUser(id)))
  {
    FilterAgrees(p.users, OtherUser(id), (u: User) => u.id != id);
    if !HasUser(p.users, id) {
      assert forall i :: 0 <= i < |p.users| ==> p.users[i].id != id;
      NoUserFound(p.users, id);
      FilterKeepsAll(p.users, OtherUser(id));
    }
    forall i: nat | IsFirstUser(p.users, id, i) ensures FindUser(p.users, id) == Some(p.users[i]) {
      FirstUserIsFound(p.users, id, i);
    }
  }

  lemma DeleteOrgChanges(p: Platform, id: string)
    ensures Changes(p, DeleteOrg(id), Step(p, DeleteOrg(id)))
  {
    FilterAgrees(p.orgs, OtherOrg(id), (o: Organization) => o.id != id);
    FilterAgrees(p.users, UserOutside(id), (u: User) => u.organizationId != id);
    FilterAgrees(p.vehicles, VehicleOutside(id), (v: Vehicle) => v.organizationId != id);
  }

  /** Every handler, from any platform, changes exactly what its call says. */
  lemma StepChanges(p: Platform, c: Command)
    ensures Changes(p, c, Step(p, c))
  {
    match c {
      case DeleteOrg(id) => DeleteOrgChanges(p, id);
      case DeleteUser(id) => DeleteUserChanges(p, id);
      case RegisterVehicle(_, dimoId) => FilterAgrees(p.dimo, OtherDimo(dimoId), (d: Dimo) => d.id != dimoId);
      case _ =>
    }
  }

  // ---------------------------------------------------------------- main results

  /**
    From a consistent platform a handler call leads to a consistent platform exactly when the
    call is allowed: new ids are fresh, referenced organisations exist, an organisation update
    keeps its counters, and a user update keeps the user's organisation.
   */
  lemma StepConsistentIff(p: Platform, c: Command)
    requires Consistent(p)
    ensures Consistent(Step(p, c)) <==> Allowed(p, c)
  {
    match c {
      case AddOrg(org) => AddOrgIff(p, org);
      case UpdateOrg(org) => UpdateOrgIff(p, org);
      case DeleteOrg(id) => DeleteOrgConsistent(p, id);
      case AddUser(user) => AddUserIff(p, user);
      case UpdateUser(user) => UpdateUserIff(p, user);
      case DeleteUser(id) => DeleteUserConsistent(p, id);
      case RegisterVehicle(vehicle, dimoId) => RegisterVehicleIff(p, vehicle, dimoId);
    }
  }

  ghost predicate AllAllowed(p: Platform, cs: seq<Command>)
    decreases |cs|
  {
    cs == [] || (Allowed(p, cs[0]) && AllAllowed(Step(p, cs[0]), cs[1..]))
  }

  ghost predicate AlwaysConsistent(p: Platform, cs: seq<Command>)
    decreases |cs|
  {
    Consistent(p) && (cs == [] || AlwaysConsistent(Step(p, cs[0]), cs[1..]))
  }

  /** A run stays consistent after every call exactly when every one of its calls is allowed. */
  lemma {:induction false} RunConsistentIff(p: Platform, cs: seq<Command>)
    requires Consistent(p)
    ensures AlwaysConsistent(p, cs) <==> AllAllowed(p, cs)
    ensures AllAllowed(p, cs) ==> Consistent(Run(p, cs))
    decreases |cs|
  {
    if cs != [] {
      StepConsistentIff(p, cs[0]);
      if Allowed(p, cs[0]) {
        RunConsistentIff(Step(p, cs[0]), cs[1..]);
      }
    }
  }

  // ---------------------------------------------------------------- conservation

  ghost function ThisDimo(id: string): Dimo -> bool {
    (vehicle: Dimo) => vehicle.id == id
  }

  lemma {:induction false} FilterSplitsSize(dimo: seq<Dimo>, id: string)
    ensures |Filter(dimo, OtherDimo(id))| + |Filter(dimo, ThisDimo(id))| == |dimo|
  {
    if dimo != [] {
      FilterSplitsSize(dimo[1..], id);
    }
  }

  /** Registration removes every row with the DIMO id, so it conserves vehicles iff exactly one carries it. */
  lemma RegistrationConservesIff(p: Platform, vehicle: Vehicle, dimoId: string)
    ensures var q := Step(p, RegisterVehicle(vehicle, dimoId));
      |q.vehicles| + |q.dimo| == |p.vehicles| + |p.dimo| <==> |Filter(p.dimo, ThisDimo(dimoId))| == 1
  {
    FilterSplitsSize(p.dimo, dimoId);
  }
}
