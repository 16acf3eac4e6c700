/** Suite Sites from their insert to Dropped, on servers with a number of site slots. Jobs, operators,
    claims and crashes interleave; each action is one committed change. */
module Hosting {
  import opened Wrappers

  // --- state ---------------------------------------------------------------------------------

  const MAX_HOSTNAME_ATTEMPTS: nat := 5

  datatype Status = Pending | Creating | Ready | Assigned | Configuring | Active | Failed | Dropping | Dropped

  type SiteId = nat
  type MachineId = nat

  /** Where a site's job stands while it configures: the secret was pushed and the row is still locked, or
      the checkpoint released the lock and the activation is next. */
  datatype Phase = NoJob | SecretPushed | Activating

  /** A rotation of the tenant's secret keeps the site as it first read it. Its new secret, `issued`, is the
      tenant's once it commits; `reached`: the site has answered that it took it. */
  datatype Rotation = Rotation(sawActive: bool, sawConfigured: bool, issued: nat, reached: bool)

  /** Secrets are numbered as they are minted, the first being 0. `secret` is the tenant's committed one,
      `given` the one the site holds. `retries` are the statuses that retries under way have read and will
      write. */
  datatype Site = Site(region: string, status: Status, machine: Option<MachineId>, attempts: nat, task: bool,
                       created: bool, configured: bool, activated: bool, tenant: Option<string>,
                       phase: Phase, minted: nat, secret: nat, given: Option<nat>, rotation: Option<Rotation>,
                       retries: multiset<Status>)

  /** `takesSites`: enabled, running, set up and without an error. */
  datatype Machine = Machine(region: string, takesSites: bool, slots: int)

  /** The machines in the order of their names. */
  datatype State = State(sites: map<SiteId, Site>, machines: seq<Machine>)

  function On(sites: map<SiteId, Site>, machine: MachineId): set<SiteId> {
    set id | id in sites && sites[id].machine == Some(machine) && sites[id].status != Dropped
  }

  function FreeSlots(s: State, machine: MachineId): int
    requires machine < |s.machines|
  {
    s.machines[machine].slots - |On(s.sites, machine)|
  }

  predicate HasFreeSlot(s: State, region: string, machine: MachineId) {
    machine < |s.machines| && s.machines[machine].region == region && s.machines[machine].takesSites
        && FreeSlots(s, machine) > 0
  }

  // --- placement -----------------------------------------------------------------------------

  /** The first machine with the most free slots, if any has one: a machine of the region that takes sites
      and has more slots than sites that are not dropped. */
  ghost predicate IsPick(s: State, region: string, pick: Option<MachineId>) {
    if pick.None? then forall m: MachineId :: !HasFreeSlot(s, region, m)
    else
      && HasFreeSlot(s, region, pick.value)
      && (forall m: MachineId | HasFreeSlot(s, region, m) :: FreeSlots(s, m) <= FreeSlots(s, pick.value))
      && forall m: MachineId | HasFreeSlot(s, region, m) && m < pick.value :: FreeSlots(s, m) < FreeSlots(s, pick.value)
  }

  /** The sites a server holds. */
  predicate IsHeldBy(site: Site, machine: MachineId) {
    site.machine == Some(machine) && site.status in
      {Pending, Creating, Ready, Assigned, Configuring, Active, Failed, Dropping}
  }

  predicate CanTake(s: State, region: string, m: MachineId) {
    && m < |s.machines| && s.machines[m].region == region && s.machines[m].takesSites
    && |set id | id in s.sites && IsHeldBy(s.sites[id], m)| < s.machines[m].slots
  }

  lemma CanTakeIs(s: State, region: string, m: MachineId)
    ensures CanTake(s, region, m) <==> HasFreeSlot(s, region, m)
    ensures (set id | id in s.sites && IsHeldBy(s.sites[id], m)) == On(s.sites, m)
  {
    assert (set id | id in s.sites && IsHeldBy(s.sites[id], m)) == On(s.sites, m);
  }

  /** A site is placed only on a server of its region that takes sites and has a slot left, and stays without
      one only where there is none. */
  lemma PlacedWhereAllowed(s: State, action: Action)
    requires (action.Insert? || action.Place?) && Enabled(s, action)
    ensures var region := if action.Insert? then action.region else s.sites[action.id].region;
            if action.machine.Some? then CanTake(s, region, action.machine.value)
            else forall m: MachineId :: !CanTake(s, region, m)
  {
    hide CanTake, HasFreeSlot;
    var region := if action.Insert? then action.region else s.sites[action.id].region;
    forall m: MachineId ensures CanTake(s, region, m) <==> HasFreeSlot(s, region, m) {
      CanTakeIs(s, region, m);
    }
  }

  method PickVirtualMachine(s: State, region: string) returns (best: Option<MachineId>)
    ensures IsPick(s, region, best)
    ensures best.None? <==> forall m: MachineId :: !CanTake(s, region, m)
    ensures best.Some? ==> CanTake(s, region, best.value)
  {
    forall m: MachineId ensures CanTake(s, region, m) <==> HasFreeSlot(s, region, m) {
      CanTakeIs(s, region, m);
    }
    hide CanTake;
    best := None;
    var most := 0;
    for m := 0 to |s.machines|
      invariant best.None? ==> most == 0 && forall k: MachineId | k < m :: !HasFreeSlot(s, region, k)
      invariant best.Some? ==>
                  && best.value < m && HasFreeSlot(s, region, best.value) && most == FreeSlots(s, best.value)
                  && (forall k: MachineId | k < m && HasFreeSlot(s, region, k) :: FreeSlots(s, k) <= most)
                  && forall k: MachineId | k < best.value && HasFreeSlot(s, region, k) :: FreeSlots(s, k) < most
    {
      var machine := s.machines[m];
      if machine.region == region && machine.takesSites && FreeSlots(s, m) > most {
        best, most := Some(m), FreeSlots(s, m);
      }
    }
  }

  // --- actions -------------------------------------------------------------------------------

  datatype Action =
    | Insert(id: SiteId, region: string, tenant: Option<string>, machine: Option<MachineId>)
    | Place(id: SiteId, machine: Option<MachineId>)
    | StartTask(id: SiteId)
    | FindCreated(id: SiteId)
    | FinishTask(id: SiteId)
    | FailTask(id: SiteId, taken: bool)
    | BeginConfigure(id: SiteId)
    | PushSecret(id: SiteId)
    | KeepConfigured(id: SiteId)
    | Activate(id: SiteId)
    | FailStep(id: SiteId)
    | KillJob(id: SiteId)
    | Claim(id: SiteId, tenantName: string)
    | RetryRead(id: SiteId)
    | RetryWrite(id: SiteId, resumed: Status)
    | RetryAbort(id: SiteId, resumed: Status)
    | RotateRead(id: SiteId)
    | RotatePush(id: SiteId, arrives: bool, answers: bool)
    | RotateCommit(id: SiteId)
    | RotateAbort(id: SiteId)
    | BeginDrop(id: SiteId)
    | EndDrop(id: SiteId)
    | Delete(id: SiteId)

  predicate Creates(site: Site) {
    site.status == Pending || site.status == Creating
  }

  predicate HasStep(site: Site) {
    Creates(site) || site.status == Assigned || site.status == Configuring || site.status == Active
  }

  ghost predicate Enabled(s: State, action: Action) {
    if action.Insert? then action.id !in s.sites && IsPick(s, action.region, action.machine)
    else (action.id in s.sites && EnabledOn(s, s.sites[action.id], action))
  }

  /** A job's step stands at its site's status; operators and claims look at it too. */
  ghost predicate EnabledOn(s: State, site: Site, action: Action) {
    match action
    case Place(_, machine) => Creates(site) && site.machine.None? && IsPick(s, site.region, machine)
    case StartTask(_) => Creates(site) && site.machine.Some? && !site.task
    case FindCreated(_) => Creates(site) && site.machine.Some? && !site.task
    case FinishTask(_) => Creates(site) && site.task
    case FailTask(_, _) => Creates(site) && site.task
    case BeginConfigure(_) => site.status == Assigned || site.status == Configuring
    case PushSecret(_) => site.status == Configuring && site.phase.NoJob? && !site.configured
    case KeepConfigured(_) => site.phase.SecretPushed?
    case Activate(_) => site.phase.Activating? || (site.status == Configuring && site.phase.NoJob? && site.configured)
    case FailStep(_) => HasStep(site)
    case KillJob(_) => true
    case Claim(_, _) => site.status == Ready && site.tenant.None?
    case RetryRead(_) => site.status == Failed
    // A write to the site waits for the row's lock.
    case RetryWrite(_, resumed) => resumed in site.retries && !site.phase.SecretPushed?
    case RetryAbort(_, resumed) => resumed in site.retries
    case RotateRead(_) => site.tenant.Some? && site.status != Dropped && site.rotation.None?
    case RotatePush(_, arrives, answers) =>
      && site.rotation.Some? && site.rotation.value.sawActive && !site.rotation.value.reached
      && (answers ==> arrives)
    case RotateAbort(_) => site.rotation.Some?
    case RotateCommit(_) => site.rotation.Some? && (WritesSite(site.rotation.value) ==> !site.phase.SecretPushed?)
    case BeginDrop(_) => site.status != Dropped && site.phase.NoJob?
    case EndDrop(_) => site.status == Dropping
    case Delete(_) => (!site.created && !site.task) || site.status == Dropped
    case Insert(_, _, _, _) => true
  }

  /** The rotation marks the site it read for another configuration. */
  predicate WritesSite(rotation: Rotation) {
    !rotation.reached && rotation.sawConfigured
  }

  function MarkCreated(site: Site): Site {
    site.(created := true, task := false, status := if site.tenant.Some? then Assigned else Ready)
  }

  function RerollOrFail(site: Site, taken: bool): Site {
    if !taken || site.attempts + 1 >= MAX_HOSTNAME_ATTEMPTS then site.(status := Failed)
    else site.(attempts := site.attempts + 1, task := false, status := Pending)
  }

  function ResumeStatus(site: Site): Status {
    if !site.created then Pending
    else if site.tenant.None? then Ready
    else if site.configured then Active
    else Assigned
  }

  function BeginRotation(site: Site): Site {
    site.(minted := site.minted + 1,
          rotation := Some(Rotation(site.status == Active, site.configured, site.minted + 1, false)))
  }

  /** The new secret is committed, and the site's fields are written as they were read. */
  function Rotated(site: Site, rotation: Rotation): Site {
    var after := site.(secret := rotation.issued, rotation := None);
    if !WritesSite(rotation) then after
    else after.(configured := false, status := if rotation.sawActive then Assigned else site.status)
  }

  function NextSite(site: Site, action: Action): Site {
    match action
    case Place(_, machine) => site.(machine := machine)
    case StartTask(_) => site.(task := true, status := Creating)
    case FindCreated(_) => MarkCreated(site)
    case FinishTask(_) => MarkCreated(site)
    case FailTask(_, taken) => RerollOrFail(site, taken)
    case BeginConfigure(_) => site.(status := Configuring)
    case PushSecret(_) => site.(phase := SecretPushed, given := Some(site.secret))
    case KeepConfigured(_) => site.(configured := true, phase := Activating)
    case Activate(_) => site.(status := Active, activated := true, phase := NoJob)
    case FailStep(_) => site.(status := Failed, phase := NoJob)
    case KillJob(_) => site.(phase := NoJob)
    case Claim(_, tenantName) => site.(tenant := Some(tenantName), status := Assigned)
    case RetryRead(_) => site.(retries := site.retries + multiset{ResumeStatus(site)})
    case RetryWrite(_, resumed) =>
      site.(retries := site.retries - multiset{resumed}, status := resumed, task := false)
    case RetryAbort(_, resumed) => site.(retries := site.retries - multiset{resumed})
    case RotateRead(_) => BeginRotation(site)
    case RotatePush(_, arrives, answers) =>
      if arrives && site.rotation.Some?
      then site.(given := Some(site.rotation.value.issued), rotation := Some(site.rotation.value.(reached := answers)))
      else site
    case RotateAbort(_) => site.(rotation := None)
    case RotateCommit(_) => if site.rotation.Some? then Rotated(site, site.rotation.value) else site
    case BeginDrop(_) => site.(status := Dropping)
    case EndDrop(_) => site.(status := Dropped)
    case _ => site
  }

  function NewSite(region: string, machine: Option<MachineId>, tenant: Option<string>): Site {
    Site(region, Pending, machine, 0, false, false, false, false, tenant, NoJob, 0, 0, None, None, multiset{})
  }

  ghost function Next(s: State, action: Action): State
    requires Enabled(s, action)
  {
    match action
    case Insert(id, region, tenant, machine) =>
      s.(sites := s.sites[id := NewSite(region, machine, tenant)])
    case Delete(id) => s.(sites := s.sites - {id})
    case _ => s.(sites := s.sites[action.id := NextSite(s.sites[action.id], action)])
  }

  type Run = seq<Action>

  ghost predicate IsRun(s: State, run: Run)
    decreases |run|
  {
    run == [] || (Enabled(s, run[0]) && IsRun(Next(s, run[0]), run[1..]))
  }

  ghost function After(s: State, run: Run): State
    requires IsRun(s, run)
    decreases |run|
  {
    if run == [] then s else After(Next(s, run[0]), run[1..])
  }

  predicate Initial(s: State) {
    s.sites == map[] && forall m | 0 <= m < |s.machines| :: s.machines[m].slots >= 0
  }

  // --- what a status means ---------------------------------------------------------------------

  predicate StatusMeans(site: Site) {
    && (Creates(site) ==> !site.created)
    && (site.status == Ready ==> site.created && site.tenant.None?)
    && (site.status == Assigned || site.status == Configuring || site.status == Active ==>
          site.created && site.tenant.Some?)
    && (site.status == Active ==> site.configured)
  }

  /** The site counts as holding a secret: it is configured, or its job has just pushed one. */
  predicate Configures(site: Site) {
    site.configured || site.phase.SecretPushed?
  }

  /** Such a site holds the tenant's current secret, or the one of a rotation under way. */
  predicate SecretOk(site: Site) {
    && (Configures(site) ==>
          || site.given == Some(site.secret)
          || (site.rotation.Some? && site.given == Some(site.rotation.value.issued)))
    && site.secret <= site.minted
    && (site.given.Some? ==> site.given.value <= site.minted)
    && (site.rotation.Some? ==> RotationOk(site, site.rotation.value))
  }

  /** The rotation's secret is newer than the tenant's, and only a site it read as active can hold it. */
  predicate RotationOk(site: Site, rotation: Rotation) {
    && site.secret < rotation.issued <= site.minted
    && (!rotation.sawActive ==> !rotation.reached && site.given != Some(rotation.issued))
  }

  /** A site that was active and has not been marked for another configuration. */
  predicate SinceActive(site: Site) {
    && site.configured
    && (site.status == Active || site.status == Failed || site.status == Dropping || site.status == Dropped)
  }

  predicate SiteOk(site: Site) {
    && StatusMeans(site)
    && SecretOk(site)
    && (site.created || site.task ==> site.machine.Some?)
    && (site.configured ==> site.created && site.tenant.Some?)
    && (site.phase.SecretPushed? ==> site.status == Configuring)
    && (site.phase.Activating? ==> site.status == Configuring && site.configured)
    && (site.rotation.Some? ==> site.tenant.Some?)
    && (site.rotation.Some? && site.rotation.value.sawActive ==> SinceActive(site) && site.rotation.value.sawConfigured)
    && site.attempts < MAX_HOSTNAME_ATTEMPTS
    && Dropped !in site.retries
  }

  predicate SlotsHold(s: State) {
    forall m | 0 <= m < |s.machines| :: |On(s.sites, m)| <= s.machines[m].slots
  }

  predicate MachinesExist(s: State) {
    forall id | id in s.sites && s.sites[id].machine.Some? :: s.sites[id].machine.value < |s.machines|
  }

  predicate Inv(s: State) {
    (forall id | id in s.sites :: SiteOk(s.sites[id])) && SlotsHold(s) && MachinesExist(s)
  }

  // --- stale writes -------------------------------------------------------------------------------

  /** What the rotation pushed or read still holds when it commits: a secret the site took was not pushed
      over by the job, a site it marks is not about to be active, and one it leaves alone has not been
      configured since. */
  predicate CommitsClean(site: Site)
    requires site.rotation.Some?
  {
    var rotation := site.rotation.value;
    if rotation.reached then Configures(site) ==> site.given == Some(rotation.issued)
    else if rotation.sawConfigured then !site.phase.Activating? && (site.status == Active ==> rotation.sawActive)
    else !Configures(site)
  }

  /** What the rotation leaves when it dies: its secret is never the tenant's, so it must not be the site's. */
  predicate AbortsClean(site: Site) {
    Configures(site) ==> site.given == Some(site.secret)
  }

  predicate EndsRotation(action: Action) {
    action.RotateCommit? || action.RotateAbort?
  }

  predicate EndsClean(site: Site, action: Action)
    requires site.rotation.Some?
  {
    if action.RotateCommit? then CommitsClean(site) else AbortsClean(site)
  }

  /** The commit takes a dropped site for the active one it read. */
  predicate Revives(site: Site)
    requires site.rotation.Some?
  {
    site.status == Dropped && WritesSite(site.rotation.value) && site.rotation.value.sawActive
  }

  /** The retry writes to the site it read. */
  predicate ResumesClean(site: Site, resumed: Status) {
    site.status == Failed && resumed == ResumeStatus(site)
  }

  predicate CollidesOn(site: Site, action: Action) {
    match action
    case RotateCommit(_) => site.rotation.Some? && (!CommitsClean(site) || Revives(site))
    case RotateAbort(_) => !AbortsClean(site)
    case RetryWrite(_, resumed) => !ResumesClean(site, resumed)
    case _ => false
  }

  predicate Collides(s: State, action: Action) {
    action.id in s.sites && CollidesOn(s.sites[action.id], action)
  }

  predicate OfRotation(action: Action) {
    action.RotateRead? || action.RotatePush? || action.RotateCommit? || action.RotateAbort?
  }

  predicate OfRetry(action: Action) {
    action.RetryRead? || action.RetryWrite? || action.RetryAbort?
  }

  lemma RotationOkNext(s: State, site: Site, action: Action)
    requires OfRotation(action) && EnabledOn(s, site, action) && !CollidesOn(site, action) && SiteOk(site)
    ensures SiteOk(NextSite(site, action))
  {
    hide IsPick;
  }

  lemma RetryOkNext(s: State, site: Site, action: Action)
    requires OfRetry(action) && EnabledOn(s, site, action) && !CollidesOn(site, action) && SiteOk(site)
    ensures SiteOk(NextSite(site, action))
  {
    hide IsPick, Rotated, BeginRotation;
  }

  lemma JobOkNext(s: State, site: Site, action: Action)
    requires !OfRotation(action) && !OfRetry(action) && !action.Insert? && !action.Delete?
    requires EnabledOn(s, site, action) && SiteOk(site)
    ensures SiteOk(NextSite(site, action))
  {
    hide IsPick, Rotated, BeginRotation, ResumeStatus, CollidesOn;
  }

  lemma NextSiteOk(s: State, action: Action)
    requires !action.Insert? && !action.Delete? && Enabled(s, action) && !Collides(s, action)
        && SiteOk(s.sites[action.id])
    ensures SiteOk(NextSite(s.sites[action.id], action))
  {
    hide IsPick, SiteOk, NextSite, EnabledOn, CollidesOn;
    if OfRotation(action) {
      RotationOkNext(s, s.sites[action.id], action);
    } else if OfRetry(action) {
      RetryOkNext(s, s.sites[action.id], action);
    } else {
      JobOkNext(s, s.sites[action.id], action);
    }
  }

  // --- slots -----------------------------------------------------------------------------------

  lemma {:induction false} SubsetSize<T>(a: set<T>, b: set<T>)
    requires a <= b
    ensures |a| <= |b|
    decreases |a|
  {
    if a != {} {
      var x :| x in a;
      SubsetSize(a - {x}, b - {x});
    }
  }

  predicate Occupies(site: Site, machine: MachineId) {
    site.machine == Some(machine) && site.status != Dropped
  }

  lemma StaysOff(s: State, action: Action, machine: MachineId)
    requires !action.Insert? && !action.Delete? && Enabled(s, action) && !Collides(s, action)
        && SiteOk(s.sites[action.id])
    requires !(action.Place? && action.machine == Some(machine))
    ensures Occupies(NextSite(s.sites[action.id], action), machine) ==> Occupies(s.sites[action.id], machine)
  {
    hide IsPick;
  }

  /** Only a placement puts a site on a machine, and then one more. */
  lemma OnAfter(s: State, action: Action, machine: MachineId)
    requires Enabled(s, action) && !Collides(s, action) && forall id | id in s.sites :: SiteOk(s.sites[id])
    ensures On(Next(s, action).sites, machine) <=
            On(s.sites, machine)
            + (if (action.Insert? || action.Place?) && action.machine == Some(machine) then {action.id} else {})
  {
    hide IsPick, NextSite, SiteOk, EnabledOn, Collides;
    if !action.Insert? && !action.Delete? && !(action.Place? && action.machine == Some(machine)) {
      StaysOff(s, action, machine);
    }
  }

  lemma PickHasSlot(s: State, region: string, machine: MachineId)
    requires IsPick(s, region, Some(machine))
    ensures HasFreeSlot(s, region, machine)
  {
  }

  lemma NextKeepsSlots(s: State, action: Action)
    requires Inv(s) && Enabled(s, action) && !Collides(s, action)
    ensures SlotsHold(Next(s, action))
  {
    hide SiteOk, NextSite, IsPick;
    var t := Next(s, action);
    forall m | 0 <= m < |t.machines| ensures |On(t.sites, m)| <= t.machines[m].slots {
      OnAfter(s, action, m);
      if (action.Insert? || action.Place?) && action.machine == Some(m) {
        PickHasSlot(s, if action.Insert? then action.region else s.sites[action.id].region, m);
        assert HasFreeSlot(s, if action.Insert? then action.region else s.sites[action.id].region, m);
        SubsetSize(On(t.sites, m), On(s.sites, m) + {action.id});
      } else {
        SubsetSize(On(t.sites, m), On(s.sites, m));
      }
    }
  }

  lemma NextKeepsInv(s: State, action: Action)
    requires Inv(s) && Enabled(s, action) && !Collides(s, action)
    ensures Inv(Next(s, action))
  {
    hide SiteOk, SlotsHold, NextSite;
    var t := Next(s, action);
    NextKeepsSlots(s, action);
    forall id | id in t.sites ensures SiteOk(t.sites[id]) {
      if id == action.id {
        if action.Insert? {
          NewSiteOk(action.region, action.machine, action.tenant);
        } else {
          NextSiteOk(s, action);
        }
      }
    }
    forall id | id in t.sites && t.sites[id].machine.Some? ensures t.sites[id].machine.value < |t.machines| {
      if id == action.id && !action.Insert? {
        OnlyPlaceMoves(s.sites[id], action);
      }
    }
  }

  lemma OnlyPlaceMoves(site: Site, action: Action)
    ensures NextSite(site, action).machine == if action.Place? then action.machine else site.machine
  {
  }

  lemma NewSiteOk(region: string, machine: Option<MachineId>, tenant: Option<string>)
    ensures SiteOk(NewSite(region, machine, tenant))
  {
  }

  ghost predicate NoCollision(s: State, run: Run)
    requires IsRun(s, run)
    decreases |run|
  {
    run == [] || (!Collides(s, run[0]) && NoCollision(Next(s, run[0]), run[1..]))
  }

  lemma {:induction false} RunKeepsInv(s: State, run: Run)
    requires Inv(s) && IsRun(s, run) && NoCollision(s, run)
    ensures Inv(After(s, run))
    decreases |run|
  {
    hide Inv, Enabled, Next, Collides;
    if run != [] {
      NextKeepsInv(s, run[0]);
      RunKeepsInv(Next(s, run[0]), run[1..]);
    }
  }

  /** Over every run whose rotations and retries end on what they read or left: each status means what it
      says, no server holds more sites than its slots, and an active site at rest holds its tenant's current
      secret. */
  lemma LifecycleHolds(s: State, run: Run)
    requires Initial(s) && IsRun(s, run) && NoCollision(s, run)
    ensures var t := After(s, run);
            && (forall id | id in t.sites :: StatusMeans(t.sites[id]) && !IsStale(t.sites[id]))
            && forall m | 0 <= m < |t.machines| :: |On(t.sites, m)| <= t.machines[m].slots
  {
    forall m | 0 <= m < |s.machines| ensures |On(s.sites, m)| <= s.machines[m].slots {
      assert On(s.sites, m) == {};
    }
    RunKeepsInv(s, run);
  }

  /** Active, with no job or rotation under way, and not configured with the current secret. */
  predicate IsStale(site: Site) {
    && site.status == Active && site.phase.NoJob? && site.rotation.None?
    && !(site.configured && site.given == Some(site.secret))
  }

  ghost predicate CanGoStale(s: State, id: SiteId) {
    exists run: Run :: IsRun(s, run) && NoCollision(s, run) && id in After(s, run).sites
        && IsStale(After(s, run).sites[id])
  }

  /** A rotation that commits or dies on a site that is not being dropped can end in an active site without
      the current secret, with no other write at fault, if and only if the site is no longer as the rotation
      read or left it when it commits, or holds the new secret when it dies. */
  lemma RotationGoesStaleExactly(s: State, end: Action)
    requires EndsRotation(end) && Inv(s) && Enabled(s, end)
    requires s.sites[end.id].status != Dropping && s.sites[end.id].status != Dropped
    ensures CanGoStale(Next(s, end), end.id) <==> !EndsClean(s.sites[end.id], end)
  {
    hide IsPick, NextSite, CommitsClean, AbortsClean, SiteOk;
    var t := Next(s, end);
    if EndsClean(s.sites[end.id], end) {
      assert !Collides(s, end);
      NextKeepsInv(s, end);
      forall run: Run | IsRun(t, run) && NoCollision(t, run) && end.id in After(t, run).sites
        ensures !IsStale(After(t, run).sites[end.id])
      {
        RunKeepsInv(t, run);
        OkIsNotStale(After(t, run).sites[end.id]);
      }
    } else {
      var run := UncleanGoesStale(s, end);
    }
  }

  lemma OkIsNotStale(site: Site)
    requires SiteOk(site)
    ensures !IsStale(site)
  {
  }

  lemma Before(s: State, action: Action, t: State, run: Run) returns (longer: Run)
    requires Enabled(s, action) && Next(s, action) == t && IsRun(t, run) && NoCollision(t, run) && !Collides(s, action)
    ensures IsRun(s, longer) && NoCollision(s, longer) && After(s, longer) == After(t, run)
    ensures longer == [action] + run
  {
    longer := [action] + run;
  }

  /** A site one or two steps from being stale. */
  predicate GoesStale(site: Site) {
    && site.rotation.None?
    && match site.status
       case Active => IsStale(site)
       case Failed => site.created && site.tenant.Some? && site.configured && site.phase.NoJob?
           && site.given != Some(site.secret)
       case Configuring =>
         if site.phase.SecretPushed? then site.given != Some(site.secret)
         else (site.phase.Activating? || site.configured) && !(site.configured && site.given == Some(site.secret))
       case Assigned => site.phase.NoJob? && site.configured && site.given != Some(site.secret)
       case _ => false
  }

  lemma UncleanSite(site: Site, end: Action)
    requires EndsRotation(end) && SiteOk(site) && site.rotation.Some? && !EndsClean(site, end)
    requires end.RotateCommit? && WritesSite(site.rotation.value) ==> !site.phase.SecretPushed?
    requires site.status != Dropping && site.status != Dropped
    ensures GoesStale(NextSite(site, end))
  {
  }

  /** The job's own steps, or the operator's retry, to the active site. */
  lemma UncleanGoesStale(s: State, end: Action) returns (run: Run)
    requires EndsRotation(end) && Inv(s) && Enabled(s, end) && !EndsClean(s.sites[end.id], end)
    requires s.sites[end.id].status != Dropping && s.sites[end.id].status != Dropped
    ensures var t := Next(s, end);
            && IsRun(t, run) && NoCollision(t, run)
            && end.id in After(t, run).sites && IsStale(After(t, run).sites[end.id])
  {
    hide EndsClean, SiteOk, GoesStale, IsStale, SlotsHold, MachinesExist;
    UncleanSite(s.sites[end.id], end);
    run := FollowStale(Next(s, end), end.id);
  }

  lemma FollowStale(t: State, id: SiteId) returns (run: Run)
    requires id in t.sites && GoesStale(t.sites[id])
    decreases if t.sites[id].status == Assigned then 2 else if t.sites[id].phase.SecretPushed? then 1 else 0
    ensures IsRun(t, run) && NoCollision(t, run) && id in After(t, run).sites && IsStale(After(t, run).sites[id])
  {
    hide IsPick;
    var site := t.sites[id];
    if site.status == Active {
      run := [];
    } else if site.status == Failed {
      var read := Next(t, RetryRead(id));
      var write := RetryWrite(id, ResumeStatus(site));
      run := Before(read, write, Next(read, write), []);
      run := Before(t, RetryRead(id), read, run);
    } else if site.phase.SecretPushed? {
      var kept := Next(t, KeepConfigured(id));
      run := FollowStale(kept, id);
      run := Before(t, KeepConfigured(id), kept, run);
    } else if site.status == Configuring {
      run := Before(t, Activate(id), Next(t, Activate(id)), []);
    } else {
      var begun := Next(t, BeginConfigure(id));
      run := FollowStale(begun, id);
      run := Before(t, BeginConfigure(id), begun, run);
    }
  }

  /** A site becomes active without its activation time if and only if it is resumed after its job
      failed between the two. */
  lemma ActiveWithoutActivation(s: State, action: Action, id: SiteId)
    requires Inv(s) && Enabled(s, action) && id in s.sites && id in Next(s, action).sites
    requires s.sites[id].status != Active && Next(s, action).sites[id].status == Active
    ensures !Next(s, action).sites[id].activated <==>
            action == RetryWrite(id, Active) && !s.sites[id].activated
  {
    hide IsPick, NextSite, EnabledOn, SiteOk, SlotsHold, MachinesExist;
    assert SiteOk(s.sites[id]);
    SiteActivates(s, s.sites[id], action);
  }

  lemma SiteActivates(s: State, site: Site, action: Action)
    requires SiteOk(site) && EnabledOn(s, site, action)
    requires site.status != Active && NextSite(site, action).status == Active
    ensures !NextSite(site, action).activated <==> action == RetryWrite(action.id, Active) && !site.activated
  {
    hide IsPick, SecretOk;
  }

  /** Dropped is final, without a rotation or a retry that read the site before: such a site is never
      changed again, only deleted. */
  lemma {:induction false} DroppedIsFinal(s: State, run: Run, id: SiteId)
    requires IsRun(s, run) && id in s.sites && s.sites[id].status == Dropped
    requires s.sites[id].phase.NoJob? && s.sites[id].rotation.None? && s.sites[id].retries == multiset{}
    requires forall i | 0 <= i < |run| :: run[i] != Delete(id)
    ensures id in After(s, run).sites && After(s, run).sites[id] == s.sites[id]
    decreases |run|
  {
    hide Enabled, Next;
    if run != [] {
      assert run[0] != Delete(id);
      assert forall i | 0 <= i < |run[1..]| :: run[1..][i] == run[i + 1];
      DroppedStays(s, run[0], id);
      DroppedIsFinal(Next(s, run[0]), run[1..], id);
    }
  }

  lemma DroppedStays(s: State, action: Action, id: SiteId)
    requires Enabled(s, action) && id in s.sites && s.sites[id].status == Dropped && action != Delete(id)
    requires s.sites[id].phase.NoJob? && s.sites[id].rotation.None? && s.sites[id].retries == multiset{}
    ensures id in Next(s, action).sites && Next(s, action).sites[id] == s.sites[id]
  {
    hide IsPick;
  }

  /** A dropped site leaves that status if and only if a rotation that read it as active, and could not
      reach it, commits, or a retry that read it as failed writes. */
  lemma DroppedComesBackExactly(s: State, action: Action, id: SiteId)
    requires Inv(s) && Enabled(s, action) && id in s.sites && s.sites[id].status == Dropped && action != Delete(id)
    ensures id in Next(s, action).sites
    ensures Next(s, action).sites[id].status != Dropped <==>
              action.id == id && (action.RetryWrite? || (action.RotateCommit? && Revives(s.sites[id])))
  {
    hide IsPick, NextSite, EnabledOn;
    if action.id == id {
      DroppedSite(s, s.sites[id], action);
    }
  }

  lemma DroppedSite(s: State, site: Site, action: Action)
    requires SiteOk(site) && EnabledOn(s, site, action) && !action.Insert? && site.status == Dropped
    ensures NextSite(site, action).status != Dropped <==>
              action.RetryWrite? || (action.RotateCommit? && Revives(site))
  {
    hide IsPick, SecretOk, StatusMeans;
  }

  // --- runs that go wrong ------------------------------------------------------------------------

  const EMPTY: State := State(map[], [Machine("r", true, 1)])
  const PENDING: Site := NewSite("r", Some(0), Some("t"))
  const CREATING: Site := PENDING.(task := true, status := Creating)
  const ASSIGNED: Site := PENDING.(created := true, status := Assigned)
  const READY_TO_PUSH: Site := ASSIGNED.(status := Configuring)
  function With(site: Site): State {
    EMPTY.(sites := map[0 := site])
  }

  lemma FirstPick()
    ensures IsPick(EMPTY, "r", Some(0))
  {
    assert On(EMPTY.sites, 0) == {};
    assert forall m: MachineId | HasFreeSlot(EMPTY, "r", m) :: m == 0;
  }

  lemma ToConfiguring(rest: Run) returns (run: Run)
    requires IsRun(With(READY_TO_PUSH), rest) && NoCollision(With(READY_TO_PUSH), rest)
    ensures Initial(EMPTY) && IsRun(EMPTY, run) && NoCollision(EMPTY, run)
    ensures After(EMPTY, run) == After(With(READY_TO_PUSH), rest)
  {
    FirstPick();
    run := Before(With(ASSIGNED), BeginConfigure(0), With(READY_TO_PUSH), rest);
    run := Before(With(CREATING), FinishTask(0), With(ASSIGNED), run);
    run := Before(With(PENDING), StartTask(0), With(CREATING), run);
    run := Before(EMPTY, Insert(0, "r", Some("t"), Some(0)), With(PENDING), run);
  }

  /** One more step in front of a run on the site. */
  lemma StepTo(site: Site, action: Action, next: Site, rest: Run) returns (run: Run)
    requires action.id == 0 && !action.Insert? && !action.Delete? && !action.Place?
    requires EnabledOn(EMPTY, site, action) && !CollidesOn(site, action) && NextSite(site, action) == next
    requires IsRun(With(next), rest) && NoCollision(With(next), rest)
    ensures IsRun(With(site), run) && NoCollision(With(site), run) && After(With(site), run) == After(With(next), rest)
  {
    hide IsPick, NextSite, CollidesOn;
    assert map[0 := site][0 := next] == map[0 := next];
    run := Before(With(site), action, With(next), rest);
  }

  lemma NoSteps()
    ensures forall s: State :: IsRun(s, []) && NoCollision(s, []) && After(s, []) == s
  {
  }

  function Kept(site: Site): Site {
    site.(given := Some(site.secret), phase := Activating, configured := true)
  }

  function Activated(site: Site): Site {
    Kept(site).(status := Active, activated := true, phase := NoJob)
  }

  /** The job's own steps up to its checkpoint. */
  lemma StepsToKept(site: Site, rest: Run) returns (run: Run)
    requires site.status == Configuring && site.phase.NoJob? && !site.configured
    requires IsRun(With(Kept(site)), rest) && NoCollision(With(Kept(site)), rest)
    ensures IsRun(With(site), run) && NoCollision(With(site), run)
    ensures After(With(site), run) == After(With(Kept(site)), rest)
  {
    hide IsPick, Initial, IsRun, After, NoCollision;
    NoSteps();
    var pushed := site.(given := Some(site.secret), phase := SecretPushed);
    run := StepTo(pushed, KeepConfigured(0), Kept(site), rest);
    run := StepTo(site, PushSecret(0), pushed, run);
  }

  lemma StepsToActive(site: Site, rest: Run) returns (run: Run)
    requires site.status == Configuring && site.phase.NoJob? && !site.configured
    requires IsRun(With(Activated(site)), rest) && NoCollision(With(Activated(site)), rest)
    ensures IsRun(With(site), run) && NoCollision(With(site), run)
    ensures After(With(site), run) == After(With(Activated(site)), rest)
  {
    hide IsPick, Initial, IsRun, After, NoCollision;
    NoSteps();
    run := StepTo(Kept(site), Activate(0), Activated(site), rest);
    run := StepsToKept(site, run);
  }

  lemma StepsToDropped(site: Site) returns (run: Run)
    requires site.status != Dropped && site.phase.NoJob?
    ensures IsRun(With(site), run) && NoCollision(With(site), run)
    ensures After(With(site), run) == With(site.(status := Dropped))
  {
    hide IsPick, Initial, IsRun, After, NoCollision;
    NoSteps();
    run := StepTo(site.(status := Dropping), EndDrop(0), site.(status := Dropped), []);
    run := StepTo(site, BeginDrop(0), site.(status := Dropping), run);
  }

  /** The activation fails after the checkpoint, and a retry makes the site active without its time. */
  lemma FailedActivationResumes() returns (run: Run)
    ensures Initial(EMPTY) && IsRun(EMPTY, run) && NoCollision(EMPTY, run)
    ensures var t := After(EMPTY, run);
            0 in t.sites && t.sites[0].status == Active && !t.sites[0].activated
  {
    hide IsPick, Initial, IsRun, After, NoCollision;
    NoSteps();
    var kept := Kept(READY_TO_PUSH);
    var failed := kept.(status := Failed, phase := NoJob);
    var read := failed.(retries := multiset{Active});
    assert multiset{} + multiset{Active} == multiset{Active} && multiset{Active} - multiset{Active} == multiset{};
    run := StepTo(read, RetryWrite(0, Active), failed.(status := Active), []);
    run := StepTo(failed, RetryRead(0), read, run);
    run := StepTo(kept, FailStep(0), failed, run);
    run := StepsToKept(READY_TO_PUSH, run);
    run := ToConfiguring(run);
  }

  /** A rotation reads the site before its job pushes the secret, and commits after the activation: the
      site is active and configured, with the old secret. */
  lemma RotationReadTooEarly() returns (run: Run)
    ensures Initial(EMPTY) && IsRun(EMPTY, run)
    ensures var t := After(EMPTY, run); 0 in t.sites && t.sites[0].configured && IsStale(t.sites[0])
  {
    hide IsPick, Initial, IsRun, After, NoCollision;
    NoSteps();
    var read := READY_TO_PUSH.(minted := 1, rotation := Some(Rotation(false, false, 1, false)));
    run := StepsToActive(read, []);
    run := StepTo(READY_TO_PUSH, RotateRead(0), read, run);
    run := ToConfiguring(run);
    run := EndWith(run, Activated(read), RotateCommit(0), Activated(read).(secret := 1, rotation := None));
  }

  /** An active site, as a rotation has read it. */
  const READ_ACTIVE: Site :=
    Activated(READY_TO_PUSH).(minted := 1, rotation := Some(Rotation(true, true, 1, false)))

  lemma ToReadActive(rest: Run) returns (run: Run)
    requires IsRun(With(READ_ACTIVE), rest) && NoCollision(With(READ_ACTIVE), rest)
    ensures Initial(EMPTY) && IsRun(EMPTY, run) && NoCollision(EMPTY, run)
    ensures After(EMPTY, run) == After(With(READ_ACTIVE), rest)
  {
    hide IsPick, Initial, IsRun, After, NoCollision;
    NoSteps();
    run := StepTo(Activated(READY_TO_PUSH), RotateRead(0), READ_ACTIVE, rest);
    run := StepsToActive(READY_TO_PUSH, run);
    run := ToConfiguring(run);
  }

  /** A rotation pushes its secret to an active site and dies before it commits: the tenant keeps the old
      secret, the site holds the new one. */
  lemma RotationDiesAfterPush() returns (run: Run)
    ensures Initial(EMPTY) && IsRun(EMPTY, run)
    ensures var t := After(EMPTY, run); 0 in t.sites && t.sites[0].configured && IsStale(t.sites[0])
  {
    hide IsPick, Initial, IsRun, After, NoCollision;
    NoSteps();
    var pushed := READ_ACTIVE.(given := Some(1), rotation := Some(Rotation(true, true, 1, true)));
    run := StepTo(READ_ACTIVE, RotatePush(0, true, true), pushed, []);
    run := ToReadActive(run);
    run := EndWith(run, pushed, RotateAbort(0), pushed.(rotation := None));
  }

  /** A rotation reads an active site, which is dropped before the rotation commits: the site is set up
      again although it is gone. */
  lemma RotationRevives() returns (run: Run)
    ensures Initial(EMPTY) && IsRun(EMPTY, run) && IsRun(EMPTY, run + [RotateCommit(0)])
    ensures 0 in After(EMPTY, run).sites && After(EMPTY, run).sites[0].status == Dropped
    ensures var t := After(EMPTY, run + [RotateCommit(0)]); 0 in t.sites && t.sites[0].status == Assigned
  {
    hide IsPick, Initial, IsRun, After, NoCollision;
    NoSteps();
    var dropped := READ_ACTIVE.(status := Dropped);
    run := StepsToDropped(READ_ACTIVE);
    run := ToReadActive(run);
    var all := EndWith(run, dropped, RotateCommit(0),
                       dropped.(secret := 1, rotation := None, configured := false, status := Assigned));
  }

  /** A retry reads a failed site, which is dropped before the retry writes. */
  lemma RetryRevives() returns (run: Run)
    ensures Initial(EMPTY) && IsRun(EMPTY, run) && IsRun(EMPTY, run + [RetryWrite(0, Assigned)])
    ensures 0 in After(EMPTY, run).sites && After(EMPTY, run).sites[0].status == Dropped
    ensures var t := After(EMPTY, run + [RetryWrite(0, Assigned)]); 0 in t.sites && t.sites[0].status == Assigned
  {
    hide IsPick, Initial, IsRun, After, NoCollision;
    NoSteps();
    var failed := READY_TO_PUSH.(status := Failed);
    var read := failed.(retries := multiset{Assigned});
    assert multiset{} + multiset{Assigned} == multiset{Assigned};
    assert multiset{Assigned} - multiset{Assigned} == multiset{};
    run := StepsToDropped(read);
    run := StepTo(failed, RetryRead(0), read, run);
    run := StepTo(READY_TO_PUSH, FailStep(0), failed, run);
    run := ToConfiguring(run);
    var dropped := read.(status := Dropped);
    var all := EndWith(run, dropped, RetryWrite(0, Assigned), dropped.(retries := multiset{}, status := Assigned));
  }

  lemma EndWith(run: Run, site: Site, action: Action, last: Site) returns (all: Run)
    requires IsRun(EMPTY, run) && After(EMPTY, run) == With(site)
    requires action.id == 0 && !action.Insert? && !action.Delete? && !action.Place?
    requires EnabledOn(EMPTY, site, action) && NextSite(site, action) == last
    ensures all == run + [action] && IsRun(EMPTY, all) && After(EMPTY, all) == With(last)
  {
    hide IsPick, NextSite, IsRun, After;
    assert map[0 := site][0 := last] == map[0 := last];
    OneMore(EMPTY, run, action);
    all := run + [action];
  }

  lemma {:induction false} OneMore(s: State, run: Run, action: Action)
    requires IsRun(s, run) && Enabled(After(s, run), action)
    ensures IsRun(s, run + [action]) && After(s, run + [action]) == Next(After(s, run), action)
    decreases |run|
  {
    hide Enabled, Next;
    if run == [] {
      assert run + [action] == [action] && [action][1..] == [];
    } else {
      assert (run + [action])[1..] == run[1..] + [action];
      OneMore(Next(s, run[0]), run[1..], action);
    }
  }

  // --- termination -----------------------------------------------------------------------------

  /** How many more times the site's job can advance. */
  function Weight(site: Site): nat
    requires site.attempts < MAX_HOSTNAME_ATTEMPTS
  {
    match site.status
    case Pending => 8 - site.attempts
    case Creating => 8 - site.attempts
    case Ready => 3
    case Assigned => 2
    case Configuring => 2
    case Active => 1
    case _ => 0
  }

  /** The action ends a step that lets `provision` go on to the next. */
  predicate Advances(action: Action, site: Site) {
    || action.FindCreated? || action.FinishTask? || action.Activate?
    || (action.FailTask? && action.taken && site.attempts + 1 < MAX_HOSTNAME_ATTEMPTS)
  }

  lemma AdvanceDecreases(s: State, action: Action)
    requires Inv(s) && Enabled(s, action) && !action.Insert? && !action.Delete?
    requires !action.RetryWrite? && !action.RotateCommit?
    ensures var site := s.sites[action.id];
            && site.attempts < MAX_HOSTNAME_ATTEMPTS && NextSite(site, action).attempts < MAX_HOSTNAME_ATTEMPTS
            && Weight(NextSite(site, action)) <= Weight(site) - if Advances(action, site) then 1 else 0
  {
    hide IsPick, NextSite, EnabledOn, Weight, SiteOk, SlotsHold, MachinesExist;
    assert SiteOk(s.sites[action.id]);
    SiteAdvances(s, s.sites[action.id], action);
  }

  lemma SiteAdvances(s: State, site: Site, action: Action)
    requires SiteOk(site) && EnabledOn(s, site, action) && !action.Insert? && !action.Delete?
    requires !action.RetryWrite? && !action.RotateCommit?
    ensures site.attempts < MAX_HOSTNAME_ATTEMPTS && NextSite(site, action).attempts < MAX_HOSTNAME_ATTEMPTS
    ensures Weight(NextSite(site, action)) <= Weight(site) - if Advances(action, site) then 1 else 0
  {
    hide IsPick, SecretOk, Rotated, Weight;
    if OfRotation(action) || OfRetry(action) {
      SameWeight(site, NextSite(site, action));
    } else if Advances(action, site) {
      JobAdvances(s, site, action);
    } else {
      JobStays(s, site, action);
    }
  }

  lemma SameWeight(site: Site, after: Site)
    requires site.attempts < MAX_HOSTNAME_ATTEMPTS && after.status == site.status && after.attempts == site.attempts
    ensures Weight(after) == Weight(site)
  {
  }

  lemma JobAdvances(s: State, site: Site, action: Action)
    requires site.attempts < MAX_HOSTNAME_ATTEMPTS && (site.phase.Activating? ==> site.status == Configuring)
    requires EnabledOn(s, site, action) && !action.Insert? && Advances(action, site)
    ensures NextSite(site, action).attempts < MAX_HOSTNAME_ATTEMPTS
    ensures Weight(NextSite(site, action)) < Weight(site)
  {
    hide IsPick;
  }

  lemma JobStays(s: State, site: Site, action: Action)
    requires site.attempts < MAX_HOSTNAME_ATTEMPTS
    requires EnabledOn(s, site, action) && !OfRotation(action) && !OfRetry(action)
    requires !action.Insert? && !action.Delete? && !Advances(action, site)
    ensures NextSite(site, action).attempts < MAX_HOSTNAME_ATTEMPTS
    ensures Weight(NextSite(site, action)) <= Weight(site)
  {
    hide IsPick;
  }

  /** The steps of one site's job that advance. */
  ghost function Advanced(s: State, run: Run, id: SiteId): nat
    requires IsRun(s, run)
    decreases |run|
  {
    if run == [] then 0
    else
      (if run[0].id == id && id in s.sites && Advances(run[0], s.sites[id]) then 1 else 0)
      + Advanced(Next(s, run[0]), run[1..], id)
  }

  predicate Undisturbed(run: Run, id: SiteId) {
    forall i | 0 <= i < |run| :: run[i].id == id ==> !run[i].RetryWrite? && !run[i].RotateCommit? && !run[i].Delete?
  }

  /** Between two operator actions on a site its job advances at most eight times, whatever else happens
      meanwhile: `provision` ends. */
  lemma {:induction false} ProvisionEnds(s: State, run: Run, id: SiteId)
    requires Inv(s) && IsRun(s, run) && NoCollision(s, run) && Undisturbed(run, id) && id in s.sites
    ensures s.sites[id].attempts < MAX_HOSTNAME_ATTEMPTS && Advanced(s, run, id) <= Weight(s.sites[id]) <= 8
    decreases |run|
  {
    hide Enabled, Next, Collides, SlotsHold, MachinesExist, Weight, Advances;
    WeightBound(s, id);
    if run != [] {
      assert forall i | 0 <= i < |run[1..]| :: run[1..][i] == run[i + 1];
      NextKeepsInv(s, run[0]);
      OthersStay(s, run[0], id);
      ProvisionEnds(Next(s, run[0]), run[1..], id);
      if run[0].id == id {
        AdvanceDecreases(s, run[0]);
      }
    }
  }

  lemma WeightBound(s: State, id: SiteId)
    requires Inv(s) && id in s.sites
    ensures s.sites[id].attempts < MAX_HOSTNAME_ATTEMPTS && Weight(s.sites[id]) <= 8
  {
    assert SiteOk(s.sites[id]);
  }

  lemma OthersStay(s: State, action: Action, id: SiteId)
    requires Enabled(s, action) && id in s.sites && !(action.Delete? && action.id == id)
    ensures id in Next(s, action).sites
    ensures action.id != id ==> Next(s, action).sites[id] == s.sites[id]
    ensures action.id == id ==> !action.Insert? && Next(s, action).sites[id] == NextSite(s.sites[id], action)
  {
  }

  // --- the pool --------------------------------------------------------------------------------

  /** Unclaimed sites on the way or ready. */
  function Pooled(sites: map<SiteId, Site>, region: string): set<SiteId> {
    set id | id in sites && sites[id].region == region && sites[id].tenant.None?
             && (sites[id].status == Pending || sites[id].status == Creating || sites[id].status == Ready)
  }

  /** `t` is `s` with some new pooled sites. */
  predicate Filled(s: State, t: State, region: string, next: SiteId) {
    && Inv(t) && t.machines == s.machines
    && (forall id | id in t.sites :: id < next)
    && (forall id | id in s.sites :: id in t.sites && t.sites[id] == s.sites[id])
    && forall id | id in t.sites && id !in s.sites :: id in Pooled(t.sites, region) && t.sites[id].machine.Some?
  }

  /** Adds sites until the region has `target` pooled ones or no server a free slot. */
  method FillPool(s: State, region: string, target: nat, first: SiteId) returns (t: State, ghost next: SiteId)
    requires Inv(s) && forall id | id in s.sites :: id < first
    ensures Filled(s, t, region, next)
    ensures var pooled := |set id | id in t.sites && IsUnclaimed(t.sites[id], region)|;
            || pooled == target || (pooled > target && t == s)
            || (pooled < target && forall m: MachineId :: !CanTake(t, region, m))
  {
    hide CanTake, Inv, Filled, Pooled, HasFreeSlot;
    t, next := s, first;
    FilledByNone(s, region, first);
    var pooled, id := |Pooled(s.sites, region)|, first;
    while pooled < target
      invariant Filled(s, t, region, id)
      invariant pooled == |Pooled(t.sites, region)| && (pooled <= target || t == s)
      invariant next == id
    {
      var pick := PickVirtualMachine(t, region);
      if pick.None? {
        PooledIs(t.sites, region);
        return;
      }
      FilledByOneMore(s, t, region, id, pick.value);
      t := t.(sites := t.sites[id := NewSite(region, pick, None)]);
      pooled, id := pooled + 1, id + 1;
      next := id;
    }
    PooledIs(t.sites, region);
  }

  /** On its way to the pool, or in it. */
  predicate IsUnclaimed(site: Site, region: string) {
    site.region == region && site.tenant == None && site.status in {Pending, Creating, Ready}
  }

  lemma PooledIs(sites: map<SiteId, Site>, region: string)
    ensures Pooled(sites, region) == set id | id in sites && IsUnclaimed(sites[id], region)
  {
  }

  lemma FilledByNone(s: State, region: string, next: SiteId)
    requires Inv(s) && forall id | id in s.sites :: id < next
    ensures Filled(s, s, region, next)
  {
  }

  lemma FilledByOneMore(s: State, t: State, region: string, id: SiteId, machine: MachineId)
    requires Filled(s, t, region, id) && IsPick(t, region, Some(machine))
    ensures var u := t.(sites := t.sites[id := NewSite(region, Some(machine), None)]);
            Filled(s, u, region, id + 1) && |Pooled(u.sites, region)| == |Pooled(t.sites, region)| + 1
  {
    hide Inv, IsPick, Pooled;
    assert id !in t.sites;
    PooledMore(t.sites, region, id, machine);
    InsertKeepsInv(t, id, region, machine);
  }

  lemma InsertKeepsInv(s: State, id: SiteId, region: string, machine: MachineId)
    requires Inv(s) && id !in s.sites && IsPick(s, region, Some(machine))
    ensures Inv(s.(sites := s.sites[id := NewSite(region, Some(machine), None)]))
  {
    hide Inv, IsPick;
    NextKeepsInv(s, Insert(id, region, None, Some(machine)));
  }

  lemma PooledMore(sites: map<SiteId, Site>, region: string, id: SiteId, machine: MachineId)
    requires id !in sites
    ensures Pooled(sites[id := NewSite(region, Some(machine), None)], region) == Pooled(sites, region) + {id}
    ensures |Pooled(sites[id := NewSite(region, Some(machine), None)], region)| == |Pooled(sites, region)| + 1
  {
    assert Pooled(sites[id := NewSite(region, Some(machine), None)], region) == Pooled(sites, region) + {id};
  }

  // --- after Active ----------------------------------------------------------------------------

  datatype FollowUp = Mail | OwnerInvite | SiteDomain

  /** What the follow-ups read of a site. */
  datatype Progress = Progress(mailVerified: bool, invited: bool, wantsDomain: bool, hasDomain: bool)

  function PendingFollowUps(p: Progress): seq<FollowUp> {
    (if !p.mailVerified then [Mail] else if !p.invited then [OwnerInvite] else [])
    + (if p.wantsDomain && !p.hasDomain then [SiteDomain] else [])
  }

  /** A step that is done leaves its mark; any other waits or fails and leaves the site as it was. */
  function Attempted(p: Progress, step: FollowUp, done: bool): Progress {
    if !done then p
    else
      match step
      case Mail => p.(mailVerified := true)
      case OwnerInvite => p.(invited := true)
      case SiteDomain => p.(hasDomain := true)
  }

  function FirstUntried(steps: seq<FollowUp>, tried: set<FollowUp>): Option<FollowUp> {
    if steps == [] then None
    else if steps[0] !in tried then Some(steps[0])
    else FirstUntried(steps[1..], tried)
  }

  /** What the attempts so far come to, in the order they are made. */
  ghost predicate IsOutcome(start: Progress, outcomes: FollowUp -> bool, attempted: set<FollowUp>, p: Progress,
                            tried: seq<FollowUp>)
  {
    && p.mailVerified == (start.mailVerified || (Mail in attempted && outcomes(Mail)))
    && p.invited == (start.invited || (OwnerInvite in attempted && outcomes(OwnerInvite)))
    && p.hasDomain == (start.hasDomain || (SiteDomain in attempted && outcomes(SiteDomain)))
    && p.wantsDomain == start.wantsDomain
    && (Mail in attempted ==> !start.mailVerified)
    && (OwnerInvite in attempted ==> p.mailVerified && !start.invited)
    && (SiteDomain in attempted ==> start.wantsDomain && !start.hasDomain)
    && (OwnerInvite in attempted || SiteDomain in attempted ==> Mail in attempted || start.mailVerified)
    && (SiteDomain in attempted && p.mailVerified && !start.invited ==> OwnerInvite in attempted)
    && tried == (if Mail in attempted then [Mail] else []) + (if OwnerInvite in attempted then [OwnerInvite] else [])
                + (if SiteDomain in attempted then [SiteDomain] else [])
  }

  lemma NoOutcomeYet(start: Progress, outcomes: FollowUp -> bool)
    ensures IsOutcome(start, outcomes, {}, start, [])
  {
  }

  /** The next follow-up: mail, then the invite once mail is verified, then the site domain. */
  lemma UntriedMeans(p: Progress, attempted: set<FollowUp>)
    ensures FirstUntried(PendingFollowUps(p), attempted) ==
            if !p.mailVerified && Mail !in attempted then Some(Mail)
            else if p.mailVerified && !p.invited && OwnerInvite !in attempted then Some(OwnerInvite)
            else if p.wantsDomain && !p.hasDomain && SiteDomain !in attempted then Some(SiteDomain)
            else None
  {
    var first: seq<FollowUp> := if !p.mailVerified then [Mail] else if !p.invited then [OwnerInvite] else [];
    var last: seq<FollowUp> := if p.wantsDomain && !p.hasDomain then [SiteDomain] else [];
    assert PendingFollowUps(p) == first + last;
    UntriedOne(last, attempted);
    if first != [] {
      assert (first + last)[0] == first[0] && (first + last)[1..] == last;
    } else {
      assert first + last == last;
    }
  }

  lemma UntriedOne(steps: seq<FollowUp>, attempted: set<FollowUp>)
    requires |steps| <= 1
    ensures FirstUntried(steps, attempted) == if steps == [] || steps[0] in attempted then None else Some(steps[0])
  {
    if steps != [] {
      assert steps[1..] == [];
    }
  }

  lemma OutcomeGrows(start: Progress, outcomes: FollowUp -> bool, attempted: set<FollowUp>, p: Progress,
                     tried: seq<FollowUp>, step: FollowUp)
    requires IsOutcome(start, outcomes, attempted, p, tried)
    requires FirstUntried(PendingFollowUps(p), attempted) == Some(step)
    ensures IsOutcome(start, outcomes, attempted + {step}, Attempted(p, step, outcomes(step)), tried + [step])
  {
    hide FirstUntried, PendingFollowUps;
    UntriedMeans(p, attempted);
  }

  /** Nothing left to try: everything that was due was tried. */
  lemma OutcomeIs(start: Progress, outcomes: FollowUp -> bool, attempted: set<FollowUp>, p: Progress,
                  tried: seq<FollowUp>)
    requires IsOutcome(start, outcomes, attempted, p, tried)
    requires FirstUntried(PendingFollowUps(p), attempted) == None
    ensures p.mailVerified == (start.mailVerified || outcomes(Mail))
    ensures p.invited == (start.invited || (p.mailVerified && outcomes(OwnerInvite)))
    ensures p.hasDomain == (start.hasDomain || (start.wantsDomain && outcomes(SiteDomain)))
    ensures p.wantsDomain == start.wantsDomain
    ensures tried == (if start.mailVerified then [] else [Mail])
                     + (if p.mailVerified && !start.invited then [OwnerInvite] else [])
                     + (if start.wantsDomain && !start.hasDomain then [SiteDomain] else [])
  {
    hide FirstUntried, PendingFollowUps;
    UntriedMeans(p, attempted);
  }

  lemma Exhausts(attempted: set<FollowUp>, step: FollowUp)
    requires step !in attempted
    ensures |{Mail, OwnerInvite, SiteDomain} - (attempted + {step})| < |{Mail, OwnerInvite, SiteDomain} - attempted|
  {
    var all := {Mail, OwnerInvite, SiteDomain};
    assert all - attempted == (all - (attempted + {step})) + {step};
  }

  /** Each step is tried at most once a run, in the order of mail, invite and domain, and the invite in the
      run that verified mail; what is still pending at the end was tried and failed. `outcomes` says which
      steps succeed. */
  method RunFollowUps(start: Progress, outcomes: FollowUp -> bool) returns (p: Progress, tried: seq<FollowUp>)
    ensures p.mailVerified == (start.mailVerified || outcomes(Mail))
    ensures p.invited == (start.invited || (p.mailVerified && outcomes(OwnerInvite)))
    ensures p.hasDomain == (start.hasDomain || (start.wantsDomain && outcomes(SiteDomain)))
    ensures p.wantsDomain == start.wantsDomain
    ensures tried == (if start.mailVerified then [] else [Mail])
                     + (if p.mailVerified && !start.invited then [OwnerInvite] else [])
                     + (if start.wantsDomain && !start.hasDomain then [SiteDomain] else [])
    ensures forall step | step in PendingFollowUps(p) :: step in tried && !outcomes(step)
    ensures (forall step | step in tried :: outcomes(step)) <==> PendingFollowUps(p) == []
  {
    hide FirstUntried, PendingFollowUps, Attempted, IsOutcome;
    p, tried := start, [];
    var attempted: set<FollowUp> := {};
    NoOutcomeYet(start, outcomes);
    while FirstUntried(PendingFollowUps(p), attempted).Some?
      invariant IsOutcome(start, outcomes, attempted, p, tried)
      decreases |{Mail, OwnerInvite, SiteDomain} - attempted|
    {
      var step := FirstUntried(PendingFollowUps(p), attempted).value;
      UntriedMeans(p, attempted);
      Exhausts(attempted, step);
      OutcomeGrows(start, outcomes, attempted, p, tried, step);
      p := Attempted(p, step, outcomes(step));
      tried, attempted := tried + [step], attempted + {step};
    }
    OutcomeIs(start, outcomes, attempted, p, tried);
    PendingAre(start, outcomes, p, tried);
  }

  lemma PendingAre(start: Progress, outcomes: FollowUp -> bool, p: Progress, tried: seq<FollowUp>)
    requires p.mailVerified == (start.mailVerified || outcomes(Mail))
    requires p.invited == (start.invited || (p.mailVerified && outcomes(OwnerInvite)))
    requires p.hasDomain == (start.hasDomain || (start.wantsDomain && outcomes(SiteDomain)))
    requires p.wantsDomain == start.wantsDomain
    requires tried == (if start.mailVerified then [] else [Mail])
                      + (if p.mailVerified && !start.invited then [OwnerInvite] else [])
                      + (if start.wantsDomain && !start.hasDomain then [SiteDomain] else [])
    ensures forall step | step in PendingFollowUps(p) :: step in tried && !outcomes(step)
    ensures (forall step | step in tried :: outcomes(step)) <==> PendingFollowUps(p) == []
  {
    assert Mail in tried <==> !start.mailVerified;
    assert OwnerInvite in tried <==> p.mailVerified && !start.invited;
    assert SiteDomain in tried <==> start.wantsDomain && !start.hasDomain;
    var pending := PendingFollowUps(p);
    assert Mail in pending <==> !p.mailVerified;
    assert OwnerInvite in pending <==> p.mailVerified && !p.invited;
    assert SiteDomain in pending <==> p.wantsDomain && !p.hasDomain;
    if pending != [] {
      assert pending[0] in pending;
    }
  }

  // --- hostnames ---------------------------------------------------------------------------------

  /** A hostname another server holds is rolled again, four times at most; the fifth taken one fails the
      site, as any other error does at once. */
  lemma RerollsFourTimes(s: State, id: SiteId, taken: bool)
    requires Inv(s) && Enabled(s, FailTask(id, taken))
    ensures var site, after := s.sites[id], Next(s, FailTask(id, taken)).sites[id];
            if taken && site.attempts < 4 then
              after == site.(attempts := site.attempts + 1, task := false, status := Pending)
            else after == site.(status := Failed) && (taken ==> site.attempts == 4)
  {
    assert SiteOk(s.sites[id]);
  }

  ghost function RerollsIn(s: State, run: Run, id: SiteId): nat
    requires IsRun(s, run)
    decreases |run|
  {
    if run == [] then 0
    else
      (if run[0] == FailTask(id, true) && id in s.sites && s.sites[id].attempts < 4 then 1 else 0)
      + RerollsIn(Next(s, run[0]), run[1..], id)
  }

  lemma StepCountsRerolls(s: State, action: Action, id: SiteId)
    requires Inv(s) && Enabled(s, action) && id in s.sites && action != Delete(id)
    ensures id in Next(s, action).sites
    ensures Next(s, action).sites[id].attempts ==
            s.sites[id].attempts + if action == FailTask(id, true) && s.sites[id].attempts < 4 then 1 else 0
  {
    hide IsPick, EnabledOn, NextSite, SiteOk, SlotsHold, MachinesExist;
    if action.id == id {
      AttemptsAfter(s.sites[id], action);
    }
  }

  lemma AttemptsAfter(site: Site, action: Action)
    ensures NextSite(site, action).attempts ==
            site.attempts + if action.FailTask? && action.taken && site.attempts < 4 then 1 else 0
  {
    hide ResumeStatus;
  }

  /** A site counts its hostnames from none when it is inserted, over any run. */
  lemma {:induction false} RerollsAreCounted(s: State, run: Run, id: SiteId)
    requires Inv(s) && IsRun(s, run) && NoCollision(s, run) && id in s.sites
    requires forall i | 0 <= i < |run| :: run[i] != Delete(id)
    ensures id in After(s, run).sites
    ensures After(s, run).sites[id].attempts == s.sites[id].attempts + RerollsIn(s, run, id)
    decreases |run|
  {
    hide Enabled, Next, Inv, Collides;
    if run != [] {
      assert forall i | 0 <= i < |run[1..]| :: run[1..][i] == run[i + 1];
      assert run[0] != Delete(id);
      StepCountsRerolls(s, run[0], id);
      NextKeepsInv(s, run[0]);
      RerollsAreCounted(Next(s, run[0]), run[1..], id);
    }
  }

  lemma InsertedAsNew(s: State, action: Action)
    requires action.Insert? && Enabled(s, action)
    ensures action.id in Next(s, action).sites
    ensures var site := Next(s, action).sites[action.id];
            && site.attempts == 0 && site.status == Pending && !site.created && !site.task && !site.configured
            && site.tenant == action.tenant && site.machine == action.machine && site.region == action.region
  {
  }

  // --- the end of a site -----------------------------------------------------------------------

  /** A site leaves the table only when it is gone from its server, or was never begun there. */
  lemma DeletedOnlyWhenGone(s: State, action: Action, id: SiteId)
    requires Enabled(s, action) && id in s.sites && id !in Next(s, action).sites
    ensures action == Delete(id)
    ensures s.sites[id].status == Dropped || (!s.sites[id].created && !s.sites[id].task)
  {
    hide IsPick;
  }

  /** Every site can be dropped, whatever its job is doing, once that job is over. */
  lemma CanBeDropped(s: State, id: SiteId) returns (run: Run)
    requires Inv(s) && id in s.sites
    ensures IsRun(s, run) && NoCollision(s, run) && id in After(s, run).sites
    ensures After(s, run).sites[id].status == Dropped
  {
    hide IsPick, SecretOk;
    if s.sites[id].status == Dropped {
      run := [];
    } else {
      var over := Next(s, KillJob(id));
      var dropping := Next(over, BeginDrop(id));
      run := Before(dropping, EndDrop(id), Next(dropping, EndDrop(id)), []);
      run := Before(over, BeginDrop(id), dropping, run);
      run := Before(s, KillJob(id), over, run);
    }
  }

  // --- every site can become active -----------------------------------------------------------------

  /** What is left of a site's way to Active. */
  function Distance(site: Site): nat {
    match site.status
    case Failed => 9
    case Pending => 8
    case Creating => if site.task then 7 else 8
    case Ready => 6
    case Assigned => 5
    case Configuring =>
      if site.phase.Activating? then 1
      else if site.phase.SecretPushed? then 2
      else if site.configured then 3 else 4
    case _ => 0
  }

  function StepOn(site: Site, id: SiteId): Action {
    match site.status
    case Pending => if site.task then FinishTask(id) else StartTask(id)
    case Creating => if site.task then FinishTask(id) else StartTask(id)
    case Ready => Claim(id, "tenant")
    case Assigned => BeginConfigure(id)
    case _ =>
      if site.phase.SecretPushed? then KeepConfigured(id)
      else if site.phase.Activating? || site.configured then Activate(id)
      else PushSecret(id)
  }

  lemma StepIsOn(s: State, id: SiteId)
    requires Inv(s) && id in s.sites && s.sites[id].machine.Some?
    requires s.sites[id].status !in {Active, Failed, Dropping, Dropped}
    ensures var action := StepOn(s.sites[id], id);
            && Enabled(s, action) && !Collides(s, action)
            && id in Next(s, action).sites && Next(s, action).sites[id].machine.Some?
            && Next(s, action).sites[id].status !in {Failed, Dropping, Dropped}
            && Distance(Next(s, action).sites[id]) < Distance(s.sites[id])
  {
    hide IsPick, SiteOk, EnabledOn, NextSite, Distance, SlotsHold, MachinesExist;
    SiteIsOk(s, id);
    SiteStepIsOn(s, s.sites[id], id);
  }

  lemma SiteStepIsOn(s: State, site: Site, id: SiteId)
    requires SiteOk(site) && site.machine.Some? && site.status !in {Active, Failed, Dropping, Dropped}
    ensures var action := StepOn(site, id);
            && EnabledOn(s, site, action) && action.id == id
            && !action.Insert? && !action.Delete? && !CollidesOn(site, action)
            && NextSite(site, action).machine.Some?
            && NextSite(site, action).status !in {Failed, Dropping, Dropped}
            && Distance(NextSite(site, action)) < Distance(site)
  {
    hide IsPick, SecretOk;
  }

  /** A site that has its server and is not being dropped can become active, with the tenant's secret, by the
      steps of its job, a claim where nobody has it yet and a retry where it has failed. */
  lemma {:induction false} CanBecomeActive(s: State, id: SiteId) returns (run: Run)
    requires Inv(s) && id in s.sites && s.sites[id].machine.Some?
    requires s.sites[id].status !in {Dropping, Dropped}
    ensures IsRun(s, run) && NoCollision(s, run) && id in After(s, run).sites
    ensures After(s, run).sites[id].status == Active && !IsStale(After(s, run).sites[id])
    decreases Distance(s.sites[id])
  {
    hide IsPick, Inv, NextSite, EnabledOn, Collides;
    if s.sites[id].status == Active {
      run := [];
      assert Inv(s) && SiteOk(s.sites[id]) by { SiteIsOk(s, id); }
      OkIsNotStale(s.sites[id]);
    } else if s.sites[id].status == Failed {
      var read := RetryRead(id);
      RetryIsOn(s, id);
      NextKeepsInv(s, read);
      var t := Next(s, read);
      var write := RetryWrite(id, ResumeStatus(s.sites[id]));
      NextKeepsInv(t, write);
      var rest := CanBecomeActive(Next(t, write), id);
      run := Before(t, write, Next(t, write), rest);
      run := Before(s, read, t, run);
    } else {
      var action := StepOn(s.sites[id], id);
      StepIsOn(s, id);
      NextKeepsInv(s, action);
      var rest := CanBecomeActive(Next(s, action), id);
      run := Before(s, action, Next(s, action), rest);
    }
  }

  lemma SiteIsOk(s: State, id: SiteId)
    requires Inv(s) && id in s.sites
    ensures SiteOk(s.sites[id])
  {
  }

  lemma RetryIsOn(s: State, id: SiteId)
    requires Inv(s) && id in s.sites && s.sites[id].machine.Some? && s.sites[id].status == Failed
    ensures Enabled(s, RetryRead(id)) && !Collides(s, RetryRead(id))
    ensures var t := Next(s, RetryRead(id));
            var write := RetryWrite(id, ResumeStatus(s.sites[id]));
            && Enabled(t, write) && !Collides(t, write)
            && id in Next(t, write).sites && Next(t, write).sites[id].machine.Some?
            && Next(t, write).sites[id].status !in {Failed, Dropping, Dropped}
            && Distance(Next(t, write).sites[id]) < Distance(s.sites[id])
  {
    hide IsPick, SecretOk;
    assert SiteOk(s.sites[id]);
  }
}
