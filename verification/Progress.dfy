/** How far a Suite Tenant Request has come: one row a step, synced from what other records say. */
module Progress {
  import opened Wrappers

  // --- steps ---------------------------------------------------------------------------------

  datatype Step =
    | Created | Verified | Tenant | Claim | Server | SiteStep | Configure
    | SiteDomain | MailDomain | MailRecords | MailVerified | Invite | CompletedStep

  const STEPS: seq<Step> := [Created, Verified, Tenant, Claim, Server, SiteStep, Configure,
                             SiteDomain, MailDomain, MailRecords, MailVerified, Invite, CompletedStep]

  function Prerequisite(step: Step): Option<Step> {
    match step
    case Created => None
    case Verified => Some(Created)
    case Tenant => Some(Verified)
    case Claim => Some(Tenant)
    case Server => Some(Claim)
    case SiteStep => Some(Server)
    case Configure => Some(SiteStep)
    case SiteDomain => Some(Configure)
    case MailDomain => Some(Configure)
    case MailRecords => Some(MailDomain)
    case MailVerified => Some(MailRecords)
    case Invite => Some(MailVerified)
    case CompletedStep => Some(Invite)
  }

  function FollowUp(step: Step): Option<string> {
    match step
    case SiteDomain => Some("Site domain")
    case MailDomain => Some("Mail")
    case MailRecords => Some("Mail")
    case MailVerified => Some("Mail")
    case Invite => Some("Owner invite")
    case _ => None
  }

  const LABELS: seq<string> := ["Site domain", "Mail", "Owner invite"]

  // --- records -------------------------------------------------------------------------------

  datatype Site = Site(name: string, creation: int, virtualMachine: string, siteCreated: bool, hostname: string,
                       activated: bool, assignSiteDomain: bool, siteDomain: string, followUpSkipReason: string,
                       hasSiteDomain: bool, primarySkipped: Option<string>, mailDomain: string,
                       recordsPublished: bool, mailIsLive: bool, ownerInvite: string, loginEmail: string, error: string)

  /** The records as one sync reads them; `site` is None while there is none, or none any more. */
  datatype Facts = Facts(status: string, tenant: bool, siteLabel: string, error: string, email: string,
      site: Option<Site>)

  datatype Status = Pending | Running | Completed | Skipped | Failed

  datatype Row = Row(status: Status, detail: Option<string>, startedAt: Option<int>, endedAt: Option<int>,
      duration: Option<int>) {

    predicate IsDone() {
      status == Completed || status == Skipped
    }
  }

  type Rows = map<Step, Row>

  predicate Full(rows: Rows) {
    forall step: Step :: step in rows
  }

  /** A record that is read is not there. */
  datatype Error = NoSite | NoMailDomain

  // --- one step ------------------------------------------------------------------------------

  /** Why the claim found a site at once: it is older than the claim. */
  function PoolReason(rows: Rows, facts: Facts): Result<Option<string>, Error>
    requires Full(rows)
  {
    if rows[Claim].startedAt.None? then Ok(None)
    else if facts.site.None? then Err(NoSite)
    else if facts.site.value.creation < rows[Claim].startedAt.value then
      Ok(Some("Suite Site " + facts.site.value.name + " was ready in the pool."))
    else Ok(None)
  }

  function Text(s: string): Option<string> {
    if s == "" then None else Some(s)
  }

  /** A reason to skip the step, if it has one. */
  function SkipReason(rows: Rows, facts: Facts, step: Step): Result<Option<string>, Error>
    requires Full(rows)
  {
    match step
    case Server => PoolReason(rows, facts)
    case SiteStep => PoolReason(rows, facts)
    case SiteDomain =>
      if facts.site.None? then Err(NoSite)
      else if !facts.site.value.assignSiteDomain || facts.site.value.siteDomain == ""
          then Ok(Some("The site gets no site domain."))
      else Ok(Text(facts.site.value.followUpSkipReason))
    case _ => Ok(None)
  }

  /** Whether the records say the step is done. */
  function Holds(facts: Facts, step: Step): Result<bool, Error> {
    match step
    case Created => Ok(true)
    case Verified => Ok(facts.status != "Pending" && facts.status != "Expired")
    case Tenant => Ok(facts.tenant)
    case Claim => Ok(facts.site.Some?)
    case CompletedStep => Ok(facts.status == "Completed")
    case _ =>
      if facts.site.None? then Err(NoSite)
      else
        var site := facts.site.value;
        match step
        case Server => Ok(site.virtualMachine != "")
        case SiteStep => Ok(site.siteCreated)
        case Configure => Ok(site.activated)
        case SiteDomain => Ok(site.hasSiteDomain)
        case MailDomain => Ok(site.mailDomain != "")
        case MailRecords => if site.mailDomain == "" then Err(NoMailDomain) else Ok(site.recordsPublished)
        case MailVerified => if site.mailDomain == "" then Err(NoMailDomain) else Ok(site.mailIsLive)
        case _ => Ok(site.ownerInvite != "")
  }

  function Summary(facts: Facts, step: Step): Option<string> {
    match step
    case Tenant => Some("Label " + facts.siteLabel)
    case _ =>
      if facts.site.None? then None
      else
        var site := facts.site.value;
        match step
        case Claim => Some("Suite Site " + site.name)
        case Server => Some("Virtual Machine " + site.virtualMachine)
        case SiteStep => Text(site.hostname)
        case SiteDomain => Text(site.primarySkipped.GetOr(site.siteDomain))
        case MailDomain => Text(site.mailDomain)
        case Invite => Text(site.loginEmail)
        case _ => None
  }

  predicate StartsWith(s: string, prefix: string) {
    |prefix| <= |s| && s[..|prefix|] == prefix
  }

  /** The site domain runs alongside mail: each step shows only its own errors. */
  function WaitingReason(facts: Facts, step: Step): Option<string> {
    if step == Verified then Some("Waiting for the code mailed to " + facts.email + ".")
    else if facts.site.None? || facts.site.value.error == "" then None
    else
      var error := facts.site.value.error;
      if exists i | 0 <= i < |LABELS| :: StartsWith(error, LABELS[i] + ":") && FollowUp(step) != Some(LABELS[i])
      then None else Some(error)
  }

  function GetStatus(rows: Rows, facts: Facts, step: Step): Result<(Status, Option<string>), Error>
    requires Full(rows)
  {
    var before := Prerequisite(step);
    if rows[step].IsDone() then Ok((rows[step].status, rows[step].detail))
    else if before.Some? && !rows[before.value].IsDone() then Ok((Pending, None))
    else
      var skip := SkipReason(rows, facts, step);
      if skip.Err? then Err(skip.error)
      else if skip.value.Some? then Ok((Skipped, skip.value))
      else
        var holds := Holds(facts, step);
        if holds.Err? then Err(holds.error)
        else if holds.value then Ok((Completed, Summary(facts, step)))
        else if facts.status == "Failed" then Ok((Failed, Text(facts.error)))
        else if facts.status == "Expired" then Ok((Failed, Some("The signup expired before its email was confirmed.")))
        else Ok((Running, WaitingReason(facts, step)))
  }

  /** `save_row` */
  function Saved(row: Row, status: Status, detail: Option<string>, now: int): Row {
    var started := if row.startedAt.Some? then row.startedAt else Some(now);
    match status
    case Pending => row.(status := status, detail := detail)
    case Skipped => row.(status := status, detail := detail)
    case Running => row.(status := status, detail := detail, startedAt := started, endedAt := None, duration := None)
    case _ =>
      row.(status := status, detail := detail, startedAt := started, endedAt := Some(now),
           duration := Some(now - started.value))
  }

  function SyncStep(rows: Rows, facts: Facts, step: Step, now: int): Result<Rows, Error>
    requires Full(rows)
  {
    match GetStatus(rows, facts, step)
    case Err(error) => Err(error)
    case Ok((status, detail)) =>
      if (status, detail) != (rows[step].status, rows[step].detail)
      then Ok(rows[step := Saved(rows[step], status, detail, now)]) else Ok(rows)
  }

  function SyncFrom(rows: Rows, facts: Facts, i: nat, now: int): Result<Rows, Error>
    requires Full(rows) && i <= |STEPS|
    decreases |STEPS| - i
  {
    if i == |STEPS| then Ok(rows)
    else
      match SyncStep(rows, facts, STEPS[i], now)
      case Err(error) => Err(error)
      case Ok(next) => SyncFrom(next, facts, i + 1, now)
  }

  function Synced(rows: Rows, facts: Facts, now: int): Result<Rows, Error>
    requires Full(rows)
  {
    SyncFrom(rows, facts, 0, now)
  }

  /** `add_steps`: no code is sent for a request made in the desk. */
  function Fresh(byOtp: bool): Rows {
    map step: Step :: FreshRow(step, byOtp)
  }

  function FreshRow(step: Step, byOtp: bool): Row {
    if step == Verified && !byOtp then Row(Skipped, Some("Made in the desk: no code is sent."), None, None, None)
    else Row(Pending, None, None, None, None)
  }

  // --- the request ---------------------------------------------------------------------------

  class Request {
    var rows: Rows

    constructor (byOtp: bool)
      ensures rows == Fresh(byOtp)
      ensures forall step: Step :: step in rows && rows[step].startedAt == None
                && rows[step].status == if step == Verified && !byOtp then Skipped else Pending
    {
      rows := Fresh(byOtp);
    }

    /** A sync that cannot read a record raises, and its changes are rolled back. */
    method Sync(facts: Facts, now: int) returns (result: Result<bool, Error>)
      requires Full(rows)
      modifies this
      ensures Full(rows)
      ensures match Synced(old(rows), facts, now)
              case Ok(next) => result == Ok(rows != old(rows)) && rows == next
              case Err(error) => result == Err(error) && rows == old(rows)
    {
      hide GetStatus;
      var next, changed := rows, false;
      for i := 0 to |STEPS|
        invariant rows == old(rows)
        invariant Full(next) && SyncFrom(next, facts, i, now) == Synced(old(rows), facts, now)
        invariant (changed <==> next != rows)
        invariant forall k | i <= k < |STEPS| :: next[STEPS[k]] == rows[STEPS[k]]
      {
        var step := STEPS[i];
        var status := GetStatus(next, facts, step);
        if status.Err? {
          return Err(status.error);
        }
        if status.value != (next[step].status, next[step].detail) {
          ghost var was := next;
          next := next[step := Saved(next[step], status.value.0, status.value.1, now)];
          assert next[step] != was[step] && was[step] == rows[step];
          OtherSteps(i);
          changed := true;
        }
      }
      rows := next;
      result := Ok(changed);
    }
  }

  lemma OtherSteps(i: nat)
    requires i < |STEPS|
    ensures forall k | i < k < |STEPS| :: STEPS[k] != STEPS[i]
  {
  }

  // --- runs ----------------------------------------------------------------------------------

  /** Each sync with the records and the time it found; a failed one changes nothing. */
  function AfterSyncs(rows: Rows, syncs: seq<(Facts, int)>): Rows
    requires Full(rows)
    decreases |syncs|
  {
    if syncs == [] then rows
    else
      match Synced(rows, syncs[0].0, syncs[0].1)
      case Err(_) => AfterSyncs(rows, syncs[1..])
      case Ok(next) => SyncIsFull(rows, syncs[0].0, 0, syncs[0].1); AfterSyncs(next, syncs[1..])
  }

  lemma {:induction false} SyncIsFull(rows: Rows, facts: Facts, i: nat, now: int)
    requires Full(rows) && i <= |STEPS| && SyncFrom(rows, facts, i, now).Ok?
    ensures Full(SyncFrom(rows, facts, i, now).value)
    decreases |STEPS| - i
  {
    hide GetStatus;
    if i < |STEPS| {
      SyncIsFull(SyncStep(rows, facts, STEPS[i], now).value, facts, i + 1, now);
    }
  }

  // --- done stays done -----------------------------------------------------------------------

  predicate KeepsDone(before: Rows, after: Rows)
    requires Full(before) && Full(after)
  {
    forall step: Step | before[step].IsDone() :: after[step] == before[step]
  }

  lemma {:induction false} SyncKeepsDone(rows: Rows, facts: Facts, i: nat, now: int)
    requires Full(rows) && i <= |STEPS| && SyncFrom(rows, facts, i, now).Ok?
    ensures Full(SyncFrom(rows, facts, i, now).value) && KeepsDone(rows, SyncFrom(rows, facts, i, now).value)
    decreases |STEPS| - i
  {
    hide SkipReason, Holds, Summary, WaitingReason;
    if i < |STEPS| {
      var next := SyncStep(rows, facts, STEPS[i], now).value;
      assert KeepsDone(rows, next);
      SyncKeepsDone(next, facts, i + 1, now);
    }
  }

  function DoneSteps(rows: Rows): set<Step> {
    set step | step in rows && rows[step].IsDone()
  }

  lemma {:induction false} FewerAreNoMore<T>(a: set<T>, b: set<T>)
    requires a <= b
    ensures |a| <= |b|
    decreases |a|
  {
    if a != {} {
      var x :| x in a;
      FewerAreNoMore(a - {x}, b - {x});
    }
  }

  /** Over any syncs, however the records change: a done step keeps its whole row, so the progress
      count never falls. */
  lemma {:induction false} DoneStaysDone(rows: Rows, syncs: seq<(Facts, int)>)
    requires Full(rows)
    ensures Full(AfterSyncs(rows, syncs)) && KeepsDone(rows, AfterSyncs(rows, syncs))
    ensures |DoneSteps(rows)| <= |DoneSteps(AfterSyncs(rows, syncs))|
    decreases |syncs|
  {
    hide SyncStep;
    if syncs != [] {
      var result := Synced(rows, syncs[0].0, syncs[0].1);
      if result.Ok? {
        SyncKeepsDone(rows, syncs[0].0, 0, syncs[0].1);
        DoneStaysDone(result.value, syncs[1..]);
      } else {
        DoneStaysDone(rows, syncs[1..]);
      }
    }
    assert DoneSteps(rows) <= DoneSteps(AfterSyncs(rows, syncs));
    FewerAreNoMore(DoneSteps(rows), DoneSteps(AfterSyncs(rows, syncs)));
  }

  // --- prerequisites -------------------------------------------------------------------------

  predicate ClosedAt(rows: Rows, step: Step)
    requires Full(rows)
  {
    rows[step].IsDone() && Prerequisite(step).Some? ==> rows[Prerequisite(step).value].IsDone()
  }

  /** The done steps with their prerequisites. */
  predicate Closed(rows: Rows)
    requires Full(rows)
  {
    forall step: Step :: ClosedAt(rows, step)
  }

  /** A new request: only the verification may be done before its prerequisite. */
  predicate ClosedButVerified(rows: Rows)
    requires Full(rows)
  {
    forall step: Step | step != Verified :: ClosedAt(rows, step)
  }

  lemma {:induction false} SyncKeepsClosed(rows: Rows, facts: Facts, i: nat, now: int)
    requires Full(rows) && i <= |STEPS| && ClosedButVerified(rows) && SyncFrom(rows, facts, i, now).Ok?
    requires i > 0 ==> rows[Created].IsDone()
    ensures var after := SyncFrom(rows, facts, i, now).value; Full(after) && Closed(after)
    decreases |STEPS| - i
  {
    hide Summary, WaitingReason;
    if i < |STEPS| {
      var next := SyncStep(rows, facts, STEPS[i], now).value;
      assert KeepsDone(rows, next);
      assert STEPS[0] == Created;
      forall step: Step | step != Verified ensures ClosedAt(next, step) {
        assert ClosedAt(rows, step);
      }
      SyncKeepsClosed(next, facts, i + 1, now);
    } else {
      forall step: Step ensures ClosedAt(rows, step) {
      }
    }
  }

  predicate AnySucceeds(rows: Rows, syncs: seq<(Facts, int)>)
    requires Full(rows)
    decreases |syncs|
  {
    syncs != [] && (Synced(rows, syncs[0].0, syncs[0].1).Ok? || AnySucceeds(rows, syncs[1..]))
  }

  /** From the first sync on, a done step's prerequisites are done too. */
  lemma {:induction false} DoneIsClosed(rows: Rows, syncs: seq<(Facts, int)>)
    requires Full(rows) && ClosedButVerified(rows)
    ensures Full(AfterSyncs(rows, syncs))
    ensures Closed(rows) || AnySucceeds(rows, syncs) ==> Closed(AfterSyncs(rows, syncs))
    decreases |syncs|
  {
    hide SyncStep;
    if syncs != [] {
      var result := Synced(rows, syncs[0].0, syncs[0].1);
      if result.Ok? {
        SyncKeepsClosed(rows, syncs[0].0, 0, syncs[0].1);
        DoneIsClosed(result.value, syncs[1..]);
      } else {
        DoneIsClosed(rows, syncs[1..]);
      }
    }
  }

  lemma NewRequestIsClosed(byOtp: bool)
    ensures Full(Fresh(byOtp)) && ClosedButVerified(Fresh(byOtp))
    ensures Closed(Fresh(byOtp)) <==> byOtp
  {
    assert byOtp ==> forall step: Step :: ClosedAt(Fresh(byOtp), step);
    assert !byOtp ==> !ClosedAt(Fresh(byOtp), Verified);
  }

  /** A request's done steps are closed from its first successful sync on; before it, those of a request
      made in the desk are not, whose verification is skipped from the start. */
  lemma RequestIsClosed(byOtp: bool, syncs: seq<(Facts, int)>)
    ensures Full(Fresh(byOtp)) && Full(AfterSyncs(Fresh(byOtp), syncs))
    ensures Closed(AfterSyncs(Fresh(byOtp), syncs)) <==> byOtp || AnySucceeds(Fresh(byOtp), syncs)
  {
    hide SyncStep;
    NewRequestIsClosed(byOtp);
    DoneIsClosed(Fresh(byOtp), syncs);
    if !AnySucceeds(Fresh(byOtp), syncs) {
      FailedSyncsChangeNothing(Fresh(byOtp), syncs);
    }
  }

  lemma {:induction false} FailedSyncsChangeNothing(rows: Rows, syncs: seq<(Facts, int)>)
    requires Full(rows) && !AnySucceeds(rows, syncs)
    ensures AfterSyncs(rows, syncs) == rows
    decreases |syncs|
  {
    hide SyncStep;
    if syncs != [] {
      FailedSyncsChangeNothing(rows, syncs[1..]);
    }
  }

  // --- a second sync -------------------------------------------------------------------------

  /** The rows a step reads: its own, its prerequisite's and the claim's start. */
  predicate SameForStep(a: Rows, b: Rows, step: Step)
    requires Full(a) && Full(b)
  {
    && a[step] == b[step]
    && (Prerequisite(step).Some? ==> a[Prerequisite(step).value] == b[Prerequisite(step).value])
    && (step == Server || step == SiteStep ==> a[Claim] == b[Claim])
  }

  predicate Stable(rows: Rows, facts: Facts, step: Step)
    requires Full(rows)
  {
    GetStatus(rows, facts, step) == Ok((rows[step].status, rows[step].detail))
  }

  lemma SameIsStable(a: Rows, b: Rows, facts: Facts, step: Step)
    requires Full(a) && Full(b) && SameForStep(a, b, step) && Stable(a, facts, step)
    ensures Stable(b, facts, step)
  {
  }

  /** A step's place in the order. */
  function Place(step: Step): nat {
    match step
    case Created => 0
    case Verified => 1
    case Tenant => 2
    case Claim => 3
    case Server => 4
    case SiteStep => 5
    case Configure => 6
    case SiteDomain => 7
    case MailDomain => 8
    case MailRecords => 9
    case MailVerified => 10
    case Invite => 11
    case CompletedStep => 12
  }

  lemma PlaceIs(step: Step)
    ensures Place(step) < |STEPS| && STEPS[Place(step)] == step
    ensures Prerequisite(step).Some? ==> Place(Prerequisite(step).value) < Place(step)
  {
  }

  lemma PlaceOf(i: nat)
    requires i < |STEPS|
    ensures Place(STEPS[i]) == i
  {
  }

  lemma StepBecomesStable(rows: Rows, facts: Facts, step: Step, now: int)
    requires Full(rows) && SyncStep(rows, facts, step, now).Ok?
    ensures var next := SyncStep(rows, facts, step, now).value;
            && Full(next) && Stable(next, facts, step)
            && forall other: Step | other != step :: next[other] == rows[other]
  {
    hide Holds, Summary, WaitingReason;
    PlaceIs(step);
  }

  lemma {:induction false} SyncMakesStable(rows: Rows, facts: Facts, i: nat, now: int)
    requires Full(rows) && i <= |STEPS| && SyncFrom(rows, facts, i, now).Ok?
    requires forall step: Step | Place(step) < i :: Stable(rows, facts, step)
    ensures var after := SyncFrom(rows, facts, i, now).value;
            Full(after) && forall step: Step :: Stable(after, facts, step)
    decreases |STEPS| - i
  {
    hide SyncStep, Stable;
    if i < |STEPS| {
      assert SyncStep(rows, facts, STEPS[i], now).Ok?;
      var next := SyncStep(rows, facts, STEPS[i], now).value;
      PlaceOf(i);
      StepBecomesStable(rows, facts, STEPS[i], now);
      forall step: Step | Place(step) < i + 1 ensures Stable(next, facts, step) {
        PlaceIs(step);
        if Place(step) < i {
          SameIsStable(rows, next, facts, step);
        }
      }
      SyncMakesStable(next, facts, i + 1, now);
    } else {
      forall step: Step ensures Stable(rows, facts, step) {
        PlaceIs(step);
      }
    }
  }

  lemma {:induction false} StableSyncIsNothing(rows: Rows, facts: Facts, i: nat, now: int)
    requires Full(rows) && i <= |STEPS| && forall step: Step :: Stable(rows, facts, step)
    ensures SyncFrom(rows, facts, i, now) == Ok(rows)
    decreases |STEPS| - i
  {
    hide GetStatus;
    if i < |STEPS| {
      assert Stable(rows, facts, STEPS[i]);
      StableSyncIsNothing(rows, facts, i + 1, now);
    }
  }

  /** A second sync on unchanged records changes nothing: one pass in the steps' order reaches what
      the records say. */
  lemma SecondSyncChangesNothing(rows: Rows, facts: Facts, now: int, later: int)
    requires Full(rows) && Synced(rows, facts, now).Ok?
    ensures var after := Synced(rows, facts, now).value; Full(after) && Synced(after, facts, later) == Ok(after)
  {
    SyncMakesStable(rows, facts, 0, now);
    StableSyncIsNothing(Synced(rows, facts, now).value, facts, 0, later);
  }

  /** What the rows of a sync say of a step that is not done: it is pending exactly while its prerequisite
      is not done; else the records give no reason to skip it and do not hold yet, and it shows as
      failed exactly when the request failed or expired. */
  lemma NotDoneMeans(rows: Rows, facts: Facts, now: int, step: Step)
    requires Full(rows) && Synced(rows, facts, now).Ok?
    ensures var after := Synced(rows, facts, now).value;
            Full(after) && (!after[step].IsDone() ==>
              var waits := Prerequisite(step).Some? && !after[Prerequisite(step).value].IsDone();
              && (after[step].status == Pending <==> waits)
              && (!waits ==>
                    && SkipReason(after, facts, step) == Ok(None) && Holds(facts, step) == Ok(false)
                    && (after[step].status == Failed <==> facts.status == "Failed" || facts.status == "Expired")))
  {
    hide GetStatus, SyncFrom;
    SyncMakesStable(rows, facts, 0, now);
    var after := Synced(rows, facts, now).value;
    if !after[step].IsDone() {
      StableMeans(after, facts, step);
    }
  }

  lemma StableMeans(rows: Rows, facts: Facts, step: Step)
    requires Full(rows) && Stable(rows, facts, step) && !rows[step].IsDone()
    ensures var waits := Prerequisite(step).Some? && !rows[Prerequisite(step).value].IsDone();
            && (rows[step].status == Pending <==> waits)
            && (!waits ==>
                  && SkipReason(rows, facts, step) == Ok(None) && Holds(facts, step) == Ok(false)
                  && (rows[step].status == Failed <==> facts.status == "Failed" || facts.status == "Expired"))
  {
    hide SkipReason, Holds, WaitingReason, Summary, Prerequisite;
  }

  // --- what each row says --------------------------------------------------------------------------

  /** The step before it is not done. */
  predicate Waits(rows: Rows, step: Step)
    requires Full(rows)
  {
    || (step == Verified && !rows[Created].IsDone())
    || (step == Tenant && !rows[Verified].IsDone())
    || (step == Claim && !rows[Tenant].IsDone())
    || (step == Server && !rows[Claim].IsDone())
    || (step == SiteStep && !rows[Server].IsDone())
    || (step == Configure && !rows[SiteStep].IsDone())
    || (step == SiteDomain && !rows[Configure].IsDone())
    || (step == MailDomain && !rows[Configure].IsDone())
    || (step == MailRecords && !rows[MailDomain].IsDone())
    || (step == MailVerified && !rows[MailRecords].IsDone())
    || (step == Invite && !rows[MailVerified].IsDone())
    || (step == CompletedStep && !rows[Invite].IsDone())
  }

  /** The site is older than the request's search for one, or it gets no domain, now or ever. */
  predicate IsSkipped(rows: Rows, site: Site, step: Step)
    requires Full(rows)
  {
    || ((step == Server || step == SiteStep)
        && rows[Claim].startedAt.Some? && site.creation < rows[Claim].startedAt.value)
    || (step == SiteDomain && !(site.assignSiteDomain && site.siteDomain != "" && site.followUpSkipReason == ""))
  }

  /** The record that says the step is done. */
  predicate SaysDone(facts: Facts, step: Step) {
    || step == Created
    || (step == Verified && facts.status !in {"Pending", "Expired"})
    || (step == Tenant && facts.tenant)
    || (step == Claim && facts.site.Some?)
    || (step == CompletedStep && facts.status == "Completed")
    || (facts.site.Some? && SiteSaysDone(facts.site.value, step))
  }

  predicate SiteSaysDone(site: Site, step: Step) {
    || (step == Server && site.virtualMachine != "")
    || (step == SiteStep && site.siteCreated)
    || (step == Configure && site.activated)
    || (step == SiteDomain && site.hasSiteDomain)
    || (step == MailDomain && site.mailDomain != "")
    || (step == MailRecords && site.recordsPublished)
    || (step == MailVerified && site.mailIsLive)
    || (step == Invite && site.ownerInvite != "")
  }

  /** What a completed row shows, if anything. */
  predicate ShowsWhenDone(facts: Facts, step: Step, detail: Option<string>) {
    && (step == Tenant ==> detail == Some("Label " + facts.siteLabel))
    && (step in {Created, Verified, Configure, MailRecords, MailVerified, CompletedStep} ==> detail == None)
    && (facts.site.Some? ==>
          var site := facts.site.value;
          && (step == Claim ==> detail == Some("Suite Site " + site.name))
          && (step == Server ==> detail == Some("Virtual Machine " + site.virtualMachine))
          && (step == SiteStep && site.hostname != "" ==> detail == Some(site.hostname))
          && (step == SiteDomain && site.primarySkipped.None? && site.siteDomain != "" ==>
                detail == Some(site.siteDomain))
          && (step == SiteDomain && site.primarySkipped.Some? && site.primarySkipped.value != "" ==>
                detail == site.primarySkipped)
          && (step == MailDomain && site.mailDomain != "" ==> detail == Some(site.mailDomain))
          && (step == Invite && site.loginEmail != "" ==> detail == Some(site.loginEmail)))
  }

  /** An error that is a follow-up's shows on that follow-up's steps only, any other on every step. */
  predicate IsShownOn(error: string, step: Step) {
    && (StartsWith(error, "Site domain:") ==> step == SiteDomain)
    && (StartsWith(error, "Mail:") ==> step == MailDomain || step == MailRecords || step == MailVerified)
    && (StartsWith(error, "Owner invite:") ==> step == Invite)
  }

  /** After a sync every row says what the records say: a row that was done keeps what it said; any other
      is pending while the step before it is not done, skipped where the site makes it needless, completed
      where its record says so, failed with the request, and running otherwise. */
  lemma RowSays(rows: Rows, facts: Facts, now: int, step: Step)
    requires Full(rows) && Synced(rows, facts, now).Ok?
    ensures var after := Synced(rows, facts, now).value;
            Full(after) &&
            var row := after[step];
            if rows[step].IsDone() then row == rows[step]
            else if Waits(after, step) then row.status == Pending && row.detail == None
            else if facts.site.Some? && IsSkipped(after, facts.site.value, step) then row.status == Skipped
            else if SaysDone(facts, step) then row.status == Completed && ShowsWhenDone(facts, step, row.detail)
            else if facts.status in {"Failed", "Expired"} then
              && row.status == Failed
              && (facts.status == "Failed" && facts.error != "" ==> row.detail == Some(facts.error))
            else
              && row.status == Running
              && (step == Verified ==> row.detail == Some("Waiting for the code mailed to " + facts.email + "."))
              && (step != Verified && facts.site.Some? && facts.site.value.error != "" ==>
                    row.detail ==
                    if IsShownOn(facts.site.value.error, step) then Some(facts.site.value.error) else None)
  {
    hide GetStatus, SyncFrom, Waits, IsSkipped, SaysDone, IsShownOn, ShowsWhenDone;
    SyncIsFull(rows, facts, 0, now);
    SyncKeepsDone(rows, facts, 0, now);
    if !rows[step].IsDone() {
      PlaceIs(step);
      var read := ReadWhen(rows, facts, 0, now, step);
      var after := Synced(rows, facts, now).value;
      SameReading(read, after, step);
      ReadingSays(read, facts, step);
    }
  }

  lemma {:induction false} LaterStepsKeep(rows: Rows, facts: Facts, i: nat, now: int, step: Step)
    requires Full(rows) && i <= |STEPS| && SyncFrom(rows, facts, i, now).Ok? && Place(step) < i
    ensures Full(SyncFrom(rows, facts, i, now).value) && SyncFrom(rows, facts, i, now).value[step] == rows[step]
    decreases |STEPS| - i
  {
    hide GetStatus;
    if i < |STEPS| {
      PlaceOf(i);
      LaterStepsKeep(SyncStep(rows, facts, STEPS[i], now).value, facts, i + 1, now, step);
    }
  }

  /** The rows when the sync came to the step: the earlier ones are as the sync leaves them, and the step's
      own becomes what they and the records say. */
  lemma {:induction false} ReadWhen(rows: Rows, facts: Facts, i: nat, now: int, step: Step) returns (read: Rows)
    requires Full(rows) && i <= Place(step) < |STEPS| && SyncFrom(rows, facts, i, now).Ok?
    ensures Full(read) && read[step] == rows[step] && GetStatus(read, facts, step).Ok?
    ensures var after := SyncFrom(rows, facts, i, now).value;
            && Full(after) && GetStatus(read, facts, step).value == (after[step].status, after[step].detail)
            && forall other: Step | Place(other) < Place(step) :: after[other] == read[other]
    decreases |STEPS| - i
  {
    hide GetStatus, SyncStep;
    PlaceOf(i);
    PlaceIs(step);
    assert SyncStep(rows, facts, STEPS[i], now).Ok?;
    var next := SyncStep(rows, facts, STEPS[i], now).value;
    StepChanges(rows, facts, STEPS[i], now);
    SyncIsFull(next, facts, i + 1, now);
    if i == Place(step) {
      read := rows;
      forall other: Step | Place(other) <= Place(step)
        ensures SyncFrom(next, facts, i + 1, now).value[other] == next[other]
      {
        LaterStepsKeep(next, facts, i + 1, now, other);
      }
    } else {
      read := ReadWhen(next, facts, i + 1, now, step);
    }
  }

  lemma StepChanges(rows: Rows, facts: Facts, step: Step, now: int)
    requires Full(rows) && SyncStep(rows, facts, step, now).Ok?
    ensures var next := SyncStep(rows, facts, step, now).value;
            && Full(next) && GetStatus(rows, facts, step) == Ok((next[step].status, next[step].detail))
            && forall other: Step | other != step :: next[other] == rows[other]
  {
    hide GetStatus;
  }

  lemma SameReading(a: Rows, b: Rows, step: Step)
    requires Full(a) && Full(b) && forall other: Step | Place(other) < Place(step) :: a[other] == b[other]
    ensures Waits(a, step) <==> Waits(b, step)
    ensures forall site: Site :: IsSkipped(a, site, step) <==> IsSkipped(b, site, step)
  {
  }

  lemma ReadingSays(rows: Rows, facts: Facts, step: Step)
    requires Full(rows) && !rows[step].IsDone() && GetStatus(rows, facts, step).Ok?
    ensures var (status, detail) := GetStatus(rows, facts, step).value;
            if Waits(rows, step) then status == Pending && detail == None
            else if facts.site.Some? && IsSkipped(rows, facts.site.value, step) then status == Skipped
            else if SaysDone(facts, step) then status == Completed && ShowsWhenDone(facts, step, detail)
            else if facts.status in {"Failed", "Expired"} then
              && status == Failed
              && (facts.status == "Failed" && facts.error != "" ==> detail == Some(facts.error))
            else
              && status == Running
              && (step == Verified ==> detail == Some("Waiting for the code mailed to " + facts.email + "."))
              && (step != Verified && facts.site.Some? && facts.site.value.error != "" ==>
                    detail == if IsShownOn(facts.site.value.error, step) then Some(facts.site.value.error) else None)
  {
    hide Summary, IsShownOn, WaitingReason, Waits, SkipReason, Holds, IsSkipped, SaysDone, ShowsWhenDone;
    SummaryShows(facts, step);
    WaitsForCode(facts);
    WaitsIs(rows, step);
    if SkipReason(rows, facts, step).Ok? {
      SkipsWhen(rows, facts, step);
    }
    if Holds(facts, step).Ok? {
      HoldsWhen(facts, step);
    }
    if facts.site.Some? && facts.site.value.error != "" && step != Verified {
      ShownWhen(facts, step);
    }
  }

  lemma SummaryShows(facts: Facts, step: Step)
    ensures ShowsWhenDone(facts, step, Summary(facts, step))
  {
  }

  lemma WaitsForCode(facts: Facts)
    ensures WaitingReason(facts, Verified) == Some("Waiting for the code mailed to " + facts.email + ".")
  {
  }

  lemma WaitsIs(rows: Rows, step: Step)
    requires Full(rows)
    ensures Waits(rows, step) <==> Prerequisite(step).Some? && !rows[Prerequisite(step).value].IsDone()
  {
  }

  lemma SkipsWhen(rows: Rows, facts: Facts, step: Step)
    requires Full(rows) && SkipReason(rows, facts, step).Ok?
    ensures SkipReason(rows, facts, step).value.Some? <==> facts.site.Some? && IsSkipped(rows, facts.site.value, step)
  {
  }

  lemma HoldsWhen(facts: Facts, step: Step)
    requires Holds(facts, step).Ok?
    ensures Holds(facts, step).value <==> SaysDone(facts, step)
  {
  }

  lemma ShownWhen(facts: Facts, step: Step)
    requires facts.site.Some? && facts.site.value.error != "" && step != Verified
    ensures WaitingReason(facts, step) ==
            if IsShownOn(facts.site.value.error, step) then Some(facts.site.value.error) else None
  {
    var error := facts.site.value.error;
    assert LABELS[0] + ":" == "Site domain:" && LABELS[1] + ":" == "Mail:" && LABELS[2] + ":" == "Owner invite:";
    assert FollowUp(step) == Some(LABELS[0]) <==> step == SiteDomain;
    assert FollowUp(step) == Some(LABELS[1]) <==> step == MailDomain || step == MailRecords || step == MailVerified;
    assert FollowUp(step) == Some(LABELS[2]) <==> step == Invite;
  }

  /** A sync raises for a step if and only if the step is due and its record is gone: the site's for those
      that read it, the mail domain's for the two that ask for its records. */
  lemma RaisesExactly(rows: Rows, facts: Facts, step: Step)
    requires Full(rows)
    ensures var due := !rows[step].IsDone() && !Waits(rows, step);
            && (GetStatus(rows, facts, step) == Err(NoSite) <==>
                  due && facts.site.None? && step !in {Created, Verified, Tenant, Claim, CompletedStep})
            && (GetStatus(rows, facts, step) == Err(NoMailDomain) <==>
                  due && facts.site.Some? && facts.site.value.mailDomain == "" && step in {MailRecords, MailVerified})
  {
    hide Summary, WaitingReason;
    WaitsIs(rows, step);
  }

  // --- times -----------------------------------------------------------------------------------

  /** A row that ran to an end knows how long; one that runs knows since when. */
  predicate TimesOk(row: Row) {
    && (row.status == Running ==> row.startedAt.Some? && row.endedAt == None && row.duration == None)
    && (row.status == Completed || row.status == Failed ==>
          && row.startedAt.Some? && row.endedAt.Some?
          && row.duration == Some(row.endedAt.value - row.startedAt.value))
  }

  /** A step that has started keeps its first start, however often it fails and runs again. */
  predicate KeepsTimes(before: Rows, after: Rows)
    requires Full(before) && Full(after)
  {
    && (forall step: Step | before[step].startedAt.Some? :: after[step].startedAt == before[step].startedAt)
    && ((forall step: Step :: TimesOk(before[step])) ==> forall step: Step :: TimesOk(after[step]))
  }

  lemma {:induction false} SyncKeepsTimes(rows: Rows, facts: Facts, i: nat, now: int)
    requires Full(rows) && i <= |STEPS| && SyncFrom(rows, facts, i, now).Ok?
    ensures Full(SyncFrom(rows, facts, i, now).value) && KeepsTimes(rows, SyncFrom(rows, facts, i, now).value)
    decreases |STEPS| - i
  {
    hide GetStatus, SyncStep, KeepsTimes;
    if i == |STEPS| {
      NothingKeepsTimes(rows);
    } else {
      assert SyncStep(rows, facts, STEPS[i], now).Ok?;
      var next := SyncStep(rows, facts, STEPS[i], now).value;
      StepKeepsTimes(rows, facts, STEPS[i], now);
      SyncKeepsTimes(next, facts, i + 1, now);
      KeepsTimesTwice(rows, next, SyncFrom(rows, facts, i, now).value);
    }
  }

  lemma NothingKeepsTimes(rows: Rows)
    requires Full(rows)
    ensures KeepsTimes(rows, rows)
  {
  }

  lemma KeepsTimesTwice(a: Rows, b: Rows, c: Rows)
    requires Full(a) && Full(b) && Full(c) && KeepsTimes(a, b) && KeepsTimes(b, c)
    ensures KeepsTimes(a, c)
  {
    hide TimesOk;
  }

  lemma SavedKeepsTimes(row: Row, status: Status, detail: Option<string>, now: int)
    ensures var after := Saved(row, status, detail, now);
            && (row.startedAt.Some? ==> after.startedAt == row.startedAt)
            && (TimesOk(row) ==> TimesOk(after))
  {
  }

  lemma StepKeepsTimes(rows: Rows, facts: Facts, step: Step, now: int)
    requires Full(rows) && SyncStep(rows, facts, step, now).Ok?
    ensures Full(SyncStep(rows, facts, step, now).value) && KeepsTimes(rows, SyncStep(rows, facts, step, now).value)
  {
    hide GetStatus, TimesOk, Saved;
    var (status, detail) := GetStatus(rows, facts, step).value;
    SavedKeepsTimes(rows[step], status, detail, now);
  }

  lemma {:induction false} TimesStayRight(rows: Rows, syncs: seq<(Facts, int)>)
    requires Full(rows)
    ensures Full(AfterSyncs(rows, syncs)) && KeepsTimes(rows, AfterSyncs(rows, syncs))
    decreases |syncs|
  {
    hide SyncStep, TimesOk;
    if syncs != [] {
      var result := Synced(rows, syncs[0].0, syncs[0].1);
      if result.Ok? {
        SyncKeepsTimes(rows, syncs[0].0, 0, syncs[0].1);
        TimesStayRight(result.value, syncs[1..]);
      } else {
        TimesStayRight(rows, syncs[1..]);
      }
    }
  }
}
