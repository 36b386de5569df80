/** The account decisions of src/oauth/brain/identityEngine.ts over the Redis adapter.

    `resolveOAuth` is a chain of adapter calls.  Between any two Redis commands of one
    client every other client may run, so a run is an arbitrary list of events and a
    theorem about every run is a theorem about every interleaving. */
module IdentityEngine {
  import opened Options
  import opened IdentityStore
  import opened IdentityMemory

  datatype Policy = Policy(autoLinkOnVerifiedEmailMatch: bool, allowUnverifiedAutoLink: bool)

  const MANUAL_ONLY := Policy(false, false)

  predicate CanAutoLink(emailVerified: bool, policy: Policy) {
    (emailVerified && policy.autoLinkOnVerifiedEmailMatch) || (!emailVerified && policy.allowUnverifiedAutoLink)
  }

  /** One `resolveOAuth` request after validation of its arguments. */
  datatype Request = Request(email: Email, p: Provider, emailVerified: bool, linkMode: bool, userId: Option<UserId>)

  /** Which adapter call the engine is waiting for. */
  datatype Stage =
    | FindingOwner
    | FindingTarget(existing: Option<User>)
    | Linking(target: User)
    | Confirming(target: User)
    | FindingEmail
    | Creating
    | AutoLinking(user: User)
    | AutoConfirming(user: User)

  datatype Reason = AdapterThrew(failure: Failure) | ProviderMismatch | EmailMismatch | VerificationFailed | InvalidReply

  /** `LoggedIn` and `UserCreated` are the two results that carry tokens. */
  datatype Result =
    | LoggedIn(user: User)
    | UserCreated(user: User)
    | ProviderLinked(user: User)
    | LinkRequired
    | InvalidLinkRequest
    | Threw(reason: Reason)

  datatype Next = Ask(stage: Stage, call: Call) | Return(result: Result)

  function LinkForLogin(policy: Policy, r: Request, user: User): Next {
    if !CanAutoLink(r.emailVerified, policy) then Return(LinkRequired)
    else Ask(AutoLinking(user), Link(user.id, r.p))
  }

  function AfterOwner(r: Request, found: Option<User>): Next {
    if found.Some? && r.p !in found.value.providers then Return(Threw(ProviderMismatch))
    else if r.linkMode then
      if r.userId.None? then Return(InvalidLinkRequest)
      else Ask(FindingTarget(found), FindById(r.userId.value))
    else if found.Some? then Return(LoggedIn(found.value))
    else Ask(FindingEmail, FindByEmail(r.email))
  }

  function AfterTarget(r: Request, existing: Option<User>, found: Option<User>): Next {
    if found.None? || r.userId != Some(found.value.id) then Return(InvalidLinkRequest)
    else
      var target := found.value;
      if existing.Some? && existing.value.id != target.id then Return(InvalidLinkRequest)
      else if existing.None? then Ask(Linking(target), Link(target.id, r.p))
      else Ask(Confirming(target), FindById(target.id))
  }

  function AfterEmail(policy: Policy, r: Request, found: Option<User>, uuid: UserId): Next {
    if found.None? then Ask(Creating, Create(r.email, r.p, uuid))
    else if found.value.email != r.email then Return(Threw(EmailMismatch))
    else LinkForLogin(policy, r, found.value)
  }

  function AfterCreate(policy: Policy, r: Request, reply: CreateReply, user: User): Next {
    match reply
    case ExistingProvider(_) =>
      Return(if r.p in user.providers then LoggedIn(user) else Threw(ProviderMismatch))
    case ExistingEmail(_) =>
      if user.email != r.email then Return(Threw(EmailMismatch)) else LinkForLogin(policy, r, user)
    case Created =>
      Return(if user.email != r.email then Threw(EmailMismatch)
             else if r.p !in user.providers then Threw(ProviderMismatch)
             else UserCreated(user))
  }

  function AfterAutoConfirm(r: Request, user: User, found: Option<User>): Result {
    if found.None? || r.p !in found.value.providers then Threw(ProviderMismatch)
    else if found.value.id != user.id then Threw(VerificationFailed)
    else LoggedIn(found.value)
  }

  /** What the engine does with the answer to the call it was waiting for. */
  function Resume(policy: Policy, r: Request, stage: Stage, outcome: Outcome, uuid: UserId): Next {
    match (stage, outcome)
    case (_, Failed(f)) => Return(Threw(AdapterThrew(f)))
    case (FindingOwner, Found(found)) => AfterOwner(r, found)
    case (FindingTarget(existing), Found(found)) => AfterTarget(r, existing, found)
    case (Linking(target), LinkDone) => Ask(Confirming(target), FindById(target.id))
    case (Confirming(target), Found(found)) =>
      Return(if found.None? || r.p !in found.value.providers then Threw(VerificationFailed)
             else ProviderLinked(found.value))
    case (FindingEmail, Found(found)) => AfterEmail(policy, r, found, uuid)
    case (Creating, CreateResult(reply, user)) => AfterCreate(policy, r, reply, user)
    case (AutoLinking(user), LinkDone) => Ask(AutoConfirming(user), FindByProvider(r.p))
    case (AutoConfirming(user), Found(found)) => Return(AfterAutoConfirm(r, user, found))
    case _ => Return(Threw(InvalidReply))
  }

  // ----- the interleaving machine -----

  datatype Task = Direct | Engine(request: Request, stage: Stage)
  datatype Client = Busy(task: Task, pc: Pc) | Finished(request: Request, result: Result)

  datatype Machine = Machine(policy: Policy, db: Db, issued: set<UserId>, clients: map<nat, Client>)

  /** An event that is not enabled leaves the machine as it is.  A `Step` carries the id that
      `randomUUID` would draw, which no earlier draw produced.  `Vanish` is a client whose
      audit sink or token service throws, or that crashes, at any point. */
  datatype Event =
    | BeginDirect(client: nat, call: Call)
    | BeginEngine(client: nat, request: Request)
    | Step(client: nat, uuid: UserId)
    | Vanish(client: nat)

  function Launch(m: Machine, c: nat, task: Task, call: Call): Machine {
    if call.Create? && call.freshId in m.issued then m
    else m.(clients := m.clients[c := Busy(task, Start(call))],
            issued := if call.Create? then m.issued + {call.freshId} else m.issued)
  }

  /** Client c has executed one command and now stands at `pc`; a waiting engine reacts. */
  function Continue(m: Machine, c: nat, task: Task, pc: Pc, uuid: UserId): Machine {
    if task.Direct? || !pc.Done? then m.(clients := m.clients[c := Busy(task, pc)])
    else
      match Resume(m.policy, task.request, task.stage, pc.outcome, uuid)
      case Return(result) => m.(clients := m.clients[c := Finished(task.request, result)])
      case Ask(stage, call) => Launch(m, c, Engine(task.request, stage), call)
  }

  function StepClient(m: Machine, c: nat, uuid: UserId): Machine
    requires c in m.clients && m.clients[c].Busy?
  {
    var Busy(task, pc) := m.clients[c];
    if pc.Done? then m
    else var (db', pc') := Advance(m.db, pc); Continue(m.(db := db'), c, task, pc', uuid)
  }

  function Apply(m: Machine, e: Event): Machine {
    match e
    case BeginDirect(c, call) => if c in m.clients then m else Launch(m, c, Direct, call)
    case BeginEngine(c, r) =>
      if c in m.clients then m else Launch(m, c, Engine(r, FindingOwner), FindByProvider(r.p))
    case Step(c, uuid) =>
      if c in m.clients && m.clients[c].Busy? && uuid !in m.issued then StepClient(m, c, uuid) else m
    case Vanish(c) => m.(clients := m.clients - {c})
  }

  function Run(policy: Policy, events: seq<Event>): Machine {
    if events == [] then Machine(policy, EMPTY_DB, {}, map[])
    else Apply(Run(policy, events[..|events| - 1]), events[|events| - 1])
  }

  // ----- the invariant -----

  /** The flag that the operator set for logins with, or without, a verified email. */
  predicate AutoLinkAllowed(policy: Policy, r: Request) {
    if r.emailVerified then policy.autoLinkOnVerifiedEmailMatch else policy.allowUnverifiedAutoLink
  }

  ghost predicate StageFits(policy: Policy, db: Db, task: Task, call: Call) {
    match task
    case Direct => true
    case Engine(r, stage) =>
      match stage
      case FindingOwner => call == FindByProvider(r.p)
      case FindingTarget(existing) =>
        && r.linkMode && r.userId.Some? && call == FindById(r.userId.value)
        && (existing.Some? ==> OwnedBy(db, existing.value.id, r.p))
      case Linking(t) => r.linkMode && r.userId == Some(t.id) && call == Link(t.id, r.p)
      case Confirming(t) => r.linkMode && r.userId == Some(t.id) && call == FindById(t.id) && OwnedBy(db, t.id, r.p)
      case FindingEmail => !r.linkMode && call == FindByEmail(r.email)
      case Creating => !r.linkMode && call.Create? && call.email == r.email && call.p == r.p
      case AutoLinking(u) =>
        && !r.linkMode && call == Link(u.id, r.p) && AutoLinkAllowed(policy, r)
        && u.id in db.users && db.users[u.id].email == r.email
      case AutoConfirming(u) => !r.linkMode && call == FindByProvider(r.p) && OwnedBy(db, u.id, r.p)
  }

  ghost predicate ResultFits(policy: Policy, db: Db, r: Request, result: Result) {
    match result
    case LoggedIn(u) => !r.linkMode && OwnedBy(db, u.id, r.p)
    case UserCreated(u) => !r.linkMode && OwnedBy(db, u.id, r.p) && u.email == r.email
    case ProviderLinked(u) => r.linkMode && r.userId == Some(u.id) && OwnedBy(db, u.id, r.p)
    case LinkRequired => !r.linkMode && !AutoLinkAllowed(policy, r)
    case InvalidLinkRequest => r.linkMode
    case Threw(reason) => reason.AdapterThrew? && !IsIntegrityThrow(reason.failure)
  }

  ghost predicate ClientFits(policy: Policy, db: Db, client: Client) {
    match client
    case Busy(task, pc) => Knows(db, pc) && StageFits(policy, db, task, CallOf(pc)) && (task.Engine? ==> !pc.Done?)
    case Finished(r, result) => ResultFits(policy, db, r, result)
  }

  predicate Reserves(client: Client, id: UserId) {
    client.Busy? && client.pc.Start? && client.pc.call.Create? && client.pc.call.freshId == id
  }

  ghost predicate Sound(m: Machine) {
    && IndexesAgree(m.db)
    && m.db.users.Keys <= m.issued
    && (forall c <- m.clients :: ClientFits(m.policy, m.db, m.clients[c]))
    && ReservationsApart(m)
  }

  /** Ids drawn for accounts not yet written are unused and pairwise different. */
  ghost predicate ReservationsApart(m: Machine) {
    && (forall c <- m.clients, id | Reserves(m.clients[c], id) :: id in m.issued)
    && (forall c <- m.clients, d <- m.clients, id | Reserves(m.clients[c], id) && Reserves(m.clients[d], id) :: c == d)
  }

  // ----- keeping it -----

  lemma OwnedByStable(db: Db, db': Db, id: UserId, p: Provider)
    requires OwnedBy(db, id, p) && Extends(db, db')
    ensures OwnedBy(db', id, p)
  {
  }

  lemma ClientFitsStable(policy: Policy, db: Db, db': Db, client: Client)
    requires ClientFits(policy, db, client) && Extends(db, db')
    requires forall id | Reserves(client, id) :: id !in db'.users
    ensures ClientFits(policy, db', client)
  {
  }

  /** What an answer says about the store at the very moment it is given. */
  ghost predicate Current(db: Db, call: Call, outcome: Outcome) {
    match outcome
    case Found(Some(u)) => u.id in db.users && db.users[u.id] == u
    case Found(None) =>
      (match call
       case FindById(id) => id !in db.users
       case FindByEmail(e) => e !in db.emails
       case FindByProvider(p) => p !in db.owners
       case _ => true)
    case _ => true
  }

  lemma AdvanceIsCurrent(db: Db, pc: Pc)
    requires IndexesAgree(db) && Knows(db, pc) && !pc.Done?
    ensures var (db', pc') := Advance(db, pc);
            CallOf(pc') == CallOf(pc) && (pc'.Done? ==> Current(db', CallOf(pc), pc'.outcome))
  {
    hide EmailsAgree, OwnersAgree, Grew, ValidUser;
  }

  /** The engine's next call or result is the right one, given a sound answer. */
  lemma ResumeFits(policy: Policy, db: Db, r: Request, stage: Stage, call: Call, outcome: Outcome, uuid: UserId)
    requires IndexesAgree(db) && Settled(db, call, outcome) && Current(db, call, outcome)
    requires StageFits(policy, db, Engine(r, stage), call)
    ensures match Resume(policy, r, stage, outcome, uuid)
            case Return(result) => ResultFits(policy, db, r, result)
            case Ask(stage', call') =>
              && StageFits(policy, db, Engine(r, stage'), call')
              && (call'.Create? ==> call'.freshId == uuid)
  {
    hide EmailsAgree, RecordsValid, ValidUser, IndexedEmail;
    match stage
    case Confirming(t) => assert r.p in db.users[t.id].providers;
    case AutoConfirming(u) => assert r.p in db.users[u.id].providers;
    case _ =>
  }

  lemma LaunchSound(m: Machine, c: nat, task: Task, call: Call)
    requires Sound(m.(clients := m.clients - {c})) && StageFits(m.policy, m.db, task, call)
    requires call.Create? ==> call.freshId !in m.issued
    ensures Sound(Launch(m, c, task, call))
  {
    var rest, m' := m.(clients := m.clients - {c}), Launch(m, c, task, call);
    forall d <- m'.clients ensures ClientFits(m'.policy, m'.db, m'.clients[d]) {
      if d != c { assert ClientFits(rest.policy, rest.db, rest.clients[d]); }
    }
    LaunchApart(m, c, task, call);
  }

  lemma LaunchApart(m: Machine, c: nat, task: Task, call: Call)
    requires ReservationsApart(m.(clients := m.clients - {c}))
    requires call.Create? ==> call.freshId !in m.issued
    ensures ReservationsApart(Launch(m, c, task, call))
  {
    var rest, m' := m.(clients := m.clients - {c}), Launch(m, c, task, call);
    forall d <- m'.clients, id | Reserves(m'.clients[d], id) ensures id in m'.issued {
      if d != c { assert d in rest.clients && Reserves(rest.clients[d], id); }
    }
    forall d <- m'.clients, x <- m'.clients, id | Reserves(m'.clients[d], id) && Reserves(m'.clients[x], id)
      ensures d == x
    {
      if d != c { assert d in rest.clients && Reserves(rest.clients[d], id); }
      if x != c { assert x in rest.clients && Reserves(rest.clients[x], id); }
    }
  }

  /** After one command of client c every other client still fits. */
  lemma OthersStaySound(m: Machine, c: nat)
    requires Sound(m) && c in m.clients && m.clients[c].Busy?
    ensures Extends(m.db, Advance(m.db, m.clients[c].pc).0)
    ensures Sound(m.(db := Advance(m.db, m.clients[c].pc).0, clients := m.clients - {c}))
  {
    var pc := m.clients[c].pc;
    assert ClientFits(m.policy, m.db, m.clients[c]);
    var (db', _) := Advance(m.db, pc);
    AdvanceKeeps(m.db, pc);
    var rest := m.(db := db', clients := m.clients - {c});
    forall id <- db'.users ensures id in m.issued {
      AdvanceCreatesOnlyFresh(m.db, pc, id);
      if id !in m.db.users { assert Reserves(m.clients[c], id); }
    }
    forall d <- rest.clients ensures ClientFits(m.policy, db', rest.clients[d]) {
      forall id | Reserves(m.clients[d], id) ensures id !in db'.users {
        assert ClientFits(m.policy, m.db, m.clients[d]);
        AdvanceCreatesOnlyFresh(m.db, pc, id);
        assert Reserves(m.clients[c], id) ==> c == d;
      }
      ClientFitsStable(m.policy, m.db, db', m.clients[d]);
    }
  }

  lemma RejoinSound(m: Machine, c: nat, client: Client)
    requires Sound(m.(clients := m.clients - {c}))
    requires ClientFits(m.policy, m.db, client) && forall id :: !Reserves(client, id)
    ensures Sound(m.(clients := m.clients[c := client]))
  {
    var rest, m' := m.(clients := m.clients - {c}), m.(clients := m.clients[c := client]);
    forall d <- m'.clients ensures ClientFits(m'.policy, m'.db, m'.clients[d]) {
      if d != c { assert ClientFits(rest.policy, rest.db, rest.clients[d]); }
    }
    forall d <- m'.clients, id | Reserves(m'.clients[d], id) ensures d in rest.clients && id in m'.issued {
      assert Reserves(rest.clients[d], id);
    }
    forall d <- m'.clients, x <- m'.clients, id | Reserves(m'.clients[d], id) && Reserves(m'.clients[x], id)
      ensures d == x
    {
      assert Reserves(rest.clients[d], id) && Reserves(rest.clients[x], id);
    }
  }

  /** Where a client stands right after a command. */
  ghost predicate Landed(policy: Policy, db: Db, task: Task, pc: Pc) {
    && !pc.Start? && Knows(db, pc) && StageFits(policy, db, task, CallOf(pc))
    && (pc.Done? ==> Current(db, pc.call, pc.outcome))
  }

  lemma ContinueSound(m: Machine, c: nat, task: Task, pc: Pc, uuid: UserId)
    requires Sound(m.(clients := m.clients - {c})) && uuid !in m.issued
    requires Landed(m.policy, m.db, task, pc)
    ensures Sound(Continue(m, c, task, pc, uuid)) && Continue(m, c, task, pc, uuid).db == m.db
  {
    if task.Direct? || !pc.Done? {
      RejoinSound(m, c, Busy(task, pc));
    } else {
      ResumeFits(m.policy, m.db, task.request, task.stage, pc.call, pc.outcome, uuid);
      match Resume(m.policy, task.request, task.stage, pc.outcome, uuid)
      case Return(result) => RejoinSound(m, c, Finished(task.request, result));
      case Ask(stage, call) => LaunchSound(m, c, Engine(task.request, stage), call);
    }
  }

  lemma AdvanceLands(policy: Policy, db: Db, task: Task, pc: Pc)
    requires IndexesAgree(db) && Knows(db, pc) && StageFits(policy, db, task, CallOf(pc)) && !pc.Done?
    ensures Landed(policy, Advance(db, pc).0, task, Advance(db, pc).1)
  {
    hide IndexesAgree;
    AdvanceKeeps(db, pc);
    AdvanceIsCurrent(db, pc);
    StageFitsStable(policy, db, Advance(db, pc).0, task, CallOf(pc));
  }

  lemma StepKeepsSound(m: Machine, c: nat, uuid: UserId)
    requires Sound(m) && c in m.clients && m.clients[c].Busy? && uuid !in m.issued
    ensures Sound(StepClient(m, c, uuid)) && Extends(m.db, StepClient(m, c, uuid).db)
  {
    var Busy(task, pc) := m.clients[c];
    assert ClientFits(m.policy, m.db, m.clients[c]);
    if !pc.Done? {
      OthersStaySound(m, c);
      AdvanceLands(m.policy, m.db, task, pc);
      var (db', pc') := Advance(m.db, pc);
      ContinueSound(m.(db := db'), c, task, pc', uuid);
    }
  }

  lemma StageFitsStable(policy: Policy, db: Db, db': Db, task: Task, call: Call)
    requires StageFits(policy, db, task, call) && Extends(db, db')
    ensures StageFits(policy, db', task, call)
  {
  }

  lemma ApplyKeepsSound(m: Machine, e: Event)
    requires Sound(m)
    ensures Sound(Apply(m, e)) && Extends(m.db, Apply(m, e).db) && Apply(m, e).policy == m.policy
  {
    match e
    case BeginDirect(c, call) =>
      if c !in m.clients && (call.Create? ==> call.freshId !in m.issued) {
        assert m.clients - {c} == m.clients;
        LaunchSound(m, c, Direct, call);
      }
    case BeginEngine(c, r) =>
      if c !in m.clients {
        assert m.clients - {c} == m.clients;
        LaunchSound(m, c, Engine(r, FindingOwner), FindByProvider(r.p));
      }
    case Step(c, uuid) =>
      if c in m.clients && m.clients[c].Busy? && uuid !in m.issued { StepKeepsSound(m, c, uuid); }
    case Vanish(c) =>
  }
}
