/** What the adapter calls and `resolveOAuth` do when nobody else runs, spelled out on the store:
    every reply, every write and every refusal, from any store whose indexes agree. */
module IdentityAlone {
  import opened Options
  import opened IdentityStore
  import opened IdentityEngine

  /** A call by itself: no adapter call needs more than two commands then. */
  function CallAlone(db: Db, call: Call): (Db, Pc) {
    var (db1, pc1) := Advance(db, Start(call));
    Advance(db1, pc1)
  }

  function Lookup<K(==)>(db: Db, index: map<K, UserId>, k: K): Option<User> {
    if k in index && index[k] in db.users then Some(db.users[index[k]]) else None
  }

  /** The record with one provider more, and its owner. */
  function Appended(db: Db, id: UserId, p: Provider): Db
    requires id in db.users
  {
    var u := db.users[id];
    db.(users := db.users[id := User(u.id, u.email, u.role, u.providers + [p])], owners := db.owners[p := id])
  }

  lemma LookupAloneIs(db: Db, call: Call)
    requires IndexesAgree(db) && (call.FindById? || call.FindByEmail? || call.FindByProvider?)
    ensures CallAlone(db, call)
            == (db, Done(call, Found(match call
                                     case FindById(id) => if id in db.users then Some(db.users[id]) else None
                                     case FindByEmail(e) => Lookup(db, db.emails, e)
                                     case FindByProvider(p) => Lookup(db, db.owners, p)
                                     case _ => None)))
  {
    match call
    case FindByEmail(e) => if e in db.emails { assert IndexedEmail(db, db.emails[e], e); }
    case _ =>
  }

  /** A creation returns the owner of the provider, else the holder of the email, else a new
      account with exactly the requested email and provider and no role. */
  lemma CreateAloneIs(db: Db, e: Email, p: Provider, id: UserId)
    requires IndexesAgree(db) && id !in db.users
    ensures var (db', pc) := CallAlone(db, Create(e, p, id));
            pc.Done? && pc.call == Create(e, p, id)
            && if p in db.owners then
                 db' == db && pc.outcome == CreateResult(ExistingProvider(db.owners[p]), db.users[db.owners[p]])
               else if e in db.emails then
                 db' == db && pc.outcome == CreateResult(ExistingEmail(db.emails[e]), db.users[db.emails[e]])
               else
                 && db' == Db(db.users[id := User(id, e, None, [p])], db.emails[e := id], db.owners[p := id])
                 && pc.outcome == CreateResult(Created, User(id, e, None, [p]))
  {
    hide OwnersAgree;
    if p in db.owners {
      OwnerIsStored(db, p);
    } else if e in db.emails {
      assert db.users[db.emails[e]].email == e;
    }
  }

  lemma OwnerIsStored(db: Db, p: Provider)
    requires IndexesAgree(db) && p in db.owners
    ensures db.owners[p] in db.users && p in db.users[db.owners[p]].providers
  {
  }

  /** A link appends the provider, finds it there already, or is refused with nothing changed. */
  lemma LinkAloneIs(db: Db, id: UserId, p: Provider)
    requires IndexesAgree(db)
    ensures CallAlone(db, Link(id, p))
            == if id !in db.users then (db, Done(Link(id, p), Failed(TargetNotFound)))
               else if p in db.users[id].providers then (db, Done(Link(id, p), LinkDone))
               else if |db.users[id].providers| >= 32 then (db, Done(Link(id, p), Failed(LimitExceeded)))
               else if p in db.owners then (db, Done(Link(id, p), Failed(AlreadyLinked)))
               else (Appended(db, id, p), Done(Link(id, p), LinkDone))
  {
    if id in db.users {
      var u := db.users[id];
      assert IndexedEmail(db, id, u.email);
      if p in u.providers {
        assert OwnedBy(db, id, p);
        assert db.users[id := u] == db.users && db.emails[u.email := id] == db.emails && db.owners[p := id] == db.owners;
      } else {
        assert db.emails[u.email := id] == db.emails;
        if p in db.owners { OwnerIsStored(db, p); }
      }
    }
  }

  /** The engine's calls one after the other; None when the fuel runs out first. */
  function Chain(policy: Policy, db: Db, r: Request, stage: Stage, call: Call, uuid: UserId, fuel: nat): (Db, Option<Result>)
    decreases fuel
  {
    if fuel == 0 then (db, None)
    else
      var (db', pc) := CallAlone(db, call);
      if !pc.Done? then (db', None)
      else
        match Resume(policy, r, stage, pc.outcome, uuid)
        case Return(result) => (db', Some(result))
        case Ask(stage', call') => Chain(policy, db', r, stage', call', uuid, fuel - 1)
  }

  /** An authenticated request to link, decided on the store. */
  function LinkModeAnswer(db: Db, r: Request): (Db, Result) {
    if r.userId.None? || r.userId.value !in db.users then (db, InvalidLinkRequest)
    else
      var id := r.userId.value;
      var u := db.users[id];
      if r.p in db.owners && db.owners[r.p] != id then (db, InvalidLinkRequest)
      else if r.p in u.providers then (db, ProviderLinked(u))
      else if |u.providers| >= 32 then (db, Threw(AdapterThrew(LimitExceeded)))
      else (Appended(db, id, r.p), ProviderLinked(Appended(db, id, r.p).users[id]))
  }

  /** A login, decided on the store. */
  function LoginAnswer(policy: Policy, db: Db, r: Request, uuid: UserId): (Db, Result) {
    if r.p in db.owners && db.owners[r.p] in db.users then (db, LoggedIn(db.users[db.owners[r.p]]))
    else if r.email in db.emails && db.emails[r.email] in db.users then
      var id := db.emails[r.email];
      if r.emailVerified && !policy.autoLinkOnVerifiedEmailMatch then (db, LinkRequired)
      else if !r.emailVerified && !policy.allowUnverifiedAutoLink then (db, LinkRequired)
      else if |db.users[id].providers| >= 32 then (db, Threw(AdapterThrew(LimitExceeded)))
      else (Appended(db, id, r.p), LoggedIn(Appended(db, id, r.p).users[id]))
    else
      var u := User(uuid, r.email, None, [r.p]);
      (Db(db.users[uuid := u], db.emails[r.email := uuid], db.owners[r.p := uuid]), UserCreated(u))
  }

  lemma AppendedAgrees(db: Db, id: UserId, p: Provider)
    requires IndexesAgree(db) && id in db.users && p !in db.owners && |db.users[id].providers| < 32
    ensures IndexesAgree(Appended(db, id, p))
  {
    LinkAloneIs(db, id, p);
    NotYetListed(db, db.users[id], p);
    AdvanceKeeps(db, Start(Link(id, p)));
    var (db1, pc1) := Advance(db, Start(Link(id, p)));
    AdvanceKeeps(db1, pc1);
  }

  lemma OneCall(policy: Policy, db: Db, r: Request, stage: Stage, call: Call, uuid: UserId, fuel: nat)
    requires fuel > 0 && CallAlone(db, call).1.Done?
    ensures var (db', pc) := CallAlone(db, call);
            Chain(policy, db, r, stage, call, uuid, fuel)
            == match Resume(policy, r, stage, pc.outcome, uuid)
               case Return(result) => (db', Some(result))
               case Ask(stage', call') => Chain(policy, db', r, stage', call', uuid, fuel - 1)
  {
  }

  lemma LinkChain(policy: Policy, db: Db, r: Request, stage: Stage, u: User, uuid: UserId)
    requires IndexesAgree(db) && u.id in db.users && db.users[u.id] == u && r.p !in db.owners
    requires stage == Linking(u) || stage == AutoLinking(u)
    ensures Chain(policy, db, r, stage, Link(u.id, r.p), uuid, 2)
            == if |u.providers| >= 32 then (db, Some(Threw(AdapterThrew(LimitExceeded))))
               else
                 var db' := Appended(db, u.id, r.p);
                 (db', Some(if stage.Linking? then ProviderLinked(db'.users[u.id]) else LoggedIn(db'.users[u.id])))
  {
    hide CallAlone, Chain, IndexesAgree;
    NotYetListed(db, u, r.p);
    LinkAloneIs(db, u.id, r.p);
    OneCall(policy, db, r, stage, Link(u.id, r.p), uuid, 2);
    if |u.providers| < 32 {
      var db' := Appended(db, u.id, r.p);
      AppendedAgrees(db, u.id, r.p);
      var next := if stage.Linking? then FindById(u.id) else FindByProvider(r.p);
      LookupAloneIs(db', next);
      OneCall(policy, db', r, if stage.Linking? then Confirming(u) else AutoConfirming(u), next, uuid, 1);
    }
  }

  lemma NotYetListed(db: Db, u: User, p: Provider)
    requires IndexesAgree(db) && u.id in db.users && db.users[u.id] == u && p !in db.owners
    ensures p !in u.providers
  {
    assert p in u.providers ==> OwnedBy(db, u.id, p);
  }

  /** Link mode, when nobody interferes. */
  lemma LinkModeAloneIs(policy: Policy, db: Db, r: Request, uuid: UserId)
    requires IndexesAgree(db) && r.linkMode
    ensures Chain(policy, db, r, FindingOwner, FindByProvider(r.p), uuid, 4)
            == (LinkModeAnswer(db, r).0, Some(LinkModeAnswer(db, r).1))
  {
    hide CallAlone, Chain;
    LookupAloneIs(db, FindByProvider(r.p));
    OneCall(policy, db, r, FindingOwner, FindByProvider(r.p), uuid, 4);
    if r.userId.Some? {
      var id := r.userId.value;
      var owner := Lookup(db, db.owners, r.p);
      LookupAloneIs(db, FindById(id));
      OneCall(policy, db, r, FindingTarget(owner), FindById(id), uuid, 3);
      if id in db.users {
        var u := db.users[id];
        if r.p in u.providers { assert OwnedBy(db, id, r.p); }
        if owner.None? {
          LinkChain(policy, db, r, Linking(u), u, uuid);
        } else if owner.value.id == id {
          OneCall(policy, db, r, Confirming(u), FindById(id), uuid, 2);
        }
      }
    }
  }

  /** A login, when nobody interferes. */
  lemma LoginAloneIs(policy: Policy, db: Db, r: Request, uuid: UserId)
    requires IndexesAgree(db) && !r.linkMode && uuid !in db.users
    ensures Chain(policy, db, r, FindingOwner, FindByProvider(r.p), uuid, 4)
            == (LoginAnswer(policy, db, r, uuid).0, Some(LoginAnswer(policy, db, r, uuid).1))
  {
    hide CallAlone, Chain;
    LookupAloneIs(db, FindByProvider(r.p));
    OneCall(policy, db, r, FindingOwner, FindByProvider(r.p), uuid, 4);
    if r.p !in db.owners {
      LookupAloneIs(db, FindByEmail(r.email));
      OneCall(policy, db, r, FindingEmail, FindByEmail(r.email), uuid, 3);
      if r.email in db.emails {
        var u := db.users[db.emails[r.email]];
        if CanAutoLink(r.emailVerified, policy) { LinkChain(policy, db, r, AutoLinking(u), u, uuid); }
      } else {
        CreateAloneIs(db, r.email, r.p, uuid);
        OneCall(policy, db, r, Creating, Create(r.email, r.p, uuid), uuid, 2);
      }
    }
  }

  /** What each event other than a step is: a free client begins an adapter call or a request, with
      an id nobody drew before if it creates, or a client is gone. */
  lemma EventsAre(m: Machine, c: nat, call: Call, r: Request)
    ensures c in m.clients ==> Apply(m, BeginDirect(c, call)) == Apply(m, BeginEngine(c, r)) == m
    ensures c !in m.clients ==>
              && Apply(m, BeginEngine(c, r))
                 == m.(clients := m.clients[c := Busy(Engine(r, FindingOwner), Start(FindByProvider(r.p)))])
              && (!call.Create? ==>
                    Apply(m, BeginDirect(c, call)) == m.(clients := m.clients[c := Busy(Direct, Start(call))]))
              && (call.Create? && call.freshId in m.issued ==> Apply(m, BeginDirect(c, call)) == m)
              && (call.Create? && call.freshId !in m.issued ==>
                    Apply(m, BeginDirect(c, call))
                    == m.(clients := m.clients[c := Busy(Direct, Start(call))], issued := m.issued + {call.freshId}))
    ensures Apply(m, Vanish(c)) == m.(clients := m.clients - {c})
  {
  }

  // ----- stores whose indexes may not agree -----

  /** A record as the adapter accepts it. */
  predicate Sane(u: User, id: UserId) {
    u.id == id && |u.providers| <= 32 && forall i, j :: 0 <= i < j < |u.providers| ==> u.providers[i] != u.providers[j]
  }

  /** Whatever another program has written into the store, a call does not hand on what the index
      it came by does not promise: a record that is found is sane and stored, has the id, email or
      provider that was asked for, a creation never comes back without a record, and a link that
      reports success has left a sane record with the provider. */
  lemma AnswersAreHonest(db: Db, pc: Pc)
    requires Advance(db, pc).1.Done? && !pc.Done? && (pc.GetUser? ==> !pc.call.Link?)
    ensures var (db', end) := Advance(db, pc);
            var call := end.call;
            match end.outcome
            case Found(None) => !call.Create? && !call.Link?
            case Found(Some(u)) =>
              && u.id in db.users && db.users[u.id] == u && Sane(u, u.id)
              && (call.FindByEmail? ==> u.email == call.email)
              && (call.FindByProvider? ==> call.p in u.providers)
              && (pc.Start? && call.FindById? ==> u.id == call.id)
            case CreateResult(reply, u) =>
              && u.id in db'.users && db'.users[u.id] == u && Sane(u, u.id)
              && (reply.ExistingProvider? ==> call.p in u.providers)
              && (reply.ExistingEmail? ==> u.email == call.email)
            case LinkDone =>
              pc.SwapTarget? && pc.id in db'.users && db'.users[pc.id] == WithProvider(pc.seen, pc.p)
            case Failed(_) => true
  {
  }

  /** The engine trusts no adapter: whatever it is answered at whatever stage, tokens and success go
      only to an account that came back with the provider, a new one also with the email, a linked
      one with the id it was linked to; and it asks for a link only for the account that the
      request authenticates, or for one with the login's email under a policy that allows it. */
  lemma EngineChecksItsAdapter(policy: Policy, r: Request, stage: Stage, outcome: Outcome, uuid: UserId)
    ensures var allowed := if r.emailVerified then policy.autoLinkOnVerifiedEmailMatch else policy.allowUnverifiedAutoLink;
            match Resume(policy, r, stage, outcome, uuid)
            case Return(LoggedIn(u)) =>
              r.p in u.providers && (stage.AutoConfirming? ==> u.id == stage.user.id)
            case Return(UserCreated(u)) =>
              r.p in u.providers && u.email == r.email && outcome == CreateResult(Created, u)
            case Return(ProviderLinked(u)) => r.p in u.providers && stage.Confirming?
            case Return(LinkRequired) => !allowed
            case Return(InvalidLinkRequest) => r.linkMode || stage.FindingTarget?
            case Return(Threw(_)) => true
            case Ask(AutoLinking(u), call) => allowed && u.email == r.email && call == Link(u.id, r.p)
            case Ask(AutoConfirming(u), call) => stage == AutoLinking(u) && call == FindByProvider(r.p)
            case Ask(Linking(t), call) => r.userId == Some(t.id) && call == Link(t.id, r.p) && stage == FindingTarget(None)
            case Ask(Confirming(t), call) =>
              && call == FindById(t.id)
              && (stage == Linking(t)
                  || (&& r.userId == Some(t.id) && stage.FindingTarget?
                      && stage.existing.Some? && stage.existing.value.id == t.id))
            case Ask(FindingTarget(_), call) => r.linkMode && r.userId.Some? && call == FindById(r.userId.value)
            case Ask(FindingEmail, call) => !r.linkMode && call == FindByEmail(r.email)
            case Ask(Creating, call) => stage == FindingEmail && call == Create(r.email, r.p, uuid)
            case Ask(FindingOwner, _) => false
  {
  }

  /** What a link goes on with after its read is sane and has room for the provider. */
  lemma ReadsAreHonest(db: Db, id: UserId, p: Provider, attempt: nat, base: nat)
    ensures var next := AfterTargetRead(db, id, p, attempt, base);
            next.SwapTarget? ==>
              && id in db.users
              && next == SwapTarget(id, p, attempt, if attempt == 0 then |next.seen.providers| else base, next.seen)
              && next.seen == db.users[id] && Sane(next.seen, id)
              && Sane(WithProvider(next.seen, p), id) && p in WithProvider(next.seen, p).providers
  {
  }

  /** What the replies of a link's transaction come to.  One that finds the record changed is
      tried again four times and not a fifth. */
  lemma FiveAttempts(pc: Pc)
    requires pc.SwapTarget?
    ensures AfterSwap(pc, Linked) == Done(Link(pc.id, pc.p), LinkDone)
    ensures AfterSwap(pc, ProviderConflict) == Done(Link(pc.id, pc.p), Failed(AlreadyLinked))
    ensures AfterSwap(pc, EmailConflict) == Done(Link(pc.id, pc.p), Failed(EmailIndexConflict))
    ensures AfterSwap(pc, UserMissing) == Done(Link(pc.id, pc.p), Failed(TargetNotFound))
    ensures pc.attempt < 4 ==> AfterSwap(pc, Stale) == ReadTarget(pc.id, pc.p, pc.attempt + 1, pc.base)
    ensures pc.attempt >= 4 ==> AfterSwap(pc, Stale) == Done(Link(pc.id, pc.p), Failed(Contention(pc.base)))
  {
  }
}
