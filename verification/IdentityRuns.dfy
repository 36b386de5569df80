/** Theorems about every run of the identity store and engine: any number of adapter and
    engine clients, interleaved command by command, any of them vanishing at any point. */
module IdentityRuns {
  import opened Options
  import opened IdentityStore
  import opened IdentityMemory
  import opened IdentityEngine

  lemma {:induction false} RunIsSound(policy: Policy, events: seq<Event>)
    ensures Sound(Run(policy, events)) && Run(policy, events).policy == policy
  {
    if events != [] {
      var before := events[..|events| - 1];
      RunIsSound(policy, before);
      ApplyKeepsSound(Run(policy, before), events[|events| - 1]);
    }
  }

  /** Nothing committed is ever lost: accounts, emails and owners stay, provider lists only append. */
  lemma {:induction false} RunsOnlyExtend(policy: Policy, events: seq<Event>, later: seq<Event>)
    ensures Extends(Run(policy, events).db, Run(policy, events + later).db)
    decreases |later|
  {
    hide Sound, Apply;
    if later == [] {
      assert events + later == events;
    } else {
      var all := events + later;
      assert all[..|all| - 1] == events + later[..|later| - 1];
      RunsOnlyExtend(policy, events, later[..|later| - 1]);
      RunIsSound(policy, all[..|all| - 1]);
      ApplyKeepsSound(Run(policy, all[..|all| - 1]), all[|all| - 1]);
      ExtendsTransitive(Run(policy, events).db, Run(policy, all[..|all| - 1]).db, Run(policy, all).db);
    }
  }

  /** A lookup that nobody interrupts: the index GET and the record GET back to back. */
  function LookupAlone(db: Db, call: Call): Pc {
    Advance(db, Advance(db, Start(call)).1).1
  }

  /** In every reachable state the indexed lookups return what a scan of the records
      returns, and no two accounts share an email or a provider. */
  lemma IndexesAreExact(policy: Policy, events: seq<Event>, users: seq<User>, e: Email, p: Provider)
    requires Represents(users, Run(policy, events).db.users)
    ensures var db := Run(policy, events).db;
            && LookupAlone(db, FindByEmail(e)) == Done(FindByEmail(e), Found(ScanEmail(users, e)))
            && LookupAlone(db, FindByProvider(p)) == Done(FindByProvider(p), Found(ScanProvider(users, p)))
            && (forall a <- db.users, b <- db.users | a != b :: Disjoint(db.users[a], db.users[b]))
  {
    hide Run, Disjoint, Represents;
    var db := Run(policy, events).db;
    RunIsSound(policy, events);
    ScanEmailFollowsIndex(users, db, e);
    ScanProviderFollowsIndex(users, db, p);
    forall a <- db.users, b <- db.users | a != b ensures Disjoint(db.users[a], db.users[b]) {
      AccountsDisjoint(db, a, b);
    }
  }

  ghost predicate Disjoint(u: User, v: User) {
    u.email != v.email && forall q <- u.providers :: q !in v.providers
  }

  lemma AccountsDisjoint(db: Db, a: UserId, b: UserId)
    requires IndexesAgree(db) && a in db.users && b in db.users && a != b
    ensures Disjoint(db.users[a], db.users[b])
  {
    assert IndexedEmail(db, a, db.users[a].email) && IndexedEmail(db, b, db.users[b].email);
    forall q <- db.users[a].providers ensures q !in db.users[b].providers {
      assert OwnedBy(db, a, q);
      assert q in db.users[b].providers ==> OwnedBy(db, b, q);
    }
  }

  // ----- the whole run against the memory adapter -----

  /** The calls that took effect, in the order in which they did. */
  function EffectOf(m: Machine, e: Event): seq<Call> {
    if Enabled(m, e) then
      var pc := m.clients[e.client].pc;
      if TakesEffect(pc, Advance(m.db, pc).1) then [CallOf(pc)] else []
    else []
  }

  function Effects(policy: Policy, events: seq<Event>): seq<Call> {
    if events == [] then []
    else
      var before := events[..|events| - 1];
      Effects(policy, before) + EffectOf(Run(policy, before), events[|events| - 1])
  }

  function MemoryRun(calls: seq<Call>): seq<User> {
    if calls == [] then [] else MemoryStep(MemoryRun(calls[..|calls| - 1]), calls[|calls| - 1]).0
  }

  /** Where the calling client stands after each of those commands: it holds the answer. */
  function AnswerOf(m: Machine, e: Event): seq<Pc> {
    if Enabled(m, e) then
      var pc := m.clients[e.client].pc;
      var pc' := Advance(m.db, pc).1;
      if TakesEffect(pc, pc') then [pc'] else []
    else []
  }

  function Answers(policy: Policy, events: seq<Event>): seq<Pc> {
    if events == [] then []
    else
      var before := events[..|events| - 1];
      Answers(policy, before) + AnswerOf(Run(policy, before), events[|events| - 1])
  }

  /** Call k got the answer that the memory adapter gives at its place in the order. */
  ghost predicate Answered(calls: seq<Call>, answers: seq<Pc>, k: nat)
    requires k < |calls| == |answers|
  {
    SameAnswer(answers[k], MemoryStep(MemoryRun(calls[..k]), calls[k]).1)
  }

  /** Every interleaved run of the Redis adapter leaves exactly the accounts that the memory
      adapter has after the same calls, run one at a time in the order they took effect, and
      every one of those calls got the answer the memory adapter gave it. */
  lemma {:induction false} RunsRefineMemory(policy: Policy, events: seq<Event>)
    ensures Represents(MemoryRun(Effects(policy, events)), Run(policy, events).db.users)
    ensures |Answers(policy, events)| == |Effects(policy, events)|
    ensures forall k | 0 <= k < |Effects(policy, events)| :: Answered(Effects(policy, events), Answers(policy, events), k)
  {
    hide Represents, EffectOf, AnswerOf, Answered, Sound, SameAnswer, MemoryStep, Apply;
    if events == [] {
      NobodyRepresentsNothing();
    } else {
      var before, e := events[..|events| - 1], events[|events| - 1];
      var m, log, answers := Run(policy, before), Effects(policy, before), Answers(policy, before);
      RunsRefineMemory(policy, before);
      RunIsSound(policy, before);
      EffectRefines(m, e, MemoryRun(log));
      var effect := EffectOf(m, e);
      if effect == [] {
        assert log + effect == log && answers + AnswerOf(m, e) == answers;
      } else {
        AnsweredAppend(log, answers, effect[0], AnswerOf(m, e)[0]);
        assert log + effect == log + [effect[0]] && answers + AnswerOf(m, e) == answers + [AnswerOf(m, e)[0]];
        assert (log + effect)[..|log|] == log;
      }
    }
  }

  lemma NobodyRepresentsNothing()
    ensures Represents([], EMPTY_DB.users)
  {
  }

  lemma AnsweredAppend(calls: seq<Call>, answers: seq<Pc>, call: Call, answer: Pc)
    requires |calls| == |answers| && forall k | 0 <= k < |calls| :: Answered(calls, answers, k)
    requires SameAnswer(answer, MemoryStep(MemoryRun(calls), call).1)
    ensures forall k | 0 <= k <= |calls| :: Answered(calls + [call], answers + [answer], k)
  {
    forall k | 0 <= k <= |calls| ensures Answered(calls + [call], answers + [answer], k) {
      if k < |calls| {
        assert (calls + [call])[..k] == calls[..k] && Answered(calls, answers, k);
      } else {
        assert (calls + [call])[..k] == calls;
      }
    }
  }

  predicate Enabled(m: Machine, e: Event) {
    e.Step? && e.client in m.clients && m.clients[e.client].Busy? && e.uuid !in m.issued
  }

  /** The store changes only by the one command a step executes. */
  lemma OnlyCommandsWrite(m: Machine, e: Event)
    ensures Apply(m, e).db == if Enabled(m, e) then Advance(m.db, m.clients[e.client].pc).0 else m.db
  {
    if Enabled(m, e) {
      var Busy(task, pc) := m.clients[e.client];
      ContinueKeepsDb(m.(db := Advance(m.db, pc).0), e.client, task, Advance(m.db, pc).1, e.uuid);
    }
  }

  lemma ContinueKeepsDb(m: Machine, c: nat, task: Task, pc: Pc, uuid: UserId)
    ensures Continue(m, c, task, pc, uuid).db == m.db
  {
  }

  lemma EffectRefines(m: Machine, e: Event, users: seq<User>)
    requires Sound(m) && Represents(users, m.db.users)
    ensures var effect := EffectOf(m, e);
            && Represents(if effect == [] then users else MemoryStep(users, effect[0]).0, Apply(m, e).db.users)
            && |effect| == |AnswerOf(m, e)| <= 1
            && (effect != [] ==> SameAnswer(AnswerOf(m, e)[0], MemoryStep(users, effect[0]).1))
  {
    OnlyCommandsWrite(m, e);
    if Enabled(m, e) {
      assert ClientFits(m.policy, m.db, m.clients[e.client]);
      AdvanceRefinesMemory(users, m.db, m.clients[e.client].pc);
    }
  }

  /** A call that has taken effect: every call that has ended except a link that gave up, and a
      creation that has yet to fetch the record it found. */
  predicate HasTakenEffect(pc: Pc) {
    match pc
    case Done(_, Failed(Contention(_))) => false
    case Done(_, _) => true
    case GetUser(call, _, _) => call.Create?
    case _ => false
  }

  /** Every call takes effect exactly once on its way, and none before it begins. */
  lemma TakesEffectOnce(db: Db, pc: Pc)
    ensures var pc' := Advance(db, pc).1;
            && (TakesEffect(pc, pc') <==> !HasTakenEffect(pc) && HasTakenEffect(pc'))
            && (HasTakenEffect(pc) ==> HasTakenEffect(pc'))
            && CallOf(pc') == CallOf(pc) && (pc.GetUser? ==> pc'.Done?)
  {
  }

  /** Place k of the order is this call, with the answer the client holds, or the reply that
      answer was made of. */
  ghost predicate IsAt(policy: Policy, events: seq<Event>, pc: Pc, k: nat) {
    && k < |Effects(policy, events)| == |Answers(policy, events)|
    && Effects(policy, events)[k] == CallOf(pc)
    && (Answers(policy, events)[k] == pc
        || (Answers(policy, events)[k].GetUser? && CallOf(Answers(policy, events)[k]) == CallOf(pc) && pc.Done?))
  }

  lemma IsAtLater(policy: Policy, events: seq<Event>, e: Event, pc: Pc, k: nat)
    requires IsAt(policy, events, pc, k)
    ensures IsAt(policy, events + [e], pc, k)
  {
    hide Run, EffectOf, AnswerOf;
    assert (events + [e])[..|events|] == events;
    RunsRefineMemory(policy, events + [e]);
  }

  /** What a client holds after an event that was not its own step, or was. */
  lemma ClientAfter(m: Machine, e: Event, c: nat)
    requires c in Apply(m, e).clients && Apply(m, e).clients[c].Busy? && HasTakenEffect(Apply(m, e).clients[c].pc)
    ensures c in m.clients && m.clients[c].Busy?
    ensures if Enabled(m, e) && e.client == c then Apply(m, e).clients[c].pc == Advance(m.db, m.clients[c].pc).1
            else Apply(m, e).clients[c] == m.clients[c]
  {
    hide BeginCall, Resolve, AfterTargetRead, LinkScript, AfterSwap;
  }

  /** The order leaves nobody out: every call that has taken effect in a run, and that is every
      call that has ended except a link that gave up, stands in it with its own answer. */
  lemma {:induction false} NobodyIsLeftOut(policy: Policy, events: seq<Event>, c: nat) returns (k: nat)
    requires c in Run(policy, events).clients
    requires Run(policy, events).clients[c].Busy? && HasTakenEffect(Run(policy, events).clients[c].pc)
    ensures IsAt(policy, events, Run(policy, events).clients[c].pc, k)
  {
    hide Apply, Advance, HasTakenEffect, TakesEffect, CallOf;
    var before, e := events[..|events| - 1], events[|events| - 1];
    assert before + [e] == events;
    var m := Run(policy, before);
    ClientAfter(m, e, c);
    var pc, pc' := m.clients[c].pc, Run(policy, events).clients[c].pc;
    if Enabled(m, e) && e.client == c {
      TakesEffectOnce(m.db, pc);
      if HasTakenEffect(pc) {
        k := NobodyIsLeftOut(policy, before, c);
        IsAtLater(policy, before, e, pc, k);
        StaysAt(policy, events, m.db, pc, k);
      } else {
        k := |Effects(policy, before)|;
        RunsRefineMemory(policy, before);
        RunsRefineMemory(policy, events);
      }
    } else {
      k := NobodyIsLeftOut(policy, before, c);
      IsAtLater(policy, before, e, pc, k);
    }
  }

  lemma StaysAt(policy: Policy, events: seq<Event>, db: Db, pc: Pc, k: nat)
    requires HasTakenEffect(pc) && IsAt(policy, events, pc, k)
    ensures IsAt(policy, events, Advance(db, pc).1, k)
  {
    hide Effects, Answers;
    TakesEffectOnce(db, pc);
  }

  // ----- who gets tokens -----

  predicate IssuesTokens(result: Result) {
    result.LoggedIn? || result.UserCreated?
  }

  /** Whoever receives tokens for (provider, providerId) owns it, then and for ever. */
  lemma TokensNameTheOwner(policy: Policy, events: seq<Event>, later: seq<Event>, c: nat)
    requires c in Run(policy, events).clients
    requires var client := Run(policy, events).clients[c]; client.Finished? && IssuesTokens(client.result)
    ensures var client := Run(policy, events).clients[c];
            OwnedBy(Run(policy, events + later).db, client.result.user.id, client.request.p)
  {
    var m := Run(policy, events);
    RunIsSound(policy, events);
    assert ClientFits(policy, m.db, m.clients[c]);
    RunsOnlyExtend(policy, events, later);
    OwnedByStable(m.db, Run(policy, events + later).db, m.clients[c].result.user.id, m.clients[c].request.p);
  }

  /** Two token-issuing logins for one provider identity always name the same account. */
  lemma LoginsAgree(policy: Policy, events: seq<Event>, c: nat, d: nat)
    requires c in Run(policy, events).clients && d in Run(policy, events).clients
    requires var a := Run(policy, events).clients[c]; a.Finished? && IssuesTokens(a.result)
    requires var b := Run(policy, events).clients[d]; b.Finished? && IssuesTokens(b.result)
    requires Run(policy, events).clients[c].request.p == Run(policy, events).clients[d].request.p
    ensures Run(policy, events).clients[c].result.user.id == Run(policy, events).clients[d].result.user.id
  {
    assert events + [] == events;
    TokensNameTheOwner(policy, events, [], c);
    TokensNameTheOwner(policy, events, [], d);
  }

  /** No integrity check of the adapter or of the engine ever throws. */
  lemma ThrowsAreRefusals(policy: Policy, events: seq<Event>, c: nat)
    requires c in Run(policy, events).clients
    ensures match Run(policy, events).clients[c]
            case Finished(_, Threw(reason)) => reason.AdapterThrew? && !IsIntegrityThrow(reason.failure)
            case Busy(_, Done(_, Failed(f))) => !IsIntegrityThrow(f)
            case _ => true
  {
    RunIsSound(policy, events);
    assert ClientFits(policy, Run(policy, events).db, Run(policy, events).clients[c]);
  }

  // ----- contention -----

  /** Event n was the first read of a link of p to account `id` by client c, which found `base`
      providers. */
  ghost predicate ReadsFirst(policy: Policy, events: seq<Event>, n: nat, c: nat, id: UserId, p: Provider, base: nat) {
    && n < |events| && events[n].Step? && events[n].client == c
    && var m := Run(policy, events[..n]);
       && Enabled(m, events[n]) && m.clients[c].pc == Start(Link(id, p))
       && id in m.db.users && |m.db.users[id].providers| == base
  }

  ghost predicate FirstRead(policy: Policy, events: seq<Event>, c: nat, id: UserId, p: Provider, base: nat) {
    exists n: nat :: ReadsFirst(policy, events, n, c, id, p, base)
  }

  datatype Trail = Trail(id: UserId, p: Provider, base: nat)

  /** The link a client is retrying, or gave up, and the length it started from. */
  function TrailOf(pc: Pc): Option<Trail> {
    match pc
    case SwapTarget(id, p, _, base, _) => Some(Trail(id, p, base))
    case ReadTarget(id, p, _, base) => Some(Trail(id, p, base))
    case Done(call, Failed(Contention(base))) => if call.Link? then Some(Trail(call.id, call.p, base)) else None
    case _ => None
  }

  /** At least five providers were linked to account `id` after some first read of client c. */
  ghost predicate FiveLinksSince(policy: Policy, events: seq<Event>, c: nat, id: UserId, p: Provider, base: nat) {
    && FirstRead(policy, events, c, id, p, base)
    && id in Run(policy, events).db.users
    && base + 5 <= |Run(policy, events).db.users[id].providers|
  }

  ghost predicate Traced(policy: Policy, events: seq<Event>, c: nat, client: Client) {
    match client
    case Busy(_, pc) =>
      TrailOf(pc).Some? ==> FirstRead(policy, events, c, TrailOf(pc).value.id, TrailOf(pc).value.p, TrailOf(pc).value.base)
    case Finished(r, Threw(AdapterThrew(Contention(base)))) =>
      exists id :: FiveLinksSince(policy, events, c, id, r.p, base)
    case _ => true
  }

  lemma AdvanceKeepsTrail(db: Db, pc: Pc)
    requires Knows(db, pc)
    ensures var pc' := Advance(db, pc).1;
            TrailOf(pc').Some? ==>
              || TrailOf(pc) == TrailOf(pc')
              || var t := TrailOf(pc').value;
                 pc == Start(Link(t.id, t.p)) && t.id in db.users && |db.users[t.id].providers| == t.base
  {
  }

  lemma FirstReadStays(policy: Policy, events: seq<Event>, e: Event, c: nat, id: UserId, p: Provider, base: nat)
    requires FirstRead(policy, events, c, id, p, base)
    ensures FirstRead(policy, events + [e], c, id, p, base)
  {
    hide Run;
    var n: nat :| ReadsFirst(policy, events, n, c, id, p, base);
    assert (events + [e])[..n] == events[..n];
    assert ReadsFirst(policy, events + [e], n, c, id, p, base);
  }

  lemma TracedStays(policy: Policy, events: seq<Event>, e: Event, c: nat, client: Client)
    requires Traced(policy, events, c, client) && Extends(Run(policy, events).db, Run(policy, events + [e]).db)
    ensures Traced(policy, events + [e], c, client)
  {
    hide Run, FirstRead, Extends;
    match client
    case Busy(_, pc) =>
      if TrailOf(pc).Some? {
        FirstReadStays(policy, events, e, c, TrailOf(pc).value.id, TrailOf(pc).value.p, TrailOf(pc).value.base);
      }
    case Finished(r, Threw(AdapterThrew(Contention(base)))) =>
      var id :| FiveLinksSince(policy, events, c, id, r.p, base);
      FirstReadStays(policy, events, e, c, id, r.p, base);
      ExtendsGrows(Run(policy, events).db, Run(policy, events + [e]).db, id);
      assert FiveLinksSince(policy, events + [e], c, id, r.p, base);
    case _ =>
  }

  lemma ExtendsGrows(db: Db, db': Db, id: UserId)
    requires Extends(db, db') && id in db.users
    ensures id in db'.users && |db.users[id].providers| <= |db'.users[id].providers|
  {
    assert Grew(db.users[id], db'.users[id]);
  }

  /** The client that has just executed a command. */
  lemma StepperTraced(policy: Policy, events: seq<Event>, e: Event)
    requires Enabled(Run(policy, events), e) && !Run(policy, events).clients[e.client].pc.Done?
    requires Knows(Run(policy, events).db, Run(policy, events).clients[e.client].pc)
    requires Traced(policy, events, e.client, Run(policy, events).clients[e.client])
    ensures var m := Run(policy, events);
            var trail := TrailOf(Advance(m.db, m.clients[e.client].pc).1);
            trail.Some? ==> FirstRead(policy, events + [e], e.client, trail.value.id, trail.value.p, trail.value.base)
  {
    hide Run, FirstRead;
    var m := Run(policy, events);
    var pc := m.clients[e.client].pc;
    AdvanceKeepsTrail(m.db, pc);
    var trail := TrailOf(Advance(m.db, pc).1);
    if trail.Some? {
      var t := trail.value;
      if TrailOf(pc) == trail {
        FirstReadStays(policy, events, e, e.client, t.id, t.p, t.base);
      } else {
        assert (events + [e])[..|events|] == events;
        ReadNow(policy, events + [e], |events|, e.client, t.id, t.p, t.base);
      }
    }
  }

  lemma ReadNow(policy: Policy, events: seq<Event>, n: nat, c: nat, id: UserId, p: Provider, base: nat)
    requires ReadsFirst(policy, events, n, c, id, p, base)
    ensures FirstRead(policy, events, c, id, p, base)
  {
  }

  /** Only a link whose retries ran out makes the engine throw contention, and the engine links
      only the provider it was asked about. */
  lemma ResumeContention(policy: Policy, db: Db, r: Request, stage: Stage, pc: Pc, uuid: UserId)
    requires Landed(policy, db, Engine(r, stage), pc) && pc.Done?
    ensures match Resume(policy, r, stage, pc.outcome, uuid)
            case Return(Threw(AdapterThrew(Contention(base)))) =>
              && pc.call.Link? && pc.call.p == r.p && pc.outcome == Failed(Contention(base))
              && pc.call.id in db.users && base + 5 <= |db.users[pc.call.id].providers|
            case _ => true
  {
  }

  lemma ApplyTraced(policy: Policy, events: seq<Event>, e: Event, d: nat)
    requires Sound(Run(policy, events)) && Run(policy, events).policy == policy
    requires forall c <- Run(policy, events).clients :: Traced(policy, events, c, Run(policy, events).clients[c])
    requires d in Run(policy, events + [e]).clients
    ensures Traced(policy, events + [e], d, Run(policy, events + [e]).clients[d])
  {
    hide Traced, FirstRead, Sound, Advance, Extends, Resume;
    var m := Run(policy, events);
    assert (events + [e])[..|events|] == events;
    var m' := Apply(m, e);
    assert Run(policy, events + [e]) == m';
    ApplyKeepsSound(m, e);
    if d in m.clients && m'.clients[d] == m.clients[d] {
      TracedStays(policy, events, e, d, m.clients[d]);
    } else if e.Step? {
      StepTraced(policy, events, e);
    } else {
      FreshIsTraced(policy, events + [e], d, m'.clients[d]);
    }
  }

  lemma FreshIsTraced(policy: Policy, events: seq<Event>, d: nat, client: Client)
    requires client.Busy? && client.pc.Start?
    ensures Traced(policy, events, d, client)
  {
  }

  lemma StepTraced(policy: Policy, events: seq<Event>, e: Event)
    requires Sound(Run(policy, events)) && Run(policy, events).policy == policy
    requires Enabled(Run(policy, events), e) && !Run(policy, events).clients[e.client].pc.Done?
    requires Traced(policy, events, e.client, Run(policy, events).clients[e.client])
    ensures var m' := Run(policy, events + [e]);
            e.client in m'.clients ==> Traced(policy, events + [e], e.client, m'.clients[e.client])
  {
    hide FirstRead, Advance, Landed, Sound;
    var m, c := Run(policy, events), e.client;
    assert (events + [e])[..|events|] == events;
    var Busy(task, pc) := m.clients[c];
    SoundClient(m, c);
    StepperTraced(policy, events, e);
    AdvanceLands(m.policy, m.db, task, pc);
    var (db', pc') := Advance(m.db, pc);
    if task.Engine? && pc'.Done? { ResumeContention(policy, db', task.request, task.stage, pc', e.uuid); }
    OnlyCommandsWrite(m, e);
    ContinueTraced(policy, events + [e], m.(db := db'), c, task, pc', e.uuid);
  }

  lemma SoundClient(m: Machine, c: nat)
    requires Sound(m) && c in m.clients
    ensures IndexesAgree(m.db) && ClientFits(m.policy, m.db, m.clients[c])
  {
  }

  lemma ContinueTraced(policy: Policy, events: seq<Event>, m: Machine, c: nat, task: Task, pc: Pc, uuid: UserId)
    requires m.policy == policy && m.db == Run(policy, events).db && Landed(policy, m.db, task, pc) && c in m.clients
    requires TrailOf(pc).Some? ==>
               FirstRead(policy, events, c, TrailOf(pc).value.id, TrailOf(pc).value.p, TrailOf(pc).value.base)
    ensures var m' := Continue(m, c, task, pc, uuid);
            c in m'.clients && m'.clients[c] != m.clients[c] ==> Traced(policy, events, c, m'.clients[c])
  {
    hide FirstRead, Landed, Run;
    if task.Engine? && pc.Done? {
      ResumeContention(policy, m.db, task.request, task.stage, pc, uuid);
      match Resume(policy, task.request, task.stage, pc.outcome, uuid)
      case Return(Threw(AdapterThrew(Contention(base)))) =>
        assert FiveLinksSince(policy, events, c, pc.call.id, task.request.p, base);
      case _ =>
    }
  }

  lemma {:induction false} RunsAreTraced(policy: Policy, events: seq<Event>, c: nat)
    requires c in Run(policy, events).clients
    ensures Traced(policy, events, c, Run(policy, events).clients[c])
  {
    hide Traced, Apply;
    if events != [] {
      var before := events[..|events| - 1];
      assert before + [events[|events| - 1]] == events;
      RunIsSound(policy, before);
      forall d <- Run(policy, before).clients ensures Traced(policy, before, d, Run(policy, before).clients[d]) {
        RunsAreTraced(policy, before, d);
      }
      ApplyTraced(policy, before, events[|events| - 1], c);
    }
  }

  /** An adapter call that gave up on contention: five other links to the account were committed
      since the call's own first read. */
  lemma ContentionIsReal(policy: Policy, events: seq<Event>, c: nat, call: Call, base: nat)
    requires c in Run(policy, events).clients
    requires var client := Run(policy, events).clients[c];
             client.Busy? && client.pc == Done(call, Failed(Contention(base)))
    ensures call.Link? && FiveLinksSince(policy, events, c, call.id, call.p, base)
  {
    hide FirstRead;
    RunsAreTraced(policy, events, c);
    RunIsSound(policy, events);
    SoundClient(Run(policy, events), c);
  }

  /** The same when the call was the engine's: some account to which it was linking. */
  lemma EngineContentionIsReal(policy: Policy, events: seq<Event>, c: nat, r: Request, base: nat)
    requires c in Run(policy, events).clients
    requires Run(policy, events).clients[c] == Finished(r, Threw(AdapterThrew(Contention(base))))
    ensures exists id :: FiveLinksSince(policy, events, c, id, r.p, base)
  {
    hide FirstRead;
    RunsAreTraced(policy, events, c);
  }

  // ----- who an account and its providers come from -----

  /** An event by which account `id` itself asks for provider p: an adapter call naming the
      account, or an authenticated link-mode request. */
  predicate Asks(e: Event, id: UserId, p: Provider) {
    match e
    case BeginDirect(_, call) => call == Link(id, p)
    case BeginEngine(_, r) => r.linkMode && r.userId == Some(id) && r.p == p
    case _ => false
  }

  /** A login with provider p that claims the email of an account, under a policy that links it:
      one flag is for verified emails, the other for unverified ones. */
  predicate LoginAsks(policy: Policy, e: Event, email: Email, p: Provider) {
    && e.BeginEngine? && !e.request.linkMode && e.request.email == email && e.request.p == p
    && if e.request.emailVerified then policy.autoLinkOnVerifiedEmailMatch else policy.allowUnverifiedAutoLink
  }

  ghost predicate Asked(policy: Policy, events: seq<Event>, db: Db, id: UserId, p: Provider) {
    exists e <- events :: Asks(e, id, p) || (id in db.users && LoginAsks(policy, e, db.users[id].email, p))
  }

  /** An event that asks for an account with this email and provider. */
  predicate AsksForAccount(e: Event, email: Email, p: Provider) {
    match e
    case BeginDirect(_, call) => call.Create? && call.email == email && call.p == p
    case BeginEngine(_, r) => !r.linkMode && r.email == email && r.p == p
    case _ => false
  }

  ghost predicate AccountAsked(events: seq<Event>, email: Email, p: Provider) {
    exists e <- events :: AsksForAccount(e, email, p)
  }

  ghost predicate Requested(events: seq<Event>, r: Request) {
    exists e <- events :: e.BeginEngine? && e.request == r
  }

  /** What a client may create or link is what some earlier event asked for. */
  ghost predicate Warranted(policy: Policy, events: seq<Event>, db: Db, client: Client) {
    match client
    case Finished(_, _) => true
    case Busy(task, pc) =>
      && CallWarranted(policy, events, db, CallOf(pc))
      && (task.Engine? ==> Requested(events, task.request))
  }

  ghost predicate CallWarranted(policy: Policy, events: seq<Event>, db: Db, call: Call) {
    && (call.Link? ==> Asked(policy, events, db, call.id, call.p))
    && (call.Create? ==> AccountAsked(events, call.email, call.p))
  }

  /** Where every provider of an account comes from; no account has a role. */
  ghost predicate AccountWarranted(policy: Policy, events: seq<Event>, db: Db, id: UserId)
    requires id in db.users
  {
    var u := db.users[id];
    && u.role == None && |u.providers| > 0 && AccountAsked(events, u.email, u.providers[0])
    && forall k | 1 <= k < |u.providers| :: Asked(policy, events, db, id, u.providers[k])
  }

  ghost predicate AllWarranted(policy: Policy, events: seq<Event>, m: Machine) {
    && (forall c <- m.clients :: Warranted(policy, events, m.db, m.clients[c]))
    && (forall id <- m.db.users :: AccountWarranted(policy, events, m.db, id))
  }

  lemma AskedStays(policy: Policy, events: seq<Event>, more: seq<Event>, db: Db, db': Db, id: UserId, p: Provider)
    requires Asked(policy, events, db, id, p) && Extends(db, db')
    ensures Asked(policy, events + more, db', id, p)
  {
    var e :| e in events && (Asks(e, id, p) || (id in db.users && LoginAsks(policy, e, db.users[id].email, p)));
    assert e in events + more;
    if id in db.users { assert Grew(db.users[id], db'.users[id]); }
  }

  lemma AccountAskedStays(events: seq<Event>, more: seq<Event>, email: Email, p: Provider)
    requires AccountAsked(events, email, p)
    ensures AccountAsked(events + more, email, p)
  {
    var e :| e in events && AsksForAccount(e, email, p);
    assert e in events + more;
  }

  lemma CallWarrantStays(policy: Policy, events: seq<Event>, more: seq<Event>, db: Db, db': Db, call: Call)
    requires CallWarranted(policy, events, db, call) && Extends(db, db')
    ensures CallWarranted(policy, events + more, db', call)
  {
    hide Asked, AccountAsked;
    if call.Link? { AskedStays(policy, events, more, db, db', call.id, call.p); }
    if call.Create? { AccountAskedStays(events, more, call.email, call.p); }
  }

  lemma WarrantStays(policy: Policy, events: seq<Event>, more: seq<Event>, db: Db, db': Db, client: Client)
    requires Warranted(policy, events, db, client) && Extends(db, db')
    ensures Warranted(policy, events + more, db', client)
  {
    hide CallWarranted;
    if client.Busy? {
      CallWarrantStays(policy, events, more, db, db', CallOf(client.pc));
      if client.task.Engine? {
        var e :| e in events && e.BeginEngine? && e.request == client.task.request;
        assert e in events + more;
      }
    }
  }

  /** An account whose record has not changed. */
  lemma AccountStays(policy: Policy, events: seq<Event>, more: seq<Event>, db: Db, db': Db, id: UserId)
    requires id in db.users && AccountWarranted(policy, events, db, id) && Extends(db, db')
    requires id in db'.users && db'.users[id] == db.users[id]
    ensures AccountWarranted(policy, events + more, db', id)
  {
    hide Asked, AccountAsked;
    var u := db.users[id];
    AccountAskedStays(events, more, u.email, u.providers[0]);
    forall k | 1 <= k < |u.providers| ensures Asked(policy, events + more, db', id, u.providers[k]) {
      AskedStays(policy, events, more, db, db', id, u.providers[k]);
    }
  }

  /** The record that a command writes, when it writes one. */
  lemma AdvanceWrites(db: Db, pc: Pc, id: UserId)
    requires IndexesAgree(db) && Knows(db, pc) && id in Advance(db, pc).0.users
    ensures var db', call := Advance(db, pc).0, CallOf(pc);
            || (id in db.users && db'.users[id] == db.users[id])
            || (call.Create? && db'.users[id] == User(id, call.email, None, [call.p]))
            || (call.Link? && call.id == id && id in db.users
                && db'.users[id] == db.users[id].(providers := db.users[id].providers + [call.p]))
  {
    hide IndexesAgree;
  }

  /** A command adds an account or a provider only as its own call was asked to. */
  lemma AdvanceAddsOnlyAsked(policy: Policy, events: seq<Event>, db: Db, pc: Pc)
    requires IndexesAgree(db) && Knows(db, pc) && CallWarranted(policy, events, db, CallOf(pc))
    requires forall id <- db.users :: AccountWarranted(policy, events, db, id)
    ensures var db' := Advance(db, pc).0; forall id <- db'.users :: AccountWarranted(policy, events, db', id)
  {
    AdvanceKeeps(db, pc);
    hide Advance, IndexesAgree, Extends, Asked, AccountAsked, AccountWarranted;
    var db' := Advance(db, pc).0;
    assert events + [] == events;
    forall id <- db'.users ensures AccountWarranted(policy, events, db', id) {
      AdvanceWrites(db, pc, id);
      if id in db.users && db'.users[id] == db.users[id] {
        AccountStays(policy, events, [], db, db', id);
      } else {
        CallWarrantStays(policy, events, [], db, db', CallOf(pc));
        if CallOf(pc).Link? {
          AccountGrows(policy, events, db, db', id, CallOf(pc).p);
        } else {
          AccountStarts(policy, events, db', id);
        }
      }
    }
  }

  lemma AccountGrows(policy: Policy, events: seq<Event>, db: Db, db': Db, id: UserId, p: Provider)
    requires id in db.users && AccountWarranted(policy, events, db, id) && Extends(db, db') && id in db'.users
    requires db'.users[id] == db.users[id].(providers := db.users[id].providers + [p]) && Asked(policy, events, db', id, p)
    ensures AccountWarranted(policy, events, db', id)
  {
    hide Asked, AccountAsked;
    assert events + [] == events;
    var u := db.users[id];
    forall k | 1 <= k <= |u.providers| ensures Asked(policy, events, db', id, db'.users[id].providers[k]) {
      if k < |u.providers| { AskedStays(policy, events, [], db, db', id, u.providers[k]); }
    }
  }

  lemma AccountStarts(policy: Policy, events: seq<Event>, db: Db, id: UserId)
    requires id in db.users && db.users[id].role == None && |db.users[id].providers| == 1
    requires AccountAsked(events, db.users[id].email, db.users[id].providers[0])
    ensures AccountWarranted(policy, events, db, id)
  {
  }

  /** The engine creates what its request asks for, and links either the account that a link-mode
      request named, or the one with the login's email where the policy allows it. */
  lemma ResumeWarranted(policy: Policy, events: seq<Event>, db: Db, r: Request, stage: Stage, pc: Pc, uuid: UserId)
    requires IndexesAgree(db) && Landed(policy, db, Engine(r, stage), pc) && pc.Done? && Requested(events, r)
    ensures match Resume(policy, r, stage, pc.outcome, uuid)
            case Return(_) => true
            case Ask(stage', call) => CallWarranted(policy, events, db, call)
  {
    ResumeFits(policy, db, r, stage, pc.call, pc.outcome, uuid);
    hide Resume, Landed, IndexesAgree;
    var e :| e in events && e.BeginEngine? && e.request == r;
    match Resume(policy, r, stage, pc.outcome, uuid)
    case Ask(stage', call) =>
      if call.Link? { assert Asks(e, call.id, call.p) || LoginAsks(policy, e, db.users[call.id].email, call.p); }
      if call.Create? { assert AsksForAccount(e, call.email, call.p); }
    case _ =>
  }

  lemma ContinueWarranted(policy: Policy, events: seq<Event>, m: Machine, c: nat, task: Task, pc: Pc, uuid: UserId)
    requires m.policy == policy && IndexesAgree(m.db) && Landed(policy, m.db, task, pc)
    requires Warranted(policy, events, m.db, Busy(task, pc))
    ensures var m' := Continue(m, c, task, pc, uuid);
            forall d <- m'.clients ::
              (d in m.clients && m'.clients[d] == m.clients[d]) || Warranted(policy, events, m.db, m'.clients[d])
  {
    hide Landed, IndexesAgree, Requested, CallWarranted;
    if task.Engine? && pc.Done? { ResumeWarranted(policy, events, m.db, task.request, task.stage, pc, uuid); }
  }

  lemma StepWarranted(policy: Policy, events: seq<Event>, m: Machine, e: Event)
    requires m.policy == policy && Sound(m) && AllWarranted(policy, events, m) && Enabled(m, e)
    ensures AllWarranted(policy, events, Apply(m, e))
  {
    SoundClient(m, e.client);
    hide Sound, Advance, Landed, IndexesAgree, Extends, AccountWarranted, CallWarranted, Resume, Requested;
    var c := e.client;
    var Busy(task, pc) := m.clients[c];
    assert Warranted(policy, events, m.db, m.clients[c]);
    if !pc.Done? {
      var (db', pc') := Advance(m.db, pc);
      AdvanceAddsOnlyAsked(policy, events, m.db, pc);
      AdvanceKeeps(m.db, pc);
      AdvanceLands(policy, m.db, task, pc);
      CallStays(m.db, pc);
      assert events + [] == events;
      forall d <- m.clients ensures Warranted(policy, events, db', m.clients[d]) {
        WarrantStays(policy, events, [], m.db, db', m.clients[d]);
      }
      ContinueWarranted(policy, events, m.(db := db'), c, task, pc', e.uuid);
      OnlyCommandsWrite(m, e);
    }
  }

  lemma CallStays(db: Db, pc: Pc)
    ensures CallOf(Advance(db, pc).1) == CallOf(pc)
  {
  }

  lemma BeginWarranted(policy: Policy, events: seq<Event>, m: Machine, e: Event)
    requires AllWarranted(policy, events, m) && !e.Step?
    ensures AllWarranted(policy, events + [e], Apply(m, e))
  {
    hide Asked, AccountAsked, AccountWarranted;
    var m' := Apply(m, e);
    ExtendsItself(m.db);
    assert e in events + [e];
    forall c <- m'.clients ensures Warranted(policy, events + [e], m'.db, m'.clients[c]) {
      if c in m.clients && m'.clients[c] == m.clients[c] {
        WarrantStays(policy, events, [e], m.db, m.db, m.clients[c]);
      } else {
        NewCallWarranted(policy, events, m.db, e, CallOf(m'.clients[c].pc));
      }
    }
    forall id <- m.db.users ensures AccountWarranted(policy, events + [e], m.db, id) {
      AccountStays(policy, events, [e], m.db, m.db, id);
    }
  }

  lemma NewCallWarranted(policy: Policy, events: seq<Event>, db: Db, e: Event, call: Call)
    requires (e.BeginDirect? && e.call == call) || (e.BeginEngine? && call == FindByProvider(e.request.p))
    ensures CallWarranted(policy, events + [e], db, call)
  {
    assert e in events + [e];
    if call.Link? { assert Asks(e, call.id, call.p); }
    if call.Create? { assert AsksForAccount(e, call.email, call.p); }
  }

  lemma {:induction false} RunsAreWarranted(policy: Policy, events: seq<Event>)
    ensures AllWarranted(policy, events, Run(policy, events))
  {
    hide Apply, Sound, Warranted, AccountWarranted;
    if events != [] {
      var before, e := events[..|events| - 1], events[|events| - 1];
      var m := Run(policy, before);
      RunsAreWarranted(policy, before);
      RunIsSound(policy, before);
      assert before + [e] == events;
      if e.Step? {
        StepWarrantedLater(policy, before, m, e);
      } else {
        BeginWarranted(policy, before, m, e);
      }
    }
  }

  lemma StepWarrantedLater(policy: Policy, events: seq<Event>, m: Machine, e: Event)
    requires m.policy == policy && Sound(m) && AllWarranted(policy, events, m) && e.Step?
    ensures AllWarranted(policy, events + [e], Apply(m, e))
  {
    hide Sound, Warranted, AccountWarranted, StepClient;
    var m' := Apply(m, e);
    if Enabled(m, e) { StepWarranted(policy, events, m, e); }
    ExtendsItself(m'.db);
    forall c <- m'.clients ensures Warranted(policy, events + [e], m'.db, m'.clients[c]) {
      WarrantStays(policy, events, [e], m'.db, m'.db, m'.clients[c]);
    }
    forall id <- m'.db.users ensures AccountWarranted(policy, events + [e], m'.db, id) {
      AccountStays(policy, events, [e], m'.db, m'.db, id);
    }
  }

  /** Under every policy: every account was asked for with its email and first provider, and every
      further provider was asked for by the account itself or by a login with its email whose flag
      was on. */
  lemma ProvidersAreAskedFor(policy: Policy, events: seq<Event>, id: UserId, k: nat)
    requires id in Run(policy, events).db.users && k < |Run(policy, events).db.users[id].providers|
    ensures var u := Run(policy, events).db.users[id];
            exists e <- events ::
              if k == 0 then AsksForAccount(e, u.email, u.providers[0])
              else Asks(e, id, u.providers[k]) || LoginAsks(policy, e, u.email, u.providers[k])
  {
    hide Run;
    RunsAreWarranted(policy, events);
    var db := Run(policy, events).db;
    assert AccountWarranted(policy, events, db, id);
    if k > 0 { assert Asked(policy, events, db, id, db.users[id].providers[k]); }
  }

  /** No account ever has a role: an OAuth login cannot bring one about. */
  lemma NobodyHasARole(policy: Policy, events: seq<Event>, id: UserId)
    requires id in Run(policy, events).db.users
    ensures Run(policy, events).db.users[id].role == None
  {
    RunsAreWarranted(policy, events);
    assert AccountWarranted(policy, events, Run(policy, events).db, id);
  }

  /** With both flags off every provider of an account after its first was asked for by the
      account itself: no login, whatever its email claims, ever attaches one. */
  lemma OnlyTheAccountLinks(events: seq<Event>, id: UserId, k: nat)
    requires id in Run(MANUAL_ONLY, events).db.users
    requires 1 <= k < |Run(MANUAL_ONLY, events).db.users[id].providers|
    ensures exists e <- events :: Asks(e, id, Run(MANUAL_ONLY, events).db.users[id].providers[k])
  {
    ProvidersAreAskedFor(MANUAL_ONLY, events, id, k);
  }

  /** A login that is sent to link by hand met a policy whose flag for it is off. */
  lemma LinkRequiredMeansFlagOff(policy: Policy, events: seq<Event>, c: nat, r: Request)
    requires c in Run(policy, events).clients && Run(policy, events).clients[c] == Finished(r, LinkRequired)
    ensures !r.linkMode
    ensures if r.emailVerified then !policy.autoLinkOnVerifiedEmailMatch else !policy.allowUnverifiedAutoLink
  {
    RunIsSound(policy, events);
    SoundClient(Run(policy, events), c);
  }
}
