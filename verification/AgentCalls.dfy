/** What an accepted verification and an issued token went through in any run, and what one agent
    call does when no other client runs. */
module AgentCalls {
  import opened Options
  import opened Redis
  import opened AgentRevocation

  /** Event n is a step of client c from `pc`, with this answer of the service it asks there. */
  ghost predicate StepAt(s: System, events: seq<Event>, n: nat, c: nat, pc: Pc, yes: bool): (r: bool)
    ensures r ==> n < |events|
  {
    && n < |events| && events[n] == Step(c, yes)
    && c in Run(s, events[..n]).clients && Run(s, events[..n]).clients[c] == pc
  }

  /** Client c was told yes at `pc`. */
  ghost predicate ToldYes(s: System, events: seq<Event>, c: nat, pc: Pc) {
    exists n: nat :: StepAt(s, events, n, c, pc, true)
  }

  /** Client c stood at `pc` and went on while agent a was not marked as revoked. */
  ghost predicate SawActive(s: System, events: seq<Event>, c: nat, pc: Pc, a: AgentId) {
    exists n: nat, yes :: StepAt(s, events, n, c, pc, yes) && a !in Run(s, events[..n]).marked
  }

  /** Client c found token t stored as the session's current token. */
  ghost predicate SawStored(s: System, events: seq<Event>, c: nat, t: Token) {
    exists n: nat, yes ::
      && StepAt(s, events, n, c, MatchSession(t), yes)
      && var fields := Fields(Run(s, events[..n]), t.agent); t.session in fields && fields[t.session] == t
  }

  /** How far a verification, or an issue, has come. */
  function Progress(pc: Pc): nat {
    match pc
    case CheckRevoked(_) => 1
    case MatchSession(_) => 2
    case CheckStillActive(_) => 3
    case CheckRegistry(_) => 4
    case CheckHuman(_) => 5
    case Done(Accepted(_)) => 6
    case Authorize(_, _) => 1
    case PutSession(_) => 2
    case SetExpiry(_) => 3
    case Recheck(_) => 4
    case AuditIssue(_) => 5
    case Done(Issued(_)) => 6
    case _ => 0
  }

  predicate VerifyingOn(pc: Pc) {
    pc.CheckRevoked? || pc.MatchSession? || pc.CheckStillActive? || pc.CheckRegistry? || pc.CheckHuman?
    || (pc.Done? && pc.outcome.Accepted?)
  }

  predicate IssuingOn(pc: Pc) {
    pc.PutSession? || pc.SetExpiry? || pc.Recheck? || pc.AuditIssue? || (pc.Done? && pc.outcome.Issued?)
  }

  function TokenOf(pc: Pc): Token
    requires VerifyingOn(pc) || IssuingOn(pc)
  {
    if pc.Done? then pc.outcome.token else pc.token
  }

  /** The first `progress` checks of a verification of t, in the order of the source. */
  ghost predicate CameThrough(s: System, events: seq<Event>, c: nat, t: Token, progress: nat) {
    && (progress >= 1 ==> ToldYes(s, events, c, CheckQuarantine(t)))
    && (progress >= 2 ==> SawActive(s, events, c, CheckRevoked(t), t.agent))
    && (progress >= 3 ==> SawStored(s, events, c, t))
    && (progress >= 4 ==> SawActive(s, events, c, CheckStillActive(t), t.agent))
    && (progress >= 5 ==> ToldYes(s, events, c, CheckRegistry(t)))
    && (progress >= 6 ==> ToldYes(s, events, c, CheckHuman(t)))
  }

  /** The first steps of an issue. */
  ghost predicate WasIssuedThrough(s: System, events: seq<Event>, c: nat, t: Token, progress: nat) {
    && (progress >= 2 ==> SawActive(s, events, c, CheckActive(t.agent, t.session), t.agent))
    && (progress >= 2 ==> ToldYes(s, events, c, Authorize(t.agent, t.session)))
    && (progress >= 3 ==> exists n: nat, yes :: StepAt(s, events, n, c, PutSession(t), yes))
    && (progress >= 5 ==> SawActive(s, events, c, Recheck(t), t.agent))
    && (progress >= 6 ==> ToldYes(s, events, c, AuditIssue(t)))
  }

  ghost predicate Accounted(s: System, events: seq<Event>, c: nat, pc: Pc) {
    && (VerifyingOn(pc) ==> CameThrough(s, events, c, TokenOf(pc), Progress(pc)))
    && (IssuingOn(pc) ==> WasIssuedThrough(s, events, c, TokenOf(pc), Progress(pc)))
    && (pc.Authorize? ==> SawActive(s, events, c, CheckActive(pc.agent, pc.session), pc.agent))
  }

  lemma StepAtStays(s: System, events: seq<Event>, e: Event, n: nat, c: nat, pc: Pc, yes: bool)
    requires StepAt(s, events, n, c, pc, yes)
    ensures StepAt(s, events + [e], n, c, pc, yes) && (events + [e])[..n] == events[..n]
  {
    assert (events + [e])[..n] == events[..n];
  }

  lemma ToldYesStays(s: System, events: seq<Event>, e: Event, c: nat, pc: Pc)
    requires ToldYes(s, events, c, pc)
    ensures ToldYes(s, events + [e], c, pc)
  {
    hide StepAt;
    var n: nat :| StepAt(s, events, n, c, pc, true);
    StepAtStays(s, events, e, n, c, pc, true);
  }

  lemma SawActiveStays(s: System, events: seq<Event>, e: Event, c: nat, pc: Pc, a: AgentId)
    requires SawActive(s, events, c, pc, a)
    ensures SawActive(s, events + [e], c, pc, a)
  {
    hide StepAt, Run;
    var n: nat, yes :| StepAt(s, events, n, c, pc, yes) && a !in Run(s, events[..n]).marked;
    StepAtStays(s, events, e, n, c, pc, yes);
  }

  lemma SawStoredStays(s: System, events: seq<Event>, e: Event, c: nat, t: Token)
    requires SawStored(s, events, c, t)
    ensures SawStored(s, events + [e], c, t)
  {
    hide StepAt, Run;
    var n: nat, yes :|
      && StepAt(s, events, n, c, MatchSession(t), yes)
      && var fields := Fields(Run(s, events[..n]), t.agent); t.session in fields && fields[t.session] == t;
    StepAtStays(s, events, e, n, c, MatchSession(t), yes);
  }

  lemma CameThroughStays(s: System, events: seq<Event>, e: Event, c: nat, t: Token, progress: nat)
    requires CameThrough(s, events, c, t, progress)
    ensures CameThrough(s, events + [e], c, t, progress)
  {
    hide ToldYes, SawActive, SawStored;
    if progress >= 1 { ToldYesStays(s, events, e, c, CheckQuarantine(t)); }
    if progress >= 2 { SawActiveStays(s, events, e, c, CheckRevoked(t), t.agent); }
    if progress >= 3 { SawStoredStays(s, events, e, c, t); }
    if progress >= 4 { SawActiveStays(s, events, e, c, CheckStillActive(t), t.agent); }
    if progress >= 5 { ToldYesStays(s, events, e, c, CheckRegistry(t)); }
    if progress >= 6 { ToldYesStays(s, events, e, c, CheckHuman(t)); }
  }

  lemma WasIssuedThroughStays(s: System, events: seq<Event>, e: Event, c: nat, t: Token, progress: nat)
    requires WasIssuedThrough(s, events, c, t, progress)
    ensures WasIssuedThrough(s, events + [e], c, t, progress)
  {
    hide ToldYes, SawActive, StepAt;
    if progress >= 2 {
      SawActiveStays(s, events, e, c, CheckActive(t.agent, t.session), t.agent);
      ToldYesStays(s, events, e, c, Authorize(t.agent, t.session));
    }
    if progress >= 3 {
      var n: nat, yes :| StepAt(s, events, n, c, PutSession(t), yes);
      StepAtStays(s, events, e, n, c, PutSession(t), yes);
    }
    if progress >= 5 { SawActiveStays(s, events, e, c, Recheck(t), t.agent); }
    if progress >= 6 { ToldYesStays(s, events, e, c, AuditIssue(t)); }
  }

  lemma AccountedStays(s: System, events: seq<Event>, e: Event, c: nat, pc: Pc)
    requires Accounted(s, events, c, pc)
    ensures Accounted(s, events + [e], c, pc)
  {
    hide CameThrough, WasIssuedThrough, SawActive;
    if VerifyingOn(pc) { CameThroughStays(s, events, e, c, TokenOf(pc), Progress(pc)); }
    if IssuingOn(pc) { WasIssuedThroughStays(s, events, e, c, TokenOf(pc), Progress(pc)); }
    if pc.Authorize? { SawActiveStays(s, events, e, c, CheckActive(pc.agent, pc.session), pc.agent); }
  }

  /** What one command of a verification decides. */
  lemma VerifyStep(s: System, pc: Pc, yes: bool)
    ensures var pc' := StepPc(s, pc, yes).1;
            VerifyingOn(pc') && pc' != pc ==>
              var t := TokenOf(pc');
              && pc == (match Progress(pc')
                        case 1 => CheckQuarantine(t)
                        case 2 => CheckRevoked(t)
                        case 3 => MatchSession(t)
                        case 4 => CheckStillActive(t)
                        case 5 => CheckRegistry(t)
                        case _ => CheckHuman(t))
              && (Progress(pc') in {1, 5, 6} ==> yes)
              && (Progress(pc') in {2, 4} ==> t.agent !in s.marked)
              && (Progress(pc') == 3 ==> t.session in Fields(s, t.agent) && Fields(s, t.agent)[t.session] == t)
  {
    hide Fields, HSet, Expire, HDel;
  }

  /** What one command of an issue decides. */
  lemma IssueStep(s: System, pc: Pc, yes: bool)
    ensures var pc' := StepPc(s, pc, yes).1;
            && (pc'.Authorize? && pc' != pc ==>
                  pc == CheckActive(pc'.agent, pc'.session) && pc'.agent !in s.marked)
            && (IssuingOn(pc') && pc' != pc ==>
                  var t := TokenOf(pc');
                  && pc == (match Progress(pc')
                            case 2 => Authorize(t.agent, t.session)
                            case 3 => PutSession(t)
                            case 4 => SetExpiry(t)
                            case 5 => Recheck(t)
                            case _ => AuditIssue(t))
                  && (Progress(pc') in {2, 6} ==> yes)
                  && (Progress(pc') == 5 ==> t.agent !in s.marked))
  {
  }

  /** The step that has just been made is on record. */
  lemma NowOnRecord(s: System, events: seq<Event>, c: nat, yes: bool)
    requires c in Run(s, events).clients
    ensures var m, all := Run(s, events), events + [Step(c, yes)];
            var pc := m.clients[c];
            && (yes ==> ToldYes(s, all, c, pc))
            && (forall a | a !in m.marked :: SawActive(s, all, c, pc, a))
            && ((pc.MatchSession? && pc.token.session in Fields(m, pc.token.agent)
                 && Fields(m, pc.token.agent)[pc.token.session] == pc.token) ==> SawStored(s, all, c, pc.token))
            && (exists n: nat, y :: StepAt(s, all, n, c, pc, y))
  {
    hide Fields;
    var all := events + [Step(c, yes)];
    assert all[..|events|] == events;
    assert StepAt(s, all, |events|, c, Run(s, events).clients[c], yes);
  }

  lemma StepAccounted(s: System, events: seq<Event>, c: nat, yes: bool)
    requires c in Run(s, events).clients && Accounted(s, events, c, Run(s, events).clients[c])
    ensures Accounted(s, events + [Step(c, yes)], c, StepPc(Run(s, events), Run(s, events).clients[c], yes).1)
  {
    var m := Run(s, events);
    var pc := m.clients[c];
    AccountedStays(s, events, Step(c, yes), c, pc);
    VerifyStep(m, pc, yes);
    IssueStep(m, pc, yes);
    NowOnRecord(s, events, c, yes);
    hide Run, StepPc, ToldYes, SawActive, SawStored, StepAt, Fields;
    var pc' := StepPc(m, pc, yes).1;
    if pc' != pc && VerifyingOn(pc') { VerifyAccounted(s, events + [Step(c, yes)], c, pc, pc'); }
    if pc' != pc && IssuingOn(pc') { IssueAccounted(s, events + [Step(c, yes)], c, pc, pc'); }
  }

  lemma VerifyAccounted(s: System, events: seq<Event>, c: nat, pc: Pc, pc': Pc)
    requires VerifyingOn(pc') && Accounted(s, events, c, pc)
    requires var t := TokenOf(pc');
             match Progress(pc')
             case 1 => pc == CheckQuarantine(t) && ToldYes(s, events, c, pc)
             case 2 => pc == CheckRevoked(t) && SawActive(s, events, c, pc, t.agent)
             case 3 => pc == MatchSession(t) && SawStored(s, events, c, t)
             case 4 => pc == CheckStillActive(t) && SawActive(s, events, c, pc, t.agent)
             case 5 => pc == CheckRegistry(t) && ToldYes(s, events, c, pc)
             case _ => pc == CheckHuman(t) && ToldYes(s, events, c, pc)
    ensures Accounted(s, events, c, pc')
  {
    hide ToldYes, SawActive, SawStored, StepAt;
  }

  lemma IssueAccounted(s: System, events: seq<Event>, c: nat, pc: Pc, pc': Pc)
    requires IssuingOn(pc') && Accounted(s, events, c, pc)
    requires var t := TokenOf(pc');
             match Progress(pc')
             case 2 => pc == Authorize(t.agent, t.session) && ToldYes(s, events, c, pc)
             case 3 => pc == PutSession(t) && exists n: nat, yes :: StepAt(s, events, n, c, pc, yes)
             case 4 => pc == SetExpiry(t)
             case 5 => pc == Recheck(t) && SawActive(s, events, c, pc, t.agent)
             case _ => pc == AuditIssue(t) && ToldYes(s, events, c, pc)
    ensures Accounted(s, events, c, pc')
  {
    hide ToldYes, SawActive, SawStored, StepAt;
  }

  lemma {:induction false} RunsAreAccounted(s: System, events: seq<Event>, c: nat)
    requires Initial(s) && c in Run(s, events).clients
    ensures Accounted(s, events, c, Run(s, events).clients[c])
  {
    hide Accounted, StepPc;
    if events != [] {
      var before, e := events[..|events| - 1], events[|events| - 1];
      assert before + [e] == events;
      var m := Run(s, before);
      if c in m.clients {
        RunsAreAccounted(s, before, c);
        if e.Step? && e.client == c {
          StepAccounted(s, before, c, e.yes);
        } else {
          AccountedStays(s, before, e, c, m.clients[c]);
        }
      } else {
        FirstIsAccounted(s, events, c, e);
      }
    }
  }

  lemma FirstIsAccounted(s: System, events: seq<Event>, c: nat, e: Event)
    requires !e.Step? && !e.Tick?
    ensures Accounted(s, events, c, First(e))
  {
  }

  /** In every run an accepted token passed every check of its own verification: not quarantined,
      not revoked, stored as the session's current token, still active, within the registry's
      grant, and with its human session alive where it is delegated. */
  lemma AcceptedWasChecked(s: System, events: seq<Event>, c: nat, t: Token)
    requires Initial(s) && c in Run(s, events).clients && Run(s, events).clients[c] == Done(Accepted(t))
    ensures ToldYes(s, events, c, CheckQuarantine(t)) && SawActive(s, events, c, CheckRevoked(t), t.agent)
    ensures SawStored(s, events, c, t) && SawActive(s, events, c, CheckStillActive(t), t.agent)
    ensures ToldYes(s, events, c, CheckRegistry(t)) && ToldYes(s, events, c, CheckHuman(t))
  {
    hide ToldYes, SawActive, SawStored;
    RunsAreAccounted(s, events, c);
  }

  /** In every run an issued token belongs to an agent that was active before and after it was
      stored, was authorized, and was audited. */
  lemma IssuedWasChecked(s: System, events: seq<Event>, c: nat, t: Token)
    requires Initial(s) && c in Run(s, events).clients && Run(s, events).clients[c] == Done(Issued(t))
    ensures SawActive(s, events, c, CheckActive(t.agent, t.session), t.agent)
    ensures ToldYes(s, events, c, Authorize(t.agent, t.session))
    ensures exists n: nat, yes :: StepAt(s, events, n, c, PutSession(t), yes)
    ensures SawActive(s, events, c, Recheck(t), t.agent) && ToldYes(s, events, c, AuditIssue(t))
  {
    hide ToldYes, SawActive, StepAt;
    RunsAreAccounted(s, events, c);
  }

  // ----- one call by itself -----

  /** What the services answer. */
  datatype Answers = Answers(quarantine: bool, registry: bool, human: bool, authorize: bool, audit: bool)

  function AnswerAt(x: Answers, pc: Pc): bool {
    match pc
    case CheckQuarantine(_) => x.quarantine
    case CheckRegistry(_) => x.registry
    case CheckHuman(_) => x.human
    case Authorize(_, _) => x.authorize
    case AuditIssue(_) => x.audit
    case _ => true
  }

  function Go(s: System, pc: Pc, x: Answers, n: nat): (System, Pc)
    decreases n
  {
    if n == 0 then (s, pc)
    else
      var (s', pc') := StepPc(s, pc, AnswerAt(x, pc));
      Go(s', pc', x, n - 1)
  }

  /** What each event is: a free client begins a call, or time goes on; no session is touched. */
  lemma EventsAre(s: System, c: nat, a: AgentId, sid: SessionId, t: Token, ms: nat)
    ensures c in s.clients ==>
              && Apply(s, BeginIssue(c, a, sid)) == Apply(s, BeginRevoke(c, a)) == Apply(s, BeginActivate(c, a)) == s
              && Apply(s, BeginDrop(c, a, sid)) == Apply(s, BeginVerify(c, t)) == s
    ensures c !in s.clients ==>
              && Apply(s, BeginIssue(c, a, sid)) == s.(clients := s.clients[c := CheckActive(a, sid)])
              && Apply(s, BeginRevoke(c, a)) == s.(clients := s.clients[c := Mark(a)])
              && Apply(s, BeginActivate(c, a)) == s.(clients := s.clients[c := Unmark(a)])
              && Apply(s, BeginDrop(c, a, sid)) == s.(clients := s.clients[c := DropSession(a, sid)])
              && Apply(s, BeginVerify(c, t)) == s.(clients := s.clients[c := CheckQuarantine(t)])
    ensures Apply(s, Tick(ms)) == s.(now := s.now + ms)
  {
  }

  lemma GoStep(s: System, pc: Pc, x: Answers, n: nat)
    requires n > 0
    ensures var (s', pc') := StepPc(s, pc, AnswerAt(x, pc)); Go(s, pc, x, n) == Go(s', pc', x, n - 1)
  {
  }

  lemma {:induction false} DoneStays(s: System, pc: Pc, x: Answers, n: nat)
    requires pc.Done?
    ensures Go(s, pc, x, n) == (s, pc)
    decreases n
  {
    if n > 0 { DoneStays(s, pc, x, n - 1); }
  }

  lemma StepsVerify(s: System, t: Token, x: Answers)
    ensures StepPc(s, CheckQuarantine(t), x.quarantine) == (s, if x.quarantine then CheckRevoked(t) else Done(Rejected))
    ensures StepPc(s, CheckRevoked(t), true) == (s, if t.agent in s.marked then Done(Rejected) else MatchSession(t))
    ensures StepPc(s, MatchSession(t), true)
            == (s, if t.session in Fields(s, t.agent) && Fields(s, t.agent)[t.session] == t then CheckStillActive(t)
                   else Done(Rejected))
    ensures StepPc(s, CheckStillActive(t), true) == (s, if t.agent in s.marked then Done(Rejected) else CheckRegistry(t))
    ensures StepPc(s, CheckRegistry(t), x.registry) == (s, if x.registry then CheckHuman(t) else Done(Rejected))
    ensures StepPc(s, CheckHuman(t), x.human) == (s, Done(if x.human then Accepted(t) else Rejected))
  {
    hide Fields;
  }

  /** Exactly when a verification by itself accepts; it changes nothing. */
  lemma VerificationAloneIs(s: System, t: Token, x: Answers)
    ensures Go(s, CheckQuarantine(t), x, 6)
            == (s, Done(if x.quarantine && t.agent !in s.marked
                           && t.session in Fields(s, t.agent) && Fields(s, t.agent)[t.session] == t
                           && x.registry && x.human
                        then Accepted(t) else Rejected))
  {
    hide Go, Fields, StepPc;
    StepsVerify(s, t, x);
    GoStep(s, CheckQuarantine(t), x, 6);
    if !x.quarantine { DoneStays(s, Done(Rejected), x, 5); return; }
    GoStep(s, CheckRevoked(t), x, 5);
    if t.agent in s.marked { DoneStays(s, Done(Rejected), x, 4); return; }
    GoStep(s, MatchSession(t), x, 4);
    if t.session !in Fields(s, t.agent) || Fields(s, t.agent)[t.session] != t { DoneStays(s, Done(Rejected), x, 3); return; }
    GoStep(s, CheckStillActive(t), x, 3);
    GoStep(s, CheckRegistry(t), x, 2);
    if !x.registry { DoneStays(s, Done(Rejected), x, 1); return; }
    GoStep(s, CheckHuman(t), x, 1);
    DoneStays(s, Done(if x.human then Accepted(t) else Rejected), x, 0);
  }

  /** What an issue by itself does: refused with nothing stored, taken back when the audit sink
      throws, or stored as the session's token for the TTL of the hash. */
  lemma IssueAloneIs(s: System, a: AgentId, sid: SessionId, x: Answers)
    ensures var (s', pc') := Go(s, CheckActive(a, sid), x, 7);
            var t := Token(s.next, a, sid);
            && s'.marked == s.marked && s'.now == s.now
            && if a in s.marked || !x.authorize then s'.hashes == s.hashes && pc' == Done(Refused)
               else
                 && pc' == Done(if x.audit then Issued(t) else Refused)
                 && a in s'.hashes && s'.hashes[a].deadline == Some(s.now + s.ttl)
                 && s'.hashes[a].value == (if x.audit then Fields(s, a)[sid := t] else Fields(s, a) - {sid})
                 && forall b | b != a :: (b in s'.hashes <==> b in s.hashes) && (b in s.hashes ==> s'.hashes[b] == s.hashes[b])
  {
    hide Go, StepVerify, StepRevoke;
    GoStep(s, CheckActive(a, sid), x, 7);
    if a in s.marked { DoneStays(s, Done(Refused), x, 6); return; }
    GoStep(s, Authorize(a, sid), x, 6);
    if !x.authorize { DoneStays(s, Done(Refused), x, 5); return; }
    var t := Token(s.next, a, sid);
    StoreAloneIs(s.(next := s.next + 1), t, x);
  }

  lemma StoreAloneIs(s: System, t: Token, x: Answers)
    requires t.agent !in s.marked
    ensures var (s', pc') := Go(s, PutSession(t), x, 5);
            && s'.marked == s.marked && s'.now == s.now
            && pc' == Done(if x.audit then Issued(t) else Refused)
            && t.agent in s'.hashes && s'.hashes[t.agent].deadline == Some(s.now + s.ttl)
            && s'.hashes[t.agent].value
               == (if x.audit then Fields(s, t.agent)[t.session := t] else Fields(s, t.agent) - {t.session})
            && forall b | b != t.agent :: (b in s'.hashes <==> b in s.hashes) && (b in s.hashes ==> s'.hashes[b] == s.hashes[b])
  {
    hide Go, StepVerify, StepRevoke, HSet, Expire, HDel, Fields;
    GoStep(s, PutSession(t), x, 5);
    var s1 := s.(hashes := HSet(s, t), put := s.put + {t});
    GoStep(s1, SetExpiry(t), x, 4);
    var s2 := s1.(hashes := Expire(s1, t.agent));
    StoredHash(s, t);
    RecheckGoes(s2, t, x);
    assert Fields(s, t.agent)[t.session := t] - {t.session} == Fields(s, t.agent) - {t.session};
  }

  /** The second look at the marker and the audit. */
  lemma RecheckGoes(s: System, t: Token, x: Answers)
    requires t.agent !in s.marked && t.agent in s.hashes
    ensures var h := s.hashes[t.agent];
            Go(s, Recheck(t), x, 3)
            == if x.audit then (s, Done(Issued(t)))
               else (s.(hashes := s.hashes[t.agent := Entry(h.value - {t.session}, h.deadline)]), Done(Refused))
  {
    hide Go, StepPc, HDel;
    GoStep(s, Recheck(t), x, 3);
    GoStep(s, AuditIssue(t), x, 2);
    StepsRecheck(s, t, x);
    if x.audit {
      DoneStays(s, Done(Issued(t)), x, 1);
    } else {
      GoStep(s, TakeBack(t), x, 1);
      TakenBack(s, t);
      DoneStays(s.(hashes := HDel(s, t.agent, t.session)), Done(Refused), x, 0);
    }
  }

  lemma StepsRecheck(s: System, t: Token, x: Answers)
    ensures StepPc(s, Recheck(t), true) == (s, if t.agent in s.marked then TakeBack(t) else AuditIssue(t))
    ensures StepPc(s, AuditIssue(t), x.audit) == (s, if x.audit then Done(Issued(t)) else TakeBack(t))
    ensures StepPc(s, TakeBack(t), true) == (s.(hashes := HDel(s, t.agent, t.session)), Done(Refused))
  {
    hide HDel;
  }

  /** HSET and EXPIRE leave the live fields and the new one, for the whole TTL. */
  lemma StoredHash(s: System, t: Token)
    ensures var s1 := s.(hashes := HSet(s, t), put := s.put + {t});
            Expire(s1, t.agent) == s.hashes[t.agent := Entry(Fields(s, t.agent)[t.session := t], Some(s.now + s.ttl))]
  {
    var s1 := s.(hashes := HSet(s, t), put := s.put + {t});
    var fields := Fields(s, t.agent)[t.session := t];
    assert t.session in fields && Fields(s1, t.agent) == fields;
    assert Expire(s1, t.agent) == s1.hashes[t.agent := Entry(fields, Some(s.now + s.ttl))];
  }

  lemma TakenBack(s: System, t: Token)
    requires t.agent in s.hashes
    ensures var h := s.hashes[t.agent];
            HDel(s, t.agent, t.session) == s.hashes[t.agent := Entry(h.value - {t.session}, h.deadline)]
  {
  }

  /** What the other calls by themselves do. */
  lemma RevocationAloneIs(s: System, a: AgentId, x: Answers)
    ensures var (s', pc') := Go(s, Mark(a), x, 3);
            s'.marked == s.marked + {a} && s'.hashes == s.hashes - {a} && pc' == Done(RevokeDone(a))
  {
    hide Go, StepIssue, StepVerify;
    GoStep(s, Mark(a), x, 3);
    var s1 := s.(marked := s.marked + {a});
    GoStep(s1, Sweep(a), x, 2);
    var s2 := StepPc(s1, Sweep(a), true).0;
    GoStep(s2, AuditRevoke(a), x, 1);
    DoneStays(s2, Done(RevokeDone(a)), x, 0);
  }

  lemma ActivationAndDropAloneAre(s: System, a: AgentId, sid: SessionId, x: Answers)
    ensures var (s', pc') := Go(s, Unmark(a), x, 1);
            s'.marked == s.marked - {a} && s'.hashes == s.hashes && pc' == Done(ActivateDone)
    ensures var (s', pc') := Go(s, DropSession(a, sid), x, 1);
            && s'.marked == s.marked && pc' == Done(Dropped)
            && (a in s'.hashes <==> a in s.hashes)
            && (a in s.hashes ==> s'.hashes[a] == Entry(s.hashes[a].value - {sid}, s.hashes[a].deadline))
            && forall b | b != a :: (b in s'.hashes <==> b in s.hashes) && (b in s.hashes ==> s'.hashes[b] == s.hashes[b])
  {
    hide Go, StepIssue, StepVerify;
    GoStep(s, Unmark(a), x, 1);
    GoStep(s, DropSession(a, sid), x, 1);
    DoneStays(StepPc(s, Unmark(a), true).0, Done(ActivateDone), x, 0);
    DoneStays(StepPc(s, DropSession(a, sid), true).0, Done(Dropped), x, 0);
  }
}
