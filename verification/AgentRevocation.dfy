/** Agent issuance racing revocation: src/agent/agentIdentity.ts.

    `issue` stores the session and then checks the marker; `revokeAgent` sets the marker and
    then sweeps the sessions.  Whoever comes second sees the other.  Every call runs one
    Redis command at a time, in any order with all others. */
module AgentRevocation {
  import opened Options
  import opened Redis

  type AgentId = string
  type SessionId = string

  /** A signed agent token; `jti` is unique to it. */
  datatype Token = Token(jti: nat, agent: AgentId, session: SessionId)

  /** The session hash of one agent: one TTL for all of its fields. */
  type Hash = Entry<map<SessionId, Token>>

  datatype Outcome = Issued(token: Token) | Refused | RevokeDone(agent: AgentId) | ActivateDone | Dropped
                   | Accepted(token: Token) | Rejected

  /** Where a call stands; the named command, or the named service's answer, comes next. */
  datatype Pc =
    // issueToken and issueDelegatedToken
    | CheckActive(agent: AgentId, session: SessionId)
    | Authorize(agent: AgentId, session: SessionId)
    | PutSession(token: Token)
    | SetExpiry(token: Token)
    | Recheck(token: Token)
    | AuditIssue(token: Token)
    | TakeBack(token: Token)
    // revokeAgent, activateAgent, revokeSession
    | Mark(agent: AgentId)
    | Sweep(agent: AgentId)
    | AuditRevoke(agent: AgentId)
    | Unmark(agent: AgentId)
    | DropSession(agent: AgentId, session: SessionId)
    // verifyToken
    | CheckQuarantine(token: Token)
    | CheckRevoked(token: Token)
    | MatchSession(token: Token)
    | CheckStillActive(token: Token)
    | CheckRegistry(token: Token)
    | CheckHuman(token: Token)
    | Done(outcome: Outcome)

  /** `put`, `swept` and `quiet` only record history: the tokens ever stored, the tokens that
      some sweep has passed over, and the agents swept under their marker and not activated
      since. */
  datatype System = System(
    ttl: nat,
    now: nat,
    next: nat,
    marked: set<AgentId>,
    hashes: map<AgentId, Hash>,
    clients: map<nat, Pc>,
    put: set<Token>,
    swept: set<Token>,
    quiet: set<AgentId>
  )

  function Fields(s: System, a: AgentId): map<SessionId, Token> {
    if Live(s.hashes, a, s.now) then s.hashes[a].value
    else map[]
  }

  /** HSET creates the hash without a TTL when it is not there, and otherwise keeps its TTL. */
  function HSet(s: System, t: Token): map<AgentId, Hash> {
    var ttl := if Fields(s, t.agent) == map[] then None else s.hashes[t.agent].deadline;
    s.hashes[t.agent := Entry(Fields(s, t.agent)[t.session := t], ttl)]
  }

  function Expire(s: System, a: AgentId): map<AgentId, Hash> {
    if Fields(s, a) == map[] then s.hashes else s.hashes[a := Entry(Fields(s, a), Some(s.now + s.ttl))]
  }

  function HDel(s: System, a: AgentId, sid: SessionId): map<AgentId, Hash> {
    if a in s.hashes then s.hashes[a := s.hashes[a].(value := s.hashes[a].value - {sid})] else s.hashes
  }

  /** The next command of an issuing call; `yes` is the answer of the service it asks. */
  function StepIssue(s: System, pc: Pc, yes: bool): (System, Pc) {
    match pc
    case CheckActive(a, sid) => (s, if a in s.marked then Done(Refused) else Authorize(a, sid))
    case Authorize(a, sid) =>
      if yes then (s.(next := s.next + 1), PutSession(Token(s.next, a, sid))) else (s, Done(Refused))
    case PutSession(t) => (s.(hashes := HSet(s, t), put := s.put + {t}), SetExpiry(t))
    case SetExpiry(t) => (s.(hashes := Expire(s, t.agent)), Recheck(t))
    case Recheck(t) => (s, if t.agent in s.marked then TakeBack(t) else AuditIssue(t))
    case AuditIssue(t) => (s, if yes then Done(Issued(t)) else TakeBack(t))
    case TakeBack(t) => (s.(hashes := HDel(s, t.agent, t.session)), Done(Refused))
    case _ => (s, pc)
  }

  function StepRevoke(s: System, pc: Pc): (System, Pc) {
    match pc
    case Mark(a) => (s.(marked := s.marked + {a}), Sweep(a))
    case Sweep(a) =>
      (s.(hashes := s.hashes - {a},
          swept := s.swept + (set t <- s.put | t.agent == a),
          quiet := if a in s.marked then s.quiet + {a} else s.quiet), AuditRevoke(a))
    case AuditRevoke(a) => (s, Done(RevokeDone(a)))
    case Unmark(a) => (s.(marked := s.marked - {a}, quiet := s.quiet - {a}), Done(ActivateDone))
    case DropSession(a, sid) => (s.(hashes := HDel(s, a, sid)), Done(Dropped))
    case _ => (s, pc)
  }

  function StepVerify(s: System, pc: Pc, yes: bool): (System, Pc) {
    match pc
    case CheckQuarantine(t) => (s, if yes then CheckRevoked(t) else Done(Rejected))
    case CheckRevoked(t) => (s, if t.agent in s.marked then Done(Rejected) else MatchSession(t))
    case MatchSession(t) =>
      (s, if t.session in Fields(s, t.agent) && Fields(s, t.agent)[t.session] == t then CheckStillActive(t)
          else Done(Rejected))
    case CheckStillActive(t) => (s, if t.agent in s.marked then Done(Rejected) else CheckRegistry(t))
    case CheckRegistry(t) => (s, if yes then CheckHuman(t) else Done(Rejected))
    case CheckHuman(t) => (s, Done(if yes then Accepted(t) else Rejected))
    case _ => (s, pc)
  }

  predicate Issuing(pc: Pc) {
    pc.CheckActive? || pc.Authorize? || pc.PutSession? || pc.SetExpiry? || pc.Recheck? || pc.AuditIssue? || pc.TakeBack?
  }

  predicate Verifying(pc: Pc) {
    pc.CheckQuarantine? || pc.CheckRevoked? || pc.MatchSession? || pc.CheckStillActive? || pc.CheckRegistry? || pc.CheckHuman?
  }

  function StepPc(s: System, pc: Pc, yes: bool): (System, Pc) {
    if Issuing(pc) then StepIssue(s, pc, yes)
    else if Verifying(pc) then StepVerify(s, pc, yes)
    else StepRevoke(s, pc)
  }

  datatype Event =
    | BeginIssue(client: nat, agent: AgentId, session: SessionId)
    | BeginRevoke(client: nat, agent: AgentId)
    | BeginActivate(client: nat, agent: AgentId)
    | BeginDrop(client: nat, agent: AgentId, session: SessionId)
    | BeginVerify(client: nat, token: Token)
    | Step(client: nat, yes: bool)
    | Tick(ms: nat)

  function First(e: Event): Pc
    requires !e.Step? && !e.Tick?
  {
    match e
    case BeginIssue(_, a, sid) => CheckActive(a, sid)
    case BeginRevoke(_, a) => Mark(a)
    case BeginActivate(_, a) => Unmark(a)
    case BeginDrop(_, a, sid) => DropSession(a, sid)
    case BeginVerify(_, t) => CheckQuarantine(t)
  }

  function Apply(s: System, e: Event): System {
    match e
    case Tick(ms) => s.(now := s.now + ms)
    case Step(c, yes) =>
      if c !in s.clients then s
      else
        var (s', pc') := StepPc(s, s.clients[c], yes);
        s'.(clients := s.clients[c := pc'])
    case _ => if e.client in s.clients then s else s.(clients := s.clients[e.client := First(e)])
  }

  function Run(s: System, events: seq<Event>): System {
    if events == [] then s else Apply(Run(s, events[..|events| - 1]), events[|events| - 1])
  }

  ghost predicate Initial(s: System) {
    s.hashes == map[] && s.clients == map[] && s.put == {} && s.swept == {} && s.quiet == {}
  }

  // ----- the invariant -----

  /** An issuing call that has stored this session and has yet to look at the marker, or has
      looked and will take the session back. */
  predicate Covers(pc: Pc, a: AgentId, sid: SessionId) {
    (pc.SetExpiry? || pc.Recheck? || pc.TakeBack?) && pc.token.agent == a && pc.token.session == sid
  }

  ghost predicate Covered(s: System, a: AgentId, sid: SessionId) {
    exists c <- s.clients :: Covers(s.clients[c], a, sid)
  }

  /** A session stored for a swept agent still has its issuer on its heels. */
  ghost predicate QuietSound(s: System) {
    && s.quiet <= s.marked
    && (forall a <- s.quiet | a in s.hashes :: forall sid <- s.hashes[a].value :: Covered(s, a, sid))
  }

  /** Every stored token has been put, never swept, and sits under its own agent. */
  ghost predicate StoredSound(s: System) {
    forall a <- s.hashes, sid <- s.hashes[a].value ::
      var t := s.hashes[a].value[sid];
      t in s.put && t !in s.swept && t.agent == a && t.session == sid
  }

  ghost predicate TokensSound(s: System) {
    && s.swept <= s.put
    && (forall t <- s.put :: t.jti < s.next)
    && (forall c <- s.clients | s.clients[c].PutSession? :: s.clients[c].token !in s.put && s.clients[c].token.jti < s.next)
    && (forall c <- s.clients, d <- s.clients |
          s.clients[c].PutSession? && s.clients[d].PutSession? && s.clients[c].token == s.clients[d].token :: c == d)
  }

  ghost predicate Sound(s: System) {
    QuietSound(s) && StoredSound(s) && TokensSound(s)
  }

  // ----- keeping it -----

  lemma CoverMoves(s: System, s': System, c: nat, pc: Pc, a: AgentId, sid: SessionId)
    requires Covered(s, a, sid) && s'.clients == s.clients[c := pc]
    requires c in s.clients && Covers(s.clients[c], a, sid) ==> Covers(pc, a, sid)
    ensures Covered(s', a, sid)
  {
    var d :| d in s.clients && Covers(s.clients[d], a, sid);
    assert Covers(s'.clients[d], a, sid);
  }

  lemma StepQuiet(s: System, c: nat, yes: bool)
    requires QuietSound(s) && c in s.clients
    ensures QuietSound(Apply(s, Step(c, yes)))
  {
    var pc := s.clients[c];
    var s' := Apply(s, Step(c, yes));
    var pc' := s'.clients[c];
    forall a <- s'.quiet, sid <- (if a in s'.hashes then s'.hashes[a].value.Keys else {})
      ensures Covered(s', a, sid)
    {
      if pc.PutSession? && Covers(pc', a, sid) {
        assert Covers(s'.clients[c], a, sid);
      } else {
        QuietBefore(s, pc, yes, a, sid);
        CoverMoves(s, s', c, pc', a, sid);
      }
    }
  }

  /** What is stored for a quiet agent after a command was already stored and covered before,
      unless the command put it; and the issuer does not look away. */
  lemma QuietBefore(s: System, pc: Pc, yes: bool, a: AgentId, sid: SessionId)
    requires QuietSound(s)
    requires var (s', pc') := StepPc(s, pc, yes);
             a in s'.quiet && a in s'.hashes && sid in s'.hashes[a].value
             && !(pc.PutSession? && Covers(pc', a, sid))
    ensures Covered(s, a, sid)
    ensures Covers(pc, a, sid) ==> Covers(StepPc(s, pc, yes).1, a, sid)
  {
  }

  lemma StepStored(s: System, pc: Pc, yes: bool)
    requires Sound(s) && (pc.PutSession? ==> pc.token !in s.put)
    ensures StoredSound(StepPc(s, pc, yes).0)
  {
    hide QuietSound, Covered;
  }

  lemma StepTokens(s: System, c: nat, yes: bool)
    requires TokensSound(s) && c in s.clients
    ensures TokensSound(Apply(s, Step(c, yes)))
  {
    var (s', pc') := StepPc(s, s.clients[c], yes);
    StepPut(s, s.clients[c], yes);
  }

  lemma StepPut(s: System, pc: Pc, yes: bool)
    requires s.swept <= s.put && (forall t <- s.put :: t.jti < s.next) && (pc.PutSession? ==> pc.token.jti < s.next)
    ensures var (s', pc') := StepPc(s, pc, yes);
            && s'.clients == s.clients && s'.swept <= s'.put && s.next <= s'.next
            && (forall t <- s'.put :: t.jti < s'.next)
            && (s'.put == s.put || (pc.PutSession? && s'.put == s.put + {pc.token}))
            && (pc'.PutSession? ==> pc'.token.jti == s.next < s'.next && s'.put == s.put)
  {
  }

  lemma ApplySound(s: System, e: Event)
    requires Sound(s)
    ensures Sound(Apply(s, e))
  {
    match e
    case Tick(_) =>
      forall a <- s.quiet, sid <- (if a in s.hashes then s.hashes[a].value.Keys else {})
        ensures Covered(Apply(s, e), a, sid) { assert Covered(s, a, sid); }
    case Step(c, yes) =>
      if c in s.clients {
        StepQuiet(s, c, yes);
        StepStored(s, s.clients[c], yes);
        StepTokens(s, c, yes);
      }
    case _ => BeginSound(s, e);
  }

  lemma BeginSound(s: System, e: Event)
    requires Sound(s) && !e.Step? && !e.Tick?
    ensures Sound(Apply(s, e))
  {
    var c := e.client;
    if c !in s.clients {
      forall a <- s.quiet, sid <- (if a in s.hashes then s.hashes[a].value.Keys else {})
        ensures Covered(Apply(s, e), a, sid)
      {
        assert Covered(s, a, sid);
        CoverMoves(s, Apply(s, e), c, First(e), a, sid);
      }
    }
  }

  lemma {:induction false} RunIsSound(s: System, events: seq<Event>)
    requires Initial(s)
    ensures Sound(Run(s, events))
  {
    if events != [] {
      RunIsSound(s, events[..|events| - 1]);
      ApplySound(Run(s, events[..|events| - 1]), events[|events| - 1]);
    }
  }

  // ----- revocation leaves nothing behind -----

  /** Nobody activates agent a, and every revocation of it is where the marker says. */
  ghost predicate NeverActivated(s: System, a: AgentId) {
    forall c <- s.clients ::
      && s.clients[c] != Unmark(a)
      && (s.clients[c] == Sweep(a) ==> a in s.marked)
      && (s.clients[c] == AuditRevoke(a) || s.clients[c] == Done(RevokeDone(a)) ==> a in s.quiet)
  }

  lemma StepNeverActivates(s: System, pc: Pc, yes: bool, a: AgentId)
    requires pc != Unmark(a) && (pc == Sweep(a) ==> a in s.marked)
    requires pc == AuditRevoke(a) || pc == Done(RevokeDone(a)) ==> a in s.quiet
    ensures var (s', pc') := StepPc(s, pc, yes);
            && (a in s.marked ==> a in s'.marked) && (a in s.quiet ==> a in s'.quiet)
            && pc' != Unmark(a) && (pc' == Sweep(a) ==> a in s'.marked)
            && (pc' == AuditRevoke(a) || pc' == Done(RevokeDone(a)) ==> a in s'.quiet)
  {
  }

  lemma ApplyNeverActivates(s: System, e: Event, a: AgentId)
    requires NeverActivated(s, a) && !(e.BeginActivate? && e.agent == a)
    ensures NeverActivated(Apply(s, e), a) && (a in s.marked ==> a in Apply(s, e).marked)
  {
    hide StepPc;
    if e.Step? && e.client in s.clients {
      StepNeverActivates(s, s.clients[e.client], e.yes, a);
    }
  }

  lemma {:induction false} RunNeverActivates(s: System, events: seq<Event>, a: AgentId)
    requires NeverActivated(s, a) && forall e <- events :: !(e.BeginActivate? && e.agent == a)
    ensures NeverActivated(Run(s, events), a) && (a in s.marked ==> a in Run(s, events).marked)
  {
    if events != [] {
      RunNeverActivates(s, events[..|events| - 1], a);
      ApplyNeverActivates(Run(s, events[..|events| - 1]), events[|events| - 1], a);
    }
  }

  ghost predicate NoIssueOutstanding(s: System, a: AgentId) {
    forall c <- s.clients :: !((s.clients[c].SetExpiry? || s.clients[c].Recheck? || s.clients[c].TakeBack?)
                               && s.clients[c].token.agent == a)
  }

  /** However issuing and revoking interleave: once a revocation has returned and the issues
      that had stored something have finished, no session of the agent is stored. */
  lemma RevokedAgentKeepsNoSession(s: System, events: seq<Event>, a: AgentId, c: nat)
    requires Initial(s) && forall e <- events :: !(e.BeginActivate? && e.agent == a)
    requires c in Run(s, events).clients && Run(s, events).clients[c] == Done(RevokeDone(a))
    requires NoIssueOutstanding(Run(s, events), a)
    ensures Fields(Run(s, events), a) == map[]
  {
    var s' := Run(s, events);
    RunIsSound(s, events);
    RunNeverActivates(s, events, a);
    if a in s'.hashes {
      assert forall sid <- s'.hashes[a].value :: Covered(s', a, sid);
      assert s'.hashes[a].value.Keys == {};
    }
  }

  // ----- and nothing comes back -----

  /** A verification of t that has already compared t with the stored session. */
  predicate PastMatch(pc: Pc, t: Token) {
    pc == CheckStillActive(t) || pc == CheckRegistry(t) || pc == CheckHuman(t) || pc == Done(Accepted(t))
  }

  lemma SweptNeverMatches(s: System, e: Event, t: Token, c: nat)
    requires Sound(s) && t in s.swept && c in Apply(s, e).clients && PastMatch(Apply(s, e).clients[c], t)
    ensures c in s.clients && PastMatch(s.clients[c], t) && t in Apply(s, e).swept
  {
    hide QuietSound, TokensSound;
  }

  lemma SweptStays(s: System, e: Event, t: Token)
    requires t in s.swept
    ensures t in Apply(s, e).swept
  {
  }

  lemma {:induction false} RunSweptNeverMatches(s: System, events: seq<Event>, t: Token, c: nat)
    requires Sound(s) && t in s.swept
    ensures Sound(Run(s, events)) && t in Run(s, events).swept
    ensures c in Run(s, events).clients && PastMatch(Run(s, events).clients[c], t)
            ==> c in s.clients && PastMatch(s.clients[c], t)
  {
    if events != [] {
      var before, e := events[..|events| - 1], events[|events| - 1];
      RunSweptNeverMatches(s, before, t, c);
      ApplySound(Run(s, before), e);
      SweptStays(Run(s, before), e, t);
      if c in Run(s, events).clients && PastMatch(Run(s, events).clients[c], t) {
        SweptNeverMatches(Run(s, before), e, t, c);
      }
    }
  }

  /** A token stored when a sweep of its agent runs is accepted afterwards only by a
      verification that had already matched it: activating the agent again, reissuing the
      same session id or racing issues never bring it back. */
  lemma SweptTokenNeverVerifies(s: System, events: seq<Event>, later: seq<Event>, t: Token, r: nat, yes: bool, c: nat)
    requires Initial(s)
    requires var m := Run(s, events);
             r in m.clients && m.clients[r] == Sweep(t.agent)
             && t.session in Fields(m, t.agent) && Fields(m, t.agent)[t.session] == t
    requires var end := Run(Apply(Run(s, events), Step(r, yes)), later);
             c in end.clients && end.clients[c] == Done(Accepted(t))
    ensures c in Run(s, events).clients && PastMatch(Run(s, events).clients[c], t)
  {
    var m := Run(s, events);
    var swept := Apply(m, Step(r, yes));
    RunIsSound(s, events);
    ApplySound(m, Step(r, yes));
    assert t in m.put;
    RunSweptNeverMatches(swept, later, t, c);
  }

  predicate PastActivity(pc: Pc, t: Token) {
    pc == CheckRegistry(t) || pc == CheckHuman(t) || pc == Done(Accepted(t))
  }

  lemma MarkedNeverPasses(s: System, e: Event, t: Token, c: nat)
    requires t.agent in s.marked && c in Apply(s, e).clients && PastActivity(Apply(s, e).clients[c], t)
    ensures c in s.clients && PastActivity(s.clients[c], t)
  {
  }

  /** While an agent stays revoked no token of it is accepted, except by a verification that
      had made its last look at the marker before. */
  lemma {:induction false} RevokedAgentNeverVerifies(s: System, events: seq<Event>, t: Token, c: nat)
    requires NeverActivated(s, t.agent) && t.agent in s.marked
    requires forall e <- events :: !(e.BeginActivate? && e.agent == t.agent)
    requires c in Run(s, events).clients && PastActivity(Run(s, events).clients[c], t)
    ensures c in s.clients && PastActivity(s.clients[c], t)
  {
    if events != [] {
      var before, e := events[..|events| - 1], events[|events| - 1];
      RunNeverActivates(s, before, t.agent);
      MarkedNeverPasses(Run(s, before), e, t, c);
      RevokedAgentNeverVerifies(s, before, t, c);
    }
  }
}
