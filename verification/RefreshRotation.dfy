/** Refresh-token rotation of src/auth/refreshService.ts under every interleaving.

    Clients refresh, issue and revoke concurrently, one Redis command at a time; locks and
    keys expire at any moment and any call to the signer, the risk service or the audit
    sink may throw.  The lock is an optimisation only: every theorem holds with it expired. */
module RefreshRotation {
  import opened Options
  import opened Redis
  import opened RefreshTokens

  /** A successful exchange of `spent` for `minted` by one client. */
  datatype Exchange = Exchange(client: nat, spent: Token, minted: Token)

  datatype Outcome = Refreshed(minted: Token) | Issued(token: Token) | Revoked | Threw

  /** Where a client stands; the named command or service call is the next one. */
  datatype Pc =
    | CheckQuarantine(t: Token)
    | Acquire(t: Token)
    | ReportBusy(t: Token)
    | ReadKey(t: Token, lock: nat)
    | ReportReplay(t: Token, lock: nat)
    | SignRefresh(t: Token, lock: nat, seen: Stored)
    | SwapKey(t: Token, lock: nat, seen: Stored, minted: Token)
    | ReportLostRace(t: Token, lock: nat)
    | SignAccess(t: Token, lock: nat, minted: Token)
    | AuditRotation(t: Token, lock: nat, minted: Token)
    | DropKey(t: Token, lock: nat)
    | DropIndex(t: Token, lock: nat)
    | DropSession(t: Token, lock: nat)
    | Release(t: Token, lock: nat, outcome: Outcome)
    | StoreKey(minted: Token)
    | Track(minted: Token)
    | UndoStore(minted: Token)
    | AuditIssue(minted: Token)
    | RevokeKey(family: Family, outcome: Outcome)
    | RevokeIndex(family: Family, outcome: Outcome)
    | RevokeSession(family: Family, outcome: Outcome)
    | Done(presented: Option<Token>, outcome: Outcome)

  datatype System = System(
    rotate: bool,
    ttl: nat,
    now: nat,
    keys: map<Family, Entry<Stored>>,
    locks: map<Family, Entry<nat>>,
    quarantined: set<Family>,
    next: nat,
    clients: map<nat, Pc>,
    exchanges: seq<Exchange>
  )

  /** Events that are not enabled change nothing.  `fails` makes the service call at the
      client's program counter throw; Redis commands do not fail.  `Quarantine` is the risk
      service changing its mind, and `Vanish` a process that dies. */
  datatype Event =
    | BeginRefresh(client: nat, t: Token)
    | BeginIssue(client: nat, family: Family)
    | BeginRevoke(client: nat, family: Family)
    | Step(client: nat, fails: bool)
    | Tick(ms: nat)
    | Quarantine(family: Family, on: bool)
    | Vanish(client: nat)

  function Goto(s: System, c: nat, pc: Pc): System {
    s.(clients := s.clients[c := pc])
  }

  /** The next command of a `refresh` call: what it does to the store, and where it leads. */
  function StepRefresh(s: System, c: nat, pc: Pc, fails: bool): (System, Pc) {
    match pc
    case CheckQuarantine(t) => (s, if t.family in s.quarantined then Done(Some(t), Threw) else Acquire(t))
    case Acquire(t) =>
      var (locks', ok) := SetIfAbsent(s.locks, t.family, s.next, s.now, REFRESH_LOCK_TTL_MS);
      (s.(locks := locks', next := s.next + 1), if ok then ReadKey(t, s.next) else ReportBusy(t))
    case ReportBusy(t) => (s, Done(Some(t), Threw))
    case ReadKey(t, lock) =>
      var stored := Get(s.keys, t.family, s.now);
      (s, if stored.None? || stored.value.token != t then ReportReplay(t, lock)
          else if s.rotate then SignRefresh(t, lock, stored.value)
          else SignAccess(t, lock, t))
    case ReportReplay(t, lock) => (s, DropKey(t, lock))
    case SignRefresh(t, lock, seen) =>
      if fails then (s, Release(t, lock, Threw))
      else (s.(next := s.next + 1), SwapKey(t, lock, seen, Token(s.next, t.family)))
    case SwapKey(t, lock, seen, minted) =>
      var (keys', ok) := CompareAndSet(s.keys, t.family, seen, Fingerprint(minted), s.now, s.ttl);
      if ok then (s.(keys := keys', exchanges := s.exchanges + [Exchange(c, t, minted)]), SignAccess(t, lock, minted))
      else (s, ReportLostRace(t, lock))
    case ReportLostRace(t, lock) => (s, DropKey(t, lock))
    case SignAccess(t, lock, minted) => (s, if fails then DropKey(t, lock) else AuditRotation(t, lock, minted))
    case AuditRotation(t, lock, minted) =>
      (s, if fails then DropKey(t, lock) else Release(t, lock, Refreshed(minted)))
    case DropKey(t, lock) => (s.(keys := Del(s.keys, t.family)), DropIndex(t, lock))
    case DropIndex(t, lock) => (s, DropSession(t, lock))
    case DropSession(t, lock) => (s, Release(t, lock, Threw))
    case Release(t, lock, outcome) =>
      (s.(locks := DelIfOwner(s.locks, t.family, lock, s.now)), Done(Some(t), outcome))
    case _ => (s, pc)
  }

  /** The next command of `generateRefreshToken` or of a revocation. */
  function StepOther(s: System, pc: Pc, fails: bool): (System, Pc) {
    match pc
    case StoreKey(minted) =>
      (s.(keys := Set(s.keys, minted.family, Fingerprint(minted), s.now, s.ttl)), Track(minted))
    case Track(minted) => (s, if fails then UndoStore(minted) else AuditIssue(minted))
    case UndoStore(minted) => (s.(keys := Del(s.keys, minted.family)), Done(None, Threw))
    case AuditIssue(minted) => (s, if fails then RevokeKey(minted.family, Threw) else Done(None, Issued(minted)))
    case RevokeKey(f, outcome) => (s.(keys := Del(s.keys, f)), RevokeIndex(f, outcome))
    case RevokeIndex(f, outcome) => (s, RevokeSession(f, outcome))
    case RevokeSession(_, outcome) => (s, Done(None, outcome))
    case _ => (s, pc)
  }

  function StepPc(s: System, c: nat, pc: Pc, fails: bool): (System, Pc) {
    if InRefresh(pc) then StepRefresh(s, c, pc, fails) else StepOther(s, pc, fails)
  }

  predicate InRefresh(pc: Pc) {
    !(pc.StoreKey? || pc.Track? || pc.UndoStore? || pc.AuditIssue?
      || pc.RevokeKey? || pc.RevokeIndex? || pc.RevokeSession? || pc.Done?)
  }

  function Apply(s: System, e: Event): System {
    match e
    case BeginRefresh(c, t) => if c in s.clients then s else Goto(s, c, CheckQuarantine(t))
    case BeginIssue(c, f) =>
      if c in s.clients then s else Goto(s.(next := s.next + 1), c, StoreKey(Token(s.next, f)))
    case BeginRevoke(c, f) => if c in s.clients then s else Goto(s, c, RevokeKey(f, Revoked))
    case Step(c, fails) =>
      if c !in s.clients then s
      else
        var (s', pc') := StepPc(s, c, s.clients[c], fails);
        s'.(clients := s.clients[c := pc'])
    case Tick(ms) => s.(now := s.now + ms)
    case Quarantine(f, on) => s.(quarantined := if on then s.quarantined + {f} else s.quarantined - {f})
    case Vanish(c) => s.(clients := s.clients - {c})
  }

  function Run(s: System, events: seq<Event>): System {
    if events == [] then s else Apply(Run(s, events[..|events| - 1]), events[|events| - 1])
  }

  /** What each event is: a free client begins a call, time goes on, the risk service changes its
      mind, a process dies.  None of them touches a key or a lock. */
  lemma EventsAre(s: System, c: nat, t: Token, f: Family, ms: nat, on: bool)
    ensures c in s.clients ==>
              Apply(s, BeginRefresh(c, t)) == Apply(s, BeginIssue(c, f)) == Apply(s, BeginRevoke(c, f)) == s
    ensures c !in s.clients ==>
              && Apply(s, BeginRefresh(c, t)) == s.(clients := s.clients[c := CheckQuarantine(t)])
              && Apply(s, BeginIssue(c, f)) == s.(next := s.next + 1, clients := s.clients[c := StoreKey(Token(s.next, f))])
              && Apply(s, BeginRevoke(c, f)) == s.(clients := s.clients[c := RevokeKey(f, Revoked)])
    ensures Apply(s, Tick(ms)) == s.(now := s.now + ms)
    ensures Apply(s, Quarantine(f, true)) == s.(quarantined := s.quarantined + {f})
    ensures Apply(s, Quarantine(f, false)) == s.(quarantined := s.quarantined - {f})
    ensures Apply(s, Vanish(c)) == s.(clients := s.clients - {c})
  {
  }

  /** Nobody is running and no exchange has been made; the store may already hold keys. */
  ghost predicate Initial(s: System) {
    && s.clients == map[] && s.exchanges == []
    && (forall f <- s.keys :: s.keys[f].value.token.family == f && s.keys[f].value.token.jti < s.next)
  }

  // ----- the invariant -----

  function Exchanged(s: System): set<Token> {
    set e <- s.exchanges :: e.spent
  }

  /** The minted token a client has signed but not yet stored. */
  function Pending(pc: Pc): Option<Token> {
    match pc
    case SwapKey(_, _, _, minted) => Some(minted)
    case StoreKey(minted) => Some(minted)
    case _ => None
  }

  ghost predicate KeysSound(s: System) {
    forall f <- s.keys ::
      var t := s.keys[f].value.token;
      t.family == f && t.jti < s.next && t !in Exchanged(s)
  }

  /** A pending token is in nobody else's hands: not stored, not exchanged, not pending twice. */
  ghost predicate PendingSound(s: System) {
    && (forall c <- s.clients | Pending(s.clients[c]).Some? ::
          var t := Pending(s.clients[c]).value;
          t.jti < s.next && t !in Exchanged(s) && (forall f <- s.keys :: s.keys[f].value.token != t))
    && (forall c <- s.clients, d <- s.clients |
          Pending(s.clients[c]).Some? && Pending(s.clients[c]) == Pending(s.clients[d]) :: c == d)
  }

  /** A rotated token stands for an entry in the exchange history. */
  ghost predicate Earned(s: System, c: nat, pc: Pc) {
    match pc
    case SwapKey(t, _, seen, minted) => seen.token == t && minted.family == t.family
    case SignRefresh(t, _, seen) => seen.token == t
    case SignAccess(t, _, minted) => Exchange(c, t, minted) in s.exchanges
    case AuditRotation(t, _, minted) => Exchange(c, t, minted) in s.exchanges
    case Release(t, _, Refreshed(minted)) => Exchange(c, t, minted) in s.exchanges
    case Done(Some(t), Refreshed(minted)) => Exchange(c, t, minted) in s.exchanges
    case Done(None, Refreshed(_)) => false
    case RevokeKey(_, Refreshed(_)) => false
    case RevokeIndex(_, Refreshed(_)) => false
    case RevokeSession(_, Refreshed(_)) => false
    case _ => true
  }

  ghost predicate SpentOnce(s: System) {
    forall i, j :: 0 <= i < j < |s.exchanges| ==> s.exchanges[i].spent != s.exchanges[j].spent
  }

  ghost predicate Sound(s: System) {
    && s.rotate && KeysSound(s) && PendingSound(s) && SpentOnce(s)
    && (forall c <- s.clients :: Earned(s, c, s.clients[c]))
    && (forall e <- s.exchanges :: e.spent.jti < s.next)
  }

  // ----- keeping it -----

  /** A client moves on: it earned its place and holds no token that it did not hold before. */
  lemma MoveSound(s: System, c: nat, pc: Pc)
    requires Sound(s) && Earned(s, c, pc)
    requires Pending(pc).Some? ==> c in s.clients && Pending(pc) == Pending(s.clients[c])
    ensures Sound(Goto(s, c, pc))
  {
    var s' := Goto(s, c, pc);
    assert Exchanged(s') == Exchanged(s);
    forall d <- s'.clients ensures Earned(s', d, s'.clients[d]) {
      if d != c { assert Earned(s, d, s.clients[d]); }
    }
  }

  /** A client signs a token nobody has seen. */
  lemma SignSound(s: System, c: nat, pc: Pc)
    requires Sound(s) && Earned(s, c, pc)
    requires Pending(pc).Some? && Pending(pc).value.jti == s.next
    ensures Sound(Goto(s.(next := s.next + 1), c, pc))
  {
    var s' := Goto(s.(next := s.next + 1), c, pc);
    assert Exchanged(s') == Exchanged(s);
    assert Pending(pc).value !in Exchanged(s);
    forall d <- s'.clients ensures Earned(s', d, s'.clients[d]) {
      if d != c { assert Earned(s, d, s.clients[d]); }
    }
  }

  /** Locks, serials, time and quarantine are not part of the argument, and losing a key or
      a client never hurts. */
  lemma DropsSound(s: System, s': System)
    requires Sound(s) && s'.rotate == s.rotate && s'.exchanges == s.exchanges && s.next <= s'.next
    requires forall f <- s'.keys :: f in s.keys && s'.keys[f] == s.keys[f]
    requires forall c <- s'.clients :: c in s.clients && s'.clients[c] == s.clients[c]
    ensures Sound(s')
  {
    assert Exchanged(s') == Exchanged(s);
    forall d <- s'.clients ensures Earned(s', d, s'.clients[d]) {
      assert Earned(s, d, s.clients[d]);
    }
  }

  lemma ShedSound(s: System, s': System, c: nat, pc: Pc)
    requires Sound(s) && s'.rotate == s.rotate && s'.exchanges == s.exchanges && s.next <= s'.next
    requires forall f <- s'.keys :: f in s.keys && s'.keys[f] == s.keys[f]
    requires s'.clients == s.clients && Pending(pc).None? && Earned(s', c, pc)
    ensures Sound(Goto(s', c, pc))
  {
    hide Sound;
    DropsSound(s, s');
    MoveSound(s', c, pc);
  }

  lemma StoreSound(s: System, c: nat, minted: Token)
    requires Sound(s) && c in s.clients && s.clients[c] == StoreKey(minted)
    ensures Sound(Goto(s.(keys := Set(s.keys, minted.family, Fingerprint(minted), s.now, s.ttl)), c, Track(minted)))
  {
    var s' := Goto(s.(keys := Set(s.keys, minted.family, Fingerprint(minted), s.now, s.ttl)), c, Track(minted));
    assert Exchanged(s') == Exchanged(s);
    assert Pending(s.clients[c]) == Some(minted);
    forall d <- s'.clients ensures Earned(s', d, s'.clients[d]) {
      if d != c { assert Earned(s, d, s.clients[d]); }
    }
  }

  /** The state after client c has exchanged t for `minted`. */
  function Swapped(s: System, c: nat, t: Token, lock: nat, minted: Token): System {
    Goto(s.(keys := Set(s.keys, t.family, Fingerprint(minted), s.now, s.ttl),
            exchanges := s.exchanges + [Exchange(c, t, minted)]), c, SignAccess(t, lock, minted))
  }

  ghost predicate CanSwap(s: System, c: nat, t: Token, lock: nat, seen: Stored, minted: Token) {
    && c in s.clients && s.clients[c] == SwapKey(t, lock, seen, minted)
    && Get(s.keys, t.family, s.now) == Some(seen) && seen.token == t && minted.family == t.family
  }

  lemma SwapKeysSound(s: System, c: nat, t: Token, lock: nat, seen: Stored, minted: Token)
    requires CanSwap(s, c, t, lock, seen, minted) && KeysSound(s) && PendingSound(s)
    ensures Exchanged(Swapped(s, c, t, lock, minted)) == Exchanged(s) + {t}
    ensures KeysSound(Swapped(s, c, t, lock, minted))
  {
  }

  lemma SwapPendingSound(s: System, c: nat, t: Token, lock: nat, seen: Stored, minted: Token)
    requires CanSwap(s, c, t, lock, seen, minted) && KeysSound(s) && PendingSound(s)
    ensures PendingSound(Swapped(s, c, t, lock, minted))
  {
  }

  lemma SwapSpentOnce(s: System, c: nat, t: Token, lock: nat, seen: Stored, minted: Token)
    requires CanSwap(s, c, t, lock, seen, minted) && KeysSound(s) && SpentOnce(s)
    ensures SpentOnce(Swapped(s, c, t, lock, minted))
  {
    var s' := Swapped(s, c, t, lock, minted);
    assert t !in Exchanged(s);
    forall i, j | 0 <= i < j < |s'.exchanges| ensures s'.exchanges[i].spent != s'.exchanges[j].spent {
      if j == |s.exchanges| { assert s.exchanges[i] in s.exchanges; }
    }
  }

  /** The compare-and-set spends the presented token and hands out the pending one. */
  lemma SwapSound(s: System, c: nat, t: Token, lock: nat, seen: Stored, minted: Token)
    requires Sound(s) && CanSwap(s, c, t, lock, seen, minted)
    ensures Sound(Swapped(s, c, t, lock, minted))
  {
    SwapKeysSound(s, c, t, lock, seen, minted);
    SwapPendingSound(s, c, t, lock, seen, minted);
    SwapSpentOnce(s, c, t, lock, seen, minted);
    assert t.jti < s.next;
    hide KeysSound, PendingSound, SpentOnce;
    var s' := Swapped(s, c, t, lock, minted);
    forall d <- s'.clients ensures Earned(s', d, s'.clients[d]) {
      if d != c { assert Earned(s, d, s.clients[d]); }
    }
  }

  lemma StepRefreshSound(s: System, c: nat, fails: bool)
    requires Sound(s) && c in s.clients && InRefresh(s.clients[c])
    ensures var (s', pc') := StepRefresh(s, c, s.clients[c], fails);
            s'.clients == s.clients && Sound(Goto(s', c, pc'))
  {
    hide Sound, Goto;
    var pc := s.clients[c];
    var (s', pc') := StepRefresh(s, c, pc, fails);
    SoundEarned(s, c);
    match pc
    case SignRefresh(t, lock, seen) => if fails { MoveSound(s, c, pc'); } else { SignSound(s, c, pc'); }
    case SwapKey(t, lock, seen, minted) =>
      if Get(s.keys, t.family, s.now) == Some(seen) { SwapSound(s, c, t, lock, seen, minted); } else { MoveSound(s, c, pc'); }
    case _ => ShedSound(s, s', c, pc');
  }

  lemma SoundEarned(s: System, c: nat)
    requires Sound(s) && c in s.clients
    ensures s.rotate && Earned(s, c, s.clients[c])
  {
  }

  lemma StepOtherSound(s: System, c: nat, fails: bool)
    requires Sound(s) && c in s.clients && !InRefresh(s.clients[c])
    ensures var (s', pc') := StepOther(s, s.clients[c], fails);
            s'.clients == s.clients && Sound(Goto(s', c, pc'))
  {
    hide Sound, Goto;
    var pc := s.clients[c];
    var (s', pc') := StepOther(s, pc, fails);
    SoundEarned(s, c);
    match pc
    case StoreKey(minted) => StoreSound(s, c, minted);
    case _ => ShedSound(s, s', c, pc');
  }

  lemma ApplySound(s: System, e: Event)
    requires Sound(s)
    ensures Sound(Apply(s, e))
  {
    hide Sound, StepRefresh, StepOther;
    match e
    case BeginRefresh(c, t) => if c !in s.clients { MoveSound(s, c, CheckQuarantine(t)); }
    case BeginIssue(c, f) => if c !in s.clients { SignSound(s, c, StoreKey(Token(s.next, f))); }
    case BeginRevoke(c, f) => if c !in s.clients { MoveSound(s, c, RevokeKey(f, Revoked)); }
    case Step(c, fails) =>
      if c in s.clients {
        if InRefresh(s.clients[c]) { StepRefreshSound(s, c, fails); } else { StepOtherSound(s, c, fails); }
      }
    case _ => DropsSound(s, Apply(s, e));
  }

  lemma {:induction false} RunIsSound(s: System, events: seq<Event>)
    requires Initial(s) && s.rotate
    ensures Sound(Run(s, events))
  {
    if events == [] {
      assert Exchanged(s) == {};
    } else {
      RunIsSound(s, events[..|events| - 1]);
      ApplySound(Run(s, events[..|events| - 1]), events[|events| - 1]);
    }
  }

  // ----- each token is exchanged at most once -----

  ghost predicate Succeeded(s: System, c: nat, t: Token) {
    c in s.clients && s.clients[c].Done? && s.clients[c].presented == Some(t) && s.clients[c].outcome.Refreshed?
  }

  /** Whatever the interleaving and however many locks expire, of all the calls that present
      a token at most one returns a new pair. */
  lemma ExchangedAtMostOnce(s: System, events: seq<Event>, t: Token, c: nat, d: nat)
    requires Initial(s) && s.rotate
    requires Succeeded(Run(s, events), c, t) && Succeeded(Run(s, events), d, t)
    ensures c == d
  {
    var s' := Run(s, events);
    RunIsSound(s, events);
    SoundEarned(s', c);
    SoundEarned(s', d);
    var i :| 0 <= i < |s'.exchanges| && s'.exchanges[i] == Exchange(c, t, s'.clients[c].outcome.minted);
    var j :| 0 <= j < |s'.exchanges| && s'.exchanges[j] == Exchange(d, t, s'.clients[d].outcome.minted);
    assert s'.exchanges[i].spent == s'.exchanges[j].spent;
  }

  /** A token that has been exchanged is never accepted again, not even by the comparison
      that would detect its replay. */
  lemma SpentTokenIsDead(s: System, events: seq<Event>, e: Exchange, f: Family)
    requires Initial(s) && s.rotate && e in Run(s, events).exchanges
    ensures var s' := Run(s, events);
            match Get(s'.keys, f, s'.now) case None => true case Some(stored) => stored.token != e.spent
  {
    RunIsSound(s, events);
    assert e.spent in Exchanged(Run(s, events));
  }

  // ----- revocation is final -----

  /** The family key is gone and no issuer is about to write it. */
  ghost predicate Closed(s: System, f: Family) {
    && !Live(s.keys, f, s.now)
    && (forall c <- s.clients :: !(s.clients[c].StoreKey? && s.clients[c].minted.family == f))
  }

  predicate OpensFamily(e: Event, f: Family) {
    e.BeginIssue? && e.family == f
  }

  /** A step never leads to the brink of a SET, and keeps f absent unless it is that SET. */
  lemma StepTouches(s: System, c: nat, pc: Pc, fails: bool, f: Family)
    requires !Live(s.keys, f, s.now)
    ensures var (s', pc') := StepPc(s, c, pc, fails);
            && s'.now == s.now
            && (pc'.StoreKey? ==> pc' == pc)
            && (Live(s'.keys, f, s'.now) ==> pc.StoreKey? && pc.minted.family == f)
            && (s'.exchanges == s.exchanges
                || (pc.SwapKey? && pc.t.family != f && s'.exchanges == s.exchanges + [Exchange(c, pc.t, pc.minted)]))
  {
  }

  /** Only the SET of `generateRefreshToken` can bring a family key back. */
  lemma OnlyIssueRevives(s: System, e: Event, f: Family)
    requires !Live(s.keys, f, s.now) && Live(Apply(s, e).keys, f, Apply(s, e).now)
    ensures e.Step? && e.client in s.clients && s.clients[e.client].StoreKey?
    ensures s.clients[e.client].minted.family == f
  {
    hide StepRefresh, StepOther;
    if e.Step? && e.client in s.clients { StepTouches(s, e.client, s.clients[e.client], e.fails, f); }
  }

  lemma ApplyKeepsClosed(s: System, e: Event, f: Family)
    requires Closed(s, f) && !OpensFamily(e, f)
    ensures Closed(Apply(s, e), f)
  {
    hide StepRefresh, StepOther;
    if e.Step? && e.client in s.clients { StepTouches(s, e.client, s.clients[e.client], e.fails, f); }
  }

  lemma ApplyExchanges(s: System, e: Event, f: Family)
    requires !Live(s.keys, f, s.now)
    ensures Apply(s, e).exchanges == s.exchanges
            || exists x :: Apply(s, e).exchanges == s.exchanges + [x] && x.spent.family != f
  {
    hide StepRefresh, StepOther;
    if e.Step? && e.client in s.clients { StepTouches(s, e.client, s.clients[e.client], e.fails, f); }
  }

  /** Once a family is closed no refresh, in flight or later, rotates it or recreates it. */
  lemma {:induction false} ClosedFamilyStaysClosed(s: System, events: seq<Event>, f: Family)
    requires Closed(s, f) && forall e <- events :: !OpensFamily(e, f)
    ensures Closed(Run(s, events), f)
    ensures s.exchanges <= Run(s, events).exchanges
    ensures forall k | |s.exchanges| <= k < |Run(s, events).exchanges| :: Run(s, events).exchanges[k].spent.family != f
  {
    if events != [] {
      var before, e := events[..|events| - 1], events[|events| - 1];
      ClosedFamilyStaysClosed(s, before, f);
      ApplyKeepsClosed(Run(s, before), e, f);
      ApplyExchanges(Run(s, before), e, f);
    }
  }

  lemma {:induction false} RunSplits(s: System, events: seq<Event>, later: seq<Event>)
    ensures Run(s, events + later) == Run(Run(s, events), later)
    decreases |later|
  {
    if later == [] {
      assert events + later == events;
    } else {
      assert (events + later)[..|events + later| - 1] == events + later[..|later| - 1];
      RunSplits(s, events, later[..|later| - 1]);
    }
  }

  /** A refresh that returns a pair after its family was closed had already made its exchange
      before: a replay, a lost race or a revocation stops everything that comes later. */
  lemma NoRefreshAfterRevocation(s: System, events: seq<Event>, later: seq<Event>, f: Family, c: nat, t: Token)
    requires Initial(s) && s.rotate && Closed(Run(s, events), f)
    requires forall e <- later :: !OpensFamily(e, f)
    requires t.family == f && Succeeded(Run(s, events + later), c, t)
    ensures Exchange(c, t, Run(s, events + later).clients[c].outcome.minted) in Run(s, events).exchanges
  {
    var middle, end := Run(s, events), Run(s, events + later);
    RunSplits(s, events, later);
    RunIsSound(s, events + later);
    SoundEarned(end, c);
    ClosedFamilyStaysClosed(middle, later, f);
    var k :| 0 <= k < |end.exchanges| && end.exchanges[k] == Exchange(c, t, end.clients[c].outcome.minted);
  }

  /** The client's next command deletes the family key: a revocation, or the end of a refresh
      after a replay, a lost race or a failed access signer or audit. */
  predicate AboutToDelete(pc: Pc, f: Family) {
    (pc.RevokeKey? && pc.family == f) || (pc.DropKey? && pc.t.family == f)
  }

  ghost predicate NoIssuePending(s: System, f: Family) {
    forall c <- s.clients :: !(s.clients[c].StoreKey? && s.clients[c].minted.family == f)
  }

  /** That command leaves the family without a key, and closed unless an issue is pending. */
  lemma DeletionCloses(s: System, r: nat, fails: bool, f: Family)
    requires r in s.clients && AboutToDelete(s.clients[r], f)
    ensures f !in Apply(s, Step(r, fails)).keys
    ensures NoIssuePending(s, f) ==> Closed(Apply(s, Step(r, fails)), f)
    ensures Apply(s, Step(r, fails)).exchanges == s.exchanges
  {
  }

  /** Where the client of a revocation, or of a refresh that must end its family, is bound for. */
  lemma DeletionIsNext(s: System, c: nat, pc: Pc, fails: bool)
    ensures var pc' := StepPc(s, c, pc, fails).1;
            && (pc.ReportReplay? || pc.ReportLostRace? ==> pc' == DropKey(pc.t, pc.lock))
            && ((pc.SignAccess? || pc.AuditRotation?) && fails ==> pc' == DropKey(pc.t, pc.lock))
            && (pc.AuditIssue? && fails ==> pc' == RevokeKey(pc.minted.family, Threw))
            && (pc.ReadKey? && (pc.t.family !in s.keys || s.keys[pc.t.family].value.token != pc.t)
                ==> pc' == ReportReplay(pc.t, pc.lock))
            && (pc.SwapKey? && Get(s.keys, pc.t.family, s.now) != Some(pc.seen) ==> pc' == ReportLostRace(pc.t, pc.lock))
  {
  }

  /** Whoever makes that deletion, and whatever runs beside it: with no issue of the family pending
      or begun later, every call that returns a pair for the family had made its exchange before. */
  lemma DeletionIsFinal(s: System, events: seq<Event>, r: nat, fails: bool, later: seq<Event>, f: Family, c: nat, t: Token)
    requires Initial(s) && s.rotate
    requires var m := Run(s, events);
             r in m.clients && AboutToDelete(m.clients[r], f) && NoIssuePending(m, f)
    requires forall e <- later :: !OpensFamily(e, f)
    requires t.family == f && Succeeded(Run(s, events + [Step(r, fails)] + later), c, t)
    ensures var end := Run(s, events + [Step(r, fails)] + later);
            Exchange(c, t, end.clients[c].outcome.minted) in Run(s, events).exchanges
  {
    hide Run, Apply, Closed;
    var m, now := Run(s, events), events + [Step(r, fails)];
    RunSplits(s, events, [Step(r, fails)]);
    RunOne(m, Step(r, fails));
    DeletionCloses(m, r, fails, f);
    NoRefreshAfterRevocation(s, now, later, f, c, t);
  }

  lemma RunOne(s: System, e: Event)
    ensures Run(s, [e]) == Apply(s, e)
  {
    hide Apply;
    assert [e][..0] == [];
  }

  // ----- what the lock does give -----

  /** The lock a client believes it holds. */
  function Holding(pc: Pc): Option<(Family, nat)> {
    if InRefresh(pc) && !pc.CheckQuarantine? && !pc.Acquire? && !pc.ReportBusy? then Some((pc.t.family, pc.lock))
    else None
  }

  ghost predicate LocksSound(s: System) {
    && (forall c <- s.clients | Holding(s.clients[c]).Some? :: Holding(s.clients[c]).value.1 < s.next)
    && (forall c <- s.clients, d <- s.clients |
          Holding(s.clients[c]).Some? && Holding(s.clients[d]).Some?
          && Holding(s.clients[c]).value.1 == Holding(s.clients[d]).value.1 :: c == d)
  }

  /** A step keeps the lock it has, drops it, or draws a serial that nobody holds. */
  lemma StepLocks(s: System, c: nat, pc: Pc, fails: bool)
    ensures var (s', pc') := StepPc(s, c, pc, fails);
            && s.next <= s'.next
            && (Holding(pc').Some? ==>
                  Holding(pc') == Holding(pc) || (pc.Acquire? && Holding(pc').value.1 == s.next < s'.next))
  {
  }

  lemma ApplyKeepsLocksSound(s: System, e: Event)
    requires LocksSound(s)
    ensures LocksSound(Apply(s, e))
  {
    hide StepRefresh, StepOther;
    if e.Step? && e.client in s.clients { StepLocks(s, e.client, s.clients[e.client], e.fails); }
  }

  lemma {:induction false} LocksStaySound(s: System, events: seq<Event>)
    requires Initial(s)
    ensures LocksSound(Run(s, events))
  {
    if events != [] {
      LocksStaySound(s, events[..|events| - 1]);
      ApplyKeepsLocksSound(Run(s, events[..|events| - 1]), events[|events| - 1]);
    }
  }

  predicate StillHolds(s: System, c: nat, f: Family, lock: nat) {
    c in s.clients && Holding(s.clients[c]) == Some((f, lock))
  }

  /** The lock key carries this client's value until the moment its TTL runs out. */
  ghost predicate Keeps(s: System, c: nat, f: Family, lock: nat, until: nat) {
    && LocksSound(s) && lock < s.next
    && (StillHolds(s, c, f, lock) && s.now < until ==> f in s.locks && s.locks[f] == Entry(lock, Some(until)))
  }

  /** Nobody comes to hold a serial that was drawn before. */
  lemma HeldBefore(s: System, e: Event, c: nat, f: Family, lock: nat)
    requires lock < s.next && StillHolds(Apply(s, e), c, f, lock)
    ensures StillHolds(s, c, f, lock) && s.now <= Apply(s, e).now && s.next <= Apply(s, e).next
  {
    hide StepRefresh, StepOther;
    if e.Step? && e.client in s.clients {
      StepLocks(s, e.client, s.clients[e.client], e.fails);
      StepKeepsTime(s, e.client, s.clients[e.client], e.fails);
    }
  }

  lemma StepKeepsTime(s: System, c: nat, pc: Pc, fails: bool)
    ensures StepPc(s, c, pc, fails).0.now == s.now
  {
  }

  /** A command of client d leaves the lock of a family alone that another serial holds. */
  lemma StepLeavesLock(s: System, d: nat, pc: Pc, fails: bool, f: Family, lock: nat)
    requires Get(s.locks, f, s.now) == Some(lock)
    requires Holding(pc) != Some((f, lock))
    ensures var (s', pc') := StepPc(s, d, pc, fails);
            && f in s'.locks && s'.locks[f] == s.locks[f]
            && (pc.Acquire? && pc.t.family == f ==> pc'.ReportBusy?)
  {
  }

  lemma HolderLeavesLock(s: System, c: nat, pc: Pc, fails: bool, f: Family, lock: nat)
    requires f in s.locks && Holding(pc) == Some((f, lock)) == Holding(StepPc(s, c, pc, fails).1)
    ensures f in StepPc(s, c, pc, fails).0.locks && StepPc(s, c, pc, fails).0.locks[f] == s.locks[f]
  {
  }

  lemma ApplyKeepsLock(s: System, e: Event, c: nat, f: Family, lock: nat, until: nat)
    requires Keeps(s, c, f, lock, until)
    ensures Keeps(Apply(s, e), c, f, lock, until)
  {
    ApplyKeepsLocksSound(s, e);
    var s' := Apply(s, e);
    hide StepRefresh, StepOther;
    if e.Step? && e.client in s.clients { StepLocks(s, e.client, s.clients[e.client], e.fails); }
    if StillHolds(s', c, f, lock) && s'.now < until {
      HeldBefore(s, e, c, f, lock);
      if e.Step? && e.client in s.clients {
        var pc := s.clients[e.client];
        if e.client == c {
          HolderLeavesLock(s, c, pc, e.fails, f, lock);
        } else {
          StepLeavesLock(s, e.client, pc, e.fails, f, lock);
        }
      }
    }
  }

  /** No client gets into the family by this event. */
  ghost predicate LetsNobodyIn(s: System, e: Event, f: Family) {
    e.Step? && e.client in s.clients && s.clients[e.client].Acquire? && s.clients[e.client].t.family == f
    ==> Apply(s, e).clients[e.client].ReportBusy?
  }

  lemma {:induction false} RunKeepsLock(s: System, later: seq<Event>, c: nat, f: Family, lock: nat, until: nat)
    requires Keeps(s, c, f, lock, until)
    ensures var end := Run(s, later);
            && Keeps(end, c, f, lock, until)
            && (StillHolds(end, c, f, lock) && end.now < until ==>
                  forall k | 0 <= k < |later| :: LetsNobodyIn(Run(s, later[..k]), later[k], f))
  {
    hide Keeps, LetsNobodyIn, Apply;
    if later != [] {
      var before, e := later[..|later| - 1], later[|later| - 1];
      var m, end := Run(s, before), Run(s, later);
      RunKeepsLock(s, before, c, f, lock, until);
      ApplyKeepsLock(m, e, c, f, lock, until);
      if StillHolds(end, c, f, lock) && end.now < until {
        KeepsOut(m, e, c, f, lock, until);
        forall k | 0 <= k < |later| ensures LetsNobodyIn(Run(s, later[..k]), later[k], f) {
          assert k < |before| ==> later[..k] == before[..k] && later[k] == before[k];
        }
      }
    }
  }

  lemma KeepsOut(s: System, e: Event, c: nat, f: Family, lock: nat, until: nat)
    requires Keeps(s, c, f, lock, until) && StillHolds(Apply(s, e), c, f, lock) && Apply(s, e).now < until
    ensures StillHolds(s, c, f, lock) && s.now < until && LetsNobodyIn(s, e, f)
  {
    HeldBefore(s, e, c, f, lock);
    hide StepRefresh, StepOther;
    if e.Step? && e.client in s.clients && s.clients[e.client].Acquire? {
      StepLeavesLock(s, e.client, s.clients[e.client], e.fails, f, lock);
    }
  }

  /** From its acquisition until its TTL of 30 seconds runs out a lock excludes everybody else: as
      long as the client has not let go, the key holds its value and every attempt of another
      client to get into the family meanwhile found it busy. */
  lemma UnexpiredLockExcludes(s: System, events: seq<Event>, later: seq<Event>, c: nat, fails: bool, t: Token)
    requires Initial(s)
    requires var m := Run(s, events);
             c in m.clients && m.clients[c] == Acquire(t) && Apply(m, Step(c, fails)).clients[c].ReadKey?
    requires var held := Apply(Run(s, events), Step(c, fails));
             StillHolds(Run(held, later), c, t.family, held.clients[c].lock)
             && Run(held, later).now < Run(s, events).now + 30_000
    ensures var held := Apply(Run(s, events), Step(c, fails));
            var end := Run(held, later);
            && Get(end.locks, t.family, end.now) == Some(held.clients[c].lock)
            && end.locks[t.family].deadline == Some(Run(s, events).now + 30_000)
            && forall k | 0 <= k < |later| :: LetsNobodyIn(Run(held, later[..k]), later[k], t.family)
  {
    hide Run, LocksSound, LetsNobodyIn, Apply;
    var m := Run(s, events);
    var held := Apply(m, Step(c, fails));
    LocksStaySound(s, events);
    AcquiredIsKept(m, c, fails, t);
    RunKeepsLock(held, later, c, t.family, held.clients[c].lock, m.now + 30_000);
  }

  lemma AcquiredIsKept(s: System, c: nat, fails: bool, t: Token)
    requires LocksSound(s) && c in s.clients && s.clients[c] == Acquire(t)
    requires Apply(s, Step(c, fails)).clients[c].ReadKey?
    ensures c in Apply(s, Step(c, fails)).clients
    ensures Keeps(Apply(s, Step(c, fails)), c, t.family, Apply(s, Step(c, fails)).clients[c].lock, s.now + 30_000)
  {
    ApplyKeepsLocksSound(s, Step(c, fails));
    hide LocksSound;
  }

  /** While two clients both believe they hold a family's lock, the one whose value is in the key
      cannot lose it to the other's release. */
  lemma ForeignReleaseIsHarmless(s: System, events: seq<Event>, c: nat, d: nat, f: Family)
    requires Initial(s)
    requires var s' := Run(s, events);
             && c in s'.clients && d in s'.clients && c != d
             && Holding(s'.clients[c]).Some? && Holding(s'.clients[d]).Some?
             && Holding(s'.clients[c]).value.0 == f == Holding(s'.clients[d]).value.0
             && Get(s'.locks, f, s'.now) == Some(Holding(s'.clients[c]).value.1)
    ensures var s' := Run(s, events);
            && Get(s'.locks, f, s'.now) != Some(Holding(s'.clients[d]).value.1)
            && DelIfOwner(s'.locks, f, Holding(s'.clients[d]).value.1, s'.now) == s'.locks
  {
    LocksStaySound(s, events);
  }
}
