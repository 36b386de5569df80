/** What the calls of module AuthSessions guarantee, one by one and over whole histories. */
module AuthHistories {
  import opened Options
  import opened Redis
  import opened RefreshTokens
  import opened AuthSessions

  // ----- fault atomicity of refresh -----

  /** Keys, index and sessions are exactly as before. */
  predicate Untouched(db: Db, db': Db) {
    db'.now == db.now && db'.keys == db.keys && db'.index == db.index && db'.sessions == db.sessions
  }

  /** Fully revoked: no key, no index field, no session. */
  predicate FamilyGone(db: Db, f: Family) {
    f !in db.keys && f.sessionId !in FamiliesOf(db, f.userId) && SessionOf(db, f).None?
  }

  lemma DroppedIsGone(db: Db, f: Family)
    ensures FamilyGone(DropFamily(db, f), f)
  {
  }

  /** What a rotation may do: keep everything, revoke the family, or replace the stored token. */
  lemma RotateCases(cfg: ValidConfig, db: Db, t: Token, stored: Stored, x: Faults)
    requires Get(db.keys, t.family, db.now) == Some(stored) && stored.token == t
    ensures var (db', refresh) := Rotate(cfg, db, t, stored, x);
            && db'.locks == db.locks && db'.next >= db.next && db'.now >= db.now
            && match refresh
               case None => cfg.rotate && if x.signRefresh then Untouched(db, db') else FamilyGone(db', t.family)
               case Some(r) =>
                 && r.family == t.family && AcceptsRefresh(db', r)
                 && db'.index == db.index && db'.sessions == db.sessions && db'.quarantined == db.quarantined
                 && (if cfg.rotate then r.jti == db.next < db'.next else r == t)
  {
    hide DropFamily, Untrack, FamilyGone;
    var lost := Report(db.(next := db.next + 1, now := db.now + x.pause), t.family, x);
    DroppedIsGone(lost, t.family);
    DropShape(lost, db, t.family);
  }

  /** What an access-token issue may do: keep everything, drop the session, or store the new token. */
  lemma SignCases(cfg: ValidConfig, db: Db, f: Family, meta: Metadata, x: SignFaults)
    ensures var (db', token) := SignToken(cfg, db, f, meta, x);
            && db'.keys == db.keys && db'.index == db.index && db'.locks == db.locks
            && db'.quarantined == db.quarantined && db'.now == db.now
            && match token
               case None => x.sign || x.audit
               case Some(a) =>
                 && !x.sign && !x.audit && a.family == f && db.now < a.exp
                 && SessionOf(db', f).Some? && SessionOf(db', f).value.token == a
                 && SessionOf(db', f).value.metadata
                    == (if SessionOf(db, f).Some? then SessionOf(db, f).value.metadata else meta)
  {
  }

  lemma LockedCases(cfg: ValidConfig, db: Db, t: Token, x: Faults)
    requires !Quarantined(cfg, db, t.family)
    ensures var (db', r) := Locked(cfg, db, t, x);
            && db'.locks == db.locks
            && match r
               case Threw =>
                 if AcceptsRefresh(db, t) && cfg.rotate && x.signRefresh then Untouched(db, db') else FamilyGone(db', t.family)
               case Refreshed(access, refresh) =>
                 && access.family == t.family == refresh.family
                 && AcceptsAccess(cfg, db', access) && AcceptsRefresh(db', refresh)
                 && db'.index == db.index
                 && (if cfg.rotate then refresh.jti == db.next else refresh == t)
  {
    var stored := Get(db.keys, t.family, db.now);
    if stored.None? || stored.value.token != t {
      DroppedIsGone(Report(db, t.family, x), t.family);
    } else {
      RotateCases(cfg, db, t, stored.value, x);
      var (db1, refresh) := Rotate(cfg, db, t, stored.value, x);
      if refresh.Some? {
        hide Rotate;
        var meta := Metadata("unknown", "unknown", db1.now);
        SignCases(cfg, db1, t.family, meta, x.access);
        hide SignToken;
        DroppedIsGone(SignToken(cfg, db1, t.family, meta, x.access).0, t.family);
      }
    }
  }

  /** Whatever throws, a refresh either returns a pair that the store accepts, with the old
      token spent, or throws: leaving the family as it was when it was quarantined, locked or
      the refresh signer failed, and fully revoked in every other case. */
  lemma RefreshIsAtomic(cfg: ValidConfig, db: Db, t: Token, x: Faults)
    ensures var (db', r) := Refresh(cfg, db, t, x);
            match r
            case Refreshed(access, refresh) =>
              && access.family == t.family == refresh.family
              && AcceptsAccess(cfg, db', access) && AcceptsRefresh(db', refresh)
              && (cfg.rotate && t.jti < db.next ==> !AcceptsRefresh(db', t))
            case Threw =>
              if || Quarantined(cfg, db, t.family) || Live(db.locks, t.family, db.now)
                 || (AcceptsRefresh(db, t) && cfg.rotate && x.signRefresh)
              then Untouched(db, db') else FamilyGone(db', t.family)
  {
    hide Locked;
    var (locks', ok) := SetIfAbsent(db.locks, t.family, db.next, db.now, REFRESH_LOCK_TTL_MS);
    var db0 := db.(locks := locks', next := db.next + 1);
    if !Quarantined(cfg, db, t.family) && ok { LockedCases(cfg, db0, t, x); }
  }

  /** A lock that was free is free again, one that somebody else holds is left alone, and no
      other family's lock is touched. */
  lemma RefreshReleasesItsLock(cfg: ValidConfig, db: Db, t: Token, x: Faults)
    ensures var (db', _) := Refresh(cfg, db, t, x);
            && (if Live(db.locks, t.family, db.now) then db'.locks == db.locks else !Live(db'.locks, t.family, db'.now))
            && (forall g | g != t.family :: g in db'.locks <==> g in db.locks)
            && (forall g <- db.locks | g != t.family :: db'.locks[g] == db.locks[g])
  {
    hide Locked;
    var (locks', ok) := SetIfAbsent(db.locks, t.family, db.next, db.now, REFRESH_LOCK_TTL_MS);
    var db0 := db.(locks := locks', next := db.next + 1);
    LockedKeepsLocks(cfg, db0, t, x);
    if Quarantined(cfg, db, t.family) { assert Refresh(cfg, db, t, x).0 == db; }
  }

  lemma RotateKeepsLocks(cfg: ValidConfig, db: Db, t: Token, stored: Stored, x: Faults)
    ensures Rotate(cfg, db, t, stored, x).0.locks == db.locks && Rotate(cfg, db, t, stored, x).0.now >= db.now
  {
  }

  lemma LockedKeepsLocks(cfg: ValidConfig, db: Db, t: Token, x: Faults)
    ensures Locked(cfg, db, t, x).0.locks == db.locks && Locked(cfg, db, t, x).0.now >= db.now
  {
    hide Rotate, SignToken;
    var stored := Get(db.keys, t.family, db.now);
    if stored.Some? {
      RotateKeepsLocks(cfg, db, t, stored.value, x);
      var db1 := Rotate(cfg, db, t, stored.value, x).0;
      SignCases(cfg, db1, t.family, Metadata("unknown", "unknown", db1.now), x.access);
    }
  }

  /** Exactly when a refresh succeeds. */
  lemma RefreshSucceedsIff(cfg: ValidConfig, db: Db, t: Token, x: Faults)
    ensures Refresh(cfg, db, t, x).1.Refreshed? <==>
              && !Quarantined(cfg, db, t.family)
              && !Live(db.locks, t.family, db.now)
              && AcceptsRefresh(db, t)
              && !x.access.sign && !x.access.audit && !x.auditRotated
              && (cfg.rotate ==> !x.signRefresh && Live(db.keys, t.family, db.now + x.pause))
  {
  }

  lemma DropKeepsQuarantine(db: Db, f: Family)
    ensures DropFamily(db, f).quarantined == db.quarantined
  {
  }

  lemma RotateReports(cfg: ValidConfig, db: Db, t: Token, stored: Stored, x: Faults)
    requires Get(db.keys, t.family, db.now) == Some(stored)
    ensures var lost := cfg.rotate && !x.signRefresh && !Live(db.keys, t.family, db.now + x.pause);
            var (db', refresh) := Rotate(cfg, db, t, stored, x);
            && db'.quarantined == db.quarantined + (if x.quarantines && lost then {t.family} else {})
            && (lost ==> refresh.None?)
  {
    hide DropFamily;
    DropKeepsQuarantine(Report(db.(next := db.next + 1, now := db.now + x.pause), t.family, x), t.family);
  }

  lemma LockedReports(cfg: ValidConfig, db: Db, t: Token, x: Faults)
    ensures var lost := cfg.rotate && !x.signRefresh && !Live(db.keys, t.family, db.now + x.pause);
            Locked(cfg, db, t, x).0.quarantined
            == db.quarantined + if x.quarantines && (!AcceptsRefresh(db, t) || lost) then {t.family} else {}
  {
    hide DropFamily, Rotate, SignToken;
    if AcceptsRefresh(db, t) {
      var stored := db.keys[t.family].value;
      RotateReports(cfg, db, t, stored, x);
      var db1 := Rotate(cfg, db, t, stored, x).0;
      var meta := Metadata("unknown", "unknown", db1.now);
      SignCases(cfg, db1, t.family, meta, x.access);
      DropKeepsQuarantine(SignToken(cfg, db1, t.family, meta, x.access).0, t.family);
    } else {
      DropKeepsQuarantine(Report(db, t.family, x), t.family);
    }
  }

  /** Exactly when a refresh brings the family into quarantine: the risk service hears of a lock
      held by somebody else, of a token that is not the stored one, and of a key lost while the
      signer worked. */
  lemma RefreshReportsIff(cfg: ValidConfig, db: Db, t: Token, x: Faults)
    ensures var suspicious := || Live(db.locks, t.family, db.now)
                              || !AcceptsRefresh(db, t)
                              || (cfg.rotate && !x.signRefresh && !Live(db.keys, t.family, db.now + x.pause));
            Refresh(cfg, db, t, x).0.quarantined
            == db.quarantined + if x.quarantines && !Quarantined(cfg, db, t.family) && suspicious then {t.family} else {}
  {
    hide Locked;
    var (locks', ok) := SetIfAbsent(db.locks, t.family, db.next, db.now, REFRESH_LOCK_TTL_MS);
    LockedReports(cfg, db.(locks := locks', next := db.next + 1), t, x);
  }

  /** Every other family has the same key, the same index field and the same session. */
  ghost predicate OthersKept(db: Db, db': Db, f: Family) {
    && db'.now == db.now
    && (forall g | g != f :: g in db'.keys <==> g in db.keys)
    && (forall g <- db.keys | g != f :: db'.keys[g] == db.keys[g])
    && (forall g | g != f :: SessionOf(db', g) == SessionOf(db, g))
    && (forall g | g != f :: g.sessionId in FamiliesOf(db', g.userId) <==> g.sessionId in FamiliesOf(db, g.userId))
  }

  lemma OthersKeptTwice(a: Db, b: Db, c: Db, f: Family)
    requires OthersKept(a, b, f) && OthersKept(b, c, f)
    ensures OthersKept(a, c, f)
  {
    hide SessionOf, FamiliesOf;
  }

  /** Locks, serials and quarantine do not matter here. */
  lemma SameData(a: Db, b: Db, f: Family)
    requires a.now == b.now && a.keys == b.keys && a.index == b.index && a.sessions == b.sessions
    ensures OthersKept(a, b, f)
  {
  }

  lemma DropKeepsOthers(db: Db, f: Family)
    ensures OthersKept(db, DropFamily(db, f), f)
  {
    var a := db.(keys := Del(db.keys, f));
    var b := Untrack(a, f);
    assert OthersKept(db, a, f);
    UntrackKeepsOthers(a, f);
    DropSessionKeepsOthers(b, f);
    hide OthersKept;
    OthersKeptTwice(db, a, b, f);
    OthersKeptTwice(db, b, DropSession(b, f), f);
  }

  lemma UntrackKeepsOthers(db: Db, f: Family)
    ensures OthersKept(db, Untrack(db, f), f)
  {
  }

  lemma DropSessionKeepsOthers(db: Db, f: Family)
    ensures OthersKept(db, DropSession(db, f), f)
  {
  }

  lemma ReportKeepsOthers(db: Db, f: Family, x: Faults)
    ensures OthersKept(db, Report(db, f, x), f)
  {
  }

  lemma SignKeepsOthers(cfg: ValidConfig, db: Db, f: Family, meta: Metadata, x: SignFaults)
    ensures OthersKept(db, SignToken(cfg, db, f, meta, x).0, f)
  {
  }

  lemma ReportAndDrop(db: Db, f: Family, x: Faults)
    ensures OthersKept(db, DropFamily(Report(db, f, x), f), f)
  {
    hide OthersKept, Report, DropFamily;
    ReportKeepsOthers(db, f, x);
    DropKeepsOthers(Report(db, f, x), f);
    OthersKeptTwice(db, Report(db, f, x), DropFamily(Report(db, f, x), f), f);
  }

  /** What differs from the waiting database is at most this family's. */
  lemma RotateKeepsOthers(cfg: ValidConfig, db: Db, t: Token, stored: Stored, x: Faults)
    ensures var db' := Rotate(cfg, db, t, stored, x).0;
            && db'.now == db.now + (if cfg.rotate && !x.signRefresh then x.pause else 0)
            && OthersKept(db.(now := db'.now), db', t.family)
  {
    hide OthersKept, DropFamily;
    var f, db0 := t.family, db.(next := db.next + 1, now := db.now + x.pause);
    var waited, lost := db.(now := db0.now), DropFamily(Report(db0, f, x), f);
    SameData(waited, db0, f);
    ReportAndDrop(db0, f, x);
    OthersKeptTwice(waited, db0, lost, f);
    SwapKeepsOthers(waited, db0.(keys := Set(db0.keys, f, Fingerprint(Token(db.next, f)), db0.now, cfg.refreshTtl)), f);
    DropTime(Report(db0, f, x), db0, f);
    SameData(db, db, f);
    assert db.(now := db.now) == db;
  }

  lemma SwapKeepsOthers(a: Db, b: Db, f: Family)
    requires a.now == b.now && a.index == b.index && a.sessions == b.sessions
    requires f in b.keys && b.keys == a.keys[f := b.keys[f]]
    ensures OthersKept(a, b, f)
  {
  }

  lemma LockedKeepsOthers(cfg: ValidConfig, db: Db, t: Token, x: Faults)
    ensures var db' := Locked(cfg, db, t, x).0;
            db.now <= db'.now <= db.now + x.pause && OthersKept(db.(now := db'.now), db', t.family)
  {
    hide OthersKept, Rotate, SignToken, DropFamily;
    var f, stored := t.family, Get(db.keys, t.family, db.now);
    if stored.None? || stored.value.token != t {
      ReportAndDrop(db, f, x);
      DropTime(Report(db, f, x), db, f);
      assert db.(now := db.now) == db;
    } else {
      RotateKeepsOthers(cfg, db, t, stored.value, x);
      var (db1, refresh) := Rotate(cfg, db, t, stored.value, x);
      var meta, waited := Metadata("unknown", "unknown", db1.now), db.(now := db1.now);
      var (db2, access) := SignToken(cfg, db1, f, meta, x.access);
      SignCases(cfg, db1, f, meta, x.access);
      SignKeepsOthers(cfg, db1, f, meta, x.access);
      DropKeepsOthers(db2, f);
      DropTime(db2, db1, f);
      OthersKeptTwice(waited, db1, db2, f);
      OthersKeptTwice(waited, db2, DropFamily(db2, f), f);
    }
  }

  lemma DropTime(db: Db, like: Db, f: Family)
    requires db.now == like.now
    ensures DropFamily(db, f).now == db.now == like.now
  {
  }

  /** Whatever a refresh comes to and however long its signer takes, it leaves every other family
      as waiting alone would have left it: key, index field and session, also those of the same
      user, whose hashes it shares. */
  lemma RefreshKeepsOthers(cfg: ValidConfig, db: Db, t: Token, x: Faults)
    ensures var db' := Refresh(cfg, db, t, x).0;
            db.now <= db'.now <= db.now + x.pause && OthersKept(db.(now := db'.now), db', t.family)
  {
    hide OthersKept, Locked;
    var (locks', ok) := SetIfAbsent(db.locks, t.family, db.next, db.now, REFRESH_LOCK_TTL_MS);
    var db0 := db.(locks := locks', next := db.next + 1);
    var (db1, _) := Locked(cfg, db0, t, x);
    LockedKeepsOthers(cfg, db0, t, x);
    var waited, last := db.(now := db1.now), db1.(locks := DelIfOwner(db1.locks, t.family, db.next, db1.now));
    SameData(waited, db0.(now := db1.now), t.family);
    SameData(db1, last, t.family);
    OthersKeptTwice(waited, db0.(now := db1.now), db1, t.family);
    OthersKeptTwice(waited, db1, last, t.family);
    BusyKeepsOthers(db, db0, t.family, x);
    assert db.(now := db.now) == db;
  }

  lemma BusyKeepsOthers(db: Db, db0: Db, f: Family, x: Faults)
    requires db0.now == db.now && db0.keys == db.keys && db0.index == db.index && db0.sessions == db.sessions
    ensures OthersKept(db, db, f) && OthersKept(db, Report(db0, f, x), f)
  {
  }

  lemma GenerateKeepsOthers(cfg: ValidConfig, db: Db, f: Family, x: SignFaults)
    ensures OthersKept(db, Generate(cfg, db, f, x).0, f)
  {
    hide OthersKept, DropFamily, Track;
    SameData(db, db, f);
    if !x.sign {
      var token := Token(db.next, f);
      var db0 := db.(next := db.next + 1);
      var stored := db0.(keys := Set(db0.keys, f, Fingerprint(token), db0.now, cfg.refreshTtl));
      SwapKeepsOthers(db, stored, f);
      var tracked := Track(stored, f, cfg.refreshTtl);
      TrackKeepsOthers(stored, f, cfg.refreshTtl);
      OthersKeptTwice(db, stored, tracked, f);
      DropKeepsOthers(tracked, f);
      OthersKeptTwice(db, tracked, DropFamily(tracked, f), f);
    }
  }

  lemma TrackKeepsOthers(db: Db, f: Family, ttl: nat)
    requires ttl > 0
    ensures OthersKept(db, Track(db, f, ttl), f)
  {
  }

  /** So does a login, whether or not it succeeds. */
  lemma IssueKeepsOthers(cfg: ValidConfig, db: Db, f: Family, meta: Metadata, x: SignFaults, y: SignFaults)
    ensures OthersKept(db, IssueTokens(cfg, db, f, meta, x, y).0, f)
  {
    hide OthersKept, SignToken, Generate, DropSession;
    var (db1, access) := SignToken(cfg, db, f, meta, x);
    SignKeepsOthers(cfg, db, f, meta, x);
    GenerateKeepsOthers(cfg, db1, f, y);
    var db2 := Generate(cfg, db1, f, y).0;
    OthersKeptTwice(db, db1, db2, f);
    DropSessionKeepsOthers(db2, f);
    OthersKeptTwice(db, db2, DropSession(db2, f), f);
  }

  /** The pair of a login is issued whole or not at all. */
  lemma IssueTokensIsAtomic(cfg: ValidConfig, db: Db, f: Family, meta: Metadata, x: SignFaults, y: SignFaults)
    ensures var (db', r) := IssueTokens(cfg, db, f, meta, x, y);
            (r.Refreshed? <==> !x.sign && !x.audit && !y.sign && !y.audit)
            && match r
            case Refreshed(access, refresh) =>
              && access.family == f == refresh.family && AcceptsRefresh(db', refresh)
              && access.exp == db.now + cfg.accessTtl && db'.keys[f].deadline == Some(db.now + cfg.refreshTtl)
              && f.sessionId in FamiliesOf(db', f.userId)
              && (AcceptsAccess(cfg, db', access) <==> !Quarantined(cfg, db, f))
              && SessionOf(db', f).Some?
              && SessionOf(db', f).value.metadata == (if SessionOf(db, f).Some? then SessionOf(db, f).value.metadata else meta)
            case Threw =>
              && (if x.sign then Untouched(db, db') else SessionOf(db', f).None?)
              && (if x.sign || x.audit || y.sign then db'.keys == db.keys && db'.index == db.index else FamilyGone(db', f))
  {
    SignCases(cfg, db, f, meta, x);
  }

  // ----- histories of access sessions -----

  /** Everything that writes session hashes, plus time and quarantine: an issue, also the one
      inside a refresh; a revocation, also the one of a refresh family; and `revokeAll`. */
  datatype SessionOp =
    | SignIn(f: Family, meta: Metadata, x: SignFaults)
    | Revoke(f: Family)
    | RevokeUser(user: string, fallback: set<string>)
    | Quarantine(f: Family, on: bool)
    | Wait(ms: nat)

  function Step(cfg: ValidConfig, db: Db, op: SessionOp): Db {
    match op
    case SignIn(f, meta, x) => SignToken(cfg, db, f, meta, x).0
    case Revoke(f) => DropFamily(db, f)
    case RevokeUser(user, fallback) => RevokeFamilies(db, user, fallback)
    case Quarantine(f, on) => db.(quarantined := if on then db.quarantined + {f} else db.quarantined - {f})
    case Wait(ms) => db.(now := db.now + ms)
  }

  function History(cfg: ValidConfig, db: Db, ops: seq<SessionOp>): Db {
    if ops == [] then db else Step(cfg, History(cfg, db, ops[..|ops| - 1]), ops[|ops| - 1])
  }

  /** A later issue for the session, even one whose audit throws, or a revocation reaching it. */
  predicate Supersedes(op: SessionOp, f: Family) {
    match op
    case SignIn(g, _, x) => g == f && !x.sign
    case Revoke(g) => g == f
    case RevokeUser(user, fallback) => user == f.userId && |fallback| <= 10_000
    case _ => false
  }

  /** Serials are not reused, and no hash outlives a fresh access token. */
  ghost predicate Orderly(cfg: ValidConfig, db: Db) {
    && (forall u <- db.sessions ::
          && db.sessions[u].deadline.Some? && db.sessions[u].deadline.value <= db.now + cfg.accessTtl
          && forall s <- db.sessions[u].value :: db.sessions[u].value[s].token.jti < db.next)
  }

  lemma StepKeepsOrder(cfg: ValidConfig, db: Db, op: SessionOp)
    requires Orderly(cfg, db)
    ensures Orderly(cfg, Step(cfg, db, op)) && Step(cfg, db, op).next >= db.next && Step(cfg, db, op).now >= db.now
  {
    match op
    case SignIn(f, meta, x) => SignKeepsOrder(cfg, db, f, meta, x);
    case _ =>
  }

  lemma SignKeepsOrder(cfg: ValidConfig, db: Db, f: Family, meta: Metadata, x: SignFaults)
    requires Orderly(cfg, db)
    ensures Orderly(cfg, SignToken(cfg, db, f, meta, x).0) && SignToken(cfg, db, f, meta, x).0.next >= db.next
  {
  }

  /** The session of token t still stands and its hash lives at least as long as t. */
  ghost predicate Standing(db: Db, t: AccessToken) {
    && t.family.userId in db.sessions
    && var entry := db.sessions[t.family.userId];
       && entry.deadline.Some? && t.exp <= entry.deadline.value
       && t.family.sessionId in entry.value && entry.value[t.family.sessionId].token == t
  }

  /** No session anywhere in the store carries token t. */
  ghost predicate Superseded(db: Db, t: AccessToken) {
    forall u <- db.sessions, s <- db.sessions[u].value :: db.sessions[u].value[s].token != t
  }

  lemma StandingStep(cfg: ValidConfig, db: Db, op: SessionOp, t: AccessToken)
    requires Orderly(cfg, db) && Standing(db, t) && db.now < t.exp
    ensures !Supersedes(op, t.family) ==> Standing(Step(cfg, db, op), t)
  {
  }

  /** No two sessions carry the same token. */
  ghost predicate Unique(db: Db, t: AccessToken) {
    forall u <- db.sessions, s <- db.sessions[u].value | db.sessions[u].value[s].token == t :: Family(u, s) == t.family
  }

  lemma UniqueStep(cfg: ValidConfig, db: Db, op: SessionOp, t: AccessToken)
    requires Unique(db, t) && t.jti < db.next
    ensures Unique(Step(cfg, db, op), t)
    ensures Superseded(db, t) || Supersedes(op, t.family) ==> Superseded(Step(cfg, db, op), t)
  {
    match op
    case SignIn(f, meta, x) => UniqueSign(cfg, db, f, meta, x, t);
    case _ =>
  }

  lemma UniqueSign(cfg: ValidConfig, db: Db, f: Family, meta: Metadata, x: SignFaults, t: AccessToken)
    requires Unique(db, t) && t.jti < db.next
    ensures Unique(SignToken(cfg, db, f, meta, x).0, t)
    ensures Superseded(db, t) || (f == t.family && !x.sign) ==> Superseded(SignToken(cfg, db, f, meta, x).0, t)
  {
  }

  /** What becomes of a standing token over a history. */
  lemma {:induction false} Fate(cfg: ValidConfig, db: Db, ops: seq<SessionOp>, t: AccessToken)
    requires Orderly(cfg, db) && Standing(db, t) && Unique(db, t) && t.jti < db.next
    ensures var end := History(cfg, db, ops);
            && Orderly(cfg, end) && Unique(end, t) && t.jti < end.next && db.now <= end.now
            && (if exists op <- ops :: Supersedes(op, t.family) then Superseded(end, t)
                else end.now < t.exp ==> Standing(end, t))
  {
    hide Step, Orderly, Standing, Superseded, Unique;
    if ops != [] {
      var before, op := ops[..|ops| - 1], ops[|ops| - 1];
      var middle := History(cfg, db, before);
      Fate(cfg, db, before, t);
      StepKeepsOrder(cfg, middle, op);
      UniqueStep(cfg, middle, op, t);
      assert ops == before + [op];
      if !(exists o <- before :: Supersedes(o, t.family)) && middle.now < t.exp { StandingStep(cfg, middle, op, t); }
    }
  }

  /** The time a history takes. */
  function Waited(ops: seq<SessionOp>): nat {
    if ops == [] then 0
    else Waited(ops[..|ops| - 1]) + match ops[|ops| - 1] case Wait(ms) => ms case _ => 0
  }

  /** Whether the session is quarantined in the end: the last word on it counts. */
  predicate QuarantinedAfter(ops: seq<SessionOp>, f: Family, before: bool) {
    if ops == [] then before
    else
      match ops[|ops| - 1]
      case Quarantine(g, on) => if g == f then on else QuarantinedAfter(ops[..|ops| - 1], f, before)
      case _ => QuarantinedAfter(ops[..|ops| - 1], f, before)
  }

  lemma {:induction false} TimeAndQuarantine(cfg: ValidConfig, db: Db, ops: seq<SessionOp>, f: Family)
    ensures var end := History(cfg, db, ops);
            end.now == db.now + Waited(ops) && (f in end.quarantined <==> QuarantinedAfter(ops, f, f in db.quarantined))
  {
    hide SignToken, DropFamily, RevokeFamilies;
    if ops != [] {
      var before := ops[..|ops| - 1];
      TimeAndQuarantine(cfg, db, before, f);
      var middle := History(cfg, db, before);
      match ops[|ops| - 1]
      case SignIn(g, meta, x) => SignCases(cfg, middle, g, meta, x);
      case Revoke(g) =>
        DropKeepsQuarantine(middle, g);
        DropTime(middle, middle, g);
      case RevokeUser(user, fallback) => RevocationKeepsTime(middle, user, fallback);
      case _ =>
    }
  }

  lemma RevocationKeepsTime(db: Db, user: string, fallback: set<string>)
    ensures RevokeFamilies(db, user, fallback).now == db.now
    ensures RevokeFamilies(db, user, fallback).quarantined == db.quarantined
  {
  }

  /** An access token passes `verifyActiveToken` exactly when it has not expired, it is the last one
      signed for its session, nothing revoked the session since, and the session is not
      quarantined: all of it read off the history.  The TTL of the shared hash never drops the
      session before the token expires. */
  lemma AcceptedIffLastSigned(cfg: ValidConfig, db: Db, f: Family, meta: Metadata, ops: seq<SessionOp>)
    requires Orderly(cfg, db)
    ensures var (signed, token) := SignToken(cfg, db, f, meta, SignFaults(false, false));
            && token.Some?
            && token.value.exp == db.now + cfg.accessTtl
            && (AcceptsAccess(cfg, History(cfg, signed, ops), token.value)
                <==> && Waited(ops) < cfg.accessTtl
                     && !(cfg.risk && QuarantinedAfter(ops, f, f in db.quarantined))
                     && forall op <- ops :: !Supersedes(op, f))
  {
    var (signed, token) := SignToken(cfg, db, f, meta, SignFaults(false, false));
    SignKeepsOrder(cfg, db, f, meta, SignFaults(false, false));
    SignedStands(cfg, db, f, meta);
    Fate(cfg, signed, ops, token.value);
    FateDecides(cfg, History(cfg, signed, ops), token.value);
    TimeAndQuarantine(cfg, signed, ops, f);
  }

  lemma SignedStands(cfg: ValidConfig, db: Db, f: Family, meta: Metadata)
    requires Orderly(cfg, db)
    ensures var (signed, token) := SignToken(cfg, db, f, meta, SignFaults(false, false));
            && token.Some? && token.value.family == f && token.value.jti < signed.next
            && Standing(signed, token.value) && Unique(signed, token.value)
  {
  }

  lemma FateDecides(cfg: ValidConfig, db: Db, t: AccessToken)
    ensures db.now >= t.exp ==> !AcceptsAccess(cfg, db, t)
    ensures db.now < t.exp && Standing(db, t) ==> (AcceptsAccess(cfg, db, t) <==> !(cfg.risk && t.family in db.quarantined))
    ensures Superseded(db, t) ==> !AcceptsAccess(cfg, db, t)
  {
  }

  lemma MetadataStays(cfg: ValidConfig, db: Db, op: SessionOp, f: Family)
    requires SessionOf(db, f).Some? && SessionOf(Step(cfg, db, op), f).Some?
    ensures SessionOf(Step(cfg, db, op), f).value.metadata == SessionOf(db, f).value.metadata
  {
  }

  /** Signing again, a refresh included, never changes what a session remembers of its device,
      address and creation, as long as the session is not lost in between. */
  lemma {:induction false} SessionKeepsMetadata(cfg: ValidConfig, db: Db, ops: seq<SessionOp>, f: Family)
    requires forall k | 0 <= k <= |ops| :: SessionOf(History(cfg, db, ops[..k]), f).Some?
    ensures SessionOf(db, f).Some? && SessionOf(History(cfg, db, ops), f).Some?
    ensures SessionOf(History(cfg, db, ops), f).value.metadata == SessionOf(db, f).value.metadata
  {
    hide Step, SessionOf;
    assert ops[..|ops|] == ops && History(cfg, db, ops[..0]) == db;
    if ops != [] {
      var before := ops[..|ops| - 1];
      forall k | 0 <= k <= |before| ensures SessionOf(History(cfg, db, before[..k]), f).Some? {
        assert before[..k] == ops[..k];
      }
      SessionKeepsMetadata(cfg, db, before, f);
      MetadataStays(cfg, History(cfg, db, before), ops[|ops| - 1], f);
    }
  }

  // ----- revoking everything -----

  lemma RevokeFamiliesSurvivors(db: Db, user: string, fallback: set<string>, s: string)
    requires |fallback| <= 10_000
    ensures var f, db' := Family(user, s), RevokeFamilies(db, user, fallback);
            && (Live(db'.keys, f, db'.now) <==> Live(db.keys, f, db.now) && s !in FamiliesOf(db, user) && s !in fallback)
            && SessionsOf(db', user) == map[] && (f in db'.keys ==> f in db.keys && db'.keys[f] == db.keys[f])
            && (forall g <- db.keys | g.userId != user :: g in db'.keys && db'.keys[g] == db.keys[g])
            && FamiliesOf(db', user) == {}
            && forall v | v != user :: SessionsOf(db', v) == SessionsOf(db, v) && FamiliesOf(db', v) == FamiliesOf(db, v)
  {
  }

  /** Exactly which refresh keys of the user survive `revokeAllSessions`: those that neither
      the family index nor the session list names.  No access token survives.  With more than
      10 000 listed sessions the call throws and everything survives. */
  lemma RevokeAllSurvivors(db: Db, user: string, s: string)
    ensures var f, db' := Family(user, s), RevokeAll(db, user);
            if |SessionsOf(db, user).Keys| > 10_000 then db' == db
            else
              && (Live(db'.keys, f, db'.now)
                  <==> Live(db.keys, f, db.now) && s !in FamiliesOf(db, user) && s !in SessionsOf(db, user))
              && SessionsOf(db', user) == map[] && (f in db'.keys ==> f in db.keys && db'.keys[f] == db.keys[f])
              && (forall g <- db.keys | g.userId != user :: g in db'.keys && db'.keys[g] == db.keys[g])
              && FamiliesOf(db', user) == {}
              && forall v | v != user :: SessionsOf(db', v) == SessionsOf(db, v) && FamiliesOf(db', v) == FamiliesOf(db, v)
  {
    hide RevokeFamilies;
    var fallback := SessionsOf(db, user).Keys;
    if |fallback| <= 10_000 {
      RevokeFamiliesSurvivors(db, user, fallback, s);
    } else {
      RefusedKeepsEverything(db, user, fallback);
    }
  }

  lemma RefusedKeepsEverything(db: Db, user: string, fallback: set<string>)
    requires |fallback| > 10_000
    ensures RevokeFamilies(db, user, fallback) == db
  {
  }

  /** The index names every session whose refresh key is live. */
  ghost predicate Covered(db: Db, user: string) {
    forall s :: Live(db.keys, Family(user, s), db.now) ==> s in FamiliesOf(db, user)
  }

  /** No refresh and no access token of the user is accepted. */
  ghost predicate NothingAccepted(cfg: ValidConfig, db: Db, user: string) {
    && (forall t: Token | t.family.userId == user :: !AcceptsRefresh(db, t))
    && (forall t: AccessToken | t.family.userId == user :: !AcceptsAccess(cfg, db, t))
  }

  /** The family index or the session list names every family with an accepted refresh token. */
  ghost predicate Named(db: Db, user: string) {
    forall t: Token | t.family.userId == user && AcceptsRefresh(db, t) ::
      t.family.sessionId in FamiliesOf(db, user) || t.family.sessionId in SessionsOf(db, user)
  }

  /** The composed revocation leaves nothing accepted exactly when nothing was before, or the
      session list is not too long and it or the index names every accepted family. */
  lemma RevokeAllLeavesNothing(cfg: ValidConfig, db: Db, user: string)
    ensures NothingAccepted(cfg, RevokeAll(db, user), user)
            <==> || NothingAccepted(cfg, db, user)
                 || (|SessionsOf(db, user).Keys| <= 10_000 && Named(db, user))
  {
    hide RevokeAll, FamiliesOf, SessionsOf;
    RevokeAllKeepsTime(db, user);
    if |SessionsOf(db, user).Keys| <= 10_000 {
      forall t: Token | t.family.userId == user
        ensures AcceptsRefresh(RevokeAll(db, user), t)
                <==> && AcceptsRefresh(db, t)
                     && t.family.sessionId !in FamiliesOf(db, user) && t.family.sessionId !in SessionsOf(db, user)
      {
        RevokeAllSurvivors(db, user, t.family.sessionId);
      }
      RevokeAllSurvivors(db, user, "");
      forall t: AccessToken | t.family.userId == user ensures !AcceptsAccess(cfg, RevokeAll(db, user), t) {}
    } else {
      RevokeAllSurvivors(db, user, "");
    }
  }

  /** The calls that touch refresh families, one at a time. */
  datatype FamilyOp =
    | Login(f: Family, meta: Metadata, access: SignFaults, signing: SignFaults)
    | Issue(f: Family, signing: SignFaults)
    | Exchange(t: Token, x: Faults)
    | RevokeOne(f: Family)
    | RevokeEvery(user: string)
    | Pass(ms: nat)

  function FamilyStep(cfg: ValidConfig, db: Db, op: FamilyOp): Db {
    match op
    case Login(f, meta, x, y) => IssueTokens(cfg, db, f, meta, x, y).0
    case Issue(f, x) => Generate(cfg, db, f, x).0
    case Exchange(t, x) => Refresh(cfg, db, t, x).0
    case RevokeOne(f) => DropFamily(db, f)
    case RevokeEvery(user) => RevokeAll(db, user)
    case Pass(ms) => db.(now := db.now + ms)
  }

  function FamilyHistory(cfg: ValidConfig, db: Db, ops: seq<FamilyOp>): Db {
    if ops == [] then db else FamilyStep(cfg, FamilyHistory(cfg, db, ops[..|ops| - 1]), ops[|ops| - 1])
  }

  /** The user's index does not run out between the two moments. */
  predicate IndexLasts(db: Db, db': Db, user: string) {
    Live(db.index, user, db.now) ==> Live(db.index, user, db'.now)
  }

  /** What a refresh does to the keys and the index: nothing, drop its family, or renew its key. */
  ghost predicate ExchangeCase(db: Db, db': Db, f: Family) {
    && db.now <= db'.now
    && (|| (db'.keys == db.keys && db'.index == db.index)
        || (db'.keys == Del(db.keys, f) && db'.index == Untrack(db, f).index)
        || (Live(db.keys, f, db.now) && f in db'.keys && db'.keys == db.keys[f := db'.keys[f]] && db'.index == db.index))
  }

  lemma DropShape(db: Db, like: Db, f: Family)
    requires db.index == like.index
    ensures DropFamily(db, f).keys == Del(db.keys, f) && DropFamily(db, f).index == Untrack(like, f).index
    ensures DropFamily(db, f).now == db.now && DropFamily(db, f).locks == db.locks && DropFamily(db, f).next == db.next
  {
  }

  lemma RotateCase(cfg: ValidConfig, db: Db, t: Token, stored: Stored, x: Faults)
    requires Live(db.keys, t.family, db.now)
    ensures ExchangeCase(db, Rotate(cfg, db, t, stored, x).0, t.family)
    ensures Rotate(cfg, db, t, stored, x).1.Some? ==> Rotate(cfg, db, t, stored, x).0.index == db.index
  {
    hide DropFamily, Untrack;
    DropShape(Report(db.(next := db.next + 1, now := db.now + x.pause), t.family, x), db, t.family);
  }

  lemma LockedCase(cfg: ValidConfig, db: Db, t: Token, x: Faults)
    ensures ExchangeCase(db, Locked(cfg, db, t, x).0, t.family)
  {
    hide Rotate, SignToken, DropFamily, Untrack;
    var stored := Get(db.keys, t.family, db.now);
    if stored.None? || stored.value.token != t {
      DropShape(Report(db, t.family, x), db, t.family);
    } else {
      RotateCase(cfg, db, t, stored.value, x);
      var (db1, refresh) := Rotate(cfg, db, t, stored.value, x);
      var (db2, access) := SignToken(cfg, db1, t.family, Metadata("unknown", "unknown", db1.now), x.access);
      SignCases(cfg, db1, t.family, Metadata("unknown", "unknown", db1.now), x.access);
      if refresh.Some? && (access.None? || x.auditRotated) { DropShape(db2, db, t.family); }
      assert refresh.Some? ==> Del(db1.keys, t.family) == Del(db.keys, t.family);
    }
  }

  lemma RefreshCase(cfg: ValidConfig, db: Db, t: Token, x: Faults)
    ensures ExchangeCase(db, Refresh(cfg, db, t, x).0, t.family)
  {
    hide Locked;
    var (locks', ok) := SetIfAbsent(db.locks, t.family, db.next, db.now, REFRESH_LOCK_TTL_MS);
    LockedCase(cfg, db.(locks := locks', next := db.next + 1), t, x);
  }

  /** A user whose index lasts stays covered. */
  lemma CoveredStep(cfg: ValidConfig, db: Db, op: FamilyOp, user: string)
    requires Covered(db, user) && IndexLasts(db, FamilyStep(cfg, db, op), user)
    ensures Covered(FamilyStep(cfg, db, op), user)
  {
    hide Covered, IndexLasts, Generate, Refresh, DropFamily, RevokeAll, IssueTokens;
    match op
    case Login(f, meta, x, y) => CoveredLogin(cfg, db, f, meta, x, y, user);
    case Issue(f, x) => CoveredIssue(cfg, db, f, x, user);
    case Exchange(t, x) =>
      RefreshCase(cfg, db, t, x);
      CoveredExchange(db, FamilyStep(cfg, db, op), t.family, user);
    case RevokeOne(f) => CoveredDrop(db, f, user);
    case RevokeEvery(u) => CoveredRevocation(db, u, user);
    case Pass(ms) => CoveredPass(db, ms, user);
  }

  lemma CoveredLogin(cfg: ValidConfig, db: Db, f: Family, meta: Metadata, x: SignFaults, y: SignFaults, user: string)
    requires Covered(db, user)
    ensures Covered(IssueTokens(cfg, db, f, meta, x, y).0, user)
  {
    hide SignToken, Generate;
    SignCases(cfg, db, f, meta, x);
    var (db1, access) := SignToken(cfg, db, f, meta, x);
    if access.Some? { CoveredIssue(cfg, db1, f, y, user); }
  }

  lemma CoveredDrop(db: Db, f: Family, user: string)
    requires Covered(db, user)
    ensures Covered(DropFamily(db, f), user)
  {
  }

  lemma CoveredRevocation(db: Db, u: string, user: string)
    requires Covered(db, user)
    ensures Covered(RevokeAll(db, u), user)
  {
  }

  lemma CoveredPass(db: Db, ms: nat, user: string)
    requires Covered(db, user) && IndexLasts(db, db.(now := db.now + ms), user)
    ensures Covered(db.(now := db.now + ms), user)
  {
  }

  lemma CoveredIssue(cfg: ValidConfig, db: Db, f: Family, x: SignFaults, user: string)
    requires Covered(db, user)
    ensures Covered(Generate(cfg, db, f, x).0, user)
  {
  }

  lemma CoveredExchange(db: Db, db': Db, f: Family, user: string)
    requires Covered(db, user) && IndexLasts(db, db', user) && ExchangeCase(db, db', f)
    ensures Covered(db', user)
  {
    forall s | Live(db'.keys, Family(user, s), db'.now) ensures s in FamiliesOf(db', user) {
      assert Live(db.keys, Family(user, s), db.now);
    }
  }

  lemma CoveredIsNamed(db: Db, user: string)
    requires Covered(db, user)
    ensures Named(db, user)
  {
  }

  /** As long as the user's index never runs out, the composed revocation is complete: no
      refresh and no access token of the user is accepted afterwards. */
  lemma {:induction false} RevokeAllIsComplete(cfg: ValidConfig, db: Db, ops: seq<FamilyOp>, user: string)
    requires Covered(db, user)
    requires forall k :: 0 <= k < |ops| ==>
               IndexLasts(FamilyHistory(cfg, db, ops[..k]), FamilyHistory(cfg, db, ops[..k + 1]), user)
    ensures var end := FamilyHistory(cfg, db, ops);
            && Covered(end, user)
            && (|SessionsOf(end, user).Keys| <= 10_000 ==> NothingAccepted(cfg, RevokeAll(end, user), user))
  {
    hide Covered, IndexLasts, FamilyStep, NothingAccepted;
    if ops != [] {
      var before := ops[..|ops| - 1];
      forall k | 0 <= k < |before|
        ensures IndexLasts(FamilyHistory(cfg, db, before[..k]), FamilyHistory(cfg, db, before[..k + 1]), user)
      {
        assert before[..k] == ops[..k] && before[..k + 1] == ops[..k + 1];
      }
      RevokeAllIsComplete(cfg, db, before, user);
      assert ops[..|ops|] == ops;
      assert IndexLasts(FamilyHistory(cfg, db, ops[..|ops| - 1]), FamilyHistory(cfg, db, ops[..|ops| - 1 + 1]), user);
      CoveredStep(cfg, FamilyHistory(cfg, db, before), ops[|ops| - 1], user);
    }
    CoveredIsNamed(FamilyHistory(cfg, db, ops), user);
    RevokeAllLeavesNothing(cfg, FamilyHistory(cfg, db, ops), user);
  }

  const NO_FAULTS := Faults(false, SignFaults(false, false), false, false, 0)
  const EMPTY_DB := Db(0, 0, map[], map[], map[], map[], {})

  /** Issue, refresh just before the index runs out, and wait for index and session to go. */
  function LateRotation(cfg: ValidConfig, f: Family): seq<FamilyOp> {
    [Issue(f, SignFaults(false, false)), Pass(cfg.refreshTtl - 1), Exchange(Token(0, f), NO_FAULTS), Pass(cfg.accessTtl + 1)]
  }

  /** The condition on the index is needed: a rotation renews the key but not the index, so the
      rotated token survives `revokeAllSessions`. */
  lemma RotatedFamilyOutlivesIndex(cfg: ValidConfig, f: Family)
    requires cfg.rotate && cfg.accessTtl + 1 < cfg.refreshTtl
    ensures var end := FamilyHistory(cfg, EMPTY_DB, LateRotation(cfg, f));
            exists t: Token :: t.family == f && AcceptsRefresh(RevokeAll(end, f.userId), t)
  {
    hide Generate, Refresh, RevokeAll, FamilyHistory, AcceptsRefresh;
    var ops := LateRotation(cfg, f);
    var issued := Generate(cfg, EMPTY_DB, f, SignFaults(false, false)).0;
    var late := issued.(now := issued.now + cfg.refreshTtl - 1);
    var (rotated, r) := Refresh(cfg, late, Token(0, f), NO_FAULTS);
    var end := rotated.(now := rotated.now + cfg.accessTtl + 1);
    FourSteps(cfg, EMPTY_DB, ops);
    FirstIssue(cfg, f);
    RefreshSucceedsIff(cfg, late, Token(0, f), NO_FAULTS);
    assert AcceptsRefresh(late, Token(0, f)) by { StoredIsAccepted(late, Token(0, f)); }
    RefreshDeadlines(cfg, late, Token(0, f));
    assert SessionsOf(end, f.userId) == map[];
    RevokeAllSurvivors(end, f.userId, f.sessionId);
    assert RevokeAll(end, f.userId).now == end.now by { RevokeAllKeepsTime(end, f.userId); }
    StoredIsAccepted(RevokeAll(end, f.userId), r.refresh);
  }

  lemma RevokeAllKeepsTime(db: Db, user: string)
    ensures RevokeAll(db, user).now == db.now
  {
  }

  lemma StoredIsAccepted(db: Db, t: Token)
    ensures Live(db.keys, t.family, db.now) && db.keys[t.family].value.token == t ==> AcceptsRefresh(db, t)
  {
  }

  lemma FourSteps(cfg: ValidConfig, db: Db, ops: seq<FamilyOp>)
    requires |ops| == 4
    ensures FamilyHistory(cfg, db, ops)
         == FamilyStep(cfg, FamilyStep(cfg, FamilyStep(cfg, FamilyStep(cfg, db, ops[0]), ops[1]), ops[2]), ops[3])
  {
    hide FamilyStep;
    assert ops[..3][..2] == ops[..2] && ops[..2][..1] == ops[..1] && ops[..1][..0] == [];
    assert FamilyHistory(cfg, db, ops[..1]) == FamilyStep(cfg, db, ops[0]);
    assert FamilyHistory(cfg, db, ops[..2]) == FamilyStep(cfg, FamilyHistory(cfg, db, ops[..1]), ops[1]);
    assert FamilyHistory(cfg, db, ops[..3]) == FamilyStep(cfg, FamilyHistory(cfg, db, ops[..2]), ops[2]);
  }

  lemma FirstIssue(cfg: ValidConfig, f: Family)
    ensures var (db, t) := Generate(cfg, EMPTY_DB, f, SignFaults(false, false));
            && t == Some(Token(0, f)) && db.now == 0 && db.locks == map[] && db.quarantined == {}
            && db.keys == map[f := Entry(Fingerprint(Token(0, f)), Some(cfg.refreshTtl))]
            && f.userId in db.index && db.index[f.userId].deadline == Some(cfg.refreshTtl)
  {
  }

  lemma RefreshDeadlines(cfg: ValidConfig, db: Db, t: Token)
    requires cfg.rotate && Refresh(cfg, db, t, NO_FAULTS).1.Refreshed?
    ensures var (db', r) := Refresh(cfg, db, t, NO_FAULTS);
            && db'.now == db.now && db'.index == db.index && r.refresh.family == t.family
            && t.family in db'.keys && db'.keys[t.family] == Entry(Fingerprint(r.refresh), Some(db.now + cfg.refreshTtl))
            && t.family.userId in db'.sessions && db'.sessions[t.family.userId].deadline == Some(db.now + cfg.accessTtl)
  {
  }

  // ----- more sessions than the revocation takes -----

  const NO_SIGN_FAULTS := SignFaults(false, false)

  function Letter(n: nat): char
    requires n < 32
  {
    ('A' as int + n) as char
  }

  /** Three printable characters. */
  function SessionId(n: nat): string
    requires n < 32768
  {
    [Letter(n / 1024), Letter(n / 32 % 32), Letter(n % 32)]
  }

  lemma SessionIdsDiffer(m: nat, n: nat)
    requires m < 32768 && n < 32768 && SessionId(m) == SessionId(n)
    ensures m == n
  {
    var a, b := SessionId(m), SessionId(n);
    assert a[0] == b[0] && a[1] == b[1] && a[2] == b[2];
    LettersDiffer(m / 1024, n / 1024);
    LettersDiffer(m / 32 % 32, n / 32 % 32);
    LettersDiffer(m % 32, n % 32);
    DigitsOf(m);
    DigitsOf(n);
  }

  lemma DigitsOf(n: nat)
    ensures n == 1024 * (n / 1024) + 32 * (n / 32 % 32) + n % 32
  {
    assert n / 32 / 32 == n / 1024;
  }

  lemma LettersDiffer(m: nat, n: nat)
    requires m < 32 && n < 32
    ensures Letter(m) == Letter(n) ==> m == n
  {
  }

  function SessionIds(n: nat): set<string>
    requires n <= 32768
  {
    set i: nat | i < n :: SessionId(i)
  }

  lemma NoSessionIds()
    ensures SessionIds(0) == {}
  {
  }

  lemma SessionIdsGrow(n: nat)
    requires 0 < n <= 32768
    ensures SessionIds(n) == SessionIds(n - 1) + {SessionId(n - 1)}
  {
    hide SessionId;
  }

  lemma {:induction false} SessionIdsCount(n: nat)
    requires n <= 32768
    ensures |SessionIds(n)| == n
  {
    hide SessionId;
    if n == 0 {
      NoSessionIds();
    } else {
      SessionIdsCount(n - 1);
      forall i: nat | i < n - 1 ensures SessionId(i) != SessionId(n - 1) {
        if SessionId(i) == SessionId(n - 1) { SessionIdsDiffer(i, n - 1); }
      }
      SessionIdsGrow(n);
    }
  }

  /** n logins of one user, each with a session of its own. */
  function Logins(user: string, n: nat): (ops: seq<FamilyOp>)
    requires n <= 32768
    ensures |ops| == n
  {
    if n == 0 then []
    else
      Logins(user, n - 1)
      + [Login(Family(user, SessionId(n - 1)), Metadata("unknown", "unknown", 0), NO_SIGN_FAULTS, NO_SIGN_FAULTS)]
  }

  lemma LoginAddsSession(cfg: ValidConfig, db: Db, f: Family, meta: Metadata)
    ensures var (db', r) := IssueTokens(cfg, db, f, meta, NO_SIGN_FAULTS, NO_SIGN_FAULTS);
            && r.Refreshed? && r.refresh.family == f && AcceptsRefresh(db', r.refresh)
            && SessionsOf(db', f.userId).Keys == SessionsOf(db, f.userId).Keys + {f.sessionId}
  {
  }

  lemma {:induction false} LoginsAddUp(cfg: ValidConfig, user: string, n: nat)
    requires n <= 32768
    ensures var db := FamilyHistory(cfg, EMPTY_DB, Logins(user, n));
            && SessionsOf(db, user).Keys == SessionIds(n)
            && (n > 0 ==> exists t: Token :: t.family.userId == user && AcceptsRefresh(db, t))
  {
    hide FamilyHistory, IssueTokens, AcceptsRefresh, SessionsOf, SessionIds, SessionId;
    if n == 0 {
      NobodyHasSessions(cfg, user);
    } else {
      LoginsAddUp(cfg, user, n - 1);
      LastLogin(cfg, user, n);
      var before := FamilyHistory(cfg, EMPTY_DB, Logins(user, n - 1));
      var f, meta := Family(user, SessionId(n - 1)), Metadata("unknown", "unknown", 0);
      LoginAddsSession(cfg, before, f, meta);
      var r := IssueTokens(cfg, before, f, meta, NO_SIGN_FAULTS, NO_SIGN_FAULTS).1;
      assert r.refresh.family.userId == user;
      SessionIdsGrow(n);
    }
  }

  lemma LastLogin(cfg: ValidConfig, user: string, n: nat)
    requires 0 < n <= 32768
    ensures FamilyHistory(cfg, EMPTY_DB, Logins(user, n))
            == IssueTokens(cfg, FamilyHistory(cfg, EMPTY_DB, Logins(user, n - 1)), Family(user, SessionId(n - 1)),
                           Metadata("unknown", "unknown", 0), NO_SIGN_FAULTS, NO_SIGN_FAULTS).0
  {
    hide IssueTokens, SessionId, Generate, Refresh, DropFamily, RevokeAll;
    assert Logins(user, n)[..n - 1] == Logins(user, n - 1);
  }

  lemma NobodyHasSessions(cfg: ValidConfig, user: string)
    ensures SessionsOf(FamilyHistory(cfg, EMPTY_DB, Logins(user, 0)), user).Keys == SessionIds(0)
  {
  }

  /** A user with 10 001 logins keeps every one of them. */
  lemma TooManySessionsSurvive(cfg: ValidConfig, user: string)
    ensures var db := FamilyHistory(cfg, EMPTY_DB, Logins(user, 10_001));
            RevokeAll(db, user) == db && !NothingAccepted(cfg, db, user)
  {
    hide FamilyHistory, SessionsOf, AcceptsRefresh, AcceptsAccess, Logins, SessionIds;
    LoginsAddUp(cfg, user, 10_001);
    SessionIdsCount(10_001);
  }
}
