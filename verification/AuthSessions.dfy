/** Access sessions and refresh families run one call at a time: src/auth/jwtAuth.ts,
    src/auth/sessionStore.ts, src/auth/refreshService.ts and the compositions of
    src/createAuthenik8.ts.

    Every call to the signers, the risk service and the audit sink may throw; store
    operations do not.  Each call has a function that says what it does to the store, a
    method that does it command by command, and lemmas about the function. */
module AuthSessions {
  import opened Options
  import opened Redis
  import opened RefreshTokens

  const REVOCATION_BATCH_SIZE := 100
  const MAX_FALLBACK_SESSION_IDS := 10_000

  /** Lifetimes in milliseconds; both services accept at least 60 seconds. */
  datatype Config = Config(accessTtl: nat, refreshTtl: nat, rotate: bool, risk: bool) {
    predicate Valid() {
      accessTtl >= 60_000 && refreshTtl >= 60_000
    }
  }

  type ValidConfig = c: Config | c.Valid() witness Config(60_000, 60_000, true, true)

  datatype AccessToken = AccessToken(jti: nat, family: Family, exp: nat)

  datatype Metadata = Metadata(device: string, ip: string, createdAt: nat)

  /** A stored session: the fingerprint of its current access token and its metadata. */
  datatype Session = Session(token: AccessToken, metadata: Metadata)

  /** One Redis hash per user holds all of its sessions, another the index of its families;
      `keys` and `locks` are per family. */
  datatype Db = Db(
    now: nat,
    next: nat,
    keys: map<Family, Entry<Stored>>,
    locks: map<Family, Entry<nat>>,
    index: map<string, Entry<set<string>>>,
    sessions: map<string, Entry<map<string, Session>>>,
    quarantined: set<Family>
  )

  // ----- the session store -----

  function SessionsOf(db: Db, user: string): map<string, Session> {
    if Live(db.sessions, user, db.now) then db.sessions[user].value else map[]
  }

  /** `SessionStore.get`. */
  function SessionOf(db: Db, f: Family): Option<Session> {
    var fields := SessionsOf(db, f.userId);
    if f.sessionId in fields then Some(fields[f.sessionId]) else None
  }

  /** `SessionStore.upsert`: HSET, then EXPIRE on the whole hash. */
  function Upsert(db: Db, f: Family, s: Session, ttl: nat): Db {
    db.(sessions := Set(db.sessions, f.userId, SessionsOf(db, f.userId)[f.sessionId := s], db.now, ttl))
  }

  /** `SessionStore.revoke`: HDEL. */
  function DropSession(db: Db, f: Family): Db {
    if f.userId !in db.sessions then db
    else
      var entry := db.sessions[f.userId];
      db.(sessions := db.sessions[f.userId := entry.(value := entry.value - {f.sessionId})])
  }

  /** Which calls throw in one token issue: the signer, or the audit sink at the end. */
  datatype SignFaults = SignFaults(sign: bool, audit: bool)

  /** `signToken`: an existing session keeps its metadata and gets the new token. */
  function SignToken(cfg: ValidConfig, db: Db, f: Family, meta: Metadata, x: SignFaults): (Db, Option<AccessToken>) {
    if x.sign then (db, None)
    else
      var token := AccessToken(db.next, f, db.now + cfg.accessTtl);
      var existing := SessionOf(db, f);
      var session := Session(token, if existing.Some? then existing.value.metadata else meta);
      var db' := Upsert(db.(next := db.next + 1), f, session, cfg.accessTtl);
      if x.audit then (DropSession(db', f), None) else (db', Some(token))
  }

  function Quarantined(cfg: Config, db: Db, f: Family): bool {
    cfg.risk && f in db.quarantined
  }

  /** `verifyActiveToken` without a request observation. */
  predicate AcceptsAccess(cfg: Config, db: Db, t: AccessToken) {
    && db.now < t.exp
    && SessionOf(db, t.family).Some? && SessionOf(db, t.family).value.token == t
    && !Quarantined(cfg, db, t.family)
  }

  // ----- refresh families -----

  function FamiliesOf(db: Db, user: string): set<string> {
    if Live(db.index, user, db.now) then db.index[user].value else {}
  }

  function Track(db: Db, f: Family, ttl: nat): Db {
    db.(index := Set(db.index, f.userId, FamiliesOf(db, f.userId) + {f.sessionId}, db.now, ttl))
  }

  function Untrack(db: Db, f: Family): Db {
    if f.userId !in db.index then db
    else
      var entry := db.index[f.userId];
      db.(index := db.index[f.userId := entry.(value := entry.value - {f.sessionId})])
  }

  /** `revokeRefreshFamily`: the key, the index field and the session. */
  function DropFamily(db: Db, f: Family): Db {
    DropSession(Untrack(db.(keys := Del(db.keys, f)), f), f)
  }

  /** `refresh` would find this token stored. */
  predicate AcceptsRefresh(db: Db, t: Token) {
    Live(db.keys, t.family, db.now) && db.keys[t.family].value.token == t
  }

  /** `generateRefreshToken`. */
  function Generate(cfg: ValidConfig, db: Db, f: Family, x: SignFaults): (Db, Option<Token>) {
    if x.sign then (db, None)
    else
      var token := Token(db.next, f);
      var db0 := db.(next := db.next + 1);
      var db1 := Track(db0.(keys := Set(db0.keys, f, Fingerprint(token), db0.now, cfg.refreshTtl)), f, cfg.refreshTtl);
      if x.audit then (DropFamily(db1, f), None) else (db1, Some(token))
  }

  /** Which calls throw in one `refresh`, whether the risk service quarantines the family when
      it is told of something, and how long the signer takes before the compare-and-set. */
  datatype Faults = Faults(signRefresh: bool, access: SignFaults, auditRotated: bool, quarantines: bool, pause: nat)

  datatype RefreshResult = Refreshed(access: AccessToken, refresh: Token) | Threw

  function Report(db: Db, f: Family, x: Faults): Db {
    if x.quarantines then db.(quarantined := db.quarantined + {f}) else db
  }

  /** `rotateTokenIfEnabled`; None when it threw. */
  function Rotate(cfg: ValidConfig, db: Db, t: Token, stored: Stored, x: Faults): (Db, Option<Token>) {
    if !cfg.rotate then (db, Some(t))
    else if x.signRefresh then (db, None)
    else
      var token := Token(db.next, t.family);
      var db0 := db.(next := db.next + 1, now := db.now + x.pause);
      var (keys', ok) := CompareAndSet(db0.keys, t.family, stored, Fingerprint(token), db0.now, cfg.refreshTtl);
      if ok then (db0.(keys := keys'), Some(token))
      else (DropFamily(Report(db0, t.family, x), t.family), None)
  }

  /** The body of `refresh` inside its try block. */
  function Locked(cfg: ValidConfig, db: Db, t: Token, x: Faults): (Db, RefreshResult) {
    var stored := Get(db.keys, t.family, db.now);
    if stored.None? || stored.value.token != t then (DropFamily(Report(db, t.family, x), t.family), Threw)
    else
      var (db1, refresh) := Rotate(cfg, db, t, stored.value, x);
      if refresh.None? then (db1, Threw)
      else
        var (db2, access) := SignToken(cfg, db1, t.family, Metadata("unknown", "unknown", db1.now), x.access);
        if access.None? || x.auditRotated then (DropFamily(db2, t.family), Threw)
        else (db2, Refreshed(access.value, refresh.value))
  }

  function Refresh(cfg: ValidConfig, db: Db, t: Token, x: Faults): (Db, RefreshResult) {
    if Quarantined(cfg, db, t.family) then (db, Threw)
    else
      var lock := db.next;
      var (locks', ok) := SetIfAbsent(db.locks, t.family, lock, db.now, REFRESH_LOCK_TTL_MS);
      var db0 := db.(locks := locks', next := db.next + 1);
      if !ok then (Report(db0, t.family, x), Threw)
      else
        var (db1, r) := Locked(cfg, db0, t, x);
        (db1.(locks := DelIfOwner(db1.locks, t.family, lock, db1.now)), r)
  }

  // ----- revoking everything -----

  /** `RefreshService.revokeAllSessions`; it throws on too long a list before it does anything. */
  function RevokeFamilies(db: Db, user: string, fallback: set<string>): Db {
    if |fallback| > MAX_FALLBACK_SESSION_IDS then db
    else
      var families := set s <- fallback + FamiliesOf(db, user) :: Family(user, s);
      db.(keys := db.keys - families, index := db.index - {user}, sessions := db.sessions - {user})
  }

  /** `revokeAllSessions` of the public API: listed sessions serve as the fallback. */
  function RevokeAll(db: Db, user: string): Db {
    RevokeFamilies(db, user, SessionsOf(db, user).Keys)
  }

  // ----- issuing a pair -----

  /** `issueTokens`: when the refresh token cannot be issued the access session is revoked. */
  function IssueTokens(cfg: ValidConfig, db: Db, f: Family, meta: Metadata, x: SignFaults, y: SignFaults)
    : (Db, RefreshResult)
  {
    var (db1, access) := SignToken(cfg, db, f, meta, x);
    if access.None? then (db1, Threw)
    else
      var (db2, refresh) := Generate(cfg, db1, f, y);
      if refresh.None? then (DropSession(db2, f), Threw) else (db2, Refreshed(access.value, refresh.value))
  }

  // ----- the services, command by command -----

  class AuthService {
    const cfg: ValidConfig
    var db: Db

    constructor (cfg: ValidConfig, db: Db)
      ensures this.cfg == cfg && this.db == db
    {
      this.cfg, this.db := cfg, db;
    }

    method SignAccess(f: Family, meta: Metadata, x: SignFaults) returns (token: Option<AccessToken>)
      modifies this
      ensures (db, token) == SignToken(cfg, old(db), f, meta, x)
    {
      if x.sign { return None; }
      var access := AccessToken(db.next, f, db.now + cfg.accessTtl);
      db := db.(next := db.next + 1);
      var existing := SessionOf(db, f);
      var metadata := if existing.Some? then existing.value.metadata else meta;
      db := Upsert(db, f, Session(access, metadata), cfg.accessTtl);
      if x.audit {
        db := DropSession(db, f);
        return None;
      }
      token := Some(access);
    }

    method RevokeFamily(f: Family)
      modifies this
      ensures db == DropFamily(old(db), f)
    {
      db := db.(keys := Del(db.keys, f));
      db := Untrack(db, f);
      db := DropSession(db, f);
    }

    method GenerateRefreshToken(f: Family, x: SignFaults) returns (token: Option<Token>)
      modifies this
      ensures (db, token) == Generate(cfg, old(db), f, x)
    {
      if x.sign { return None; }
      var refresh := Token(db.next, f);
      db := db.(next := db.next + 1);
      db := db.(keys := Set(db.keys, f, Fingerprint(refresh), db.now, cfg.refreshTtl));
      db := Track(db, f, cfg.refreshTtl);
      if x.audit {
        RevokeFamily(f);
        return None;
      }
      token := Some(refresh);
    }

    method RotateTokenIfEnabled(t: Token, stored: Stored, x: Faults) returns (token: Option<Token>)
      modifies this
      ensures (db, token) == Rotate(cfg, old(db), t, stored, x)
    {
      if !cfg.rotate { return Some(t); }
      if x.signRefresh { return None; }
      var refresh := Token(db.next, t.family);
      db := db.(next := db.next + 1);
      db := db.(now := db.now + x.pause);
      var (keys', ok) := CompareAndSet(db.keys, t.family, stored, Fingerprint(refresh), db.now, cfg.refreshTtl);
      db := db.(keys := keys');
      if !ok {
        db := Report(db, t.family, x);
        RevokeFamily(t.family);
        return None;
      }
      token := Some(refresh);
    }

    method RefreshLocked(t: Token, x: Faults) returns (r: RefreshResult)
      modifies this
      ensures (db, r) == Locked(cfg, old(db), t, x)
    {
      var stored := Get(db.keys, t.family, db.now);
      if stored.None? || stored.value.token != t {
        db := Report(db, t.family, x);
        RevokeFamily(t.family);
        return Threw;
      }
      var refresh := RotateTokenIfEnabled(t, stored.value, x);
      if refresh.None? { return Threw; }
      var access := SignAccess(t.family, Metadata("unknown", "unknown", db.now), x.access);
      if access.None? || x.auditRotated {
        RevokeFamily(t.family);
        return Threw;
      }
      r := Refreshed(access.value, refresh.value);
    }

    method RefreshToken(t: Token, x: Faults) returns (r: RefreshResult)
      modifies this
      ensures (db, r) == Refresh(cfg, old(db), t, x)
    {
      if Quarantined(cfg, db, t.family) { return Threw; }
      var lock := db.next;
      var (locks', ok) := SetIfAbsent(db.locks, t.family, lock, db.now, REFRESH_LOCK_TTL_MS);
      db := db.(locks := locks', next := db.next + 1);
      if !ok {
        db := Report(db, t.family, x);
        return Threw;
      }
      r := RefreshLocked(t, x);
      db := db.(locks := DelIfOwner(db.locks, t.family, lock, db.now));
    }

    /** The keys go in batches of 100, the index and the sessions after them. */
    method RevokeAllFamilies(user: string, pending: seq<string>)
      modifies this
      ensures db == old(db).(keys := old(db).keys - (set s <- pending :: Family(user, s)),
                             index := old(db).index - {user}, sessions := old(db).sessions - {user})
    {
      var offset := 0;
      while offset < |pending|
        invariant 0 <= offset
        invariant offset % REVOCATION_BATCH_SIZE == 0
        invariant db == old(db).(keys := old(db).keys - Prefix(user, pending, offset))
      {
        var end := if offset + REVOCATION_BATCH_SIZE <= |pending| then offset + REVOCATION_BATCH_SIZE else |pending|;
        for i := offset to end
          invariant db == old(db).(keys := old(db).keys - Prefix(user, pending, i))
        {
          db := db.(keys := Del(db.keys, Family(user, pending[i])));
        }
        offset := offset + REVOCATION_BATCH_SIZE;
      }
      db := db.(index := db.index - {user});
      db := db.(sessions := db.sessions - {user});
    }

    /** The public `revokeAllSessions`: every listed session and every indexed family. */
    method RevokeAllSessions(user: string) returns (ok: bool)
      modifies this
      ensures ok == (|SessionsOf(old(db), user).Keys| <= MAX_FALLBACK_SESSION_IDS)
      ensures db == RevokeAll(old(db), user)
    {
      hide SessionsOf, FamiliesOf;
      var fallback := SessionsOf(db, user).Keys;
      if |fallback| > MAX_FALLBACK_SESSION_IDS { return false; }
      var ids := fallback + FamiliesOf(db, user);
      var rest, pending := ids, [];
      while rest != {}
        invariant rest + (set s <- pending) == ids
      {
        var s :| s in rest;
        rest, pending := rest - {s}, pending + [s];
      }
      RevokeAllFamilies(user, pending);
      assert (set s <- pending :: Family(user, s)) == (set s <- ids :: Family(user, s));
      ok := true;
    }

    method VerifyActiveToken(t: AccessToken) returns (active: bool)
      ensures active == AcceptsAccess(cfg, db, t)
    {
      if db.now >= t.exp { return false; }
      var session := SessionOf(db, t.family);
      if session.None? || session.value.token != t { return false; }
      active := !Quarantined(cfg, db, t.family);
    }

    method IssuePair(f: Family, meta: Metadata, x: SignFaults, y: SignFaults) returns (r: RefreshResult)
      modifies this
      ensures (db, r) == IssueTokens(cfg, old(db), f, meta, x, y)
    {
      var access := SignAccess(f, meta, x);
      if access.None? { return Threw; }
      var refresh := GenerateRefreshToken(f, y);
      if refresh.None? {
        db := DropSession(db, f);
        return Threw;
      }
      r := Refreshed(access.value, refresh.value);
    }

    ghost function Prefix(user: string, pending: seq<string>, n: nat): set<Family> {
      set i | 0 <= i < n && i < |pending| :: Family(user, pending[i])
    }
  }
}
