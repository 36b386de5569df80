/** The OAuth identity store of src/oauth/adapters/redisAdapter.ts.

    Redis holds three key families: user records, an email index and a provider
    index.  Digests and JSON encodings are injective, so a key is modelled by what
    it digests and a stored string by the record it encodes.  Every adapter call is
    a program counter over single Redis commands; `Advance` executes the next one. */
module IdentityStore {
  import opened Options
  import opened Sequences

  const MAX_PROVIDERS := 32
  const MAX_LINK_CAS_ATTEMPTS := 5

  type UserId = string
  type Email = string
  datatype Provider = Provider(provider: string, providerId: string)
  datatype User = User(id: UserId, email: Email, role: Option<string>, providers: seq<Provider>)

  datatype Db = Db(users: map<UserId, User>, emails: map<Email, UserId>, owners: map<Provider, UserId>)

  const EMPTY_DB := Db(map[], map[], map[])

  /** What `validateIdentityUser` demands of a stored record beyond its character rules. */
  predicate ValidUser(u: User) {
    |u.providers| <= MAX_PROVIDERS && Distinct(u.providers)
  }

  // ----- the two Lua transactions -----

  datatype CreateReply = Created | ExistingProvider(owner: UserId) | ExistingEmail(holder: UserId)

  function NewUser(id: UserId, email: Email, p: Provider): User {
    User(id, email, None, [p])
  }

  function CreateScript(db: Db, id: UserId, email: Email, p: Provider): (Db, CreateReply) {
    if p in db.owners then (db, ExistingProvider(db.owners[p]))
    else if email in db.emails then (db, ExistingEmail(db.emails[email]))
    else (Db(db.users[id := NewUser(id, email, p)], db.emails[email := id], db.owners[p := id]), Created)
  }

  datatype LinkReply = Linked | ProviderConflict | EmailConflict | UserMissing | Stale

  function LinkScript(db: Db, id: UserId, p: Provider, email: Email, expected: User, updated: User): (Db, LinkReply) {
    if p in db.owners && db.owners[p] != id then (db, ProviderConflict)
    else if email in db.emails && db.emails[email] != id then (db, EmailConflict)
    else if id !in db.users then (db, UserMissing)
    else if db.users[id] != expected then (db, Stale)
    else (Db(db.users[id := updated], db.emails[email := id], db.owners[p := id]), Linked)
  }

  /** The record `linkProvider` writes back: unchanged when the provider is already there. */
  function WithProvider(u: User, p: Provider): User {
    if p in u.providers then u else u.(providers := u.providers + [p])
  }

  // ----- adapter calls as program counters -----

  datatype Call =
    | FindById(id: UserId)
    | FindByEmail(email: Email)
    | FindByProvider(p: Provider)
    | Create(email: Email, p: Provider, freshId: UserId)
    | Link(id: UserId, p: Provider)

  /** `CorruptRecord`, `IntegrityFailure`, `MissingUser` and `EmailIndexConflict` are the
      throws of the integrity checks; the others are refusals a caller can meet.
      `Contention` carries the length of the provider list at the first read. */
  datatype Failure =
    | CorruptRecord | IntegrityFailure | MissingUser | EmailIndexConflict
    | TargetNotFound | LimitExceeded | AlreadyLinked | Contention(base: nat)

  predicate IsIntegrityThrow(f: Failure) {
    f.CorruptRecord? || f.IntegrityFailure? || f.MissingUser? || f.EmailIndexConflict?
  }

  datatype Outcome =
    | Found(user: Option<User>)
    | CreateResult(reply: CreateReply, subject: User)
    | LinkDone
    | Failed(failure: Failure)

  datatype Pc =
    | Start(call: Call)
    | GetUser(call: Call, target: UserId, reply: CreateReply)
    | ReadTarget(id: UserId, p: Provider, attempt: nat, base: nat)
    | SwapTarget(id: UserId, p: Provider, attempt: nat, base: nat, seen: User)
    | Done(call: Call, outcome: Outcome)

  /** `parseUser`: a record that fails validation makes the read throw. */
  function Read(db: Db, id: UserId): (r: Option<Outcome>)
  {
    if id in db.users then
      if !ValidUser(db.users[id]) then Some(Failed(CorruptRecord))
      else if db.users[id].id != id then Some(Failed(IntegrityFailure))
      else Some(Found(Some(db.users[id])))
    else None
  }

  /** The record fetched through an index, checked against what the index promised. */
  function Resolve(db: Db, call: Call, target: UserId, reply: CreateReply): Outcome {
    match Read(db, target)
    case None => if call.Create? then Failed(MissingUser) else Found(None)
    case Some(Found(Some(u))) =>
      (match call
       case FindByEmail(e) => if u.email != e then Failed(IntegrityFailure) else Found(Some(u))
       case FindByProvider(p) => if p !in u.providers then Failed(IntegrityFailure) else Found(Some(u))
       case Create(e, p, _) =>
         if reply.ExistingProvider? && p !in u.providers then Failed(IntegrityFailure)
         else if reply.ExistingEmail? && u.email != e then Failed(IntegrityFailure)
         else CreateResult(reply, u)
       case _ => Found(Some(u)))
    case Some(failed) => failed
  }

  /** One attempt of the `linkProvider` loop up to its read and local checks. */
  function AfterTargetRead(db: Db, id: UserId, p: Provider, attempt: nat, base: nat): Pc {
    var call := Link(id, p);
    if id !in db.users then Done(call, Failed(TargetNotFound))
    else
      var u := db.users[id];
      if !ValidUser(u) then Done(call, Failed(CorruptRecord))
      else if u.id != id then Done(call, Failed(TargetNotFound))
      else if p !in u.providers && |u.providers| >= MAX_PROVIDERS then Done(call, Failed(LimitExceeded))
      else SwapTarget(id, p, attempt, if attempt == 0 then |u.providers| else base, u)
  }

  function AfterSwap(pc: Pc, reply: LinkReply): Pc
    requires pc.SwapTarget?
  {
    var call := Link(pc.id, pc.p);
    match reply
    case Linked => Done(call, LinkDone)
    case ProviderConflict => Done(call, Failed(AlreadyLinked))
    case EmailConflict => Done(call, Failed(EmailIndexConflict))
    case UserMissing => Done(call, Failed(TargetNotFound))
    case Stale =>
      if pc.attempt + 1 < MAX_LINK_CAS_ATTEMPTS then ReadTarget(pc.id, pc.p, pc.attempt + 1, pc.base)
      else Done(call, Failed(Contention(pc.base)))
  }

  function BeginCall(db: Db, call: Call): (Db, Pc) {
    match call
    case FindById(id) => (db, Done(call, Resolve(db, call, id, Created)))
    case FindByEmail(e) =>
      (db, if e in db.emails then GetUser(call, db.emails[e], Created) else Done(call, Found(None)))
    case FindByProvider(p) =>
      (db, if p in db.owners then GetUser(call, db.owners[p], Created) else Done(call, Found(None)))
    case Create(e, p, id) =>
      var (db', reply) := CreateScript(db, id, e, p);
      (db', match reply
            case Created => Done(call, CreateResult(Created, NewUser(id, e, p)))
            case ExistingProvider(o) => GetUser(call, o, reply)
            case ExistingEmail(h) => GetUser(call, h, reply))
    case Link(id, p) => (db, AfterTargetRead(db, id, p, 0, 0))
  }

  /** Execute the next Redis command of a call. */
  function Advance(db: Db, pc: Pc): (Db, Pc) {
    match pc
    case Start(call) => BeginCall(db, call)
    case GetUser(call, target, reply) => (db, Done(call, Resolve(db, call, target, reply)))
    case ReadTarget(id, p, attempt, base) => (db, AfterTargetRead(db, id, p, attempt, base))
    case SwapTarget(id, p, attempt, base, seen) =>
      var (db', reply) := LinkScript(db, id, p, seen.email, seen, WithProvider(seen, p));
      (db', AfterSwap(pc, reply))
    case Done(_, _) => (db, pc)
  }

  // ----- the store invariant -----

  /** An index entry for u exists exactly when u's record holds that email or provider. */
  ghost predicate IndexesAgree(db: Db) {
    RecordsValid(db) && EmailsAgree(db) && OwnersAgree(db)
  }

  ghost predicate RecordsValid(db: Db) {
    forall id <- db.users :: db.users[id].id == id && ValidUser(db.users[id])
  }

  ghost predicate EmailsAgree(db: Db) {
    && (forall id <- db.users :: IndexedEmail(db, id, db.users[id].email))
    && (forall e <- db.emails :: db.emails[e] in db.users && db.users[db.emails[e]].email == e)
  }

  ghost predicate IndexedEmail(db: Db, id: UserId, e: Email) {
    e in db.emails && db.emails[e] == id
  }

  ghost predicate OwnersAgree(db: Db) {
    && (forall id <- db.users, p <- db.users[id].providers :: OwnedBy(db, id, p))
    && (forall p <- db.owners :: db.owners[p] in db.users && p in db.users[db.owners[p]].providers)
  }

  ghost predicate OwnedBy(db: Db, id: UserId, p: Provider) {
    p in db.owners && db.owners[p] == id
  }

  /** What every command keeps of the past: identities, index entries and list prefixes. */
  ghost predicate Extends(db: Db, db': Db) {
    && (forall id <- db.users :: id in db'.users && Grew(db.users[id], db'.users[id]))
    && (forall e <- db.emails :: e in db'.emails && db'.emails[e] == db.emails[e])
    && (forall p <- db.owners :: p in db'.owners && db'.owners[p] == db.owners[p])
  }

  ghost predicate Grew(u: User, u': User) {
    u'.id == u.id && u'.email == u.email && u'.role == u.role && u.providers <= u'.providers
  }

  lemma ExtendsTransitive(a: Db, b: Db, c: Db)
    requires Extends(a, b) && Extends(b, c)
    ensures Extends(a, c)
  {
    forall id <- a.users ensures id in c.users && Grew(a.users[id], c.users[id]) {
      assert Grew(a.users[id], b.users[id]) && Grew(b.users[id], c.users[id]);
    }
  }

  /** What a pending or finished call knows about the store, whatever others do meanwhile. */
  ghost predicate Knows(db: Db, pc: Pc) {
    match pc
    case Start(call) => call.Create? ==> call.freshId !in db.users
    case GetUser(call, target, reply) =>
      && target in db.users
      && (match call
          case FindByEmail(e) => db.users[target].email == e
          case FindByProvider(p) => p in db.users[target].providers
          case Create(e, p, _) =>
            || (reply == ExistingProvider(target) && p in db.users[target].providers)
            || (reply == ExistingEmail(target) && db.users[target].email == e)
          case _ => false)
    case ReadTarget(id, p, attempt, base) =>
      && id in db.users && 1 <= attempt < MAX_LINK_CAS_ATTEMPTS
      && base + attempt <= |db.users[id].providers|
    case SwapTarget(id, p, attempt, base, seen) =>
      && id in db.users && attempt < MAX_LINK_CAS_ATTEMPTS
      && ValidUser(seen) && seen.id == id && Grew(seen, db.users[id])
      && (p in seen.providers || |seen.providers| < MAX_PROVIDERS)
      && base + attempt <= |seen.providers|
    case Done(call, outcome) => Settled(db, call, outcome)
  }

  /** What a finished call established, and what stays true of it for ever. */
  ghost predicate Settled(db: Db, call: Call, outcome: Outcome) {
    match outcome
    case Found(None) => call.FindById? || call.FindByEmail? || call.FindByProvider?
    case Found(Some(u)) =>
      && u.id in db.users && Grew(u, db.users[u.id]) && ValidUser(u)
      && (match call
          case FindById(id) => u.id == id
          case FindByEmail(e) => u.email == e && e in db.emails && db.emails[e] == u.id
          case FindByProvider(p) => p in u.providers && p in db.owners && db.owners[p] == u.id
          case _ => false)
    case CreateResult(reply, u) =>
      && call.Create?
      && u.id in db.users && Grew(u, db.users[u.id]) && ValidUser(u)
      && (reply.ExistingEmail? ==> u.email == call.email)
      && (reply.ExistingProvider? ==> Owns(db, u, call.p))
      && (reply.Created? ==> Owns(db, u, call.p) && u == User(call.freshId, call.email, None, [call.p]))
    case LinkDone => call.Link? && call.p in db.owners && db.owners[call.p] == call.id && call.id in db.users
    case Failed(f) =>
      && !IsIntegrityThrow(f)
      && call.Link?
      && (f.Contention? ==> call.id in db.users
                            && f.base + MAX_LINK_CAS_ATTEMPTS <= |db.users[call.id].providers|)
  }

  ghost predicate Owns(db: Db, u: User, p: Provider) {
    p in u.providers && p in db.owners && db.owners[p] == u.id
  }

  // ----- the invariant is kept -----

  lemma CreateScriptKeeps(db: Db, id: UserId, email: Email, p: Provider)
    requires IndexesAgree(db) && id !in db.users
    ensures var (db', _) := CreateScript(db, id, email, p); IndexesAgree(db') && Extends(db, db')
  {
    if p !in db.owners && email !in db.emails {
      WriteKeeps(db, id, NewUser(id, email, p), p);
    }
  }

  lemma ExtendsItself(db: Db)
    ensures Extends(db, db)
  {
  }

  lemma WithProviderFits(u: User, p: Provider)
    requires ValidUser(u) && (p in u.providers || |u.providers| < MAX_PROVIDERS)
    ensures Grew(u, WithProvider(u, p)) && ValidUser(WithProvider(u, p)) && p in WithProvider(u, p).providers
  {
  }

  lemma LinkScriptKeeps(db: Db, id: UserId, p: Provider, seen: User)
    requires IndexesAgree(db) && seen.id == id && ValidUser(seen)
    requires p in seen.providers || |seen.providers| < MAX_PROVIDERS
    ensures var (db', _) := LinkScript(db, id, p, seen.email, seen, WithProvider(seen, p));
            IndexesAgree(db') && Extends(db, db')
  {
    hide EmailsAgree, OwnersAgree, Grew;
    var (_, reply) := LinkScript(db, id, p, seen.email, seen, WithProvider(seen, p));
    if reply == Linked {
      WithProviderFits(seen, p);
      WriteKeeps(db, id, WithProvider(seen, p), p);
    } else {
      ExtendsItself(db);
    }
  }

  /** The three SETs both transactions end with. */
  function Write(db: Db, id: UserId, u: User, p: Provider): Db {
    Db(db.users[id := u], db.emails[u.email := id], db.owners[p := id])
  }

  /** Writing a new record, or a grown one, together with its index entries is safe when
      no other user holds the email or the provider. */
  lemma WriteKeeps(db: Db, id: UserId, u: User, p: Provider)
    requires IndexesAgree(db) && u.id == id && ValidUser(u) && p in u.providers
    requires u.email in db.emails ==> db.emails[u.email] == id
    requires p in db.owners ==> db.owners[p] == id
    requires id in db.users ==> Grew(db.users[id], u)
    requires forall q <- u.providers :: q == p || (id in db.users && q in db.users[id].providers)
    ensures IndexesAgree(Write(db, id, u, p)) && Extends(db, Write(db, id, u, p))
  {
    WriteKeepsEmails(db, id, u, p);
    WriteKeepsOwners(db, id, u, p);
    WriteExtends(db, id, u, p);
  }

  lemma WriteExtends(db: Db, id: UserId, u: User, p: Provider)
    requires u.email in db.emails ==> db.emails[u.email] == id
    requires p in db.owners ==> db.owners[p] == id
    requires id in db.users ==> Grew(db.users[id], u)
    ensures Extends(db, Write(db, id, u, p))
  {
  }

  lemma WriteKeepsEmails(db: Db, id: UserId, u: User, p: Provider)
    requires RecordsValid(db) && EmailsAgree(db)
    requires u.email in db.emails ==> db.emails[u.email] == id
    requires id in db.users ==> Grew(db.users[id], u)
    ensures EmailsAgree(Write(db, id, u, p))
  {
    var db' := Write(db, id, u, p);
    forall x <- db'.users ensures IndexedEmail(db', x, db'.users[x].email) {
      if x != id { assert IndexedEmail(db, x, db.users[x].email); }
    }
    forall e <- db'.emails ensures db'.emails[e] in db'.users && db'.users[db'.emails[e]].email == e {
    }
  }

  lemma WriteKeepsOwners(db: Db, id: UserId, u: User, p: Provider)
    requires OwnersAgree(db) && p in u.providers
    requires p in db.owners ==> db.owners[p] == id
    requires id in db.users ==> Grew(db.users[id], u)
    requires forall q <- u.providers :: q == p || (id in db.users && q in db.users[id].providers)
    ensures OwnersAgree(Write(db, id, u, p))
  {
    var db' := Write(db, id, u, p);
    forall x <- db'.users, q <- db'.users[x].providers ensures OwnedBy(db', x, q) {
      if x != id || q != p { assert OwnedBy(db, x, q); }
    }
    forall q <- db'.owners ensures db'.owners[q] in db'.users && q in db'.users[db'.owners[q]].providers {
      if q != p && db.owners[q] == id { assert q in db.users[id].providers; }
    }
  }

  /** Whatever others commit, a call still knows what it knew. */
  lemma KnowsStable(db: Db, db': Db, pc: Pc)
    requires Knows(db, pc) && Extends(db, db')
    requires pc.Start? && pc.call.Create? ==> pc.call.freshId !in db'.users
    ensures Knows(db', pc)
  {
  }

  /** One Redis command keeps the indexes exact, forgets nothing, and leaves the call
      knowing the right thing: in particular no integrity check ever throws. */
  lemma AdvanceKeeps(db: Db, pc: Pc)
    requires IndexesAgree(db) && Knows(db, pc)
    ensures var (db', pc') := Advance(db, pc);
            IndexesAgree(db') && Extends(db, db') && Knows(db', pc')
  {
    match pc
    case Start(call) => BeginKeeps(db, call);
    case GetUser(call, target, reply) => ResolveSettles(db, call, target, reply);
    case ReadTarget(id, p, attempt, base) => TargetReadKeeps(db, id, p, attempt, base);
    case SwapTarget(id, p, _, _, seen) =>
      LinkScriptKeeps(db, id, p, seen);
      SwapKeeps(db, pc);
    case Done(_, _) =>
  }

  lemma ResolveSettles(db: Db, call: Call, target: UserId, reply: CreateReply)
    requires IndexesAgree(db)
    requires Knows(db, GetUser(call, target, reply)) || (call == FindById(target))
    ensures Settled(db, call, Resolve(db, call, target, reply))
  {
    if target in db.users {
      var u := db.users[target];
      assert u.id == target && IndexedEmail(db, target, u.email);
      match call
      case FindByProvider(p) => assert OwnedBy(db, target, p);
      case Create(_, p, _) => assert p in u.providers ==> OwnedBy(db, target, p);
      case _ =>
    }
  }

  lemma BeginKeeps(db: Db, call: Call)
    requires IndexesAgree(db) && Knows(db, Start(call))
    ensures var (db', pc') := BeginCall(db, call);
            IndexesAgree(db') && Extends(db, db') && Knows(db', pc')
  {
    match call
    case FindById(id) => ResolveSettles(db, call, id, Created);
    case Create(e, p, id) => CreateScriptKeeps(db, id, e, p);
    case Link(id, p) => TargetReadKeeps(db, id, p, 0, 0);
    case _ =>
  }

  lemma TargetReadKeeps(db: Db, id: UserId, p: Provider, attempt: nat, base: nat)
    requires IndexesAgree(db)
    requires attempt == 0 || Knows(db, ReadTarget(id, p, attempt, base))
    ensures Knows(db, AfterTargetRead(db, id, p, attempt, base))
  {
  }

  /** A "stale" reply means the record strictly grew since it was read, so every retry
      leaves the loop's measure `MAX_PROVIDERS - |providers|` strictly smaller. */
  lemma StaleMeansGrown(db: Db, pc: Pc)
    requires pc.SwapTarget? && IndexesAgree(db) && Knows(db, pc)
    requires LinkScript(db, pc.id, pc.p, pc.seen.email, pc.seen, WithProvider(pc.seen, pc.p)).1 == Stale
    ensures |pc.seen.providers| < |db.users[pc.id].providers| <= 32
  {
  }

  lemma SwapKeeps(db: Db, pc: Pc)
    requires pc.SwapTarget? && IndexesAgree(db) && Knows(db, pc)
    ensures var (db', pc') := Advance(db, pc); Knows(db', pc')
  {
    var seen := pc.seen;
    var (db', reply) := LinkScript(db, pc.id, pc.p, seen.email, seen, WithProvider(seen, pc.p));
    assert IndexedEmail(db, pc.id, db.users[pc.id].email);
    match reply
    case Stale => StaleMeansGrown(db, pc);
    case Linked => assert pc.p in db'.owners;
    case _ =>
  }

  /** Only a user the call itself creates can be new. */
  lemma AdvanceCreatesOnlyFresh(db: Db, pc: Pc, id: UserId)
    requires Knows(db, pc)
    ensures id in Advance(db, pc).0.users && id !in db.users
            ==> pc.Start? && pc.call.Create? && pc.call.freshId == id
  {
  }
}
