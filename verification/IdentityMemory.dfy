/** The scanning adapter of src/oauth/adapters/memoryAdapter.ts, and the proof that the
    indexed Redis store refines it command by command. */
module IdentityMemory {
  import opened Options
  import opened IdentityStore

  // ----- the scans, over records in insertion order -----

  function ScanId(users: seq<User>, id: UserId): (r: Option<User>)
    ensures r.Some? ==> r.value in users && r.value.id == id
    ensures r.None? ==> forall u <- users :: u.id != id
  {
    if users == [] then None
    else if users[0].id == id then Some(users[0])
    else ScanId(users[1..], id)
  }

  function ScanEmail(users: seq<User>, e: Email): (r: Option<User>)
    ensures r.Some? ==> r.value in users && r.value.email == e
    ensures r.None? ==> forall u <- users :: u.email != e
  {
    if users == [] then None
    else if users[0].email == e then Some(users[0])
    else ScanEmail(users[1..], e)
  }

  function ScanProvider(users: seq<User>, p: Provider): (r: Option<User>)
    ensures r.Some? ==> r.value in users && p in r.value.providers
    ensures r.None? ==> forall u <- users :: p !in u.providers
  {
    if users == [] then None
    else if p in users[0].providers then Some(users[0])
    else ScanProvider(users[1..], p)
  }

  /** `Map.set` on an existing key: the record is replaced where it stands. */
  function Replace(users: seq<User>, u: User): seq<User> {
    seq(|users|, i requires 0 <= i < |users| => if users[i].id == u.id then u else users[i])
  }

  datatype Reply = Lookup(user: Option<User>) | Creation(reply: CreateReply) | LinkAttempt(ok: bool)

  /** Every adapter call as one atomic step on the list of records. */
  function MemoryStep(users: seq<User>, call: Call): (seq<User>, Reply) {
    match call
    case FindById(id) => (users, Lookup(ScanId(users, id)))
    case FindByEmail(e) => (users, Lookup(ScanEmail(users, e)))
    case FindByProvider(p) => (users, Lookup(ScanProvider(users, p)))
    case Create(e, p, id) => MemoryCreate(users, e, p, id)
    case Link(id, p) => MemoryLink(users, id, p)
  }

  function MemoryCreate(users: seq<User>, e: Email, p: Provider, id: UserId): (seq<User>, Reply) {
    match ScanProvider(users, p)
    case Some(owner) => (users, Creation(ExistingProvider(owner.id)))
    case None =>
      match ScanEmail(users, e)
      case Some(holder) => (users, Creation(ExistingEmail(holder.id)))
      case None => (users + [NewUser(id, e, p)], Creation(Created))
  }

  function MemoryLink(users: seq<User>, id: UserId, p: Provider): (seq<User>, Reply) {
    var owner := ScanProvider(users, p);
    if owner.Some? && owner.value.id != id then (users, LinkAttempt(false))
    else
      match ScanId(users, id)
      case None => (users, LinkAttempt(false))
      case Some(u) =>
        if p in u.providers then (users, LinkAttempt(true))
        else if |u.providers| >= MAX_PROVIDERS then (users, LinkAttempt(false))
        else (Replace(users, WithProvider(u, p)), LinkAttempt(true))
  }

  // ----- the class, updated in place like the module-level Map -----

  class MemoryAdapter {
    var users: seq<User>

    constructor ()
      ensures users == []
    {
      users := [];
    }

    method CreateUser(e: Email, p: Provider, id: UserId) returns (reply: CreateReply, user: User)
      modifies this
      ensures users == MemoryStep(old(users), Create(e, p, id)).0
      ensures Creation(reply) == MemoryStep(old(users), Create(e, p, id)).1
      ensures user in users
      ensures match reply
              case Created => user == User(id, e, None, [p])
              case ExistingProvider(o) => user.id == o && p in user.providers
              case ExistingEmail(h) => user.id == h && user.email == e
    {
      var existingProvider := ScanProvider(users, p);
      if existingProvider.Some? {
        return ExistingProvider(existingProvider.value.id), existingProvider.value;
      }
      var existingEmail := ScanEmail(users, e);
      if existingEmail.Some? {
        return ExistingEmail(existingEmail.value.id), existingEmail.value;
      }
      user := NewUser(id, e, p);
      users := users + [user];
      reply := Created;
    }

    method LinkProvider(id: UserId, p: Provider) returns (ok: bool)
      modifies this
      ensures users == MemoryStep(old(users), Link(id, p)).0
      ensures LinkAttempt(ok) == MemoryStep(old(users), Link(id, p)).1
    {
      var owner := ScanProvider(users, p);
      if owner.Some? && owner.value.id != id { return false; }
      var user := ScanId(users, id);
      if user.None? { return false; }
      if p !in user.value.providers {
        if |user.value.providers| >= MAX_PROVIDERS { return false; }
        users := Replace(users, user.value.(providers := user.value.providers + [p]));
      }
      ok := true;
    }
  }

  // ----- refinement -----

  /** The records keyed by id. */
  function ById(users: seq<User>): map<UserId, User> {
    if users == [] then map[]
    else var u := users[|users| - 1]; ById(users[..|users| - 1])[u.id := u]
  }

  ghost predicate UniqueIds(users: seq<User>) {
    forall i, j :: 0 <= i < j < |users| ==> users[i].id != users[j].id
  }

  /** The list holds exactly the stored records, each once. */
  ghost predicate Represents(users: seq<User>, stored: map<UserId, User>) {
    UniqueIds(users) && ById(users) == stored
  }

  lemma {:induction false} ByIdAt(users: seq<User>, i: nat)
    requires UniqueIds(users) && i < |users|
    ensures users[i].id in ById(users) && ById(users)[users[i].id] == users[i]
  {
    if i < |users| - 1 { ByIdAt(users[..|users| - 1], i); }
  }

  lemma {:induction false} ByIdHolds(users: seq<User>, id: UserId)
    requires id in ById(users)
    ensures ById(users)[id].id == id && ById(users)[id] in users
  {
    if users[|users| - 1].id != id { ByIdHolds(users[..|users| - 1], id); }
  }

  lemma {:induction false} ByIdReplace(users: seq<User>, u: User)
    requires UniqueIds(users)
    ensures ById(Replace(users, u)) == if u.id in ById(users) then ById(users)[u.id := u] else ById(users)
  {
    if users != [] {
      var init, last := users[..|users| - 1], users[|users| - 1];
      ByIdReplace(init, u);
      assert Replace(users, u)[..|users| - 1] == Replace(init, u);
      if last.id == u.id && u.id in ById(init) { ByIdHolds(init, u.id); }
    }
  }

  lemma AppendRepresents(users: seq<User>, stored: map<UserId, User>, u: User)
    requires Represents(users, stored) && u.id !in stored
    ensures Represents(users + [u], stored[u.id := u])
  {
    assert (users + [u])[..|users|] == users;
    forall i | 0 <= i < |users| ensures users[i].id != u.id { ByIdAt(users, i); }
  }

  lemma ReplaceRepresents(users: seq<User>, stored: map<UserId, User>, u: User)
    requires Represents(users, stored) && u.id in stored
    ensures Represents(Replace(users, u), stored[u.id := u])
  {
    ByIdReplace(users, u);
  }

  lemma ScansFollowIndexes(users: seq<User>, db: Db, id: UserId, e: Email, p: Provider)
    requires IndexesAgree(db) && Represents(users, db.users)
    ensures ScanId(users, id) == if id in db.users then Some(db.users[id]) else None
    ensures ScanEmail(users, e) == if e in db.emails then Some(db.users[db.emails[e]]) else None
    ensures ScanProvider(users, p) == if p in db.owners then Some(db.users[db.owners[p]]) else None
  {
    ScanIdFollowsKey(users, db, id);
    ScanEmailFollowsIndex(users, db, e);
    ScanProviderFollowsIndex(users, db, p);
  }

  lemma ScanIdFollowsKey(users: seq<User>, db: Db, id: UserId)
    requires Represents(users, db.users)
    ensures ScanId(users, id) == if id in db.users then Some(db.users[id]) else None
  {
    var found := ScanId(users, id);
    if found.Some? { FoundIsStored(users, found.value); }
    if id in db.users { ByIdHolds(users, id); }
  }

  lemma FoundIsStored(users: seq<User>, u: User)
    requires UniqueIds(users) && u in users
    ensures u.id in ById(users) && ById(users)[u.id] == u
  {
  }

  lemma ScanEmailFollowsIndex(users: seq<User>, db: Db, e: Email)
    requires IndexesAgree(db) && Represents(users, db.users)
    ensures ScanEmail(users, e) == if e in db.emails then Some(db.users[db.emails[e]]) else None
  {
    var found := ScanEmail(users, e);
    if found.Some? {
      FoundIsStored(users, found.value);
      assert IndexedEmail(db, found.value.id, e);
    }
    if e in db.emails { ByIdHolds(users, db.emails[e]); }
  }

  lemma ScanProviderFollowsIndex(users: seq<User>, db: Db, p: Provider)
    requires IndexesAgree(db) && Represents(users, db.users)
    ensures ScanProvider(users, p) == if p in db.owners then Some(db.users[db.owners[p]]) else None
  {
    var found := ScanProvider(users, p);
    if found.Some? {
      FoundIsStored(users, found.value);
      assert OwnedBy(db, found.value.id, p);
    }
    if p in db.owners { ByIdHolds(users, db.owners[p]); }
  }

  /** The command at which a call takes effect: the create script, the last read of a
      lookup, and whatever ends a link other than giving up on contention. */
  predicate TakesEffect(pc: Pc, pc': Pc) {
    match pc
    case Start(call) => call.Create? || pc'.Done?
    case GetUser(call, _, _) => !call.Create?
    case ReadTarget(_, _, _, _) => pc'.Done?
    case SwapTarget(_, _, _, _, _) => pc'.Done? && !(pc'.outcome.Failed? && pc'.outcome.failure.Contention?)
    case Done(_, _) => false
  }

  function CallOf(pc: Pc): Call {
    match pc
    case Start(call) => call
    case GetUser(call, _, _) => call
    case ReadTarget(id, p, _, _) => Link(id, p)
    case SwapTarget(id, p, _, _, _) => Link(id, p)
    case Done(call, _) => call
  }

  /** The Redis call answers what the memory adapter answers at that instant. */
  ghost predicate SameAnswer(pc': Pc, reply: Reply) {
    match reply
    case Lookup(user) => pc'.Done? && pc'.outcome == Found(user)
    case Creation(Created) => pc'.Done? && pc'.outcome.CreateResult? && pc'.outcome.reply.Created?
    case Creation(r) => pc'.GetUser? && pc'.reply == r
    case LinkAttempt(ok) => pc'.Done? && (pc'.outcome == LinkDone <==> ok)
  }

  /** The command from `pc` either takes effect exactly like the memory adapter's atomic
      call, with the same answer, or leaves the user records alone. */
  ghost predicate StepRefines(users: seq<User>, db: Db, pc: Pc) {
    var (db', pc') := Advance(db, pc);
    if TakesEffect(pc, pc') then
      var (users', reply) := MemoryStep(users, CallOf(pc));
      Represents(users', db'.users) && SameAnswer(pc', reply)
    else db'.users == db.users
  }

  lemma AdvanceRefinesMemory(users: seq<User>, db: Db, pc: Pc)
    requires IndexesAgree(db) && Knows(db, pc) && Represents(users, db.users)
    ensures StepRefines(users, db, pc)
  {
    match pc
    case Start(Create(e, p, id)) => CreateRefines(users, db, e, p, id);
    case Start(Link(id, p)) => TargetReadRefines(users, db, id, p, 0, 0);
    case ReadTarget(id, p, attempt, base) => TargetReadRefines(users, db, id, p, attempt, base);
    case SwapTarget(id, p, attempt, base, seen) => SwapRefines(users, db, id, p, attempt, base, seen);
    case Start(call) => LookupRefines(users, db, pc);
    case GetUser(call, _, _) => if !call.Create? { LookupRefines(users, db, pc); }
    case Done(_, _) =>
  }

  lemma CreateRefines(users: seq<User>, db: Db, e: Email, p: Provider, id: UserId)
    requires IndexesAgree(db) && id !in db.users && Represents(users, db.users)
    ensures StepRefines(users, db, Start(Create(e, p, id)))
  {
    ScansFollowIndexes(users, db, id, e, p);
    AppendRepresents(users, db.users, NewUser(id, e, p));
  }

  lemma LookupRefines(users: seq<User>, db: Db, pc: Pc)
    requires IndexesAgree(db) && Knows(db, pc) && Represents(users, db.users)
    requires pc.Start? || pc.GetUser?
    requires pc.call.FindById? || pc.call.FindByEmail? || pc.call.FindByProvider?
    ensures var (db', pc') := Advance(db, pc);
            db' == db && (pc'.Done? ==> pc'.outcome == Found(MemoryStep(users, pc.call).1.user))
  {
    match pc.call
    case FindById(id) => ScansFollowIndexes(users, db, id, "", Provider("", ""));
    case FindByEmail(e) =>
      ScansFollowIndexes(users, db, "", e, Provider("", ""));
      if pc.GetUser? { assert IndexedEmail(db, pc.target, e); }
    case FindByProvider(p) =>
      ScansFollowIndexes(users, db, "", "", p);
      if pc.GetUser? { assert OwnedBy(db, pc.target, p); }
  }

  lemma TargetReadRefines(users: seq<User>, db: Db, id: UserId, p: Provider, attempt: nat, base: nat)
    requires IndexesAgree(db) && Represents(users, db.users)
    ensures var pc' := AfterTargetRead(db, id, p, attempt, base);
            pc'.Done? ==> MemoryLink(users, id, p) == (users, LinkAttempt(false)) && pc'.outcome.Failed?
  {
    ScansFollowIndexes(users, db, id, "", p);
  }

  lemma SwapRefines(users: seq<User>, db: Db, id: UserId, p: Provider, attempt: nat, base: nat, seen: User)
    requires IndexesAgree(db) && Represents(users, db.users)
    requires Knows(db, SwapTarget(id, p, attempt, base, seen))
    ensures StepRefines(users, db, SwapTarget(id, p, attempt, base, seen))
  {
    var pc := SwapTarget(id, p, attempt, base, seen);
    var (db', reply) := LinkScript(db, id, p, seen.email, seen, WithProvider(seen, p));
    NoEmailConflict(db, pc);
    match reply
    case Linked =>
      LinkedRefines(users, db, id, p);
      LinkedStepRefines(users, db, pc);
    case ProviderConflict => RefusedRefines(users, db, id, p);
    case Stale =>
  }

  lemma LinkedStepRefines(users: seq<User>, db: Db, pc: Pc)
    requires pc.SwapTarget? && pc.id in db.users && db.users[pc.id] == pc.seen
    requires LinkScript(db, pc.id, pc.p, pc.seen.email, pc.seen, WithProvider(pc.seen, pc.p)).1 == Linked
    requires MemoryLink(users, pc.id, pc.p).1 == LinkAttempt(true)
    requires Represents(MemoryLink(users, pc.id, pc.p).0, db.users[pc.id := WithProvider(db.users[pc.id], pc.p)])
    ensures StepRefines(users, db, pc)
  {
  }

  lemma RefusedRefines(users: seq<User>, db: Db, id: UserId, p: Provider)
    requires IndexesAgree(db) && Represents(users, db.users)
    requires p in db.owners && db.owners[p] != id
    ensures MemoryLink(users, id, p) == (users, LinkAttempt(false))
  {
    ScanProviderFollowsIndex(users, db, p);
  }

  lemma NoEmailConflict(db: Db, pc: Pc)
    requires pc.SwapTarget? && IndexesAgree(db) && Knows(db, pc)
    ensures var (_, reply) := LinkScript(db, pc.id, pc.p, pc.seen.email, pc.seen, WithProvider(pc.seen, pc.p));
            reply != EmailConflict && reply != UserMissing
  {
  }

  lemma LinkedRefines(users: seq<User>, db: Db, id: UserId, p: Provider)
    requires IndexesAgree(db) && Represents(users, db.users) && id in db.users
    requires p in db.owners ==> db.owners[p] == id
    requires p in db.users[id].providers || |db.users[id].providers| < MAX_PROVIDERS
    ensures MemoryLink(users, id, p).1 == LinkAttempt(true)
    ensures Represents(MemoryLink(users, id, p).0, db.users[id := WithProvider(db.users[id], p)])
  {
    var current := db.users[id];
    ScansFollowIndexes(users, db, id, "", p);
    if p in current.providers {
      assert db.users[id := current] == db.users;
    } else {
      ReplaceRepresents(users, db.users, WithProvider(current, p));
    }
  }
}
