/** The methods of src/oauth/adapters/redisAdapter.ts as they run: the Lua transactions
    write key by key, `linkProvider` retries in a loop, and between two commands of a call
    the store moves on in any way the other clients can move it. */
module IdentityRedis {
  import opened Options
  import opened IdentityStore

  class RedisIdentityAdapter {
    var db: Db

    constructor ()
      ensures db == EMPTY_DB && IndexesAgree(db)
    {
      db := EMPTY_DB;
    }

    method EvalCreateUser(id: UserId, email: Email, p: Provider) returns (reply: CreateReply)
      modifies this
      ensures (db, reply) == CreateScript(old(db), id, email, p)
    {
      if p in db.owners { return ExistingProvider(db.owners[p]); }
      if email in db.emails { return ExistingEmail(db.emails[email]); }
      db := db.(users := db.users[id := NewUser(id, email, p)]);
      db := db.(emails := db.emails[email := id]);
      db := db.(owners := db.owners[p := id]);
      reply := Created;
    }

    method EvalLinkProvider(id: UserId, p: Provider, email: Email, expected: User, updated: User)
      returns (reply: LinkReply)
      modifies this
      ensures (db, reply) == LinkScript(old(db), id, p, email, expected, updated)
    {
      if p in db.owners && db.owners[p] != id { return ProviderConflict; }
      if email in db.emails && db.emails[email] != id { return EmailConflict; }
      if id !in db.users { return UserMissing; }
      if db.users[id] != expected { return Stale; }
      db := db.(users := db.users[id := updated]);
      db := db.(emails := db.emails[email := id]);
      db := db.(owners := db.owners[p := id]);
      reply := Linked;
    }

    /** `meanwhile` is the store as the call's second command finds it. */
    method CreateUser(id: UserId, email: Email, p: Provider, meanwhile: Db) returns (outcome: Outcome)
      modifies this
      ensures (db, outcome) == CreateRun(old(db), Create(email, p, id), meanwhile)
    {
      var reply := EvalCreateUser(id, email, p);
      if reply.Created? { return CreateResult(reply, NewUser(id, email, p)); }
      var target := if reply.ExistingProvider? then reply.owner else reply.holder;
      db := meanwhile;
      outcome := Resolve(db, Create(email, p, id), target, reply);
    }

    /** The compare-and-set loop.  `others[k]` is the store as attempt k's transaction finds it. */
    method LinkProvider(id: UserId, p: Provider, others: seq<Db>) returns (outcome: Outcome)
      requires |others| == MAX_LINK_CAS_ATTEMPTS
      modifies this
      ensures (db, outcome) == LinkRun(old(db), Start(Link(id, p)), others)
    {
      var pc := Start(Link(id, p));
      var base: nat := 0;
      for attempt := 0 to MAX_LINK_CAS_ATTEMPTS
        invariant pc == if attempt == 0 then Start(Link(id, p)) else ReadTarget(id, p, attempt, base)
        invariant LinkRun(db, pc, others[attempt..]) == LinkRun(old(db), Start(Link(id, p)), others)
      {
        var read := AfterTargetRead(db, id, p, attempt, base);
        if read.Done? { return read.outcome; }
        db := others[attempt];
        var reply := EvalLinkProvider(id, p, read.seen.email, read.seen, WithProvider(read.seen, p));
        pc, base := AfterSwap(read, reply), read.base;
        if pc.Done? { return pc.outcome; }
        assert others[attempt..][1..] == others[attempt + 1..];
      }
      outcome := Failed(Contention(base));
    }
  }

  /** A creation whose second command finds the store at `meanwhile`. */
  function CreateRun(db: Db, call: Call, meanwhile: Db): (Db, Outcome)
    requires call.Create?
  {
    var (db', pc) := BeginCall(db, call);
    if pc.Done? then (db', pc.outcome) else (meanwhile, Resolve(meanwhile, call, pc.target, pc.reply))
  }

  /** The rounds of one link: read here, then the transaction on the store the others left. */
  function LinkRun(db: Db, pc: Pc, others: seq<Db>): (Db, Outcome)
    requires (pc.Start? && pc.call.Link?) || pc.ReadTarget?
    decreases |others|
  {
    if others == [] then (db, Failed(Contention(if pc.ReadTarget? then pc.base else 0)))
    else
      var read := Advance(db, pc).1;
      if read.Done? then (db, read.outcome)
      else
        var (db', after) := Advance(others[0], read);
        if after.Done? then (db', after.outcome) else LinkRun(db', after, others[1..])
  }

  /** Each store in the list is one that the other clients can reach from the one before. */
  ghost predicate Interference(db: Db, others: seq<Db>)
    decreases |others|
  {
    others == [] || (IndexesAgree(others[0]) && Extends(db, others[0]) && Interference(others[0], others[1..]))
  }

  /** `db'` is `db` with provider p appended to the current record of `id`. */
  ghost predicate LinkedOnTop(db: Db, db': Db, id: UserId, p: Provider) {
    id in db.users && db' == Write(db, id, WithProvider(db.users[id], p), p)
  }

  /** `createUser` against any interference: it creates on its own store, or reports the
      holder of the provider or email with that user's current record. */
  lemma CreateRunMeans(db: Db, call: Call, meanwhile: Db)
    requires call.Create? && IndexesAgree(db) && call.freshId !in db.users
    requires IndexesAgree(meanwhile) && Extends(CreateScript(db, call.freshId, call.email, call.p).0, meanwhile)
    ensures var (db', outcome) := CreateRun(db, call, meanwhile);
            && outcome.CreateResult? && outcome.reply == CreateScript(db, call.freshId, call.email, call.p).1
            && IndexesAgree(db') && Extends(db, db') && Settled(db', call, outcome)
            && outcome.subject == db'.users[outcome.subject.id]
  {
    hide IndexesAgree, Extends;
    var (db', pc) := BeginCall(db, call);
    BeginKeeps(db, call);
    if !pc.Done? {
      KnowsStable(db, meanwhile, pc);
      ResolveSettles(meanwhile, call, pc.target, pc.reply);
    }
  }

  /** How a link that began on `db` may end: on top of exactly what the others left, or
      refused with nothing changed. */
  ghost predicate LinkEnds(db: Db, call: Call, others: seq<Db>, db': Db, outcome: Outcome)
    requires call.Link?
  {
    && IndexesAgree(db') && Extends(db, db') && Settled(db', call, outcome)
    && (if outcome == LinkDone then exists x <- others :: LinkedOnTop(x, db', call.id, call.p)
        else db' == db || db' in others)
  }

  /** `linkProvider` against any interference links on top of exactly what the others left,
      or refuses and changes nothing. */
  lemma {:induction false} LinkRunMeans(db: Db, pc: Pc, others: seq<Db>)
    requires if pc.Start? then pc.call.Link? && |others| == MAX_LINK_CAS_ATTEMPTS
             else pc.ReadTarget? && pc.attempt + |others| == MAX_LINK_CAS_ATTEMPTS
    requires IndexesAgree(db) && Knows(db, pc) && Interference(db, others)
    ensures var (db', outcome) := LinkRun(db, pc, others); LinkEnds(db, LinkOf(pc), others, db', outcome)
    decreases |others|
  {
    hide IndexesAgree, Extends, Settled, LinkScript;
    AdvanceKeeps(db, pc);
    var read := Advance(db, pc).1;
    if read.SwapTarget? {
      var next := others[0];
      KnowsStable(db, next, read);
      SwapOutcome(next, read);
      var (db', after) := Advance(next, read);
      if after.Done? {
        SwapEnds(db, others, read);
      } else {
        LinkRunMeans(db', after, others[1..]);
        var (last, outcome) := LinkRun(db', after, others[1..]);
        LaterEnds(db, LinkOf(pc), others, last, outcome);
      }
    }
  }

  /** The number a contention error carries is the length of the list at the first read. */
  lemma {:induction false} ContentionBase(db: Db, pc: Pc, others: seq<Db>)
    requires (pc.Start? && pc.call.Link? && others != []) || (pc.ReadTarget? && pc.attempt > 0)
    ensures match LinkRun(db, pc, others).1
            case Failed(Contention(base)) =>
              if pc.ReadTarget? then base == pc.base
              else pc.call.id in db.users && base == |db.users[pc.call.id].providers|
            case _ => true
    decreases |others|
  {
    if others != [] {
      var read := Advance(db, pc).1;
      if read.SwapTarget? {
        var (db', after) := Advance(others[0], read);
        if after.ReadTarget? { ContentionBase(db', after, others[1..]); }
      }
    }
  }

  /** `linkProvider` gives up only when five other links of the account were committed between
      its first read and its last transaction. */
  lemma ContentionMeansFiveLinks(db: Db, id: UserId, p: Provider, others: seq<Db>)
    requires IndexesAgree(db) && Interference(db, others) && |others| == MAX_LINK_CAS_ATTEMPTS
    ensures var (db', outcome) := LinkRun(db, Start(Link(id, p)), others);
            outcome.Failed? && outcome.failure.Contention? ==>
              && id in db.users && id in db'.users
              && |db.users[id].providers| + 5 <= |db'.users[id].providers|
  {
    hide LinkRun, Extends, IndexesAgree, Interference;
    LinkRunMeans(db, Start(Link(id, p)), others);
    ContentionBase(db, Start(Link(id, p)), others);
  }

  function LinkOf(pc: Pc): Call
    requires (pc.Start? && pc.call.Link?) || pc.ReadTarget?
  {
    if pc.Start? then pc.call else Link(pc.id, pc.p)
  }

  lemma SwapEnds(db: Db, others: seq<Db>, read: Pc)
    requires others != [] && Extends(db, others[0])
    requires read.SwapTarget? && IndexesAgree(others[0]) && Knows(others[0], read)
    requires Advance(others[0], read).1.Done?
    ensures var (db', after) := Advance(others[0], read);
            LinkEnds(db, Link(read.id, read.p), others, db', after.outcome)
  {
    SwapOutcome(others[0], read);
    ExtendsTransitive(db, others[0], Advance(others[0], read).0);
  }

  lemma LaterEnds(db: Db, call: Call, others: seq<Db>, last: Db, outcome: Outcome)
    requires call.Link? && others != [] && Extends(db, others[0])
    requires LinkEnds(others[0], call, others[1..], last, outcome)
    ensures LinkEnds(db, call, others, last, outcome)
  {
    ExtendsTransitive(db, others[0], last);
    assert forall x <- others[1..] :: x in others;
    if outcome == LinkDone {
      var x :| x in others[1..] && LinkedOnTop(x, last, call.id, call.p);
      assert x in others;
    }
  }

  lemma SwapOutcome(db: Db, pc: Pc)
    requires pc.SwapTarget? && IndexesAgree(db) && Knows(db, pc)
    ensures var (db', reply) := LinkScript(db, pc.id, pc.p, pc.seen.email, pc.seen, WithProvider(pc.seen, pc.p));
            && (db', AfterSwap(pc, reply)) == Advance(db, pc)
            && IndexesAgree(db') && Extends(db, db') && Knows(db', AfterSwap(pc, reply))
            && (reply == Linked ==> LinkedOnTop(db, db', pc.id, pc.p))
            && (reply != Linked ==> db' == db)
  {
    AdvanceKeeps(db, pc);
  }
}
