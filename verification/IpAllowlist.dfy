/** The IP allowlist: src/security/ipService.ts, with calls run one at a time.

    An entry is a member of one of two Redis sets and holds a marker key with a TTL; sets have no
    per-member expiry, so members outlive their markers until a lookup cleans them up.  Entries
    are normalized addresses or networks; parsing and the subnet test are parameters.  Times are
    in milliseconds. */
module IpAllowlist {
  import opened Options
  import opened Redis
  import opened Sequences

  const MAX_IP_EXPIRATION_SECONDS := 366 * 24 * 60 * 60
  const REDIS_ENTRY_BATCH_SIZE := 500

  type SubnetTest = (string, string) -> bool

  datatype Store = Store(now: nat, exact: set<string>, cidr: set<string>, markers: map<string, Entry<bool>>)

  const EMPTY_STORE := Store(0, {}, {}, map[])

  predicate IsCidr(entry: string) {
    '/' in entry
  }

  predicate ValidTtl(ttl: int) {
    0 < ttl <= MAX_IP_EXPIRATION_SECONDS
  }

  predicate Marked(s: Store, entry: string) {
    Live(s.markers, entry, s.now)
  }

  function Members(s: Store, networks: bool): set<string> {
    if networks then s.cidr else s.exact
  }

  function WithMembers(s: Store, networks: bool, members: set<string>): Store {
    if networks then s.(cidr := members) else s.(exact := members)
  }

  function Active(s: Store, networks: bool): set<string> {
    set e | e in Members(s, networks) && Marked(s, e)
  }

  // ----- each operation as a function of the store -----

  /** None stands for input that does not parse; it throws, as a bad TTL does. */
  function Add(s: Store, entry: Option<string>, ttl: int): Store {
    if entry.None? || !ValidTtl(ttl) then s
    else
      var e := entry.value;
      WithMembers(s, IsCidr(e), Members(s, IsCidr(e)) + {e}).(markers := Set(s.markers, e, true, s.now, ttl * 1000))
  }

  function Remove(s: Store, entry: Option<string>): Store {
    if entry.None? then s
    else
      var e := entry.value;
      WithMembers(s, IsCidr(e), Members(s, IsCidr(e)) - {e}).(markers := Del(s.markers, e))
  }

  function Lookup(s: Store, ip: Option<string>, inCidr: SubnetTest): (Store, bool) {
    if ip.None? then (s, false)
    else if ip.value in s.exact && Marked(s, ip.value) then (s, true)
    else
      (s.(exact := s.exact - {ip.value}, cidr := Active(s, true)), exists net | net in Active(s, true) :: inCidr(ip.value, net))
  }

  function List(s: Store): (Store, set<string>) {
    (s.(exact := Active(s, false), cidr := Active(s, true)), Active(s, false) + Active(s, true))
  }

  // ----- the module, command by command -----

  /** SMEMBERS lists a set in some order. */
  ghost predicate Enumerates(s: seq<string>, all: set<string>) {
    Distinct(s) && forall x :: x in s <==> x in all
  }

  /** The entries that have a marker, or those that have none, in order. */
  function Kept(s: Store, entries: seq<string>, marked: bool): (r: seq<string>)
    ensures forall x :: x in r <==> x in entries && Marked(s, x) == marked
    ensures Distinct(entries) ==> Distinct(r)
  {
    if entries == [] then []
    else
      var init, last := Kept(s, entries[..|entries| - 1], marked), entries[|entries| - 1];
      if Marked(s, last) == marked then init + [last] else init
  }

  lemma {:induction false} KeptOfConcat(s: Store, a: seq<string>, b: seq<string>, marked: bool)
    ensures Kept(s, a + b, marked) == Kept(s, a, marked) + Kept(s, b, marked)
  {
    hide Distinct, Marked;
    if b == [] {
      assert a + b == a;
    } else {
      var init, last := b[..|b| - 1], b[|b| - 1];
      KeptOfConcat(s, a, init, marked);
      assert (a + b)[..|a + b| - 1] == a + init;
    }
  }

  lemma DistinctConcat(a: seq<string>, b: seq<string>, from: set<string>, other: set<string>)
    requires Distinct(a) && Distinct(b) && from !! other
    requires (forall e <- a :: e in from) && forall e <- b :: e in other
    ensures Distinct(a + b)
  {
    forall i, j | 0 <= i < j < |a + b| ensures (a + b)[i] != (a + b)[j] {
      if i < |a| <= j {
        assert (a + b)[i] in from && (a + b)[j] in other;
      }
    }
  }

  class SecurityModule {
    const whiteListEnabled: bool
    const inCidr: SubnetTest
    var store: Store

    constructor (whiteListEnabled: bool, inCidr: SubnetTest)
      ensures this.whiteListEnabled == whiteListEnabled && this.inCidr == inCidr && store == EMPTY_STORE
    {
      this.whiteListEnabled, this.inCidr, store := whiteListEnabled, inCidr, EMPTY_STORE;
    }

    method SMembers(networks: bool) returns (entries: seq<string>)
      ensures Enumerates(entries, Members(store, networks))
    {
      entries := [];
      var rest := Members(store, networks);
      while rest != {}
        invariant rest <= Members(store, networks)
        invariant Enumerates(entries, Members(store, networks) - rest)
        decreases |rest|
      {
        var e :| e in rest;
        entries, rest := entries + [e], rest - {e};
      }
    }

    /** The members of one set that still have a marker, in order; the others leave the set.
        Markers are read and members removed 500 at a time. */
    method ActiveEntries(networks: bool, entries: seq<string>) returns (active: seq<string>)
      modifies this
      ensures active == Kept(old(store), entries, true)
      ensures store == WithMembers(old(store), networks,
                                   Members(old(store), networks) - (set e | e in Kept(old(store), entries, false)))
    {
      hide Distinct, Marked;
      active := [];
      var expired, offset := [], 0;
      while offset < |entries|
        invariant active == Kept(store, entries[..Min(offset, |entries|)], true)
        invariant expired == Kept(store, entries[..Min(offset, |entries|)], false)
        invariant store == old(store)
      {
        var next := Min(offset + REDIS_ENTRY_BATCH_SIZE, |entries|);
        var live, dead := ReadMarkers(entries[offset..next]);
        assert entries[..next] == entries[..offset] + entries[offset..next];
        KeptOfConcat(store, entries[..offset], entries[offset..next], true);
        KeptOfConcat(store, entries[..offset], entries[offset..next], false);
        active, expired := active + live, expired + dead;
        offset := offset + REDIS_ENTRY_BATCH_SIZE;
      }
      assert entries[..Min(offset, |entries|)] == entries;
      RemoveMembers(networks, expired);
    }

    method ReadMarkers(batch: seq<string>) returns (live: seq<string>, dead: seq<string>)
      ensures live == Kept(store, batch, true) && dead == Kept(store, batch, false)
    {
      live, dead := [], [];
      for index := 0 to |batch|
        invariant live == Kept(store, batch[..index], true) && dead == Kept(store, batch[..index], false)
      {
        assert batch[..index + 1][..index] == batch[..index];
        if Marked(store, batch[index]) { live := live + [batch[index]]; } else { dead := dead + [batch[index]]; }
      }
      assert batch[..|batch|] == batch;
    }

    method RemoveMembers(networks: bool, expired: seq<string>)
      modifies this
      ensures store == WithMembers(old(store), networks, Members(old(store), networks) - (set e | e in expired))
    {
      var s, offset := store, 0;
      while offset < |expired|
        invariant store == WithMembers(s, networks, Members(s, networks) - (set e | e in expired[..Min(offset, |expired|)]))
      {
        var next := Min(offset + REDIS_ENTRY_BATCH_SIZE, |expired|);
        assert expired[..next] == expired[..offset] + expired[offset..next];
        store := WithMembers(store, networks, Members(store, networks) - (set e | e in expired[offset..next]));
        offset := offset + REDIS_ENTRY_BATCH_SIZE;
      }
      assert expired[..Min(offset, |expired|)] == expired;
    }

    method IsAllowed(ip: Option<string>) returns (allowed: bool)
      modifies this
      ensures !whiteListEnabled ==> allowed && store == old(store)
      ensures whiteListEnabled ==> (store, allowed) == Lookup(old(store), ip, inCidr)
    {
      if !whiteListEnabled { return true; }
      if ip.None? { return false; }
      var address := ip.value;
      if address in store.exact {
        if Marked(store, address) { return true; }
        store := store.(exact := store.exact - {address});
      }
      ghost var s := old(store);
      var cidrs := SMembers(true);
      var active := ActiveEntries(true, cidrs);
      assert forall e :: e in active <==> e in Active(s, true);
      assert store.cidr == Active(s, true);
      assert store.exact == s.exact - {address};
      allowed := exists net | net in active :: inCidr(address, net);
    }

    method AddIP(entry: Option<string>, ttl: int) returns (ok: bool)
      modifies this
      ensures ok == (entry.Some? && ValidTtl(ttl))
      ensures store == Add(old(store), entry, ttl)
    {
      if entry.None? || !ValidTtl(ttl) { return false; }
      var e := entry.value;
      store := WithMembers(store, IsCidr(e), Members(store, IsCidr(e)) + {e});
      store := store.(markers := Set(store.markers, e, true, store.now, ttl * 1000));
      ok := true;
    }

    method RemoveIP(entry: Option<string>) returns (ok: bool)
      modifies this
      ensures ok == entry.Some? && store == Remove(old(store), entry)
    {
      if entry.None? { return false; }
      var e := entry.value;
      store := WithMembers(store, IsCidr(e), Members(store, IsCidr(e)) - {e});
      store := store.(markers := Del(store.markers, e));
      ok := true;
    }

    /** Addresses are plain ASCII, on which `sort()` compares character by character. */
    method ListIPs() returns (entries: seq<string>)
      modifies this
      ensures store == List(old(store)).0
      ensures Sorted(entries) && forall e :: e in entries <==> e in List(old(store)).1
      ensures old(store).exact !! old(store).cidr ==> Distinct(entries)
    {
      var s := store;
      var exact := SMembers(false);
      var cidr := SMembers(true);
      var activeExact := ActiveEntries(false, exact);
      assert store.exact == Active(s, false);
      var activeCidrs := ActiveEntries(true, cidr);
      assert store.cidr == Active(s, true);
      var all := activeExact + activeCidrs;
      entries := SortStrings(all);
      SameMembers(entries, all);
      if s.exact !! s.cidr { DistinctConcat(activeExact, activeCidrs, s.exact, s.cidr); }
    }
  }

  lemma SameMembers(a: seq<string>, b: seq<string>)
    requires multiset(a) == multiset(b)
    ensures (forall x :: x in a <==> x in b) && (Distinct(a) <==> Distinct(b))
  {
    forall x ensures x in a <==> x in b { assert x in multiset(a) <==> x in multiset(b); }
    DistinctIsOnce(a);
    DistinctIsOnce(b);
  }

  function Min(a: nat, b: nat): nat {
    if a < b then a else b
  }

  // ----- histories -----

  datatype Op =
    | AddOp(entry: Option<string>, ttl: int)
    | RemoveOp(entry: Option<string>)
    | LookupOp(ip: Option<string>)
    | ListOp
    | Wait(ms: nat)

  function Step(s: Store, op: Op, inCidr: SubnetTest): Store {
    match op
    case AddOp(entry, ttl) => Add(s, entry, ttl)
    case RemoveOp(entry) => Remove(s, entry)
    case LookupOp(ip) => Lookup(s, ip, inCidr).0
    case ListOp => List(s).0
    case Wait(ms) => s.(now := s.now + ms)
  }

  function Run(ops: seq<Op>, inCidr: SubnetTest): Store {
    if ops == [] then EMPTY_STORE else Step(Run(ops[..|ops| - 1], inCidr), ops[|ops| - 1], inCidr)
  }

  // ----- the plain map -----

  datatype Plain = Plain(now: nat, expiry: map<string, nat>)

  /** A TTL is at most 366 days.  Reading changes nothing here, and nothing is ever cleaned up. */
  function PlainStep(p: Plain, op: Op): Plain {
    match op
    case AddOp(Some(e), ttl) => if 0 < ttl <= 31_622_400 then p.(expiry := p.expiry[e := p.now + ttl * 1000]) else p
    case RemoveOp(Some(e)) => p.(expiry := p.expiry - {e})
    case Wait(ms) => p.(now := p.now + ms)
    case _ => p
  }

  function PlainRun(ops: seq<Op>): Plain {
    if ops == [] then Plain(0, map[]) else PlainStep(PlainRun(ops[..|ops| - 1]), ops[|ops| - 1])
  }

  predicate Permits(p: Plain, entry: string) {
    entry in p.expiry && p.now < p.expiry[entry]
  }

  /** Lazy cleanup never touches an entry that still counts. */
  ghost predicate Agrees(s: Store, p: Plain) {
    && s.now == p.now
    && (forall e <- s.exact :: '/' !in e) && (forall e <- s.cidr :: '/' in e)
    && (forall e <- s.markers :: Marked(s, e) ==> Permits(p, e) && s.markers[e].deadline == Some(p.expiry[e]))
    && (forall e <- p.expiry :: Permits(p, e) ==> Marked(s, e) && e in Members(s, IsCidr(e)))
  }

  lemma StepAgrees(s: Store, p: Plain, op: Op, inCidr: SubnetTest)
    requires Agrees(s, p)
    requires op.LookupOp? && op.ip.Some? ==> !IsCidr(op.ip.value)
    ensures Agrees(Step(s, op, inCidr), PlainStep(p, op))
  {
  }

  /** Addresses parse without a slash. */
  predicate ParsedAddresses(ops: seq<Op>) {
    forall op | op in ops && op.LookupOp? && op.ip.Some? :: '/' !in op.ip.value
  }

  lemma {:induction false} RunAgrees(ops: seq<Op>, inCidr: SubnetTest)
    requires ParsedAddresses(ops)
    ensures Agrees(Run(ops, inCidr), PlainRun(ops))
  {
    if ops != [] {
      var before := ops[..|ops| - 1];
      RunAgrees(before, inCidr);
      StepAgrees(Run(before, inCidr), PlainRun(before), ops[|ops| - 1], inCidr);
    }
  }

  /** After any history a lookup answers as the plain map does, and the listing is its live
      entries.  Input that does not parse is refused and cleans up nothing. */
  lemma AnswersAgree(ops: seq<Op>, inCidr: SubnetTest, ip: Option<string>)
    requires ParsedAddresses(ops) && (ip.Some? ==> '/' !in ip.value)
    ensures var s, p := Run(ops, inCidr), PlainRun(ops);
            && (Lookup(s, ip, inCidr).1 <==>
                  ip.Some? && (Permits(p, ip.value)
                               || exists net | net in p.expiry && '/' in net :: Permits(p, net) && inCidr(ip.value, net)))
            && (ip.None? ==> Lookup(s, ip, inCidr).0 == s)
            && List(s).1 == set e | e in p.expiry && Permits(p, e)
  {
    RunAgrees(ops, inCidr);
    var s, p := Run(ops, inCidr), PlainRun(ops);
    forall e ensures e in List(s).1 <==> e in p.expiry && Permits(p, e) {}
    if ip.Some? {
      if net :| net in p.expiry && '/' in net && Permits(p, net) && inCidr(ip.value, net) {
        assert net in Active(s, true);
      }
    }
  }

  /** The listing is a function of the live entries: whatever order the sets are read in, it
      comes out the same. */
  lemma ListingIsUnique(s: Store, a: seq<string>, b: seq<string>)
    requires Enumerates(a, List(s).1) && Enumerates(b, List(s).1) && Sorted(a) && Sorted(b)
    ensures a == b
  {
    SortedListingsAreEqual(a, b);
  }

  /** A cleanup that read the markers on `s`, while `entry` was added before its removals. */
  function CleanedAfterAdd(s: Store, networks: bool, entries: seq<string>, entry: string, ttl: int): Store {
    var added := Add(s, Some(entry), ttl);
    WithMembers(added, networks, Members(added, networks) - (set e | e in Kept(s, entries, false)))
  }

  /** Calls that are not one at a time: an entry added between the marker reads and the removals
      of a cleanup survives exactly when it was not a member whose marker had already gone.  The
      cleanup of the networks and that of the exact entries are alike. */
  lemma AddDuringCleanup(s: Store, p: Plain, networks: bool, entries: seq<string>, entry: string, ttl: int)
    requires Agrees(s, p) && Enumerates(entries, Members(s, networks)) && ValidTtl(ttl)
    ensures Agrees(CleanedAfterAdd(s, networks, entries, entry, ttl), PlainStep(p, AddOp(Some(entry), ttl)))
            <==> !(IsCidr(entry) == networks && entry in Members(s, networks) && !Marked(s, entry))
  {
    var after, q := CleanedAfterAdd(s, networks, entries, entry, ttl), PlainStep(p, AddOp(Some(entry), ttl));
    assert Permits(q, entry) && Marked(after, entry);
    assert entry in Members(after, IsCidr(entry))
           <==> !(IsCidr(entry) == networks && entry in Members(s, networks) && !Marked(s, entry));
    if entry in Members(after, IsCidr(entry)) { SurvivorsAgree(s, p, networks, entries, entry, ttl); }
  }

  lemma SurvivorsAgree(s: Store, p: Plain, networks: bool, entries: seq<string>, entry: string, ttl: int)
    requires Agrees(s, p) && Enumerates(entries, Members(s, networks)) && ValidTtl(ttl)
    requires entry in Members(CleanedAfterAdd(s, networks, entries, entry, ttl), IsCidr(entry))
    ensures Agrees(CleanedAfterAdd(s, networks, entries, entry, ttl), PlainStep(p, AddOp(Some(entry), ttl)))
  {
    StepAgrees(s, p, AddOp(Some(entry), ttl), (a, b) => false);
  }

  /** A history that meets the condition: a network whose marker has gone is added again during
      the cleanup of a lookup, and the next lookup does not know it. */
  lemma CleanupLosesConcurrentAdd(net: string, ip: string, inCidr: SubnetTest)
    requires IsCidr(net) && !IsCidr(ip) && inCidr(ip, net)
    ensures var history := [AddOp(Some(net), 1), Wait(1000)];
            var s := Run(history, inCidr);
            var cleaned := CleanedAfterAdd(s, true, [net], net, 60);
            && Enumerates([net], Members(s, true))
            && Permits(PlainRun(history + [AddOp(Some(net), 60)]), net)
            && !Lookup(cleaned, Some(ip), inCidr).1
  {
    var first, history := [AddOp(Some(net), 1)], [AddOp(Some(net), 1), Wait(1000)];
    assert first[..0] == [] && history[..1] == first && (history + [AddOp(Some(net), 60)])[..2] == history;
    assert Run(first, inCidr) == Step(Run([], inCidr), first[0], inCidr);
    assert PlainRun(first) == PlainStep(PlainRun([]), first[0]);
  }
}
