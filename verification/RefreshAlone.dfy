/** What one refresh, one issue and one revocation do when no other client runs, read off the
    command machine of module RefreshRotation: the whole effect on keys and locks, and the
    answer, for every store and every combination of throwing services. */
module RefreshAlone {
  import opened Options
  import opened Redis
  import opened RefreshTokens
  import opened RefreshRotation

  /** Which service calls throw. */
  datatype Throws = Throws(signRefresh: bool, signAccess: bool, auditRotation: bool, track: bool, auditIssue: bool)

  function FailsAt(x: Throws, pc: Pc): bool {
    match pc
    case SignRefresh(_, _, _) => x.signRefresh
    case SignAccess(_, _, _) => x.signAccess
    case AuditRotation(_, _, _) => x.auditRotation
    case Track(_) => x.track
    case AuditIssue(_) => x.auditIssue
    case _ => false
  }

  /** The next n commands of client c. */
  function Go(s: System, c: nat, pc: Pc, x: Throws, n: nat): (System, Pc)
    decreases n
  {
    if n == 0 then (s, pc)
    else
      var (s', pc') := StepPc(s, c, pc, FailsAt(x, pc));
      Go(s', c, pc', x, n - 1)
  }

  /** The steps of the machine, one by one. */
  function Steps(s: System, c: nat, x: Throws, n: nat): (events: seq<Event>)
    requires c in s.clients
    decreases n
  {
    if n == 0 then []
    else
      var e := Step(c, FailsAt(x, s.clients[c]));
      [e] + Steps(Apply(s, e), c, x, n - 1)
  }

  lemma RefreshIgnoresClients(s: System, clients: map<nat, Pc>, c: nat, pc: Pc, fails: bool)
    ensures StepRefresh(s.(clients := clients), c, pc, fails)
            == (StepRefresh(s, c, pc, fails).0.(clients := clients), StepRefresh(s, c, pc, fails).1)
  {
  }

  lemma OtherIgnoresClients(s: System, clients: map<nat, Pc>, pc: Pc, fails: bool)
    ensures StepOther(s.(clients := clients), pc, fails)
            == (StepOther(s, pc, fails).0.(clients := clients), StepOther(s, pc, fails).1)
  {
  }

  lemma StepIgnoresClients(s: System, clients: map<nat, Pc>, c: nat, pc: Pc, fails: bool)
    ensures StepPc(s.(clients := clients), c, pc, fails)
            == (StepPc(s, c, pc, fails).0.(clients := clients), StepPc(s, c, pc, fails).1)
  {
    hide StepRefresh, StepOther;
    RefreshIgnoresClients(s, clients, c, pc, fails);
    OtherIgnoresClients(s, clients, pc, fails);
  }

  lemma {:induction false} GoIgnoresClients(s: System, clients: map<nat, Pc>, c: nat, pc: Pc, x: Throws, n: nat)
    ensures Go(s.(clients := clients), c, pc, x, n) == (Go(s, c, pc, x, n).0.(clients := clients), Go(s, c, pc, x, n).1)
    decreases n
  {
    hide StepPc;
    if n > 0 {
      StepIgnoresClients(s, clients, c, pc, FailsAt(x, pc));
      var (s', pc') := StepPc(s, c, pc, FailsAt(x, pc));
      GoIgnoresClients(s', clients, c, pc', x, n - 1);
    }
  }

  /** `Go` is what the machine does when only this client's steps are scheduled. */
  lemma {:induction false} GoIsRun(s: System, c: nat, x: Throws, n: nat)
    requires c in s.clients
    ensures var (s', pc') := Go(s, c, s.clients[c], x, n);
            Run(s, Steps(s, c, x, n)) == s'.(clients := s.clients[c := pc'])
    decreases n
  {
    hide StepPc, Run;
    if n == 0 {
      RunNone(s);
      assert s.clients[c := s.clients[c]] == s.clients;
    } else {
      var e := Step(c, FailsAt(x, s.clients[c]));
      var (s', pc') := StepPc(s, c, s.clients[c], FailsAt(x, s.clients[c]));
      StepIgnoresClients(s, s.clients, c, s.clients[c], FailsAt(x, s.clients[c]));
      var next := Apply(s, e);
      GoIsRun(next, c, x, n - 1);
      GoIgnoresClients(s', s.clients[c := pc'], c, pc', x, n - 1);
      RunSplits(s, [e], Steps(next, c, x, n - 1));
      RunOne(s, e);
      assert s.clients[c := pc'][c := Go(s', c, pc', x, n - 1).1] == s.clients[c := Go(s', c, pc', x, n - 1).1];
    }
  }

  lemma RunNone(s: System)
    ensures Run(s, []) == s
  {
  }

  /** Commands after the answer do nothing. */
  lemma {:induction false} DoneStays(s: System, c: nat, pc: Pc, x: Throws, n: nat)
    requires pc.Done?
    ensures Go(s, c, pc, x, n) == (s, pc)
    decreases n
  {
    if n > 0 { DoneStays(s, c, pc, x, n - 1); }
  }

  /** A family is dropped and its lock released. */
  lemma DropGoes(s: System, c: nat, t: Token, lock: nat, x: Throws, n: nat)
    requires n >= 4
    ensures Go(s, c, DropKey(t, lock), x, n)
            == (s.(keys := s.keys - {t.family}, locks := DelIfOwner(s.locks, t.family, lock, s.now)), Done(Some(t), Threw))
  {
    hide Go;
    var s1 := s.(keys := s.keys - {t.family});
    GoStep(s, c, DropKey(t, lock), x, n);
    GoStep(s1, c, DropIndex(t, lock), x, n - 1);
    GoStep(s1, c, DropSession(t, lock), x, n - 2);
    ReleaseGoes(s1, c, t, lock, Threw, x, n - 3);
  }

  lemma ReleaseGoes(s: System, c: nat, t: Token, lock: nat, outcome: Outcome, x: Throws, n: nat)
    requires n >= 1
    ensures Go(s, c, Release(t, lock, outcome), x, n)
            == (s.(locks := DelIfOwner(s.locks, t.family, lock, s.now)), Done(Some(t), outcome))
  {
    hide Go;
    GoStep(s, c, Release(t, lock, outcome), x, n);
    DoneStays(s.(locks := DelIfOwner(s.locks, t.family, lock, s.now)), c, Done(Some(t), outcome), x, n - 1);
  }

  lemma GoStep(s: System, c: nat, pc: Pc, x: Throws, n: nat)
    requires n > 0
    ensures var (s', pc') := StepPc(s, c, pc, FailsAt(x, pc));
            Go(s, c, pc, x, n) == Go(s', c, pc', x, n - 1)
  {
  }

  /** From the access signer on: a pair, or a dropped family. */
  lemma SignerGoes(s: System, c: nat, t: Token, lock: nat, minted: Token, x: Throws, n: nat)
    requires n >= 6
    ensures var (s', pc') := Go(s, c, SignAccess(t, lock, minted), x, n);
            && s'.locks == DelIfOwner(s.locks, t.family, lock, s.now)
            && s'.keys == (if x.signAccess || x.auditRotation then s.keys - {t.family} else s.keys)
            && pc' == Done(Some(t), if x.signAccess || x.auditRotation then Threw else Refreshed(minted))
            && s'.now == s.now && s'.exchanges == s.exchanges && s'.quarantined == s.quarantined
  {
    hide Go;
    GoStep(s, c, SignAccess(t, lock, minted), x, n);
    if x.signAccess {
      DropGoes(s, c, t, lock, x, n - 1);
    } else {
      GoStep(s, c, AuditRotation(t, lock, minted), x, n - 1);
      if x.auditRotation {
        DropGoes(s, c, t, lock, x, n - 2);
      } else {
        ReleaseGoes(s, c, t, lock, Refreshed(minted), x, n - 2);
      }
    }
  }

  /** The stored token matches the presented one. */
  predicate Accepts(s: System, t: Token) {
    t.family in s.keys && (s.keys[t.family].deadline.None? || s.now < s.keys[t.family].deadline.value)
    && s.keys[t.family].value.token == t
  }

  /** Inside the lock. */
  lemma LockedGoes(s: System, c: nat, t: Token, lock: nat, x: Throws, n: nat)
    requires n >= 9
    ensures var (s', pc') := Go(s, c, ReadKey(t, lock), x, n);
            && s'.locks == DelIfOwner(s.locks, t.family, lock, s.now)
            && s'.now == s.now && s'.quarantined == s.quarantined
            && if !Accepts(s, t) then
                 s'.keys == s.keys - {t.family} && s'.exchanges == s.exchanges && pc' == Done(Some(t), Threw)
               else if !s.rotate then
                 && s'.keys == (if x.signAccess || x.auditRotation then s.keys - {t.family} else s.keys)
                 && s'.exchanges == s.exchanges
                 && pc' == Done(Some(t), if x.signAccess || x.auditRotation then Threw else Refreshed(t))
               else if x.signRefresh then
                 s'.keys == s.keys && s'.exchanges == s.exchanges && pc' == Done(Some(t), Threw)
               else
                 var minted := Token(s.next, t.family);
                 && s'.keys == (if x.signAccess || x.auditRotation then s.keys - {t.family}
                                else s.keys[t.family := Entry(Fingerprint(minted), Deadline(s.now, s.ttl))])
                 && s'.exchanges == s.exchanges + [Exchange(c, t, minted)]
                 && pc' == Done(Some(t), if x.signAccess || x.auditRotation then Threw else Refreshed(minted))
  {
    hide Go, StepOther, DelIfOwner, Deadline;
    GoStep(s, c, ReadKey(t, lock), x, n);
    if !Accepts(s, t) {
      GoStep(s, c, ReportReplay(t, lock), x, n - 1);
      DropGoes(s, c, t, lock, x, n - 2);
    } else if !s.rotate {
      SignerGoes(s, c, t, lock, t, x, n - 1);
    } else {
      var seen := s.keys[t.family].value;
      GoStep(s, c, SignRefresh(t, lock, seen), x, n - 1);
      if x.signRefresh {
        ReleaseGoes(s, c, t, lock, Threw, x, n - 2);
      } else {
        var minted, s1 := Token(s.next, t.family), s.(next := s.next + 1);
        GoStep(s1, c, SwapKey(t, lock, seen, minted), x, n - 2);
        var s2 := s1.(keys := Set(s1.keys, t.family, Fingerprint(minted), s1.now, s1.ttl),
                      exchanges := s1.exchanges + [Exchange(c, t, minted)]);
        SignerGoes(s2, c, t, lock, minted, x, n - 3);
        assert s2.keys - {t.family} == s.keys - {t.family};
      }
    }
  }

  lemma OpeningSteps(s: System, c: nat, t: Token)
    ensures StepPc(s, c, CheckQuarantine(t), false)
            == (s, if t.family in s.quarantined then Done(Some(t), Threw) else Acquire(t))
    ensures var (locks', ok) := SetIfAbsent(s.locks, t.family, s.next, s.now, REFRESH_LOCK_TTL_MS);
            StepPc(s, c, Acquire(t), false)
            == (s.(locks := locks', next := s.next + 1), if ok then ReadKey(t, s.next) else ReportBusy(t))
    ensures StepPc(s, c, ReportBusy(t), false) == (s, Done(Some(t), Threw))
  {
    hide StepOther, SetIfAbsent;
  }

  /** A whole refresh.  Exactly when it is refused with nothing changed, when it ends the family,
      when it returns a pair and which; its lock is gone in every case. */
  lemma RefreshAloneIs(s: System, c: nat, t: Token, x: Throws)
    ensures var (s', pc') := Go(s, c, CheckQuarantine(t), x, 11);
            var broken := x.signAccess || x.auditRotation;
            && s'.now == s.now && s'.quarantined == s.quarantined
            && (if t.family in s.quarantined || Live(s.locks, t.family, s.now) then
                  s'.keys == s.keys && s'.locks == s.locks && pc' == Done(Some(t), Threw)
                else
                  && !Live(s'.locks, t.family, s'.now)
                  && (forall f | f != t.family :: f in s'.locks <==> f in s.locks)
                  && (forall f <- s.locks | f != t.family :: s'.locks[f] == s.locks[f])
                  && if !Accepts(s, t) then s'.keys == s.keys - {t.family} && pc' == Done(Some(t), Threw)
                     else if s.rotate && x.signRefresh then s'.keys == s.keys && pc' == Done(Some(t), Threw)
                     else if broken then s'.keys == s.keys - {t.family} && pc' == Done(Some(t), Threw)
                     else if !s.rotate then s'.keys == s.keys && pc' == Done(Some(t), Refreshed(t))
                     else
                       var minted := Token(s.next + 1, t.family);
                       && s'.keys == s.keys[t.family := Entry(Fingerprint(minted),
                                                              if s.ttl == 0 then None else Some(s.now + s.ttl))]
                       && pc' == Done(Some(t), Refreshed(minted)))
  {
    hide Go, StepPc;
    OpeningSteps(s, c, t);
    GoStep(s, c, CheckQuarantine(t), x, 11);
    if t.family in s.quarantined {
      DoneStays(s, c, Done(Some(t), Threw), x, 10);
    } else {
      GoStep(s, c, Acquire(t), x, 10);
      var (locks', ok) := SetIfAbsent(s.locks, t.family, s.next, s.now, REFRESH_LOCK_TTL_MS);
      var s1 := s.(locks := locks', next := s.next + 1);
      if ok {
        LockedGoes(s1, c, t, s.next, x, 9);
      } else {
        OpeningSteps(s1, c, t);
        GoStep(s1, c, ReportBusy(t), x, 9);
        DoneStays(s1, c, Done(Some(t), Threw), x, 8);
      }
    }
  }

  /** A whole issue: the new token is stored for its TTL, or its key is gone again. */
  lemma IssueAloneIs(s: System, c: nat, minted: Token, x: Throws)
    ensures var (s', pc') := Go(s, c, StoreKey(minted), x, 6);
            && s'.locks == s.locks && s'.exchanges == s.exchanges
            && if x.track || x.auditIssue then s'.keys == s.keys - {minted.family} && pc' == Done(None, Threw)
               else
                 && s'.keys == s.keys[minted.family := Entry(Fingerprint(minted),
                                                             if s.ttl == 0 then None else Some(s.now + s.ttl))]
                 && pc' == Done(None, Issued(minted))
  {
    hide Go, StepRefresh;
    var f := minted.family;
    GoStep(s, c, StoreKey(minted), x, 6);
    var s1 := s.(keys := Set(s.keys, f, Fingerprint(minted), s.now, s.ttl));
    assert s1.keys - {f} == s.keys - {f};
    StoredGoes(s1, c, minted, x);
  }

  /** An issue from its index entry on. */
  lemma StoredGoes(s: System, c: nat, minted: Token, x: Throws)
    ensures Go(s, c, Track(minted), x, 5)
            == if x.track || x.auditIssue then (s.(keys := s.keys - {minted.family}), Done(None, Threw))
               else (s, Done(None, Issued(minted)))
  {
    hide Go, StepRefresh;
    var f := minted.family;
    GoStep(s, c, Track(minted), x, 5);
    if x.track {
      GoStep(s, c, UndoStore(minted), x, 4);
      DoneStays(s.(keys := s.keys - {f}), c, Done(None, Threw), x, 3);
    } else {
      GoStep(s, c, AuditIssue(minted), x, 4);
      if x.auditIssue { RevocationAloneIs(s, c, f, Threw, x, 3); } else { DoneStays(s, c, Done(None, Issued(minted)), x, 3); }
    }
  }

  /** A whole revocation: the key of this family goes, and nothing else. */
  lemma RevocationAloneIs(s: System, c: nat, f: Family, outcome: Outcome, x: Throws, n: nat)
    requires n >= 3
    ensures Go(s, c, RevokeKey(f, outcome), x, n) == (s.(keys := s.keys - {f}), Done(None, outcome))
  {
    hide Go;
    var s1 := s.(keys := s.keys - {f});
    GoStep(s, c, RevokeKey(f, outcome), x, n);
    GoStep(s1, c, RevokeIndex(f, outcome), x, n - 1);
    GoStep(s1, c, RevokeSession(f, outcome), x, n - 2);
    DoneStays(s1, c, Done(None, outcome), x, n - 3);
  }
}
