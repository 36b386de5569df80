/** What a history of reports, quarantines, releases and waiting leaves behind. */
module RiskHistories {
  import opened Options
  import opened Redis
  import opened Sequences
  import opened SessionRisk

  datatype Op =
    | Signalled(signal: Signal, fingerprint: Option<string>)
    | Quarantine(reasons: seq<Signal>)
    | Released
    | Wait(ms: nat)

  /** Quarantine refuses an empty list of reasons and changes nothing. */
  function Step(cfg: ValidConfig, s: Store, op: Op): Store {
    match op
    case Signalled(signal, fp) => Report(cfg, s, signal, fp).0
    case Quarantine(reasons) => if reasons == [] then s else PutQuarantine(cfg, s, reasons).0
    case Released => Release(s)
    case Wait(ms) => s.(now := s.now + ms)
  }

  function Run(cfg: ValidConfig, ops: seq<Op>): Store {
    if ops == [] then EMPTY_STORE else Step(cfg, Run(cfg, ops[..|ops| - 1]), ops[|ops| - 1])
  }

  function TimeAt(cfg: ValidConfig, ops: seq<Op>, k: nat): nat
    requires k <= |ops|
  {
    Run(cfg, ops[..k]).now
  }

  /** Report k got past the configuration and its fingerprint. */
  predicate CountedAt(cfg: ValidConfig, ops: seq<Op>, k: nat, signal: Signal)
    requires k < |ops|
  {
    ops[k].Signalled? && ops[k].signal == signal && Counts(cfg, Run(cfg, ops[..k]), signal, ops[k].fingerprint)
  }

  /** Event k puts the principal into quarantine: an explicit call, or a counted report that
      brings its counter to the threshold. */
  predicate TriggersAt(cfg: ValidConfig, ops: seq<Op>, k: nat)
    requires k < |ops|
  {
    match ops[k]
    case Quarantine(reasons) => reasons != []
    case Signalled(signal, _) =>
      && CountedAt(cfg, ops, k, signal)
      && ThresholdFor(cfg, signal).Some? && CountOf(Run(cfg, ops[..k]), signal) + 1 >= ThresholdFor(cfg, signal).value
    case _ => false
  }

  predicate ReleasedSince(ops: seq<Op>, k: nat) {
    exists j | k <= j < |ops| :: ops[j].Released?
  }

  /** Event k quarantined the principal and nothing released it since. */
  ghost predicate Holds(cfg: ValidConfig, ops: seq<Op>, k: nat): (r: bool)
    ensures r ==> k < |ops|
  {
    k < |ops| && TriggersAt(cfg, ops, k) && !ReleasedSince(ops, k)
  }

  /** The quarantine key carries the lease of the latest trigger that nothing released. */
  ghost predicate QuarantineTracks(cfg: ValidConfig, ops: seq<Op>) {
    var keys := Run(cfg, ops).keys;
    && (QuarantineKey in keys ==>
          && keys[QuarantineKey].value.Stored? && Parses(keys[QuarantineKey].value.record)
          && exists k :: Holds(cfg, ops, k) && keys[QuarantineKey].deadline == Some(TimeAt(cfg, ops, k) + cfg.quarantineFor))
    && (forall k | Holds(cfg, ops, k) ::
          && QuarantineKey in keys && keys[QuarantineKey].deadline.Some?
          && TimeAt(cfg, ops, k) + cfg.quarantineFor <= keys[QuarantineKey].deadline.value)
  }

  // ----- earlier events keep their meaning -----

  lemma PrefixFacts(cfg: ValidConfig, ops: seq<Op>, op: Op, k: nat)
    requires k < |ops|
    ensures (ops + [op])[k] == ops[k] && (ops + [op])[..k] == ops[..k]
    ensures TimeAt(cfg, ops + [op], k) == TimeAt(cfg, ops, k)
    ensures TriggersAt(cfg, ops + [op], k) == TriggersAt(cfg, ops, k)
    ensures forall signal :: CountedAt(cfg, ops + [op], k, signal) == CountedAt(cfg, ops, k, signal)
  {
  }

  lemma ReleasedStep(ops: seq<Op>, op: Op, k: nat)
    requires k <= |ops|
    ensures ReleasedSince(ops + [op], k) <==> op.Released? || ReleasedSince(ops, k)
  {
    var all := ops + [op];
    if ReleasedSince(ops, k) {
      var j :| k <= j < |ops| && ops[j].Released?;
      assert all[j].Released?;
    }
    if op.Released? { assert all[|ops|].Released?; }
  }

  lemma HoldsStep(cfg: ValidConfig, ops: seq<Op>, op: Op, k: nat)
    ensures k < |ops| ==> (Holds(cfg, ops + [op], k) <==> Holds(cfg, ops, k) && !op.Released?)
    ensures k == |ops| ==> (Holds(cfg, ops + [op], k) <==> TriggersAt(cfg, ops + [op], k))
    ensures k > |ops| ==> !Holds(cfg, ops + [op], k)
  {
    if k < |ops| { PrefixFacts(cfg, ops, op, k); }
    if k <= |ops| { ReleasedStep(ops, op, k); }
  }

  lemma RunStep(cfg: ValidConfig, ops: seq<Op>, op: Op)
    ensures (ops + [op])[..|ops|] == ops
    ensures Run(cfg, ops + [op]) == Step(cfg, Run(cfg, ops), op)
  {
  }

  // ----- records parse back -----

  lemma DistinctAreFew(s: seq<Signal>)
    requires Distinct(s)
    ensures |s| <= 5
  {
    var elements := set x | x in s;
    DistinctSize(s, elements);
    forall x | x in elements ensures x in ALL_SIGNALS { EverySignal(x); }
    SubsetSize(elements, ALL_SIGNALS);
  }

  lemma EverySignal(x: Signal)
    ensures x in ALL_SIGNALS
  {
    match x
    case RefreshReplay =>
    case ConcurrentRefresh =>
    case IpChange =>
    case DeviceChange =>
    case SuspiciousAgent =>
  }

  lemma {:induction false} DistinctSize(s: seq<Signal>, elements: set<Signal>)
    requires Distinct(s) && elements == set x | x in s
    ensures |s| == |elements|
  {
    if s != [] {
      var init, last := s[..|s| - 1], s[|s| - 1];
      assert s == init + [last];
      DistinctSize(init, elements - {last});
    }
  }

  lemma {:induction false} SubsetSize(a: set<Signal>, b: set<Signal>)
    requires a <= b
    ensures |a| <= |b|
  {
    if a != {} {
      var x :| x in a;
      SubsetSize(a - {x}, b - {x});
    }
  }

  /** Whatever is written under the quarantine key parses back: one to five reasons, each once. */
  lemma WrittenRecordsParse(cfg: ValidConfig, s: Store, reasons: seq<Signal>)
    requires reasons != []
    ensures var (_, state) := PutQuarantine(cfg, s, reasons);
            && state.Quarantined? && Parses(state.record)
            && 1 <= |state.record.reasons| <= 5 && Distinct(state.record.reasons)
  {
    var state := PutQuarantine(cfg, s, reasons).1;
    DistinctAreFew(state.record.reasons);
    assert reasons[0] in reasons;
    assert reasons[0] in Dedupe(reasons);
    assert reasons[0] in state.record.reasons;
  }

  // ----- the quarantine theorem -----

  /** What one operation does to the quarantine key. */
  lemma StepQuarantineKey(cfg: ValidConfig, ops: seq<Op>, op: Op)
    ensures var s, all := Run(cfg, ops), ops + [op];
            var keys := Step(cfg, s, op).keys;
            if TriggersAt(cfg, all, |ops|) then
              && QuarantineKey in keys && keys[QuarantineKey].value.Stored? && Parses(keys[QuarantineKey].value.record)
              && keys[QuarantineKey].deadline == Some(s.now + cfg.quarantineFor)
            else if op.Released? then QuarantineKey !in keys
            else (QuarantineKey in keys <==> QuarantineKey in s.keys)
                 && (QuarantineKey in keys ==> keys[QuarantineKey] == s.keys[QuarantineKey])
  {
    hide Report;
    var s := Run(cfg, ops);
    RunStep(cfg, ops, op);
    match op
    case Quarantine(reasons) => if reasons != [] { WrittenRecordsParse(cfg, s, reasons); }
    case Signalled(signal, fp) =>
      ReportKeys(cfg, s, signal, fp);
    case _ =>
  }

  lemma ReportKeys(cfg: ValidConfig, s: Store, signal: Signal, fp: Option<string>)
    ensures var s' := Report(cfg, s, signal, fp).0;
            var threshold := ThresholdFor(cfg, signal);
            if Counts(cfg, s, signal, fp) && threshold.Some? && CountOf(s, signal) + 1 >= threshold.value then
              && QuarantineKey in s'.keys && s'.keys[QuarantineKey].value.Stored?
              && Parses(s'.keys[QuarantineKey].value.record)
              && s'.keys[QuarantineKey].deadline == Some(s.now + cfg.quarantineFor)
            else (QuarantineKey in s'.keys <==> QuarantineKey in s.keys)
                 && (QuarantineKey in s'.keys ==> s'.keys[QuarantineKey] == s.keys[QuarantineKey])
  {
    if Counts(cfg, s, signal, fp) {
      var s1 := if fp.None? then s else s.(keys := Set(s.keys, SeenKey(signal, fp.value), Claimed, s.now, cfg.window));
      var s2 := Increment(cfg, s1, signal);
      assert CountOf(s1, signal) == CountOf(s, signal) && CountOf(s2, signal) == CountOf(s, signal) + 1;
      WrittenRecordsParse(cfg, s2, [signal]);
    }
  }

  lemma {:induction false} TimeGoesOn(cfg: ValidConfig, ops: seq<Op>, k: nat)
    requires k <= |ops|
    ensures TimeAt(cfg, ops, k) <= Run(cfg, ops).now
  {
    if k == |ops| {
      assert ops[..k] == ops;
    } else {
      var before := ops[..|ops| - 1];
      assert before[..k] == ops[..k];
      TimeGoesOn(cfg, before, k);
      StepTime(cfg, Run(cfg, before), ops[|ops| - 1]);
    }
  }

  lemma StepTime(cfg: ValidConfig, s: Store, op: Op)
    ensures Step(cfg, s, op).now == s.now + if op.Wait? then op.ms else 0
  {
  }

  lemma TracksStep(cfg: ValidConfig, ops: seq<Op>, op: Op)
    requires QuarantineTracks(cfg, ops)
    ensures QuarantineTracks(cfg, ops + [op])
  {
    hide Step, TriggersAt, ReleasedSince;
    var all, s := ops + [op], Run(cfg, ops);
    RunStep(cfg, ops, op);
    StepQuarantineKey(cfg, ops, op);
    forall k: nat
      ensures k < |ops| ==> (Holds(cfg, all, k) <==> Holds(cfg, ops, k) && !op.Released?)
      ensures k > |ops| ==> !Holds(cfg, all, k)
    {
      HoldsStep(cfg, ops, op, k);
    }
    HoldsStep(cfg, ops, op, |ops|);
    forall k: nat | k <= |ops|
      ensures TimeAt(cfg, all, k) <= s.now && (k < |ops| ==> TimeAt(cfg, all, k) == TimeAt(cfg, ops, k))
    {
      TimeGoesOn(cfg, ops, k);
      if k < |ops| { PrefixFacts(cfg, ops, op, k); }
    }
    assert TimeAt(cfg, all, |ops|) == s.now;
    TracksFromKey(cfg, ops, op);
  }

  lemma TracksFromKey(cfg: ValidConfig, ops: seq<Op>, op: Op)
    requires QuarantineTracks(cfg, ops)
    requires var all, s := ops + [op], Run(cfg, ops);
             var keys := Run(cfg, all).keys;
             && TimeAt(cfg, all, |ops|) == s.now
             && (forall k: nat :: k < |ops| ==> (Holds(cfg, all, k) <==> Holds(cfg, ops, k) && !op.Released?))
             && (forall k: nat :: k > |ops| ==> !Holds(cfg, all, k))
             && (forall k: nat | k <= |ops| :: TimeAt(cfg, all, k) <= s.now)
             && (forall k: nat | k < |ops| :: TimeAt(cfg, all, k) == TimeAt(cfg, ops, k))
             && if Holds(cfg, all, |ops|) then
                  && QuarantineKey in keys && keys[QuarantineKey].value.Stored? && Parses(keys[QuarantineKey].value.record)
                  && keys[QuarantineKey].deadline == Some(s.now + cfg.quarantineFor)
                else if op.Released? then QuarantineKey !in keys
                else (QuarantineKey in keys <==> QuarantineKey in s.keys)
                     && (QuarantineKey in keys ==> keys[QuarantineKey] == s.keys[QuarantineKey])
    ensures QuarantineTracks(cfg, ops + [op])
  {
    hide Run, Holds, TimeAt, Parses;
    var all, s := ops + [op], Run(cfg, ops);
    var keys := Run(cfg, all).keys;
    if QuarantineKey in keys {
      if Holds(cfg, all, |ops|) {
        assert keys[QuarantineKey].deadline == Some(TimeAt(cfg, all, |ops|) + cfg.quarantineFor);
      } else {
        var k: nat :| Holds(cfg, ops, k) && s.keys[QuarantineKey].deadline == Some(TimeAt(cfg, ops, k) + cfg.quarantineFor);
        assert Holds(cfg, all, k);
      }
    }
    forall k: nat | Holds(cfg, all, k)
      ensures QuarantineKey in keys && keys[QuarantineKey].deadline.Some?
      ensures TimeAt(cfg, all, k) + cfg.quarantineFor <= keys[QuarantineKey].deadline.value
    {
      if k < |ops| { assert Holds(cfg, ops, k); }
    }
  }

  lemma {:induction false} RunTracks(cfg: ValidConfig, ops: seq<Op>)
    ensures QuarantineTracks(cfg, ops)
  {
    if ops != [] {
      RunTracks(cfg, ops[..|ops| - 1]);
      TracksStep(cfg, ops[..|ops| - 1], ops[|ops| - 1]);
      assert ops[..|ops| - 1] + [ops[|ops| - 1]] == ops;
    }
  }

  /** A principal is quarantined exactly while the lease of some trigger, released by nothing
      since, still runs; what `getState` then reads always parses. */
  lemma QuarantinedIff(cfg: ValidConfig, ops: seq<Op>)
    ensures var s := Run(cfg, ops);
            && (GetState(cfg, s).Quarantined? <==>
                  cfg.enabled && exists k: nat :: Holds(cfg, ops, k) && s.now < TimeAt(cfg, ops, k) + cfg.quarantineFor)
            && (GetState(cfg, s).Quarantined? ==> Parses(GetState(cfg, s).record))
  {
    hide Run, Holds;
    RunTracks(cfg, ops);
    var s := Run(cfg, ops);
    if GetState(cfg, s).Quarantined? {
      var k: nat :| Holds(cfg, ops, k) && s.keys[QuarantineKey].deadline == Some(TimeAt(cfg, ops, k) + cfg.quarantineFor);
    }
  }

  // ----- what the record says -----

  /** The trigger that began the present quarantine, read off the history alone. */
  function Onset(cfg: ValidConfig, ops: seq<Op>): (w: Option<nat>)
    ensures w.Some? ==> w.value < |ops|
  {
    if ops == [] then None
    else
      var before, last := ops[..|ops| - 1], |ops| - 1;
      if ops[last].Released? then None
      else if !TriggersAt(cfg, ops, last) then Onset(cfg, before)
      else if GetState(cfg, Run(cfg, before)).Quarantined? then Onset(cfg, before)
      else Some(last)
  }

  function ReasonsAt(cfg: ValidConfig, ops: seq<Op>, k: nat): set<Signal>
    requires k < |ops|
  {
    if !TriggersAt(cfg, ops, k) then {}
    else match ops[k]
         case Quarantine(reasons) => set x | x in reasons
         case Signalled(signal, _) => {signal}
         case _ => {}
  }

  /** The reasons of all triggers from event w on. */
  function ReasonsSince(cfg: ValidConfig, ops: seq<Op>, w: nat): set<Signal> {
    if |ops| <= w then {} else ReasonsSince(cfg, ops[..|ops| - 1], w) + ReasonsAt(cfg, ops, |ops| - 1)
  }

  ghost predicate RecordTracks(cfg: ValidConfig, ops: seq<Op>) {
    var keys, w := Run(cfg, ops).keys, Onset(cfg, ops);
    if w.None? then QuarantineKey !in keys
    else
      && QuarantineKey in keys && keys[QuarantineKey].value.Stored?
      && var record := keys[QuarantineKey].value.record;
         && record.quarantinedAt == TimeAt(cfg, ops, w.value)
         && keys[QuarantineKey].deadline == Some(record.expiresAt)
         && (set x | x in record.reasons) == ReasonsSince(cfg, ops, w.value)
  }

  /** A trigger adds its reasons to a live record and otherwise starts a new one. */
  ghost predicate Recorded(cfg: ValidConfig, s: Store, s': Store, reasons: set<Signal>) {
    && QuarantineKey in s'.keys && s'.keys[QuarantineKey].value.Stored?
    && var record, former := s'.keys[QuarantineKey].value.record, GetState(cfg, s);
       && s'.keys[QuarantineKey].deadline == Some(record.expiresAt)
       && record.quarantinedAt == (if former.Quarantined? then former.record.quarantinedAt else s.now)
       && (set x | x in record.reasons) == (if former.Quarantined? then set x | x in former.record.reasons else {}) + reasons
  }

  lemma PutRecords(cfg: ValidConfig, s: Store, base: Store, reasons: seq<Signal>)
    requires GetState(cfg, s) == GetState(cfg, base) && s.now == base.now
    ensures Recorded(cfg, base, PutQuarantine(cfg, s, reasons).0, set x | x in reasons)
  {
  }

  lemma StepRecords(cfg: ValidConfig, ops: seq<Op>, op: Op)
    requires TriggersAt(cfg, ops + [op], |ops|)
    ensures Recorded(cfg, Run(cfg, ops), Step(cfg, Run(cfg, ops), op), ReasonsAt(cfg, ops + [op], |ops|))
  {
    hide Recorded, PutQuarantine, GetState;
    var s := Run(cfg, ops);
    RunStep(cfg, ops, op);
    match op
    case Quarantine(reasons) => PutRecords(cfg, s, s, reasons);
    case Signalled(signal, fp) => ReportRecords(cfg, s, signal, fp);
  }

  lemma ReportRecords(cfg: ValidConfig, s: Store, signal: Signal, fp: Option<string>)
    requires Counts(cfg, s, signal, fp)
    requires ThresholdFor(cfg, signal).Some? && CountOf(s, signal) + 1 >= ThresholdFor(cfg, signal).value
    ensures Recorded(cfg, s, Report(cfg, s, signal, fp).0, {signal})
  {
    hide Recorded, PutQuarantine;
    var s1 := if fp.None? then s else s.(keys := Set(s.keys, SeenKey(signal, fp.value), Claimed, s.now, cfg.window));
    var s2 := Increment(cfg, s1, signal);
    assert CountOf(s1, signal) == CountOf(s, signal) && CountOf(s2, signal) == CountOf(s, signal) + 1;
    assert GetState(cfg, s2) == GetState(cfg, s);
    PutRecords(cfg, s2, s, [signal]);
    assert (set x | x in [signal]) == {signal};
  }

  lemma RecordStep(cfg: ValidConfig, ops: seq<Op>, op: Op)
    requires RecordTracks(cfg, ops)
    ensures RecordTracks(cfg, ops + [op])
  {
    hide Step;
    var all, s, w := ops + [op], Run(cfg, ops), Onset(cfg, ops);
    RunStep(cfg, ops, op);
    StepQuarantineKey(cfg, ops, op);
    if w.Some? { PrefixFacts(cfg, ops, op, w.value); }
    assert TimeAt(cfg, all, |ops|) == s.now;
    assert ReasonsSince(cfg, ops, |ops|) == {};
    if TriggersAt(cfg, all, |ops|) { StepRecords(cfg, ops, op); }
  }

  lemma {:induction false} RecordsTrack(cfg: ValidConfig, ops: seq<Op>)
    ensures RecordTracks(cfg, ops)
  {
    if ops != [] {
      RecordsTrack(cfg, ops[..|ops| - 1]);
      RecordStep(cfg, ops[..|ops| - 1], ops[|ops| - 1]);
      assert ops[..|ops| - 1] + [ops[|ops| - 1]] == ops;
    }
  }

  /** What `getState` shows of a quarantine: since the trigger that began it, for exactly the
      reasons of all triggers from then on, until the moment its key expires. */
  lemma RecordTellsItsHistory(cfg: ValidConfig, ops: seq<Op>)
    requires GetState(cfg, Run(cfg, ops)).Quarantined?
    ensures var s, record, w := Run(cfg, ops), GetState(cfg, Run(cfg, ops)).record, Onset(cfg, ops);
            && w.Some? && record.quarantinedAt == TimeAt(cfg, ops, w.value)
            && (set x | x in record.reasons) == ReasonsSince(cfg, ops, w.value)
            && s.keys[QuarantineKey].deadline == Some(record.expiresAt) && s.now < record.expiresAt
  {
    RecordsTrack(cfg, ops);
  }

  lemma {:induction false} DedupeOfDistinct(a: seq<Signal>)
    requires Distinct(a)
    ensures Dedupe(a) == a
  {
    if a != [] {
      var init, last := a[..|a| - 1], a[|a| - 1];
      DedupeOfDistinct(init);
      assert a == init + [last] && last !in init;
    }
  }

  lemma {:induction false} DedupeExtends(a: seq<Signal>, b: seq<Signal>)
    ensures Dedupe(a) <= Dedupe(a + b)
  {
    if b == [] {
      assert a + b == a;
    } else {
      DedupeExtends(a, b[..|b| - 1]);
      assert (a + b)[..|a + b| - 1] == a + b[..|b| - 1];
    }
  }

  lemma PutExtends(cfg: ValidConfig, s: Store, reasons: seq<Signal>)
    requires GetState(cfg, s).Quarantined? && Distinct(GetState(cfg, s).record.reasons)
    ensures var state := PutQuarantine(cfg, s, reasons).1;
            state.Quarantined? && GetState(cfg, s).record.reasons <= state.record.reasons
  {
    var former := GetState(cfg, s).record.reasons;
    DedupeOfDistinct(former);
    DedupeExtends(former, Dedupe(reasons));
  }

  /** A further trigger appends its new reasons: what the record said before stays in front. */
  lemma ReasonsAreAppended(cfg: ValidConfig, ops: seq<Op>, op: Op)
    requires GetState(cfg, Run(cfg, ops)).Quarantined? && TriggersAt(cfg, ops + [op], |ops|)
    ensures var state := GetState(cfg, Run(cfg, ops + [op]));
            state.Quarantined? && GetState(cfg, Run(cfg, ops)).record.reasons <= state.record.reasons
  {
    hide PutQuarantine;
    var s := Run(cfg, ops);
    RunStep(cfg, ops, op);
    QuarantinedIff(cfg, ops);
    match op
    case Quarantine(reasons) =>
      PutExtends(cfg, s, reasons);
      PutIsRead(cfg, s, reasons);
    case Signalled(signal, fp) =>
      var s1 := if fp.None? then s else s.(keys := Set(s.keys, SeenKey(signal, fp.value), Claimed, s.now, cfg.window));
      var s2 := Increment(cfg, s1, signal);
      assert CountOf(s1, signal) == CountOf(s, signal) && CountOf(s2, signal) == CountOf(s, signal) + 1;
      assert GetState(cfg, s2) == GetState(cfg, s);
      PutExtends(cfg, s2, [signal]);
      PutIsRead(cfg, s2, [signal]);
  }

  /** What is written is what the next read finds. */
  lemma PutIsRead(cfg: ValidConfig, s: Store, reasons: seq<Signal>)
    requires cfg.enabled
    ensures var (s', state) := PutQuarantine(cfg, s, reasons); GetState(cfg, s') == state
  {
  }

  // ----- counters -----

  /** The event that opened the signal's current window, read off the history alone: the first
      counted report, and after that the first one past the former window or past a release. */
  function Window(cfg: ValidConfig, ops: seq<Op>, signal: Signal): (w: Option<nat>)
    ensures w.Some? ==> w.value < |ops|
  {
    if ops == [] then None
    else
      var before, last := ops[..|ops| - 1], |ops| - 1;
      if ops[last].Released? then None
      else
        var w := Window(cfg, before, signal);
        if !CountedAt(cfg, ops, last, signal) || (w.Some? && Run(cfg, before).now < TimeAt(cfg, before, w.value) + cfg.window)
        then w else Some(last)
  }

  /** How many reports of the signal counted from event w on. */
  function CountedSince(cfg: ValidConfig, ops: seq<Op>, signal: Signal, w: nat): nat {
    if |ops| <= w then 0
    else
      CountedSince(cfg, ops[..|ops| - 1], signal, w) + if CountedAt(cfg, ops, |ops| - 1, signal) then 1 else 0
  }

  ghost predicate CounterTracks(cfg: ValidConfig, ops: seq<Op>, signal: Signal) {
    var keys, w := Run(cfg, ops).keys, Window(cfg, ops, signal);
    if w.None? then CounterKey(signal) !in keys
    else
      && CountedSince(cfg, ops, signal, w.value) > 0
      && CounterKey(signal) in keys
      && keys[CounterKey(signal)] == Entry(Count(CountedSince(cfg, ops, signal, w.value)),
                                           Some(TimeAt(cfg, ops, w.value) + cfg.window))
  }

  lemma PutQuarantineOnlyWritesItsKey(cfg: ValidConfig, s: Store, reasons: seq<Signal>, key: Key)
    requires key != QuarantineKey
    ensures var s' := PutQuarantine(cfg, s, reasons).0;
            (key in s'.keys <==> key in s.keys) && (key in s'.keys ==> s'.keys[key] == s.keys[key])
  {
  }

  /** What one operation does to a counter. */
  lemma StepCounterKey(cfg: ValidConfig, s: Store, op: Op, signal: Signal)
    ensures var keys, key := Step(cfg, s, op).keys, CounterKey(signal);
            if op.Released? then key !in keys
            else if op.Signalled? && op.signal == signal && Counts(cfg, s, signal, op.fingerprint) then
              var n := CountOf(s, signal);
              key in keys && keys[key] == Entry(Count(n + 1), if n == 0 then Some(s.now + cfg.window) else s.keys[key].deadline)
            else (key in keys <==> key in s.keys) && (key in keys ==> keys[key] == s.keys[key])
  {
    hide PutQuarantine;
    if op.Quarantine? { PutQuarantineOnlyWritesItsKey(cfg, s, op.reasons, CounterKey(signal)); }
    if op.Released? { assert signal in ALL_SIGNALS; }
    if op.Signalled? && Counts(cfg, s, op.signal, op.fingerprint) {
      var s1 := if op.fingerprint.None? then s
                else s.(keys := Set(s.keys, SeenKey(op.signal, op.fingerprint.value), Claimed, s.now, cfg.window));
      assert CountOf(s1, signal) == CountOf(s, signal);
      PutQuarantineOnlyWritesItsKey(cfg, Increment(cfg, s1, op.signal), [op.signal], CounterKey(signal));
    }
  }

  lemma CounterStep(cfg: ValidConfig, ops: seq<Op>, op: Op, signal: Signal)
    requires CounterTracks(cfg, ops, signal)
    ensures CounterTracks(cfg, ops + [op], signal)
  {
    hide Step;
    var all, s, w := ops + [op], Run(cfg, ops), Window(cfg, ops, signal);
    RunStep(cfg, ops, op);
    StepCounterKey(cfg, s, op, signal);
    if w.Some? { PrefixFacts(cfg, ops, op, w.value); }
    assert TimeAt(cfg, all, |ops|) == s.now;
    assert CountedSince(cfg, ops, signal, |ops|) == 0;
  }

  lemma {:induction false} CountersTrack(cfg: ValidConfig, ops: seq<Op>, signal: Signal)
    ensures CounterTracks(cfg, ops, signal)
  {
    if ops != [] {
      CountersTrack(cfg, ops[..|ops| - 1], signal);
      CounterStep(cfg, ops[..|ops| - 1], ops[|ops| - 1], signal);
      assert ops[..|ops| - 1] + [ops[|ops| - 1]] == ops;
    }
  }

  /** Every counter reads as the number of counted reports in its fixed window: later reports
      never extend the window, and its end or a release starts the count afresh. */
  lemma CounterIsWindowed(cfg: ValidConfig, ops: seq<Op>, signal: Signal)
    ensures var s, w := Run(cfg, ops), Window(cfg, ops, signal);
            CountOf(s, signal) == if w.Some? && s.now < TimeAt(cfg, ops, w.value) + cfg.window
                                  then CountedSince(cfg, ops, signal, w.value) else 0
  {
    CountersTrack(cfg, ops, signal);
  }

  // ----- fingerprints -----

  /** Report k was counted under this fingerprint. */
  predicate Claims(cfg: ValidConfig, ops: seq<Op>, k: nat, signal: Signal, fp: string): (r: bool)
    ensures r ==> k < |ops|
  {
    k < |ops| && CountedAt(cfg, ops, k, signal) && ops[k].fingerprint == Some(fp)
  }

  ghost predicate SeenTracks(cfg: ValidConfig, ops: seq<Op>, signal: Signal, fp: string) {
    var keys, key := Run(cfg, ops).keys, SeenKey(signal, fp);
    && (key in keys ==>
          exists k: nat :: Claims(cfg, ops, k, signal, fp) && keys[key].deadline == Some(TimeAt(cfg, ops, k) + cfg.window))
    && (forall k: nat | Claims(cfg, ops, k, signal, fp) ::
          key in keys && keys[key].deadline.Some? && TimeAt(cfg, ops, k) + cfg.window <= keys[key].deadline.value)
  }

  lemma StepSeenKey(cfg: ValidConfig, s: Store, op: Op, signal: Signal, fp: string)
    ensures var keys, key := Step(cfg, s, op).keys, SeenKey(signal, fp);
            if op.Signalled? && op.signal == signal && op.fingerprint == Some(fp) && Counts(cfg, s, signal, op.fingerprint)
            then key in keys && keys[key].deadline == Some(s.now + cfg.window)
            else (key in keys <==> key in s.keys) && (key in keys ==> keys[key] == s.keys[key])
  {
  }

  lemma SeenStep(cfg: ValidConfig, ops: seq<Op>, op: Op, signal: Signal, fp: string)
    requires SeenTracks(cfg, ops, signal, fp)
    ensures SeenTracks(cfg, ops + [op], signal, fp)
  {
    hide Step, Counts;
    var all, s, key := ops + [op], Run(cfg, ops), SeenKey(signal, fp);
    RunStep(cfg, ops, op);
    StepSeenKey(cfg, s, op, signal, fp);
    forall k: nat | k < |ops|
      ensures Claims(cfg, all, k, signal, fp) == Claims(cfg, ops, k, signal, fp)
      ensures TimeAt(cfg, all, k) == TimeAt(cfg, ops, k) <= s.now
    {
      PrefixFacts(cfg, ops, op, k);
      TimeGoesOn(cfg, ops, k);
    }
    assert TimeAt(cfg, all, |ops|) == s.now;
    SeenFromKey(cfg, ops, op, signal, fp);
  }

  lemma SeenFromKey(cfg: ValidConfig, ops: seq<Op>, op: Op, signal: Signal, fp: string)
    requires SeenTracks(cfg, ops, signal, fp)
    requires var all, s, key := ops + [op], Run(cfg, ops), SeenKey(signal, fp);
             var keys := Run(cfg, all).keys;
             && (forall k: nat | k < |ops| :: Claims(cfg, all, k, signal, fp) == Claims(cfg, ops, k, signal, fp))
             && (forall k: nat | k < |ops| :: TimeAt(cfg, all, k) == TimeAt(cfg, ops, k) <= s.now)
             && TimeAt(cfg, all, |ops|) == s.now
             && if Claims(cfg, all, |ops|, signal, fp) then key in keys && keys[key].deadline == Some(s.now + cfg.window)
                else (key in keys <==> key in s.keys) && (key in keys ==> keys[key] == s.keys[key])
    ensures SeenTracks(cfg, ops + [op], signal, fp)
  {
    hide Run, TimeAt, CountedAt;
    var all, s, key := ops + [op], Run(cfg, ops), SeenKey(signal, fp);
    var keys := Run(cfg, all).keys;
    if key in keys && !Claims(cfg, all, |ops|, signal, fp) {
      var k: nat :| Claims(cfg, ops, k, signal, fp) && s.keys[key].deadline == Some(TimeAt(cfg, ops, k) + cfg.window);
      assert Claims(cfg, all, k, signal, fp);
    }
    forall k: nat | Claims(cfg, all, k, signal, fp)
      ensures key in keys && keys[key].deadline.Some? && TimeAt(cfg, all, k) + cfg.window <= keys[key].deadline.value
    {
      if k < |ops| { assert Claims(cfg, ops, k, signal, fp); }
    }
  }

  lemma {:induction false} FingerprintsTrack(cfg: ValidConfig, ops: seq<Op>, signal: Signal, fp: string)
    ensures SeenTracks(cfg, ops, signal, fp)
  {
    if ops != [] {
      FingerprintsTrack(cfg, ops[..|ops| - 1], signal, fp);
      SeenStep(cfg, ops[..|ops| - 1], ops[|ops| - 1], signal, fp);
      assert ops[..|ops| - 1] + [ops[|ops| - 1]] == ops;
    }
  }

  /** A report counts exactly when no counted report of the same fingerprint lies within the
      last window; releasing the principal does not make a fingerprint count again. */
  lemma CountedIff(cfg: ValidConfig, ops: seq<Op>, signal: Signal, fp: string)
    ensures Counts(cfg, Run(cfg, ops), signal, Some(fp)) <==>
              && cfg.enabled && ActionFor(cfg, signal) != Ignore
              && !exists k: nat :: Claims(cfg, ops, k, signal, fp) && Run(cfg, ops).now < TimeAt(cfg, ops, k) + cfg.window
  {
    hide Run, TimeAt, Claims;
    FingerprintsTrack(cfg, ops, signal, fp);
    var s, key := Run(cfg, ops), SeenKey(signal, fp);
    if Live(s.keys, key, s.now) {
      var k: nat :| Claims(cfg, ops, k, signal, fp) && s.keys[key].deadline == Some(TimeAt(cfg, ops, k) + cfg.window);
    }
  }

  /** The clock of a history is the time waited. */
  function Waited(ops: seq<Op>): nat {
    if ops == [] then 0
    else Waited(ops[..|ops| - 1]) + match ops[|ops| - 1] case Wait(ms) => ms case _ => 0
  }

  lemma {:induction false} TimeIsWaited(cfg: ValidConfig, ops: seq<Op>)
    ensures Run(cfg, ops).now == Waited(ops)
  {
    if ops != [] {
      TimeIsWaited(cfg, ops[..|ops| - 1]);
      StepTime(cfg, Run(cfg, ops[..|ops| - 1]), ops[|ops| - 1]);
    }
  }

  lemma ClaimsOfPrefix(cfg: ValidConfig, ops: seq<Op>, k: nat, j: nat, signal: Signal, fp: string)
    requires k < |ops|
    ensures Claims(cfg, ops[..k], j, signal, fp) <==> j < k && Claims(cfg, ops, j, signal, fp)
    ensures j < k ==> TimeAt(cfg, ops[..k], j) == TimeAt(cfg, ops, j)
  {
    if j < k { assert ops[..k][..j] == ops[..j]; }
  }

  /** A report of the history counts exactly when the service is on, its signal is not ignored,
      and no counted report of its fingerprint lies within the last window. */
  lemma CountedAtIff(cfg: ValidConfig, ops: seq<Op>, k: nat, signal: Signal)
    requires k < |ops|
    ensures CountedAt(cfg, ops, k, signal) <==>
              && ops[k].Signalled? && ops[k].signal == signal && cfg.enabled
              && (signal == IpChange ==> cfg.ipChangeAction != Ignore)
              && (signal == DeviceChange ==> cfg.deviceChangeAction != Ignore)
              && (ops[k].fingerprint.Some? ==>
                    !exists j: nat :: j < k && Claims(cfg, ops, j, signal, ops[k].fingerprint.value)
                                      && TimeAt(cfg, ops, k) < TimeAt(cfg, ops, j) + cfg.window)
  {
    if ops[k].Signalled? && ops[k].signal == signal && ops[k].fingerprint.Some? {
      var fp := ops[k].fingerprint.value;
      CountedIff(cfg, ops[..k], signal, fp);
      forall j: nat
        ensures Claims(cfg, ops[..k], j, signal, fp) <==> j < k && Claims(cfg, ops, j, signal, fp)
        ensures j < k ==> TimeAt(cfg, ops[..k], j) == TimeAt(cfg, ops, j)
      {
        ClaimsOfPrefix(cfg, ops, k, j, signal, fp);
      }
      hide Claims, TimeAt;
    }
  }

  /** How many reports of the signal the window that runs at event k has counted before it. */
  function CountedBefore(cfg: ValidConfig, ops: seq<Op>, k: nat, signal: Signal): nat
    requires k <= |ops|
  {
    var w := Window(cfg, ops[..k], signal);
    if w.Some? && TimeAt(cfg, ops, k) < TimeAt(cfg, ops, w.value) + cfg.window then CountedSince(cfg, ops[..k], signal, w.value)
    else 0
  }

  /** Which events quarantine, signal by signal: a replay always; a concurrent refresh or a
      suspicious agent when the reports counted in the window, this one included, come to the
      configured number; a context change when its configured action is to quarantine. */
  lemma TriggersIff(cfg: ValidConfig, ops: seq<Op>, k: nat)
    requires k < |ops|
    ensures TriggersAt(cfg, ops, k) <==>
              match ops[k]
              case Quarantine(reasons) => reasons != []
              case Signalled(signal, _) =>
                && CountedAt(cfg, ops, k, signal)
                && var n := CountedBefore(cfg, ops, k, signal) + 1;
                   (match signal
                    case RefreshReplay => true
                    case ConcurrentRefresh => n >= cfg.concurrentRefreshThreshold
                    case SuspiciousAgent => n >= cfg.suspiciousAgentThreshold
                    case IpChange => cfg.ipChangeAction == QuarantineAction
                    case DeviceChange => cfg.deviceChangeAction == QuarantineAction)
              case _ => false
  {
    hide Run, Counts, Window, CountedSince;
    if ops[k].Signalled? {
      var signal := ops[k].signal;
      CounterIsWindowed(cfg, ops[..k], signal);
      var w := Window(cfg, ops[..k], signal);
      if w.Some? { assert ops[..k][..w.value] == ops[..w.value]; }
      assert CountOf(Run(cfg, ops[..k]), signal) == CountedBefore(cfg, ops, k, signal);
    }
  }

  // ----- context checks -----

  lemma ReportReturnsState(cfg: ValidConfig, s: Store, signal: Signal, fp: Option<string>)
    ensures var (s', state) := Report(cfg, s, signal, fp); state == GetState(cfg, s')
  {
  }

  /** Both values are known and they differ. */
  predicate Differs(before: Option<string>, after: Option<string>) {
    && before.Some? && before.value != "" && before.value != "unknown"
    && after.Some? && after.value != "" && after.value != "unknown"
    && before.value != after.value
  }

  function ContextOp(signal: Signal, before: Option<string>, after: Option<string>): Op
    requires Differs(before, after)
  {
    Signalled(signal, Some(before.value + "\0" + after.value))
  }

  /** Report `op` after this history throws: it counted, and the sink throws on one of the events
      it emits. */
  predicate Failed(cfg: ValidConfig, ops: seq<Op>, op: Op, x: SinkFaults)
    requires op.Signalled?
  {
    && CountedAt(cfg, ops + [op], |ops|, op.signal)
    && (x.detected || (x.quarantined && TriggersAt(cfg, ops + [op], |ops|)))
  }

  lemma FailedIff(cfg: ValidConfig, ops: seq<Op>, op: Op, x: SinkFaults)
    requires op.Signalled?
    ensures Failed(cfg, ops, op, x) <==> ReportThrows(cfg, Run(cfg, ops), op.signal, op.fingerprint, x)
  {
    hide Run, Counts, CountOf, ThresholdFor;
    assert (ops + [op])[..|ops|] == ops;
  }

  /** The reports of a context check: the address when it changed, and then the device when it
      changed, unless the first report threw or left the principal quarantined. */
  function ContextReports(cfg: ValidConfig, ops: seq<Op>, expected: Observation, observed: Observation, x: SinkFaults)
    : seq<Op>
  {
    var first := if Differs(expected.ip, observed.ip) then [ContextOp(IpChange, expected.ip, observed.ip)] else [];
    var stopped := first != [] && (Failed(cfg, ops, first[0], x) || GetState(cfg, Run(cfg, ops + first)).Quarantined?);
    if stopped || !Differs(expected.device, observed.device) then first
    else first + [ContextOp(DeviceChange, expected.device, observed.device)]
  }

  /** A context check is the history of exactly those reports, so everything above covers it; it
      throws when one of them does, and otherwise returns the state it leaves. */
  lemma AssessIsHistory(cfg: ValidConfig, ops: seq<Op>, expected: Observation, observed: Observation,
                        x: SinkFaults, y: SinkFaults)
    ensures var more := ContextReports(cfg, ops, expected, observed, x);
            var (s', state) := AssessContext(cfg, Run(cfg, ops), expected, observed, x, y);
            && s' == Run(cfg, ops + more) && (state.Some? ==> state.value == GetState(cfg, s'))
            && (state.None? <==>
                  exists k | 0 <= k < |more| ::
                    Failed(cfg, ops + more[..k], more[k], if more[k].signal == IpChange then x else y))
  {
    hide Run, Report, GetState, Counts, Failed;
    var s, more := Run(cfg, ops), ContextReports(cfg, ops, expected, observed, x);
    var done := [];
    assert ops + done == ops;
    if Differs(expected.ip, observed.ip) {
      var op := ContextOp(IpChange, expected.ip, observed.ip);
      RunStep(cfg, ops, op);
      ReportReturnsState(cfg, s, op.signal, op.fingerprint);
      FailedIff(cfg, ops, op, x);
      done := [op];
      assert more[..0] == [] && ops + [] == ops && more[0] == op;
      assert ReportThrows(cfg, s, op.signal, op.fingerprint, x) <==> Failed(cfg, ops + more[..0], more[0], x);
    }
    if Differs(expected.device, observed.device) && more != done {
      var op := ContextOp(DeviceChange, expected.device, observed.device);
      RunStep(cfg, ops + done, op);
      ReportReturnsState(cfg, Run(cfg, ops + done), op.signal, op.fingerprint);
      FailedIff(cfg, ops + done, op, y);
      assert ops + (done + [op]) == ops + done + [op] && (done + [op])[..|done|] == done;
      assert more == done + [op] && more[|done|] == op;
    }
  }
}
