/** Session risk and quarantine: src/risk/sessionRiskService.ts over
    src/risk/redisSessionRiskStore.ts.

    All keys of the service carry a digest of the principal, so this is the store of one
    principal: its quarantine record, its signal counters and its claimed fingerprints, each
    with a TTL.  Times are in milliseconds; calls run one at a time. */
module SessionRisk {
  import opened Options
  import opened Redis
  import opened Sequences

  datatype Signal = RefreshReplay | ConcurrentRefresh | IpChange | DeviceChange | SuspiciousAgent

  datatype Action = Ignore | AuditOnly | QuarantineAction

  datatype Config = Config(
    enabled: bool,
    window: nat,
    quarantineFor: nat,
    concurrentRefreshThreshold: nat,
    suspiciousAgentThreshold: nat,
    ipChangeAction: Action,
    deviceChangeAction: Action
  ) {
    /** What the constructor accepts. */
    predicate Valid() {
      window > 0 && quarantineFor > 0 && concurrentRefreshThreshold > 0 && suspiciousAgentThreshold > 0
    }
  }

  type ValidConfig = c: Config | c.Valid() witness Config(true, 1, 1, 1, 1, AuditOnly, AuditOnly)

  /** The JSON record under the quarantine key. */
  datatype Record = Record(reasons: seq<Signal>, quarantinedAt: nat, expiresAt: nat)

  datatype State = Active | Quarantined(record: Record)

  /** `parseRiskState`: anything else found under the key makes the read throw. */
  predicate Parses(r: Record) {
    0 < |r.reasons| <= 5 && Distinct(r.reasons)
  }

  datatype Key = QuarantineKey | CounterKey(signal: Signal) | SeenKey(signal: Signal, fingerprint: string)

  datatype Value = Stored(record: Record) | Count(count: nat) | Claimed

  datatype Store = Store(now: nat, keys: map<Key, Entry<Value>>)

  const EMPTY_STORE := Store(0, map[])

  function ActionFor(cfg: Config, signal: Signal): Action {
    match signal
    case IpChange => cfg.ipChangeAction
    case DeviceChange => cfg.deviceChangeAction
    case _ => QuarantineAction
  }

  /** None is the infinite threshold of context changes that are only audited. */
  function ThresholdFor(cfg: Config, signal: Signal): Option<nat> {
    match signal
    case RefreshReplay => Some(1)
    case ConcurrentRefresh => Some(cfg.concurrentRefreshThreshold)
    case SuspiciousAgent => Some(cfg.suspiciousAgentThreshold)
    case _ => if ActionFor(cfg, signal) == QuarantineAction then Some(1) else None
  }

  /** `[...new Set(list)]`. */
  function Dedupe(s: seq<Signal>): (r: seq<Signal>)
    ensures Distinct(r)
    ensures forall x :: x in r <==> x in s
  {
    if s == [] then []
    else
      var init := Dedupe(s[..|s| - 1]);
      if s[|s| - 1] in init then init else init + [s[|s| - 1]]
  }

  /** `getState`; a record is present exactly while its TTL runs. */
  function GetState(cfg: Config, s: Store): State {
    if !cfg.enabled then Active
    else
      match Get<Key, Value>(s.keys, QuarantineKey, s.now)
      case Some(Stored(record)) => Quarantined(record)
      case _ => Active
  }

  /** `quarantine` with at least one reason: old reasons first, a new lease in any case. */
  function PutQuarantine(cfg: Config, s: Store, reasons: seq<Signal>): (Store, State) {
    var existing := GetState(cfg, s);
    var record := match existing
                  case Active => Record(Dedupe(reasons), s.now, s.now + cfg.quarantineFor)
                  case Quarantined(former) =>
                    Record(Dedupe(former.reasons + Dedupe(reasons)), former.quarantinedAt, s.now + cfg.quarantineFor);
    (s.(keys := Set(s.keys, QuarantineKey, Stored(record), s.now, cfg.quarantineFor)), Quarantined(record))
  }

  function CountOf(s: Store, signal: Signal): nat {
    match Get<Key, Value>(s.keys, CounterKey(signal), s.now)
    case Some(Count(n)) => n
    case _ => 0
  }

  /** INCR keeps the TTL of a live counter; the first increment opens a new window. */
  function Increment(cfg: Config, s: Store, signal: Signal): Store {
    var n := CountOf(s, signal) + 1;
    var deadline := if n == 1 then Some(s.now + cfg.window) else s.keys[CounterKey(signal)].deadline;
    s.(keys := s.keys[CounterKey(signal) := Entry(Count(n), deadline)])
  }

  /** Whether a report gets past the configuration and its fingerprint. */
  predicate Counts(cfg: Config, s: Store, signal: Signal, fingerprint: Option<string>) {
    && cfg.enabled && ActionFor(cfg, signal) != Ignore
    && (fingerprint.Some? ==> !Live(s.keys, SeenKey(signal, fingerprint.value), s.now))
  }

  function Report(cfg: Config, s: Store, signal: Signal, fingerprint: Option<string>): (Store, State) {
    if !Counts(cfg, s, signal, fingerprint) then (s, GetState(cfg, s))
    else
      var s1 := if fingerprint.None? then s
                else s.(keys := Set(s.keys, SeenKey(signal, fingerprint.value), Claimed, s.now, cfg.window));
      var s2 := Increment(cfg, s1, signal);
      var threshold := ThresholdFor(cfg, signal);
      if threshold.Some? && CountOf(s2, signal) >= threshold.value then PutQuarantine(cfg, s2, [signal])
      else (s2, GetState(cfg, s2))
  }

  const ALL_SIGNALS := {RefreshReplay, ConcurrentRefresh, IpChange, DeviceChange, SuspiciousAgent}

  /** Which of the audit events of one report the sink throws on. */
  datatype SinkFaults = SinkFaults(quarantined: bool, detected: bool)

  /** A counted report throws when the sink does, after everything is written. */
  predicate ReportThrows(cfg: Config, s: Store, signal: Signal, fingerprint: Option<string>, x: SinkFaults) {
    var threshold := ThresholdFor(cfg, signal);
    && Counts(cfg, s, signal, fingerprint)
    && (x.detected || (x.quarantined && threshold.Some? && CountOf(s, signal) + 1 >= threshold.value))
  }

  function Release(s: Store): Store {
    s.(keys := s.keys - ({QuarantineKey} + set x <- ALL_SIGNALS :: CounterKey(x)))
  }

  datatype Observation = Observation(ip: Option<string>, device: Option<string>)

  predicate Known(v: Option<string>) {
    v.Some? && v.value != "" && v.value != "unknown"
  }

  /** A context change worth reporting. */
  predicate Changed(before: Option<string>, after: Option<string>) {
    Known(before) && Known(after) && before != after
  }

  /** The fingerprint digests both values injectively. */
  function ChangePrint(before: Option<string>, after: Option<string>): string
    requires Changed(before, after)
  {
    before.value + "\0" + after.value
  }

  function AssessDevice(cfg: Config, s: Store, state: State, expected: Observation, observed: Observation, x: SinkFaults)
    : (Store, Option<State>)
  {
    if !Changed(expected.device, observed.device) then (s, Some(state))
    else
      var mark := Some(ChangePrint(expected.device, observed.device));
      var (s', state') := Report(cfg, s, DeviceChange, mark);
      (s', if ReportThrows(cfg, s, DeviceChange, mark, x) then None else Some(state'))
  }

  /** `assessContext`; x and y are the faults of its two reports, None is a thrown exception. */
  function AssessContext(cfg: Config, s: Store, expected: Observation, observed: Observation, x: SinkFaults, y: SinkFaults)
    : (Store, Option<State>)
  {
    if !Changed(expected.ip, observed.ip) then AssessDevice(cfg, s, GetState(cfg, s), expected, observed, y)
    else
      var mark := Some(ChangePrint(expected.ip, observed.ip));
      var (s1, state) := Report(cfg, s, IpChange, mark);
      if ReportThrows(cfg, s, IpChange, mark, x) then (s1, None)
      else if state.Quarantined? then (s1, Some(state))
      else AssessDevice(cfg, s1, state, expected, observed, y)
  }

  // ----- the service, command by command -----

  class SessionRiskService {
    const cfg: ValidConfig
    var store: Store

    constructor (cfg: ValidConfig)
      ensures this.cfg == cfg && store == EMPTY_STORE
    {
      this.cfg, store := cfg, EMPTY_STORE;
    }

    method IncrementSignal(signal: Signal) returns (count: nat)
      modifies this
      ensures store == Increment(cfg, old(store), signal) && count == CountOf(store, signal)
    {
      var key := CounterKey(signal);
      count := CountOf(store, signal) + 1;
      var keep := if Live(store.keys, key, store.now) then store.keys[key].deadline else None;
      store := store.(keys := store.keys[key := Entry(Count(count), keep)]);
      if count == 1 {
        store := store.(keys := store.keys[key := Entry(Count(count), Some(store.now + cfg.window))]);
      }
    }

    /** An empty list is refused; the audit event comes after the write. */
    method Quarantine(reasons: seq<Signal>, auditThrows: bool) returns (state: Option<State>)
      modifies this
      ensures reasons == [] ==> state.None? && store == old(store)
      ensures reasons != [] ==>
                && store == PutQuarantine(cfg, old(store), reasons).0
                && state == if auditThrows then None else Some(PutQuarantine(cfg, old(store), reasons).1)
    {
      var validated := Dedupe(reasons);
      if validated == [] {
        assert forall x :: x !in reasons;
        return None;
      }
      var existing := GetState(cfg, store);
      var all := if existing.Quarantined? then Dedupe(existing.record.reasons + validated) else validated;
      var since := if existing.Quarantined? then existing.record.quarantinedAt else store.now;
      var record := Record(all, since, store.now + cfg.quarantineFor);
      store := store.(keys := Set(store.keys, QuarantineKey, Stored(record), store.now, cfg.quarantineFor));
      if auditThrows { return None; }
      state := Some(Quarantined(record));
    }

    method ReportSignal(signal: Signal, fingerprint: Option<string>, x: SinkFaults) returns (state: Option<State>)
      modifies this
      ensures store == Report(cfg, old(store), signal, fingerprint).0
      ensures state == if ReportThrows(cfg, old(store), signal, fingerprint, x) then None
                       else Some(Report(cfg, old(store), signal, fingerprint).1)
    {
      hide PutQuarantine, GetState;
      if !cfg.enabled || ActionFor(cfg, signal) == Ignore { return Some(GetState(cfg, store)); }
      if fingerprint.Some? {
        var (keys', claimed) := SetIfAbsent(store.keys, SeenKey(signal, fingerprint.value), Claimed, store.now, cfg.window);
        if !claimed { return Some(GetState(cfg, store)); }
        store := store.(keys := keys');
      }
      var count := IncrementSignal(signal);
      var threshold := ThresholdFor(cfg, signal);
      var quarantined: Option<State> := None;
      if threshold.Some? && count >= threshold.value {
        quarantined := Quarantine([signal], x.quarantined);
        if quarantined.None? { return None; }
      }
      if x.detected { return None; }
      state := if quarantined.Some? then quarantined else Some(GetState(cfg, store));
    }

    /** `release`: one DEL of the record and of every counter; fingerprints stay. */
    method Lift(auditThrows: bool) returns (ok: bool)
      modifies this
      ensures store == Release(old(store)) && ok == !auditThrows
    {
      var doomed := {QuarantineKey, CounterKey(RefreshReplay), CounterKey(ConcurrentRefresh), CounterKey(IpChange),
                     CounterKey(DeviceChange), CounterKey(SuspiciousAgent)};
      assert doomed == {QuarantineKey} + set x <- ALL_SIGNALS :: CounterKey(x);
      store := store.(keys := store.keys - doomed);
      ok := !auditThrows;
    }

    /** The loop over the two possible changes stops at the first report that quarantines or
        throws. */
    method Assess(expected: Observation, observed: Observation, x: SinkFaults, y: SinkFaults) returns (state: Option<State>)
      modifies this
      ensures (store, state) == AssessContext(cfg, old(store), expected, observed, x, y)
    {
      state := Some(GetState(cfg, store));
      var changes := [(IpChange, expected.ip, observed.ip, x), (DeviceChange, expected.device, observed.device, y)];
      for i := 0 to |changes|
        invariant state.Some?
        invariant i == 0 ==> store == old(store) && state.value == GetState(cfg, store)
        invariant i == 1 ==> AssessContext(cfg, old(store), expected, observed, x, y)
                             == AssessDevice(cfg, store, state.value, expected, observed, y)
        invariant i == 2 ==> (store, state) == AssessContext(cfg, old(store), expected, observed, x, y)
      {
        var (signal, before, after, faults) := changes[i];
        if Changed(before, after) {
          state := ReportSignal(signal, Some(ChangePrint(before, after)), faults);
          if state.None? || state.value.Quarantined? { return; }
        }
      }
    }
  }
}
