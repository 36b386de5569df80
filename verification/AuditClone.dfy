/** The budgeted clone of audit metadata: src/audit/auditDispatcher.ts.

    Metadata is an arbitrary graph of objects, possibly cyclic or shared, so the objects live in
    a heap and values refer to them by identity.  A clone is a tree. */
module AuditClone {
  import opened Options
  import opened Sequences

  const MAX_METADATA_DEPTH := 8
  const MAX_METADATA_NODES := 2048
  const MAX_OBJECT_KEYS := 64
  const MAX_ARRAY_ITEMS := 128
  const MAX_METADATA_STRING_LENGTH := 2048
  const MAX_KEY_LENGTH := 128
  const BLOCKED_KEYS := {"__proto__", "constructor", "prototype"}

  type Digits = s: string | forall c | c in s :: c == '-' || '0' <= c <= '9' witness "0"

  /** What `toISOString` renders. */
  type IsoText = s: string | |s| <= 27 && '[' !in s witness ""

  datatype Kind = Undefined | Function | Symbol

  /** Numbers are kept bit for bit; a bigint is given by its decimal text. */
  datatype Value =
    | Null
    | Bool(b: bool)
    | Num(bits: int)
    | Str(s: string)
    | BigInt(text: Digits)
    | Other(kind: Kind)
    | Ref(id: nat)

  /** An invalid date has no text.  `Object.entries` throws on an unreadable object; a faulty one
      throws before that, as a revoked proxy or an array with a throwing element does.  Arrays may
      have holes; entries come in the order in which the runtime enumerates them. */
  datatype Node =
    | Date(iso: Option<IsoText>)
    | Arr(items: seq<Option<Value>>)
    | Obj(entries: seq<(string, Value)>)
    | Unreadable
    | Faulty

  type Heap = nat -> Node

  datatype Clone =
    | CNull
    | CBool(b: bool)
    | CNum(bits: int)
    | CStr(s: string)
    | CArr(items: seq<Slot>)
    | CObj(fields: seq<Field>)

  datatype Slot = Hole | Filled(value: Clone)

  datatype Field = Field(key: string, value: Clone)

  /** `seen` lists the members of the weak set in the order they were added. */
  datatype State = State(remaining: int, seen: seq<nat>)

  /** `s.slice(0, n)`. */
  function Take<T>(s: seq<T>, n: nat): (r: seq<T>)
    ensures |r| == (if |s| < n then |s| else n) && r <= s
  {
    if |s| <= n then s else s[..n]
  }

  function IndexOf(fields: seq<Field>, key: string): (i: nat)
    ensures i <= |fields| && (forall j | 0 <= j < i :: fields[j].key != key)
    ensures i < |fields| ==> fields[i].key == key
  {
    if fields == [] || fields[0].key == key then 0 else 1 + IndexOf(fields[1..], key)
  }

  /** Assigning a property: a key keeps its place when it is assigned again. */
  function Put(fields: seq<Field>, key: string, value: Clone): seq<Field> {
    var i := IndexOf(fields, key);
    if i < |fields| then fields[i := Field(key, value)] else fields + [Field(key, value)]
  }

  function KindText(kind: Kind): string {
    match kind
    case Undefined => "[undefined]"
    case Function => "[function]"
    case Symbol => "[symbol]"
  }

  // ----- the specification: a function of budget and seen set; None is a thrown exception -----

  function Levels(depth: nat): nat {
    if depth < MAX_METADATA_DEPTH then MAX_METADATA_DEPTH - depth else 0
  }

  function CloneValue(h: Heap, v: Value, depth: nat, st: State): (State, Option<Clone>)
    decreases Levels(depth), 0
  {
    var st1 := st.(remaining := st.remaining - 1);
    if st1.remaining < 0 then (st1, Some(CStr("[metadata limit reached]")))
    else
      match v
      case Null => (st1, Some(CNull))
      case Bool(b) => (st1, Some(CBool(b)))
      case Num(bits) => (st1, Some(CNum(bits)))
      case Str(s) => (st1, Some(CStr(Take(s, MAX_METADATA_STRING_LENGTH))))
      case BigInt(text) => (st1, Some(CStr(text)))
      case Other(kind) => (st1, Some(CStr(KindText(kind))))
      case Ref(id) =>
        if depth >= MAX_METADATA_DEPTH then (st1, Some(CStr("[depth limit reached]")))
        else if id in st1.seen then (st1, Some(CStr("[circular]")))
        else
          var st2 := st1.(seen := st1.seen + [id]);
          match h(id)
          case Date(iso) => (st2, Some(CStr(if iso.None? then "[invalid date]" else iso.value)))
          case Faulty => (st2, None)
          case Unreadable => (st2, Some(CStr("[unreadable metadata]")))
          case Arr(items) =>
            var (st3, r) := CloneItems(h, Take(items, MAX_ARRAY_ITEMS), depth + 1, st2);
            (st3, if r.None? then None else Some(CArr(r.value)))
          case Obj(entries) =>
            var (st3, fields) := CloneEntries(h, Take(entries, MAX_OBJECT_KEYS), depth + 1, st2);
            (st3, Some(CObj(fields)))
  }

  /** An exception in an element passes through the array; holes stay and cost nothing. */
  function CloneItems(h: Heap, items: seq<Option<Value>>, depth: nat, st: State): (State, Option<seq<Slot>>)
    decreases Levels(depth), |items| + 1
  {
    if items == [] then (st, Some([]))
    else
      var (st1, former) := CloneItems(h, items[..|items| - 1], depth, st);
      if former.None? then (st1, None)
      else if items[|items| - 1].None? then (st1, Some(former.value + [Hole]))
      else
        var (st2, last) := CloneValue(h, items[|items| - 1].value, depth, st1);
        (st2, if last.None? then None else Some(former.value + [Filled(last.value)]))
  }

  /** An exception in a property stops there. */
  function CloneEntries(h: Heap, entries: seq<(string, Value)>, depth: nat, st: State): (State, seq<Field>)
    decreases Levels(depth), |entries| + 1
  {
    if entries == [] then (st, [])
    else
      var (key, child) := entries[|entries| - 1];
      var (st1, fields) := CloneEntries(h, entries[..|entries| - 1], depth, st);
      if key in BLOCKED_KEYS then (st1, fields)
      else
        var (st2, r) := CloneValue(h, child, depth, st1);
        (st2, Put(fields, Take(key, MAX_KEY_LENGTH), if r.None? then CStr("[unreadable value]") else r.value))
  }

  // ----- the traversal, mutating budget and seen set -----

  class AuditCloner {
    const heap: Heap
    var remaining: int
    var seen: seq<nat>

    constructor (heap: Heap)
      ensures this.heap == heap && Current() == State(MAX_METADATA_NODES, [])
    {
      this.heap, remaining, seen := heap, MAX_METADATA_NODES, [];
    }

    function Current(): State
      reads this
    {
      State(remaining, seen)
    }

    method CloneAuditValue(value: Value, depth: nat) returns (r: Option<Clone>)
      modifies this
      ensures (Current(), r) == CloneValue(heap, value, depth, old(Current()))
      decreases Levels(depth)
    {
      remaining := remaining - 1;
      if remaining < 0 { return Some(CStr("[metadata limit reached]")); }
      match value {
        case Null => return Some(CNull);
        case Bool(b) => return Some(CBool(b));
        case Num(bits) => return Some(CNum(bits));
        case Str(s) => return Some(CStr(Take(s, MAX_METADATA_STRING_LENGTH)));
        case BigInt(text) => return Some(CStr(text));
        case Other(kind) => return Some(CStr(KindText(kind)));
        case Ref(id) =>
          if depth >= MAX_METADATA_DEPTH { return Some(CStr("[depth limit reached]")); }
          if id in seen { return Some(CStr("[circular]")); }
          seen := seen + [id];
          match heap(id) {
            case Date(iso) => return Some(CStr(if iso.None? then "[invalid date]" else iso.value));
            case Faulty => return None;
            case Unreadable => return Some(CStr("[unreadable metadata]"));
            case Arr(items) => r := CloneArray(Take(items, MAX_ARRAY_ITEMS), depth);
            case Obj(entries) => r := CloneObject(Take(entries, MAX_OBJECT_KEYS), depth);
          }
      }
    }

    method CloneArray(items: seq<Option<Value>>, depth: nat) returns (r: Option<Clone>)
      requires depth < MAX_METADATA_DEPTH
      modifies this
      ensures var (st, all) := CloneItems(heap, items, depth + 1, old(Current()));
              Current() == st && r == if all.None? then None else Some(CArr(all.value))
      decreases Levels(depth), 0
    {
      var cloned := [];
      for i := 0 to |items|
        invariant CloneItems(heap, items[..i], depth + 1, old(Current())) == (Current(), Some(cloned))
      {
        assert items[..i + 1][..i] == items[..i];
        if items[i].None? {
          cloned := cloned + [Hole];
          continue;
        }
        var entry := CloneAuditValue(items[i].value, depth + 1);
        if entry.None? {
          ThrowsAreFinal(heap, items, i + 1, depth + 1, old(Current()));
          return None;
        }
        cloned := cloned + [Filled(entry.value)];
      }
      assert items[..|items|] == items;
      r := Some(CArr(cloned));
    }

    method CloneObject(entries: seq<(string, Value)>, depth: nat) returns (r: Option<Clone>)
      requires depth < MAX_METADATA_DEPTH
      modifies this
      ensures var (st, fields) := CloneEntries(heap, entries, depth + 1, old(Current()));
              Current() == st && r == Some(CObj(fields))
      decreases Levels(depth), 0
    {
      var cloned := [];
      for i := 0 to |entries|
        invariant CloneEntries(heap, entries[..i], depth + 1, old(Current())) == (Current(), cloned)
      {
        assert entries[..i + 1][..i] == entries[..i];
        var (key, child) := entries[i];
        if key in BLOCKED_KEYS { continue; }
        var value := CloneAuditValue(child, depth + 1);
        cloned := Put(cloned, Take(key, MAX_KEY_LENGTH), if value.None? then CStr("[unreadable value]") else value.value);
      }
      assert entries[..|entries|] == entries;
      r := Some(CObj(cloned));
    }
  }

  /** Once an element throws, so does the array, with the state of that moment. */
  lemma {:induction false} ThrowsAreFinal(h: Heap, items: seq<Option<Value>>, i: nat, depth: nat, st: State)
    requires i <= |items| && CloneItems(h, items[..i], depth, st).1.None?
    ensures CloneItems(h, items, depth, st) == CloneItems(h, items[..i], depth, st)
    decreases |items| - i
  {
    if i < |items| {
      assert items[..i + 1][..i] == items[..i];
      ThrowsAreFinal(h, items, i + 1, depth, st);
    } else {
      assert items[..i] == items;
    }
  }

  // ----- limits -----

  /** What a sink can rely on: height, widths, key lengths and string lengths; only the given
      texts may be longer. */
  ghost predicate Bounded(c: Clone, height: nat, texts: iset<string>) {
    match c
    case CStr(s) => |s| <= 2048 || s in texts
    case CArr(items) =>
      && height > 0 && |items| <= 128
      && forall x | x in items && x.Filled? :: Bounded(x.value, height - 1, texts)
    case CObj(fields) =>
      && height > 0 && |fields| <= 64
      && forall f | f in fields :: BoundedField(f, height - 1, texts)
    case _ => true
  }

  ghost predicate BoundedField(f: Field, height: nat, texts: iset<string>) {
    |f.key| <= 128 && f.key !in BLOCKED_KEYS && Bounded(f.value, height, texts)
  }

  ghost predicate Listed(v: Value, texts: iset<string>) {
    v.BigInt? ==> v.text in texts
  }

  /** Every bigint of the graph is among the texts. */
  ghost predicate Covers(h: Heap, v: Value, texts: iset<string>) {
    && Listed(v, texts)
    && (forall id: nat | h(id).Arr? :: forall x | x in h(id).items && x.Some? :: Listed(x.value, texts))
    && (forall id: nat | h(id).Obj? :: forall e | e in h(id).entries :: Listed(e.1, texts))
  }

  function Nodes(c: Clone): nat {
    match c
    case CArr(items) => 1 + NodesOfItems(items)
    case CObj(fields) => 1 + NodesOfFields(fields)
    case _ => 1
  }

  function NodesOfItems(items: seq<Slot>): nat {
    if items == [] then 0
    else
      NodesOfItems(items[..|items| - 1]) + NodesOfSlot(items[|items| - 1])
  }

  function NodesOfSlot(slot: Slot): nat {
    match slot
    case Hole => 0
    case Filled(c) => Nodes(c)
  }

  function NodesOfFields(fields: seq<Field>): nat {
    if fields == [] then 0
    else
      var last := fields[|fields| - 1];
      NodesOfFields(fields[..|fields| - 1]) + Nodes(last.value)
  }

  function Positive(n: int): nat {
    if n < 0 then 0 else n
  }

  /** The run from `st` to `st'` visited at most `roots` values of its own plus the children of
      the objects it expanded, expanded each object at most once, and paid for each expansion
      with a visit that passed the budget check. */
  ghost predicate Spends(st: State, st': State, roots: nat) {
    && st.seen <= st'.seen
    && (Distinct(st.seen) ==> Distinct(st'.seen))
    && st'.remaining <= st.remaining
    && st.remaining - st'.remaining <= roots + MAX_ARRAY_ITEMS * (|st'.seen| - |st.seen|)
    && |st'.seen| - |st.seen| <= Positive(st.remaining) - Positive(st'.remaining)
  }

  lemma SpendsMore(a: State, b: State, m: nat, n: nat)
    requires Spends(a, b, m) && m <= n
    ensures Spends(a, b, n)
  {
  }

  lemma SpendsTransitive(a: State, b: State, c: State, m: nat, n: nat)
    requires Spends(a, b, m) && Spends(b, c, n)
    ensures Spends(a, c, m + n)
  {
  }

  lemma {:induction false} NodesOfUpdate(fields: seq<Field>, i: nat, f: Field)
    requires i < |fields|
    ensures NodesOfFields(fields[i := f]) <= NodesOfFields(fields) + Nodes(f.value)
  {
    var init, last := fields[..|fields| - 1], |fields| - 1;
    if i < last {
      NodesOfUpdate(init, i, f);
      assert fields[i := f][..last] == init[i := f];
    } else {
      assert fields[i := f][..last] == init;
    }
  }

  /** An assignment reaches the property with that key and leaves every other alone; a new property
      goes to the end. */
  lemma PutAssigns(fields: seq<Field>, key: string, value: Clone)
    requires Distinct(FieldKeys(fields))
    ensures var r := Put(fields, key, value);
            if key in FieldKeys(fields) then
              && |r| == |fields|
              && forall i | 0 <= i < |fields| :: r[i] == if fields[i].key == key then Field(key, value) else fields[i]
            else r == fields + [Field(key, value)]
  {
    forall i | 0 <= i < |fields| ensures fields[i].key in FieldKeys(fields) {
      assert FieldKeys(fields)[i] == fields[i].key;
    }
    var i := IndexOf(fields, key);
    forall j | 0 <= j < |fields| && j != i && i < |fields| ensures fields[j].key != key {
      assert FieldKeys(fields)[j] != FieldKeys(fields)[i];
    }
  }

  lemma PutFacts(fields: seq<Field>, key: string, value: Clone)
    ensures |Put(fields, key, value)| <= |fields| + 1
    ensures NodesOfFields(Put(fields, key, value)) <= NodesOfFields(fields) + Nodes(value)
    ensures forall f | f in Put(fields, key, value) :: f in fields || f == Field(key, value)
  {
    var i := IndexOf(fields, key);
    if i < |fields| { NodesOfUpdate(fields, i, Field(key, value)); }
    assert (fields + [Field(key, value)])[..|fields|] == fields;
  }

  lemma SpendsNothing(st: State)
    ensures Spends(st, st, 0)
  {
  }

  /** The visit of a value that is not expanded. */
  lemma SpendsVisit(st: State)
    ensures Spends(st, State(st.remaining - 1, st.seen), 1)
  {
  }

  /** The visit of an object and of at most 128 children. */
  lemma SpendsExpansion(st: State, id: nat, st': State, children: nat)
    requires st.remaining > 0 && id !in st.seen && children <= MAX_ARRAY_ITEMS
    requires Spends(State(st.remaining - 1, st.seen + [id]), st', children)
    ensures Spends(st, st', 1)
  {
  }

  lemma {:induction false} ValueLimits(h: Heap, v: Value, depth: nat, st: State, texts: iset<string>)
    requires Covers(h, v, texts)
    ensures var (st', r) := CloneValue(h, v, depth, st);
            && Spends(st, st', 1) && st'.remaining < st.remaining
            && (r.Some? ==> Bounded(r.value, Levels(depth), texts) && Nodes(r.value) <= st.remaining - st'.remaining)
    decreases Levels(depth), 1
  {
    if v.Ref? && st.remaining > 0 && depth < MAX_METADATA_DEPTH && v.id !in st.seen {
      ExpansionLimits(h, v.id, depth, st, texts);
    } else {
      hide Spends;
      SpendsVisit(st);
    }
  }

  lemma {:induction false} ExpansionLimits(h: Heap, id: nat, depth: nat, st: State, texts: iset<string>)
    requires Covers(h, Ref(id), texts)
    requires st.remaining > 0 && depth < MAX_METADATA_DEPTH && id !in st.seen
    ensures var (st', r) := CloneValue(h, Ref(id), depth, st);
            && Spends(st, st', 1) && st'.remaining < st.remaining
            && (r.Some? ==> Bounded(r.value, Levels(depth), texts) && Nodes(r.value) <= st.remaining - st'.remaining)
    decreases Levels(depth), 0
  {
    var st2 := State(st.remaining - 1, st.seen + [id]);
    hide Spends, CloneItems, CloneEntries, NodesOfItems, NodesOfFields;
    match h(id)
    case Arr(items) =>
      var few := Take(items, MAX_ARRAY_ITEMS);
      ItemsLimits(h, few, depth + 1, st2, texts);
      SpendsExpansion(st, id, CloneItems(h, few, depth + 1, st2).0, |few|);
    case Obj(entries) =>
      var few := Take(entries, MAX_OBJECT_KEYS);
      EntriesLimits(h, few, depth + 1, st2, texts);
      SpendsExpansion(st, id, CloneEntries(h, few, depth + 1, st2).0, |few|);
    case _ =>
      SpendsNothing(st2);
      SpendsExpansion(st, id, st2, 0);
  }

  lemma {:induction false} ItemsLimits(h: Heap, items: seq<Option<Value>>, depth: nat, st: State, texts: iset<string>)
    requires Covers(h, Null, texts) && forall x | x in items && x.Some? :: Listed(x.value, texts)
    ensures var (st', r) := CloneItems(h, items, depth, st);
            && Spends(st, st', |items|) && st'.remaining <= st.remaining
            && (r.Some? ==>
                  && |r.value| == |items| && (forall c | c in r.value && c.Filled? :: Bounded(c.value, Levels(depth), texts))
                  && NodesOfItems(r.value) <= st.remaining - st'.remaining)
    decreases Levels(depth), |items| + 1
  {
    hide Spends;
    SpendsNothing(st);
    if items != [] {
      var init, last := items[..|items| - 1], items[|items| - 1];
      ItemsLimits(h, init, depth, st, texts);
      var (st1, former) := CloneItems(h, init, depth, st);
      SpendsMore(st, st1, |init|, |items|);
      if former.Some? && last.None? {
        assert (former.value + [Hole])[..|former.value|] == former.value;
      } else if former.Some? {
        ValueLimits(h, last.value, depth, st1, texts);
        var (st2, c) := CloneValue(h, last.value, depth, st1);
        SpendsTransitive(st, st1, st2, |init|, 1);
        assert |init| + 1 == |items|;
        if c.Some? { assert (former.value + [Filled(c.value)])[..|former.value|] == former.value; }
      }
    }
  }

  lemma {:induction false} EntriesLimits(h: Heap, entries: seq<(string, Value)>, depth: nat, st: State, texts: iset<string>)
    requires Covers(h, Null, texts) && forall e | e in entries :: Listed(e.1, texts)
    ensures var (st', fields) := CloneEntries(h, entries, depth, st);
            && Spends(st, st', |entries|) && st'.remaining <= st.remaining
            && |fields| <= |entries|
            && (forall f | f in fields :: BoundedField(f, Levels(depth), texts))
            && NodesOfFields(fields) <= st.remaining - st'.remaining
    decreases Levels(depth), |entries| + 1
  {
    hide Spends, Put;
    SpendsNothing(st);
    if entries != [] {
      var init := entries[..|entries| - 1];
      var (key, child) := entries[|entries| - 1];
      EntriesLimits(h, init, depth, st, texts);
      var (st1, fields) := CloneEntries(h, init, depth, st);
      SpendsMore(st, st1, |init|, |entries|);
      if key !in BLOCKED_KEYS {
        ValueLimits(h, child, depth, st1, texts);
        var (st2, r) := CloneValue(h, child, depth, st1);
        SpendsTransitive(st, st1, st2, |init|, 1);
        assert |init| + 1 == |entries|;
        PutFacts(fields, Take(key, MAX_KEY_LENGTH), if r.None? then CStr("[unreadable value]") else r.value);
      }
    }
  }

  /** Every object graph, cyclic or shared, becomes a tree within the limits: each object is
      expanded at most once and at most 2048 of them in all, the visits are at most the root
      and 128 for each expanded object, and the tree has no more nodes than there were visits.
      Only the text of a bigint of the graph can exceed the length limit of strings. */
  lemma MetadataIsBounded(h: Heap, v: Value, texts: iset<string>)
    requires Covers(h, v, texts)
    ensures var (st, r) := CloneValue(h, v, 0, State(MAX_METADATA_NODES, []));
            var visits := 2048 - st.remaining;
            && Distinct(st.seen) && |st.seen| <= 2048
            && 1 <= visits <= 1 + 128 * |st.seen|
            && (r.Some? ==> Bounded(r.value, 8, texts) && Nodes(r.value) <= visits)
            && (v.Ref? && h(v.id).Obj? ==> r.Some?)
  {
    ValueLimits(h, v, 0, State(MAX_METADATA_NODES, []), texts);
  }

  /** The length limit of strings does not reach a bigint: its text keeps it exactly when it
      keeps it by itself. */
  lemma BigIntsAreNotCut(h: Heap, text: Digits)
    ensures var r := CloneValue(h, BigInt(text), 0, State(MAX_METADATA_NODES, [])).1;
            && r == Some(CStr(text))
            && (Bounded(r.value, 8, iset{}) <==> |text| <= 2048)
  {
  }

  // ----- copies -----

  /** What a walk without budget and without memory visits, reaches and copies. */
  datatype Walked<T> = Walked(visits: nat, ids: seq<nat>, copy: T)

  /** The deep copy in which every object is copied each time it is reached, cut at the limits of
      depth, width and length: how many values the walk visits, the objects in the order it meets
      them, one mention for each way to reach them, and the copy, or None for an exception. */
  function Walk(h: Heap, v: Value, depth: nat): Walked<Option<Clone>>
    decreases Levels(depth), 1
  {
    match v
    case Null => Walked(1, [], Some(CNull))
    case Bool(b) => Walked(1, [], Some(CBool(b)))
    case Num(bits) => Walked(1, [], Some(CNum(bits)))
    case Str(s) => Walked(1, [], Some(CStr(Take(s, 2048))))
    case BigInt(text) => Walked(1, [], Some(CStr(text)))
    case Other(Undefined) => Walked(1, [], Some(CStr("[undefined]")))
    case Other(Function) => Walked(1, [], Some(CStr("[function]")))
    case Other(Symbol) => Walked(1, [], Some(CStr("[symbol]")))
    case Ref(id) => if depth >= 8 then Walked(1, [], Some(CStr("[depth limit reached]"))) else WalkNode(h, id, depth)
  }

  function WalkNode(h: Heap, id: nat, depth: nat): Walked<Option<Clone>>
    requires depth < 8
    decreases Levels(depth), 0
  {
    match h(id)
    case Date(None) => Walked(1, [id], Some(CStr("[invalid date]")))
    case Date(Some(iso)) => Walked(1, [id], Some(CStr(iso)))
    case Faulty => Walked(1, [id], None)
    case Unreadable => Walked(1, [id], Some(CStr("[unreadable metadata]")))
    case Arr(items) =>
      var w := WalkItems(h, Take(items, 128), depth + 1);
      Walked(1 + w.visits, [id] + w.ids, if w.copy.None? then None else Some(CArr(w.copy.value)))
    case Obj(entries) =>
      var w := WalkEntries(h, Take(entries, 64), depth + 1);
      Walked(1 + w.visits, [id] + w.ids, Some(CObj(w.copy)))
  }

  function WalkItems(h: Heap, items: seq<Option<Value>>, depth: nat): Walked<Option<seq<Slot>>>
    decreases Levels(depth), |items| + 2
  {
    if items == [] then Walked(0, [], Some([]))
    else
      var former, last := WalkItems(h, items[..|items| - 1], depth), items[|items| - 1];
      if former.copy.None? then former
      else if last.None? then former.(copy := Some(former.copy.value + [Hole]))
      else
        var w := Walk(h, last.value, depth);
        Walked(former.visits + w.visits, former.ids + w.ids,
               if w.copy.None? then None else Some(former.copy.value + [Filled(w.copy.value)]))
  }

  function WalkEntries(h: Heap, entries: seq<(string, Value)>, depth: nat): Walked<seq<Field>>
    decreases Levels(depth), |entries| + 2
  {
    if entries == [] then Walked(0, [], [])
    else
      var former, last := WalkEntries(h, entries[..|entries| - 1], depth), entries[|entries| - 1];
      if last.0 in ["__proto__", "constructor", "prototype"] then former
      else
        var w := Walk(h, last.1, depth);
        Walked(former.visits + w.visits, former.ids + w.ids,
               Put(former.copy, Take(last.0, 128), if w.copy.None? then CStr("[unreadable value]") else w.copy.value))
  }

  lemma DistinctPrefix(s: seq<nat>, t: seq<nat>)
    requires Distinct(s + t)
    ensures Distinct(s)
  {
    forall i, j | 0 <= i < j < |s| ensures s[i] != s[j] {
      assert (s + t)[i] == s[i] && (s + t)[j] == s[j];
    }
  }

  lemma NotInPrefix(s: seq<nat>, id: nat, t: seq<nat>)
    requires Distinct(s + ([id] + t))
    ensures id !in s
  {
    var all := s + ([id] + t);
    assert all[|s|] == id;
    forall i | 0 <= i < |s| ensures s[i] != id {
      assert all[i] == s[i];
    }
  }

  lemma {:induction false} CopiedValue(h: Heap, v: Value, depth: nat, st: State)
    requires Walk(h, v, depth).visits <= st.remaining && Distinct(st.seen + Walk(h, v, depth).ids)
    ensures var w := Walk(h, v, depth);
            CloneValue(h, v, depth, st) == (State(st.remaining - w.visits, st.seen + w.ids), w.copy)
    decreases Levels(depth), 1
  {
    hide CloneItems, CloneEntries, WalkItems, WalkEntries;
    if v.Ref? && depth < 8 {
      var st2 := State(st.remaining - 1, st.seen + [v.id]);
      match h(v.id)
      case Arr(items) =>
        var rest := WalkItems(h, Take(items, 128), depth + 1).ids;
        NotInPrefix(st.seen, v.id, rest);
        assert st.seen + ([v.id] + rest) == st2.seen + rest;
        CopiedItems(h, Take(items, 128), depth + 1, st2);
      case Obj(entries) =>
        var rest := WalkEntries(h, Take(entries, 64), depth + 1).ids;
        NotInPrefix(st.seen, v.id, rest);
        assert st.seen + ([v.id] + rest) == st2.seen + rest;
        CopiedEntries(h, Take(entries, 64), depth + 1, st2);
      case _ =>
        assert [v.id] + [] == [v.id];
        NotInPrefix(st.seen, v.id, []);
    } else {
      assert st.seen + [] == st.seen;
    }
  }

  lemma {:induction false} CopiedItems(h: Heap, items: seq<Option<Value>>, depth: nat, st: State)
    requires WalkItems(h, items, depth).visits <= st.remaining && Distinct(st.seen + WalkItems(h, items, depth).ids)
    ensures var w := WalkItems(h, items, depth);
            CloneItems(h, items, depth, st) == (State(st.remaining - w.visits, st.seen + w.ids), w.copy)
    decreases Levels(depth), |items| + 2
  {
    hide CloneValue, Walk;
    if items == [] {
      assert st.seen + [] == st.seen;
    } else {
      var init, last := items[..|items| - 1], items[|items| - 1];
      var former := WalkItems(h, init, depth);
      if former.copy.Some? && last.Some? {
        var w := Walk(h, last.value, depth);
        assert st.seen + (former.ids + w.ids) == st.seen + former.ids + w.ids;
        DistinctPrefix(st.seen + former.ids, w.ids);
        CopiedItems(h, init, depth, st);
        CopiedValue(h, last.value, depth, CloneItems(h, init, depth, st).0);
      } else {
        CopiedItems(h, init, depth, st);
      }
    }
  }

  lemma {:induction false} CopiedEntries(h: Heap, entries: seq<(string, Value)>, depth: nat, st: State)
    requires WalkEntries(h, entries, depth).visits <= st.remaining
    requires Distinct(st.seen + WalkEntries(h, entries, depth).ids)
    ensures var w := WalkEntries(h, entries, depth);
            CloneEntries(h, entries, depth, st) == (State(st.remaining - w.visits, st.seen + w.ids), w.copy)
    decreases Levels(depth), |entries| + 2
  {
    hide CloneValue, Walk, Put;
    if entries == [] {
      assert st.seen + [] == st.seen;
    } else {
      var init, last := entries[..|entries| - 1], entries[|entries| - 1];
      var former := WalkEntries(h, init, depth);
      if last.0 in BLOCKED_KEYS {
        CopiedEntries(h, init, depth, st);
      } else {
        var w := Walk(h, last.1, depth);
        assert st.seen + (former.ids + w.ids) == st.seen + former.ids + w.ids;
        DistinctPrefix(st.seen + former.ids, w.ids);
        CopiedEntries(h, init, depth, st);
        CopiedValue(h, last.1, depth, CloneEntries(h, init, depth, st).0);
      }
    }
  }

  /** On every graph that the walk visits within the budget and in which it reaches no object
      twice, the clone is the copy, or both throw: whatever the budget and the seen set are for,
      such a graph does not notice them. */
  lemma UnsharedIsCopied(h: Heap, v: Value)
    requires Walk(h, v, 0).visits <= 2048 && Distinct(Walk(h, v, 0).ids)
    ensures CloneValue(h, v, 0, State(MAX_METADATA_NODES, [])).1 == Walk(h, v, 0).copy
  {
    assert [] + Walk(h, v, 0).ids == Walk(h, v, 0).ids;
    CopiedValue(h, v, 0, State(MAX_METADATA_NODES, []));
  }

  // ----- and only those -----

  /** The keys that a clone of these entries has: not blocked, and cut. */
  function KeptKeys(entries: seq<(string, Value)>): seq<string> {
    if entries == [] then []
    else
      var former, key := KeptKeys(entries[..|entries| - 1]), entries[|entries| - 1].0;
      if key in ["__proto__", "constructor", "prototype"] then former else former + [Take(key, 128)]
  }

  /** A graph of any size without objects that throw and without two keys of one object that come
      out the same, as far as the limits let the walk see. */
  predicate Fits(h: Heap, v: Value, depth: nat)
    decreases Levels(depth)
  {
    v.Ref? && depth < 8 ==>
      match h(v.id)
      case Arr(items) => forall x | x in Take(items, 128) && x.Some? :: Fits(h, x.value, depth + 1)
      case Obj(entries) =>
        && Distinct(KeptKeys(Take(entries, 64)))
        && forall e | e in Take(entries, 64) && e.0 !in BLOCKED_KEYS :: Fits(h, e.1, depth + 1)
      case Faulty => false
      case _ => true
  }

  lemma PutNew(fields: seq<Field>, key: string, value: Clone)
    requires forall i | 0 <= i < |fields| :: fields[i].key != key
    ensures Put(fields, key, value) == fields + [Field(key, value)]
  {
  }

  lemma DistinctInit(former: seq<string>, key: string)
    requires Distinct(former + [key])
    ensures Distinct(former) && key !in former
  {
    var all := former + [key];
    assert all[|former|] == key && forall i | 0 <= i < |former| :: all[i] == former[i];
  }

  lemma KeptPrefix(entries: seq<(string, Value)>)
    requires entries != [] && Distinct(KeptKeys(entries))
    ensures Distinct(KeptKeys(entries[..|entries| - 1]))
    ensures entries[|entries| - 1].0 !in BLOCKED_KEYS ==>
              Take(entries[|entries| - 1].0, 128) !in KeptKeys(entries[..|entries| - 1])
  {
    var former, all, key := KeptKeys(entries[..|entries| - 1]), KeptKeys(entries), entries[|entries| - 1].0;
    if key in BLOCKED_KEYS {
      assert all == former;
    } else {
      assert all == former + [Take(key, 128)];
      DistinctInit(former, Take(key, 128));
    }
  }

  lemma {:induction false} ClonedKeys(h: Heap, entries: seq<(string, Value)>, depth: nat, st: State)
    requires Distinct(KeptKeys(entries))
    ensures FieldKeys(CloneEntries(h, entries, depth, st).1) == KeptKeys(entries)
  {
    hide CloneValue, Put, Distinct;
    if entries != [] {
      var init, last := entries[..|entries| - 1], entries[|entries| - 1];
      KeptPrefix(entries);
      ClonedKeys(h, init, depth, st);
      var (st1, fields) := CloneEntries(h, init, depth, st);
      if last.0 !in BLOCKED_KEYS {
        var r := CloneValue(h, last.1, depth, st1).1;
        AppendKey(fields, Take(last.0, 128), if r.None? then CStr("[unreadable value]") else r.value);
      }
    }
  }

  lemma AppendKey(fields: seq<Field>, key: string, value: Clone)
    requires key !in FieldKeys(fields)
    ensures Put(fields, key, value) == fields + [Field(key, value)]
    ensures FieldKeys(Put(fields, key, value)) == FieldKeys(fields) + [key]
  {
    forall i | 0 <= i < |fields| ensures fields[i].key != key { assert FieldKeys(fields)[i] in FieldKeys(fields); }
    PutNew(fields, key, value);
    assert (fields + [Field(key, value)])[..|fields|] == fields;
  }

  lemma {:induction false} WalkedKeys(h: Heap, entries: seq<(string, Value)>, depth: nat)
    requires Distinct(KeptKeys(entries))
    ensures FieldKeys(WalkEntries(h, entries, depth).copy) == KeptKeys(entries)
  {
    hide Walk, Put, Distinct;
    if entries != [] {
      var init, last := entries[..|entries| - 1], entries[|entries| - 1];
      KeptPrefix(entries);
      WalkedKeys(h, init, depth);
      if last.0 !in BLOCKED_KEYS {
        var w := Walk(h, last.1, depth);
        AppendKey(WalkEntries(h, init, depth).copy, Take(last.0, 128),
                  if w.copy.None? then CStr("[unreadable value]") else w.copy.value);
      }
    }
  }

  lemma {:induction false} FitsIsCopied(h: Heap, v: Value, depth: nat)
    requires Fits(h, v, depth)
    ensures Walk(h, v, depth).copy.Some?
    decreases Levels(depth), 1
  {
    hide WalkItems, WalkEntries;
    if v.Ref? && depth < 8 && h(v.id).Arr? { ItemsFit(h, Take(h(v.id).items, 128), depth + 1); }
  }

  lemma {:induction false} ItemsFit(h: Heap, items: seq<Option<Value>>, depth: nat)
    requires forall x | x in items && x.Some? :: Fits(h, x.value, depth)
    ensures WalkItems(h, items, depth).copy.Some?
    decreases Levels(depth), |items| + 2
  {
    hide Walk, Fits;
    if items != [] {
      ItemsFit(h, items[..|items| - 1], depth);
      if items[|items| - 1].Some? { FitsIsCopied(h, items[|items| - 1].value, depth); }
    }
  }

  lemma StringsDoNotThrow(h: Heap, v: Value, depth: nat, st: State)
    requires Fits(h, v, depth) && Walk(h, v, depth).copy.Some? && Walk(h, v, depth).copy.value.CStr?
    ensures CloneValue(h, v, depth, st).1.Some?
  {
  }

  lemma DistinctAppend(s: seq<nat>, id: nat)
    requires Distinct(s) && id !in s
    ensures Distinct(s + [id])
  {
  }

  /** A faithful copy went through every object, each for the first time. */
  lemma {:induction false} FaithfulValue(h: Heap, v: Value, depth: nat, st: State)
    requires Fits(h, v, depth) && Distinct(st.seen)
    requires CloneValue(h, v, depth, st).1 == Walk(h, v, depth).copy
    ensures CloneValue(h, v, depth, st).0.seen == st.seen + Walk(h, v, depth).ids
    ensures Distinct(st.seen + Walk(h, v, depth).ids)
    decreases Levels(depth), 1
  {
    if v.Ref? && depth < 8 {
      FaithfulObject(h, v.id, depth, st);
    } else {
      assert st.seen + [] == st.seen;
    }
  }

  lemma {:induction false} FaithfulObject(h: Heap, id: nat, depth: nat, st: State)
    requires depth < 8 && Fits(h, Ref(id), depth) && Distinct(st.seen)
    requires CloneValue(h, Ref(id), depth, st).1 == Walk(h, Ref(id), depth).copy
    ensures CloneValue(h, Ref(id), depth, st).0.seen == st.seen + Walk(h, Ref(id), depth).ids
    ensures Distinct(st.seen + Walk(h, Ref(id), depth).ids)
    decreases Levels(depth), 0
  {
    hide Distinct, CloneItems, CloneEntries, WalkItems, WalkEntries;
    var st2 := State(st.remaining - 1, st.seen + [id]);
    NotesAreNoCopies(h, id, depth, st);
    DistinctAppend(st.seen, id);
    match h(id)
    case Arr(items) =>
      var few := Take(items, 128);
      ItemsFit(h, few, depth + 1);
      FaithfulItems(h, few, depth + 1, st2);
      assert st.seen + ([id] + WalkItems(h, few, depth + 1).ids) == st2.seen + WalkItems(h, few, depth + 1).ids;
    case Obj(entries) =>
      var few := Take(entries, 64);
      FaithfulEntries(h, few, depth + 1, st2);
      assert st.seen + ([id] + WalkEntries(h, few, depth + 1).ids) == st2.seen + WalkEntries(h, few, depth + 1).ids;
    case _ =>
  }

  /** An object that is not expanded does not look like its copy. */
  lemma NotesAreNoCopies(h: Heap, id: nat, depth: nat, st: State)
    requires depth < 8 && Fits(h, Ref(id), depth)
    requires CloneValue(h, Ref(id), depth, st).1 == Walk(h, Ref(id), depth).copy
    ensures st.remaining > 0 && id !in st.seen
  {
    hide CloneItems, CloneEntries, WalkItems, WalkEntries;
    assert "[circular]"[0] == '[' && "[metadata limit reached]"[0] == '[';
    assert |"[circular]"| == 10 && |"[metadata limit reached]"| == 24 && |"[invalid date]"| == 14;
    assert |"[unreadable metadata]"| == 21;
  }

  lemma {:induction false} FaithfulItems(h: Heap, items: seq<Option<Value>>, depth: nat, st: State)
    requires (forall x | x in items && x.Some? :: Fits(h, x.value, depth)) && Distinct(st.seen)
    requires WalkItems(h, items, depth).copy.Some? && CloneItems(h, items, depth, st).1 == WalkItems(h, items, depth).copy
    ensures CloneItems(h, items, depth, st).0.seen == st.seen + WalkItems(h, items, depth).ids
    ensures Distinct(st.seen + WalkItems(h, items, depth).ids)
    decreases Levels(depth), |items| + 1
  {
    hide CloneValue, Walk, Fits, Distinct;
    if items != [] {
      var init, last := items[..|items| - 1], items[|items| - 1];
      var (st1, former) := CloneItems(h, init, depth, st);
      var walked := WalkItems(h, init, depth);
      if last.None? {
        LastOf(former.value, Hole, walked.copy.value, Hole);
        FaithfulItems(h, init, depth, st);
      } else {
        var r, w := CloneValue(h, last.value, depth, st1).1, Walk(h, last.value, depth);
        LastOf(former.value, Filled(r.value), walked.copy.value, Filled(w.copy.value));
        FaithfulItems(h, init, depth, st);
        FaithfulValue(h, last.value, depth, st1);
        assert st.seen + (walked.ids + w.ids) == st1.seen + w.ids;
      }
    } else {
      assert st.seen + [] == st.seen;
    }
  }

  lemma FaithfulLastEntry(h: Heap, entries: seq<(string, Value)>, depth: nat, st: State)
    requires entries != [] && Distinct(KeptKeys(entries)) && entries[|entries| - 1].0 !in BLOCKED_KEYS
    requires Fits(h, entries[|entries| - 1].1, depth)
    requires CloneEntries(h, entries, depth, st).1 == WalkEntries(h, entries, depth).copy
    ensures var init, last := entries[..|entries| - 1], entries[|entries| - 1];
            var (st1, fields) := CloneEntries(h, init, depth, st);
            && fields == WalkEntries(h, init, depth).copy
            && CloneValue(h, last.1, depth, st1) == (CloneEntries(h, entries, depth, st).0, Walk(h, last.1, depth).copy)
  {
    hide CloneValue, Walk, Fits, Put;
    var init, last := entries[..|entries| - 1], entries[|entries| - 1];
    var (st1, former) := CloneEntries(h, init, depth, st);
    var r, w, key := CloneValue(h, last.1, depth, st1).1, Walk(h, last.1, depth), Take(last.0, 128);
    var value := if r.None? then CStr("[unreadable value]") else r.value;
    var walked := WalkEntries(h, init, depth).copy;
    FitsIsCopied(h, last.1, depth);
    KeptPrefix(entries);
    ClonedKeys(h, init, depth, st);
    WalkedKeys(h, init, depth);
    AppendKey(former, key, value);
    AppendKey(walked, key, w.copy.value);
    LastOf(former, Field(key, value), walked, Field(key, w.copy.value));
    if r.None? { StringsDoNotThrow(h, last.1, depth, st1); }
  }

  lemma {:induction false} FaithfulEntries(h: Heap, entries: seq<(string, Value)>, depth: nat, st: State)
    requires Distinct(KeptKeys(entries)) && Distinct(st.seen)
    requires forall e | e in entries && e.0 !in BLOCKED_KEYS :: Fits(h, e.1, depth)
    requires CloneEntries(h, entries, depth, st).1 == WalkEntries(h, entries, depth).copy
    ensures CloneEntries(h, entries, depth, st).0.seen == st.seen + WalkEntries(h, entries, depth).ids
    ensures Distinct(st.seen + WalkEntries(h, entries, depth).ids)
    decreases Levels(depth), |entries| + 1
  {
    hide CloneValue, Walk, Fits, Distinct, Put;
    if entries != [] {
      var init, last := entries[..|entries| - 1], entries[|entries| - 1];
      KeptPrefix(entries);
      assert last in entries && forall e | e in init :: e in entries;
      if last.0 !in BLOCKED_KEYS { FaithfulLastEntry(h, entries, depth, st); }
      FaithfulEntries(h, init, depth, st);
      if last.0 !in BLOCKED_KEYS {
        var st1 := CloneEntries(h, init, depth, st).0;
        FaithfulValue(h, last.1, depth, st1);
        var ids := Walk(h, last.1, depth).ids;
        assert st.seen + (WalkEntries(h, init, depth).ids + ids) == st1.seen + ids;
      }
    } else {
      assert st.seen + [] == st.seen;
    }
  }

  lemma LastOf<T>(s: seq<T>, x: T, t: seq<T>, y: T)
    requires s + [x] == t + [y]
    ensures s == t && x == y
  {
    assert (s + [x])[..|s|] == s && (t + [y])[..|t|] == t;
    assert (s + [x])[|s|] == x && (t + [y])[|t|] == y;
  }

  /** Data within the budget comes back as its copy exactly when no object in it is reached twice;
      sharing without a cycle is enough to lose it.  Nothing limits its depth, its widths or its
      strings: the copy keeps the first 2048 characters, the first 128 elements, the first 64
      properties, the first 128 characters of a key, and eight levels. */
  lemma CopiedIffUnshared(h: Heap, v: Value)
    requires Fits(h, v, 0) && Walk(h, v, 0).visits <= 2048
    ensures CloneValue(h, v, 0, State(MAX_METADATA_NODES, [])).1 == Walk(h, v, 0).copy <==> Distinct(Walk(h, v, 0).ids)
  {
    assert [] + Walk(h, v, 0).ids == Walk(h, v, 0).ids;
    if Distinct(Walk(h, v, 0).ids) { UnsharedIsCopied(h, v); }
    if CloneValue(h, v, 0, State(MAX_METADATA_NODES, [])).1 == Walk(h, v, 0).copy {
      FaithfulValue(h, v, 0, State(MAX_METADATA_NODES, []));
    }
  }

  /** The budget such data needs is exactly the size of its copy. */
  lemma {:induction false} VisitsAreNodes(h: Heap, v: Value, depth: nat)
    requires Fits(h, v, depth)
    ensures var w := Walk(h, v, depth); w.copy.Some? && w.visits == Nodes(w.copy.value)
    decreases Levels(depth), 1
  {
    hide WalkItems, WalkEntries, NodesOfItems, NodesOfFields, KeptKeys, Distinct;
    FitsIsCopied(h, v, depth);
    if v.Ref? && depth < 8 {
      match h(v.id)
      case Arr(items) => VisitsOfItems(h, Take(items, 128), depth + 1);
      case Obj(entries) => VisitsOfEntries(h, Take(entries, 64), depth + 1);
      case _ =>
    }
  }

  lemma NodesWithOneMore(former: seq<Slot>, slot: Slot)
    ensures NodesOfItems(former + [slot]) == NodesOfItems(former) + NodesOfSlot(slot)
  {
    assert (former + [slot])[..|former|] == former;
  }

  lemma FieldsWithOneMore(former: seq<Field>, f: Field)
    ensures NodesOfFields(former + [f]) == NodesOfFields(former) + Nodes(f.value)
  {
    assert (former + [f])[..|former|] == former;
  }

  lemma {:induction false} VisitsOfItems(h: Heap, items: seq<Option<Value>>, depth: nat)
    requires forall x | x in items && x.Some? :: Fits(h, x.value, depth)
    ensures var w := WalkItems(h, items, depth); w.copy.Some? && w.visits == NodesOfItems(w.copy.value)
    decreases Levels(depth), |items| + 2
  {
    hide Walk, Fits, Nodes, NodesOfItems;
    if items == [] {
      NoNodes();
    } else {
      var init, last := items[..|items| - 1], items[|items| - 1];
      VisitsOfItems(h, init, depth);
      var former := WalkItems(h, init, depth).copy.value;
      if last.Some? {
        VisitsAreNodes(h, last.value, depth);
        NodesWithOneMore(former, Filled(Walk(h, last.value, depth).copy.value));
      } else {
        NodesWithOneMore(former, Hole);
      }
    }
  }

  lemma NoNodes()
    ensures NodesOfItems([]) == 0 && NodesOfFields([]) == 0
  {
  }

  lemma {:induction false} VisitsOfEntries(h: Heap, entries: seq<(string, Value)>, depth: nat)
    requires Distinct(KeptKeys(entries)) && forall e | e in entries && e.0 !in BLOCKED_KEYS :: Fits(h, e.1, depth)
    ensures var w := WalkEntries(h, entries, depth); w.visits == NodesOfFields(w.copy)
    decreases Levels(depth), |entries| + 2
  {
    hide Walk, Fits, Nodes, NodesOfFields, Put, Distinct, KeptKeys;
    if entries == [] {
      NoNodes();
    } else {
      var init, last := entries[..|entries| - 1], entries[|entries| - 1];
      KeptPrefix(entries);
      VisitsOfEntries(h, init, depth);
      if last.0 !in BLOCKED_KEYS {
        VisitsAreNodes(h, last.1, depth);
        WalkedKeys(h, init, depth);
        var former, value := WalkEntries(h, init, depth).copy, Walk(h, last.1, depth).copy.value;
        AppendKey(former, Take(last.0, 128), value);
        FieldsWithOneMore(former, Field(Take(last.0, 128), value));
      }
    }
  }

  /** A graph without a cycle that does not come back: an array that holds one empty array twice. */
  lemma SharedArrayIsLost()
    ensures var h: Heap := id => if id == 0 then Arr([Some(Ref(1)), Some(Ref(1))]) else Arr([]);
            && Fits(h, Ref(0), 0) && Walk(h, Ref(0), 0).visits <= 2048
            && CloneValue(h, Ref(0), 0, State(MAX_METADATA_NODES, [])).1 != Walk(h, Ref(0), 0).copy
  {
    var h: Heap := id => if id == 0 then Arr([Some(Ref(1)), Some(Ref(1))]) else Arr([]);
    TwiceEmpty(h);
    hide Fits, Walk, CloneValue;
    assert [0, 1, 1][1] == [0, 1, 1][2];
    CopiedIffUnshared(h, Ref(0));
  }

  lemma EmptyArray(h: Heap, id: nat, depth: nat)
    requires h(id) == Arr([]) && depth < 8
    ensures Fits(h, Ref(id), depth) && Walk(h, Ref(id), depth) == Walked(1, [id], Some(CArr([])))
  {
    assert [id] + [] == [id] && Take(h(id).items, 128) == [];
    assert WalkItems(h, [], depth + 1) == Walked(0, [], Some([]));
  }

  lemma TwiceEmpty(h: Heap)
    requires h(0) == Arr([Some(Ref(1)), Some(Ref(1))]) && h(1) == Arr([])
    ensures Fits(h, Ref(0), 0) && Walk(h, Ref(0), 0).visits == 3 && Walk(h, Ref(0), 0).ids == [0, 1, 1]
  {
    EmptyArray(h, 1, 1);
    assert Fits(h, Ref(0), 0);
    var one, two := [Some(Ref(1))], [Some(Ref(1)), Some(Ref(1))];
    assert two[..1] == one && one[..0] == [];
    hide Fits, Walk;
    assert WalkItems(h, one, 1) == Walked(1, [] + [1], Some([] + [Filled(CArr([]))]));
    assert WalkItems(h, two, 1).visits == 2 && WalkItems(h, two, 1).ids == [1, 1];
    WalkedArray(h, two);
  }

  lemma WalkedArray(h: Heap, items: seq<Option<Value>>)
    requires h(0) == Arr(items) && |items| <= 128
    ensures var w := WalkItems(h, items, 1); Walk(h, Ref(0), 0).visits == 1 + w.visits && Walk(h, Ref(0), 0).ids == [0] + w.ids
  {
    hide WalkItems;
  }

  // ----- exactly which strings exceed the limit -----

  /** Every bigint that a copy reaches has a short text. */
  predicate ShortBigInts(h: Heap, v: Value, depth: nat)
    decreases Levels(depth)
  {
    match v
    case BigInt(text) => |text| <= 2048
    case Ref(id) =>
      depth < 8 ==>
        (match h(id)
         case Arr(items) => forall x | x in Take(items, 128) && x.Some? :: ShortBigInts(h, x.value, depth + 1)
         case Obj(entries) => forall e | e in Take(entries, 64) && e.0 !in BLOCKED_KEYS :: ShortBigInts(h, e.1, depth + 1)
         case _ => true)
    case _ => true
  }

  lemma {:induction false} CopyIsBoundedIff(h: Heap, v: Value, depth: nat)
    requires Fits(h, v, depth)
    ensures var copy := Walk(h, v, depth).copy;
            copy.Some? && (Bounded(copy.value, Levels(depth), iset{}) <==> ShortBigInts(h, v, depth))
    decreases Levels(depth), 0
  {
    hide WalkItems, WalkEntries, Distinct, KeptKeys, Take, BoundedField;
    FitsIsCopied(h, v, depth);
    if v.Ref? && depth < 8 {
      match h(v.id)
      case Arr(items) => CopiedItemsBoundedIff(h, Take(items, 128), depth + 1);
      case Obj(entries) => CopiedEntriesBoundedIff(h, Take(entries, 64), depth + 1);
      case _ =>
    }
  }

  lemma {:induction false} CopiedItemsBoundedIff(h: Heap, items: seq<Option<Value>>, depth: nat)
    requires forall x | x in items && x.Some? :: Fits(h, x.value, depth)
    ensures var copy := WalkItems(h, items, depth).copy;
            && copy.Some? && |copy.value| == |items|
            && ((forall c | c in copy.value && c.Filled? :: Bounded(c.value, Levels(depth), iset{}))
                <==> forall x | x in items && x.Some? :: ShortBigInts(h, x.value, depth))
    decreases Levels(depth), |items| + 1
  {
    hide Bounded, ShortBigInts, Walk, Fits;
    if items != [] {
      var init, last := items[..|items| - 1], items[|items| - 1];
      assert items == init + [last];
      CopiedItemsBoundedIff(h, init, depth);
      if last.Some? { CopyIsBoundedIff(h, last.value, depth); }
    }
  }

  lemma {:induction false} CopiedEntriesBoundedIff(h: Heap, entries: seq<(string, Value)>, depth: nat)
    requires Distinct(KeptKeys(entries)) && forall e | e in entries && e.0 !in BLOCKED_KEYS :: Fits(h, e.1, depth)
    ensures var copy := WalkEntries(h, entries, depth).copy;
            && |copy| <= |entries|
            && ((forall f | f in copy :: BoundedField(f, Levels(depth), iset{}))
                <==> forall e | e in entries && e.0 !in BLOCKED_KEYS :: ShortBigInts(h, e.1, depth))
    decreases Levels(depth), |entries| + 1
  {
    hide Bounded, ShortBigInts, Walk, Fits, Put, Distinct;
    if entries != [] {
      var init, last := entries[..|entries| - 1], entries[|entries| - 1];
      assert entries == init + [last];
      KeptPrefix(entries);
      CopiedEntriesBoundedIff(h, init, depth);
      if last.0 !in BLOCKED_KEYS {
        CopyIsBoundedIff(h, last.1, depth);
        WalkedKeys(h, init, depth);
        var former, copy := WalkEntries(h, init, depth).copy, Field(Take(last.0, 128), Walk(h, last.1, depth).copy.value);
        AppendKey(former, copy.key, copy.value);
        LongKeysAreNotBlocked(last.0);
        assert BoundedField(copy, Levels(depth), iset{}) <==> ShortBigInts(h, last.1, depth);
        hide BoundedField;
        AllOfBoth(former, copy, Levels(depth));
        AllShort(h, init, last, depth);
      }
    }
  }

  lemma LongKeysAreNotBlocked(key: string)
    requires key !in BLOCKED_KEYS
    ensures Take(key, 128) !in BLOCKED_KEYS && |Take(key, 128)| <= 128
  {
    assert |"__proto__"| < 128 && |"constructor"| < 128 && |"prototype"| < 128;
  }

  lemma AllOfBoth(former: seq<Field>, copy: Field, height: nat)
    ensures (forall f | f in former + [copy] :: BoundedField(f, height, iset{}))
            <==> (forall f | f in former :: BoundedField(f, height, iset{})) && BoundedField(copy, height, iset{})
  {
    hide BoundedField;
    assert copy in former + [copy] && forall f | f in former :: f in former + [copy];
  }

  lemma AllShort(h: Heap, init: seq<(string, Value)>, last: (string, Value), depth: nat)
    requires last.0 !in BLOCKED_KEYS
    ensures (forall e | e in init + [last] && e.0 !in BLOCKED_KEYS :: ShortBigInts(h, e.1, depth))
            <==> (forall e | e in init && e.0 !in BLOCKED_KEYS :: ShortBigInts(h, e.1, depth)) && ShortBigInts(h, last.1, depth)
  {
    hide ShortBigInts;
    assert last in init + [last] && forall e | e in init :: e in init + [last];
  }

  /** The clone of unshared data within the budget keeps every limit if and only if each of its
      bigints is short enough by itself. */
  lemma PlainDataIsBoundedIff(h: Heap, v: Value)
    requires Fits(h, v, 0) && Walk(h, v, 0).visits <= 2048 && Distinct(Walk(h, v, 0).ids)
    ensures var r := CloneValue(h, v, 0, State(MAX_METADATA_NODES, [])).1;
            r.Some? && (Bounded(r.value, 8, iset{}) <==> ShortBigInts(h, v, 0))
  {
    UnsharedIsCopied(h, v);
    CopyIsBoundedIff(h, v, 0);
  }

  // ----- the order of properties -----

  /** The value of a decimal numeral. */
  function Numeral(digits: string): int {
    if digits == "" then 0
    else 10 * Numeral(digits[..|digits| - 1]) + (digits[|digits| - 1] as int - '0' as int)
  }

  /** Keys that the runtime takes for array indexes and enumerates first, in ascending order. */
  predicate IndexLike(key: string) {
    && 0 < |key| <= 10 && (forall c | c in key :: '0' <= c <= '9')
    && (key[0] == '0' ==> |key| == 1) && Numeral(key) < 0xFFFF_FFFF
  }

  predicate Before(a: string, b: string) {
    IndexLike(b) ==> IndexLike(a) && Numeral(a) < Numeral(b)
  }

  /** The order in which the runtime enumerates properties that were assigned in this order. */
  predicate InEnumerationOrder(keys: seq<string>) {
    forall i, j :: 0 <= i < j < |keys| ==> Before(keys[i], keys[j])
  }

  function KeysOf(entries: seq<(string, Value)>): (r: seq<string>)
    ensures |r| == |entries| && forall i | 0 <= i < |r| :: r[i] == entries[i].0
  {
    if entries == [] then [] else KeysOf(entries[..|entries| - 1]) + [entries[|entries| - 1].0]
  }

  function FieldKeys(fields: seq<Field>): (r: seq<string>)
    ensures |r| == |fields| && forall i | 0 <= i < |r| :: r[i] == fields[i].key
  {
    if fields == [] then [] else FieldKeys(fields[..|fields| - 1]) + [fields[|fields| - 1].key]
  }

  /** Cutting a key makes no index of it, and assigning the properties in the order in which the
      source has them leaves them in the order in which the clone enumerates them. */
  lemma {:induction false} CloneKeepsOrder(h: Heap, entries: seq<(string, Value)>, depth: nat, st: State)
    requires InEnumerationOrder(KeysOf(entries))
    ensures var fields := CloneEntries(h, entries, depth, st).1;
            && InEnumerationOrder(FieldKeys(fields))
            && forall f | f in fields :: exists e | e in entries :: f.key == Take(e.0, MAX_KEY_LENGTH)
  {
    hide CloneValue, IndexLike, Put;
    if entries != [] {
      var init, last := entries[..|entries| - 1], entries[|entries| - 1];
      assert forall i | 0 <= i < |init| :: KeysOf(init)[i] == KeysOf(entries)[i];
      CloneKeepsOrder(h, init, depth, st);
      var (st1, fields) := CloneEntries(h, init, depth, st);
      if last.0 !in BLOCKED_KEYS {
        var r := CloneValue(h, last.1, depth, st1).1;
        forall f | f in fields ensures Before(f.key, Take(last.0, MAX_KEY_LENGTH)) {
          var e :| e in init && f.key == Take(e.0, MAX_KEY_LENGTH);
          var i :| 0 <= i < |init| && init[i] == e;
          assert Before(KeysOf(entries)[i], KeysOf(entries)[|init|]);
          CutKeys(e.0, last.0);
        }
        PutKeepsOrder(fields, Take(last.0, MAX_KEY_LENGTH), if r.None? then CStr("[unreadable value]") else r.value);
        assert last in entries;
      }
    }
  }

  lemma CutKeys(a: string, b: string)
    requires Before(a, b)
    ensures Before(Take(a, MAX_KEY_LENGTH), Take(b, MAX_KEY_LENGTH))
  {
  }

  lemma PutKeepsOrder(fields: seq<Field>, key: string, value: Clone)
    requires InEnumerationOrder(FieldKeys(fields)) && forall f | f in fields :: Before(f.key, key)
    ensures InEnumerationOrder(FieldKeys(Put(fields, key, value)))
    ensures forall f | f in Put(fields, key, value) :: f in fields || f.key == key
  {
    hide Before;
    var put := Put(fields, key, value);
    forall i, j | 0 <= i < j < |put| ensures Before(FieldKeys(put)[i], FieldKeys(put)[j]) {
      if j < |fields| {
        assert Before(FieldKeys(fields)[i], FieldKeys(fields)[j]);
      } else {
        assert fields[i] in fields;
      }
    }
  }
}
