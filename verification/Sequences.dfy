/** Injected response sequences, one per target, shared by the SDK and the TCP service.

    A target's entry is a list of values with a cursor.  The history functions below say the same
    without any state: what a take returns is determined by the operations before it, counted. */
module Sequences {
  import opened Options

  datatype Entry<+V> = Entry(values: seq<V>, cursor: nat, calls: nat, generation: nat)

  datatype Selection<+K, +V> = Selection(target: K, call: nat, generation: nat, index: Option<nat>, value: Option<V>)
  {
    predicate Overridden() {
      index.Some?
    }
  }

  type Store<K, V> = map<K, Entry<V>>

  function Lookup<K, V>(store: Store<K, V>, target: K): Entry<V> {
    if target in store then store[target] else Entry([], 0, 0, 0)
  }

  function Configured<K, V>(store: Store<K, V>, target: K, values: seq<V>): Store<K, V> {
    var previous := Lookup(store, target);
    store[target := Entry(values, 0, previous.calls, previous.generation + 1)]
  }

  function Selected<K, V>(store: Store<K, V>, target: K): Selection<K, V> {
    var entry := Lookup(store, target);
    if entry.cursor < |entry.values| then
      Selection(target, entry.calls + 1, entry.generation, Some(entry.cursor), Some(entry.values[entry.cursor]))
    else
      Selection(target, entry.calls + 1, entry.generation, None, None)
  }

  function Consumed<K, V>(store: Store<K, V>, target: K): Store<K, V> {
    var entry := Lookup(store, target);
    var used := if entry.cursor < |entry.values| then 1 else 0;
    store[target := entry.(cursor := entry.cursor + used, calls := entry.calls + 1)]
  }

  /** What a query shows of an entry. */
  datatype Report<+V> = Report(values: seq<V>, cursor: nat, calls: nat, generation: nat, remaining: int)

  function ReportOf<V>(entry: Entry<V>): Report<V> {
    Report(entry.values, entry.cursor, entry.calls, entry.generation, |entry.values| - entry.cursor)
  }

  /** A query shows all the entries there are, or the one of a target, whether there is one or not. */
  function Reports<K, V>(store: Store<K, V>, target: Option<K>): map<K, Report<V>> {
    match target
    case None => map key | key in store :: ReportOf(store[key])
    case Some(key) => map[key := ReportOf(Lookup(store, key))]
  }

  class SequenceStore<K(==), V(==)> {
    var entries: Store<K, V>

    constructor ()
      ensures entries == map[]
    {
      entries := map[];
    }

    method Reset()
      modifies this
      ensures entries == map[]
    {
      entries := map[];
    }

    /** `None` stands for anything that is not a list; it is refused and changes nothing. */
    method Set(target: K, values: Option<seq<V>>) returns (accepted: bool)
      modifies this
      ensures accepted <==> values.Some?
      ensures entries == if accepted then Configured(old(entries), target, values.value) else old(entries)
    {
      if values.None? {
        return false;
      }
      var previous := Lookup(entries, target);
      entries := entries[target := Entry(values.value, 0, previous.calls, previous.generation + 1)];
      accepted := true;
    }

    method Take(target: K) returns (selection: Selection<K, V>)
      modifies this
      ensures selection == Selected(old(entries), target)
      ensures entries == Consumed(old(entries), target)
    {
      if target !in entries {
        entries := entries[target := Entry([], 0, 0, 0)];
      }
      var entry := entries[target];
      var index := entry.cursor;
      var overridden := index < |entry.values|;
      entry := entry.(calls := entry.calls + 1);
      selection := Selection(target, entry.calls, entry.generation,
                             if overridden then Some(index) else None,
                             if overridden then Some(entry.values[index]) else None);
      if overridden {
        entry := entry.(cursor := entry.cursor + 1);
      }
      entries := entries[target := entry];
    }

    /** A query changes nothing, not even by asking for a target that has no entry. */
    method Snapshot(target: Option<K>) returns (reports: map<K, Report<V>>)
      ensures reports == Reports(entries, target)
    {
      var shown := if target.None? then entries else map[target.value := Lookup(entries, target.value)];
      reports := map key | key in shown ::
        Report(shown[key].values, shown[key].cursor, shown[key].calls, shown[key].generation,
               |shown[key].values| - shown[key].cursor);
    }
  }

  // ---------------------------------------------------------------------------------------------
  // Histories.

  datatype Op<+K, +V> = SetOp(target: K, values: seq<V>) | TakeOp(target: K) | QueryOp(target: K) | ResetOp

  function Apply<K, V>(store: Store<K, V>, op: Op<K, V>): Store<K, V> {
    match op
    case SetOp(target, values) => Configured(store, target, values)
    case TakeOp(target) => Consumed(store, target)
    case QueryOp(_) => store
    case ResetOp => map[]
  }

  function After<K, V>(ops: seq<Op<K, V>>): Store<K, V> {
    if ops == [] then map[] else Apply(After(ops[..|ops| - 1]), ops[|ops| - 1])
  }

  /** A store after none or one operation more. */
  function Applied<K, V>(store: Store<K, V>, ops: seq<Op<K, V>>): Store<K, V>
    requires |ops| <= 1
  {
    if ops == [] then store else Apply(store, ops[0])
  }

  lemma AppliedIsAfter<K, V>(before: seq<Op<K, V>>, ops: seq<Op<K, V>>)
    requires |ops| <= 1
    ensures Applied(After(before), ops) == After(before + ops)
  {
    if ops == [] {
      assert before + ops == before;
    } else {
      assert (before + ops)[..|before|] == before && (before + ops)[|before|] == ops[0];
    }
  }

  /** Takes of the target since the last reset. */
  function Calls<K(==), V(==)>(ops: seq<Op<K, V>>, target: K): nat {
    if ops == [] || ops[|ops| - 1].ResetOp? then 0
    else Calls(ops[..|ops| - 1], target) + if ops[|ops| - 1] == TakeOp(target) then 1 else 0
  }

  /** Configurations of the target since the last reset. */
  function Generation<K(==), V(==)>(ops: seq<Op<K, V>>, target: K): nat {
    if ops == [] || ops[|ops| - 1].ResetOp? then 0
    else
      var last := ops[|ops| - 1];
      Generation(ops[..|ops| - 1], target) + if last.SetOp? && last.target == target then 1 else 0
  }

  /** The values configured last for the target since the last reset. */
  function Latest<K(==), V(==)>(ops: seq<Op<K, V>>, target: K): seq<V> {
    if ops == [] || ops[|ops| - 1].ResetOp? then []
    else
      var last := ops[|ops| - 1];
      if last.SetOp? && last.target == target then last.values else Latest(ops[..|ops| - 1], target)
  }

  /** Takes of the target since it was last configured or reset. */
  function Uses<K(==), V(==)>(ops: seq<Op<K, V>>, target: K): nat {
    if ops == [] || ops[|ops| - 1].ResetOp? then 0
    else
      var last := ops[|ops| - 1];
      if last.SetOp? && last.target == target then 0
      else Uses(ops[..|ops| - 1], target) + if last == TakeOp(target) then 1 else 0
  }

  function Least(x: nat, y: nat): nat {
    if x <= y then x else y
  }

  /** The state of an entry is its history, counted: the cursor is the number of takes since the last
      configuration and never passes the length, `calls` and `generation` count across replacements,
      and nothing about any other target or any query enters into it. */
  lemma {:induction false} EntryIsItsHistory<K, V>(ops: seq<Op<K, V>>, target: K)
    ensures Lookup(After(ops), target)
            == Entry(Latest(ops, target), Least(Uses(ops, target), |Latest(ops, target)|),
                     Calls(ops, target), Generation(ops, target))
  {
    if ops != [] {
      EntryIsItsHistory(ops[..|ops| - 1], target);
    }
  }

  /** The n-th take since the last configuration returns its n-th value; past the end, none. */
  lemma TakeIsItsHistory<K, V>(ops: seq<Op<K, V>>, target: K)
    ensures var n, values := Uses(ops, target), Latest(ops, target);
      Selected(After(ops), target)
      == Selection(target, Calls(ops, target) + 1, Generation(ops, target),
                   if n < |values| then Some(n) else None,
                   if n < |values| then Some(values[n]) else None)
  {
    EntryIsItsHistory(ops, target);
  }

  /** The operations that can matter to a target. */
  function About<K(==), V(==)>(ops: seq<Op<K, V>>, target: K): seq<Op<K, V>> {
    if ops == [] then []
    else
      var last := ops[|ops| - 1];
      var before := About(ops[..|ops| - 1], target);
      if last.ResetOp? || (!last.QueryOp? && last.target == target) then before + [last] else before
  }

  /** Targets are independent, and queries change nothing: each entry sees only its own history. */
  lemma {:induction false} TargetsAreIndependent<K, V>(ops: seq<Op<K, V>>, target: K)
    ensures Lookup(After(ops), target) == Lookup(After(About(ops, target)), target)
  {
    if ops != [] {
      var n := |ops| - 1;
      var before := About(ops[..n], target);
      TargetsAreIndependent(ops[..n], target);
      if ops[n].ResetOp? || (!ops[n].QueryOp? && ops[n].target == target) {
        assert (before + [ops[n]])[..|before|] == before;
      }
    }
  }

  // ---------------------------------------------------------------------------------------------
  // A queue per target.

  /** What is left to deliver. */
  function Pending<K, V>(store: Store<K, V>, target: K): seq<V>
    requires Lookup(store, target).cursor <= |Lookup(store, target).values|
  {
    Lookup(store, target).values[Lookup(store, target).cursor..]
  }

  ghost predicate InBounds<K, V>(store: Store<K, V>) {
    forall target | target in store :: store[target].cursor <= |store[target].values|
  }

  /** Taking removes the front of the target's own queue and delivers it, and touches no other. */
  lemma TakeDequeues<K, V>(store: Store<K, V>, target: K, other: K)
    requires InBounds(store)
    ensures InBounds(Consumed(store, target))
    ensures var queue := Pending(store, target);
      var selection := Selected(store, target);
      && selection.value == (if queue == [] then None else Some(queue[0]))
      && (selection.Overridden() <==> queue != [])
      && Pending(Consumed(store, target), target) == (if queue == [] then [] else queue[1..])
      && (other != target ==> Pending(Consumed(store, target), other) == Pending(store, other))
  {
  }

  lemma {:induction false} AfterInBounds<K, V>(ops: seq<Op<K, V>>)
    ensures InBounds(After(ops))
  {
    if ops != [] {
      AfterInBounds(ops[..|ops| - 1]);
    }
  }

  function TakenTimes<K, V>(store: Store<K, V>, target: K, n: nat): Store<K, V> {
    if n == 0 then store else Consumed(TakenTimes(store, target, n - 1), target)
  }

  /** What a query calls remaining is how many more takes of the target will be overridden: the next
      ones deliver the values from the cursor on, in order, and all after them none. */
  lemma {:induction false} RemainingForetells<K, V>(store: Store<K, V>, target: K, n: nat)
    requires InBounds(store)
    ensures var report := Reports(store, Some(target))[target];
      && 0 <= report.remaining == |report.values| - report.cursor
      && Lookup(TakenTimes(store, target, n), target) ==
           Entry(report.values, report.cursor + Least(n, report.remaining), report.calls + n, report.generation)
      && Selected(TakenTimes(store, target, n), target).value ==
           if n < report.remaining then Some(report.values[report.cursor + n]) else None
  {
    if n > 0 {
      RemainingForetells(store, target, n - 1);
    }
  }

  // ---------------------------------------------------------------------------------------------
  // Exactly once.

  /** What the take at position `i` of a history returned. */
  function Delivered<K(==), V>(ops: seq<Op<K, V>>, i: nat): Selection<K, V>
    requires i < |ops| && ops[i].TakeOp?
  {
    Selected(After(ops[..i]), ops[i].target)
  }

  lemma {:induction false} CountsGrow<K, V>(ops: seq<Op<K, V>>, i: nat, j: nat, target: K)
    requires i <= j <= |ops| && (forall k | i <= k < j :: !ops[k].ResetOp?)
    ensures Generation(ops[..i], target) <= Generation(ops[..j], target)
    ensures Calls(ops[..i], target) <= Calls(ops[..j], target)
    ensures Generation(ops[..i], target) == Generation(ops[..j], target) ==>
      && Latest(ops[..i], target) == Latest(ops[..j], target)
      && Uses(ops[..i], target) <= Uses(ops[..j], target)
    decreases j - i
  {
    if i < j {
      CountsGrow(ops, i, j - 1, target);
      assert ops[..j][..j - 1] == ops[..j - 1];
    }
  }

  /** Between resets no configured item is delivered twice, and items come in order: of two takes of a
      target, the later one has a later call number and, when both deliver, a later generation or a
      later place in the same one. */
  lemma DeliveredAtMostOnceInOrder<K, V>(ops: seq<Op<K, V>>, i: nat, j: nat)
    requires i < j < |ops| && ops[i].TakeOp? && ops[j] == ops[i]
    requires forall k | i <= k < j :: !ops[k].ResetOp?
    ensures var first, second := Delivered(ops, i), Delivered(ops, j);
      && first.call < second.call
      && (first.Overridden() && second.Overridden() ==>
            first.generation < second.generation
            || (first.generation == second.generation && first.index.value < second.index.value))
  {
    var target := ops[i].target;
    TakeIsItsHistory(ops[..i], target);
    TakeIsItsHistory(ops[..j], target);
    assert ops[..i + 1][..i] == ops[..i];
    CountsGrow(ops, i, i + 1, target);
    CountsGrow(ops, i + 1, j, target);
  }

  /** The same of a take after `ops` and one after `more` on top of it. */
  lemma TwoTakes<K, V>(ops: seq<Op<K, V>>, more: seq<Op<K, V>>, target: K)
    requires ResetOp !in more
    ensures var first, second := Selected(After(ops), target), Selected(After(ops + ([TakeOp(target)] + more)), target);
      && first.call < second.call
      && (first.Overridden() && second.Overridden() ==>
            first.generation < second.generation
            || (first.generation == second.generation && first.index.value < second.index.value))
  {
    var whole := ops + ([TakeOp(target)] + more) + [TakeOp(target)];
    var i, j := |ops|, |whole| - 1;
    assert whole[..i] == ops && whole[..j] == ops + ([TakeOp(target)] + more);
    assert whole[i] == TakeOp(target) && whole[j] == TakeOp(target);
    forall k | i <= k < j ensures !whole[k].ResetOp? {
      if k > i {
        assert whole[k] == more[k - i - 1];
        assert whole[k] in more;
      }
    }
    DeliveredAtMostOnceInOrder(whole, i, j);
  }

  lemma {:induction false} LatestStays<K, V>(ops: seq<Op<K, V>>, i: nat, j: nat)
    requires i < j <= |ops| && ops[i].SetOp?
    requires forall k | i < k < j :: !ops[k].ResetOp? && !(ops[k].SetOp? && ops[k].target == ops[i].target)
    ensures Latest(ops[..j], ops[i].target) == ops[i].values
    decreases j
  {
    assert ops[..j][..j - 1] == ops[..j - 1];
    if i + 1 < j {
      LatestStays(ops, i, j - 1);
    }
  }

  /** And every item is delivered once taken often enough: the (n+1)-th take after a configuration
      with more than n values returns value n of it. */
  lemma EveryItemIsDelivered<K, V>(ops: seq<Op<K, V>>, i: nat, j: nat)
    requires i < j < |ops| && ops[i].SetOp? && ops[j] == TakeOp(ops[i].target)
    requires forall k | i < k < j :: !ops[k].ResetOp? && !(ops[k].SetOp? && ops[k].target == ops[i].target)
    ensures Uses(ops[..j], ops[i].target) < |ops[i].values| ==>
      Delivered(ops, j).value == Some(ops[i].values[Uses(ops[..j], ops[i].target)])
  {
    LatestStays(ops, i, j);
    TakeIsItsHistory(ops[..j], ops[i].target);
  }
}
