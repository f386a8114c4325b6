/** The networks actor listens to its own announcements: each global `chainChanged` message makes
    it set the current network, and each change spawns a task that broadcasts another one. */
module Echo {
  import opened Types
  import opened Networks

  /** `queue`: global messages the actor's receiver has not handled.  `spawned`: announcements
      whose tasks have not run.  `echoes`: announcements made so far. */
  datatype State = State(registry: Registry, queue: seq<NetworkId>, spawned: seq<NetworkId>, echoes: nat)

  datatype Act = Receive | Enqueue(task: nat)

  predicate Enabled(s: State, a: Act) {
    match a
    case Receive => s.queue != []
    case Enqueue(task) => task < |s.spawned|
  }

  function Step(first: Order, s: State, a: Act): State
    requires IsOrder(first) && s.registry.networks != map[] && Enabled(s, a)
    ensures Step(first, s, a).registry.networks == s.registry.networks
  {
    match a
    case Receive =>
      var popped := s.(queue := s.queue[1..]);
      var switch := Switched(first, s.registry, ById(s.queue[0]));
      if switch.None? then popped
      else if switch.value.changed then
        popped.(registry := switch.value.registry, echoes := s.echoes + 1,
                spawned := s.spawned + [Current(first, switch.value.registry).id])
      else popped.(registry := switch.value.registry)
    case Enqueue(task) =>
      s.(queue := s.queue + [s.spawned[task]], spawned := s.spawned[..task] + s.spawned[task + 1..])
  }

  ghost predicate Proper(first: Order, m: Table) {
    IsOrder(first) && m != map[] && KeysAreNames(m) && DistinctIds(m)
  }

  /** Switching to a stored id lands on it, and counts as a change unless it was current. */
  lemma SwitchToStoredId(first: Order, r: Registry, id: NetworkId)
    requires Proper(first, r.networks) && IdTaken(r.networks, id)
    ensures var s := Switched(first, r, ById(id));
            && s.Some? && s.value.registry.networks == r.networks
            && Current(first, s.value.registry).id == id
            && (s.value.changed <==> Current(first, r).id != id)
  {
    var name :| name in r.networks && r.networks[name].id == id;
    assert name in Matching(r.networks, ById(id));
  }

  // ----- draining --------------------------------------------------------------------------

  ghost predicate AllName(s: State, id: NetworkId) {
    && (forall i :: 0 <= i < |s.queue| ==> s.queue[i] == id)
    && (forall i :: 0 <= i < |s.spawned| ==> s.spawned[i] == id)
  }

  function Measure(first: Order, s: State, id: NetworkId): nat
    requires IsOrder(first) && s.registry.networks != map[]
  {
    2 * |s.spawned| + |s.queue| + if Current(first, s.registry).id == id then 0 else 3
  }

  function StepAll(first: Order, s: State, acts: seq<Act>): Option<State>
    requires IsOrder(first) && s.registry.networks != map[]
    decreases |acts|
  {
    if acts == [] then Some(s)
    else if !Enabled(s, acts[0]) then None
    else StepAll(first, Step(first, s, acts[0]), acts[1..])
  }

  lemma StepDecreases(first: Order, s: State, a: Act, id: NetworkId)
    requires Proper(first, s.registry.networks) && IdTaken(s.registry.networks, id)
    requires AllName(s, id) && Enabled(s, a)
    ensures var t := Step(first, s, a);
            && AllName(t, id) && Measure(first, t, id) < Measure(first, s, id)
            && t.echoes == s.echoes + (if Current(first, s.registry).id != id && a.Receive? then 1 else 0)
            && (a.Receive? ==> Current(first, t.registry).id == id)
            && (a.Enqueue? ==> t.queue != [] && t.registry == s.registry)
  {
    SwitchToStoredId(first, s.registry, id);
  }

  /** Whatever order receivers and spawned tasks run in: if every outstanding message names one
      stored network, at most one more is created, the run ends within a bound, and if anything
      was outstanding it ends with that network current. */
  lemma {:induction false} EchoDiesOut(first: Order, s: State, acts: seq<Act>, id: NetworkId)
    requires Proper(first, s.registry.networks) && IdTaken(s.registry.networks, id)
    requires AllName(s, id) && StepAll(first, s, acts).Some?
    ensures var t := StepAll(first, s, acts).value;
            && |acts| <= Measure(first, s, id)
            && t.registry.networks == s.registry.networks && AllName(t, id)
            && t.echoes <= s.echoes + (if Current(first, s.registry).id == id then 0 else 1)
            && (s.queue + s.spawned != [] && t.queue + t.spawned == [] ==> Current(first, t.registry).id == id)
            && (Current(first, s.registry).id == id ==> Current(first, t.registry).id == id)
    decreases |acts|
  {
    if acts != [] {
      StepDecreases(first, s, acts[0], id);
      EchoDiesOut(first, Step(first, s, acts[0]), acts[1..], id);
    }
  }

  // ----- exactly when it dies out ----------------------------------------------------------

  function CurrentId(first: Order, s: State): NetworkId
    requires IsOrder(first) && s.registry.networks != map[]
  {
    Current(first, s.registry).id
  }

  /** Every outstanding message names a stored network. */
  ghost predicate Sound(first: Order, s: State) {
    && Proper(first, s.registry.networks)
    && (forall i :: 0 <= i < |s.queue| ==> IdTaken(s.registry.networks, s.queue[i]))
    && (forall i :: 0 <= i < |s.spawned| ==> IdTaken(s.registry.networks, s.spawned[i]))
  }

  /** How often the current network changes while the queue is read once. */
  function Changes(current: NetworkId, queue: seq<NetworkId>): nat
    decreases |queue|
  {
    if queue == [] then 0
    else (if queue[0] == current then 0 else 1) + Changes(queue[0], queue[1..])
  }

  function LastOf(current: NetworkId, queue: seq<NetworkId>): NetworkId {
    if queue == [] then current else queue[|queue| - 1]
  }

  /** In whatever order the spawned tasks run, reading all that is outstanding changes the current
      network at most once. */
  ghost predicate Calm(current: NetworkId, queue: seq<NetworkId>, spawned: seq<NetworkId>) {
    || (Changes(current, queue) <= 1
        && forall i :: 0 <= i < |spawned| ==> spawned[i] == LastOf(current, queue))
    || (Changes(current, queue) == 0
        && forall i, j :: 0 <= i < |spawned| && 0 <= j < |spawned| ==> spawned[i] == spawned[j])
  }

  lemma {:induction false} ChangesOfSnoc(current: NetworkId, queue: seq<NetworkId>, id: NetworkId)
    ensures Changes(current, queue + [id]) ==
            Changes(current, queue) + if LastOf(current, queue) == id then 0 else 1
    decreases |queue|
  {
    if queue == [] {
      assert [] + [id] == [id];
      assert [id][1..] == [];
    } else {
      assert (queue + [id])[1..] == queue[1..] + [id];
      ChangesOfSnoc(queue[0], queue[1..], id);
    }
  }

  lemma {:induction false} NoChangeMeansSame(current: NetworkId, queue: seq<NetworkId>)
    requires Changes(current, queue) == 0
    ensures LastOf(current, queue) == current
    decreases |queue|
  {
    if queue != [] {
      NoChangeMeansSame(queue[0], queue[1..]);
    }
  }

  lemma {:induction false} OneChangeMeansOther(current: NetworkId, queue: seq<NetworkId>)
    requires Changes(current, queue) == 1
    ensures LastOf(current, queue) != current
    decreases |queue|
  {
    if queue[0] == current {
      OneChangeMeansOther(current, queue[1..]);
    } else {
      NoChangeMeansSame(queue[0], queue[1..]);
    }
  }

  /** What a step does to the current id, the queue and the spawned tasks. */
  lemma StepMoves(first: Order, s: State, a: Act)
    requires Sound(first, s) && Enabled(s, a)
    ensures var t := Step(first, s, a);
            && Sound(first, t)
            && (a.Receive? ==>
                  && CurrentId(first, t) == s.queue[0] && t.queue == s.queue[1..]
                  && t.spawned == s.spawned + if s.queue[0] == CurrentId(first, s) then [] else [s.queue[0]])
            && (a.Enqueue? ==>
                  && CurrentId(first, t) == CurrentId(first, s) && t.queue == s.queue + [s.spawned[a.task]]
                  && t.spawned == s.spawned[..a.task] + s.spawned[a.task + 1..])
  {
    if a.Receive? {
      SwitchToStoredId(first, s.registry, s.queue[0]);
      if s.queue[0] == CurrentId(first, s) {
        assert s.spawned + [] == s.spawned;
      }
    }
  }

  /** Where a calm state ends up. */
  function Target(current: NetworkId, queue: seq<NetworkId>, spawned: seq<NetworkId>): NetworkId {
    if spawned != [] then spawned[0] else LastOf(current, queue)
  }

  // ----- a calm state ----------------------------------------------------------------------

  function CalmMeasure(current: NetworkId, queue: seq<NetworkId>, spawned: seq<NetworkId>): nat {
    2 * |spawned| + |queue|
    + 3 * (if Changes(current, queue) == 0 && exists i :: 0 <= i < |spawned| && spawned[i] != current then 1
           else Changes(current, queue))
  }

  lemma ReceiveKeepsCalm(current: NetworkId, queue: seq<NetworkId>, spawned: seq<NetworkId>)
    requires queue != [] && Calm(current, queue, spawned)
    ensures var rest, after := queue[1..], spawned + if queue[0] == current then [] else [queue[0]];
            && Calm(queue[0], rest, after) && Target(queue[0], rest, after) == Target(current, queue, spawned)
            && CalmMeasure(queue[0], rest, after) < CalmMeasure(current, queue, spawned)
  {
    var rest := queue[1..];
    assert LastOf(current, queue) == LastOf(queue[0], rest);
    if queue[0] == current {
      assert spawned + [] == spawned;
    } else {
      assert Changes(queue[0], rest) == 0;
      NoChangeMeansSame(queue[0], rest);
    }
  }

  lemma EnqueueKeepsCalm(current: NetworkId, queue: seq<NetworkId>, spawned: seq<NetworkId>, task: nat)
    requires task < |spawned| && Calm(current, queue, spawned)
    ensures var longer, after := queue + [spawned[task]], spawned[..task] + spawned[task + 1..];
            && Calm(current, longer, after) && Target(current, longer, after) == Target(current, queue, spawned)
            && CalmMeasure(current, longer, after) < CalmMeasure(current, queue, spawned)
  {
    var after := spawned[..task] + spawned[task + 1..];
    ChangesOfSnoc(current, queue, spawned[task]);
    if Changes(current, queue) == 0 {
      NoChangeMeansSame(current, queue);
    }
    assert forall i :: 0 <= i < |after| ==> after[i] == if i < task then spawned[i] else spawned[i + 1];
  }

  lemma {:induction false} CalmRunsEnd(first: Order, s: State, acts: seq<Act>)
    requires Sound(first, s) && Calm(CurrentId(first, s), s.queue, s.spawned)
    requires StepAll(first, s, acts).Some?
    ensures |acts| <= CalmMeasure(CurrentId(first, s), s.queue, s.spawned)
    ensures var t := StepAll(first, s, acts).value;
            && t.registry.networks == s.registry.networks
            && (t.queue == [] && t.spawned == [] ==>
                  CurrentId(first, t) == Target(CurrentId(first, s), s.queue, s.spawned))
    decreases |acts|
  {
    if acts != [] {
      hide Calm, CalmMeasure;
      StepMoves(first, s, acts[0]);
      if acts[0].Receive? {
        ReceiveKeepsCalm(CurrentId(first, s), s.queue, s.spawned);
      } else {
        EnqueueKeepsCalm(CurrentId(first, s), s.queue, s.spawned, acts[0].task);
      }
      CalmRunsEnd(first, Step(first, s, acts[0]), acts[1..]);
    }
  }

  // ----- a restless state ------------------------------------------------------------------

  /** A run of at least `n` steps. */
  ghost predicate RunsFor(first: Order, s: State, n: nat)
    requires IsOrder(first) && s.registry.networks != map[]
  {
    exists acts :: |acts| >= n && StepAll(first, s, acts).Some?
  }

  lemma RunsLonger(first: Order, s: State, a: Act, n: nat)
    requires IsOrder(first) && s.registry.networks != map[] && Enabled(s, a)
    requires RunsFor(first, Step(first, s, a), n)
    ensures RunsFor(first, s, n + 1)
  {
    var acts :| |acts| >= n && StepAll(first, Step(first, s, a), acts).Some?;
    assert ([a] + acts)[1..] == acts;
    assert StepAll(first, s, [a] + acts).Some?;
  }

  /** Two changes ahead and everything broadcast at once: reading the queue once around leaves at
      least two changes ahead. */
  lemma {:induction false} RestlessRuns(first: Order, s: State, n: nat)
    requires Sound(first, s) && Changes(CurrentId(first, s), s.queue) >= 2
    ensures RunsFor(first, s, n)
    decreases n, |s.spawned|
  {
    if n == 0 {
      assert StepAll(first, s, []).Some?;
    } else if s.spawned != [] {
      StepMoves(first, s, Enqueue(0));
      ChangesOfSnoc(CurrentId(first, s), s.queue, s.spawned[0]);
      RestlessRuns(first, Step(first, s, Enqueue(0)), n - 1);
      RunsLonger(first, s, Enqueue(0), n - 1);
    } else {
      var r := Step(first, s, Receive);
      StepMoves(first, s, Receive);
      if Changes(CurrentId(first, r), r.queue) >= 2 {
        RestlessRuns(first, r, n - 1);
      } else {
        OneChangeMeansOther(CurrentId(first, r), r.queue);
        ChangesOfSnoc(CurrentId(first, r), r.queue, s.queue[0]);
        StepMoves(first, r, Enqueue(0));
        RestlessRuns(first, Step(first, r, Enqueue(0)), if n == 1 then 0 else n - 2);
        RunsLonger(first, r, Enqueue(0), if n == 1 then 0 else n - 2);
      }
      RunsLonger(first, s, Receive, n - 1);
    }
  }

  /** A spawned task that names another network than the last outstanding message adds a change. */
  lemma OneMoreChange(first: Order, s: State, task: nat, n: nat)
    requires Sound(first, s) && task < |s.spawned|
    requires Changes(CurrentId(first, s), s.queue) >= 1
    requires s.spawned[task] != LastOf(CurrentId(first, s), s.queue)
    ensures RunsFor(first, s, n)
  {
    StepMoves(first, s, Enqueue(task));
    ChangesOfSnoc(CurrentId(first, s), s.queue, s.spawned[task]);
    RestlessRuns(first, Step(first, s, Enqueue(task)), n);
    RunsLonger(first, s, Enqueue(task), n);
  }

  /** Of two tasks that name different networks, one that does not name the current one goes first. */
  lemma TwoMoreChanges(first: Order, s: State, task: nat, other: nat, n: nat)
    requires Sound(first, s) && task < |s.spawned| && other < |s.spawned|
    requires Changes(CurrentId(first, s), s.queue) == 0
    requires s.spawned[task] != s.spawned[other] && s.spawned[task] != CurrentId(first, s)
    ensures RunsFor(first, s, n)
  {
    StepMoves(first, s, Enqueue(task));
    NoChangeMeansSame(CurrentId(first, s), s.queue);
    ChangesOfSnoc(CurrentId(first, s), s.queue, s.spawned[task]);
    var t := Step(first, s, Enqueue(task));
    var left := if other < task then other else other - 1;
    assert t.spawned[left] == s.spawned[other];
    OneMoreChange(first, t, left, n);
    RunsLonger(first, s, Enqueue(task), n);
  }

  lemma RestlessHasLongRuns(first: Order, s: State, n: nat)
    requires Sound(first, s) && !Calm(CurrentId(first, s), s.queue, s.spawned)
    ensures RunsFor(first, s, n)
  {
    var c := CurrentId(first, s);
    if Changes(c, s.queue) >= 2 {
      RestlessRuns(first, s, n);
    } else if Changes(c, s.queue) == 1 {
      var i :| 0 <= i < |s.spawned| && s.spawned[i] != LastOf(c, s.queue);
      OneMoreChange(first, s, i, n);
    } else {
      var i, j :| 0 <= i < |s.spawned| && 0 <= j < |s.spawned| && s.spawned[i] != s.spawned[j];
      if s.spawned[i] != c {
        TwoMoreChanges(first, s, i, j, n);
      } else {
        TwoMoreChanges(first, s, j, i, n);
      }
    }
  }

  /** There is a bound on how long the actor keeps answering its own announcements, over every
      schedule of its receiver and its spawned tasks, if and only if what is outstanding changes
      the current network at most once, whatever order the tasks run in.  With no task pending that
      is: reading the queue once changes it at most once. */
  lemma DiesOutIffCalm(first: Order, s: State)
    requires Sound(first, s)
    ensures (exists bound: nat :: IsBound(first, s, bound)) <==> Calm(CurrentId(first, s), s.queue, s.spawned)
    ensures s.spawned == [] ==>
              (Calm(CurrentId(first, s), s.queue, s.spawned) <==> Changes(CurrentId(first, s), s.queue) <= 1)
  {
    if Calm(CurrentId(first, s), s.queue, s.spawned) {
      var bound := CalmMeasure(CurrentId(first, s), s.queue, s.spawned);
      forall acts | StepAll(first, s, acts).Some?
        ensures |acts| <= bound
      {
        CalmRunsEnd(first, s, acts);
      }
      assert IsBound(first, s, bound);
    } else {
      forall bound: nat
        ensures !IsBound(first, s, bound)
      {
        RestlessHasLongRuns(first, s, bound + 1);
        var acts :| |acts| >= bound + 1 && StepAll(first, s, acts).Some?;
      }
    }
  }

  ghost predicate IsBound(first: Order, s: State, bound: nat)
    requires IsOrder(first) && s.registry.networks != map[]
  {
    forall acts :: StepAll(first, s, acts).Some? ==> |acts| <= bound
  }
}
