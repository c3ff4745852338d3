/**
 * The per-connection read cache. Each method is one uninterrupted stretch of code between two awaits,
 * so a schedule of method calls is an interleaving of any number of readers and invalidations.
 */
module RpcCache {
  import opened Results

  const TTL := 5_000

  type Key = nat

  /** A cached value is known by the read that produced it. */
  datatype Entry = Entry(source: nat, at: int)

  /** A read's promise: running, past its `then` callback, or past its `finally` callback. */
  datatype Phase = Reading | Settled(ok: bool) | Done(ok: bool)
  datatype Task = Task(key: Key, generation: nat, begun: nat, phase: Phase)

  /** One call of `cachedRead`, made at step `made`, when `invalidations` invalidations had happened. */
  datatype Progress = CheckingChain | Waiting(task: nat) | Returned(source: nat) | Rejected
  datatype Call = Call(key: Key, made: nat, invalidations: nat, progress: Progress)

  datatype Action =
    | Make(key: Key)
    | Resume(call: nat, chainOk: bool)
    | Settle(task: nat, readOk: bool)
    | Cleanup(task: nat)
    | Deliver(call: nat)
    | Invalidate
    | Sleep(ms: nat)

  /** A read of generation g began after each of the first g invalidations. */
  predicate TaskValid(task: Task, generation: nat, invalidatedAt: seq<nat>, steps: nat) {
    && task.generation <= generation == |invalidatedAt| && task.begun <= steps
    && forall i :: 0 <= i < task.generation ==> invalidatedAt[i] < task.begun
  }

  predicate TasksValid(tasks: seq<Task>, generation: nat, invalidatedAt: seq<nat>, steps: nat) {
    && |invalidatedAt| == generation && (forall i :: 0 <= i < generation ==> invalidatedAt[i] < steps)
    && forall t :: 0 <= t < |tasks| ==> TaskValid(tasks[t], generation, invalidatedAt, steps)
  }

  predicate Succeeded(task: Task) {
    task.phase == Settled(true) || task.phase == Done(true)
  }

  /** What has been returned, or will be, comes from a read of the same key begun late enough. */
  predicate CallValid(call: Call, tasks: seq<Task>, generation: nat) {
    && call.invalidations <= generation
    && (call.progress.Waiting? ==>
          call.progress.task < |tasks| && tasks[call.progress.task].key == call.key
          && call.invalidations <= tasks[call.progress.task].generation)
    && (call.progress.Returned? ==>
          call.progress.source < |tasks| && tasks[call.progress.source].key == call.key
          && call.invalidations <= tasks[call.progress.source].generation && Succeeded(tasks[call.progress.source]))
  }

  predicate CallsValid(calls: seq<Call>, tasks: seq<Task>, generation: nat) {
    forall c :: 0 <= c < |calls| ==> CallValid(calls[c], tasks, generation)
  }

  /** The invalidations counted by a call are exactly those that ran before it was made. */
  predicate CallTimed(call: Call, invalidatedAt: seq<nat>, steps: nat) {
    && call.made < steps && call.invalidations <= |invalidatedAt|
    && (forall i :: 0 <= i < call.invalidations ==> invalidatedAt[i] < call.made)
    && forall i :: call.invalidations <= i < |invalidatedAt| ==> call.made < invalidatedAt[i]
  }

  predicate CallsTimed(calls: seq<Call>, invalidatedAt: seq<nat>, steps: nat) {
    forall c :: 0 <= c < |calls| ==> CallTimed(calls[c], invalidatedAt, steps)
  }

  predicate CacheValid(cache: map<Key, Entry>, tasks: seq<Task>, generation: nat) {
    forall k :: k in cache ==>
      var t := cache[k].source;
      t < |tasks| && tasks[t].key == k && tasks[t].generation == generation && Succeeded(tasks[t])
  }

  /** The pending map lists exactly the unfinished reads of the current generation. */
  predicate PendingValid(pending: map<Key, nat>, tasks: seq<Task>, generation: nat) {
    && (forall k :: k in pending ==>
          pending[k] < |tasks| && tasks[pending[k]].key == k
          && tasks[pending[k]].generation == generation && !tasks[pending[k]].phase.Done?)
    && (forall t :: 0 <= t < |tasks| && tasks[t].generation == generation && !tasks[t].phase.Done? ==>
          tasks[t].key in pending && pending[tasks[t].key] == t)
  }

  /** At most one read of a key is in flight per generation, now and ever. */
  predicate OneFlight(tasks: seq<Task>) {
    forall t, u :: 0 <= t < u < |tasks| && tasks[t].key == tasks[u].key && tasks[t].generation == tasks[u].generation
      ==> tasks[t].phase.Done? || tasks[u].phase.Done?
  }

  /** `later` is `tasks` with some reads added or further along; success is never revoked. */
  predicate Advanced(tasks: seq<Task>, later: seq<Task>) {
    && |tasks| <= |later|
    && forall t :: 0 <= t < |tasks| ==>
         && later[t].key == tasks[t].key && later[t].generation == tasks[t].generation
         && (Succeeded(tasks[t]) ==> Succeeded(later[t]))
  }

  lemma AdvancedKeeps(calls: seq<Call>, cache: map<Key, Entry>, tasks: seq<Task>, later: seq<Task>, generation: nat)
    requires CallsValid(calls, tasks, generation) && CacheValid(cache, tasks, generation) && Advanced(tasks, later)
    ensures CallsValid(calls, later, generation) && CacheValid(cache, later, generation)
  {
  }

  /** A read begun with no pending entry for its key is the only one of its generation. */
  lemma BeginKeepsOneFlight(pending: map<Key, nat>, tasks: seq<Task>, generation: nat, task: Task)
    requires PendingValid(pending, tasks, generation) && OneFlight(tasks)
    requires task.generation == generation && task.phase == Reading && task.key !in pending
    ensures OneFlight(tasks + [task]) && PendingValid(pending[task.key := |tasks|], tasks + [task], generation)
  {
  }

  lemma DoneKeeps(pending: map<Key, nat>, tasks: seq<Task>, generation: nat, t: nat)
    requires PendingValid(pending, tasks, generation) && OneFlight(tasks) && t < |tasks| && tasks[t].phase.Settled?
    ensures var done := tasks[t := tasks[t].(phase := Done(tasks[t].phase.ok))];
            && OneFlight(done)
            && PendingValid(if tasks[t].generation == generation then pending - {tasks[t].key} else pending,
                            done, generation)
    ensures tasks[t].key in pending && pending[tasks[t].key] == t <==> tasks[t].generation == generation
  {
  }

  /** A settled read keeps its place in the pending map until its cleanup. */
  lemma SettleKeeps(pending: map<Key, nat>, tasks: seq<Task>, generation: nat, t: nat, ok: bool)
    requires PendingValid(pending, tasks, generation) && OneFlight(tasks) && t < |tasks| && tasks[t].phase == Reading
    ensures var settled := tasks[t := tasks[t].(phase := Settled(ok))];
            OneFlight(settled) && PendingValid(pending, settled, generation) && Advanced(tasks, settled)
  {
  }

  lemma FillKeeps(cache: map<Key, Entry>, tasks: seq<Task>, generation: nat, t: nat, at: int)
    requires CacheValid(cache, tasks, generation) && t < |tasks| && tasks[t].generation == generation
    requires Succeeded(tasks[t])
    ensures CacheValid(cache[tasks[t].key := Entry(t, at)], tasks, generation)
  {
  }

  /** A value returned to the call was read for its key after the i-th invalidation. */
  predicate FreshFor(call: Call, tasks: seq<Task>, invalidatedAt: seq<nat>, i: nat)
    requires call.progress.Returned?
  {
    var t := call.progress.source;
    t < |tasks| && i < |invalidatedAt| && tasks[t].key == call.key && invalidatedAt[i] < tasks[t].begun
  }

  // ---- what an action leaves behind ----

  /** Nothing recorded is lost, no call goes back to its chain check and no read starts over. */
  predicate Onward(calls: seq<Call>, calls': seq<Call>, tasks: seq<Task>, tasks': seq<Task>,
                   invalidatedAt: seq<nat>, invalidatedAt': seq<nat>)
  {
    && |calls| <= |calls'| && |tasks| <= |tasks'| && invalidatedAt <= invalidatedAt'
    && (forall c :: 0 <= c < |calls| ==>
          && calls'[c].key == calls[c].key && calls'[c].made == calls[c].made
          && (calls[c].progress != CheckingChain ==> calls'[c].progress != CheckingChain))
    && forall t :: 0 <= t < |tasks| ==>
         && tasks'[t].key == tasks[t].key && tasks'[t].begun == tasks[t].begun
         && (tasks[t].phase != Reading ==> tasks'[t].phase != Reading)
  }

  /**
   * The mark of an action at a step: the invalidation or the call it made, and for a call or read it moved on
   * that this is no longer at its start.
   */
  predicate Left(action: Action, step: nat, calls: seq<Call>, tasks: seq<Task>, invalidatedAt: seq<nat>) {
    match action
    case Invalidate => step in invalidatedAt
    case Make(key) => exists c :: 0 <= c < |calls| && calls[c].made == step && calls[c].key == key
    case Resume(c, _) => c < |calls| && calls[c].made < step ==> calls[c].progress != CheckingChain
    case Settle(t, _) => t < |tasks| && tasks[t].begun < step ==> tasks[t].phase != Reading
    case _ => true
  }

  lemma StaysLeft(action: Action, step: nat, calls: seq<Call>, calls': seq<Call>, tasks: seq<Task>,
                  tasks': seq<Task>, invalidatedAt: seq<nat>, invalidatedAt': seq<nat>)
    requires Left(action, step, calls, tasks, invalidatedAt)
    requires Onward(calls, calls', tasks, tasks', invalidatedAt, invalidatedAt')
    requires forall c :: |calls| <= c < |calls'| ==> calls'[c].made > step
    requires forall t :: |tasks| <= t < |tasks'| ==> tasks'[t].begun > step
    ensures Left(action, step, calls', tasks', invalidatedAt')
  {
    if action.Make? {
      var c :| 0 <= c < |calls| && calls[c].made == step && calls[c].key == action.key;
      assert calls'[c].made == step && calls'[c].key == action.key;
    }
  }

  lemma OnwardTwice(calls: seq<Call>, calls': seq<Call>, calls'': seq<Call>, tasks: seq<Task>, tasks': seq<Task>,
                    tasks'': seq<Task>, inv: seq<nat>, inv': seq<nat>, inv'': seq<nat>)
    requires Onward(calls, calls', tasks, tasks', inv, inv') && Onward(calls', calls'', tasks', tasks'', inv', inv'')
    ensures Onward(calls, calls'', tasks, tasks'', inv, inv'')
  {
  }

  class RpcState {
    var cache: map<Key, Entry>
    var pending: map<Key, nat>
    var generation: nat
    // the promises and callers the event loop is holding
    var tasks: seq<Task>
    var calls: seq<Call>
    var invalidatedAt: seq<nat>  // the step at which each invalidation ran
    var steps: nat
    var now: int

    constructor ()
      ensures Valid() && tasks == [] && calls == []
    {
      cache, pending, generation, tasks, calls, invalidatedAt, steps, now := map[], map[], 0, [], [], [], 0, 0;
    }

    ghost predicate Valid()
      reads this
    {
      && TasksValid(tasks, generation, invalidatedAt, steps) && CallsValid(calls, tasks, generation)
      && CacheValid(cache, tasks, generation) && PendingValid(pending, tasks, generation) && OneFlight(tasks)
      && CallsTimed(calls, invalidatedAt, steps)
    }

    /** A caller enters and first awaits the chain identity check. */
    method MakeCall(key: Key)
      requires Valid()
      modifies this`calls, this`steps
      ensures Valid() && calls == old(calls) + [Call(key, old(steps), generation, CheckingChain)]
      ensures steps == old(steps) + 1
    {
      calls := calls + [Call(key, steps, generation, CheckingChain)];
      steps := steps + 1;
    }

    /** After the chain check: answer from the cache, join a pending read, or begin a new one. */
    method ResumeCall(c: nat, chainOk: bool)
      requires Valid() && c < |calls| && calls[c].progress == CheckingChain
      modifies this`calls, this`steps, this`tasks, this`pending
      ensures Valid() && |calls| == |old(calls)| && steps == old(steps) + 1
      ensures var key := old(calls)[c].key;
              calls == old(calls)[c := old(calls)[c].(progress :=
                if !chainOk then Rejected
                else if key in cache && now - cache[key].at < TTL then Returned(cache[key].source)
                else if key in old(pending) then Waiting(old(pending)[key])
                else Waiting(|old(tasks)|))]
      ensures var key := old(calls)[c].key;
              tasks == old(tasks)
                       + (if chainOk && !(key in cache && now - cache[key].at < TTL) && key !in old(pending)
                          then [Task(key, generation, old(steps), Reading)] else [])
    {
      var key := calls[c].key;
      if !chainOk {
        SetProgress(c, Rejected);
      } else if key in cache && now - cache[key].at < TTL {
        SetProgress(c, Returned(cache[key].source));
      } else if key in pending {
        SetProgress(c, Waiting(pending[key]));
      } else {
        BeginRead(key);
        SetProgress(c, Waiting(|tasks| - 1));
      }
    }

    /** The next step. */
    method Tick()
      requires Valid()
      modifies this`steps
      ensures Valid() && steps == old(steps) + 1
    {
      steps := steps + 1;
      assert forall c :: 0 <= c < |calls| ==> CallTimed(calls[c], invalidatedAt, steps - 1);
      assert forall t :: 0 <= t < |tasks| ==> TaskValid(tasks[t], generation, invalidatedAt, steps - 1);
    }

    /** One caller moves on. */
    method SetProgress(c: nat, progress: Progress)
      requires Valid() && c < |calls| && CallValid(calls[c].(progress := progress), tasks, generation)
      modifies this`calls, this`steps
      ensures Valid() && calls == old(calls)[c := old(calls)[c].(progress := progress)] && steps == old(steps) + 1
    {
      calls := calls[c := calls[c].(progress := progress)];
      steps := steps + 1;
    }

    /** Starts a read under the current generation and registers its promise. */
    method BeginRead(key: Key)
      requires Valid() && key !in pending
      modifies this`tasks, this`pending
      ensures Valid() && tasks == old(tasks) + [Task(key, generation, steps, Reading)]
      ensures pending == old(pending)[key := |old(tasks)|]
    {
      var task := Task(key, generation, steps, Reading);
      BeginKeepsOneFlight(pending, tasks, generation, task);
      AdvancedKeeps(calls, cache, tasks, tasks + [task], generation);
      pending := pending[key := |tasks|];
      tasks := tasks + [task];
    }

    /** The read resolved or failed: only a read of the current generation may fill the cache. */
    method SettleRead(t: nat, readOk: bool)
      requires Valid() && t < |tasks| && tasks[t].phase == Reading
      modifies this`tasks, this`cache, this`steps
      ensures Valid() && steps == old(steps) + 1
      ensures tasks == old(tasks)[t := old(tasks)[t].(phase := Settled(readOk))]
      ensures cache == if readOk && tasks[t].generation == generation
                       then old(cache)[tasks[t].key := Entry(t, now)] else old(cache)
    {
      var settled := tasks[t := tasks[t].(phase := Settled(readOk))];
      SettleKeeps(pending, tasks, generation, t, readOk);
      AdvancedKeeps(calls, cache, tasks, settled, generation);
      if readOk && generation == tasks[t].generation {
        FillKeeps(cache, settled, generation, t, now);
        cache := cache[tasks[t].key := Entry(t, now)];
      }
      tasks := settled;
      steps := steps + 1;
    }

    /** The cleanup callback removes only the read's own pending entry. */
    method CleanupRead(t: nat)
      requires Valid() && t < |tasks| && tasks[t].phase.Settled?
      modifies this`tasks, this`pending, this`steps
      ensures Valid() && steps == old(steps) + 1
      ensures tasks == old(tasks)[t := old(tasks)[t].(phase := Done(old(tasks)[t].phase.ok))]
      ensures pending == if tasks[t].generation == generation then old(pending) - {tasks[t].key} else old(pending)
    {
      var key := tasks[t].key;
      DoneKeeps(pending, tasks, generation, t);
      AdvancedKeeps(calls, cache, tasks, tasks[t := tasks[t].(phase := Done(tasks[t].phase.ok))], generation);
      if key in pending && pending[key] == t {
        pending := pending - {key};
      }
      tasks := tasks[t := tasks[t].(phase := Done(tasks[t].phase.ok))];
      steps := steps + 1;
    }

    /** A waiting caller receives the outcome of the read it waited for. */
    method DeliverCall(c: nat)
      requires Valid() && c < |calls| && calls[c].progress.Waiting?
      requires calls[c].progress.task < |tasks| && tasks[calls[c].progress.task].phase.Done?
      modifies this`calls, this`steps
      ensures Valid() && steps == old(steps) + 1
      ensures var t := old(calls)[c].progress.task;
              calls == old(calls)[c := old(calls)[c].(progress := if tasks[t].phase.ok then Returned(t) else Rejected)]
    {
      var t := calls[c].progress.task;
      SetProgress(c, if tasks[t].phase.ok then Returned(t) else Rejected);
    }

    method InvalidateCache()
      requires Valid()
      modifies this`cache, this`pending, this`generation, this`invalidatedAt, this`steps
      ensures Valid() && cache == map[] && pending == map[] && generation == old(generation) + 1
      ensures invalidatedAt == old(invalidatedAt) + [old(steps)] && steps == old(steps) + 1
    {
      generation := generation + 1;
      cache := map[];
      pending := map[];
      invalidatedAt := invalidatedAt + [steps];
      steps := steps + 1;
    }

    /** The read this caller waits for has ended. */
    predicate HasOutcome(call: Call)
      reads this`tasks
    {
      call.progress.Waiting? && call.progress.task < |tasks| && tasks[call.progress.task].phase.Done?
    }

    /** The action finds its call or read at the point it is about. */
    predicate IsDue(action: Action)
      reads this`calls, this`tasks
    {
      match action
      case Resume(c, _) => c < |calls| && calls[c].progress == CheckingChain
      case Deliver(c) => c < |calls| && HasOutcome(calls[c])
      case Settle(t, _) => t < |tasks| && tasks[t].phase == Reading
      case Cleanup(t) => t < |tasks| && tasks[t].phase.Settled?
      case _ => true
    }

    method MoveCall(action: Action)
      requires Valid() && (action.Resume? || action.Deliver?)
      modifies this`calls, this`tasks, this`pending, this`steps
      ensures Valid() && steps == old(steps) + 1 && |calls| == |old(calls)|
      ensures Onward(old(calls), calls, old(tasks), tasks, invalidatedAt, invalidatedAt)
      ensures Left(action, old(steps), calls, tasks, invalidatedAt)
      ensures forall t :: |old(tasks)| <= t < |tasks| ==> tasks[t].begun == old(steps)
      ensures action.Deliver? && action.call < |old(calls)| && old(HasOutcome(calls[action.call])) ==>
                calls[action.call].progress.Returned? || calls[action.call].progress.Rejected?
      ensures !old(IsDue(action)) ==> calls == old(calls) && tasks == old(tasks) && pending == old(pending)
    {
      var c := action.call;
      if action.Resume? && c < |calls| && calls[c].progress == CheckingChain {
        ResumeCall(c, action.chainOk);
      } else if action.Deliver? && c < |calls| && calls[c].progress.Waiting? {
        assert CallValid(calls[c], tasks, generation);
        if tasks[calls[c].progress.task].phase.Done? { DeliverCall(c); } else { Tick(); }
      } else {
        Tick();
      }
    }

    method MoveRead(action: Action)
      requires Valid() && (action.Settle? || action.Cleanup?)
      modifies this`cache, this`tasks, this`pending, this`steps
      ensures Valid() && steps == old(steps) + 1 && |tasks| == |old(tasks)|
      ensures Onward(calls, calls, old(tasks), tasks, invalidatedAt, invalidatedAt)
      ensures Left(action, old(steps), calls, tasks, invalidatedAt)
      ensures action.Cleanup? && action.task < |old(tasks)| && old(tasks)[action.task].phase.Settled? ==>
                tasks[action.task].phase.Done?
      ensures !old(IsDue(action)) ==> cache == old(cache) && tasks == old(tasks) && pending == old(pending)
    {
      var t := action.task;
      if action.Settle? && t < |tasks| && tasks[t].phase == Reading {
        SettleRead(t, action.readOk);
      } else if action.Cleanup? && t < |tasks| && tasks[t].phase.Settled? {
        CleanupRead(t);
      } else {
        Tick();
      }
    }

    /** One stretch of code at the next step; an action that is not due does nothing. */
    method Act(action: Action)
      requires Valid()
      modifies this
      ensures Valid() && steps == old(steps) + 1
      ensures Onward(old(calls), calls, old(tasks), tasks, old(invalidatedAt), invalidatedAt)
      ensures Left(action, old(steps), calls, tasks, invalidatedAt)
      ensures forall c :: |old(calls)| <= c < |calls| ==> calls[c].made == old(steps)
      ensures forall t :: |old(tasks)| <= t < |tasks| ==> tasks[t].begun == old(steps)
      ensures action.Deliver? && action.call < |old(calls)| && old(HasOutcome(calls[action.call])) ==>
                calls[action.call].progress.Returned? || calls[action.call].progress.Rejected?
      ensures action.Cleanup? && action.task < |old(tasks)| && old(tasks)[action.task].phase.Settled? ==>
                tasks[action.task].phase.Done?
      ensures !old(IsDue(action)) ==>
                calls == old(calls) && tasks == old(tasks) && cache == old(cache) && pending == old(pending)
      ensures now == old(now) + if action.Sleep? then action.ms else 0
      ensures |invalidatedAt| == |old(invalidatedAt)| + if action == Invalidate then 1 else 0
      ensures |calls| == |old(calls)| + if action.Make? then 1 else 0
    {
      match action
      case Make(key) =>
        MakeCall(key);
        assert calls[|calls| - 1].made == old(steps) && calls[|calls| - 1].key == key;
      case Invalidate =>
        InvalidateCache();
        assert invalidatedAt[|invalidatedAt| - 1] == old(steps);
      case Sleep(ms) =>
        now := now + ms;
        Tick();
      case Resume(_, _) => MoveCall(action);
      case Deliver(_) => MoveCall(action);
      case Settle(_, _) => MoveRead(action);
      case Cleanup(_) => MoveRead(action);
    }

    /**
     * Any schedule whatsoever, its n-th action at step n after the first. Every action leaves its mark, and every
     * value handed to a caller was read, for that caller's key, after every invalidation of the schedule that
     * preceded the call.
     */
    method RunSchedule(schedule: seq<Action>)
      requires Valid()
      modifies this
      ensures Valid() && steps == old(steps) + |schedule|
      ensures Onward(old(calls), calls, old(tasks), tasks, old(invalidatedAt), invalidatedAt)
      ensures forall n :: 0 <= n < |schedule| ==> Left(schedule[n], old(steps) + n, calls, tasks, invalidatedAt)
      ensures forall c, n :: 0 <= c < |calls| && calls[c].progress.Returned? && 0 <= n < |schedule|
                             && schedule[n] == Invalidate && old(steps) + n < calls[c].made ==>
                var t := calls[c].progress.source;
                t < |tasks| && tasks[t].key == calls[c].key && old(steps) + n < tasks[t].begun
      ensures forall c, i :: 0 <= c < |calls| && calls[c].progress.Returned? && 0 <= i < calls[c].invalidations ==>
                var t := calls[c].progress.source;
                t < |tasks| && i < |invalidatedAt| && tasks[t].key == calls[c].key && invalidatedAt[i] < tasks[t].begun
    {
      for n := 0 to |schedule|
        invariant Valid() && steps == old(steps) + n
        invariant Onward(old(calls), calls, old(tasks), tasks, old(invalidatedAt), invalidatedAt)
        invariant forall m :: 0 <= m < n ==> Left(schedule[m], old(steps) + m, calls, tasks, invalidatedAt)
      {
        ghost var c, t, i := calls, tasks, invalidatedAt;
        Act(schedule[n]);
        forall m | 0 <= m < n ensures Left(schedule[m], old(steps) + m, calls, tasks, invalidatedAt) {
          StaysLeft(schedule[m], old(steps) + m, c, calls, t, tasks, i, invalidatedAt);
        }
        OnwardTwice(old(calls), c, calls, old(tasks), t, tasks, old(invalidatedAt), i, invalidatedAt);
      }
      forall c, i | 0 <= c < |calls| && calls[c].progress.Returned? && 0 <= i < calls[c].invalidations
        ensures FreshFor(calls[c], tasks, invalidatedAt, i)
      {
        assert CallValid(calls[c], tasks, generation);
        assert TaskValid(tasks[calls[c].progress.source], generation, invalidatedAt, steps);
      }
      forall c, n | 0 <= c < |calls| && calls[c].progress.Returned? && 0 <= n < |schedule|
                    && schedule[n] == Invalidate && old(steps) + n < calls[c].made
        ensures var t := calls[c].progress.source;
                t < |tasks| && tasks[t].key == calls[c].key && old(steps) + n < tasks[t].begun
      {
        assert Left(schedule[n], old(steps) + n, calls, tasks, invalidatedAt);
        var i :| 0 <= i < |invalidatedAt| && invalidatedAt[i] == old(steps) + n;
        assert CallTimed(calls[c], invalidatedAt, steps);
        assert FreshFor(calls[c], tasks, invalidatedAt, i);
      }
    }
  }
}
