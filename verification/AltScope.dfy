/**
 * One wallet setup per RPC and account context. Each method is one uninterrupted stretch of code between
 * two awaits, so a schedule of method calls is an interleaving of any number of selections and runs.
 */
module AltScope {
  import opened Results

  /** A prepared value is known by the preparation that produced it; `None` stands for null. */
  datatype Context = Context(identity: nat, connection: nat, value: Option<nat>, pending: Option<nat>)

  datatype Outcome = Prepared | Null | Failed

  /** `selected` counts the contexts ever selected when the `then` callback ran. */
  datatype Phase = Preparing | Settled(outcome: Outcome, selected: nat) | Done(outcome: Outcome, selected: nat)
  datatype Preparation = Preparation(context: nat, phase: Phase)

  /** What a caller of `run` was handed. */
  datatype Answer = Refused | Threw | Ready(source: nat) | Joined(preparation: nat)
  datatype Call = Call(identity: nat, connection: nat, answer: Answer)

  /** How the awaited preparation ended. */
  datatype Reply = Value | NullValue | Error

  datatype Action =
    | Select(identity: nat, connection: nat)
    | Run(identity: nat, connection: nat, throws: bool)
    | Finish(preparation: nat, reply: Reply)
    | Cleanup(preparation: nat)

  predicate Matches(context: Context, identity: nat, connection: nat) {
    context.identity == identity && context.connection == connection
  }

  predicate Succeeded(p: Preparation) {
    !p.phase.Preparing? && p.phase.outcome == Prepared
  }

  /** The object a context is, apart from the value and promise it holds. */
  predicate ContextsValid(contexts: seq<Context>, tasks: seq<Preparation>) {
    forall c :: 0 <= c < |contexts| ==> ContextValid(contexts[c], c, tasks)
  }

  predicate ContextValid(context: Context, c: nat, tasks: seq<Preparation>) {
    && (context.value.Some? ==>
          var t := context.value.value;
          t < |tasks| && tasks[t].context == c && Succeeded(tasks[t]))
    && (context.pending.Some? ==>
          var t := context.pending.value;
          t < |tasks| && tasks[t].context == c && !tasks[t].phase.Done?)
  }

  /** Unfinished and successful preparations are on record in their context. */
  predicate TaskValid(task: Preparation, t: nat, contexts: seq<Context>) {
    && task.context < |contexts|
    && (!task.phase.Done? ==> contexts[task.context].pending == Some(t))
    && (Succeeded(task) ==> contexts[task.context].value == Some(t))
    && (task.phase.Preparing? ==> contexts[task.context].value == None)
    && (!task.phase.Preparing? ==>
          && task.context < task.phase.selected <= |contexts|
          && (task.phase.outcome != Failed ==> task.phase.selected == task.context + 1))
  }

  predicate TasksValid(tasks: seq<Preparation>, contexts: seq<Context>) {
    forall t :: 0 <= t < |tasks| ==> TaskValid(tasks[t], t, contexts)
  }

  /** In every context only the last preparation may be running or have succeeded. */
  predicate OneFlight(tasks: seq<Preparation>) {
    forall t, u :: 0 <= t < u < |tasks| && tasks[t].context == tasks[u].context
      ==> tasks[t].phase.Done? && tasks[t].phase.outcome != Prepared
  }

  predicate CallValid(call: Call, contexts: seq<Context>, tasks: seq<Preparation>) {
    && (call.answer.Ready? ==>
          var t := call.answer.source;
          && t < |tasks| && Succeeded(tasks[t]) && tasks[t].context < |contexts|
          && Matches(contexts[tasks[t].context], call.identity, call.connection))
    && (call.answer.Joined? ==>
          var t := call.answer.preparation;
          && t < |tasks| && tasks[t].context < |contexts|
          && Matches(contexts[tasks[t].context], call.identity, call.connection))
  }

  predicate CallsValid(calls: seq<Call>, contexts: seq<Context>, tasks: seq<Preparation>) {
    forall k :: 0 <= k < |calls| ==> CallValid(calls[k], contexts, tasks)
  }

  /** Contexts keep who they belong to, preparations their context, and success is never revoked. */
  predicate Later(contexts: seq<Context>, tasks: seq<Preparation>, contexts': seq<Context>, tasks': seq<Preparation>) {
    && |contexts| <= |contexts'| && |tasks| <= |tasks'|
    && (forall c :: 0 <= c < |contexts| ==> Matches(contexts'[c], contexts[c].identity, contexts[c].connection))
    && forall t :: 0 <= t < |tasks| ==>
         tasks'[t].context == tasks[t].context && (Succeeded(tasks[t]) ==> Succeeded(tasks'[t]))
  }

  lemma CallsStayValid(calls: seq<Call>, contexts: seq<Context>, tasks: seq<Preparation>,
                       contexts': seq<Context>, tasks': seq<Preparation>)
    requires CallsValid(calls, contexts, tasks) && Later(contexts, tasks, contexts', tasks')
    ensures CallsValid(calls, contexts', tasks')
  {
  }

  predicate StateValid(contexts: seq<Context>, tasks: seq<Preparation>) {
    ContextsValid(contexts, tasks) && TasksValid(tasks, contexts) && OneFlight(tasks)
  }

  function Begun(contexts: seq<Context>, tasks: seq<Preparation>, c: nat): (seq<Context>, seq<Preparation>)
    requires c < |contexts|
  {
    (contexts[c := contexts[c].(pending := Some(|tasks|))], tasks + [Preparation(c, Preparing)])
  }

  lemma BeginKeeps(contexts: seq<Context>, tasks: seq<Preparation>, c: nat)
    requires StateValid(contexts, tasks) && c < |contexts| && contexts[c].value.None? && contexts[c].pending.None?
    ensures var (contexts', tasks') := Begun(contexts, tasks, c);
            StateValid(contexts', tasks') && Later(contexts, tasks, contexts', tasks')
  {
  }

  lemma SelectKeeps(contexts: seq<Context>, tasks: seq<Preparation>, context: Context)
    requires StateValid(contexts, tasks) && context.value.None? && context.pending.None?
    ensures StateValid(contexts + [context], tasks) && Later(contexts, tasks, contexts + [context], tasks)
  {
  }

  /** The `then` callback: a value counts only while its context is still selected. */
  function Verdict(reply: Reply, current: bool): Outcome {
    if reply.Error? || !current then Failed else if reply.NullValue? then Null else Prepared
  }

  function Finished(contexts: seq<Context>, tasks: seq<Preparation>, t: nat, reply: Reply)
    : (seq<Context>, seq<Preparation>)
    requires t < |tasks| && tasks[t].context < |contexts|
  {
    var c := tasks[t].context;
    var outcome := Verdict(reply, c == |contexts| - 1);
    (if outcome == Prepared then contexts[c := contexts[c].(value := Some(t))] else contexts,
     tasks[t := Preparation(c, Settled(outcome, |contexts|))])
  }

  lemma FinishKeeps(contexts: seq<Context>, tasks: seq<Preparation>, t: nat, reply: Reply)
    requires StateValid(contexts, tasks) && t < |tasks| && tasks[t].phase.Preparing? && tasks[t].context < |contexts|
    ensures var (contexts', tasks') := Finished(contexts, tasks, t, reply);
            StateValid(contexts', tasks') && Later(contexts, tasks, contexts', tasks')
  {
  }

  function Cleaned(contexts: seq<Context>, tasks: seq<Preparation>, t: nat): (seq<Context>, seq<Preparation>)
    requires t < |tasks| && tasks[t].phase.Settled? && tasks[t].context < |contexts|
  {
    var c := tasks[t].context;
    (if contexts[c].pending == Some(t) then contexts[c := contexts[c].(pending := None)] else contexts,
     tasks[t := Preparation(c, Done(tasks[t].phase.outcome, tasks[t].phase.selected))])
  }

  lemma CleanupKeeps(contexts: seq<Context>, tasks: seq<Preparation>, t: nat)
    requires StateValid(contexts, tasks) && t < |tasks| && tasks[t].phase.Settled? && tasks[t].context < |contexts|
    ensures var (contexts', tasks') := Cleaned(contexts, tasks, t);
            StateValid(contexts', tasks') && Later(contexts, tasks, contexts', tasks')
  {
  }

  /** The context selected last belongs to this identity and this connection. */
  predicate LastIs(contexts: seq<Context>, identity: nat, connection: nat) {
    && contexts != []
    && contexts[|contexts| - 1].identity == identity && contexts[|contexts| - 1].connection == connection
  }

  predicate OnlyChanged(contexts: seq<Context>, contexts': seq<Context>, tasks: seq<Preparation>,
                        tasks': seq<Preparation>, t: nat)
    requires t < |tasks| && tasks[t].context < |contexts|
  {
    && |contexts'| == |contexts| && |tasks'| == |tasks| && tasks'[t].context == tasks[t].context
    && (forall c :: 0 <= c < |contexts| && c != tasks[t].context ==> contexts'[c] == contexts[c])
    && forall u :: 0 <= u < |tasks| && u != t ==> tasks'[u] == tasks[u]
  }

  /**
   * A value is kept exactly when it is not null and its context is still the one selected last; then, and only
   * then, the preparation succeeds. A null succeeds unkept there, and everything else is a rejection.
   */
  predicate FinishedAs(contexts: seq<Context>, contexts': seq<Context>, tasks: seq<Preparation>,
                       tasks': seq<Preparation>, t: nat, reply: Reply)
    requires t < |tasks| && tasks[t].context < |contexts|
  {
    var c := tasks[t].context;
    var current := c + 1 == |contexts|;
    && OnlyChanged(contexts, contexts', tasks, tasks', t)
    && contexts'[c].identity == contexts[c].identity && contexts'[c].connection == contexts[c].connection
    && contexts'[c].pending == contexts[c].pending
    && contexts'[c].value == (if reply == Value && current then Some(t) else contexts[c].value)
    && tasks'[t].phase.Settled? && tasks'[t].phase.selected == |contexts|
    && match tasks'[t].phase.outcome
       case Prepared => reply == Value && current
       case Null => reply == NullValue && current
       case Failed => reply == Error || !current
  }

  /** The promise of the context is cleared when it is this one, and nothing else is touched. */
  predicate CleanedAs(contexts: seq<Context>, contexts': seq<Context>, tasks: seq<Preparation>,
                      tasks': seq<Preparation>, t: nat)
    requires t < |tasks| && tasks[t].context < |contexts| && tasks[t].phase.Settled?
  {
    var c := tasks[t].context;
    && OnlyChanged(contexts, contexts', tasks, tasks', t)
    && contexts'[c].identity == contexts[c].identity && contexts'[c].connection == contexts[c].connection
    && contexts'[c].value == contexts[c].value && contexts'[c].pending != Some(t)
    && (contexts[c].pending != Some(t) ==> contexts'[c].pending == contexts[c].pending)
    && (contexts[c].pending == Some(t) ==> contexts'[c].pending == None)
    && tasks'[t].phase == Done(tasks[t].phase.outcome, tasks[t].phase.selected)
  }

  /** The context selected last belongs to whom it did, if there is one. */
  predicate SameOwner(contexts: seq<Context>, contexts': seq<Context>) {
    && (contexts == [] <==> contexts' == [])
    && (contexts != [] ==>
          LastIs(contexts', contexts[|contexts| - 1].identity, contexts[|contexts| - 1].connection))
  }

  /** No selection from the m-th action on, up to the n-th. */
  predicate NoneSelected(schedule: seq<Action>, m: nat, n: nat)
    requires n <= |schedule|
  {
    forall k :: m <= k < n ==> !schedule[k].Select?
  }

  /** The context selected last is that of the last selection among the first n actions, if there is one. */
  predicate SelectionStands(schedule: seq<Action>, n: nat, first: seq<Context>, contexts: seq<Context>)
    requires n <= |schedule|
  {
    && (NoneSelected(schedule, 0, n) ==> SameOwner(first, contexts))
    && forall m :: 0 <= m < n && schedule[m].Select? && NoneSelected(schedule, m + 1, n) ==>
         LastIs(contexts, schedule[m].identity, schedule[m].connection)
  }

  lemma SelectionNext(schedule: seq<Action>, n: nat, first: seq<Context>, before: seq<Context>,
                      contexts: seq<Context>)
    requires n < |schedule| && SelectionStands(schedule, n, first, before)
    requires if schedule[n].Select? then LastIs(contexts, schedule[n].identity, schedule[n].connection)
             else SameOwner(before, contexts)
    ensures SelectionStands(schedule, n + 1, first, contexts)
  {
    forall m | 0 <= m < n && schedule[m].Select? && NoneSelected(schedule, m + 1, n + 1)
      ensures LastIs(contexts, schedule[m].identity, schedule[m].connection)
    {
      assert NoneSelected(schedule, m + 1, n) && !schedule[n].Select?;
    }
  }

  function Callers(calls: seq<Call>): (s: seq<(nat, nat)>)
    ensures |s| == |calls|
  {
    seq(|calls|, k requires 0 <= k < |calls| => (calls[k].identity, calls[k].connection))
  }

  /** Who runs, in order. */
  function RunsOf(schedule: seq<Action>): seq<(nat, nat)> {
    if schedule == [] then []
    else
      var last := schedule[|schedule| - 1];
      RunsOf(schedule[..|schedule| - 1]) + if last.Run? then [(last.identity, last.connection)] else []
  }

  lemma RunsNext(schedule: seq<Action>, n: nat)
    requires n < |schedule|
    ensures RunsOf(schedule[..n + 1]) == RunsOf(schedule[..n]) + RunsOf([schedule[n]])
  {
    assert schedule[..n + 1][..n] == schedule[..n];
  }

  /** What callers can rely on after any schedule. */
  predicate Promised(contexts: seq<Context>, tasks: seq<Preparation>, calls: seq<Call>) {
    // one flight per context, and none after a success
    && (forall t, u :: 0 <= t < u < |tasks| && tasks[t].context == tasks[u].context
          ==> tasks[t].phase.Done? && tasks[t].phase.outcome != Prepared)
    // a preparation finished after its context was replaced is rejected
    && (forall t :: 0 <= t < |tasks| && !tasks[t].phase.Preparing? && tasks[t].phase.selected > tasks[t].context + 1
          ==> tasks[t].phase.outcome == Failed)
    // no caller is answered from another identity or connection
    && (forall k :: 0 <= k < |calls| && (calls[k].answer.Ready? || calls[k].answer.Joined?) ==>
          var t := if calls[k].answer.Ready? then calls[k].answer.source else calls[k].answer.preparation;
          && t < |tasks| && tasks[t].context < |contexts|
          && Matches(contexts[tasks[t].context], calls[k].identity, calls[k].connection)
          && (calls[k].answer.Ready? ==> Succeeded(tasks[t])))
  }

  lemma ValidKeepsPromise(contexts: seq<Context>, tasks: seq<Preparation>, calls: seq<Call>)
    requires StateValid(contexts, tasks) && CallsValid(calls, contexts, tasks)
    ensures Promised(contexts, tasks, calls)
  {
  }

  class PreparationScope {
    var current: Option<nat>
    // every context ever selected, and the promises and callers the event loop is holding
    var contexts: seq<Context>
    var tasks: seq<Preparation>
    var calls: seq<Call>

    ghost predicate Valid()
      reads this
    {
      && current == (if contexts == [] then None else Some(|contexts| - 1))
      && StateValid(contexts, tasks) && CallsValid(calls, contexts, tasks)
    }

    constructor ()
      ensures Valid() && contexts == [] && tasks == [] && calls == []
    {
      current, contexts, tasks, calls := None, [], [], [];
    }

    predicate IsSelected(identity: nat, connection: nat)
      reads this
    {
      current.Some? && current.value < |contexts| && Matches(contexts[current.value], identity, connection)
    }

    method Select(identity: nat, connection: nat)
      requires Valid()
      modifies this`current, this`contexts
      ensures Valid() && IsSelected(identity, connection)
      ensures contexts == old(contexts) <==> LastIs(old(contexts), identity, connection)
      ensures contexts == old(contexts) + (if old(IsSelected(identity, connection)) then []
                                           else [Context(identity, connection, None, None)])
    {
      if current.None? || !Matches(contexts[current.value], identity, connection) {
        var context := Context(identity, connection, None, None);
        SelectKeeps(contexts, tasks, context);
        CallsStayValid(calls, contexts, tasks, contexts + [context], tasks);
        contexts := contexts + [context];
        current := Some(|contexts| - 1);
      }
    }

    /** A preparation starts exactly when the context is selected and holds neither a value nor a promise. */
    method Run(identity: nat, connection: nat, throws: bool) returns (answer: Answer)
      requires Valid()
      modifies this`contexts, this`tasks, this`calls
      ensures Valid() && calls == old(calls) + [Call(identity, connection, answer)]
      ensures answer == Refused <==> !old(IsSelected(identity, connection))
      ensures answer == Refused <==> !LastIs(old(contexts), identity, connection)
      ensures answer.Ready? ==> contexts[|contexts| - 1].value == Some(answer.source)
      ensures var starts := old(IsSelected(identity, connection) && contexts[current.value].value.None?
                                && contexts[current.value].pending.None?);
              && (answer == Threw <==> starts && throws)
              && (contexts, tasks) == (if starts && !throws then Begun(old(contexts), old(tasks), current.value)
                                       else (old(contexts), old(tasks)))
              && (starts && !throws ==> answer == Joined(|old(tasks)|))
    {
      if current.None? || !Matches(contexts[current.value], identity, connection) {
        answer := Refused;
      } else {
        var context := contexts[current.value];
        assert ContextValid(context, current.value, tasks);
        if context.value.Some? {
          answer := Ready(context.value.value);
        } else if context.pending.Some? {
          answer := Joined(context.pending.value);
        } else if throws {
          answer := Threw;
        } else {
          answer := Joined(|tasks|);
          Begin();
        }
      }
      calls := calls + [Call(identity, connection, answer)];
    }

    method Begin()
      requires Valid() && current.Some? && contexts[current.value].value.None? && contexts[current.value].pending.None?
      modifies this`contexts, this`tasks
      ensures Valid() && (contexts, tasks) == Begun(old(contexts), old(tasks), current.value)
    {
      BeginKeeps(contexts, tasks, current.value);
      var (contexts', tasks') := Begun(contexts, tasks, current.value);
      CallsStayValid(calls, contexts, tasks, contexts', tasks');
      contexts, tasks := contexts', tasks';
    }

    /** The preparation's promise settled and its `then` callback ran. */
    method Finish(t: nat, reply: Reply)
      requires Valid() && t < |tasks| && tasks[t].phase.Preparing?
      modifies this`contexts, this`tasks
      ensures Valid() && old(tasks[t].context) < |old(contexts)|
      ensures (contexts, tasks) == Finished(old(contexts), old(tasks), t, reply)
      ensures FinishedAs(old(contexts), contexts, old(tasks), tasks, t, reply)
    {
      assert TaskValid(tasks[t], t, contexts);
      FinishKeeps(contexts, tasks, t, reply);
      var (contexts', tasks') := Finished(contexts, tasks, t, reply);
      CallsStayValid(calls, contexts, tasks, contexts', tasks');
      contexts, tasks := contexts', tasks';
    }

    /** The `finally` callback clears the context's promise only when it is still this one. */
    method Cleanup(t: nat)
      requires Valid() && t < |tasks| && tasks[t].phase.Settled?
      modifies this`contexts, this`tasks
      ensures Valid() && old(tasks[t].context) < |old(contexts)|
      ensures (contexts, tasks) == Cleaned(old(contexts), old(tasks), t)
      ensures CleanedAs(old(contexts), contexts, old(tasks), tasks, t)
    {
      assert TaskValid(tasks[t], t, contexts);
      CleanupKeeps(contexts, tasks, t);
      var (contexts', tasks') := Cleaned(contexts, tasks, t);
      CallsStayValid(calls, contexts, tasks, contexts', tasks');
      contexts, tasks := contexts', tasks';
    }

    /** One stretch of code; an action that is not due does nothing. */
    method Act(action: Action)
      requires Valid()
      modifies this
      ensures Valid()
      ensures if action.Select? then LastIs(contexts, action.identity, action.connection)
              else SameOwner(old(contexts), contexts)
      ensures Callers(calls) == Callers(old(calls)) + RunsOf([action])
      ensures action.Finish? && action.preparation < |old(tasks)| && old(tasks[action.preparation]).phase.Preparing? ==>
                old(tasks[action.preparation]).context < |old(contexts)|
                && FinishedAs(old(contexts), contexts, old(tasks), tasks, action.preparation, action.reply)
      ensures action.Cleanup? && action.preparation < |old(tasks)| && old(tasks[action.preparation]).phase.Settled? ==>
                old(tasks[action.preparation]).context < |old(contexts)|
                && CleanedAs(old(contexts), contexts, old(tasks), tasks, action.preparation)
    {
      match action
      case Select(identity, connection) => Select(identity, connection);
      case Run(identity, connection, throws) => var _ := Run(identity, connection, throws);
      case Finish(t, reply) => if t < |tasks| && tasks[t].phase.Preparing? { Finish(t, reply); }
      case Cleanup(t) => if t < |tasks| && tasks[t].phase.Settled? { Cleanup(t); }
    }

    /** Any schedule: its runs are the calls, in order, and its last selection is the one that stands. */
    method RunSchedule(schedule: seq<Action>)
      requires Valid()
      modifies this
      ensures Valid() && Promised(contexts, tasks, calls)
      ensures Callers(calls) == Callers(old(calls)) + RunsOf(schedule)
      ensures SelectionStands(schedule, |schedule|, old(contexts), contexts)
    {
      for n := 0 to |schedule|
        invariant Valid()
        invariant Callers(calls) == Callers(old(calls)) + RunsOf(schedule[..n])
        invariant SelectionStands(schedule, n, old(contexts), contexts)
      {
        RunsNext(schedule, n);
        ghost var before := contexts;
        Act(schedule[n]);
        SelectionNext(schedule, n, old(contexts), before, contexts);
      }
      assert schedule[..|schedule|] == schedule;
      ValidKeepsPromise(contexts, tasks, calls);
    }
  }

  /** A preparation that resolves to null is not remembered: the same context prepares again. */
  method NullIsPreparedAgain() returns (scope: PreparationScope)
    ensures |scope.tasks| == 2 && scope.tasks[0].context == scope.tasks[1].context
    ensures scope.tasks[0].phase == Done(Null, 1) && scope.tasks[1].phase == Preparing
  {
    scope := new PreparationScope();
    scope.Select(0, 0);
    var first := scope.Run(0, 0, false);
    scope.Finish(0, NullValue);
    scope.Cleanup(0);
    var second := scope.Run(0, 0, false);
  }
}
