/**
 * A run of the bootstrap. What the outside answers at each await and each clock reading is an arbitrary
 * function of the point reached; an answer that is lost leaves only the durable journal and what was broadcast.
 */
module Bootstrap {
  import opened Results
  import opened BootstrapHistory

  datatype Stop =
    | NoReply | IdentityMismatch | InvalidBudget | InvalidReply | OverBudget | LowBalance | Deadline
    | Unclear | ReceiptStateMismatch | NotAuthority | SimulationFailed | StateAdvanced | WrongSignature
    | TransactionFailed | Ambiguous | Incomplete | Locked

  datatype State = State(satisfied: set<Step>, missingRent: seq<nat>, authority: bool)

  datatype TxStatus = Unseen | Failed | Done

  /** What the outside answers at one point of a run; each await and each clock reading uses the part it asks for. */
  datatype Reply = Reply(
    lost: bool, late: bool, renamed: bool, state: State, balance: int, rent: int, fee: int, signature: nat,
    simulated: bool, returned: Option<nat>, status: TxStatus)

  /** What a process meets, how it ends, and whether an operator clears the lock after it. */
  datatype Process = Process(replies: nat -> Reply, crashed: bool, cleared: bool)

  /** A lock is held after n processes when it was taken, at first or by a crash, and not cleared since. */
  predicate HeldAfter(held: bool, runs: seq<Process>, n: nat)
    requires n <= |runs|
  {
    || (held && KeptFrom(runs, 0, n))
    || exists m :: 0 <= m < n && runs[m].crashed && KeptFrom(runs, m, n)
  }

  predicate KeptFrom(runs: seq<Process>, m: nat, n: nat)
    requires n <= |runs|
  {
    forall i :: m <= i < n ==> !runs[i].cleared
  }

  lemma HeldNext(held: bool, runs: seq<Process>, n: nat)
    requires n < |runs|
    ensures HeldAfter(held, runs, n + 1) <==>
              !runs[n].cleared && (HeldAfter(held, runs, n) || runs[n].crashed)
  {
    if !runs[n].cleared && HeldAfter(held, runs, n) {
      if exists m :: 0 <= m < n && runs[m].crashed && KeptFrom(runs, m, n) {
        var m :| 0 <= m < n && runs[m].crashed && KeptFrom(runs, m, n);
        assert KeptFrom(runs, m, n + 1);
      }
    }
    if !runs[n].cleared && runs[n].crashed { assert KeptFrom(runs, n, n + 1); }
    if HeldAfter(held, runs, n + 1) {
      if !(held && KeptFrom(runs, 0, n + 1)) {
        var m :| 0 <= m < n + 1 && runs[m].crashed && KeptFrom(runs, m, n + 1);
        assert KeptFrom(runs, m, n);
      }
    }
  }

  /** Every step but the owner proposal creates an account, which needs a rent reserve. */
  predicate CreatesAccount(step: Step) {
    step != ProposeOwner
  }

  function Remaining(satisfied: set<Step>, k: nat): (n: nat)
    requires k <= |PLAN|
    ensures n <= |PLAN| - k
    decreases |PLAN| - k
  {
    if k == |PLAN| then 0 else (if PLAN[k] in satisfied then 0 else 1) + Remaining(satisfied, k + 1)
  }

  /** Exactly the unsatisfied steps of the plan remain. */
  lemma RemainingIs(satisfied: set<Step>)
    ensures Remaining(satisfied, 0) ==
              (if InitWhitelist in satisfied then 0 else 1) + (if InitFactory in satisfied then 0 else 1)
              + (if Admit(0) in satisfied then 0 else 1) + (if Admit(1) in satisfied then 0 else 1)
              + (if Admit(2) in satisfied then 0 else 1) + (if Admit(3) in satisfied then 0 else 1)
              + (if ProposeOwner in satisfied then 0 else 1)
  {
    assert Remaining(satisfied, 7) == 0;
    assert Remaining(satisfied, 6) == if ProposeOwner in satisfied then 0 else 1;
    assert Remaining(satisfied, 5) == (if Admit(3) in satisfied then 0 else 1) + Remaining(satisfied, 6);
    assert Remaining(satisfied, 4) == (if Admit(2) in satisfied then 0 else 1) + Remaining(satisfied, 5);
    assert Remaining(satisfied, 3) == (if Admit(1) in satisfied then 0 else 1) + Remaining(satisfied, 4);
    assert Remaining(satisfied, 2) == (if Admit(0) in satisfied then 0 else 1) + Remaining(satisfied, 3);
    assert Remaining(satisfied, 1) == (if InitFactory in satisfied then 0 else 1) + Remaining(satisfied, 2);
  }

  /** The rents quoted by n answers from one point on. */
  function RentTotal(world: nat -> Reply, from: nat, n: nat): int {
    if n == 0 then 0 else RentTotal(world, from, n - 1) + world(from + n - 1).rent
  }

  /** Every answer's rent counts once, from the first one on. */
  lemma {:induction false} RentTotalFirst(world: nat -> Reply, from: nat, n: nat)
    requires n > 0
    ensures RentTotal(world, from, n) == world(from).rent + RentTotal(world, from + 1, n - 1)
  {
    if n > 1 { RentTotalFirst(world, from, n - 1); }
  }

  predicate RentsQuoted(world: nat -> Reply, from: nat, n: nat) {
    forall t :: from <= t < from + n ==> !world(t).lost && world(t).rent > 0
  }

  /** What a run must be able to pay: the rents quoted and the full fee of every remaining step. */
  predicate Payable(journal: Journal, need: int, balance: int) {
    && need + journal.spentBudget <= 20_000_000 && balance - need >= 1_000_000
    && journal.initialBalance - balance <= 20_000_000
  }

  /** Poll k, a clock reading and a status, comes in time and shows the transaction finalized without error. */
  predicate PollsDone(world: nat -> Reply, from: nat, k: nat) {
    !world(from + 2 * k).late && !world(from + 2 * k + 1).lost && world(from + 2 * k + 1).status == Done
  }

  predicate PollsUnseen(world: nat -> Reply, from: nat, k: nat) {
    !world(from + 2 * k).late && !world(from + 2 * k + 1).lost && world(from + 2 * k + 1).status == Unseen
  }

  predicate Waits(world: nat -> Reply, from: nat, k: nat) {
    forall j: nat :: j < k ==> PollsUnseen(world, from, j)
  }

  /** The first poll that is not merely unseen decides. */
  lemma OneDecides(world: nat -> Reply, from: nat, p: nat)
    requires Waits(world, from, p)
    ensures forall k: nat :: PollsDone(world, from, k) && Waits(world, from, k) ==> p <= k
    ensures PollsUnseen(world, from, p) || PollsDone(world, from, p)
            || forall k: nat :: PollsDone(world, from, k) ==> !Waits(world, from, k)
  {
    forall k: nat | PollsDone(world, from, k) && Waits(world, from, k) ensures p <= k {
      assert k < p ==> PollsUnseen(world, from, k);
    }
    if !PollsUnseen(world, from, p) && !PollsDone(world, from, p) {
      forall k: nat | PollsDone(world, from, k) ensures !Waits(world, from, k) {
        if k > p { assert !PollsUnseen(world, from, p); }
      }
    }
  }

  // ---- a run in a world that gives the same answers throughout, except that the reply to the broadcast is lost ----

  /** The three answers to a new transaction: its signature, its fee and its simulation. */
  predicate Priced(signed: Reply, priced: Reply, tried: Reply) {
    !signed.lost && !priced.lost && 0 < priced.fee <= MAX_FEE && !tried.lost && tried.simulated
  }

  ghost predicate Constant(replies: nat -> Reply) {
    forall t :: replies(t) == replies(0)
  }

  predicate Obliging(w: Reply, step: Step) {
    && !w.lost && !w.late && w.renamed && w.returned.None? && w.simulated && w.rent > 0 && 0 < w.fee <= MAX_FEE
    && step !in w.state.satisfied && (step == InitWhitelist || w.state.authority)
  }

  function Cost(w: Reply, step: Step): int {
    (if CreatesAccount(step) then w.rent else 0) + w.fee
  }

  /** The journal with a new receipt for the step. */
  function Entered(journal: Journal, step: Step, signature: nat, fee: int, cost: int): (prepared: Journal)
    ensures step in prepared.steps && prepared.steps[step] == Receipt(signature, Prepared, fee)
    ensures prepared.steps == journal.steps[step := prepared.steps[step]]
    ensures prepared.spentBudget == journal.spentBudget + cost
  {
    journal.(spentBudget := journal.spentBudget + cost,
             steps := journal.steps[step := Receipt(signature, Prepared, fee)])
  }

  /** One new receipt and its cost, which exceeds the fee exactly for steps that create an account, within the cap. */
  predicate Quoted(journal: Journal, step: Step, prepared: Journal) {
    && step in prepared.steps
    && var (receipt, cost) := (prepared.steps[step], prepared.spentBudget - journal.spentBudget);
       && prepared == Entered(journal, step, receipt.signature, receipt.fee, cost)
       && 0 < receipt.fee <= MAX_FEE && receipt.fee <= cost && (CreatesAccount(step) <==> cost > receipt.fee)
       && prepared.spentBudget <= MAX_SPEND
  }

  function Extended(journal: Journal, step: Step, w: Reply): Journal {
    Entered(journal, step, w.signature, w.fee, Cost(w, step))
  }

  predicate Funded(journal: Journal, w: Reply) {
    var need := |w.state.missingRent| * w.rent + Remaining(w.state.satisfied, 0) * MAX_FEE;
    && need + journal.spentBudget <= MAX_SPEND && w.balance >= need + MIN_RESERVE
    && journal.initialBalance - w.balance <= MAX_SPEND
  }

  /** The journal a run starts with. */
  function Opened(durable: Option<Journal>, identity: nat, w: Reply): Journal {
    if durable.Some? then durable.value else Journal(identity, w.balance, 0, map[])
  }

  /** The first step, from step `k` on, that is not simply skipped. */
  function FirstOpen(journal: Journal, satisfied: set<Step>, k: nat): (m: nat)
    requires k <= |PLAN|
    ensures k <= m <= |PLAN|
    ensures forall p :: k <= p < m ==> PLAN[p] !in journal.steps && PLAN[p] in satisfied
    decreases |PLAN| - k
  {
    if k == |PLAN| || PLAN[k] in journal.steps || PLAN[k] !in satisfied then k
    else FirstOpen(journal, satisfied, k + 1)
  }

  /** The durable journal belongs to another identity. */
  predicate Foreign(durable: Option<Journal>, identity: nat) {
    durable.Some? && durable.value.identity != identity
  }

  predicate LosesSend(journal: Journal, step: Step, w: Reply) {
    step !in journal.steps && Obliging(w, step) && journal.spentBudget + Cost(w, step) <= MAX_SPEND
  }

  /** The run broadcasts its first open step and then stops without a reply. */
  predicate LosesFirst(durable: Option<Journal>, identity: nat, w: Reply) {
    var journal := Opened(durable, identity, w);
    var m := FirstOpen(journal, w.state.satisfied, 0);
    journal.identity == identity && Funded(journal, w) && m < |PLAN| && LosesSend(journal, PLAN[m], w)
  }

  predicate AllMarked(journal: Journal) {
    forall s :: s in journal.steps ==> journal.steps[s].status == Finalized
  }

  predicate AllSatisfied(satisfied: set<Step>) {
    forall s :: s in PLAN ==> s in satisfied
  }

  // ---- what the parts of a run leave in the log ----

  /** What such a run leaves behind: the start of a run, the six events up to the broadcast, and the new journal. */
  predicate Lost(before: seq<Event>, after: seq<Event>, start: Option<Journal>, durable: Option<Journal>, identity: nat,
                 w: Reply)
    requires LosesFirst(start, identity, w)
  {
    var journal := Opened(start, identity, w);
    LostAt(before, after, start, durable, journal, PLAN[FirstOpen(journal, w.state.satisfied, 0)], w)
  }

  predicate LostAt(before: seq<Event>, after: seq<Event>, start: Option<Journal>, durable: Option<Journal>,
                   journal: Journal, step: Step, w: Reply)
  {
    var n := |before| + if start.Some? then 2 else 3;
    && durable == Some(Extended(journal, step, w)) && Grew(before, after) && |after| == n + 6
    && after[|before|] == Read(w.state.satisfied) && after[n + 5].Sent? && after[n + 5].step == step
    && NoReconcile(after, |before|)
  }

  lemma LostRun(before: seq<Event>, begun: seq<Event>, after: seq<Event>, start: Option<Journal>,
                durable: Option<Journal>, journal: Journal, step: Step, w: Reply)
    requires Begun(start, before, begun, w.state.satisfied) && |begun| == |before| + if start.Some? then 2 else 3
    requires Part(begun, after, step, 0) && |after| == |begun| + 6 && durable == Some(Extended(journal, step, w))
    ensures LostAt(before, after, start, durable, journal, step, w)
  {
    PartFacts(begun, after, step);
    PartLaunches(begun, after, step, |begun|);
    assert FitsAt(begun, after, step, 0, |begun| + 5);
  }

  lemma CheckedLog(before: seq<Event>, asked: seq<Event>, later: seq<Event>, step: Step, clean: bool, journal: Journal)
    requires asked == before + [Reconciled(step, clean)] && (later == asked || later == asked + [Wrote(journal)])
    ensures Grew(before, later) && Quiet(later, |before|)
    ensures |before| < |later| && later[|before|] == Reconciled(step, clean)
  {
  }

  /** A re-checked step is passed, with a durable mark if its receipt has none yet. */
  lemma Marking(start: Option<Journal>, log: seq<Event>, base: nat, journal: Journal, satisfied: set<Step>, k: nat)
    requires k < |PLAN| && Passing(start, log, base, journal, satisfied, k)
    ensures RunRules(start, log, base) && Clear(log, PLAN[k]) && PLAN[k] in journal.steps
    ensures journal.steps[PLAN[k]].status == Finalized ==> Ready(start, log, base, journal, satisfied, k + 1)
    ensures var closed := Closed(journal, PLAN[k]);
            var later := log + [Wrote(closed)];
            RunRules(start, later, base) && Ready(start, later, base, closed, satisfied, k + 1)
  {
    var closed := Closed(journal, PLAN[k]);
    ReadyRules(start, log, base, journal, satisfied, k);
    RecheckedIsClear(log, base, PLAN[k]);
    if journal.steps[PLAN[k]].status == Finalized { PassedIsReady(start, log, base, journal, satisfied, k); }
    ClosedPasses(start, log, base, journal, satisfied, k);
    ReadyRules(start, log + [Wrote(closed)], base, closed, satisfied, k);
    PassedIsReady(start, log + [Wrote(closed)], base, closed, satisfied, k);
  }

  /** The durable record, the clock and the broadcast. */
  lemma BroadcastParts(log: seq<Event>, step: Step, prepared: Journal)
    requires step in prepared.steps
    ensures Part(log, log, step, 3) && Part(log, log + [Wrote(prepared)], step, 3)
    ensures Part(log, log + [Wrote(prepared)] + [Passed(Clock)], step, 3)
    ensures var sent := Sent(step, prepared.steps[step].signature);
            Whole(log, log + [Wrote(prepared)] + [Passed(Clock)] + [sent], step, 3, 6)
  {
    var recorded := log + [Wrote(prepared)];
    var cleared := recorded + [Passed(Clock)];
    var sent := Sent(step, prepared.steps[step].signature);
    PartNone(log, step, 3);
    PartAppend(log, Wrote(prepared), step, 3);
    PartAppend(recorded, Passed(Clock), step, 4);
    PartAppend(cleared, sent, step, 5);
    WholeThrough(log, recorded, cleared, step, 3, 4, 5);
    WholeThrough(log, cleared, cleared + [sent], step, 3, 5, 6);
  }

  /** No event at all fits wherever a submission stands. */
  lemma PartNone(log: seq<Event>, step: Step, from: nat)
    ensures Part(log, log, step, from)
  {
  }

  lemma RecheckedIsClear(log: seq<Event>, base: nat, step: Step)
    requires Rechecked(log, base, |log|, step)
    ensures Clear(log, step)
  {
  }

  /** The first read, then perhaps the first journal, and then the funds check. */
  predicate Begun(start: Option<Journal>, before: seq<Event>, log: seq<Event>, satisfied: set<Step>) {
    && Grew(before, log) && |before| < |log| <= |before| + 3 && log[|before|] == Read(satisfied)
    && (|log| > |before| + 1 ==>
          (start.None? && log[|before| + 1].Wrote?) || (|log| == |before| + 2 && GoodFunds(log[|before| + 1])))
    && (|log| > |before| + 2 ==> GoodFunds(log[|before| + 2]))
  }

  lemma BegunLog(start: Option<Journal>, before: seq<Event>, log: seq<Event>, satisfied: set<Step>, first: Journal)
    requires Grew(before + [Read(satisfied)], log) && |log| <= |before| + 2
    requires |log| == |before| + 2 ==> start.None? && log[|before| + 1] == Wrote(first)
    ensures Begun(start, before, log, satisfied)
  {
    assert log[|before|] == (before + [Read(satisfied)])[|before|];
  }

  lemma BegunQuiet(start: Option<Journal>, before: seq<Event>, log: seq<Event>, satisfied: set<Step>)
    requires Begun(start, before, log, satisfied)
    ensures Quiet(log, |before|) && NoReconcile(log, |before|)
  {
  }

  lemma MaybeBegunQuiet(start: Option<Journal>, before: seq<Event>, log: seq<Event>)
    requires log == before || exists satisfied :: Begun(start, before, log, satisfied)
    ensures Grew(before, log) && Quiet(log, |before|) && NoReconcile(log, |before|)
    ensures |log| > |before| ==> log[|before|].Read?
  {
  }

  lemma BegunFunds(start: Option<Journal>, before: seq<Event>, log: seq<Event>, satisfied: set<Step>, e: Event)
    requires Begun(start, before, log, satisfied) && GoodFunds(e) && |log| == |before| + (if start.Some? then 1 else 2)
    requires start.None? ==> log[|before| + 1].Wrote?
    ensures Begun(start, before, log + [e], satisfied) && FundsPassed(log + [e], |before|)
  {
  }

  /** After that a run is ready for the first step. */
  lemma StartIsReady(start: Option<Journal>, before: seq<Event>, log: seq<Event>, journal: Journal,
                     satisfied: set<Step>)
    requires Begun(start, before, log, satisfied) && FundsPassed(log, |before|)
    requires if start.Some? then journal == start.value else journal.steps == map[]
    ensures Ready(start, log, |before|, journal, satisfied, 0)
  {
    BegunQuiet(start, before, log, satisfied);
    QuietKeepsRules(start, log, |before|);
    assert log[|before|] == Read(satisfied);
  }

  /** While reads only gain steps, a run that leaves a journalled step unchecked or unclear has sent nothing. */
  predicate QuietWhenMonotone(start: Option<Journal>, log: seq<Event>, base: nat) {
    MonotoneReads(log) && (Unchecked(start, log, base) || StoppedUnclear(log, base)) ==> Quiet(log, base)
  }

  lemma MonotoneQuiet(start: Option<Journal>, before: seq<Event>, log: seq<Event>)
    requires Grew(before, log) && (|log| > |before| ==> log[|before|].Read?)
    requires OrderedWith(start, before) && Blocks(start, log, |before|) && RunRules(start, log, |before|)
    ensures QuietWhenMonotone(start, log, |before|)
  {
    assert log[..|before|] == before;
    if MonotoneReads(log) && Unchecked(start, log, |before|) {
      var k :| 0 <= k < |PLAN| && Journalled(start, PLAN[k]) && !Rechecked(log, |before|, |log|, PLAN[k]);
      UncheckedRunSendsNothing(start, log, |before|, k);
    } else if MonotoneReads(log) && StoppedUnclear(log, |before|) {
      UnclearRunSendsNothing(start, log, |before|);
    }
  }

  class PrivateRun {
    var locked: bool
    var durable: Option<Journal>
    var log: seq<Event>
    var world: nat -> Reply
    var tick: nat

    ghost predicate Valid()
      reads this`durable, this`log
    {
      durable == LastWritten(log) && Safe(log) && Founded(durable, log)
    }

    /** Every answer of the run is the same. */
    ghost predicate Steady()
      reads this`world
    {
      Constant(world)
    }

    constructor (replies: nat -> Reply)
      ensures Valid() && log == [] && durable == None && !locked
    {
      locked, durable, log, world, tick := false, None, [], replies, 0;
    }

    // ---- what a run asks and does ----

    /** The next answer of the outside, whatever it is. */
    method Await() returns (reply: Reply)
      modifies this`tick
      ensures reply == world(old(tick)) && tick == old(tick) + 1
    {
      reply := world(tick);
      tick := tick + 1;
    }

    method Check(condition: bool, stop: Stop) returns (r: Outcome<Stop>)
      ensures r == if condition then Pass else Fail(stop)
    {
      r := if condition then Pass else Fail(stop);
    }

    method CheckDeadline() returns (r: Outcome<Stop>)
      modifies this`tick
      ensures r == if world(old(tick)).late then Fail(Deadline) else Pass
    {
      var clock := Await();
      r := Check(!clock.late, Deadline);
    }

    /** Takes down what was observed. */
    method Note(e: Event)
      requires Valid() && (e.Read? || e.Reconciled? || e.Confirmed? || e.Passed?)
      modifies this`log
      ensures Valid() && log == old(log) + [e]
    {
      SafeQuiet(log, e);
      FoundedGrows(durable, log, log + [e]);
      LastWrittenAppend(log, e);
      log := log + [e];
    }

    method ReadState() returns (r: Result<State, Stop>)
      requires Valid()
      modifies this`log, this`tick
      ensures Valid()
      ensures r == (if world(old(tick)).lost then Err(NoReply) else Ok(world(old(tick)).state)) && tick == old(tick) + 1
      ensures log == if r.Ok? then old(log) + [Read(r.value.satisfied)] else old(log)
    {
      var reply := Await();
      if reply.lost { return Err(NoReply); }
      Note(Read(reply.state.satisfied));
      return Ok(reply.state);
    }

    method Rename(journal: Journal)
      requires Valid() && Extends(durable, journal) && Budgeted(Some(journal)) && Founded(Some(journal), log)
      modifies this`log, this`durable
      ensures Valid() && durable == Some(journal) && log == old(log) + [Wrote(journal)]
    {
      SafeWrite(log, journal);
      FoundedGrows(Some(journal), log, log + [Wrote(journal)]);
      LastWrittenAppend(log, Wrote(journal));
      log, durable := log + [Wrote(journal)], Some(journal);
    }

    /** Atomic rename: a lost reply leaves either the old or the new journal, never a mixture. */
    method Write(journal: Journal) returns (r: Outcome<Stop>)
      requires Valid() && Extends(durable, journal) && Budgeted(Some(journal)) && Founded(Some(journal), log)
      modifies this`log, this`durable, this`tick
      ensures Valid()
      ensures durable == if world(old(tick)).renamed then Some(journal) else old(durable)
      ensures log == if world(old(tick)).renamed then old(log) + [Wrote(journal)] else old(log)
      ensures r.Pass? <==> world(old(tick)).renamed && !world(old(tick)).lost
    {
      var reply := Await();
      if reply.renamed { Rename(journal); }
      r := if reply.renamed && !reply.lost then Pass else Fail(NoReply);
    }

    /** The only broadcast. It may reach the chain even when the reply is lost. */
    method Send(step: Step, signature: nat) returns (r: Outcome<Stop>)
      requires Valid() && Records(durable, step, signature) && NeverSent(log, step)
      modifies this`log, this`tick
      ensures Valid() && log == old(log) + [Sent(step, signature)]
      ensures r.Pass? <==> !world(old(tick)).lost && world(old(tick)).returned == Some(signature)
    {
      SafeSend(log, step, signature);
      FoundedGrows(durable, log, log + [Sent(step, signature)]);
      LastWrittenAppend(log, Sent(step, signature));
      log := log + [Sent(step, signature)];
      var reply := Await();
      if reply.lost || reply.returned.None? { return Fail(NoReply); }
      r := if reply.returned.value == signature then Pass else Fail(WrongSignature);
    }

    /** Asks for the status of an earlier submission; only finalized without error is clean. */
    method Reconcile(step: Step) returns (r: Outcome<Stop>)
      requires Valid()
      modifies this`log, this`tick
      ensures Valid() && log == old(log) + [Reconciled(step, r.Pass?)]
      ensures r.Pass? <==> !world(old(tick)).lost && world(old(tick)).status.Done?
    {
      var reply := Await();
      var clean := !reply.lost && reply.status.Done?;
      Note(Reconciled(step, clean));
      r := if clean then Pass else Fail(Unclear);
    }

    /** Waits for the new signature to finalize; an error, silence or timeout never leads to another send. */
    method Confirm(step: Step) returns (r: Outcome<Stop>)
      requires Valid()
      modifies this`log, this`tick
      ensures Valid() && log == if r.Pass? then old(log) + [Confirmed(step)] else old(log)
      ensures r.Pass? ==> exists t: nat :: old(tick) <= t < tick && !world(t).lost && world(t).status.Done?
      ensures r.Pass? <==> exists k: nat :: k < 46 && PollsDone(world, old(tick), k) && Waits(world, old(tick), k)
    {
      for poll := 0 to 46
        invariant Valid() && log == old(log) && tick == old(tick) + 2 * poll
        invariant Waits(world, old(tick), poll)
      {
        OneDecides(world, old(tick), poll);
        var clock := Await();
        if clock.late { return Fail(Ambiguous); }
        ghost var asked := tick;
        var reply := Await();
        if reply.lost { return Fail(NoReply); }
        if reply.status.Failed? { return Fail(TransactionFailed); }
        if reply.status.Done? {
          Note(Confirmed(step));
          assert !world(asked).lost && world(asked).status.Done? && old(tick) <= asked < tick;
          assert PollsDone(world, old(tick), poll);
          return Pass;
        }
      }
      OneDecides(world, old(tick), 46);
      return Fail(Ambiguous);
    }

    // ---- the start of a run ----

    method LoadJournal(identity: nat, balance: int) returns (r: Result<Journal, Stop>)
      requires Valid()
      modifies this`log, this`durable, this`tick
      ensures Valid()
      ensures r.Ok? ==> durable == Some(r.value) && r.value.identity == identity
      ensures world(old(tick)).lost ==> r == Err(NoReply) && log == old(log) && durable == old(durable)
      ensures var first := Journal(identity, balance, 0, map[]);
              && (r.Ok? ==> r.value == if old(durable).Some? then old(durable).value else first)
              && Grew(old(log), log) && |log| <= |old(log)| + 1
              && (|log| > |old(log)| ==> old(durable).None? && log[|old(log)|] == Wrote(first))
      ensures r.Ok? ==> |log| == |old(log)| + if old(durable).Some? then 0 else 1
      ensures old(durable).Some? ==> durable == old(durable)
      ensures Steady() && !world(0).lost && world(0).renamed ==>
                && (r.Ok? <==> (old(durable).Some? ==> old(durable).value.identity == identity))
                && |log| == |old(log)| + if old(durable).Some? then 0 else 1
    {
      var reply := Await();
      if reply.lost { return Err(NoReply); }
      match durable
      case Some(journal) =>
        if journal.identity != identity { return Err(IdentityMismatch); }
        if journal.spentBudget < 0 || journal.spentBudget > MAX_SPEND || exists s :: s in journal.steps && s !in PLAN {
          assert false;
          return Err(InvalidBudget);
        }
        return Ok(journal);
      case None =>
        var journal := Journal(identity, balance, 0, map[]);
        :- Write(journal);
        return Ok(journal);
    }

    method RentFor(missing: seq<nat>) returns (r: Result<int, Stop>)
      modifies this`tick
      ensures r.Ok? <==> RentsQuoted(world, old(tick), |missing|)
      ensures r.Ok? ==> r.value == RentTotal(world, old(tick), |missing|) >= |missing|
      ensures Steady() && !world(0).lost && world(0).rent > 0 ==> r == Ok(|missing| * world(0).rent)
    {
      var rent := 0;
      for i := 0 to |missing|
        invariant rent >= i && tick == old(tick) + i
        invariant rent == RentTotal(world, old(tick), i) && RentsQuoted(world, old(tick), i)
        invariant Steady() && !world(0).lost && world(0).rent > 0 ==> rent == i * world(0).rent
      {
        var reply := Await();
        if reply.lost { return Err(NoReply); }
        if reply.rent <= 0 { return Err(InvalidReply); }
        rent := rent + reply.rent;
      }
      return Ok(rent);
    }

    /** The funds check is taken down with what it was made on. */
    method CheckFunds(journal: Journal, state: State, balance: int) returns (r: Result<int, Stop>)
      requires Valid()
      modifies this`log, this`tick
      ensures Valid()
      ensures r.Ok? ==>
                && r.value >= |state.missingRent| + Remaining(state.satisfied, 0) * MAX_FEE
                && r.value + journal.spentBudget <= MAX_SPEND
                && balance >= r.value + MIN_RESERVE && journal.initialBalance - balance <= MAX_SPEND
      ensures var need := RentTotal(world, old(tick), |state.missingRent|) + Remaining(state.satisfied, 0) * 100_000;
              && (r.Ok? <==>
                  RentsQuoted(world, old(tick), |state.missingRent|) && Payable(journal, need, balance))
              && (r.Ok? ==> r.value == need)
      ensures log == if r.Ok? then old(log) + [Passed(Funds(r.value, journal.spentBudget, balance))] else old(log)
      ensures Steady() && !world(0).lost && world(0).rent > 0 && Funded(journal, world(0))
              && state == world(0).state && balance == world(0).balance ==>
                r.Ok?
    {
      var rent :- RentFor(state.missingRent);
      var need := rent + Remaining(state.satisfied, 0) * MAX_FEE;
      :- Check(need + journal.spentBudget <= MAX_SPEND, OverBudget);
      :- Check(balance >= need + MIN_RESERVE && journal.initialBalance - balance <= MAX_SPEND, LowBalance);
      Note(Passed(Funds(need, journal.spentBudget, balance)));
      return Ok(need);
    }

    // ---- one step ----

    /** The rent quoted for the account a step creates, and nothing for a step that creates none. */
    method Reserve(step: Step) returns (r: Result<int, Stop>)
      modifies this`tick
      ensures r.Ok? ==> r.value >= 0 && (r.value > 0 <==> CreatesAccount(step))
      ensures !CreatesAccount(step) ==> r == Ok(0)
      ensures r.Ok? <==> !CreatesAccount(step) || (!world(old(tick)).lost && world(old(tick)).rent > 0)
      ensures CreatesAccount(step) && !world(old(tick)).lost && world(old(tick)).rent > 0 ==>
                r == Ok(world(old(tick)).rent)
    {
      if !CreatesAccount(step) { return Ok(0); }
      var reply := Await();
      if reply.lost { return Err(NoReply); }
      if reply.rent <= 0 { return Err(InvalidReply); }
      return Ok(reply.rent);
    }

    /** Every step but the first needs the whitelist authority. */
    method Authorize(step: Step, state: State) returns (r: Outcome<Stop>)
      requires Valid()
      modifies this`log
      ensures Valid() && (r.Pass? <==> step == InitWhitelist || state.authority)
      ensures log == if r.Pass? then old(log) + [Passed(Authority(step))] else old(log)
    {
      if step != InitWhitelist && !state.authority { return Fail(NotAuthority); }
      Note(Passed(Authority(step)));
      return Pass;
    }

    /** The signature of the compiled step, its fee, and a simulation that succeeds. */
    method Price(step: Step) returns (r: Result<(nat, int), Stop>)
      requires Valid()
      modifies this`log, this`tick
      ensures Valid() && tick >= old(tick)
      ensures r.Ok? <==> Priced(world(old(tick)), world(old(tick) + 1), world(old(tick) + 2))
      ensures r.Ok? ==> r.value == (world(old(tick)).signature, world(old(tick) + 1).fee)
      ensures r.Ok? ==>
                && !world(old(tick) + 2).lost && world(old(tick) + 2).simulated && 1 <= r.value.1 <= 100_000
      ensures log == if r.Ok? then old(log) + [Passed(Simulation(step))] else old(log)
    {
      var signed := Await();  // signer, blockhash and signature
      if signed.lost { return Err(NoReply); }
      var priced := Await();
      if priced.lost { return Err(NoReply); }
      :- Check(0 < priced.fee <= MAX_FEE, InvalidReply);
      var tried := Await();
      if tried.lost { return Err(NoReply); }
      :- Check(tried.simulated, SimulationFailed);
      Note(Passed(Simulation(step)));
      return Ok((signed.signature, priced.fee));
    }

    /** Signs, prices and simulates one step, then reads the state again; nothing is written or sent. */
    method Quote(step: Step, journal: Journal, state: State) returns (r: Result<Journal, Stop>)
      requires Valid() && durable == Some(journal) && step !in journal.steps && step in PLAN
      modifies this`log, this`tick
      ensures Valid() && Part(old(log), log, step, 0) && |log| <= |old(log)| + 3
      ensures r.Ok? ==> Whole(old(log), log, step, 0, 3) && Quoted(journal, step, r.value)
      ensures Steady() && LosesSend(journal, step, world(0)) && state == world(0).state ==>
                r == Ok(Extended(journal, step, world(0)))
    {
      var authorized := Authorize(step, state);
      if authorized.Fail? { return Err(authorized.error); }
      PartAppend(old(log), Passed(Authority(step)), step, 0);
      ghost var first := log;
      var priced := Price(step);
      if priced.Err? { return Err(priced.error); }
      PartAppend(first, Passed(Simulation(step)), step, 1);
      ghost var second := log;
      WholeThrough(old(log), first, second, step, 0, 1, 2);
      var refreshed := Refresh(step);
      PartThrough(old(log), second, log, step, 0, 2);
      if refreshed.Fail? { return Err(refreshed.error); }
      WholeThrough(old(log), second, log, step, 0, 2, 3);
      r := Enter(step, journal, priced.value.0, priced.value.1);
    }

    /** Reads the state again; the step must still be open. */
    method Refresh(step: Step) returns (r: Outcome<Stop>)
      requires Valid()
      modifies this`log, this`tick
      ensures Valid() && Part(old(log), log, step, 2) && |log| <= |old(log)| + 1
      ensures r.Pass? <==> !world(old(tick)).lost && step !in world(old(tick)).state.satisfied
      ensures r.Pass? ==> Whole(old(log), log, step, 2, 3)
    {
      var current := ReadState();
      PartNone(old(log), step, 2);
      if current.Err? { return Fail(current.error); }
      PartAppend(old(log), Read(current.value.satisfied), step, 2);
      r := Check(step !in current.value.satisfied, StateAdvanced);
    }

    /** The journal with the new receipt, if its cost stays within the cap. */
    method Enter(step: Step, journal: Journal, signature: nat, fee: int) returns (r: Result<Journal, Stop>)
      requires 0 < fee <= MAX_FEE
      modifies this`tick
      ensures r.Ok? ==> Quoted(journal, step, r.value)
      ensures r.Ok? ==> r.value.steps[step] == Receipt(signature, Prepared, fee)
      ensures var rent := if step == ProposeOwner then 0 else world(old(tick)).rent;
              && (r.Ok? <==>
                  && (step == ProposeOwner || (!world(old(tick)).lost && world(old(tick)).rent > 0))
                  && journal.spentBudget + rent + fee <= 20_000_000)
              && (r.Ok? ==> r.value.spentBudget == journal.spentBudget + rent + fee)
      ensures Steady() && !world(0).lost && world(0).rent > 0 && fee == world(0).fee
              && journal.spentBudget + Cost(world(0), step) <= MAX_SPEND ==>
                r == Ok(Entered(journal, step, signature, fee, Cost(world(0), step)))
    {
      var reserve :- Reserve(step);
      :- Check(journal.spentBudget + reserve + fee <= MAX_SPEND, OverBudget);
      return Ok(Entered(journal, step, signature, fee, reserve + fee));
    }

    /** Makes the journal naming the new signature durable. */
    method Persist(step: Step, journal: Journal, prepared: Journal, ghost k: nat) returns (r: Outcome<Stop>)
      requires Valid() && durable == Some(journal) && step !in journal.steps && step in prepared.steps
      requires k < |PLAN| && PLAN[k] == step && AccountedBefore(Some(journal), log, k)
      requires prepared.steps == journal.steps[step := prepared.steps[step]] && prepared.steps[step].status == Prepared
      requires 0 <= prepared.spentBudget <= MAX_SPEND
      modifies this`log, this`durable, this`tick
      ensures Valid() && NeverSent(log, step)
      ensures durable == if world(old(tick)).renamed then Some(prepared) else old(durable)
      ensures log == if world(old(tick)).renamed then old(log) + [Wrote(prepared)] else old(log)
      ensures r.Pass? <==> world(old(tick)).renamed && !world(old(tick)).lost
    {
      UnrecordedNeverSent(log, step);
      FoundedPrepared(journal, prepared, log, k);
      assert step in PLAN;
      r := Write(prepared);
    }

    /** The deadline is looked at once more right before the broadcast. */
    method PassClock() returns (r: Outcome<Stop>)
      requires Valid()
      modifies this`log, this`tick
      ensures Valid() && (r.Pass? <==> !world(old(tick)).late)
      ensures log == if r.Pass? then old(log) + [Passed(Clock)] else old(log)
    {
      r := CheckDeadline();
      if r.Pass? { Note(Passed(Clock)); }
    }

    /** The journal naming the signature is durable before the only broadcast. */
    method Broadcast(step: Step, journal: Journal, prepared: Journal, ghost k: nat) returns (r: Outcome<Stop>)
      requires Valid() && durable == Some(journal) && step !in journal.steps && step in prepared.steps
      requires k < |PLAN| && PLAN[k] == step && AccountedBefore(Some(journal), log, k)
      requires prepared.steps == journal.steps[step := prepared.steps[step]] && prepared.steps[step].status == Prepared
      requires 0 <= prepared.spentBudget <= MAX_SPEND
      modifies this`log, this`durable, this`tick
      ensures Valid() && Part(old(log), log, step, 3) && |log| <= |old(log)| + 3
      ensures r.Pass? ==> durable == Some(prepared) && Whole(old(log), log, step, 3, 6)
      ensures Steady() && Obliging(world(0), step) ==> r.Fail? && durable == Some(prepared) && |log| == |old(log)| + 3
    {
      BroadcastParts(log, step, prepared);
      r := Persist(step, journal, prepared, k);
      if r.Fail? { return; }
      r := PassClock();
      if r.Fail? { return; }
      r := Send(step, prepared.steps[step].signature);
      assert log == old(log) + [Wrote(prepared)] + [Passed(Clock)] + [Sent(step, prepared.steps[step].signature)];
    }

    method SendStep(step: Step, journal: Journal, state: State, ghost k: nat) returns (r: Result<Journal, Stop>)
      requires Valid() && durable == Some(journal) && step !in journal.steps
      requires k < |PLAN| && PLAN[k] == step && AccountedBefore(Some(journal), log, k)
      modifies this`log, this`durable, this`tick
      ensures Valid() && Part(old(log), log, step, 0) && |log| <= |old(log)| + 6
      ensures r.Ok? ==>
                && durable == Some(r.value) && step in r.value.steps && Whole(old(log), log, step, 0, 6)
                && r.value.steps == journal.steps[step := r.value.steps[step]]
      ensures Steady() && LosesSend(journal, step, world(0)) && state == world(0).state ==>
                r.Err? && durable == Some(Extended(journal, step, world(0))) && |log| == |old(log)| + 6
    {
      assert step in PLAN && Budgeted(durable);
      var prepared :- Quote(step, journal, state);
      ghost var quoted := log;
      AccountedGrows(Some(journal), old(log), Some(journal), quoted, k);
      var sent := Broadcast(step, journal, prepared, k);
      PartThrough(old(log), quoted, log, step, 0, 3);
      if sent.Fail? { return Err(sent.error); }
      WholeThrough(old(log), quoted, log, step, 0, 3, 6);
      return Ok(prepared);
    }

    /** Reads the state again and requires the step to be satisfied in it. */
    method Authenticate(step: Step) returns (r: Result<State, Stop>)
      requires Valid()
      modifies this`log, this`tick
      ensures Valid() && Part(old(log), log, step, 7) && |log| <= |old(log)| + 1
      ensures r.Ok? <==> !world(old(tick)).lost && step in world(old(tick)).state.satisfied
      ensures r.Ok? ==> log == old(log) + [Read(r.value.satisfied)] && Whole(old(log), log, step, 7, 8)
    {
      r := ReadState();
      PartNone(old(log), step, 7);
      if r.Err? { return; }
      PartAppend(old(log), Read(r.value.satisfied), step, 7);
      if step !in r.value.satisfied { return Err(ReceiptStateMismatch); }
    }

    /** Waits for finality, authenticates the new state and only then marks the receipt finalized. */
    method Settle(step: Step, prepared: Journal) returns (r: Result<(Journal, State), Stop>)
      requires Valid() && durable == Some(prepared) && step in prepared.steps
      modifies this`log, this`durable, this`tick
      ensures Valid() && Part(old(log), log, step, 6)
      ensures durable == Some(prepared) || (|log| > |old(log)| && log[|old(log)|] == Confirmed(step))
      ensures r.Ok? ==>
                && durable == Some(r.value.0) && r.value.0 == Closed(prepared, step)
                && Whole(old(log), log, step, 6, 10) && log[|old(log)| + 1] == Read(r.value.1.satisfied)
    {
      PartNone(old(log), step, 6);
      PartAppend(old(log), Confirmed(step), step, 6);
      var confirmed := Confirm(step);
      if confirmed.Fail? { return Err(confirmed.error); }
      ghost var first := log;
      var after := Authenticate(step);
      PartThrough(old(log), first, log, step, 6, 7);
      if after.Err? { return Err(after.error); }
      ghost var second := log;
      WholeThrough(old(log), first, second, step, 6, 7, 8);
      assert second[|old(log)|] == Confirmed(step) && Clear(second, step);
      var closed := Close(step, prepared);
      PartThrough(old(log), second, log, step, 6, 8);
      assert log[|old(log)|] == second[|old(log)|];
      if closed.Fail? { return Err(closed.error); }
      WholeThrough(old(log), second, log, step, 6, 8, 10);
      assert log[|old(log)| + 1] == second[|old(log)| + 1];
      return Ok((Closed(prepared, step), after.value));
    }

    /** Persists the finalized receipt, then reads the balance again and guards the spending. */
    method Close(step: Step, prepared: Journal) returns (r: Outcome<Stop>)
      requires Valid() && durable == Some(prepared) && step in prepared.steps && Clear(log, step)
      modifies this`log, this`durable, this`tick
      ensures Valid() && Part(old(log), log, step, 8)
      ensures r.Pass? ==> durable == Some(Closed(prepared, step)) && Whole(old(log), log, step, 8, 10)
    {
      var finalized := Closed(prepared, step);
      FoundedClosed(prepared, log, step);
      PartNone(old(log), step, 8);
      PartAppend(old(log), Wrote(finalized), step, 8);
      r := Write(finalized);
      if r.Fail? { return; }
      ghost var written := log;
      r := CheckGuard(finalized);
      if r.Fail? { return; }
      PartAppend(written, log[|log| - 1], step, 9);
      WholeThrough(old(log), written, log, step, 8, 9, 10);
    }

    /** The balance after a step. */
    method CheckGuard(journal: Journal) returns (r: Outcome<Stop>)
      requires Valid()
      modifies this`log, this`tick
      ensures Valid()
      ensures var (reply, lost) := (world(old(tick)), journal.initialBalance - world(old(tick)).balance);
              && (r.Pass? <==> !reply.lost && lost <= MAX_SPEND && reply.balance >= MIN_RESERVE)
              && log == if r.Pass? then old(log) + [Passed(Guard(lost, reply.balance))] else old(log)
    {
      var reply := Await();
      if reply.lost { return Fail(NoReply); }
      var lost := journal.initialBalance - reply.balance;
      r := Check(lost <= MAX_SPEND && reply.balance >= MIN_RESERVE, LowBalance);
      if r.Pass? { Note(Passed(Guard(lost, reply.balance))); }
    }

    /** One step that is neither journalled nor satisfied. */
    method SubmitStep(step: Step, journal: Journal, state: State, ghost k: nat)
      returns (r: Result<(Journal, State), Stop>)
      requires Valid() && durable == Some(journal) && step !in journal.steps
      requires k < |PLAN| && PLAN[k] == step && AccountedBefore(Some(journal), log, k)
      modifies this`log, this`durable, this`tick
      ensures Valid() && Part(old(log), log, step, 0)
      ensures r.Ok? ==>
                && durable == Some(r.value.0) && step in r.value.0.steps && r.value.0.steps[step].status == Finalized
                && r.value.0.steps == journal.steps[step := r.value.0.steps[step]]
                && Whole(old(log), log, step, 0, 10) && log[|old(log)| + 7] == Read(r.value.1.satisfied)
      ensures Steady() && LosesSend(journal, step, world(0)) && state == world(0).state ==>
                r.Err? && durable == Some(Extended(journal, step, world(0))) && |log| == |old(log)| + 6
    {
      var prepared :- SendStep(step, journal, state, k);
      ghost var broadcast := log;
      ClosedStep(journal, prepared, step);
      r := Settle(step, prepared);
      PartThrough(old(log), broadcast, log, step, 0, 6);
      if r.Ok? { WholeThrough(old(log), broadcast, log, step, 0, 6, 10); }
    }

    /** Asks for the status of a journalled step. */
    method Recheck(k: nat, journal: Journal, satisfied: set<Step>, ghost start: Option<Journal>, ghost base: nat)
      returns (r: Outcome<Stop>)
      requires Valid() && durable == Some(journal) && k < |PLAN| && PLAN[k] in journal.steps
      requires Ready(start, log, base, journal, satisfied, k)
      modifies this`log, this`tick
      ensures Valid() && log == old(log) + [Reconciled(PLAN[k], r.Pass?)] && RunRules(start, log, base)
      ensures r.Pass? ==> Passing(start, log, base, journal, satisfied, k)
    {
      UnclearRules(start, log, base, journal, satisfied, k);
      ClearPasses(start, log, base, journal, satisfied, k);
      r := Reconcile(PLAN[k]);
      if r.Pass? { ReadyRules(start, log, base, journal, satisfied, k); }
    }

    /** Writes the finalized mark of a re-checked step, if it is missing. */
    method MarkFinalized(k: nat, journal: Journal, satisfied: set<Step>, ghost start: Option<Journal>, ghost base: nat)
      returns (r: Result<Journal, Stop>)
      requires Valid() && durable == Some(journal) && k < |PLAN| && Passing(start, log, base, journal, satisfied, k)
      modifies this`log, this`durable, this`tick
      ensures Valid() && RunRules(start, log, base)
      ensures log == old(log) || log == old(log) + [Wrote(Closed(journal, PLAN[k]))]
      ensures journal.steps[PLAN[k]].status == Finalized ==> r == Ok(journal) && log == old(log)
      ensures r.Ok? ==> durable == Some(r.value) && Ready(start, log, base, r.value, satisfied, k + 1)
    {
      Marking(start, log, base, journal, satisfied, k);
      if journal.steps[PLAN[k]].status == Finalized { return Ok(journal); }
      var closed := Closed(journal, PLAN[k]);
      FoundedClosed(journal, log, PLAN[k]);
      :- Write(closed);
      return Ok(closed);
    }

    /**
     * A journalled step is asked for and nothing else: the run goes on only when its status is finalized
     * without error and the step is satisfied, and nothing is sent.
     */
    method Revisit(k: nat, journal: Journal, state: State, ghost start: Option<Journal>, ghost base: nat)
      returns (r: Result<Journal, Stop>)
      requires Valid() && durable == Some(journal) && k < |PLAN| && PLAN[k] in journal.steps
      requires Ready(start, log, base, journal, state.satisfied, k)
      modifies this`log, this`durable, this`tick
      ensures Valid() && Grew(old(log), log) && Quiet(log, |old(log)|) && RunRules(start, log, base)
      ensures |old(log)| < |log| && log[|old(log)|].Reconciled? && log[|old(log)|].step == PLAN[k]
      ensures r.Ok? ==>
                && log[|old(log)|] == Reconciled(PLAN[k], true) && PLAN[k] in state.satisfied
                && durable == Some(r.value) && Ready(start, log, base, r.value, state.satisfied, k + 1)
    {
      var checked := Recheck(k, journal, state.satisfied, start, base);
      ghost var asked := log;
      CheckedLog(old(log), asked, asked, PLAN[k], checked.Pass?, journal);
      if checked.Fail? { return Err(checked.error); }
      if PLAN[k] !in state.satisfied { return Err(ReceiptStateMismatch); }
      r := MarkFinalized(k, journal, state.satisfied, start, base);
      CheckedLog(old(log), asked, log, PLAN[k], true, Closed(journal, PLAN[k]));
    }

    method Submit(k: nat, journal: Journal, state: State, ghost start: Option<Journal>, ghost base: nat)
      returns (r: Result<(Journal, State), Stop>)
      requires Valid() && durable == Some(journal) && k < |PLAN|
      requires PLAN[k] !in journal.steps && PLAN[k] !in state.satisfied
      requires Ready(start, log, base, journal, state.satisfied, k)
      modifies this`log, this`durable, this`tick
      ensures Valid() && Grew(old(log), log) && RunRules(start, log, base)
      ensures r.Ok? ==> durable == Some(r.value.0) && Ready(start, log, base, r.value.0, r.value.1.satisfied, k + 1)
      ensures Steady() && LosesSend(journal, PLAN[k], world(0)) && state == world(0).state ==>
                && r.Err? && durable == Some(Extended(journal, PLAN[k], world(0)))
                && Part(old(log), log, PLAN[k], 0) && |log| == |old(log)| + 6
    {
      r := SubmitStep(PLAN[k], journal, state, k);
      PartFacts(old(log), log, PLAN[k]);
      SubmittingRules(start, old(log), base, journal, state.satisfied, k, log);
      if r.Ok? {
        SubmittedIsReady(start, old(log), base, journal, state.satisfied, k, log, r.value.0, r.value.1.satisfied);
      }
    }

    /** One step of the plan: re-check it, skip it, or submit it. */
    method Visit(k: nat, journal: Journal, state: State, ghost start: Option<Journal>, ghost base: nat)
      returns (r: Result<(Journal, State), Stop>)
      requires Valid() && durable == Some(journal) && k < |PLAN| && Ready(start, log, base, journal, state.satisfied, k)
      modifies this`log, this`durable, this`tick
      ensures Valid() && Grew(old(log), log) && RunRules(start, log, base)
      ensures r.Ok? ==> durable == Some(r.value.0) && Ready(start, log, base, r.value.0, r.value.1.satisfied, k + 1)
      ensures world(old(tick)).late ==> r == Err(Deadline) && log == old(log) && durable == old(durable)
      ensures Steady() && !world(0).late && PLAN[k] !in journal.steps && PLAN[k] in state.satisfied ==>
                r == Ok((journal, state)) && log == old(log) && durable == old(durable)
      ensures Steady() && LosesSend(journal, PLAN[k], world(0)) && state == world(0).state ==>
                && r.Err? && durable == Some(Extended(journal, PLAN[k], world(0)))
                && Part(old(log), log, PLAN[k], 0) && |log| == |old(log)| + 6
    {
      ReadyRules(start, log, base, journal, state.satisfied, k);
      :- CheckDeadline();
      if PLAN[k] in journal.steps {
        var checked :- Revisit(k, journal, state, start, base);
        return Ok((checked, state));
      }
      if PLAN[k] in state.satisfied {
        SkippedIsReady(start, log, base, journal, state.satisfied, k);
        return Ok((journal, state));
      }
      r := Submit(k, journal, state, start, base);
    }

    // ---- a run ----

    /** The first state read, the balance and the journal. */
    method Load(identity: nat) returns (r: Result<(Journal, State, int), Stop>)
      requires Valid()
      modifies this`log, this`durable, this`tick
      ensures Valid() && (log == old(log) || exists satisfied :: Begun(old(durable), old(log), log, satisfied))
      ensures r.Ok? ==>
                && !world(old(tick)).lost && r.value.1 == world(old(tick)).state
                && !world(old(tick) + 1).lost && r.value.2 == world(old(tick) + 1).balance
      ensures r.Ok? ==>
                && durable == Some(r.value.0) && r.value.0.identity == identity
                && (r.value.0 == if old(durable).Some? then durable.value else Journal(identity, r.value.2, 0, map[]))
                && Begun(old(durable), old(log), log, r.value.1.satisfied)
                && |log| == |old(log)| + (if old(durable).Some? then 1 else 2)
                && (old(durable).None? ==> log[|old(log)| + 1].Wrote?)
      ensures old(durable).Some? ==> durable == old(durable)
      ensures Steady() && LosesFirst(old(durable), identity, world(0)) ==>
                r == Ok((Opened(old(durable), identity, world(0)), world(0).state, world(0).balance))
    {
      var state :- ReadState();
      ghost var first := log;
      BegunLog(old(durable), old(log), first, state.satisfied, Journal(identity, 0, 0, map[]));
      var reply := Await();
      if reply.lost { return Err(NoReply); }
      var loaded := LoadJournal(identity, reply.balance);
      BegunLog(old(durable), old(log), log, state.satisfied, Journal(identity, reply.balance, 0, map[]));
      var journal :- loaded;
      return Ok((journal, state, reply.balance));
    }

    /** Loads the journal and checks the funds. */
    method Start(identity: nat) returns (r: Result<(Journal, State), Stop>)
      requires Valid()
      modifies this`log, this`durable, this`tick
      ensures Valid() && Grew(old(log), log) && (|log| > |old(log)| ==> log[|old(log)|].Read?)
      ensures Quiet(log, |old(log)|) && NoReconcile(log, |old(log)|)
      ensures r.Ok? ==>
                && durable == Some(r.value.0) && r.value.0.identity == identity
                && Begun(old(durable), old(log), log, r.value.1.satisfied)
                && Ready(old(durable), log, |old(log)|, r.value.0, r.value.1.satisfied, 0)
      ensures old(durable).Some? ==> durable == old(durable)
      ensures Steady() && LosesFirst(old(durable), identity, world(0)) ==>
                && r == Ok((Opened(old(durable), identity, world(0)), world(0).state))
                && |log| == |old(log)| + if old(durable).Some? then 2 else 3
    {
      var loaded := Load(identity);
      MaybeBegunQuiet(old(durable), old(log), log);
      if loaded.Err? { return Err(loaded.error); }
      var (journal, state, balance) := loaded.value;
      ghost var recorded := log;
      var need := CheckFunds(journal, state, balance);
      if need.Err? { return Err(need.error); }
      BegunFunds(old(durable), old(log), recorded, state.satisfied, log[|log| - 1]);
      BegunQuiet(old(durable), old(log), log, state.satisfied);
      StartIsReady(old(durable), old(log), log, journal, state.satisfied);
      return Ok((journal, state));
    }

    method Walk(identity: nat) returns (r: Result<Journal, Stop>)
      requires Valid()
      modifies this`log, this`durable, this`tick
      ensures Valid() && Grew(old(log), log) && (|log| > |old(log)| ==> log[|old(log)|].Read?)
      ensures RunRules(old(durable), log, |old(log)|)
      ensures Foreign(old(durable), identity) ==> Quiet(log, |old(log)|) && durable == old(durable)
      ensures r.Ok? ==> durable == Some(r.value) && AllMarked(r.value)
      ensures r.Ok? ==>
                exists i :: |old(log)| <= i < |log| && log[i].Read? && AllSatisfied(log[i].satisfied)
      ensures Steady() && LosesFirst(old(durable), identity, world(0)) ==>
                Lost(old(log), log, old(durable), durable, identity, world(0))
    {
      ghost var start, base := durable, |log|;
      var started := Start(identity);
      QuietKeepsRules(start, log, base);
      ghost var begun := log;
      if started.Err? { return Err(started.error); }
      var (journal, state) := started.value;
      ghost var m := FirstOpen(journal, state.satisfied, 0);
      r := Follow(journal, state, start, base, m);
      if Steady() && LosesFirst(start, identity, world(0)) {
        LostRun(old(log), begun, log, start, durable, journal, PLAN[m], world(0));
      }
    }

    /** Steps before `m` are skipped, and the reply to the broadcast of step `m` is lost. */
    ghost predicate Losing(journal: Journal, state: State, m: nat)
      reads this`world
    {
      && Steady() && state == world(0).state && m < |PLAN| && LosesSend(journal, PLAN[m], world(0))
      && forall p :: 0 <= p < m ==> PLAN[p] !in journal.steps && PLAN[p] in state.satisfied
    }

    /** A turn of the plan, which skips up to the step whose broadcast is lost, and stops there. */
    method Turn(k: nat, journal: Journal, state: State, ghost start: Option<Journal>, ghost base: nat, ghost m: nat)
      returns (r: Result<(Journal, State), Stop>)
      requires Valid() && durable == Some(journal) && k < |PLAN| && Ready(start, log, base, journal, state.satisfied, k)
      modifies this`log, this`durable, this`tick
      ensures Valid() && Grew(old(log), log) && RunRules(start, log, base)
      ensures r.Ok? ==> durable == Some(r.value.0) && Ready(start, log, base, r.value.0, r.value.1.satisfied, k + 1)
      ensures Losing(journal, state, m) && k <= m ==>
                if k < m then r == Ok((journal, state)) && log == old(log)
                else
                  && r.Err? && durable == Some(Extended(journal, PLAN[m], world(0)))
                  && Part(old(log), log, PLAN[m], 0) && |log| == |old(log)| + 6
    {
      r := Visit(k, journal, state, start, base);
    }

    /** The loop over the plan. */
    method Follow(first: Journal, initial: State, ghost start: Option<Journal>, ghost base: nat, ghost m: nat)
      returns (r: Result<Journal, Stop>)
      requires Valid() && durable == Some(first) && Ready(start, log, base, first, initial.satisfied, 0)
      requires RunRules(start, log, base)
      modifies this`log, this`durable, this`tick
      ensures Valid() && Grew(old(log), log) && RunRules(start, log, base)
      ensures r.Ok? ==> durable == Some(r.value) && AllMarked(r.value)
      ensures r.Ok? ==>
                exists i :: base <= i < |log| && log[i].Read? && AllSatisfied(log[i].satisfied)
      ensures Losing(first, initial, m) ==>
                && durable == Some(Extended(first, PLAN[m], world(0)))
                && Part(old(log), log, PLAN[m], 0) && |log| == |old(log)| + 6
    {
      var journal, state := first, initial;
      for k := 0 to |PLAN|
        invariant Valid() && durable == Some(journal) && Grew(old(log), log) && RunRules(start, log, base)
        invariant Ready(start, log, base, journal, state.satisfied, k)
        invariant Losing(first, initial, m) ==> k <= m && journal == first && state == initial && log == old(log)
      {
        var visited :- Turn(k, journal, state, start, base, m);
        journal, state := visited.0, visited.1;
      }
      AllFinalized(start, log, base, journal, state.satisfied);
      :- Check(AllSatisfied(state.satisfied), Incomplete);
      return Ok(journal);
    }

    /**
     * Walks the plan once, resuming from whatever the durable journal holds. However the run ends, it has
     * broadcast only what was due, and each broadcast came after every check: authority, simulation, a read that
     * did not have the step yet, the durable record and the clock. A step that an earlier run journalled is never
     * sent again, and until its status was found finalized without error nothing after it is sent either. Before
     * it, only steps that were not settled at the start are sent, so nothing at all when all of them were, as is
     * always so while finalized reads only gain steps.
     */
    method Execute(identity: nat) returns (r: Result<Journal, Stop>)
      requires Valid() && locked
      modifies this`log, this`durable, this`tick
      ensures Valid() && Grew(old(log), log)
      ensures SendsAreDue(old(durable), log, |old(log)|) && Blocks(old(durable), log, |old(log)|)
      ensures SendsAreChecked(log, |old(log)|)
      ensures Foreign(old(durable), identity) ==> Quiet(log, |old(log)|) && durable == old(durable)
      ensures StopsWhenUnclear(log, |old(log)|) && QuietIffSettled(old(durable), log, |old(log)|)
      ensures ChecksOldSteps(old(durable), log, |old(log)|) && QuietWhenMonotone(old(durable), log, |old(log)|)
      ensures r.Ok? ==> durable == Some(r.value) && AllMarked(r.value)
      ensures r.Ok? ==>
                exists i :: |old(log)| <= i < |log| && log[i].Read? && AllSatisfied(log[i].satisfied)
      ensures Steady() && LosesFirst(old(durable), identity, world(0)) ==>
                Lost(old(log), log, old(durable), durable, identity, world(0))
    {
      r := Walk(identity);
      SafeSendsPlan(log, |old(log)|);
      RulesBlock(old(durable), log, |old(log)|);
      MonotoneQuiet(old(durable), old(log), log);
    }

    // ---- any number of runs ----

    /** Exclusive directory creation: fails while another run, live or crashed, holds the lock. */
    method Open() returns (acquired: bool)
      modifies this`locked
      ensures acquired == !old(locked) && locked
    {
      acquired := !locked;
      locked := true;
    }

    /** One process in a world of its own. A stop releases the lock; a crash leaves it held. */
    method RunOnce(identity: nat, replies: nat -> Reply, crashed: bool)
      requires Valid()
      modifies this
      ensures Valid() && Grew(old(log), log) && WriteAhead(log) && SentOnce(log)
      ensures SendsAreDue(old(durable), log, |old(log)|) && Blocks(old(durable), log, |old(log)|)
      ensures SendsAreChecked(log, |old(log)|)
      ensures Foreign(old(durable), identity) ==> Quiet(log, |old(log)|) && durable == old(durable)
      ensures StopsWhenUnclear(log, |old(log)|) && QuietIffSettled(old(durable), log, |old(log)|)
      ensures ChecksOldSteps(old(durable), log, |old(log)|) && QuietWhenMonotone(old(durable), log, |old(log)|)
      ensures if old(locked) then locked && log == old(log) && durable == old(durable) else locked == crashed
      ensures !old(locked) && Constant(replies) && LosesFirst(old(durable), identity, replies(0)) ==>
                Lost(old(log), log, old(durable), durable, identity, replies(0))
    {
      world, tick := replies, 0;
      var acquired := Open();
      if acquired {
        var outcome := Execute(identity);
        locked := crashed;
      }
    }

    /** Any number of runs, with an operator clearing crashed locks between them. */
    method RunMany(identity: nat, runs: seq<Process>)
      requires Valid()
      modifies this
      ensures Valid() && Grew(old(log), log) && WriteAhead(log) && SentOnce(log)
      ensures locked <==> HeldAfter(old(locked), runs, |runs|)
    {
      for n := 0 to |runs|
        invariant Valid() && Grew(old(log), log)
        invariant locked <==> HeldAfter(old(locked), runs, n)
      {
        HeldNext(old(locked), runs, n);
        RunOnce(identity, runs[n].replies, runs[n].crashed);
        if runs[n].cleared { locked := false; }
      }
    }
  }

  // ---- a stale first read ----

  const USUAL := Reply(false, false, true, State({InitWhitelist}, [89, 119, 119, 119, 119], true), 5_000_000, 1, 1, 1,
                       true, None, Unseen)
  const STALE := USUAL.(state := State({}, [78, 89, 119, 119, 119, 119], false), signature := 2)

  lemma UsualLoses()
    ensures LosesFirst(None, 0, USUAL) && PLAN[FirstOpen(Opened(None, 0, USUAL), {InitWhitelist}, 0)] == InitFactory
  {
    assert PLAN[0] == InitWhitelist && PLAN[1] == InitFactory;
    assert FirstOpen(Opened(None, 0, USUAL), {InitWhitelist}, 0) == 1;
  }

  lemma StaleLoses(journal: Journal)
    requires journal.identity == 0 && journal.steps.Keys == {InitFactory}
    requires journal.initialBalance == 5_000_000 && journal.spentBudget == 2
    ensures LosesFirst(Some(journal), 0, STALE) && PLAN[FirstOpen(journal, {}, 0)] == InitWhitelist
  {
    assert PLAN[0] == InitWhitelist && FirstOpen(journal, {}, 0) == 0;
  }

  /** The first run finds the whitelist in place and creates the factory; the reply to that broadcast is lost. */
  method UsualRun() returns (run: PrivateRun)
    ensures fresh(run) && run.Valid() && !run.locked && |run.log| == 9
    ensures run.log[8].Sent? && run.log[8].step == InitFactory
    ensures NoReconcile(run.log, 0) && run.durable.Some?
    ensures var journal := run.durable.value;
            && journal.identity == 0 && journal.initialBalance == 5_000_000 && journal.spentBudget == 2
            && journal.steps.Keys == {InitFactory}
  {
    run := new PrivateRun(t => USUAL);
    UsualLoses();
    run.RunOnce(0, t => USUAL, false);
    UsualLost(run.log, run.durable);
  }

  /** The second run starts from a read without the whitelist, and broadcasts that step. */
  method StaleRun(run: PrivateRun)
    requires run.Valid() && !run.locked && run.durable.Some?
    requires var journal := run.durable.value;
             && journal.identity == 0 && journal.initialBalance == 5_000_000 && journal.spentBudget == 2
             && journal.steps.Keys == {InitFactory}
    modifies run
    ensures run.Valid() && !run.locked && Grew(old(run.log), run.log) && |run.log| == |old(run.log)| + 8
    ensures run.log[|old(run.log)|] == Read({})
    ensures run.log[|run.log| - 1].Sent? && run.log[|run.log| - 1].step == InitWhitelist
    ensures NoReconcile(run.log, |old(run.log)|)
  {
    var journal := run.durable.value;
    StaleLoses(journal);
    run.RunOnce(0, t => STALE, false);
    StaleLost(old(run.log), run.log, journal, run.durable);
  }

  /**
   * Reads that lose a step make the difference: the second run, started from a stale read, broadcasts a step
   * before the journalled one without ever asking about that one's receipt.
   */
  method StaleFirstRead() returns (run: PrivateRun)
    ensures fresh(run) && run.Valid() && |run.log| == 17 && NoReconcile(run.log, 0)
    ensures run.log[8].Sent? && run.log[8].step == InitFactory
    ensures Journalled(LastWritten(run.log[..9]), InitFactory)
    ensures run.log[9] == Read({}) && run.log[16].Sent? && run.log[16].step == InitWhitelist
  {
    run := UsualRun();
    ghost var first, durable := run.log, run.durable;
    StaleRun(run);
    assert run.log[..9] == first && LastWritten(first) == durable;
  }

  lemma UsualLost(log: seq<Event>, durable: Option<Journal>)
    requires LostAt([], log, None, durable, Journal(0, 5_000_000, 0, map[]), InitFactory, USUAL)
    ensures |log| == 9 && log[8].Sent? && log[8].step == InitFactory && NoReconcile(log, 0)
    ensures durable.Some? && durable.value.identity == 0 && durable.value.steps.Keys == {InitFactory}
    ensures durable.value.initialBalance == 5_000_000 && durable.value.spentBudget == 2
  {
  }

  lemma StaleLost(before: seq<Event>, log: seq<Event>, journal: Journal, durable: Option<Journal>)
    requires LostAt(before, log, Some(journal), durable, journal, InitWhitelist, STALE)
    ensures |log| == |before| + 8 && Grew(before, log) && NoReconcile(log, |before|)
    ensures log[|before|] == Read({}) && log[|before| + 7].Sent? && log[|before| + 7].step == InitWhitelist
  {
  }
}
