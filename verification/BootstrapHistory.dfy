/**
 * The history of the crash-resumable bootstrap: a durable journal is written before the only broadcast of each
 * step. Everything ever observed or done is one log, in which each run has its own stretch.
 */
module BootstrapHistory {
  import opened Results

  datatype Step = InitWhitelist | InitFactory | Admit(token: nat) | ProposeOwner

  const PLAN: seq<Step> := [InitWhitelist, InitFactory, Admit(0), Admit(1), Admit(2), Admit(3), ProposeOwner]
  const MAX_SPEND := 20_000_000
  const MAX_FEE := 100_000
  const MIN_RESERVE := 1_000_000

  datatype Status = Prepared | Finalized
  datatype Receipt = Receipt(signature: nat, status: Status, fee: int)

  /** `identity` stands for the manifest, proof, source and authority hashes. */
  datatype Journal = Journal(identity: nat, initialBalance: int, spentBudget: int, steps: map<Step, Receipt>)

  /** A check that a run made and that was passed, with what it was made on. */
  datatype Gate =
    | Funds(need: int, spent: int, balance: int)
    | Authority(step: Step)
    | Simulation(step: Step)
    | Clock
    | Guard(lost: int, balance: int)

  /** What the outside world can observe: finalized reads, durable writes, receipt checks, broadcasts, finality. */
  datatype Event =
    | Read(satisfied: set<Step>)
    | Wrote(journal: Journal)
    | Reconciled(step: Step, clean: bool)
    | Sent(step: Step, signature: nat)
    | Confirmed(step: Step)
    | Passed(gate: Gate)

  function LastWritten(log: seq<Event>): Option<Journal> {
    if log == [] then None
    else if log[|log| - 1].Wrote? then Some(log[|log| - 1].journal)
    else LastWritten(log[..|log| - 1])
  }

  predicate Records(journal: Option<Journal>, step: Step, signature: nat) {
    journal.Some? && step in journal.value.steps && journal.value.steps[step].signature == signature
  }

  /** The durable journal at index `i` names the signature broadcast there. */
  predicate Announced(log: seq<Event>, i: nat)
    requires i < |log|
  {
    log[i].Sent? ==> Records(LastWritten(log[..i]), log[i].step, log[i].signature)
  }

  /** Every broadcast was preceded by a durable journal naming its signature. */
  predicate WriteAhead(log: seq<Event>) {
    forall i {:trigger Announced(log, i)} :: 0 <= i < |log| ==> Announced(log, i)
  }

  predicate Apart(log: seq<Event>, i: nat, j: nat)
    requires i < j < |log|
  {
    log[i].Sent? && log[j].Sent? ==> log[i].step != log[j].step
  }

  /** No step is ever broadcast twice. */
  predicate SentOnce(log: seq<Event>) {
    forall i, j {:trigger Apart(log, i, j)} :: 0 <= i < j < |log| ==> Apart(log, i, j)
  }

  predicate Named(journal: Option<Journal>, e: Event) {
    e.Sent? ==> Records(journal, e.step, e.signature)
  }

  /** The current durable journal still names every signature ever broadcast. */
  predicate Remembered(log: seq<Event>) {
    forall i {:trigger Named(LastWritten(log), log[i])} :: 0 <= i < |log| ==> Named(LastWritten(log), log[i])
  }

  predicate Budgeted(journal: Option<Journal>) {
    journal.Some? ==>
      && 0 <= journal.value.spentBudget <= MAX_SPEND
      && forall s :: s in journal.value.steps ==> s in PLAN
  }

  predicate Safe(log: seq<Event>) {
    WriteAhead(log) && SentOnce(log) && Remembered(log) && Budgeted(LastWritten(log))
  }

  /** Receipts are never dropped or re-signed. */
  predicate Extends(before: Option<Journal>, after: Journal) {
    before.Some? ==>
      forall s :: s in before.value.steps ==>
        s in after.steps && after.steps[s].signature == before.value.steps[s].signature
  }

  /** Marking one receipt finalized drops nothing and spends nothing. */
  function Closed(journal: Journal, step: Step): (closed: Journal)
    requires step in journal.steps
    ensures Extends(Some(journal), closed) && (Budgeted(Some(journal)) ==> Budgeted(Some(closed)))
  {
    journal.(steps := journal.steps[step := journal.steps[step].(status := Finalized)])
  }

  lemma ClosedStep(journal: Journal, prepared: Journal, step: Step)
    requires step in prepared.steps && prepared.steps == journal.steps[step := prepared.steps[step]]
    ensures Closed(prepared, step).steps == journal.steps[step := Closed(prepared, step).steps[step]]
    ensures Closed(prepared, step).steps[step].status == Finalized
  {
  }

  lemma AppendPrefixes(log: seq<Event>, e: Event)
    ensures LastWritten(log + [e]) == if e.Wrote? then Some(e.journal) else LastWritten(log)
    ensures forall i :: 0 <= i <= |log| ==> (log + [e])[..i] == log[..i]
  {
  }

  lemma LastWrittenAppend(log: seq<Event>, e: Event)
    ensures LastWritten(log + [e]) == if e.Wrote? then Some(e.journal) else LastWritten(log)
  {
  }

  /** What happened stays announced and apart. */
  lemma SafePast(log: seq<Event>, e: Event)
    requires Safe(log)
    ensures forall i :: 0 <= i < |log| ==> Announced(log + [e], i)
    ensures forall i, j :: 0 <= i < j < |log| ==> Apart(log + [e], i, j)
  {
    AppendPrefixes(log, e);
    forall i | 0 <= i < |log| ensures Announced(log + [e], i) {
      assert Announced(log, i);
    }
    forall i, j | 0 <= i < j < |log| ensures Apart(log + [e], i, j) {
      assert Apart(log, i, j);
    }
  }

  lemma SafeQuiet(log: seq<Event>, e: Event)
    requires Safe(log) && (e.Read? || e.Reconciled? || e.Confirmed? || e.Passed?)
    ensures Safe(log + [e])
  {
    var later := log + [e];
    LastWrittenAppend(log, e);
    SafePast(log, e);
    forall i | 0 <= i < |later| ensures Announced(later, i) && Named(LastWritten(later), later[i]) {
      assert i < |log| ==> Named(LastWritten(log), log[i]);
    }
    forall i, j | 0 <= i < j < |later| ensures Apart(later, i, j) {}
  }

  lemma SafeWrite(log: seq<Event>, journal: Journal)
    requires Safe(log) && Extends(LastWritten(log), journal) && Budgeted(Some(journal))
    ensures Safe(log + [Wrote(journal)])
  {
    var later := log + [Wrote(journal)];
    LastWrittenAppend(log, Wrote(journal));
    SafePast(log, Wrote(journal));
    forall i | 0 <= i < |later| ensures Announced(later, i) && Named(LastWritten(later), later[i]) {
      assert i < |log| ==> Named(LastWritten(log), log[i]);
    }
    forall i, j | 0 <= i < j < |later| ensures Apart(later, i, j) {}
  }

  predicate NeverSent(log: seq<Event>, step: Step) {
    forall i :: 0 <= i < |log| && log[i].Sent? ==> log[i].step != step
  }

  lemma SafeSend(log: seq<Event>, step: Step, signature: nat)
    requires Safe(log) && Records(LastWritten(log), step, signature) && NeverSent(log, step)
    ensures Safe(log + [Sent(step, signature)])
  {
    var e := Sent(step, signature);
    var later := log + [e];
    LastWrittenAppend(log, e);
    SafePast(log, e);
    assert later[..|log|] == log;
    forall i | 0 <= i < |later| ensures Announced(later, i) && Named(LastWritten(later), later[i]) {
      assert i < |log| ==> Named(LastWritten(log), log[i]);
    }
    forall i, j | 0 <= i < j < |later| ensures Apart(later, i, j) {}
  }

  /** In a safe history a step absent from the durable journal has never been broadcast. */
  lemma UnrecordedNeverSent(log: seq<Event>, step: Step)
    requires Safe(log) && (LastWritten(log).None? || step !in LastWritten(log).value.steps)
    ensures NeverSent(log, step)
  {
    forall i | 0 <= i < |log| && log[i].Sent? ensures log[i].step != step {
      assert Named(LastWritten(log), log[i]);
    }
  }

  // ---- the journal follows the plan ----

  predicate Journalled(journal: Option<Journal>, step: Step) {
    journal.Some? && step in journal.value.steps
  }

  predicate SeenSatisfied(log: seq<Event>, step: Step) {
    exists i :: 0 <= i < |log| && log[i].Read? && step in log[i].satisfied
  }

  predicate Accounted(journal: Option<Journal>, log: seq<Event>, step: Step) {
    Journalled(journal, step) || SeenSatisfied(log, step)
  }

  /** Every step of the plan before `k` is journalled or was seen satisfied at some time. */
  predicate AccountedBefore(journal: Option<Journal>, log: seq<Event>, k: nat)
    requires k <= |PLAN|
  {
    forall p :: 0 <= p < k ==> Accounted(journal, log, PLAN[p])
  }

  /** A step is journalled only after all steps before it are accounted for. */
  predicate OrderedWith(journal: Option<Journal>, log: seq<Event>) {
    forall k {:trigger InOrder(journal, log, k)} :: 0 <= k < |PLAN| ==> InOrder(journal, log, k)
  }

  predicate InOrder(journal: Option<Journal>, log: seq<Event>, k: nat)
    requires k < |PLAN|
  {
    Journalled(journal, PLAN[k]) ==> AccountedBefore(journal, log, k)
  }

  lemma AccountedGrows(journal: Option<Journal>, log: seq<Event>, after: Option<Journal>, later: seq<Event>,
                       k: nat)
    requires k <= |PLAN| && AccountedBefore(journal, log, k) && Grew(log, later)
    requires journal.Some? ==> after.Some? && journal.value.steps.Keys <= after.value.steps.Keys
    ensures AccountedBefore(after, later, k)
  {
  }

  lemma OrderedGrows(journal: Option<Journal>, log: seq<Event>, later: seq<Event>)
    requires OrderedWith(journal, log) && Grew(log, later)
    ensures OrderedWith(journal, later)
  {
    forall k | 0 <= k < |PLAN| ensures InOrder(journal, later, k) {
      assert InOrder(journal, log, k);
      if Journalled(journal, PLAN[k]) { AccountedGrows(journal, log, journal, later, k); }
    }
  }

  lemma OrderedSameSteps(journal: Journal, after: Journal, log: seq<Event>)
    requires OrderedWith(Some(journal), log) && after.steps.Keys == journal.steps.Keys
    ensures OrderedWith(Some(after), log)
  {
    forall k | 0 <= k < |PLAN| ensures InOrder(Some(after), log, k) {
      assert InOrder(Some(journal), log, k);
    }
  }

  lemma OrderedNewStep(journal: Journal, after: Journal, log: seq<Event>, k: nat)
    requires k < |PLAN| && OrderedWith(Some(journal), log) && AccountedBefore(Some(journal), log, k)
    requires after.steps.Keys == journal.steps.Keys + {PLAN[k]}
    ensures OrderedWith(Some(after), log)
  {
    forall m | 0 <= m < |PLAN| ensures InOrder(Some(after), log, m) {
      assert InOrder(Some(journal), log, m);
      if PLAN[m] == PLAN[k] { PlanDistinct(m, k); }
    }
  }

  // ---- receipts are marked finalized on evidence only ----

  /** The step's status was seen finalized without error. */
  predicate Clear(log: seq<Event>, step: Step) {
    exists i :: 0 <= i < |log| && (log[i] == Reconciled(step, true) || log[i] == Confirmed(step))
  }

  /** Every receipt marked finalized was seen finalized before. */
  predicate Evidenced(journal: Option<Journal>, log: seq<Event>) {
    journal.Some? ==>
      forall s :: s in journal.value.steps && journal.value.steps[s].status == Finalized ==> Clear(log, s)
  }

  /** What the log has to say for a journal: the plan's order and the evidence of its finalized receipts. */
  predicate Founded(journal: Option<Journal>, log: seq<Event>) {
    OrderedWith(journal, log) && Evidenced(journal, log)
  }

  lemma ClearGrows(log: seq<Event>, later: seq<Event>, step: Step)
    requires Clear(log, step) && Grew(log, later)
    ensures Clear(later, step)
  {
    var i :| 0 <= i < |log| && (log[i] == Reconciled(step, true) || log[i] == Confirmed(step));
    assert later[i] == log[i];
  }

  lemma FoundedGrows(journal: Option<Journal>, log: seq<Event>, later: seq<Event>)
    requires Founded(journal, log) && Grew(log, later)
    ensures Founded(journal, later)
  {
    OrderedGrows(journal, log, later);
    if journal.Some? {
      forall s | s in journal.value.steps && journal.value.steps[s].status == Finalized ensures Clear(later, s) {
        ClearGrows(log, later, s);
      }
    }
  }

  lemma FoundedClosed(journal: Journal, log: seq<Event>, step: Step)
    requires Founded(Some(journal), log) && step in journal.steps && Clear(log, step)
    ensures Founded(Some(Closed(journal, step)), log)
  {
    OrderedSameSteps(journal, Closed(journal, step), log);
  }

  lemma FoundedPrepared(journal: Journal, prepared: Journal, log: seq<Event>, k: nat)
    requires k < |PLAN| && Founded(Some(journal), log) && AccountedBefore(Some(journal), log, k)
    requires PLAN[k] in prepared.steps && prepared.steps[PLAN[k]].status == Prepared
    requires prepared.steps == journal.steps[PLAN[k] := prepared.steps[PLAN[k]]]
    ensures Founded(Some(prepared), log)
  {
    OrderedNewStep(journal, prepared, log, k);
  }

  // ---- one run's part of the history: the events from index `base` on ----

  predicate Grew(before: seq<Event>, after: seq<Event>) {
    |before| <= |after| && forall i :: 0 <= i < |before| ==> after[i] == before[i]
  }

  predicate NoReconcile(log: seq<Event>, base: nat) {
    forall i :: base <= i < |log| ==> !log[i].Reconciled?
  }

  predicate Quiet(log: seq<Event>, base: nat) {
    forall i :: base <= i < |log| ==> !log[i].Sent?
  }

  /** No other step than this one is broadcast. */
  predicate OnlySends(log: seq<Event>, base: nat, step: Step) {
    forall i :: base <= i < |log| && log[i].Sent? ==> log[i].step == step
  }

  predicate EndsUnclear(log: seq<Event>, base: nat, step: Step) {
    base < |log| && log[|log| - 1] == Reconciled(step, false)
  }

  /** Only steps journalled before the run are re-checked by it. */
  predicate ChecksOldSteps(start: Option<Journal>, log: seq<Event>, base: nat) {
    forall k :: 0 <= k < |PLAN| && EndsUnclear(log, base, PLAN[k]) ==> Journalled(start, PLAN[k])
  }

  /** A journalled step whose status is unknown or failed is the last thing a run observes. */
  predicate StopsWhenUnclear(log: seq<Event>, base: nat) {
    forall i :: base <= i < |log| && log[i].Reconciled? && !log[i].clean ==> i == |log| - 1
  }

  predicate SettledStep(start: Option<Journal>, satisfied: set<Step>, step: Step) {
    (start.Some? && step in start.value.steps) || step in satisfied
  }

  /** Every step of the plan before `k` is already journalled or was satisfied in the first read. */
  predicate SettledBefore(start: Option<Journal>, satisfied: set<Step>, k: nat)
    requires k <= |PLAN|
  {
    forall p :: 0 <= p < k ==> SettledStep(start, satisfied, PLAN[p])
  }

  /** A run that stops at an unclear step broadcast nothing exactly when every earlier step was settled at its start. */
  predicate QuietIffSettled(start: Option<Journal>, log: seq<Event>, base: nat) {
    forall k :: 0 <= k < |PLAN| && EndsUnclear(log, base, PLAN[k]) ==>
      log[base].Read? && (Quiet(log, base) <==> SettledBefore(start, log[base].satisfied, k))
  }

  /** The run asked for the status of an earlier submission, before index `i`, and found it finalized without error. */
  predicate Rechecked(log: seq<Event>, base: nat, i: nat, step: Step)
    requires i <= |log|
  {
    exists j :: base <= j < i && log[j] == Reconciled(step, true)
  }

  /**
   * When the run may broadcast step `k` at index `i`: it is no step of an earlier run, some step up to it was
   * unsettled at the start, and every earlier step that an earlier run had journalled was re-checked before.
   */
  predicate SendDue(start: Option<Journal>, log: seq<Event>, base: nat, i: nat, k: nat)
    requires base <= i < |log| && k < |PLAN|
  {
    && log[base].Read? && !Journalled(start, PLAN[k]) && !SettledBefore(start, log[base].satisfied, k + 1)
    && forall p :: 0 <= p < k && Journalled(start, PLAN[p]) ==> Rechecked(log, base, i, PLAN[p])
  }

  /** Every broadcast of the run, however the run ended, was due. */
  predicate SendsAreDue(start: Option<Journal>, log: seq<Event>, base: nat) {
    forall i, k {:trigger SendDue(start, log, base, i, k)} ::
      base <= i < |log| && 0 <= k < |PLAN| && log[i].Sent? && log[i].step == PLAN[k] ==> SendDue(start, log, base, i, k)
  }

  // ---- the checks around one broadcast ----

  predicate GoodFunds(e: Event) {
    e.Passed? && e.gate.Funds? && e.gate.need + e.gate.spent <= MAX_SPEND && e.gate.balance >= e.gate.need + MIN_RESERVE
  }

  predicate GoodGuard(e: Event) {
    e.Passed? && e.gate.Guard? && e.gate.lost <= MAX_SPEND && e.gate.balance >= MIN_RESERVE
  }

  /** The run's funds were checked right after its first read and its journal. */
  predicate FundsPassed(log: seq<Event>, base: nat) {
    || (base + 1 < |log| && GoodFunds(log[base + 1]))
    || (base + 2 < |log| && log[base + 1].Wrote? && GoodFunds(log[base + 2]))
  }

  /**
   * What one submission does, in this order: the signer holds the authority, the signed transaction is simulated,
   * a new read does not have the step yet, the journal naming the signature is durable, the deadline has not
   * passed, the broadcast, its finality, a read that has the step, the finalized mark, and the spending guard.
   * The last event of an interrupted submission may be a read that ended it.
   */
  predicate Fits(e: Event, step: Step, n: int, last: bool) {
    if n == 0 then e == Passed(Authority(step))
    else if n == 1 then e == Passed(Simulation(step))
    else if n == 2 then e.Read? && (last || step !in e.satisfied)
    else if n == 3 then e.Wrote? && step in e.journal.steps
    else if n == 4 then e == Passed(Clock)
    else if n == 5 then e.Sent? && e.step == step
    else if n == 6 then e == Confirmed(step)
    else if n == 7 then e.Read? && (last || step in e.satisfied)
    else if n == 8 then e.Wrote? && step in e.journal.steps && e.journal.steps[step].status == Finalized
    else n == 9 && GoodGuard(e)
  }

  predicate FitsAt(before: seq<Event>, after: seq<Event>, step: Step, from: nat, i: nat)
    requires |before| <= i < |after|
  {
    Fits(after[i], step, from + i - |before|, i == |after| - 1)
  }

  /** The events number `from`, `from` + 1 and so on of a submission, up to where it was interrupted. */
  predicate Part(before: seq<Event>, after: seq<Event>, step: Step, from: nat) {
    && Grew(before, after)
    && forall i {:trigger FitsAt(before, after, step, from, i)} ::
         |before| <= i < |after| ==> FitsAt(before, after, step, from, i)
  }

  /** All events number `from` up to `to`. */
  predicate Whole(before: seq<Event>, after: seq<Event>, step: Step, from: nat, to: nat) {
    && Part(before, after, step, from) && from < to && |after| == |before| + (to - from)
    && Fits(after[|after| - 1], step, to - 1, false)
  }

  lemma PartAppend(before: seq<Event>, e: Event, step: Step, from: nat)
    requires Fits(e, step, from, true)
    ensures Part(before, before + [e], step, from)
    ensures Fits(e, step, from, false) ==> Whole(before, before + [e], step, from, from + 1)
  {
    var after := before + [e];
    forall i | |before| <= i < |after| ensures FitsAt(before, after, step, from, i) {}
  }

  lemma PartThrough(a: seq<Event>, b: seq<Event>, c: seq<Event>, step: Step, from: nat, mid: nat)
    requires Whole(a, b, step, from, mid) && Part(b, c, step, mid)
    ensures Part(a, c, step, from)
  {
    forall i | |a| <= i < |c| ensures FitsAt(a, c, step, from, i) {
      if i < |b| { assert c[i] == b[i] && FitsAt(a, b, step, from, i); } else { assert FitsAt(b, c, step, mid, i); }
    }
  }

  lemma WholeThrough(a: seq<Event>, b: seq<Event>, c: seq<Event>, step: Step, from: nat, mid: nat, to: nat)
    requires Whole(a, b, step, from, mid) && Whole(b, c, step, mid, to)
    ensures Whole(a, c, step, from, to)
  {
    PartThrough(a, b, c, step, from, mid);
  }

  /** The five checks and records that come right before a broadcast. */
  predicate Launched(log: seq<Event>, base: nat, i: nat)
    requires base <= i < |log| && log[i].Sent?
  {
    var step := log[i].step;
    && base + 5 <= i && log[i - 5] == Passed(Authority(step)) && log[i - 4] == Passed(Simulation(step))
    && log[i - 3].Read? && step !in log[i - 3].satisfied && log[i - 2].Wrote? && step in log[i - 2].journal.steps
    && log[i - 1] == Passed(Clock)
  }

  /** A broadcast that was confirmed, authenticated, recorded as finalized and guarded before index `n`. */
  predicate Finished(log: seq<Event>, i: nat, n: nat)
    requires i < n <= |log| && log[i].Sent?
  {
    var step := log[i].step;
    && i + 4 < n && log[i + 1] == Confirmed(step) && log[i + 2].Read? && step in log[i + 2].satisfied
    && log[i + 3].Wrote? && step in log[i + 3].journal.steps && log[i + 3].journal.steps[step].status == Finalized
    && GoodGuard(log[i + 4])
  }

  predicate AllFinished(log: seq<Event>, base: nat, n: nat)
    requires n <= |log|
  {
    forall i :: base <= i < n && log[i].Sent? ==> Finished(log, i, n)
  }

  /** A broadcast with all its checks, in a run whose funds were checked and whose earlier broadcasts are finished. */
  predicate SendChecked(log: seq<Event>, base: nat, i: nat)
    requires base <= i < |log|
  {
    log[i].Sent? ==> Launched(log, base, i) && FundsPassed(log, base) && AllFinished(log, base, i)
  }

  predicate SendsAreChecked(log: seq<Event>, base: nat) {
    forall i {:trigger SendChecked(log, base, i)} :: base <= i < |log| ==> SendChecked(log, base, i)
  }

  /** What a part of a submission leaves in the log. */
  lemma PartFacts(before: seq<Event>, after: seq<Event>, step: Step)
    requires Part(before, after, step, 0)
    ensures NoReconcile(after, |before|) && OnlySends(after, |before|, step)
    ensures |after| <= |before| + 10 && (|after| <= |before| + 5 <==> Quiet(after, |before|))
    ensures forall i :: |before| <= i < |after| && after[i].Sent? ==> i == |before| + 5
  {
    forall i | |before| <= i < |after|
      ensures !after[i].Reconciled? && i - |before| < 10 && (after[i].Sent? <==> i == |before| + 5)
      ensures after[i].Sent? ==> after[i].step == step
    {
      assert FitsAt(before, after, step, 0, i);
    }
    if |after| > |before| + 5 { assert after[|before| + 5].Sent?; }
    if |after| > |before| { assert !after[|after| - 1].Reconciled?; }
  }

  lemma PartLaunches(before: seq<Event>, after: seq<Event>, step: Step, base: nat)
    requires Part(before, after, step, 0) && base <= |before| && |after| > |before| + 5
    ensures after[|before| + 5].Sent? && Launched(after, base, |before| + 5)
  {
    var n := |before|;
    assert FitsAt(before, after, step, 0, n) && FitsAt(before, after, step, 0, n + 1);
    assert FitsAt(before, after, step, 0, n + 2) && FitsAt(before, after, step, 0, n + 3);
    assert FitsAt(before, after, step, 0, n + 4) && FitsAt(before, after, step, 0, n + 5);
  }

  lemma FinishedGrows(log: seq<Event>, base: nat, later: seq<Event>, n: nat)
    requires n <= |log| && AllFinished(log, base, n) && Grew(log, later)
    ensures AllFinished(later, base, n)
  {
    forall i | base <= i < n && later[i].Sent? ensures Finished(later, i, n) {
      assert log[i] == later[i] && Finished(log, i, n);
    }
  }

  lemma SendCheckedGrows(log: seq<Event>, base: nat, i: nat, later: seq<Event>)
    requires base <= i < |log| && SendChecked(log, base, i) && Grew(log, later)
    ensures SendChecked(later, base, i)
  {
    if later[i].Sent? { FinishedGrows(log, base, later, i); }
  }

  /** The broadcast of a submission made with funds checked and nothing open is checked. */
  lemma ChecksGrow(log: seq<Event>, base: nat, later: seq<Event>, step: Step)
    requires SendsAreChecked(log, base) && FundsPassed(log, base) && base <= |log| && AllFinished(log, base, |log|)
    requires Part(log, later, step, 0)
    ensures SendsAreChecked(later, base)
  {
    PartFacts(log, later, step);
    forall i | base <= i < |later| ensures SendChecked(later, base, i) {
      if i < |log| {
        assert SendChecked(log, base, i);
        SendCheckedGrows(log, base, i, later);
      } else if later[i].Sent? {
        PartLaunches(log, later, step, base);
        FinishedGrows(log, base, later, |log|);
        assert forall j :: |log| <= j < i ==> !later[j].Sent?;
        FinishedLater(later, base, |log|, i);
      }
    }
  }

  lemma FinishedLater(log: seq<Event>, base: nat, n: nat, m: nat)
    requires n <= m <= |log| && AllFinished(log, base, n) && forall j :: n <= j < m ==> !log[j].Sent?
    ensures AllFinished(log, base, m)
  {
    forall i | base <= i < m && log[i].Sent? ensures Finished(log, i, m) {
      assert Finished(log, i, n);
    }
  }

  lemma ChecksGrowQuiet(log: seq<Event>, base: nat, later: seq<Event>)
    requires SendsAreChecked(log, base) && FundsPassed(log, base) && base <= |log| && AllFinished(log, base, |log|)
    requires Grew(log, later) && Quiet(later, |log|)
    ensures SendsAreChecked(later, base) && FundsPassed(later, base) && AllFinished(later, base, |later|)
  {
    forall i | base <= i < |later| ensures SendChecked(later, base, i) {
      if i < |log| {
        assert SendChecked(log, base, i);
        SendCheckedGrows(log, base, i, later);
      }
    }
    FinishedGrows(log, base, later, |log|);
    FinishedLater(later, base, |log|, |later|);
  }

  /** A completed submission is finished. */
  lemma WholeFinishes(log: seq<Event>, base: nat, later: seq<Event>, step: Step)
    requires FundsPassed(log, base) && base <= |log| && AllFinished(log, base, |log|) && Whole(log, later, step, 0, 10)
    ensures FundsPassed(later, base) && AllFinished(later, base, |later|)
    ensures later[|log| + 7].Read? && !Quiet(later, |log|)
  {
    var n := |log|;
    PartFacts(log, later, step);
    assert FitsAt(log, later, step, 0, n + 6) && FitsAt(log, later, step, 0, n + 7);
    assert FitsAt(log, later, step, 0, n + 8);
    assert GoodGuard(later[n + 9]);
    FinishedGrows(log, base, later, |log|);
    forall i | base <= i < |later| && later[i].Sent? ensures Finished(later, i, |later|) {
      if i < n { assert Finished(later, i, n); }
    }
  }

  /** What a run keeps, wherever it ends. */
  predicate RunRules(start: Option<Journal>, log: seq<Event>, base: nat) {
    && StopsWhenUnclear(log, base) && QuietIffSettled(start, log, base)
    && ChecksOldSteps(start, log, base) && SendsAreDue(start, log, base) && SendsAreChecked(log, base)
  }

  lemma QuietKeepsRules(start: Option<Journal>, log: seq<Event>, base: nat)
    requires Quiet(log, base) && NoReconcile(log, base)
    ensures RunRules(start, log, base)
  {
    forall i | base <= i < |log| ensures SendChecked(log, base, i) {}
  }

  /** Every broadcast of the run is of a step before `k`, up to which some step was unsettled at the start. */
  predicate SendsOnlyBefore(start: Option<Journal>, log: seq<Event>, base: nat, k: nat)
    requires k <= |PLAN|
  {
    forall i :: base <= i < |log| && log[i].Sent? ==>
      exists m :: 0 <= m < k && log[i].step == PLAN[m]
                  && log[base].Read? && !SettledBefore(start, log[base].satisfied, m + 1)
  }

  /**
   * A journalled step that the run has not found finalized blocks everything from it on: only earlier,
   * unsettled steps may be broadcast, and nothing at all when every earlier step was settled.
   */
  predicate Blocks(start: Option<Journal>, log: seq<Event>, base: nat) {
    forall k :: 0 <= k < |PLAN| && Journalled(start, PLAN[k]) && !Rechecked(log, base, |log|, PLAN[k]) ==>
      && SendsOnlyBefore(start, log, base, k)
      && (base < |log| && log[base].Read? && SettledBefore(start, log[base].satisfied, k) ==> Quiet(log, base))
  }

  predicate SendsPlan(log: seq<Event>, base: nat) {
    forall i :: base <= i < |log| && log[i].Sent? ==> log[i].step in PLAN
  }

  lemma RecheckedEarlier(log: seq<Event>, base: nat, i: nat, step: Step)
    requires i <= |log|
    ensures Rechecked(log, base, i, step) ==> Rechecked(log, base, |log|, step)
  {
  }

  lemma UncheckedBlocks(start: Option<Journal>, log: seq<Event>, base: nat, k: nat)
    requires SendsAreDue(start, log, base) && SendsPlan(log, base)
    requires k < |PLAN| && Journalled(start, PLAN[k]) && !Rechecked(log, base, |log|, PLAN[k])
    ensures SendsOnlyBefore(start, log, base, k)
    ensures base < |log| && log[base].Read? && SettledBefore(start, log[base].satisfied, k) ==> Quiet(log, base)
  {
    forall i | base <= i < |log| && log[i].Sent?
      ensures exists m :: 0 <= m < k && log[i].step == PLAN[m]
                          && log[base].Read? && !SettledBefore(start, log[base].satisfied, m + 1)
    {
      var m :| 0 <= m < |PLAN| && PLAN[m] == log[i].step;
      assert SendDue(start, log, base, i, m);
      RecheckedEarlier(log, base, i, PLAN[k]);
    }
  }

  lemma RulesBlock(start: Option<Journal>, log: seq<Event>, base: nat)
    requires SendsAreDue(start, log, base) && SendsPlan(log, base)
    ensures Blocks(start, log, base)
  {
    forall k | 0 <= k < |PLAN| && Journalled(start, PLAN[k]) && !Rechecked(log, base, |log|, PLAN[k])
      ensures SendsOnlyBefore(start, log, base, k)
      ensures base < |log| && log[base].Read? && SettledBefore(start, log[base].satisfied, k) ==> Quiet(log, base)
    {
      UncheckedBlocks(start, log, base, k);
    }
  }

  /** In a safe history only steps of the plan are broadcast. */
  lemma SafeSendsPlan(log: seq<Event>, base: nat)
    requires Safe(log)
    ensures SendsPlan(log, base)
  {
    forall i | base <= i < |log| && log[i].Sent? ensures log[i].step in PLAN {
      assert Named(LastWritten(log), log[i]);
    }
  }

  // ---- where a run stands before step `k` of the plan ----

  predicate Progress(start: Option<Journal>, log: seq<Event>, base: nat, journal: Journal, satisfied: set<Step>, k: nat)
    requires k <= |PLAN|
  {
    && base < |log| && log[base].Read?
    && (forall i :: base <= i < |log| && log[i].Reconciled? ==> log[i].clean)
    && (exists i :: base <= i < |log| && log[i] == Read(satisfied))
    && (forall p :: 0 <= p < k && PLAN[p] in journal.steps ==> journal.steps[PLAN[p]].status == Finalized)
    && (start.Some? ==> start.value.steps.Keys <= journal.steps.Keys)
    && (Quiet(log, base) ==>
          && satisfied == log[base].satisfied
          && journal.steps.Keys <= (if start.Some? then start.value.steps.Keys else {}))
    && (Quiet(log, base) <==> SettledBefore(start, log[base].satisfied, k))
  }

  /** All earlier steps are accounted for and all later journalled ones are from earlier runs. */
  predicate Standing(start: Option<Journal>, log: seq<Event>, journal: Journal, k: nat)
    requires k <= |PLAN|
  {
    && AccountedBefore(Some(journal), log, k)
    && forall p :: k <= p < |PLAN| && PLAN[p] in journal.steps ==> Journalled(start, PLAN[p])
  }

  /** All earlier steps of earlier runs were re-checked. */
  predicate RecheckedBefore(start: Option<Journal>, log: seq<Event>, base: nat, k: nat)
    requires k <= |PLAN|
  {
    forall p :: 0 <= p < k && Journalled(start, PLAN[p]) ==> Rechecked(log, base, |log|, PLAN[p])
  }

  predicate Ready(start: Option<Journal>, log: seq<Event>, base: nat, journal: Journal, satisfied: set<Step>, k: nat)
    requires k <= |PLAN|
  {
    && Progress(start, log, base, journal, satisfied, k) && Standing(start, log, journal, k)
    && RecheckedBefore(start, log, base, k) && SendsAreDue(start, log, base)
    && SendsAreChecked(log, base) && FundsPassed(log, base) && AllFinished(log, base, |log|)
  }

  /** Step `k` is journalled and was re-checked. */
  predicate Passing(start: Option<Journal>, log: seq<Event>, base: nat, journal: Journal, satisfied: set<Step>, k: nat)
    requires k < |PLAN|
  {
    && Ready(start, log, base, journal, satisfied, k)
    && PLAN[k] in journal.steps && Rechecked(log, base, |log|, PLAN[k])
  }

  // ---- how the parts grow ----

  lemma StandingQuiet(start: Option<Journal>, log: seq<Event>, journal: Journal, k: nat,
                      later: seq<Event>, after: Journal)
    requires k <= |PLAN| && Standing(start, log, journal, k) && Grew(log, later)
    requires after.steps.Keys == journal.steps.Keys
    ensures Standing(start, later, after, k)
  {
  }

  lemma StandingNext(start: Option<Journal>, log: seq<Event>, journal: Journal, k: nat, satisfied: set<Step>)
    requires k < |PLAN| && Standing(start, log, journal, k)
    requires exists i :: 0 <= i < |log| && log[i] == Read(satisfied)
    requires PLAN[k] in journal.steps || PLAN[k] in satisfied
    ensures Standing(start, log, journal, k + 1)
  {
  }

  lemma StandingSubmitted(start: Option<Journal>, log: seq<Event>, journal: Journal, k: nat,
                          later: seq<Event>, after: Journal)
    requires k < |PLAN| && Standing(start, log, journal, k) && Grew(log, later)
    requires after.steps.Keys == journal.steps.Keys + {PLAN[k]}
    ensures Standing(start, later, after, k + 1)
  {
  }

  lemma RecheckedGrows(log: seq<Event>, base: nat, i: nat, step: Step, later: seq<Event>, n: nat)
    requires i <= |log| && Rechecked(log, base, i, step) && Grew(log, later) && i <= n <= |later|
    ensures Rechecked(later, base, n, step)
  {
    var j :| base <= j < i && log[j] == Reconciled(step, true);
    assert later[j] == log[j];
  }

  lemma RecheckedBeforeGrows(start: Option<Journal>, log: seq<Event>, base: nat, k: nat, later: seq<Event>)
    requires k <= |PLAN| && RecheckedBefore(start, log, base, k) && Grew(log, later)
    ensures RecheckedBefore(start, later, base, k)
  {
    forall p | 0 <= p < k && Journalled(start, PLAN[p]) ensures Rechecked(later, base, |later|, PLAN[p]) {
      RecheckedGrows(log, base, |log|, PLAN[p], later, |later|);
    }
  }

  /** A broadcast that was due stays so as the log grows. */
  lemma SendDueGrows(start: Option<Journal>, log: seq<Event>, base: nat, i: nat, k: nat, later: seq<Event>)
    requires base <= i < |log| && k < |PLAN| && SendDue(start, log, base, i, k) && Grew(log, later)
    ensures SendDue(start, later, base, i, k)
  {
    assert later[base] == log[base];
    forall p | 0 <= p < k && Journalled(start, PLAN[p]) ensures Rechecked(later, base, i, PLAN[p]) {
      RecheckedGrows(log, base, i, PLAN[p], later, i);
    }
  }

  /** Only the step that is due is broadcast from here on. */
  lemma DueGrows(start: Option<Journal>, log: seq<Event>, base: nat, k: nat, later: seq<Event>)
    requires k < |PLAN| && base < |log| && log[base].Read? && Grew(log, later) && OnlySends(later, |log|, PLAN[k])
    requires SendsAreDue(start, log, base) && RecheckedBefore(start, log, base, k)
    requires !Journalled(start, PLAN[k]) && !SettledBefore(start, log[base].satisfied, k + 1)
    ensures SendsAreDue(start, later, base)
  {
    forall i, m | base <= i < |later| && 0 <= m < |PLAN| && later[i].Sent? && later[i].step == PLAN[m]
      ensures SendDue(start, later, base, i, m)
    {
      if i < |log| {
        assert SendDue(start, log, base, i, m);
        SendDueGrows(start, log, base, i, m, later);
      } else {
        PlanDistinct(m, k);
        forall p | 0 <= p < m && Journalled(start, PLAN[p]) ensures Rechecked(later, base, i, PLAN[p]) {
          RecheckedGrows(log, base, |log|, PLAN[p], later, i);
        }
      }
    }
  }

  lemma PlanDistinct(m: nat, k: nat)
    requires m < |PLAN| && k < |PLAN| && PLAN[m] == PLAN[k]
    ensures m == k
  {
  }

  lemma QuietGrows(start: Option<Journal>, log: seq<Event>, base: nat, later: seq<Event>)
    requires SendsAreDue(start, log, base) && Grew(log, later) && Quiet(later, |log|)
    ensures SendsAreDue(start, later, base)
  {
    forall i, m | base <= i < |later| && 0 <= m < |PLAN| && later[i].Sent? && later[i].step == PLAN[m]
      ensures SendDue(start, later, base, i, m)
    {
      assert i < |log| && later[i] == log[i];
      assert SendDue(start, log, base, i, m);
      SendDueGrows(start, log, base, i, m, later);
    }
  }

  /** Events that neither send nor report an unclear receipt keep a run's progress. */
  lemma ProgressQuiet(start: Option<Journal>, log: seq<Event>, base: nat, journal: Journal, satisfied: set<Step>,
                      k: nat, e: Event, after: Journal)
    requires k <= |PLAN| && Progress(start, log, base, journal, satisfied, k)
    requires e.Wrote? || (e.Reconciled? && e.clean)
    requires after.steps.Keys == journal.steps.Keys
    requires forall s :: s in journal.steps && journal.steps[s].status == Finalized ==>
               after.steps[s].status == Finalized
    ensures Progress(start, log + [e], base, after, satisfied, k)
  {
    var longer := log + [e];
    var i :| base <= i < |log| && log[i] == Read(satisfied);
    assert longer[i] == Read(satisfied);
    assert Quiet(longer, base) <==> Quiet(log, base) by {
      assert forall j :: 0 <= j < |log| ==> longer[j] == log[j];
    }
  }

  /** Passing a step that is finalized in the journal, or not journalled at all. */
  lemma ProgressNext(start: Option<Journal>, log: seq<Event>, base: nat, journal: Journal, satisfied: set<Step>, k: nat)
    requires k < |PLAN| && Progress(start, log, base, journal, satisfied, k)
    requires PLAN[k] in journal.steps ==> journal.steps[PLAN[k]].status == Finalized
    requires Quiet(log, base) ==> SettledStep(start, log[base].satisfied, PLAN[k])
    ensures Progress(start, log, base, journal, satisfied, k + 1)
  {
  }

  /** Submitting an unjournalled, unsatisfied step shows that the plan was not settled up to it. */
  lemma ProgressSubmitted(start: Option<Journal>, log: seq<Event>, base: nat, journal: Journal, satisfied: set<Step>,
                          k: nat, later: seq<Event>, after: Journal, now: set<Step>)
    requires k < |PLAN| && Progress(start, log, base, journal, satisfied, k)
    requires PLAN[k] !in journal.steps && PLAN[k] !in satisfied
    requires Grew(log, later) && NoReconcile(later, |log|) && !Quiet(later, |log|)
    requires exists i :: |log| <= i < |later| && later[i] == Read(now)
    requires PLAN[k] in after.steps && after.steps == journal.steps[PLAN[k] := after.steps[PLAN[k]]]
    requires after.steps[PLAN[k]].status == Finalized
    ensures Progress(start, later, base, after, now, k + 1)
  {
  }

  /** Whatever a run may still do without another unclear receipt keeps the stopping rules. */
  lemma ProgressStops(start: Option<Journal>, log: seq<Event>, base: nat, journal: Journal, satisfied: set<Step>,
                      k: nat, later: seq<Event>)
    requires k <= |PLAN| && Progress(start, log, base, journal, satisfied, k)
    requires Grew(log, later) && NoReconcile(later, |log|)
    ensures StopsWhenUnclear(later, base) && QuietIffSettled(start, later, base) && ChecksOldSteps(start, later, base)
  {
  }

  /** A step that is neither journalled nor satisfied shows the plan to be unsettled up to it. */
  lemma ProgressUnsettled(start: Option<Journal>, log: seq<Event>, base: nat, journal: Journal, satisfied: set<Step>,
                          k: nat)
    requires k < |PLAN| && Progress(start, log, base, journal, satisfied, k)
    requires PLAN[k] !in journal.steps && PLAN[k] !in satisfied
    ensures !Journalled(start, PLAN[k]) && !SettledBefore(start, log[base].satisfied, k + 1)
  {
    if Quiet(log, base) {
      assert !SettledStep(start, log[base].satisfied, PLAN[k]);
    } else {
      assert !SettledBefore(start, log[base].satisfied, k);
    }
  }

  /** An unclear receipt ends the run, which was quiet exactly when the plan was settled up to it. */
  lemma UnclearStops(start: Option<Journal>, log: seq<Event>, base: nat, journal: Journal, satisfied: set<Step>, k: nat)
    requires k < |PLAN| && Progress(start, log, base, journal, satisfied, k) && Journalled(start, PLAN[k])
    ensures var later := log + [Reconciled(PLAN[k], false)];
            && StopsWhenUnclear(later, base) && QuietIffSettled(start, later, base)
            && ChecksOldSteps(start, later, base)
  {
    var later := log + [Reconciled(PLAN[k], false)];
    assert forall i :: 0 <= i < |log| ==> later[i] == log[i];
    assert Quiet(later, base) <==> Quiet(log, base);
    assert forall j :: 0 <= j < |PLAN| && EndsUnclear(later, base, PLAN[j]) ==> j == k;
  }

  // ---- the moves of a run ----

  lemma ReadyRules(start: Option<Journal>, log: seq<Event>, base: nat, journal: Journal, satisfied: set<Step>, k: nat)
    requires k <= |PLAN| && Ready(start, log, base, journal, satisfied, k)
    ensures RunRules(start, log, base)
  {
    ProgressStops(start, log, base, journal, satisfied, k, log);
  }

  lemma ReadyRead(start: Option<Journal>, log: seq<Event>, base: nat, journal: Journal, satisfied: set<Step>, k: nat)
    requires k <= |PLAN| && Ready(start, log, base, journal, satisfied, k)
    ensures exists i :: base <= i < |log| && log[i] == Read(satisfied)
  {
  }

  /** The status of step `k` is unclear. */
  lemma UnclearRules(start: Option<Journal>, log: seq<Event>, base: nat, journal: Journal, satisfied: set<Step>, k: nat)
    requires k < |PLAN| && Ready(start, log, base, journal, satisfied, k) && PLAN[k] in journal.steps
    ensures RunRules(start, log + [Reconciled(PLAN[k], false)], base)
  {
    UnclearStops(start, log, base, journal, satisfied, k);
    QuietGrows(start, log, base, log + [Reconciled(PLAN[k], false)]);
    ChecksGrowQuiet(log, base, log + [Reconciled(PLAN[k], false)]);
  }

  /** The status of step `k` is clear. */
  lemma ClearPasses(start: Option<Journal>, log: seq<Event>, base: nat, journal: Journal, satisfied: set<Step>, k: nat)
    requires k < |PLAN| && Ready(start, log, base, journal, satisfied, k) && PLAN[k] in journal.steps
    ensures Passing(start, log + [Reconciled(PLAN[k], true)], base, journal, satisfied, k)
  {
    var e := Reconciled(PLAN[k], true);
    ProgressQuiet(start, log, base, journal, satisfied, k, e, journal);
    StandingQuiet(start, log, journal, k, log + [e], journal);
    RecheckedBeforeGrows(start, log, base, k, log + [e]);
    QuietGrows(start, log, base, log + [e]);
    ChecksGrowQuiet(log, base, log + [e]);
    assert (log + [e])[|log|] == e;
  }

  /** The receipt of a re-checked step is marked finalized. */
  lemma ClosedPasses(start: Option<Journal>, log: seq<Event>, base: nat, journal: Journal, satisfied: set<Step>, k: nat)
    requires k < |PLAN| && Passing(start, log, base, journal, satisfied, k)
    ensures var closed := Closed(journal, PLAN[k]);
            Passing(start, log + [Wrote(closed)], base, closed, satisfied, k)
  {
    var closed := Closed(journal, PLAN[k]);
    var later := log + [Wrote(closed)];
    ProgressQuiet(start, log, base, journal, satisfied, k, Wrote(closed), closed);
    StandingQuiet(start, log, journal, k, later, closed);
    RecheckedBeforeGrows(start, log, base, k, later);
    RecheckedGrows(log, base, |log|, PLAN[k], later, |later|);
    QuietGrows(start, log, base, later);
    ChecksGrowQuiet(log, base, later);
  }

  /** A re-checked step with a finalized receipt is behind the run. */
  lemma PassedIsReady(start: Option<Journal>, log: seq<Event>, base: nat, journal: Journal, satisfied: set<Step>,
                      k: nat)
    requires k < |PLAN| && Passing(start, log, base, journal, satisfied, k)
    requires journal.steps[PLAN[k]].status == Finalized
    ensures Ready(start, log, base, journal, satisfied, k + 1)
  {
    assert Journalled(start, PLAN[k]);
    ProgressNext(start, log, base, journal, satisfied, k);
    ReadyRead(start, log, base, journal, satisfied, k);
    StandingNext(start, log, journal, k, satisfied);
  }

  /** A satisfied step without a receipt is skipped. */
  lemma SkippedIsReady(start: Option<Journal>, log: seq<Event>, base: nat, journal: Journal, satisfied: set<Step>,
                       k: nat)
    requires k < |PLAN| && Ready(start, log, base, journal, satisfied, k)
    requires PLAN[k] !in journal.steps && PLAN[k] in satisfied
    ensures Ready(start, log, base, journal, satisfied, k + 1)
  {
    ProgressNext(start, log, base, journal, satisfied, k);
    ReadyRead(start, log, base, journal, satisfied, k);
    StandingNext(start, log, journal, k, satisfied);
  }

  /** Whatever part of the submission of step `k`, which is neither journalled nor satisfied, is made. */
  lemma SubmittingRules(start: Option<Journal>, log: seq<Event>, base: nat, journal: Journal, satisfied: set<Step>,
                        k: nat, later: seq<Event>)
    requires k < |PLAN| && Ready(start, log, base, journal, satisfied, k)
    requires PLAN[k] !in journal.steps && PLAN[k] !in satisfied && Part(log, later, PLAN[k], 0)
    ensures RunRules(start, later, base)
  {
    PartFacts(log, later, PLAN[k]);
    ProgressStops(start, log, base, journal, satisfied, k, later);
    ProgressUnsettled(start, log, base, journal, satisfied, k);
    DueGrows(start, log, base, k, later);
    ChecksGrow(log, base, later, PLAN[k]);
  }

  /** A submitted step is behind the run. */
  lemma SubmittedIsReady(start: Option<Journal>, log: seq<Event>, base: nat, journal: Journal, satisfied: set<Step>,
                         k: nat, later: seq<Event>, after: Journal, now: set<Step>)
    requires k < |PLAN| && Ready(start, log, base, journal, satisfied, k)
    requires PLAN[k] !in journal.steps && PLAN[k] !in satisfied && Whole(log, later, PLAN[k], 0, 10)
    requires later[|log| + 7] == Read(now)
    requires PLAN[k] in after.steps && after.steps == journal.steps[PLAN[k] := after.steps[PLAN[k]]]
    requires after.steps[PLAN[k]].status == Finalized
    ensures Ready(start, later, base, after, now, k + 1)
  {
    PartFacts(log, later, PLAN[k]);
    SubmittingRules(start, log, base, journal, satisfied, k, later);
    WholeFinishes(log, base, later, PLAN[k]);
    ProgressUnsettled(start, log, base, journal, satisfied, k);
    ProgressSubmitted(start, log, base, journal, satisfied, k, later, after, now);
    StandingSubmitted(start, log, journal, k, later, after);
    RecheckedBeforeGrows(start, log, base, k, later);
  }

  /** At the end of the plan every journalled step is finalized. */
  lemma AllFinalized(start: Option<Journal>, log: seq<Event>, base: nat, journal: Journal, satisfied: set<Step>)
    requires Ready(start, log, base, journal, satisfied, |PLAN|) && Budgeted(Some(journal))
    ensures forall s :: s in journal.steps ==> journal.steps[s].status == Finalized
    ensures exists i :: base <= i < |log| && log[i] == Read(satisfied)
  {
    forall s | s in journal.steps ensures journal.steps[s].status == Finalized {
      assert s in PLAN;
    }
  }

  // ---- when finalized reads only gain steps ----

  /** Finalized reads only ever gain satisfied steps. */
  predicate MonotoneReads(log: seq<Event>) {
    forall i, j :: 0 <= i < j < |log| && log[i].Read? && log[j].Read? ==> log[i].satisfied <= log[j].satisfied
  }

  /** Then every step before a journalled one was settled at the start of the run. */
  lemma JournalledIsSettled(start: Option<Journal>, log: seq<Event>, base: nat, k: nat)
    requires base < |log| && log[base].Read? && OrderedWith(start, log[..base]) && MonotoneReads(log)
    requires k < |PLAN| && Journalled(start, PLAN[k])
    ensures SettledBefore(start, log[base].satisfied, k)
  {
    assert InOrder(start, log[..base], k);
    forall p | 0 <= p < k ensures SettledStep(start, log[base].satisfied, PLAN[p]) {
      assert Accounted(start, log[..base], PLAN[p]);
      if SeenSatisfied(log[..base], PLAN[p]) {
        var i :| 0 <= i < base && log[..base][i].Read? && PLAN[p] in log[..base][i].satisfied;
        assert log[i].satisfied <= log[base].satisfied;
      }
    }
  }

  /** The run stopped at a step whose status was unknown or failed. */
  predicate StoppedUnclear(log: seq<Event>, base: nat) {
    exists k :: 0 <= k < |PLAN| && EndsUnclear(log, base, PLAN[k])
  }

  /** Then a run that stops at an unclear step has sent nothing. */
  lemma UnclearRunSendsNothing(start: Option<Journal>, log: seq<Event>, base: nat)
    requires base < |log| && log[base].Read? && OrderedWith(start, log[..base]) && MonotoneReads(log)
    requires QuietIffSettled(start, log, base) && ChecksOldSteps(start, log, base) && StoppedUnclear(log, base)
    ensures Quiet(log, base)
  {
    var k :| 0 <= k < |PLAN| && EndsUnclear(log, base, PLAN[k]);
    JournalledIsSettled(start, log, base, k);
  }

  /** Some journalled step was not found finalized in the run. */
  predicate Unchecked(start: Option<Journal>, log: seq<Event>, base: nat) {
    exists k :: 0 <= k < |PLAN| && Journalled(start, PLAN[k]) && !Rechecked(log, base, |log|, PLAN[k])
  }

  /** A run that has not found some journalled step finalized has sent nothing. */
  lemma UncheckedRunSendsNothing(start: Option<Journal>, log: seq<Event>, base: nat, k: nat)
    requires base < |log| ==> log[base].Read?
    requires base <= |log| && OrderedWith(start, log[..base]) && MonotoneReads(log) && Blocks(start, log, base)
    requires k < |PLAN| && Journalled(start, PLAN[k]) && !Rechecked(log, base, |log|, PLAN[k])
    ensures Quiet(log, base)
  {
    if base < |log| { JournalledIsSettled(start, log, base, k); }
  }
}
