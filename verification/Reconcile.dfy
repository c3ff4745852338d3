/** Reconciling a saved owner receipt against the chain, and the single broadcast that creates it. */
module Reconcile {
  import opened Results

  /** The fate of one signed transaction: the height it is included at, if ever, and how it ended. */
  datatype Landing = Never | Landed(height: int, failed: bool)

  /** What one RPC reply is based on: the finalized height, and the processed height up to which landings are shown. */
  datatype View = View(finalized: int, tip: int)

  datatype Seen = Missing | Pending | Final(failed: bool)

  function StatusIn(landing: Landing, view: View): Seen {
    match landing
    case Never => Missing
    case Landed(height, failed) =>
      if height <= view.finalized then Final(failed) else if height <= view.tip then Pending else Missing
  }

  datatype Kind = Handoff | Setup
  datatype Receipt = Receipt(kind: Kind, lastValid: Option<int>, blockhashWellFormed: bool)
  datatype Verdict = Prepared | Finalized | Failed | Expired

  function FromFinal(failed: bool): Verdict {
    if failed then Failed else Finalized
  }

  /** The client's reading of up to three replies: a status, a block height, and a second status. */
  function Reconciled(receipt: Receipt, landing: Landing, first: View, height: View, second: View): Verdict {
    var status := StatusIn(landing, first);
    if status == Missing && receipt.kind == Setup && receipt.lastValid.Some? && receipt.blockhashWellFormed
       && height.finalized > receipt.lastValid.value
    then
      match StatusIn(landing, second)
      case Final(failed) => FromFinal(failed)
      case Pending => Prepared
      case Missing => Expired
    else
      match status
      case Final(failed) => FromFinal(failed)
      case _ => Prepared
  }

  /** A setup transaction can only be included up to its last valid block height. */
  predicate Possible(receipt: Receipt, landing: Landing) {
    landing.Landed? && receipt.kind == Setup && receipt.lastValid.Some? ==> landing.height <= receipt.lastValid.value
  }

  /** Replies in the order they were made from a ledger that only moves forward. */
  predicate Forward(first: View, height: View, second: View) {
    first.finalized <= height.finalized <= second.finalized
  }

  /** An expired receipt has not landed and never will; in particular no landing races past the check. */
  lemma ExpiredNeverLands(receipt: Receipt, landing: Landing, first: View, height: View, second: View)
    requires Possible(receipt, landing) && Forward(first, height, second)
    requires Reconciled(receipt, landing, first, height, second) == Expired
    ensures landing == Never && receipt.kind == Setup
  {
  }

  /** The transaction is in a block that the reply shows. */
  predicate Shown(landing: Landing, view: View) {
    landing.Landed? && (landing.height <= view.finalized || landing.height <= view.tip)
  }

  /** The second status is asked for when the first shows nothing and a setup's last valid height has passed. */
  predicate Asks(receipt: Receipt, landing: Landing, first: View, height: View) {
    && receipt.kind == Setup && receipt.lastValid.Some? && receipt.blockhashWellFormed
    && receipt.lastValid.value < height.finalized && !Shown(landing, first)
  }

  /** The verdict in terms of where the transaction landed; in every other case the receipt stays prepared. */
  lemma VerdictIff(receipt: Receipt, landing: Landing, first: View, height: View, second: View)
    ensures var verdict := Reconciled(receipt, landing, first, height, second);
            var seen := landing.Landed? && (landing.height <= first.finalized
                                            || (Asks(receipt, landing, first, height)
                                                && landing.height <= second.finalized));
            && (verdict == Expired <==> Asks(receipt, landing, first, height) && !Shown(landing, second))
            && (verdict == Failed <==> seen && landing.failed)
            && (verdict == Finalized <==> seen && !landing.failed)
  {
  }

  /** Final verdicts are the chain's own: what landed is what is reported. */
  lemma FinalVerdictsAreTrue(receipt: Receipt, landing: Landing, first: View, height: View, second: View)
    ensures var verdict := Reconciled(receipt, landing, first, height, second);
            && (verdict == Finalized ==> landing.Landed? && !landing.failed)
            && (verdict == Failed ==> landing.Landed? && landing.failed)
            && (landing.Landed? && landing.height <= first.finalized ==>
                  verdict == if landing.failed then Failed else Finalized)
            && (receipt.kind == Handoff ==> verdict != Expired)
  {
    VerdictIff(receipt, landing, first, height, second);
  }

  /**
   * Replies from nodes that lag behind one another are another matter: `Expired` excludes every landing
   * exactly when one of the two status replies was processed up to the last valid height.
   */
  lemma ExpiredSoundIff(receipt: Receipt, first: View, height: View, second: View)
    requires receipt.kind == Setup && receipt.lastValid.Some? && receipt.blockhashWellFormed
    requires height.finalized > receipt.lastValid.value && first.finalized <= first.tip
    requires second.finalized <= second.tip
    ensures (forall landing ::
               Possible(receipt, landing) && Reconciled(receipt, landing, first, height, second) == Expired ==>
                 landing == Never)
            <==> (first.tip >= receipt.lastValid.value || second.tip >= receipt.lastValid.value)
  {
    var raced := Landed(receipt.lastValid.value, false);
    assert Possible(receipt, raced);
    if first.tip < receipt.lastValid.value && second.tip < receipt.lastValid.value {
      assert Reconciled(receipt, raced, first, height, second) == Expired;
    }
  }

  /** A concrete lagging pair of replies for which a landed transaction is reported expired. */
  lemma LaggingReplyMisreports()
    ensures exists receipt: Receipt, landing: Landing, first: View, height: View, second: View ::
              Possible(receipt, landing) && landing.Landed? && first.finalized <= height.finalized
              && Reconciled(receipt, landing, first, height, second) == Expired
  {
    var receipt := Receipt(Setup, Some(100), true);
    var landing, first, height, second := Landed(100, false), View(90, 95), View(101, 103), View(95, 99);
    assert Possible(receipt, landing) && Reconciled(receipt, landing, first, height, second) == Expired;
  }

  // ---- the broadcast ----

  datatype Event = Persisted | Sent

  datatype Failure = IntentChanged

  /** One turn of polling: a reply was lost or refused, or all came and the owner was still on the page or not. */
  datatype Poll = Lost | Replies(first: View, height: View, second: View, active: bool)

  /** Whether what the owner accepted still held before and after persisting, and whether the send was accepted. */
  datatype Conditions = Conditions(intended: bool, stillIntended: bool, accepted: bool)

  /** What the turns from number k on report. */
  function Polled(receipt: Receipt, landing: Landing, polls: seq<Poll>, k: nat): Verdict
    requires k <= |polls|
    decreases |polls| - k
  {
    if k == |polls| || polls[k].Lost? then Prepared
    else
      var verdict := Reconciled(receipt, landing, polls[k].first, polls[k].height, polls[k].second);
      if verdict != Prepared then verdict
      else if polls[k].active then Polled(receipt, landing, polls, k + 1) else Prepared
  }

  /** The turn brought all replies, and they decide nothing or something. */
  predicate Decides(receipt: Receipt, landing: Landing, poll: Poll, verdict: Verdict) {
    poll.Replies? && Reconciled(receipt, landing, poll.first, poll.height, poll.second) == verdict
  }

  /** Polling goes on up to turn n: every reply came, nothing was decided and the owner stayed. */
  predicate GoesOn(receipt: Receipt, landing: Landing, polls: seq<Poll>, k: nat, n: nat)
    requires n <= |polls|
  {
    forall j :: k <= j < n ==> Decides(receipt, landing, polls[j], Prepared) && polls[j].active
  }

  predicate Settles(receipt: Receipt, landing: Landing, polls: seq<Poll>, k: nat, verdict: Verdict) {
    exists n :: k <= n < |polls| && Decides(receipt, landing, polls[n], verdict)
                && GoesOn(receipt, landing, polls, k, n)
  }

  /** Polling reports what the first deciding turn says, and nothing once a reply is lost or the owner leaves. */
  lemma {:induction false} PolledIff(receipt: Receipt, landing: Landing, polls: seq<Poll>, k: nat, verdict: Verdict)
    requires k <= |polls| && verdict != Prepared
    ensures Polled(receipt, landing, polls, k) == verdict <==> Settles(receipt, landing, polls, k, verdict)
    decreases |polls| - k
  {
    if k < |polls| && Decides(receipt, landing, polls[k], Prepared) && polls[k].active {
      PolledIff(receipt, landing, polls, k + 1, verdict);
      if Polled(receipt, landing, polls, k + 1) == verdict {
        var n :| k + 1 <= n < |polls| && Decides(receipt, landing, polls[n], verdict)
                 && GoesOn(receipt, landing, polls, k + 1, n);
        assert GoesOn(receipt, landing, polls, k, n);
      }
    } else if k < |polls| {
      assert Decides(receipt, landing, polls[k], verdict) ==> GoesOn(receipt, landing, polls, k, k);
    }
  }

  /** Within each turn the replies come from a ledger that only moves forward. */
  predicate InOrder(polls: seq<Poll>) {
    forall k :: 0 <= k < |polls| && polls[k].Replies? ==> Forward(polls[k].first, polls[k].height, polls[k].second)
  }

  /** The verdict agrees with what became of the transaction. */
  predicate True(landing: Landing, verdict: Verdict) {
    match verdict
    case Prepared => true
    case Expired => landing == Never
    case Finalized => landing.Landed? && !landing.failed
    case Failed => landing.Landed? && landing.failed
  }

  /** Whatever polling reports is true. */
  lemma {:induction false} PolledIsTrue(receipt: Receipt, landing: Landing, polls: seq<Poll>, k: nat)
    requires k <= |polls| && Possible(receipt, landing) && InOrder(polls)
    ensures True(landing, Polled(receipt, landing, polls, k))
    decreases |polls| - k
  {
    if k < |polls| && polls[k].Replies? {
      FinalVerdictsAreTrue(receipt, landing, polls[k].first, polls[k].height, polls[k].second);
      PolledIsTrue(receipt, landing, polls, k + 1);
    }
  }

  /** A landing that is finalized by the time of some turn is reported, if polling lasts until then. */
  lemma {:induction false} LandingIsReported(receipt: Receipt, landing: Landing, polls: seq<Poll>, k: nat, n: nat)
    requires k <= n < |polls| && Possible(receipt, landing) && InOrder(polls) && landing.Landed?
    requires polls[n].Replies? && landing.height <= polls[n].first.finalized
    requires forall i :: k <= i < n ==> polls[i].Replies? && polls[i].active
    ensures Polled(receipt, landing, polls, k) == if landing.failed then Failed else Finalized
    decreases n - k
  {
    FinalVerdictsAreTrue(receipt, landing, polls[k].first, polls[k].height, polls[k].second);
    if k < n { LandingIsReported(receipt, landing, polls, k + 1, n); }
  }

  class Session {
    var log: seq<Event>

    /**
     * Persists the receipt, sends once, and afterwards only reads. A lost or unexpected reply keeps the
     * receipt as prepared, and every other verdict is true of the transaction.
     */
    method Broadcast(receipt: Receipt, landing: Landing, conditions: Conditions, polls: seq<Poll>)
      returns (r: Result<Verdict, Failure>)
      modifies this
      ensures r == if conditions.intended && conditions.stillIntended
                   then Ok(if conditions.accepted then Polled(receipt, landing, polls, 0) else Prepared)
                   else Err(IntentChanged)
      ensures forall verdict :: verdict != Prepared ==>
                (r == Ok(verdict) <==>
                 && conditions.intended && conditions.stillIntended && conditions.accepted
                 && Settles(receipt, landing, polls, 0, verdict))
      ensures log == old(log) + (if !conditions.intended then []
                                 else if conditions.stillIntended then [Persisted, Sent] else [Persisted])
      ensures r.Ok? && Possible(receipt, landing) && InOrder(polls) ==> True(landing, r.value)
    {
      if !conditions.intended { return Err(IntentChanged); }
      log := log + [Persisted];
      if !conditions.stillIntended { return Err(IntentChanged); }
      log := log + [Sent];
      assert log == old(log) + [Persisted, Sent];
      if !conditions.accepted { return Ok(Prepared); }
      forall verdict | verdict != Prepared
        ensures Polled(receipt, landing, polls, 0) == verdict <==> Settles(receipt, landing, polls, 0, verdict)
      {
        PolledIff(receipt, landing, polls, 0, verdict);
      }
      if Possible(receipt, landing) && InOrder(polls) { PolledIsTrue(receipt, landing, polls, 0); }
      for k := 0 to |polls|
        invariant log == old(log) + [Persisted, Sent]
        invariant Polled(receipt, landing, polls, 0) == Polled(receipt, landing, polls, k)
      {
        if polls[k].Lost? { return Ok(Prepared); }
        var next := Reconciled(receipt, landing, polls[k].first, polls[k].height, polls[k].second);
        if next != Prepared { return Ok(next); }
        if !polls[k].active { return Ok(Prepared); }
      }
      return Ok(Prepared);
    }
  }
}
