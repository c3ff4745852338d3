/**
 * Lifecycle submissions: an append-only receipt list, one durable write and one broadcast each.
 *
 * RPC replies, simulation results, clock readings and lost answers are arbitrary.
 */
module ReceiptLedger {
  import opened Results

  datatype Actor = Bootstrap | Creator | Investor
  datatype Status = Prepared | Finalized
  datatype Receipt = Receipt(tag: string, actor: Actor, signature: nat, fee: int, rent: int, status: Status)
  type Allocation = map<Actor, int>

  const MAX_TRANSACTIONS := 24
  const MAX_FEE := 100_000
  const ACTORS: set<Actor> := {Bootstrap, Creator, Investor}

  function Limit(actor: Actor): int {
    match actor
    case Bootstrap => 160_000_000
    case Creator => 90_000_000
    case Investor => 60_000_000
  }

  function Reserve(actor: Actor): int {
    if actor == Bootstrap then 100_000_000 else 1_000_000
  }

  function Spent(receipts: seq<Receipt>, actor: Actor): int {
    if receipts == [] then 0
    else
      var last := receipts[|receipts| - 1];
      Spent(receipts[..|receipts| - 1], actor) + if last.actor == actor then last.fee + last.rent else 0
  }

  function Signatures(receipts: seq<Receipt>): (s: seq<nat>)
    ensures |s| == |receipts| && forall i :: 0 <= i < |s| ==> s[i] == receipts[i].signature
  {
    seq(|receipts|, i requires 0 <= i < |receipts| => receipts[i].signature)
  }

  predicate DistinctLabels(receipts: seq<Receipt>) {
    forall i, j :: 0 <= i < j < |receipts| ==> receipts[i].tag != receipts[j].tag
  }

  /** Only the last receipt may still be unfinalized. */
  predicate OnlyLastOpen(receipts: seq<Receipt>) {
    forall i :: 0 <= i < |receipts| - 1 ==> receipts[i].status == Finalized
  }

  predicate Priced(receipts: seq<Receipt>) {
    forall i :: 0 <= i < |receipts| ==> 0 < receipts[i].fee <= MAX_FEE && 0 <= receipts[i].rent
  }

  /** Each actor's allocation is the sum of its receipts and stays within its ceiling. */
  predicate Accounted(receipts: seq<Receipt>, reserved: Allocation) {
    forall a :: a in ACTORS ==> a in reserved && reserved[a] == Spent(receipts, a) && 0 <= reserved[a] <= Limit(a)
  }

  /** Everything sent is exactly the receipts in order, except that the last may not have been sent yet. */
  predicate SentMatches(receipts: seq<Receipt>, sent: seq<nat>) {
    || sent == Signatures(receipts)
    || (receipts != [] && receipts[|receipts| - 1].status == Prepared && sent == Signatures(receipts[..|receipts| - 1]))
  }

  predicate Sound(receipts: seq<Receipt>, reserved: Allocation, sent: seq<nat>) {
    && |receipts| <= MAX_TRANSACTIONS && DistinctLabels(receipts) && OnlyLastOpen(receipts) && Priced(receipts)
    && Accounted(receipts, reserved) && SentMatches(receipts, sent)
  }

  /** The bounds re-checked before any journal is persisted. */
  predicate Publishable(receipts: seq<Receipt>, reserved: Allocation) {
    && |receipts| <= MAX_TRANSACTIONS && DistinctLabels(receipts)
    && (forall a :: a in ACTORS ==> a in reserved && 0 <= reserved[a] <= Limit(a))
    && forall i :: 0 <= i < |receipts| ==> 0 < receipts[i].fee <= MAX_FEE && 0 <= receipts[i].rent
  }

  predicate Closed(receipts: seq<Receipt>) {
    forall i :: 0 <= i < |receipts| ==> receipts[i].status == Finalized
  }

  predicate Open(receipts: seq<Receipt>) {
    receipts != [] && receipts[|receipts| - 1].status == Prepared
  }

  /** A new open receipt the ledger has room and budget for. */
  predicate Recordable(receipts: seq<Receipt>, reserved: Allocation, receipt: Receipt) {
    && Closed(receipts) && |receipts| < MAX_TRANSACTIONS
    && (forall i :: 0 <= i < |receipts| ==> receipts[i].tag != receipt.tag)
    && receipt.status == Prepared && 0 < receipt.fee <= MAX_FEE && 0 <= receipt.rent
    && receipt.actor in reserved && reserved[receipt.actor] + receipt.fee + receipt.rent <= Limit(receipt.actor)
  }

  lemma Prepare(receipts: seq<Receipt>, reserved: Allocation, sent: seq<nat>, receipt: Receipt)
    requires Sound(receipts, reserved, sent) && Recordable(receipts, reserved, receipt)
    ensures Sound(receipts + [receipt],
                  reserved[receipt.actor := reserved[receipt.actor] + receipt.fee + receipt.rent], sent)
    ensures sent == Signatures(receipts)
  {
  }

  lemma {:induction false} SpentIgnoresStatus(receipts: seq<Receipt>, actor: Actor, i: nat, status: Status)
    requires i < |receipts|
    ensures Spent(receipts[i := receipts[i].(status := status)], actor) == Spent(receipts, actor)
  {
    var n := |receipts| - 1;
    var changed := receipts[i := receipts[i].(status := status)];
    if i < n {
      SpentIgnoresStatus(receipts[..n], actor, i, status);
      assert changed[..n] == receipts[..n][i := receipts[i].(status := status)];
    } else {
      assert changed[..n] == receipts[..n];
    }
  }

  lemma Finalize(receipts: seq<Receipt>, reserved: Allocation, sent: seq<nat>)
    requires Sound(receipts, reserved, sent) && receipts != [] && sent == Signatures(receipts)
    ensures var n := |receipts| - 1;
            Sound(receipts[n := receipts[n].(status := Finalized)], reserved, sent)
  {
  }

  /** `after` is `before` with one more receipt. */
  predicate Extended(before: seq<Receipt>, after: seq<Receipt>, last: Receipt) {
    |after| == |before| + 1 && before <= after && after[|before|] == last
  }

  lemma ExtendedIs(before: seq<Receipt>, after: seq<Receipt>, last: Receipt, other: Receipt)
    requires Extended(before, after, last)
    ensures after == before + [last] && after[..|after| - 1] == before
    ensures Extended(before, after[|after| - 1 := other], other)
  {
  }

  lemma SoundPublishable(receipts: seq<Receipt>, reserved: Allocation, sent: seq<nat>)
    requires Sound(receipts, reserved, sent)
    ensures Publishable(receipts, reserved)
  {
  }

  predicate Distinct(s: seq<nat>) {
    forall i, j :: 0 <= i < j < |s| ==> s[i] != s[j]
  }

  /** Everything sent is a prefix of the receipts, in order, and all of them but perhaps the last. */
  lemma SentIsPrefix(receipts: seq<Receipt>, reserved: Allocation, sent: seq<nat>)
    requires Sound(receipts, reserved, sent)
    ensures |receipts| - 1 <= |sent| <= |receipts| && sent <= Signatures(receipts)
  {
  }

  /** One more broadcast keeps all signatures distinct exactly when its own was not sent before. */
  lemma DistinctNext(sent: seq<nat>, signature: nat)
    requires Distinct(sent)
    ensures Distinct(sent + [signature]) <==> signature !in sent
  {
    var longer := sent + [signature];
    if signature in sent {
      var i :| 0 <= i < |sent| && sent[i] == signature;
      assert longer[i] == longer[|sent|];
    }
  }

  /** s can be obtained from t by leaving elements out. */
  predicate Subsequence(s: seq<nat>, t: seq<nat>) {
    if s == [] then true
    else if t == [] then false
    else
      || (s[|s| - 1] == t[|t| - 1] && Subsequence(s[..|s| - 1], t[..|t| - 1]))
      || Subsequence(s, t[..|t| - 1])
  }

  lemma SubsequenceNext(s: seq<nat>, t: seq<nat>, i: nat)
    requires i < |t| && Subsequence(s, t[..i])
    ensures Subsequence(s, t[..i + 1]) && Subsequence(s + [t[i]], t[..i + 1])
  {
    assert t[..i + 1][..i] == t[..i] && (s + [t[i]])[..|s|] == s;
  }

  /** What was sent beyond `first` is a subsequence of the first n signatures. */
  predicate SentFrom(first: seq<nat>, sent: seq<nat>, signatures: seq<nat>, n: nat)
    requires n <= |signatures|
  {
    first <= sent && Subsequence(sent[|first|..], signatures[..n])
  }

  lemma SentNext(first: seq<nat>, before: seq<nat>, sent: seq<nat>, signatures: seq<nat>, i: nat)
    requires i < |signatures| && SentFrom(first, before, signatures, i)
    requires sent == before || sent == before + [signatures[i]]
    ensures SentFrom(first, sent, signatures, i + 1)
  {
    SubsequenceNext(before[|first|..], signatures, i);
    assert sent == before + [signatures[i]] ==> sent[|first|..] == before[|first|..] + [signatures[i]];
  }

  lemma {:induction false} SubsequenceHolds(s: seq<nat>, t: seq<nat>)
    requires Subsequence(s, t)
    ensures forall x :: x in s ==> x in t
    ensures Distinct(t) ==> Distinct(s)
  {
    if s != [] {
      var front := t[..|t| - 1];
      assert t == front + [t[|t| - 1]];
      if s[|s| - 1] == t[|t| - 1] && Subsequence(s[..|s| - 1], front) {
        SubsequenceHolds(s[..|s| - 1], front);
        assert s == s[..|s| - 1] + [s[|s| - 1]];
        if Distinct(t) {
          DistinctNext(front, t[|t| - 1]);
          DistinctNext(s[..|s| - 1], s[|s| - 1]);
        }
      } else {
        SubsequenceHolds(s, front);
      }
    }
  }

  /** Fresh and distinct signatures leave everything sent distinct, whichever of them were sent. */
  lemma FreshStaysDistinct(before: seq<nat>, extra: seq<nat>, requested: seq<nat>)
    requires Distinct(before) && Distinct(requested) && Subsequence(extra, requested)
    requires forall x :: x in requested ==> x !in before
    ensures Distinct(before + extra)
  {
    SubsequenceHolds(extra, requested);
    var all := before + extra;
    forall i, j | 0 <= i < j < |all| ensures all[i] != all[j] {
      if i < |before| <= j { assert extra[j - |before|] in requested && before[i] in before; }
    }
  }
}

module Submission {
  import opened Results
  import opened ReceiptLedger

  datatype Refusal =
    | WrongCluster | Exists | BadRequest | FeeAboveCap | BadRent | OverBudget | SimulationFailed | NotReady
    | NotPublishable | NoReply | WrongSignature | Failed | RegressingSlot | Ambiguous

  datatype Request = Request(tag: string, actor: Actor, signature: nat, rent: int, wellSigned: bool)

  /** A journal write: refused by its own checks, renamed or not, and answered or not. */
  datatype WriteReply = WriteReply(wellFormed: bool, renamed: bool, replied: bool)

  /** One status poll before the deadline. */
  datatype Poll = Lost | Errored | Waiting | FinalizedAt(slotKept: bool)

  /** Everything the outside world answers to one submission; `None` is a lost reply. */
  datatype Replies = Replies(
    devnet: Option<bool>, fee: Option<int>, balance: Option<int>, simulated: Option<bool>, ready: Option<bool>,
    written: WriteReply, returned: Option<nat>, polls: seq<Poll>, closed: WriteReply)

  /** The most an actor may ever spend: 0.16, 0.09 and 0.06 SOL. */
  function Ceiling(actor: Actor): int {
    match actor
    case Bootstrap => 160_000_000
    case Creator => 90_000_000
    case Investor => 60_000_000
  }

  /** What must remain on an account: 0.1 SOL for the bootstrap signer, 0.001 SOL for the actors. */
  function Floor(actor: Actor): int {
    if actor.Bootstrap? then 100_000_000 else 1_000_000
  }

  predicate Stored(reply: WriteReply) {
    reply.wellFormed && reply.renamed && reply.replied
  }

  /** From poll k on, the first poll that is not merely waiting decides. */
  function VerdictFrom(polls: seq<Poll>, k: nat): Outcome<Refusal>
    requires k <= |polls|
    decreases |polls| - k
  {
    if k == |polls| then Fail(Ambiguous)
    else
      match polls[k]
      case Lost => Fail(NoReply)
      case Errored => Fail(Failed)
      case Waiting => VerdictFrom(polls, k + 1)
      case FinalizedAt(slotKept) => if slotKept then Pass else Fail(RegressingSlot)
  }

  function Verdict(polls: seq<Poll>): Outcome<Refusal> {
    VerdictFrom(polls, 0)
  }

  /** The first poll that is not merely waiting. */
  predicate Decides(polls: seq<Poll>, poll: Poll) {
    exists n :: 0 <= n < |polls| && polls[n] == poll && AllWaiting(polls, 0, n)
  }

  predicate AllWaiting(polls: seq<Poll>, from: nat, to: nat)
    requires to <= |polls|
  {
    forall j :: from <= j < to ==> polls[j] == Waiting
  }

  /** Past polls that only wait, the verdict is that of the next one. */
  lemma {:induction false} VerdictAt(polls: seq<Poll>, k: nat, n: nat)
    requires k <= n <= |polls| && AllWaiting(polls, k, n)
    ensures VerdictFrom(polls, k) == VerdictFrom(polls, n)
    decreases n - k
  {
    if k < n { VerdictAt(polls, k + 1, n); }
  }

  lemma {:induction false} FirstDecision(polls: seq<Poll>, k: nat) returns (n: nat)
    requires k <= |polls|
    ensures k <= n <= |polls| && AllWaiting(polls, k, n) && (n < |polls| ==> polls[n] != Waiting)
    decreases |polls| - k
  {
    if k == |polls| || polls[k] != Waiting { n := k; } else { n := FirstDecision(polls, k + 1); }
  }

  /** What each deciding poll means; the receipt is final only by a finalized status that kept its slot. */
  lemma VerdictDecides(polls: seq<Poll>)
    ensures Verdict(polls) == Pass <==> Decides(polls, FinalizedAt(true))
    ensures Verdict(polls) == Fail(RegressingSlot) <==> Decides(polls, FinalizedAt(false))
    ensures Verdict(polls) == Fail(Failed) <==> Decides(polls, Errored)
    ensures Verdict(polls) == Fail(NoReply) <==> Decides(polls, Lost)
    ensures Verdict(polls) == Fail(Ambiguous) <==> AllWaiting(polls, 0, |polls|)
  {
    var n := FirstDecision(polls, 0);
    VerdictAt(polls, 0, n);
  }

  /** The signature's own finality was reported after a durable write and its one broadcast. */
  predicate Final(signature: nat, replies: Replies) {
    replies.returned == Some(signature) && Verdict(replies.polls).Pass?
  }

  /** The receipt as the submission leaves it. */
  function Left(receipt: Receipt, replies: Replies): Receipt {
    if Stored(replies.written) && Final(receipt.signature, replies) then receipt.(status := Finalized) else receipt
  }

  /** A receipt is left final exactly by a durable record, its own signature and a final status at a kept slot. */
  lemma LeftFinal(receipt: Receipt, replies: Replies)
    requires receipt.status == Prepared
    ensures Left(receipt, replies) == receipt || Left(receipt, replies) == receipt.(status := Finalized)
    ensures Left(receipt, replies).status == Finalized <==>
              && replies.written.wellFormed && replies.written.renamed && replies.written.replied
              && replies.returned == Some(receipt.signature) && Decides(replies.polls, FinalizedAt(true))
  {
    VerdictDecides(replies.polls);
  }

  function NewReceipt(request: Request, fee: int): Receipt {
    Receipt(request.tag, request.actor, request.signature, fee, request.rent, Prepared)
  }

  /** Receipt k was made for the request. */
  predicate Taken(receipts: seq<Receipt>, k: nat, request: Request) {
    && k < |receipts| && receipts[k].tag == request.tag && receipts[k].actor == request.actor
    && receipts[k].signature == request.signature
  }

  function RequestSignatures(requests: seq<(Request, Replies)>): (s: seq<nat>)
    ensures |s| == |requests| && forall i :: 0 <= i < |s| ==> s[i] == requests[i].0.signature
  {
    seq(|requests|, i requires 0 <= i < |requests| => requests[i].0.signature)
  }

  class LifecycleRun {
    var completed: bool
    var receipts: seq<Receipt>
    var reserved: Allocation
    var stored: Option<seq<Receipt>>
    var sent: seq<nat>

    ghost predicate Valid()
      reads this
    {
      && Sound(receipts, reserved, sent)
      && (sent != [] ==>
            && stored.Some? && |sent| <= |stored.value|
            && forall i :: 0 <= i < |sent| ==> stored.value[i].signature == sent[i])
    }

    constructor ()
      ensures Valid() && !completed && receipts == [] && sent == []
      ensures reserved == map[Bootstrap := 0, Creator := 0, Investor := 0]
    {
      completed, receipts, sent, stored := false, [], [], None;
      reserved := map[Bootstrap := 0, Creator := 0, Investor := 0];
    }

    /** Validates and atomically replaces the stored journal; a lost answer may hide a completed write. */
    method Write(reply: WriteReply) returns (r: Outcome<Refusal>)
      requires Valid()
      modifies this`stored
      ensures Valid()
      ensures stored == if reply.wellFormed && reply.renamed then Some(receipts) else old(stored)
      ensures r.Pass? <==> Stored(reply)
      ensures r.Pass? <==> reply.wellFormed && reply.renamed && reply.replied
      ensures r == Fail(NotPublishable) <==> !reply.wellFormed
    {
      SoundPublishable(receipts, reserved, sent);
      assert Publishable(receipts, reserved);
      if !reply.wellFormed { return Fail(NotPublishable); }
      if reply.renamed { stored := Some(receipts); }
      r := if reply.renamed && reply.replied then Pass else Fail(NoReply);
    }

    /** Broadcasts the last receipt's bytes, which must already be durable and not yet sent. */
    method Send()
      requires Valid() && Open(receipts) && stored == Some(receipts) && sent == Signatures(receipts[..|receipts| - 1])
      modifies this`sent
      ensures Valid() && sent == old(sent) + [receipts[|receipts| - 1].signature] == Signatures(receipts)
    {
      sent := sent + [receipts[|receipts| - 1].signature];
      assert sent == Signatures(receipts);
    }

    /** The budget rule: within the actor's ceiling, and the balance keeps its reserve. */
    predicate WithinBudget(actor: Actor, cost: int, balance: int)
      reads this
    {
      && cost >= 0 && balance >= 0
      && actor in reserved && reserved[actor] + cost <= Limit(actor) && balance >= cost + Reserve(actor)
    }

    predicate Refused(request: Request)
      reads this
    {
      || completed || |receipts| >= MAX_TRANSACTIONS
      || exists i :: 0 <= i < |receipts| && (receipts[i].tag == request.tag || receipts[i].status != Finalized)
    }

    /** The conditions under which a request reaches the journal. */
    predicate Admitted(request: Request, replies: Replies)
      reads this
    {
      && replies.devnet == Some(true) && !Refused(request) && request.wellSigned && request.rent >= 0
      && replies.fee.Some? && 0 < replies.fee.value <= MAX_FEE && replies.balance.Some?
      && WithinBudget(request.actor, replies.fee.value + request.rent, replies.balance.value)
      && replies.simulated == Some(true) && replies.ready == Some(true)
    }

    /** The condition behind each refusal. */
    predicate Fails(request: Request, replies: Replies, refusal: Refusal)
      reads this
    {
      match refusal
      case WrongCluster => replies.devnet != Some(true)
      case Exists =>
        || completed || |receipts| >= 24 || !Closed(receipts)
        || exists i :: 0 <= i < |receipts| && receipts[i].tag == request.tag
      case BadRequest => !request.wellSigned
      case FeeAboveCap => replies.fee.None? || !(0 < replies.fee.value <= 100_000)
      case BadRent => request.rent < 0
      case NoReply => replies.balance.None?
      case OverBudget =>
        && replies.fee.Some? && replies.balance.Some?
        && var cost := replies.fee.value + request.rent;
           || request.actor !in reserved || reserved[request.actor] + cost > Ceiling(request.actor)
           || replies.balance.value < cost + Floor(request.actor)
      case SimulationFailed => replies.simulated != Some(true)
      case NotReady => replies.ready != Some(true)
      case _ => false
    }

    /** A request reaches the journal exactly when no check fails. */
    lemma AdmittedIff(request: Request, replies: Replies)
      requires Valid()
      ensures Admitted(request, replies) <==> forall refusal :: !Fails(request, replies, refusal)
    {
      if forall refusal :: !Fails(request, replies, refusal) {
        assert !Fails(request, replies, WrongCluster) && !Fails(request, replies, Exists);
        assert !Fails(request, replies, BadRequest) && !Fails(request, replies, FeeAboveCap);
        assert !Fails(request, replies, BadRent) && !Fails(request, replies, NoReply);
        assert !Fails(request, replies, OverBudget) && !Fails(request, replies, SimulationFailed);
        assert !Fails(request, replies, NotReady);
      }
    }

    /** Every check made before the journal is touched. */
    method Admit(request: Request, replies: Replies) returns (r: Result<Receipt, Refusal>)
      ensures r.Ok? <==> Admitted(request, replies)
      ensures r.Ok? ==> r.value == NewReceipt(request, replies.fee.value)
      ensures r.Err? ==> Fails(request, replies, r.error)
    {
      if replies.devnet != Some(true) { return Err(WrongCluster); }
      if Refused(request) { return Err(Exists); }
      if !request.wellSigned { return Err(BadRequest); }
      if replies.fee.None? || replies.fee.value <= 0 || replies.fee.value > MAX_FEE { return Err(FeeAboveCap); }
      if request.rent < 0 { return Err(BadRent); }
      if replies.balance.None? { return Err(NoReply); }
      if !WithinBudget(request.actor, replies.fee.value + request.rent, replies.balance.value) {
        return Err(OverBudget);
      }
      if replies.simulated != Some(true) { return Err(SimulationFailed); }
      if replies.ready != Some(true) { return Err(NotReady); }  // the caller's own last check before sending
      return Ok(NewReceipt(request, replies.fee.value));
    }

    /** Polls for finality; neither an error nor a timeout is ever answered with another broadcast. */
    method Confirm(polls: seq<Poll>) returns (r: Outcome<Refusal>)
      ensures r == Verdict(polls)
      ensures r == Pass <==> Decides(polls, FinalizedAt(true))
      ensures r == Fail(RegressingSlot) <==> Decides(polls, FinalizedAt(false))
      ensures r == Fail(Failed) <==> Decides(polls, Errored)
      ensures r == Fail(NoReply) <==> Decides(polls, Lost)
      ensures r == Fail(Ambiguous) <==> AllWaiting(polls, 0, |polls|)
    {
      VerdictDecides(polls);
      for k := 0 to |polls|
        invariant Verdict(polls) == VerdictFrom(polls, k)
      {
        match polls[k]
        case Lost => return Fail(NoReply);
        case Errored => return Fail(Failed);
        case Waiting =>
        case FinalizedAt(slotKept) => return if slotKept then Pass else Fail(RegressingSlot);
      }
      return Fail(Ambiguous);
    }

    /** Charges the actor, appends the open receipt and makes the journal durable. */
    method Record(receipt: Receipt, reply: WriteReply) returns (r: Outcome<Refusal>)
      requires Valid() && Recordable(receipts, reserved, receipt)
      modifies this`receipts, this`reserved, this`stored
      ensures Valid() && Extended(old(receipts), receipts, receipt) && sent == Signatures(old(receipts))
      ensures reserved == old(reserved)[receipt.actor := old(reserved)[receipt.actor] + receipt.fee + receipt.rent]
      ensures r.Pass? <==> Stored(reply)
      ensures r.Pass? ==> stored == Some(receipts)
    {
      Append(receipt);
      r := Write(reply);
    }

    /** The receipt and its cost enter the ledger in memory. */
    method Append(receipt: Receipt)
      requires Valid() && Recordable(receipts, reserved, receipt)
      modifies this`receipts, this`reserved
      ensures Valid() && Extended(old(receipts), receipts, receipt) && sent == Signatures(old(receipts))
      ensures reserved == old(reserved)[receipt.actor := old(reserved)[receipt.actor] + receipt.fee + receipt.rent]
    {
      Prepare(receipts, reserved, sent, receipt);
      reserved := reserved[receipt.actor := reserved[receipt.actor] + receipt.fee + receipt.rent];
      receipts := receipts + [receipt];
    }

    /** The only broadcast of the recorded receipt, closed exactly when its own signature was reported finalized. */
    method Deliver(replies: Replies, ghost before: seq<Receipt>, receipt: Receipt) returns (r: Result<Receipt, Refusal>)
      requires Valid() && Extended(before, receipts, receipt) && receipt.status == Prepared
      requires stored == Some(receipts) && sent == Signatures(before)
      modifies this`receipts, this`stored, this`sent
      ensures Valid() && sent == old(sent) + [receipt.signature]
      ensures Extended(before, receipts,
                       if Final(receipt.signature, replies) then receipt.(status := Finalized) else receipt)
      ensures r.Ok? <==> Final(receipt.signature, replies) && Stored(replies.closed)
      ensures receipts[|receipts| - 1].status == Finalized <==>
                replies.returned == Some(receipt.signature) && Decides(replies.polls, FinalizedAt(true))
      ensures r.Ok? ==> Closed(receipts) && stored == Some(receipts) && r.value == receipts[|receipts| - 1]
    {
      ExtendedIs(before, receipts, receipt, receipt.(status := Finalized));
      Send();
      if replies.returned != Some(receipt.signature) { return Err(WrongSignature); }
      var confirmed := Confirm(replies.polls);
      if confirmed.Fail? { return Err(confirmed.error); }
      Close();
      var written := Write(replies.closed);
      if written.Fail? { return Err(written.error); }
      return Ok(receipts[|receipts| - 1]);
    }

    method Close()
      requires Valid() && Open(receipts) && sent == Signatures(receipts)
      modifies this`receipts
      ensures Valid() && Closed(receipts)
      ensures var n := |old(receipts)| - 1; receipts == old(receipts)[n := old(receipts)[n].(status := Finalized)]
    {
      var n := |receipts| - 1;
      Finalize(receipts, reserved, sent);
      receipts := receipts[n := receipts[n].(status := Finalized)];
      assert Signatures(receipts) == sent;
    }

    /** The durable write, then exactly one broadcast. */
    method RecordAndDeliver(receipt: Receipt, replies: Replies) returns (r: Result<Receipt, Refusal>)
      requires Valid() && Recordable(receipts, reserved, receipt)
      modifies this`receipts, this`reserved, this`stored, this`sent
      ensures Valid()
      ensures sent == if Stored(replies.written) then old(sent) + [receipt.signature] else old(sent)
      ensures reserved == old(reserved)[receipt.actor := old(reserved)[receipt.actor] + receipt.fee + receipt.rent]
      ensures Extended(old(receipts), receipts, Left(receipt, replies))
      ensures r.Ok? <==> Stored(replies.written) && Final(receipt.signature, replies) && Stored(replies.closed)
      ensures r.Ok? ==> Closed(receipts) && stored == Some(receipts)
    {
      ghost var before := receipts;
      var recorded := Record(receipt, replies.written);
      if recorded.Fail? {
        r := Err(recorded.error);
      } else {
        r := Deliver(replies, before, receipt);
      }
    }

    /**
     * One submission. A refusal before the journal write changes nothing; after it the new receipt stays
     * open, and blocks every later submission, unless its own signature was reported finalized. At most one
     * broadcast happens, of the journalled bytes, and it repeats a signature exactly when the request does.
     */
    method SubmitOnce(request: Request, replies: Replies) returns (r: Result<Receipt, Refusal>)
      requires Valid()
      modifies this`receipts, this`reserved, this`stored, this`sent
      ensures Valid()
      ensures !old(Admitted(request, replies)) ==>
                && r.Err? && receipts == old(receipts) && reserved == old(reserved)
                && sent == old(sent) && stored == old(stored)
      ensures old(Admitted(request, replies)) ==>
                && Extended(old(receipts), receipts, Left(NewReceipt(request, replies.fee.value), replies))
                && reserved
                   == old(reserved)[request.actor := old(reserved)[request.actor] + replies.fee.value + request.rent]
                && sent == (if Stored(replies.written) then old(sent) + [request.signature] else old(sent))
                && (r.Ok? <==> Stored(replies.written) && Final(request.signature, replies) && Stored(replies.closed))
      ensures r.Ok? ==> Closed(receipts) && stored == Some(receipts)
      ensures sent != old(sent) && Distinct(old(sent)) ==> (Distinct(sent) <==> request.signature !in old(sent))
    {
      var admitted := Admit(request, replies);
      if admitted.Err? { return admitted; }
      r := RecordAndDeliver(admitted.value, replies);
      if Distinct(old(sent)) { DistinctNext(old(sent), request.signature); }
    }

    /**
     * Any list of submissions with any replies. What was sent are signatures of the requests, in order and
     * each at most once; the first submission left open is the last one ever sent. Distinct new signatures
     * are therefore never sent twice.
     */
    method SubmitAll(requests: seq<(Request, Replies)>)
      requires Valid()
      modifies this`receipts, this`reserved, this`stored, this`sent
      ensures Valid() && |sent| <= |receipts| <= |old(receipts)| + |requests|
      ensures |old(receipts)| <= |receipts| && (Open(old(receipts)) ==> receipts == old(receipts) && sent == old(sent))
      ensures requests != [] && old(Admitted(requests[0].0, requests[0].1)) ==>
                Taken(receipts, |old(receipts)|, requests[0].0)
      ensures old(sent) <= sent && Subsequence(sent[|old(sent)|..], RequestSignatures(requests))
      ensures var signatures := RequestSignatures(requests);
              Distinct(old(sent)) && Distinct(signatures) && (forall x :: x in signatures ==> x !in old(sent)) ==>
                Distinct(sent)
    {
      ghost var signatures := RequestSignatures(requests);
      SubmitEach(requests);
      assert signatures[..|requests|] == signatures;
      assert sent == old(sent) + sent[|old(sent)|..];
      SentIsPrefix(receipts, reserved, sent);
      if Distinct(old(sent)) && Distinct(signatures) && (forall x :: x in signatures ==> x !in old(sent)) {
        FreshStaysDistinct(old(sent), sent[|old(sent)|..], signatures);
      }
    }

    method SubmitEach(requests: seq<(Request, Replies)>)
      requires Valid()
      modifies this`receipts, this`reserved, this`stored, this`sent
      ensures Valid() && |old(receipts)| <= |receipts| <= |old(receipts)| + |requests|
      ensures Open(old(receipts)) ==> receipts == old(receipts) && sent == old(sent)
      ensures requests != [] && old(Admitted(requests[0].0, requests[0].1)) ==>
                Taken(receipts, |old(receipts)|, requests[0].0)
      ensures SentFrom(old(sent), sent, RequestSignatures(requests), |requests|)
    {
      ghost var signatures := RequestSignatures(requests);
      ghost var admitted := requests != [] && Admitted(requests[0].0, requests[0].1);
      for i := 0 to |requests|
        invariant Valid() && |old(receipts)| <= |receipts| <= |old(receipts)| + i
        invariant Open(old(receipts)) ==> receipts == old(receipts) && sent == old(sent)
        invariant i == 0 && admitted ==> Admitted(requests[0].0, requests[0].1) && |receipts| == |old(receipts)|
        invariant i > 0 && admitted ==> Taken(receipts, |old(receipts)|, requests[0].0)
        invariant SentFrom(old(sent), sent, signatures, i)
      {
        ghost var before := sent;
        SubmitNext(requests[i].0, requests[i].1, |old(receipts)|, requests[0].0);
        SentNext(old(sent), before, sent, signatures, i);
      }
    }

    /** A submission whose outcome the caller ignores. */
    method SubmitNext(request: Request, replies: Replies, ghost k: nat, ghost first: Request)
      requires Valid()
      modifies this`receipts, this`reserved, this`stored, this`sent
      ensures Valid() && |old(receipts)| <= |receipts| <= |old(receipts)| + 1
      ensures Open(old(receipts)) ==> receipts == old(receipts) && sent == old(sent)
      ensures sent == old(sent) || sent == old(sent) + [request.signature]
      ensures Taken(old(receipts), k, first) ==> Taken(receipts, k, first)
      ensures old(Admitted(request, replies)) ==> Taken(receipts, |old(receipts)|, request)
    {
      var outcome := SubmitOnce(request, replies);
    }
  }

  const STORED := WriteReply(true, true, true)
  const CLEAN := Replies(Some(true), Some(5_000), Some(10_000_000), Some(true), Some(true), STORED, Some(7),
                         [FinalizedAt(true)], STORED)

  lemma CleanIsFinal()
    ensures Stored(STORED) && Final(7, CLEAN)
  {
  }

  method SubmitClean(run: LifecycleRun, tag: string)
    requires run.Valid() && !run.completed && Closed(run.receipts) && |run.receipts| < 2
    requires forall i :: 0 <= i < |run.receipts| ==> run.receipts[i].tag != tag
    requires Creator in run.reserved && run.reserved[Creator] <= 10_000
    modifies run`receipts, run`reserved, run`stored, run`sent
    ensures run.Valid() && Extended(old(run.receipts), run.receipts, Receipt(tag, Creator, 7, 5_000, 0, Finalized))
    ensures run.sent == old(run.sent) + [7]
    ensures Creator in run.reserved && run.reserved[Creator] == old(run.reserved[Creator]) + 5_000
  {
    CleanIsFinal();
    var request := Request(tag, Creator, 7, 0, true);
    assert run.Admitted(request, CLEAN);
    var outcome := run.SubmitOnce(request, CLEAN);
  }

  /** Labels, not signatures, are checked: one signed transaction submitted under two labels is broadcast twice. */
  method SameTransactionTwice() returns (run: LifecycleRun)
    ensures run.Valid() && Closed(run.receipts) && run.sent == [7, 7]
  {
    run := new LifecycleRun();
    SubmitClean(run, "a");
    assert "a"[0] != "b"[0];
    SubmitClean(run, "b");
  }
}
