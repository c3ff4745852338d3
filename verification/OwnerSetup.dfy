/** The owner's setup client: what it plans, how it packs transactions, and the chain steps it drives. */
module OwnerSetup {
  import opened Results

  const TOKENS := 4

  datatype Key = Owner | Bootstrap | Stranger

  datatype Config = Config(authority: Key, pending: Option<Key>, count: int)
  datatype Factory = Factory(authority: Key, policyTreasury: bool)

  /** The finalized accounts one inspection reads; `admissions[i]` tells whether test token i is admitted. */
  datatype Accounts = Accounts(loaders: seq<Key>, whitelist: Option<Config>, factory: Option<Factory>,
                               admissions: seq<bool>)
  {
    predicate Shape() {
      |loaders| == 3 && |admissions| == TOKENS
    }
  }

  datatype Step = InitWhitelist | ClaimWhitelist | InitFactory | Admit(token: nat)
  datatype Whitelist = Absent | Owned | ClaimReady | WaitingProposal

  datatype State = State(owned: bool, whitelist: Whitelist, factory: bool, admitted: seq<nat>, steps: seq<Step>)

  datatype Problem = UnknownLoader | LoadersDisagree | WhitelistOwnership | FactoryDiffers | CountDiffers

  // ---- the specification of an inspection ----

  function Classify(config: Option<Config>): Result<Whitelist, Problem> {
    match config
    case None => Ok(Absent)
    case Some(Config(Owner, None, _)) => Ok(Owned)
    case Some(Config(Bootstrap, Some(Owner), _)) => Ok(ClaimReady)
    case Some(Config(Bootstrap, None, _)) => Ok(WaitingProposal)
    case Some(_) => Err(WhitelistOwnership)
  }

  function AdmittedFrom(admissions: seq<bool>, i: nat): seq<nat>
    requires i <= |admissions|
    decreases |admissions| - i
  {
    if i == |admissions| then []
    else (if admissions[i] then [i] else []) + AdmittedFrom(admissions, i + 1)
  }

  function MissingFrom(admissions: seq<bool>, i: nat): seq<Step>
    requires i <= |admissions|
    decreases |admissions| - i
  {
    if i == |admissions| then []
    else (if admissions[i] then [] else [Admit(i)]) + MissingFrom(admissions, i + 1)
  }

  function Authorities(whitelist: Whitelist, factory: bool): seq<Step> {
    (if whitelist == Absent then [InitWhitelist] else if whitelist == ClaimReady then [ClaimWhitelist] else [])
    + (if factory then [] else [InitFactory])
  }

  function Plan(owned: bool, whitelist: Whitelist, factory: bool, admissions: seq<bool>): seq<Step> {
    if !owned || whitelist == WaitingProposal then []
    else
      Authorities(whitelist, factory) + MissingFrom(admissions, 0)
  }

  function Inspected(a: Accounts): Result<State, Problem>
    requires a.Shape()
  {
    if Stranger in a.loaders then Err(UnknownLoader)
    else if !(a.loaders[0] == a.loaders[1] == a.loaders[2]) then Err(LoadersDisagree)
    else
      var whitelist :- Classify(a.whitelist);
      if a.factory.Some? && a.factory.value != Factory(Owner, true) then Err(FactoryDiffers)
      else
        var admitted := AdmittedFrom(a.admissions, 0);
        var count := if a.whitelist.Some? then a.whitelist.value.count else 0;
        if count != |admitted| || (whitelist == Absent && admitted != []) then Err(CountDiffers)
        else
          var owned := a.loaders[0] == Owner;
          Ok(State(owned, whitelist, a.factory.Some?, admitted, Plan(owned, whitelist, a.factory.Some?, a.admissions)))
  }

  // ---- what an inspection says of the accounts ----

  function AdmittedCount(a: Accounts): int
    requires a.Shape()
  {
    (if a.admissions[0] then 1 else 0) + (if a.admissions[1] then 1 else 0)
    + (if a.admissions[2] then 1 else 0) + (if a.admissions[3] then 1 else 0)
  }

  /** The first problem met, in the order of the checks; no problem is left out. */
  predicate HasProblem(a: Accounts, problem: Problem)
    requires a.Shape()
  {
    var foreign := exists i :: 0 <= i < 3 && a.loaders[i] == Stranger;
    var split := a.loaders[0] != a.loaders[1] || a.loaders[1] != a.loaders[2];
    var lost := a.whitelist.Some? && !(match a.whitelist.value.authority
                                       case Owner => a.whitelist.value.pending.None?
                                       case Bootstrap => a.whitelist.value.pending in {None, Some(Owner)}
                                       case Stranger => false);
    var other := a.factory.Some? && (a.factory.value.authority != Owner || !a.factory.value.policyTreasury);
    match problem
    case UnknownLoader => foreign
    case LoadersDisagree => !foreign && split
    case WhitelistOwnership => !foreign && !split && lost
    case FactoryDiffers => !foreign && !split && !lost && other
    case CountDiffers =>
      && !foreign && !split && !lost && !other
      && AdmittedCount(a) != (if a.whitelist.Some? then a.whitelist.value.count else 0)
  }

  function Rank(step: Step): nat {
    match step
    case InitWhitelist => 0
    case ClaimWhitelist => 0
    case InitFactory => 1
    case Admit(i) => 2 + i
  }

  predicate InOrder(steps: seq<Step>) {
    forall i, j :: 0 <= i < j < |steps| ==> Rank(steps[i]) < Rank(steps[j])
  }

  /** The owner acts on the whitelist, which is not waiting for a proposal. */
  predicate Acts(a: Accounts)
    requires a.Shape()
  {
    && a.loaders[0] == Owner
    && (a.whitelist.Some? ==> a.whitelist.value.authority == Owner || a.whitelist.value.pending.Some?)
  }

  predicate Due(step: Step, a: Accounts)
    requires a.Shape()
  {
    Acts(a) &&
    match step
    case InitWhitelist => a.whitelist.None?
    case ClaimWhitelist => a.whitelist.Some? && a.whitelist.value.authority == Bootstrap
    case InitFactory => a.factory.None?
    case Admit(i) => i < TOKENS && !a.admissions[i]
  }

  /** Each step is planned exactly when it is due, in order: the whitelist, the factory, the tokens. */
  ghost predicate Plans(a: Accounts, steps: seq<Step>)
    requires a.Shape()
  {
    InOrder(steps) && forall s :: s in steps <==> Due(s, a)
  }

  /** The state names what was read and plans what is missing. */
  ghost predicate Describes(a: Accounts, state: State)
    requires a.Shape()
  {
    && (state.owned <==> a.loaders[0] == Owner) && (state.factory <==> a.factory.Some?)
    && (state.whitelist == Absent <==> a.whitelist.None?)
    && (state.whitelist == Owned <==> a.whitelist.Some? && a.whitelist.value.authority == Owner)
    && (state.whitelist == ClaimReady <==>
        a.whitelist.Some? && a.whitelist.value.authority == Bootstrap && a.whitelist.value.pending == Some(Owner))
    && (forall i :: i in state.admitted <==> 0 <= i < TOKENS && a.admissions[i])
    && (forall i :: 0 < i < |state.admitted| ==> state.admitted[i - 1] < state.admitted[i])
    && Plans(a, state.steps)
  }

  lemma {:induction false} AdmittedHas(admissions: seq<bool>, i: nat, j: nat) returns (k: nat)
    requires i <= j < |admissions| && admissions[j]
    ensures k < |AdmittedFrom(admissions, i)| && AdmittedFrom(admissions, i)[k] == j
    decreases |admissions| - i
  {
    if i == j {
      k := 0;
    } else {
      k := AdmittedHas(admissions, i + 1, j);
      if admissions[i] { k := k + 1; }
    }
  }

  lemma {:induction false} AdmittedOnly(admissions: seq<bool>, i: nat, k: nat)
    requires i <= |admissions| && k < |AdmittedFrom(admissions, i)|
    ensures i <= AdmittedFrom(admissions, i)[k] < |admissions| && admissions[AdmittedFrom(admissions, i)[k]]
    ensures k > 0 ==> AdmittedFrom(admissions, i)[k - 1] < AdmittedFrom(admissions, i)[k]
    decreases |admissions| - i
  {
    if i < |admissions| && !admissions[i] {
      AdmittedOnly(admissions, i + 1, k);
    } else if i < |admissions| && k > 0 {
      AdmittedOnly(admissions, i + 1, k - 1);
    }
  }

  lemma AdmittedAre(admissions: seq<bool>)
    ensures forall j :: j in AdmittedFrom(admissions, 0) <==> 0 <= j < |admissions| && admissions[j]
    ensures forall k :: 0 < k < |AdmittedFrom(admissions, 0)| ==>
              AdmittedFrom(admissions, 0)[k - 1] < AdmittedFrom(admissions, 0)[k]
  {
    var admitted := AdmittedFrom(admissions, 0);
    forall j | 0 <= j < |admissions| && admissions[j] ensures j in admitted {
      var k := AdmittedHas(admissions, 0, j);
    }
    forall k | 0 <= k < |admitted|
      ensures 0 <= admitted[k] < |admissions| && admissions[admitted[k]]
      ensures k > 0 ==> admitted[k - 1] < admitted[k]
    {
      AdmittedOnly(admissions, 0, k);
    }
  }

  lemma InOrderConcat(first: seq<Step>, next: seq<Step>)
    requires InOrder(first) && InOrder(next)
    requires forall s, n :: s in first && n in next ==> Rank(s) < Rank(n)
    ensures InOrder(first + next)
  {
    var all := first + next;
    forall i, j | 0 <= i < j < |all| ensures Rank(all[i]) < Rank(all[j]) {
      if i < |first| <= j { assert all[i] in first && all[j] in next; }
    }
  }

  lemma {:induction false} MissingHas(admissions: seq<bool>, i: nat, j: nat) returns (k: nat)
    requires i <= j < |admissions| && !admissions[j]
    ensures k < |MissingFrom(admissions, i)| && MissingFrom(admissions, i)[k] == Admit(j)
    decreases |admissions| - i
  {
    if i == j {
      k := 0;
    } else {
      k := MissingHas(admissions, i + 1, j);
      if !admissions[i] { k := k + 1; }
    }
  }

  lemma {:induction false} MissingOnly(admissions: seq<bool>, i: nat, k: nat)
    requires i <= |admissions| && k < |MissingFrom(admissions, i)|
    ensures var s := MissingFrom(admissions, i)[k];
            s.Admit? && i <= s.token < |admissions| && !admissions[s.token]
    decreases |admissions| - i
  {
    if i < |admissions| && admissions[i] {
      MissingOnly(admissions, i + 1, k);
    } else if i < |admissions| && k > 0 {
      MissingOnly(admissions, i + 1, k - 1);
    }
  }

  lemma MissingAre(admissions: seq<bool>, s: Step)
    ensures s in MissingFrom(admissions, 0) <==> s.Admit? && s.token < |admissions| && !admissions[s.token]
  {
    if s.Admit? && s.token < |admissions| && !admissions[s.token] {
      var k := MissingHas(admissions, 0, s.token);
    }
    if s in MissingFrom(admissions, 0) {
      var k :| 0 <= k < |MissingFrom(admissions, 0)| && MissingFrom(admissions, 0)[k] == s;
      MissingOnly(admissions, 0, k);
    }
  }

  lemma {:induction false} MissingInOrder(admissions: seq<bool>, i: nat)
    requires i <= |admissions|
    ensures InOrder(MissingFrom(admissions, i))
    decreases |admissions| - i
  {
    if i < |admissions| {
      MissingInOrder(admissions, i + 1);
      var rest := MissingFrom(admissions, i + 1);
      forall k | 0 <= k < |rest| ensures Rank(rest[k]) > Rank(Admit(i)) {
        MissingOnly(admissions, i + 1, k);
      }
      InOrderConcat([Admit(i)], rest);
    }
  }

  lemma AdmittedCounts(a: Accounts)
    requires a.Shape()
    ensures |AdmittedFrom(a.admissions, 0)| == AdmittedCount(a)
  {
    assert AdmittedFrom(a.admissions, 4) == [];
    assert |AdmittedFrom(a.admissions, 3)| == if a.admissions[3] then 1 else 0;
    assert |AdmittedFrom(a.admissions, 2)|
        == (if a.admissions[2] then 1 else 0) + |AdmittedFrom(a.admissions, 3)|;
    assert |AdmittedFrom(a.admissions, 1)|
        == (if a.admissions[1] then 1 else 0) + |AdmittedFrom(a.admissions, 2)|;
  }

  lemma AuthoritiesAre(whitelist: Whitelist, factory: bool)
    ensures InOrder(Authorities(whitelist, factory))
    ensures forall s :: s in Authorities(whitelist, factory) <==>
              match s
              case InitWhitelist => whitelist == Absent
              case ClaimWhitelist => whitelist == ClaimReady
              case InitFactory => !factory
              case Admit(_) => false
  {
  }

  lemma DueIs(a: Accounts, whitelist: Whitelist, s: Step)
    requires a.Shape() && Classify(a.whitelist) == Ok(whitelist) && Acts(a)
    ensures Due(s, a) <==> s in Authorities(whitelist, a.factory.Some?) || s in MissingFrom(a.admissions, 0)
  {
    AuthoritiesAre(whitelist, a.factory.Some?);
    MissingAre(a.admissions, s);
  }

  lemma PlanInOrder(whitelist: Whitelist, factory: bool, admissions: seq<bool>)
    ensures InOrder(Authorities(whitelist, factory) + MissingFrom(admissions, 0))
  {
    AuthoritiesAre(whitelist, factory);
    MissingInOrder(admissions, 0);
    var tokens := MissingFrom(admissions, 0);
    forall s | s in tokens ensures Rank(s) >= 2 {
      MissingAre(admissions, s);
    }
    InOrderConcat(Authorities(whitelist, factory), tokens);
  }

  lemma PlanPlans(a: Accounts, whitelist: Whitelist)
    requires a.Shape() && Classify(a.whitelist) == Ok(whitelist)
    ensures Plans(a, Plan(a.loaders[0] == Owner, whitelist, a.factory.Some?, a.admissions))
  {
    var steps := Plan(a.loaders[0] == Owner, whitelist, a.factory.Some?, a.admissions);
    forall s ensures s in steps <==> Due(s, a) {
      if Acts(a) { DueIs(a, whitelist, s); }
    }
    PlanInOrder(whitelist, a.factory.Some?, a.admissions);
  }

  lemma NoProblem(a: Accounts)
    requires a.Shape()
    ensures Inspected(a).Ok? ==> forall problem :: !HasProblem(a, problem)
    ensures Inspected(a).Err? ==> HasProblem(a, Inspected(a).error)
  {
    AdmittedCounts(a);
    assert Stranger in a.loaders <==> exists i :: 0 <= i < 3 && a.loaders[i] == Stranger;
  }

  lemma Description(a: Accounts)
    requires a.Shape() && Inspected(a).Ok?
    ensures Describes(a, Inspected(a).value)
  {
    AdmittedAre(a.admissions);
    PlanPlans(a, Classify(a.whitelist).value);
  }

  /** An inspection fails exactly for the first problem the accounts have, and describes them otherwise. */
  lemma InspectionIs(a: Accounts)
    requires a.Shape()
    ensures match Inspected(a)
            case Ok(state) => Describes(a, state) && forall problem :: !HasProblem(a, problem)
            case Err(problem) => HasProblem(a, problem) && forall p :: HasProblem(a, p) ==> p == problem
  {
    NoProblem(a);
    if Inspected(a).Ok? { Description(a); }
  }

  /** The inspection's loops compute the specified state and step list. */
  method Inspect(a: Accounts) returns (r: Result<State, Problem>)
    requires a.Shape()
    ensures r == Inspected(a)
    ensures match r
            case Ok(state) => Describes(a, state) && forall problem :: !HasProblem(a, problem)
            case Err(problem) => HasProblem(a, problem)
  {
    InspectionIs(a);
    if Stranger in a.loaders { return Err(UnknownLoader); }
    if a.loaders[1] != a.loaders[0] || a.loaders[2] != a.loaders[0] { return Err(LoadersDisagree); }
    var whitelist, count := Absent, 0;
    if a.whitelist.Some? {
      var config := a.whitelist.value;
      count := config.count;
      if config.authority == Owner && config.pending == None { whitelist := Owned; }
      else if config.authority == Bootstrap && config.pending == Some(Owner) { whitelist := ClaimReady; }
      else if config.authority == Bootstrap && config.pending == None { whitelist := WaitingProposal; }
      else { return Err(WhitelistOwnership); }
    }
    if a.factory.Some? && a.factory.value != Factory(Owner, true) { return Err(FactoryDiffers); }
    var admitted := ListAdmitted(a.admissions);
    if count != |admitted| || (whitelist == Absent && admitted != []) { return Err(CountDiffers); }
    var steps := ListSteps(a.loaders[0] == Owner, whitelist, a.factory.Some?, a.admissions);
    return Ok(State(a.loaders[0] == Owner, whitelist, a.factory.Some?, admitted, steps));
  }

  method ListAdmitted(admissions: seq<bool>) returns (admitted: seq<nat>)
    ensures admitted == AdmittedFrom(admissions, 0)
  {
    admitted := [];
    for i := 0 to |admissions|
      invariant admitted + AdmittedFrom(admissions, i) == AdmittedFrom(admissions, 0)
    {
      if admissions[i] { admitted := admitted + [i]; }
    }
  }

  method ListSteps(owned: bool, whitelist: Whitelist, factory: bool, admissions: seq<bool>) returns (steps: seq<Step>)
    ensures steps == Plan(owned, whitelist, factory, admissions)
  {
    steps := [];
    if owned {
      if whitelist == Absent { steps := steps + [InitWhitelist]; }
      if whitelist == ClaimReady { steps := steps + [ClaimWhitelist]; }
      if whitelist != WaitingProposal {
        if !factory { steps := steps + [InitFactory]; }
        assert steps == Authorities(whitelist, factory);
        steps := AddMissing(steps, admissions);
      }
    }
  }

  /** The loop over the test tokens. */
  method AddMissing(head: seq<Step>, admissions: seq<bool>) returns (steps: seq<Step>)
    ensures steps == head + MissingFrom(admissions, 0)
  {
    steps := head;
    for i := 0 to |admissions|
      invariant steps + MissingFrom(admissions, i) == head + MissingFrom(admissions, 0)
    {
      if !admissions[i] { steps := steps + [Admit(i)]; }
    }
  }

  // ---- what the programs do with each step ----

  /** The conditions under which the on-chain programs accept a step signed by the owner. */
  predicate Ready(step: Step, a: Accounts)
    requires a.Shape()
  {
    match step
    case InitWhitelist => a.whitelist.None? && a.loaders[0] == Owner
    case ClaimWhitelist => a.whitelist.Some? && a.whitelist.value.pending == Some(Owner)
    case InitFactory => a.factory.None? && a.loaders[1] == Owner
    case Admit(i) => i < TOKENS && !a.admissions[i] && a.whitelist.Some? && a.whitelist.value.authority == Owner
  }

  function Apply(step: Step, a: Accounts): (b: Accounts)
    requires a.Shape() && Ready(step, a)
    ensures b.Shape()
  {
    match step
    case InitWhitelist => a.(whitelist := Some(Config(Owner, None, 0)))
    case ClaimWhitelist => a.(whitelist := Some(Config(Owner, None, a.whitelist.value.count)))
    case InitFactory => a.(factory := Some(Factory(Owner, true)))
    case Admit(i) => a.(whitelist := Some(a.whitelist.value.(count := a.whitelist.value.count + 1)),
                        admissions := a.admissions[i := true])
  }

  predicate Runnable(steps: seq<Step>, a: Accounts)
    requires a.Shape()
  {
    steps != [] ==> Ready(steps[0], a) && Runnable(steps[1..], Apply(steps[0], a))
  }

  function ApplyAll(steps: seq<Step>, a: Accounts): (b: Accounts)
    requires a.Shape() && Runnable(steps, a)
    ensures b.Shape()
  {
    if steps == [] then a else ApplyAll(steps[1..], Apply(steps[0], a))
  }

  /** Admitting the first missing token removes exactly the head of the missing list. */
  lemma {:induction false} AdmitFirst(admissions: seq<bool>, i: nat)
    requires i <= |admissions| && MissingFrom(admissions, i) != []
    ensures var head := MissingFrom(admissions, i)[0];
            && head.Admit? && i <= head.token < |admissions| && !admissions[head.token]
            && MissingFrom(admissions[head.token := true], i) == MissingFrom(admissions, i)[1..]
            && |AdmittedFrom(admissions[head.token := true], i)| == |AdmittedFrom(admissions, i)| + 1
    decreases |admissions| - i
  {
    if admissions[i] {
      AdmitFirst(admissions, i + 1);
    } else {
      SuffixOnly(admissions, admissions[i := true], i + 1);
      assert MissingFrom(admissions, i) == [Admit(i)] + MissingFrom(admissions, i + 1);
    }
  }

  lemma {:induction false} SuffixOnly(admissions: seq<bool>, others: seq<bool>, i: nat)
    requires i <= |admissions| == |others| && forall j :: i <= j < |admissions| ==> admissions[j] == others[j]
    ensures MissingFrom(others, i) == MissingFrom(admissions, i)
    ensures AdmittedFrom(others, i) == AdmittedFrom(admissions, i)
    decreases |admissions| - i
  {
    if i < |admissions| { SuffixOnly(admissions, others, i + 1); }
  }

  /** With the whitelist owned and the factory present, the first planned step admits the first missing token. */
  lemma AdmitStep(a: Accounts)
    requires a.Shape() && Inspected(a).Ok? && Inspected(a).value.steps != []
    requires Inspected(a).value.whitelist == Owned && Inspected(a).value.factory
    ensures StepLeavesRest(a)
  {
    assert Inspected(a).value.steps == MissingFrom(a.admissions, 0);
    AdmitFirst(a.admissions, 0);
  }

  /** Otherwise it initializes or claims an authority and leaves the admissions alone. */
  lemma AuthorityStep(a: Accounts)
    requires a.Shape() && Inspected(a).Ok? && Inspected(a).value.steps != []
    requires Inspected(a).value.whitelist != Owned || !Inspected(a).value.factory
    ensures StepLeavesRest(a)
  {
  }

  predicate StepLeavesRest(a: Accounts)
    requires a.Shape() && Inspected(a).Ok? && Inspected(a).value.steps != []
  {
    var state := Inspected(a).value;
    && Ready(state.steps[0], a)
    && var after := Inspected(Apply(state.steps[0], a));
       && after.Ok? && after.value.steps == state.steps[1..]
       && after.value.owned == state.owned && after.value.whitelist == Owned
  }

  /** The first planned step is accepted by the programs and leaves exactly the rest of the plan. */
  lemma PlannedStep(a: Accounts)
    requires a.Shape() && Inspected(a).Ok? && Inspected(a).value.steps != []
    ensures StepLeavesRest(a)
  {
    if Inspected(a).value.whitelist == Owned && Inspected(a).value.factory { AdmitStep(a); } else { AuthorityStep(a); }
  }

  /** After any prefix of the plan the client plans exactly the remaining suffix. */
  lemma {:induction false} PrefixLeavesSuffix(a: Accounts, k: nat)
    requires a.Shape() && Inspected(a).Ok? && k <= |Inspected(a).value.steps|
    ensures var steps := Inspected(a).value.steps;
            && Runnable(steps[..k], a)
            && Inspected(ApplyAll(steps[..k], a)).Ok?
            && Inspected(ApplyAll(steps[..k], a)).value.steps == steps[k..]
            && Inspected(ApplyAll(steps[..k], a)).value.owned == Inspected(a).value.owned
            && (k > 0 ==> Inspected(ApplyAll(steps[..k], a)).value.whitelist != WaitingProposal)
    decreases k
  {
    var steps := Inspected(a).value.steps;
    if k > 0 {
      PlannedStep(a);
      var b := Apply(steps[0], a);
      PrefixLeavesSuffix(b, k - 1);
      assert steps[..k][1..] == steps[1..][..k - 1];
      if k == 1 { assert steps[..k][1..] == []; }
    }
  }

  /** Setup is complete: the owner holds everything and all four test tokens are admitted. */
  predicate Complete(a: Accounts)
    requires a.Shape()
  {
    && a.loaders == [Owner, Owner, Owner]
    && a.whitelist == Some(Config(Owner, None, TOKENS))
    && a.factory == Some(Factory(Owner, true))
    && forall i :: 0 <= i < TOKENS ==> a.admissions[i]
  }

  lemma {:induction false} NothingMissing(admissions: seq<bool>, i: nat)
    requires i <= |admissions|
    ensures MissingFrom(admissions, i) == [] <==> forall j :: i <= j < |admissions| ==> admissions[j]
    ensures |AdmittedFrom(admissions, i)| + |MissingFrom(admissions, i)| == |admissions| - i
    decreases |admissions| - i
  {
    if i < |admissions| { NothingMissing(admissions, i + 1); }
  }

  /** An owned client that is not waiting for a proposal plans nothing exactly when setup is complete. */
  lemma EmptyPlanIsComplete(a: Accounts)
    requires a.Shape() && Inspected(a).Ok?
    requires Inspected(a).value.owned && Inspected(a).value.whitelist != WaitingProposal
    ensures Inspected(a).value.steps == [] <==> Complete(a)
  {
    NothingMissing(a.admissions, 0);
    assert a.loaders == [a.loaders[0], a.loaders[1], a.loaders[2]];
  }

  // ---- packing a transaction ----

  datatype Refusal =
    | NotOwned | WaitingForProposal | NoTreasury | DoesNotFit | BadRent | TooExpensive | LowBalance
    | Unreadable(problem: Problem)

  const MAX_FEE := 100_000
  const MAX_SETUP_SPEND := 20_000_000
  const RESERVE := 1_000_000

  /** Quotes of one preparation: the rent of each step's account, the network fee, the owner's balance. */
  datatype Quote = Quote(rent: Step -> int, fee: int, balance: int)

  function RentSum(steps: seq<Step>, rent: Step -> int): int {
    if steps == [] then 0
    else
      var last := steps[|steps| - 1];
      RentSum(steps[..|steps| - 1], rent) + if last == ClaimWhitelist then 0 else rent(last)
  }

  /** Every step but a claim adds its own rent, wherever it stands. */
  lemma {:induction false} RentCounts(steps: seq<Step>, rent: Step -> int, k: nat)
    requires k < |steps|
    ensures RentSum([], rent) == 0
    ensures RentSum(steps, rent) == RentSum(steps[..k] + steps[k + 1..], rent)
                                    + if steps[k].ClaimWhitelist? then 0 else rent(steps[k])
  {
    var n := |steps| - 1;
    var without := steps[..k] + steps[k + 1..];
    if k == n {
      assert without == steps[..n];
    } else {
      var front := steps[..n];
      RentCounts(front, rent, k);
      assert without[..|without| - 1] == front[..k] + front[k + 1..];
    }
  }

  predicate Affordable(steps: seq<Step>, q: Quote) {
    && (forall s :: s in steps && s != ClaimWhitelist ==> q.rent(s) >= 0)
    && 0 <= q.fee <= MAX_FEE
    && RentSum(steps, q.rent) + q.fee <= MAX_SETUP_SPEND
    && q.balance >= RentSum(steps, q.rent) + q.fee + RESERVE
  }

  /** The number of steps greedy packing takes: the first k fit one by one, and the next one does not. */
  function PackedFrom(plan: seq<Step>, fits: seq<Step> -> bool, k: nat): (n: nat)
    requires k <= |plan|
    ensures k <= n <= |plan| && (n < |plan| ==> !fits(plan[..n + 1]))
    ensures forall j :: k < j <= n ==> fits(plan[..j])
    decreases |plan| - k
  {
    if k == |plan| || !fits(plan[..k + 1]) then k else PackedFrom(plan, fits, k + 1)
  }

  function Packed(plan: seq<Step>, fits: seq<Step> -> bool): nat {
    PackedFrom(plan, fits, 0)
  }

  /** The packer reaches the factory step, whether or not it fits, without a recorded treasury. */
  predicate TreasuryMissing(plan: seq<Step>, fits: seq<Step> -> bool, hasTreasury: bool) {
    !hasTreasury && exists i :: 0 <= i < |plan| && i <= PackedFrom(plan, fits, 0) && plan[i] == InitFactory
  }

  /** Exactly when a non-empty plan can be prepared. */
  predicate Preparable(plan: seq<Step>, fits: seq<Step> -> bool, hasTreasury: bool, quote: Quote) {
    var n := PackedFrom(plan, fits, 0);
    !TreasuryMissing(plan, fits, hasTreasury) && n > 0 && Affordable(plan[..n], quote)
  }

  /** The first n steps fit one by one, and one more does not. */
  predicate FitsUpTo(plan: seq<Step>, fits: seq<Step> -> bool, n: nat) {
    && n <= |plan| && (forall j :: 1 <= j <= n ==> fits(plan[..j]))
    && (n == |plan| || !fits(plan[..n + 1]))
  }

  /**
   * A plan can be prepared exactly when some steps fit, the factory step is not reached without a treasury, no
   * rent quote is negative, the fee is at most 0.0001 SOL, rent and fee at most 0.02 SOL, and 0.001 SOL remain.
   */
  lemma PreparableIff(plan: seq<Step>, fits: seq<Step> -> bool, hasTreasury: bool, q: Quote)
    ensures Preparable(plan, fits, hasTreasury, q) <==>
              exists n :: 1 <= n <= |plan| && FitsUpTo(plan, fits, n)
                          && (hasTreasury || forall i :: 0 <= i < |plan| && i <= n ==> plan[i] != InitFactory)
                          && (forall i :: 0 <= i < n ==> plan[i] == ClaimWhitelist || q.rent(plan[i]) >= 0)
                          && q.fee >= 0 && q.fee <= 100_000 && RentSum(plan[..n], q.rent) + q.fee <= 20_000_000
                          && q.balance - RentSum(plan[..n], q.rent) - q.fee >= 1_000_000
  {
    var packed := Packed(plan, fits);
    assert FitsUpTo(plan, fits, packed);
    assert forall n :: 0 <= n <= |plan| && FitsUpTo(plan, fits, n) ==> n == packed;
    assert forall i :: 0 <= i < packed ==> plan[..packed][i] == plan[i];
  }

  /** Adds planned steps while the serialized transaction fits. */
  method Pack(plan: seq<Step>, fits: seq<Step> -> bool, hasTreasury: bool) returns (r: Result<seq<Step>, Refusal>)
    ensures r == if TreasuryMissing(plan, fits, hasTreasury) then Err(NoTreasury) else Ok(plan[..Packed(plan, fits)])
  {
    var steps: seq<Step> := [];
    var full := false;
    while |steps| < |plan| && !full
      invariant |steps| <= |plan| && steps == plan[..|steps|]
      invariant if full then |steps| == Packed(plan, fits) else PackedFrom(plan, fits, |steps|) == Packed(plan, fits)
      invariant !hasTreasury ==>
                forall i :: 0 <= i < |steps| || (full && i == |steps| < |plan|) ==> plan[i] != InitFactory
      decreases |plan| - |steps|, !full
    {
      var step := plan[|steps|];
      if step == InitFactory && !hasTreasury { return Err(NoTreasury); }
      assert plan[..|steps| + 1] == steps + [step];
      if fits(steps + [step]) { steps := steps + [step]; } else { full := true; }
    }
    return Ok(steps);
  }

  /** The rent of all accounts the steps create, unless a quote is invalid. */
  method AddRent(steps: seq<Step>, rentOf: Step -> int) returns (rent: Option<int>)
    ensures rent.Some? <==> forall s :: s in steps && s != ClaimWhitelist ==> rentOf(s) >= 0
    ensures rent.Some? ==> rent.value == RentSum(steps, rentOf)
  {
    var sum := 0;
    for i := 0 to |steps|
      invariant sum == RentSum(steps[..i], rentOf)
      invariant forall j :: 0 <= j < i && steps[j] != ClaimWhitelist ==> rentOf(steps[j]) >= 0
    {
      assert steps[..i + 1][..i] == steps[..i];
      if steps[i] != ClaimWhitelist {
        if rentOf(steps[i]) < 0 { return None; }
        sum := sum + rentOf(steps[i]);
      }
    }
    assert steps[..|steps|] == steps;
    return Some(sum);
  }

  /** The condition behind each refusal. */
  predicate Fails(state: State, fits: seq<Step> -> bool, hasTreasury: bool, q: Quote, refusal: Refusal) {
    var n := Packed(state.steps, fits);
    var taken := state.steps[..n];
    match refusal
    case NotOwned => !state.owned
    case WaitingForProposal => state.whitelist.WaitingProposal?
    case NoTreasury => !hasTreasury && InitFactory in state.steps
    case DoesNotFit => state.steps != [] && !fits(state.steps[..1])
    case BadRent => exists i :: 0 <= i < n && state.steps[i] != ClaimWhitelist && q.rent(state.steps[i]) < 0
    case TooExpensive => q.fee < 0 || q.fee > 100_000 || RentSum(taken, q.rent) + q.fee > 20_000_000
    case LowBalance => q.balance - RentSum(taken, q.rent) - q.fee < 1_000_000
    case Unreadable(_) => false
  }

  /**
   * Packs steps while the serialized transaction fits. A preparation is refused exactly for a wrong owner, a
   * waiting proposal, or a non-empty plan that cannot be prepared; a success is the greedy prefix of the plan.
   */
  method Prepare(state: State, fits: seq<Step> -> bool, hasTreasury: bool, quote: Quote)
    returns (r: Result<seq<Step>, Refusal>)
    ensures r.Ok? <==>
              && state.owned && state.whitelist != WaitingProposal
              && (state.steps == [] || Preparable(state.steps, fits, hasTreasury, quote))
    ensures r.Ok? ==>
              r.value == state.steps[..Packed(state.steps, fits)] && (state.steps == [] || Affordable(r.value, quote))
    ensures r.Err? ==> !r.error.Unreadable?
    ensures r == Err(NotOwned) <==> !state.owned
    ensures r == Err(WaitingForProposal) <==> state.owned && state.whitelist == WaitingProposal
    ensures state.owned && state.whitelist != WaitingProposal && state.steps != [] ==>
              && (r == Err(NoTreasury) <==> TreasuryMissing(state.steps, fits, hasTreasury))
              && (r == Err(DoesNotFit) <==>
                  !TreasuryMissing(state.steps, fits, hasTreasury) && Packed(state.steps, fits) == 0)
    ensures r.Err? ==> Fails(state, fits, hasTreasury, quote, r.error)
  {
    if !state.owned { return Err(NotOwned); }
    if state.whitelist == WaitingProposal { return Err(WaitingForProposal); }
    if state.steps == [] { return Ok([]); }
    var packed := Pack(state.steps, fits, hasTreasury);
    if packed.Err? { return packed; }
    var steps := packed.value;
    if steps == [] { return Err(DoesNotFit); }
    var rent := AddRent(steps, quote.rent);
    assert forall i :: 0 <= i < |steps| ==> steps[i] == state.steps[i];
    if rent.None? { return Err(BadRent); }
    if quote.fee < 0 || quote.fee > MAX_FEE || rent.value + quote.fee > MAX_SETUP_SPEND { return Err(TooExpensive); }
    if quote.balance < rent.value + quote.fee + RESERVE { return Err(LowBalance); }
    return Ok(steps);
  }

  /** A size measure that never shrinks when a step is added. */
  ghost predicate Monotone(fits: seq<Step> -> bool) {
    forall steps: seq<Step>, k: nat :: k <= |steps| && fits(steps) ==> fits(steps[..k])
  }

  /** For such a measure the packed prefix is the longest prefix that fits. */
  lemma GreedyIsMaximal(plan: seq<Step>, fits: seq<Step> -> bool, packed: nat, other: nat)
    requires Monotone(fits) && packed <= |plan| && other <= |plan| && fits(plan[..packed])
    requires packed == |plan| || !fits(plan[..packed + 1])
    ensures fits(plan[..other]) <==> other <= packed
  {
    if other <= packed {
      assert plan[..packed][..other] == plan[..other];
    } else {
      assert plan[..other][..packed + 1] == plan[..packed + 1];
    }
  }

  /** A caller's check before the first round: whatever is packed next, it fits, has its treasury and can be paid. */
  ghost predicate Provided(plan: seq<Step>, fits: seq<Step> -> bool, hasTreasury: bool, quotes: nat -> Quote) {
    && (forall s :: s in plan ==> fits([s]))
    && (hasTreasury || InitFactory !in plan)
    && forall i, j, n :: 0 <= i < j <= |plan| ==> Affordable(plan[i..j], quotes(n))
  }

  lemma ProvidedIsPreparable(plan: seq<Step>, fits: seq<Step> -> bool, hasTreasury: bool, quotes: nat -> Quote, k: nat,
                             n: nat)
    requires Provided(plan, fits, hasTreasury, quotes) && k < |plan|
    ensures Preparable(plan[k..], fits, hasTreasury, quotes(n))
  {
    var rest := plan[k..];
    assert rest[..1] == [plan[k]];
    var packed := Packed(rest, fits);
    assert rest[..packed] == plan[k..k + packed];
    assert Affordable(plan[k..k + packed], quotes(n));
  }

  /**
   * Review, sign, apply, review again. The rounds end in complete setup after at most as many rounds as there
   * were planned steps, unless some remaining plan cannot be prepared when its round comes.
   */
  method SetupRounds(a: Accounts, fits: seq<Step> -> bool, hasTreasury: bool, quotes: nat -> Quote)
    returns (r: Result<Accounts, Refusal>, rounds: nat)
    requires a.Shape()
    ensures r.Ok? ==> r.value.Shape() && Complete(r.value)
    ensures Inspected(a).Ok? ==> rounds <= |Inspected(a).value.steps|
    ensures r.Err? && Inspected(a).Ok? ==>
              var state := Inspected(a).value;
              state.owned && state.whitelist != WaitingProposal ==>
                exists k :: 0 <= k < |state.steps| && !Preparable(state.steps[k..], fits, hasTreasury, quotes(rounds))
    ensures r.Ok? ==> Inspected(a).Ok? && Inspected(a).value.owned && Inspected(a).value.whitelist != WaitingProposal
    ensures Inspected(a).Ok? && Provided(Inspected(a).value.steps, fits, hasTreasury, quotes) ==>
              (r.Ok? <==> Inspected(a).value.owned && Inspected(a).value.whitelist != WaitingProposal)
  {
    rounds := 0;
    var inspected := Inspect(a);
    if inspected.Err? { return Err(Unreadable(inspected.error)), 0; }
    r, rounds := Rounds(a, inspected.value, fits, hasTreasury, quotes);
    var plan := inspected.value.steps;
    if r.Err? && inspected.value.owned && inspected.value.whitelist != WaitingProposal
       && Provided(plan, fits, hasTreasury, quotes)
    {
      var k :| 0 <= k < |plan| && !Preparable(plan[k..], fits, hasTreasury, quotes(rounds));
      ProvidedIsPreparable(plan, fits, hasTreasury, quotes, k, rounds);
    }
  }

  /** A round applies n steps of a plan that itself was left by the rounds before. */
  lemma AfterRound(current: Accounts, state: State, first: seq<Step>, k: nat, done: seq<Step>)
    requires current.Shape() && Inspected(current) == Ok(state) && state.whitelist != WaitingProposal
    requires k <= |first| && state.steps == first[k..] && |done| <= |state.steps| && done == state.steps[..|done|]
    ensures k + |done| <= |first| && Runnable(done, current) && Inspected(ApplyAll(done, current)).Ok?
    ensures var after := Inspected(ApplyAll(done, current)).value;
            after.steps == first[k + |done|..] && after.owned == state.owned && after.whitelist != WaitingProposal
  {
    PrefixLeavesSuffix(current, |done|);
    assert first[k..][|done|..] == first[k + |done|..];
  }

  /** Applies one prepared transaction and inspects the accounts again. */
  method Round(current: Accounts, state: State, steps: seq<Step>, ghost first: seq<Step>, ghost k: nat)
    returns (next: Accounts, after: State)
    requires current.Shape() && Inspected(current) == Ok(state) && state.whitelist != WaitingProposal
    requires k <= |first| && state.steps == first[k..] && 0 < |steps| <= |state.steps|
    requires steps == state.steps[..|steps|]
    ensures next.Shape() && Inspected(next) == Ok(after) && k + |steps| <= |first|
    ensures after.steps == first[k + |steps|..]
    ensures after.owned == state.owned && after.whitelist != WaitingProposal
  {
    AfterRound(current, state, first, k, steps);
    next := ApplyAll(steps, current);
    var inspected := Inspect(next);
    after := inspected.value;
  }

  method Rounds(a: Accounts, first: State, fits: seq<Step> -> bool, hasTreasury: bool, quotes: nat -> Quote)
    returns (r: Result<Accounts, Refusal>, rounds: nat)
    requires a.Shape() && Inspected(a) == Ok(first)
    ensures r.Ok? ==> r.value.Shape() && Complete(r.value) && first.owned && first.whitelist != WaitingProposal
    ensures rounds <= |first.steps|
    ensures r.Err? && first.owned && first.whitelist != WaitingProposal ==>
              exists k :: 0 <= k < |first.steps| && !Preparable(first.steps[k..], fits, hasTreasury, quotes(rounds))
  {
    var current, state := a, first;
    rounds := 0;
    ghost var k: nat := 0;
    while true
      invariant current.Shape() && Inspected(current) == Ok(state)
      invariant rounds <= k <= |first.steps| && state.steps == first.steps[k..]
      invariant state.owned == first.owned
      invariant state.whitelist == WaitingProposal <==> first.whitelist == WaitingProposal
      decreases |state.steps|
    {
      var prepared := Prepare(state, fits, hasTreasury, quotes(rounds));
      if prepared.Err? { return Err(prepared.error), rounds; }
      if state.steps == [] {
        EmptyPlanIsComplete(current);
        return Ok(current), rounds;
      }
      assert 0 < |prepared.value| <= |state.steps| && prepared.value == state.steps[..|prepared.value|];
      current, state := Round(current, state, prepared.value, first.steps, k);
      k, rounds := k + |prepared.value|, rounds + 1;
    }
  }
}
