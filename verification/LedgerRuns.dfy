/** Every run of the budget ledger: several request threads, one lock, an atomically replaced
    checkpoint, failing writes, crashes and restarts, and an upstream that spends real money. */
module LedgerRuns {
  import opened Ledger
  import opened Wrappers
  import Pricing

  /** An operation between taking the lock and releasing it. */
  datatype Op =
    | DoReserve(id: ReqId, amount: real)
    | DoSettleActual(id: ReqId, usd: real)
    | DoSettleDerived(id: ReqId, usd: real)
    | DoRetain(id: ReqId)

  function Apply(b: Books, op: Op): Books {
    match op
    case DoReserve(id, amount) => Reserved(b, id, amount)
    case DoSettleActual(id, usd) => SettledActual(b, id, usd)
    case DoSettleDerived(id, usd) => SettledDerived(b, id, usd)
    case DoRetain(id) => Retained(b, id)
  }

  /** The proxy, its disk, and the world around it.
      `memory` is absent while the process is down. `writing` is the operation whose memory
      update is done and whose os.replace is not. `granted` are the requests whose reserve has
      returned, with their reservation: only they may spend. `spent` is what the upstream has
      really charged. `closed` are the requests whose bill is final, `used` every id ever tried. */
  datatype World = World(
    memory: Option<Books>, disk: Document, writing: Option<Op>,
    granted: map<ReqId, real>, spent: map<ReqId, real>, closed: set<ReqId>, used: set<ReqId>)

  datatype Config = Config(policy: Policy, binding: Binding)
  {
    /** The cap binds; otherwise the ledger only watches and the accounting runs unchanged. */
    ghost predicate Enforcing() {
      0.0 <= policy.hardCap == binding.hardCap <= ABSOLUTE_MAX_USD && !policy.watchOnly
    }
  }

  ghost predicate Init(c: Config, w: World) {
    && w.memory.Some? && w.memory.value.Empty() && w.disk == Save(w.memory.value, c.binding) && w.writing.None?
    && w.granted.Keys == w.spent.Keys == w.closed == w.used == {}
  }

  /** What the callers promise: a reservation uses an id never used before; a settlement is for a
      request this process still holds, and its bill covers what was charged and fits the hold. */
  ghost predicate Permitted(c: Config, w: World, op: Op)
    requires w.memory.Some?
  {
    var held := w.memory.value.outstanding;
    match op
    case DoReserve(id, amount) => id !in w.used && !Refuses(w.memory.value, c.policy, amount)
    case DoSettleActual(id, usd) => id in held && id in w.granted && At(w.spent, id) <= Clamp(usd) <= held[id]
    case DoSettleDerived(id, usd) => id in held && id in w.granted && At(w.spent, id) <= Clamp(usd) <= held[id]
    case DoRetain(id) => true
  }

  ghost predicate IsSettle(op: Op) { op.DoSettleActual? || op.DoSettleDerived? }

  /** A thread takes the lock and updates the books in memory. */
  ghost predicate Begin(c: Config, w: World, w': World, op: Op) {
    && w.memory.Some? && w.writing.None? && Permitted(c, w, op)
    && w' == w.(memory := Some(Apply(w.memory.value, op)), writing := Some(op),
                used := w.used + {op.id}, closed := if IsSettle(op) then w.closed + {op.id} else w.closed)
  }

  /** os.replace succeeds, the lock is released and the call returns. */
  ghost predicate Commit(c: Config, w: World, w': World) {
    && w.memory.Some? && w.writing.Some?
    && w' == w.(disk := Save(w.memory.value, c.binding), writing := None,
                granted := match w.writing.value
                           case DoReserve(id, amount) => w.granted[id := Clamp(amount)]
                           case _ => w.granted)
  }

  /** Writing the checkpoint raises: the memory update stays, the file does not change, the call does not return. */
  ghost predicate WriteFails(w: World, w': World) {
    w.memory.Some? && w.writing.Some? && w' == w.(writing := None)
  }

  /** The process dies, at any moment. */
  ghost predicate Crash(w: World, w': World) {
    w' == w.(memory := None, writing := None)
  }

  /** A new process loads the checkpoint. */
  ghost predicate Restart(c: Config, w: World, w': World) {
    && w.memory.None?
    && match Load(w.disk, c.binding)
       case Loaded(books) => w' == w.(memory := Some(books))
       case PolicyMismatch(_) => false
  }

  /** The upstream charges a request, even one whose process has died or which was retained. */
  ghost predicate Spend(w: World, w': World, id: ReqId, usd: real) {
    && id in w.granted && id !in w.closed && 0.0 <= usd && At(w.spent, id) + usd <= w.granted[id]
    && w' == w.(spent := w.spent[id := At(w.spent, id) + usd])
  }

  datatype Step = BeginStep(op: Op) | CommitStep | WriteFailsStep | CrashStep | RestartStep | SpendStep(id: ReqId, usd: real)

  ghost predicate Next(c: Config, w: World, w': World, step: Step) {
    match step
    case BeginStep(op) => Begin(c, w, w', op)
    case CommitStep => Commit(c, w, w')
    case WriteFailsStep => WriteFails(w, w')
    case CrashStep => Crash(w, w')
    case RestartStep => Restart(c, w, w')
    case SpendStep(id, usd) => Spend(w, w', id, usd)
  }

  ghost predicate IsRun(c: Config, run: seq<World>, steps: seq<Step>) {
    && |run| == |steps| + 1 && Init(c, run[0])
    && forall i :: 0 <= i < |steps| ==> Next(c, run[i], run[i + 1], steps[i])
  }

  // ----- the invariant -----

  /** How much a request may cost in the end: its bill once closed, its reservation before. */
  ghost function Exposure(w: World, id: ReqId): real
    requires id in w.granted
  {
    if id in w.closed then At(w.spent, id) else w.granted[id]
  }

  /** `liability` shows that `b` answers for everything the requests may cost: every granted
      request has a liability covering its exposure, each hold is its own liability, and the
      books add up to at least the sum. */
  ghost predicate Covers(w: World, b: Books, liability: map<ReqId, real>) {
    && b.Sound() && NonNegative(liability) && liability.Keys <= w.used
    && (forall id <- w.granted :: id in liability && Exposure(w, id) <= liability[id])
    && (forall id <- b.outstanding :: id in liability && liability[id] == b.outstanding[id])
    && SumOf(liability) <= b.Accounted()
  }

  /** The books answer for every request and, when the cap is enforced, stay under it. */
  ghost predicate Safe(c: Config, w: World, b: Books) {
    (c.Enforcing() ==> b.Accounted() <= c.policy.hardCap) && exists liability :: Covers(w, b, liability)
  }

  /** The books on disk. */
  ghost predicate OnDisk(c: Config, w: World, b: Books) {
    w.disk == Save(b, c.binding)
  }

  ghost predicate DiskSafe(c: Config, w: World) {
    exists b :: OnDisk(c, w, b) && Safe(c, w, b)
  }

  ghost predicate Inv(c: Config, w: World) {
    && DiskSafe(c, w)
    && (w.memory.Some? ==> Safe(c, w, w.memory.value))
    && (forall id <- w.spent :: id in w.granted && 0.0 <= w.spent[id] <= w.granted[id])
    && NonNegative(w.granted) && w.granted.Keys <= w.used && w.closed <= w.granted.Keys
    && (w.writing.Some? ==> w.memory.Some?)
    && (w.writing.Some? && w.writing.value.DoReserve? ==>
      var op := w.writing.value;
      op.id !in w.granted && op.id in w.memory.value.outstanding && w.memory.value.outstanding[op.id] == Clamp(op.amount))
  }

  // ----- each step keeps the invariant -----

  lemma NothingGranted(c: Config, w: World, b: Books)
    requires w.granted.Keys == {}
    requires b.Empty()
    ensures Safe(c, w, b)
  {
    assert b.outstanding == map[] && Covers(w, b, b.outstanding);
  }

  lemma InitSafe(c: Config, w: World)
    requires Init(c, w)
    ensures Inv(c, w)
  {
    var b := w.memory.value;
    NothingGranted(c, w, b);
    assert OnDisk(c, w, b);
  }

  /** A world in which no request may cost more leaves the books safe. */
  lemma StaysSafe(c: Config, w: World, w': World, b: Books)
    requires Safe(c, w, b) && w.used <= w'.used
    requires forall id <- w'.granted :: id in w.granted && Exposure(w', id) <= Exposure(w, id)
    ensures Safe(c, w', b)
  {
    var liability :| Covers(w, b, liability);
    assert Covers(w', b, liability);
  }

  lemma DiskStaysSafe(c: Config, w: World, w': World)
    requires Inv(c, w) && w.used <= w'.used && w'.disk == w.disk
    requires forall id <- w'.granted :: id in w.granted && Exposure(w', id) <= Exposure(w, id)
    ensures DiskSafe(c, w')
  {
    var b :| OnDisk(c, w, b) && Safe(c, w, b);
    StaysSafe(c, w, w', b);
    assert OnDisk(c, w', b);
  }

  lemma ReserveSafe(c: Config, w: World, w': World, op: Op)
    requires Inv(c, w) && Begin(c, w, w', op) && op.DoReserve?
    ensures Safe(c, w', w'.memory.value)
  {
    var b, amount := w.memory.value, Clamp(op.amount);
    var liability :| Covers(w, b, liability);
    ReserveAccounts(b, op.id, op.amount);
    SumSet(liability, op.id, amount);
    SumWithout(liability, op.id);
    assert Covers(w', Reserved(b, op.id, op.amount), liability[op.id := amount]);
  }

  /** A settled request costs its bill, and every other one what it did. */
  lemma BillCovers(w: World, w': World, b: Books, liability: map<ReqId, real>, op: Op)
    requires Covers(w, b, liability) && IsSettle(op) && w'.granted == w.granted && w'.spent == w.spent
    requires w'.closed == w.closed + {op.id} && At(w.spent, op.id) <= Clamp(op.usd)
    ensures forall id <- w'.granted :: id in liability && Exposure(w', id) <= liability[op.id := Clamp(op.usd)][id]
    ensures NonNegative(liability[op.id := Clamp(op.usd)])
  {
  }

  lemma SettleSafe(c: Config, w: World, w': World, op: Op)
    requires Inv(c, w) && Begin(c, w, w', op) && IsSettle(op)
    ensures Safe(c, w', w'.memory.value)
  {
    var b, bill := w.memory.value, Clamp(op.usd);
    var liability :| Covers(w, b, liability);
    SettleAccounts(b, op.id, op.usd);
    SumSet(liability, op.id, bill);
    SumWithout(liability, op.id);
    BillCovers(w, w', b, liability, op);
    assert Covers(w', Apply(b, op), liability[op.id := bill]);
  }

  lemma RetainSafe(c: Config, w: World, w': World, op: Op)
    requires Inv(c, w) && Begin(c, w, w', op) && op.DoRetain?
    ensures Safe(c, w', w'.memory.value)
  {
    var b := w.memory.value;
    var liability :| Covers(w, b, liability);
    RetainConserves(b, op.id);
    assert Covers(w', Retained(b, op.id), liability);
  }

  lemma BeginKeepsInv(c: Config, w: World, w': World, op: Op)
    requires Inv(c, w) && Begin(c, w, w', op)
    ensures Inv(c, w')
  {
    match op {
      case DoReserve(_, _) => ReserveSafe(c, w, w', op);
      case DoRetain(_) => RetainSafe(c, w, w', op);
      case _ => SettleSafe(c, w, w', op);
    }
    assert forall r <- w'.granted :: Exposure(w', r) <= Exposure(w, r);
    DiskStaysSafe(c, w, w');
  }

  lemma CommitKeepsInv(c: Config, w: World, w': World)
    requires Inv(c, w) && Commit(c, w, w')
    ensures Inv(c, w')
  {
    var b := w.memory.value;
    var liability :| Covers(w, b, liability);
    assert Covers(w', b, liability);
    assert OnDisk(c, w', b) && Safe(c, w', b);
  }

  lemma RestartKeepsInv(c: Config, w: World, w': World)
    requires Inv(c, w) && Restart(c, w, w')
    ensures Inv(c, w')
  {
    var b :| OnDisk(c, w, b) && Safe(c, w, b);
    SaveLoadRoundTrip(b, c.binding, c.binding);
    StaysSafe(c, w, w', b);
    assert OnDisk(c, w', b);
  }

  lemma SpendKeepsInv(c: Config, w: World, w': World, id: ReqId, usd: real)
    requires Inv(c, w) && Spend(w, w', id, usd)
    ensures Inv(c, w')
  {
    assert forall r <- w'.granted :: Exposure(w', r) <= Exposure(w, r);
    DiskStaysSafe(c, w, w');
    if w.memory.Some? {
      StaysSafe(c, w, w', w.memory.value);
    }
  }

  lemma StepKeepsInv(c: Config, w: World, w': World, step: Step)
    requires Inv(c, w) && Next(c, w, w', step)
    ensures Inv(c, w')
  {
    match step
    case BeginStep(op) => BeginKeepsInv(c, w, w', op);
    case CommitStep => CommitKeepsInv(c, w, w');
    case RestartStep => RestartKeepsInv(c, w, w');
    case SpendStep(id, usd) => SpendKeepsInv(c, w, w', id, usd);
    case WriteFailsStep =>
      DiskStaysSafe(c, w, w');
      StaysSafe(c, w, w', w.memory.value);
    case CrashStep => DiskStaysSafe(c, w, w');
  }

  // ----- the theorem -----

  /** Books that are safe bound what the upstream has really charged. */
  lemma SafeBoundsSpend(c: Config, w: World, b: Books)
    requires Inv(c, w) && Safe(c, w, b)
    ensures SumOf(w.spent) <= b.Accounted()
    ensures c.Enforcing() ==> b.Accounted() <= c.policy.hardCap <= ABSOLUTE_MAX_USD
  {
    var liability :| Covers(w, b, liability);
    SumBounded(w.spent, liability);
  }

  lemma {:induction false} RunKeepsInv(c: Config, run: seq<World>, steps: seq<Step>, i: nat)
    requires IsRun(c, run, steps) && i < |run|
    ensures Inv(c, run[i])
  {
    if i == 0 {
      InitSafe(c, run[0]);
    } else {
      RunKeepsInv(c, run, steps, i - 1);
      StepKeepsInv(c, run[i - 1], run[i], steps[i - 1]);
    }
  }

  /** In every state of every run the checkpoint reloads, and the upstream has charged no more
      than the total on disk; while the process is up the same holds of the books in memory. When
      the cap is enforced both totals are within it. */
  lemma BudgetHolds(c: Config, run: seq<World>, steps: seq<Step>, i: nat)
    requires IsRun(c, run, steps) && i < |run|
    ensures
      var w := run[i];
      && Load(w.disk, c.binding).Loaded?
      && SumOf(w.spent) <= Load(w.disk, c.binding).books.Accounted()
      && (w.memory.Some? ==> SumOf(w.spent) <= w.memory.value.Accounted())
      && (c.Enforcing() ==>
            && Load(w.disk, c.binding).books.Accounted() <= c.policy.hardCap <= ABSOLUTE_MAX_USD
            && (w.memory.Some? ==> w.memory.value.Accounted() <= c.policy.hardCap))
  {
    RunKeepsInv(c, run, steps, i);
    var w := run[i];
    var b :| OnDisk(c, w, b) && Safe(c, w, b);
    SaveLoadRoundTrip(b, c.binding, c.binding);
    SafeBoundsSpend(c, w, b);
    if w.memory.Some? {
      SafeBoundsSpend(c, w, w.memory.value);
    }
  }

  /** The configuration of a ledger opened for a requested cap. */
  function OpenedFor(cap: real, rejectOnEquality: bool, watchOnly: bool, runId: string, modelId: string, profileName: string): Config {
    Config(Policy(HardCap(cap), rejectOnEquality, watchOnly), Binding(runId, modelId, profileName, HardCap(cap)))
  }

  /** A ledger opened with a requested cap that is enforced never answers for more than was requested, nor
      for more than 12, in any state of any run; and the upstream has charged no more than that. */
  lemma RequestedCapHolds(cap: real, rejectOnEquality: bool, runId: string, modelId: string, profileName: string,
                          run: seq<World>, steps: seq<Step>, i: nat)
    requires 0.0 <= cap
    requires IsRun(OpenedFor(cap, rejectOnEquality, false, runId, modelId, profileName), run, steps) && i < |run|
    ensures
      var w := run[i];
      var disk := Load(w.disk, OpenedFor(cap, rejectOnEquality, false, runId, modelId, profileName).binding);
      && disk.Loaded? && SumOf(w.spent) <= disk.books.Accounted() <= cap && disk.books.Accounted() <= 12.0
      && (w.memory.Some? ==> SumOf(w.spent) <= w.memory.value.Accounted() <= cap && w.memory.value.Accounted() <= 12.0)
  {
    BudgetHolds(OpenedFor(cap, rejectOnEquality, false, runId, modelId, profileName), run, steps, i);
  }

  // ----- runs whose amounts are priced -----

  /** A request with the bounds it is reserved for and the usage it turns out to have. */
  datatype Call = Call(row: Pricing.PriceRow, inputUb: int, cap: int, reasoning: int, cachedUb: int, usage: Pricing.Usage)
  {
    predicate Sound() {
      row.Sane() && Pricing.WithinBounds(usage, inputUb, cap, reasoning, cachedUb)
    }

    /** What is held for it. */
    function Hold(): real { Clamp(Pricing.WorstCaseUsd(inputUb, row, cap, reasoning, cachedUb)) }

    /** What the proxy derives from its usage. */
    function Bill(): real { Clamp(Pricing.DerivedCostUsd(usage, row)) }

    /** The most the upstream charges for it: the bill with every fee. */
    function Ceiling(): real { Pricing.WithFees(Pricing.DerivedCostUsd(usage, row)) }
  }

  /** A call costs no more than is held for it, even with every fee. */
  lemma HoldCovers(call: Call)
    requires call.Sound()
    ensures 0.0 <= call.Bill() <= call.Ceiling() <= call.Hold()
  {
    Pricing.ReservationDominates(call.usage, call.row, call.inputUb, call.cap, call.reasoning, call.cachedUb);
  }

  /** The amounts of an operation come from its call: the reservation is the worst case, a derived
      settlement bills the usage, and an actual one what was charged. Nothing is said of how the
      amounts compare, except that a derived bill is used only where no fee was charged on top. */
  ghost predicate PricedOp(call: Call, w: World, op: Op)
    requires w.memory.Some?
  {
    match op
    case DoReserve(id, amount) => id !in w.used && Clamp(amount) == call.Hold()
    case DoSettleActual(id, usd) =>
      id in w.memory.value.outstanding && id in w.granted && usd == At(w.spent, id)
    case DoSettleDerived(id, usd) =>
      && id in w.memory.value.outstanding && id in w.granted
      && usd == Pricing.DerivedCostUsd(call.usage, call.row) && At(w.spent, id) <= call.Bill()
    case DoRetain(_) => true
  }

  /** A step of a priced run: as in Next, with amounts that come from the calls. */
  ghost predicate PricedNext(c: Config, calls: ReqId -> Call, w: World, w': World, step: Step) {
    match step
    case BeginStep(op) =>
      && w.memory.Some? && w.writing.None? && PricedOp(calls(op.id), w, op)
      && (op.DoReserve? ==> !Refuses(w.memory.value, c.policy, op.amount))
      && w' == w.(memory := Some(Apply(w.memory.value, op)), writing := Some(op),
                  used := w.used + {op.id}, closed := if IsSettle(op) then w.closed + {op.id} else w.closed)
    case SpendStep(id, usd) =>
      && id in w.granted && id !in w.closed && 0.0 <= usd && At(w.spent, id) + usd <= calls(id).Ceiling()
      && w' == w.(spent := w.spent[id := At(w.spent, id) + usd])
    case _ => Next(c, w, w', step)
  }

  ghost predicate IsPricedRun(c: Config, calls: ReqId -> Call, run: seq<World>, steps: seq<Step>) {
    && |run| == |steps| + 1 && Init(c, run[0]) && (forall id :: calls(id).Sound())
    && forall i :: 0 <= i < |steps| ==> PricedNext(c, calls, run[i], run[i + 1], steps[i])
  }

  ghost predicate HeldFor(calls: ReqId -> Call, held: map<ReqId, real>) {
    forall id <- held :: held[id] == calls(id).Hold()
  }

  /** Every hold, in memory, on disk and granted, is the one its call was priced at. */
  ghost predicate PricedInv(calls: ReqId -> Call, w: World) {
    && HeldFor(calls, w.granted)
    && (w.memory.Some? ==> HeldFor(calls, w.memory.value.outstanding))
    && w.disk.Object? && w.disk.outstanding.Some? && HeldFor(calls, w.disk.outstanding.value)
    && (forall id <- w.spent :: id in w.granted && 0.0 <= w.spent[id] <= w.granted[id])
    && (w.writing.Some? && w.writing.value.DoReserve? ==> Clamp(w.writing.value.amount) == calls(w.writing.value.id).Hold())
  }

  /** The bill derived from usage within its bounds is a settlement the run theorem allows if and only
      if it covers what was charged. */
  lemma PricedSettlementPermitted(c: Config, call: Call, w: World, id: ReqId)
    requires call.Sound() && w.memory.Some? && id in w.memory.value.outstanding && id in w.granted
    requires w.memory.value.outstanding[id] == call.Hold()
    ensures Permitted(c, w, DoSettleDerived(id, Pricing.DerivedCostUsd(call.usage, call.row))) <==> At(w.spent, id) <= call.Bill()
  {
    HoldCovers(call);
  }

  lemma PricedOpPermitted(c: Config, calls: ReqId -> Call, w: World, op: Op)
    requires PricedInv(calls, w) && w.memory.Some? && calls(op.id).Sound() && PricedOp(calls(op.id), w, op)
    requires op.DoReserve? ==> !Refuses(w.memory.value, c.policy, op.amount)
    ensures Permitted(c, w, op)
  {
    if op.DoSettleDerived? {
      PricedSettlementPermitted(c, calls(op.id), w, op.id);
    }
  }

  /** A priced step is a step, and keeps the holds priced. */
  lemma PricedStep(c: Config, calls: ReqId -> Call, w: World, w': World, step: Step)
    requires PricedInv(calls, w) && (forall id :: calls(id).Sound()) && PricedNext(c, calls, w, w', step)
    ensures Next(c, w, w', step) && PricedInv(calls, w')
  {
    match step
    case BeginStep(op) => PricedOpPermitted(c, calls, w, op);
    case SpendStep(id, usd) => HoldCovers(calls(id));
    case _ =>
  }

  lemma {:induction false} PricedRunHolds(c: Config, calls: ReqId -> Call, run: seq<World>, steps: seq<Step>, i: nat)
    requires IsPricedRun(c, calls, run, steps) && i < |run|
    ensures PricedInv(calls, run[i]) && forall j :: 0 <= j < i ==> Next(c, run[j], run[j + 1], steps[j])
  {
    if i > 0 {
      PricedRunHolds(c, calls, run, steps, i - 1);
      PricedStep(c, calls, run[i - 1], run[i], steps[i - 1]);
    }
  }

  /** When every hold is the worst case, every charge is within the bill and its fees, and every bill
      is derived from the usage or reported, the run is one of the budget theorem: nothing else is
      assumed of the amounts. */
  lemma PricedRunsAreRuns(c: Config, calls: ReqId -> Call, run: seq<World>, steps: seq<Step>)
    requires IsPricedRun(c, calls, run, steps)
    ensures IsRun(c, run, steps)
  {
    PricedRunHolds(c, calls, run, steps, |steps|);
  }
}
