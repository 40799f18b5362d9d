/** The budget authority (BudgetLedger in wevibe_bench/adapters/openrouter_proxy.py): its
    books as values, what each operation does to them, the checkpoint, and the class. */
module Ledger {
  import opened Wrappers

  const ABSOLUTE_MAX_USD := 12.0
  const CHECKPOINT_SCHEMA_VERSION := 2

  type ReqId = string

  function Clamp(x: real): real { if x < 0.0 then 0.0 else x }

  // ----- sums over a map of holds -----

  ghost function SumOf(m: map<ReqId, real>): real {
    if m == map[] then 0.0
    else
      var k :| k in m;
      m[k] + SumOf(m - {k})
  }

  /** The sum does not depend on which key is taken first. */
  lemma {:induction false} SumTake(m: map<ReqId, real>, k: ReqId)
    requires k in m
    ensures SumOf(m) == m[k] + SumOf(m - {k})
    decreases |m|
  {
    var j :| j in m && SumOf(m) == m[j] + SumOf(m - {j});
    if j != k {
      SumTake(m - {j}, k);
      SumTake(m - {k}, j);
      assert m - {j} - {k} == m - {k} - {j};
    }
  }

  lemma SumSet(m: map<ReqId, real>, k: ReqId, x: real)
    ensures SumOf(m[k := x]) == SumOf(m - {k}) + x
  {
    SumTake(m[k := x], k);
    assert m[k := x] - {k} == m - {k};
  }

  /** What a key holds, nothing when it is absent. */
  function At(m: map<ReqId, real>, k: ReqId): real {
    if k in m then m[k] else 0.0
  }

  lemma SumWithout(m: map<ReqId, real>, k: ReqId)
    ensures SumOf(m - {k}) == SumOf(m) - At(m, k)
  {
    if k in m {
      SumTake(m, k);
    } else {
      assert m - {k} == m;
    }
  }

  ghost predicate NonNegative(m: map<ReqId, real>) {
    forall k <- m :: 0.0 <= m[k]
  }

  lemma {:induction false} SumNonNegative(m: map<ReqId, real>)
    requires NonNegative(m)
    ensures 0.0 <= SumOf(m)
    decreases |m|
  {
    if m != map[] {
      var k :| k in m;
      SumTake(m, k);
      SumNonNegative(m - {k});
    }
  }

  /** A map bounded key by key has the smaller sum. */
  lemma {:induction false} SumBounded(a: map<ReqId, real>, b: map<ReqId, real>)
    requires NonNegative(b) && forall k <- a :: k in b && a[k] <= b[k]
    ensures SumOf(a) <= SumOf(b)
    decreases |a|
  {
    if a == map[] {
      SumNonNegative(b);
    } else {
      var k :| k in a;
      SumTake(a, k);
      SumTake(b, k);
      SumBounded(a - {k}, b - {k});
    }
  }

  // ----- the books -----

  /** The three accrued totals and the reservation held for each request in flight. */
  datatype Books = Books(actual: real, derived: real, unproven: real, outstanding: map<ReqId, real>)
  {
    ghost predicate Sound() {
      0.0 <= actual && 0.0 <= derived && 0.0 <= unproven && NonNegative(outstanding)
    }

    predicate Empty() {
      actual == derived == unproven == 0.0 && outstanding.Keys == {}
    }

    /** Everything the ledger answers for. */
    ghost function Accounted(): real {
      actual + derived + unproven + SumOf(outstanding)
    }
  }

  const EMPTY := Books(0.0, 0.0, 0.0, map[])

  datatype Policy = Policy(hardCap: real, rejectOnEquality: bool, watchOnly: bool)

  /** min(float(hard_cap_usd), ABSOLUTE_MAX_USD) */
  function HardCap(requested: real): (cap: real)
    ensures cap <= requested && cap <= 12.0 && (requested <= 12.0 ==> cap == requested) && (requested > 12.0 ==> cap == 12.0)
  {
    if ABSOLUTE_MAX_USD < requested then ABSOLUTE_MAX_USD else requested
  }

  /** reserve() refuses exactly when the projected total passes the cap and the ledger is not only watching. */
  ghost predicate Refuses(b: Books, p: Policy, amount: real) {
    var projected := b.Accounted() + Clamp(amount);
    (if p.rejectOnEquality then projected >= p.hardCap else projected > p.hardCap) && !p.watchOnly
  }

  function Reserved(b: Books, id: ReqId, amount: real): Books {
    b.(outstanding := b.outstanding[id := Clamp(amount)])
  }

  function SettledActual(b: Books, id: ReqId, usd: real): Books {
    b.(outstanding := b.outstanding - {id}, actual := b.actual + Clamp(usd))
  }

  function SettledDerived(b: Books, id: ReqId, usd: real): Books {
    b.(outstanding := b.outstanding - {id}, derived := b.derived + Clamp(usd))
  }

  function Retained(b: Books, id: ReqId): Books {
    b.(outstanding := b.outstanding - {id}, unproven := b.unproven + Clamp(At(b.outstanding, id)))
  }

  // ----- what each operation does to the total -----

  /** A reservation adds its own amount, less whatever the same id already held. */
  lemma ReserveAccounts(b: Books, id: ReqId, amount: real)
    requires b.Sound()
    ensures Reserved(b, id, amount).Sound()
    ensures Reserved(b, id, amount).Accounted() == b.Accounted() + Clamp(amount) - At(b.outstanding, id)
    ensures Clamp(amount) == if amount > 0.0 then amount else 0.0
    ensures forall other :: At(Reserved(b, id, amount).outstanding, other) == if other == id then Clamp(amount) else At(b.outstanding, other)
    ensures var r := Reserved(b, id, amount); r.actual == b.actual && r.derived == b.derived && r.unproven == b.unproven
  {
    SumSet(b.outstanding, id, Clamp(amount));
    SumWithout(b.outstanding, id);
  }

  /** All earlier holds survive a reservation exactly when its id holds nothing yet: reusing
      an id in flight silently drops the reservation it had. */
  lemma ReserveKeepsEarlierHolds(b: Books, id: ReqId, amount: real)
    requires b.Sound()
    ensures Reserved(b, id, amount).Accounted() == b.Accounted() + Clamp(amount)
      <==> (id in b.outstanding ==> b.outstanding[id] == 0.0)
  {
    ReserveAccounts(b, id, amount);
  }

  /** A ledger that only watches admits everything. An enforcing one admits a reservation under a new id exactly when the total stays
      within the cap (strictly, if equality is rejected); under a reused id admission is only cautious. */
  lemma AdmissionIsExact(b: Books, p: Policy, id: ReqId, amount: real)
    requires b.Sound()
    ensures p.watchOnly ==> !Refuses(b, p, amount)
    ensures !p.watchOnly && id !in b.outstanding ==>
      (!Refuses(b, p, amount) <==>
        if p.rejectOnEquality then Reserved(b, id, amount).Accounted() < p.hardCap
        else Reserved(b, id, amount).Accounted() <= p.hardCap)
    ensures !p.watchOnly && !Refuses(b, p, amount) ==> Reserved(b, id, amount).Accounted() <= p.hardCap
  {
    ReserveAccounts(b, id, amount);
  }

  /** Settling replaces the hold by the bill; either kind does the same to the total. */
  lemma SettleAccounts(b: Books, id: ReqId, usd: real)
    requires b.Sound()
    ensures SettledActual(b, id, usd).Sound() && SettledDerived(b, id, usd).Sound()
    ensures SettledActual(b, id, usd).Accounted() == b.Accounted() - At(b.outstanding, id) + Clamp(usd)
    ensures SettledDerived(b, id, usd).Accounted() == SettledActual(b, id, usd).Accounted()
    ensures SettledActual(b, id, usd) == b.(actual := b.actual + Clamp(usd), outstanding := b.outstanding - {id})
    ensures SettledDerived(b, id, usd) == b.(derived := b.derived + Clamp(usd), outstanding := b.outstanding - {id})
    ensures Clamp(usd) == if usd > 0.0 then usd else 0.0
  {
    SumWithout(b.outstanding, id);
  }

  /** A settlement keeps the total under the cap exactly when the bill fits the hold it
      releases plus the room left. */
  lemma SettleKeepsCap(b: Books, p: Policy, id: ReqId, usd: real)
    requires b.Sound()
    ensures SettledActual(b, id, usd).Accounted() <= p.hardCap
      <==> Clamp(usd) <= At(b.outstanding, id) + (p.hardCap - b.Accounted())
  {
    SettleAccounts(b, id, usd);
  }

  /** Retaining an unproven hold moves it without changing the total, and the hold is never released. */
  lemma RetainConserves(b: Books, id: ReqId)
    requires b.Sound()
    ensures Retained(b, id).Sound() && Retained(b, id).Accounted() == b.Accounted()
    ensures Retained(b, id).unproven == b.unproven + At(b.outstanding, id)
    ensures Retained(Retained(b, id), id) == Retained(b, id)
  {
    SumWithout(b.outstanding, id);
  }

  // ----- the checkpoint -----

  datatype Binding = Binding(runId: string, modelId: string, profileName: string, hardCap: real)

  /** What reading the checkpoint file can give: nothing parseable, something that is not an
      object, or an object whose `outstanding` may not be one. */
  datatype Document =
    | Unreadable
    | NotAnObject
    | Object(schema: int, binding: Binding, actual: real, derived: real, unproven: real, outstanding: Option<map<ReqId, real>>)

  datatype LoadResult = Loaded(books: Books) | PolicyMismatch(reason: string)

  function Save(b: Books, binding: Binding): Document {
    Object(CHECKPOINT_SCHEMA_VERSION, binding, b.actual, b.derived, b.unproven, Some(b.outstanding))
  }

  function Load(d: Document, binding: Binding): (r: LoadResult)
    ensures r.Loaded? ==> r.books.Sound() && d.Object? && d.binding == binding
  {
    match d
    case Unreadable => PolicyMismatch("checkpoint_invalid")
    case NotAnObject => PolicyMismatch("checkpoint_invalid")
    case Object(schema, found, actual, derived, unproven, outstanding) =>
      if schema != 1 && schema != CHECKPOINT_SCHEMA_VERSION then PolicyMismatch("checkpoint_schema_mismatch")
      else if found != binding then PolicyMismatch("policy_mismatch")
      else if outstanding.None? then PolicyMismatch("checkpoint_invalid")
      else
        Loaded(Books(Clamp(actual), if schema == 1 then 0.0 else Clamp(derived), Clamp(unproven),
          map k | k in outstanding.value :: Clamp(outstanding.value[k])))
  }

  /** A checkpoint loads exactly when it is an object of schema 1 or 2 with this binding and holds that are
      an object. Amounts below zero count as zero, and schema 1 knew no derived total. */
  lemma LoadReads(d: Document, binding: Binding)
    ensures Load(d, binding).Loaded? <==> d.Object? && d.schema in {1, 2} && d.binding == binding && d.outstanding.Some?
    ensures Load(d, binding).Loaded? ==>
      var b := Load(d, binding).books;
      && b.actual == (if d.actual > 0.0 then d.actual else 0.0)
      && b.derived == (if d.schema == 2 && d.derived > 0.0 then d.derived else 0.0)
      && b.unproven == (if d.unproven > 0.0 then d.unproven else 0.0)
      && b.outstanding.Keys == d.outstanding.value.Keys
      && forall k <- b.outstanding :: b.outstanding[k] == if d.outstanding.value[k] > 0.0 then d.outstanding.value[k] else 0.0
    ensures d.Object? && d.schema in {1, 2} && d.binding != binding ==> Load(d, binding) == PolicyMismatch("policy_mismatch")
    ensures d.Object? && d.schema !in {1, 2} ==> Load(d, binding) == PolicyMismatch("checkpoint_schema_mismatch")
    ensures !d.Object? || (d.schema in {1, 2} && d.binding == binding && d.outstanding.None?) ==>
      Load(d, binding) == PolicyMismatch("checkpoint_invalid")
  {
  }

  /** Each amount is saved under its own name. */
  lemma SaveWrites(b: Books, binding: Binding)
    ensures
      var d := Save(b, binding);
      && d.Object? && d.schema == 2 && d.binding == binding && d.outstanding == Some(b.outstanding)
      && d.actual == b.actual && d.derived == b.derived && d.unproven == b.unproven
  {
  }

  /** Reloading restores exactly what was saved when the books were sound and the binding is
      the same, and only then; any other binding is refused. */
  lemma SaveLoadRoundTrip(b: Books, binding: Binding, other: Binding)
    ensures Load(Save(b, binding), other) == Loaded(b) <==> b.Sound() && binding == other
    ensures binding != other ==> Load(Save(b, binding), other) == PolicyMismatch("policy_mismatch")
  {
    var clamped := map k | k in b.outstanding :: Clamp(b.outstanding[k]);
    if b.Sound() {
      assert clamped == b.outstanding;
    } else if clamped == b.outstanding {
      assert forall k <- b.outstanding :: clamped[k] == b.outstanding[k];
    }
  }

  // ----- the class -----

  /** The checkpoint path: the file's content once it exists. Writing it is atomic (tmp file, fsync, replace). */
  class CheckpointFile {
    var content: Option<Document>

    constructor ()
      ensures content == None
    {
      content := None;
    }
  }

  class BudgetLedger {
    const binding: Binding
    const policy: Policy
    const file: CheckpointFile
    var accruedActual: real
    var accruedDerived: real
    var committedUnproven: real
    var outstanding: map<ReqId, real>

    ghost function Current(): Books
      reads this
    {
      Books(accruedActual, accruedDerived, committedUnproven, outstanding)
    }

    ghost predicate Valid()
      reads this
    {
      Current().Sound() && policy.hardCap == binding.hardCap <= ABSOLUTE_MAX_USD
    }

    /** The checkpoint holds exactly the books. After a reload of an older schema it does not,
        until the first operation that writes. */
    ghost predicate Synced()
      reads this, file
    {
      file.content == Some(Save(Current(), binding))
    }

    constructor (binding: Binding, policy: Policy, file: CheckpointFile, books: Books)
      ensures this.binding == binding && this.policy == policy && this.file == file && Current() == books
    {
      this.binding, this.policy, this.file := binding, policy, file;
      accruedActual, accruedDerived, committedUnproven := books.actual, books.derived, books.unproven;
      outstanding := books.outstanding;
    }

    /** BudgetLedger.__init__: resume from the checkpoint when there is one, else write the first. */
    static method Open(runId: string, modelId: string, profileName: string, cap: real, rejectOnEquality: bool,
                       watchOnly: bool, file: CheckpointFile)
      returns (ledger: BudgetLedger?, refusal: string)
      modifies file
      ensures
        var binding := Binding(runId, modelId, profileName, HardCap(cap));
        match old(file.content)
        case None => ledger != null && ledger.Current() == EMPTY
        case Some(d) =>
          match Load(d, binding)
          case PolicyMismatch(reason) => ledger == null && refusal == reason && unchanged(file)
          case Loaded(books) => ledger != null && ledger.Current() == books
      ensures ledger != null ==>
        && fresh(ledger) && ledger.file == file && ledger.Valid()
        && ledger.policy == Policy(HardCap(cap), rejectOnEquality, watchOnly)
        && ledger.binding == Binding(runId, modelId, profileName, HardCap(cap))
        && ledger.policy.hardCap <= cap && ledger.policy.hardCap <= 12.0 && (cap <= 12.0 ==> ledger.policy.hardCap == cap)
      ensures ledger != null && old(file.content).None? ==> ledger.Synced()
    {
      var binding := Binding(runId, modelId, profileName, HardCap(cap));
      var policy := Policy(HardCap(cap), rejectOnEquality, watchOnly);
      ledger, refusal := null, "";
      match file.content {
        case Some(d) =>
          match Load(d, binding) {
            case PolicyMismatch(reason) => refusal := reason;
            case Loaded(books) => ledger := new BudgetLedger(binding, policy, file, books);
          }
        case None =>
          ledger := new BudgetLedger(binding, policy, file, EMPTY);
          ledger.Persist();
      }
    }

    method Persist()
      modifies file
      ensures Synced()
    {
      file.content := Some(Save(Books(accruedActual, accruedDerived, committedUnproven, outstanding), binding));
    }

    /** sum(self._outstanding.values()) */
    method OutstandingTotal() returns (total: real)
      ensures total == SumOf(outstanding)
    {
      total := 0.0;
      var left := outstanding;
      while left.Keys != {}
        invariant total + SumOf(left) == SumOf(outstanding)
        decreases |left|
      {
        var k :| k in left.Keys;
        SumTake(left, k);
        total := total + left[k];
        left := left - {k};
      }
      assert left == map[];
    }

    method Reserve(id: ReqId, amount: real) returns (exceeded: bool)
      requires Valid()
      modifies this`outstanding, file
      ensures Valid() && exceeded == old(Refuses(Current(), policy, amount))
      ensures if exceeded then unchanged(file) else Synced()
      ensures Current() == if exceeded then old(Current()) else Reserved(old(Current()), id, amount)
    {
      ReserveAccounts(Current(), id, amount);
      var reservation := Clamp(amount);
      var held := OutstandingTotal();
      var projected := accruedActual + accruedDerived + committedUnproven + held + reservation;
      var over := if policy.rejectOnEquality then projected >= policy.hardCap else projected > policy.hardCap;
      if over && !policy.watchOnly {
        return true;
      }
      outstanding := outstanding[id := reservation];
      Persist();
      exceeded := false;
    }

    method SettleActual(id: ReqId, usd: real)
      requires Valid()
      modifies this`outstanding, this`accruedActual, file
      ensures Valid() && Synced() && Current() == SettledActual(old(Current()), id, usd)
    {
      SettleAccounts(Current(), id, usd);
      outstanding := outstanding - {id};
      accruedActual := accruedActual + Clamp(usd);
      Persist();
    }

    method SettleDerived(id: ReqId, usd: real)
      requires Valid()
      modifies this`outstanding, this`accruedDerived, file
      ensures Valid() && Synced() && Current() == SettledDerived(old(Current()), id, usd)
    {
      SettleAccounts(Current(), id, usd);
      outstanding := outstanding - {id};
      accruedDerived := accruedDerived + Clamp(usd);
      Persist();
    }

    method RetainUnproven(id: ReqId)
      requires Valid()
      modifies this`outstanding, this`committedUnproven, file
      ensures Valid() && Synced() && Current() == Retained(old(Current()), id)
    {
      RetainConserves(Current(), id);
      var amount := if id in outstanding then outstanding[id] else 0.0;
      outstanding := outstanding - {id};
      committedUnproven := committedUnproven + Clamp(amount);
      Persist();
    }

    method Remaining() returns (usd: real)
      ensures usd == policy.hardCap - Current().Accounted()
    {
      var held := OutstandingTotal();
      usd := policy.hardCap - accruedActual - accruedDerived - committedUnproven - held;
    }
  }
}
