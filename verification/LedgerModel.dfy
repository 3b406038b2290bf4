/**
 The budget ledger's critical sections as functions on values (internal/harvester/budget.go).
 Each function is what one stretch of code under the ledger's mutex does; a KV or sink call
 lies between two of them. The class in BudgetLedger.dfy is proved to compute these functions,
 and LedgerWorld.dfy interleaves them.
 */
module LedgerModel {
  import opened Cpkv
  import opened Wrappers

  datatype LedgerRow = LedgerRow(
    budget: int,
    used: int,
    month: string,
    exceeded: bool,
    baselineLoaded: bool,
    toDelete: bool,
    version: nat)

  datatype Ledger = Ledger(entries: map<string, LedgerRow>, dirty: set<string>, month: string)

  const EMPTY_LEDGER := Ledger(map[], {}, "")

  /** The KEYS bucket as the watcher delivers it; None stands for a value that does not decode. */
  type KeysSnapshot = map<string, Option<KeyEntry>>

  /** What a flush remembers across its unlocked KV call. */
  datatype Flight = Flight(id: string, version: nat, toDelete: bool, entry: BudgetEntry)

  function EntryOf(row: LedgerRow): BudgetEntry {
    BudgetEntry(row.used, row.budget, row.exceeded, row.month)
  }

  predicate Live(l: Ledger, id: string) {
    id in l.entries && !l.entries[id].toDelete
  }

  // ---------- AddUsage ----------

  predicate Accepts(l: Ledger, id: string) {
    id != "" && Live(l, id)
  }

  function AddUsage(l: Ledger, id: string, tokens: int): Ledger {
    if Accepts(l, id) then
      var row := l.entries[id];
      var used := row.used + tokens;
      l.(entries := l.entries[id := row.(used := used, exceeded := used >= row.budget, version := row.version + 1)],
         dirty := l.dirty + {id})
    else l
  }

  // ---------- KEYS snapshots ----------

  predicate Contributes(snap: KeysSnapshot, hash: string, id: string) {
    hash in snap && snap[hash].Some? && snap[hash].value.id == id && id != ""
  }

  /** f maps every non-empty id of the snapshot to the largest budget any of its entries carries. */
  ghost predicate IsFold(snap: KeysSnapshot, f: map<string, int>) {
    && (forall hash, id :: Contributes(snap, hash, id) ==>
          id in f && snap[hash].value.monthlyTokenBudget <= f[id])
    && (forall id :: id in f ==>
          exists hash :: Contributes(snap, hash, id) && snap[hash].value.monthlyTokenBudget == f[id])
  }

  function FoldOne(f: map<string, int>, entry: Option<KeyEntry>): map<string, int> {
    if entry.None? || entry.value.id == "" then f
    else
      var id, budget := entry.value.id, entry.value.monthlyTokenBudget;
      if id !in f || budget > f[id] then f[id := budget] else f
  }

  /** A snapshot's fold; IsFoldUnique shows that the order of the picks does not matter. */
  ghost function Fold(snap: KeysSnapshot): (f: map<string, int>)
    ensures IsFold(snap, f)
  {
    if snap == map[] then map[]
    else
      var hash :| hash in snap;
      var rest := snap - {hash};
      FoldStep(rest, hash, snap[hash], Fold(rest));
      assert rest[hash := snap[hash]] == snap;
      FoldOne(Fold(rest), snap[hash])
  }

  /** Folding one more entry into a fold gives the fold of the larger snapshot. */
  lemma FoldStep(snap: KeysSnapshot, hash: string, entry: Option<KeyEntry>, f: map<string, int>)
    requires hash !in snap && IsFold(snap, f)
    ensures IsFold(snap[hash := entry], FoldOne(f, entry))
  {
    var snap', f' := snap[hash := entry], FoldOne(f, entry);
    forall h, id | Contributes(snap', h, id)
      ensures id in f' && snap'[h].value.monthlyTokenBudget <= f'[id]
    {
      if h != hash {
        assert Contributes(snap, h, id);
      }
    }
    forall id | id in f'
      ensures exists h :: Contributes(snap', h, id) && snap'[h].value.monthlyTokenBudget == f'[id]
    {
      if id in f && f'[id] == f[id] {
        var h :| Contributes(snap, h, id) && snap[h].value.monthlyTokenBudget == f[id];
        assert Contributes(snap', h, id);
      } else {
        assert Contributes(snap', hash, id);
      }
    }
  }

  lemma {:induction false} IsFoldUnique(snap: KeysSnapshot, f: map<string, int>, g: map<string, int>)
    requires IsFold(snap, f) && IsFold(snap, g)
    ensures f == g
  {
    forall id | id in f ensures id in g && f[id] <= g[id] {
      var h :| Contributes(snap, h, id) && snap[h].value.monthlyTokenBudget == f[id];
    }
    forall id | id in g ensures id in f && g[id] <= f[id] {
      var h :| Contributes(snap, h, id) && snap[h].value.monthlyTokenBudget == g[id];
    }
  }

  /** The budget a snapshot's fold asks for; absent and zero mean the same. */
  function Want(folded: map<string, int>, id: string): int {
    if id in folded then folded[id] else 0
  }

  function NewRow(budget: int, month: string): LedgerRow {
    LedgerRow(budget, 0, month, false, false, false, 0)
  }

  function ReconcileRow(row: LedgerRow, want: int): LedgerRow {
    if want <= 0 then
      if row.toDelete then row else row.(toDelete := true, version := row.version + 1)
    else if row.toDelete || row.budget != want then
      row.(toDelete := false,
           budget := want,
           exceeded := if row.budget != want then row.used >= want else row.exceeded,
           version := row.version + 1)
    else row
  }

  function NewIds(l: Ledger, folded: map<string, int>): set<string> {
    set id | id in folded && folded[id] > 0 && id !in l.entries
  }

  function Touched(l: Ledger, folded: map<string, int>): set<string> {
    set id | id in l.entries && ReconcileRow(l.entries[id], Want(folded, id)) != l.entries[id]
  }

  /** One KEYS snapshot applied; now is the clock's month, read only for the very first row. */
  function Reconcile(l: Ledger, folded: map<string, int>, now: string): Ledger {
    var added := NewIds(l, folded);
    var month := if added != {} && l.month == "" then now else l.month;
    Ledger(
      map id | id in l.entries.Keys + added ::
        if id in l.entries then ReconcileRow(l.entries[id], Want(folded, id)) else NewRow(Want(folded, id), month),
      l.dirty + Touched(l, folded),
      month)
  }

  /** The snapshot's fold applied for one id only. */
  function ReconcileOne(l: Ledger, id: string, want: int, now: string): Ledger {
    if id in l.entries then
      var row := ReconcileRow(l.entries[id], want);
      l.(entries := l.entries[id := row], dirty := if row != l.entries[id] then l.dirty + {id} else l.dirty)
    else if want <= 0 then l
    else
      var month := if l.month == "" then now else l.month;
      l.(entries := l.entries[id := NewRow(want, month)], month := month)
  }

  // ---------- Baselines ----------

  predicate LandChanges(row: LedgerRow, used: int) {
    row.used != used || !row.baselineLoaded
  }

  function LandRow(row: LedgerRow, used: int): LedgerRow {
    row.(used := used,
         exceeded := used >= row.budget,
         baselineLoaded := true,
         version := if LandChanges(row, used) then row.version + 1 else row.version)
  }

  /** The part of loadBaseline after the sink answered; force is forceDirty. */
  function Land(l: Ledger, id: string, month: string, used: int, force: bool): Ledger {
    if !Live(l, id) || l.entries[id].month != month then l
    else
      l.(entries := l.entries[id := LandRow(l.entries[id], used)],
         dirty := if LandChanges(l.entries[id], used) || force then l.dirty + {id} else l.dirty)
  }

  // ---------- Month rollover ----------

  function RollRow(row: LedgerRow, newMonth: string): LedgerRow {
    if row.toDelete then row
    else row.(month := newMonth, baselineLoaded := false, version := row.version + 1)
  }

  function Rollover(l: Ledger, newMonth: string): Ledger {
    if l.month == "" || l.month == newMonth then l.(month := newMonth)
    else l.(month := newMonth, entries := map id | id in l.entries :: RollRow(l.entries[id], newMonth))
  }

  // ---------- flushOne, before and after its KV call ----------

  /** The first locked stretch of flushOne: a flight if a KV call follows, else nothing. */
  function FlushBegin(l: Ledger, id: string): (Ledger, Option<Flight>) {
    if id !in l.entries then (l.(dirty := l.dirty - {id}), None)
    else
      var row := l.entries[id];
      var toDelete := row.toDelete || row.budget <= 0;
      if !toDelete && !row.baselineLoaded then (l, None)
      else (l, Some(Flight(id, row.version, toDelete, EntryOf(row))))
  }

  /** The second locked stretch; ok says that the KV call reported success. */
  function FlushEnd(l: Ledger, f: Flight, ok: bool): Ledger {
    if !ok || f.id !in l.entries || l.entries[f.id].version != f.version then l
    else if !f.toDelete then l.(dirty := l.dirty - {f.id})
    else if !l.entries[f.id].toDelete then l
    else l.(entries := l.entries - {f.id}, dirty := l.dirty - {f.id})
  }

  /** The bucket write a flight performs when its KV call takes effect. */
  function KvEffect(budgets: map<string, BudgetEntry>, f: Flight): map<string, BudgetEntry> {
    if f.toDelete then budgets - {f.id} else budgets[f.id := f.entry]
  }

  // ---------- Whole passes, with nothing else running ----------

  predicate Deletes(row: LedgerRow) {
    row.toDelete || row.budget <= 0
  }

  predicate Publishes(row: LedgerRow) {
    !Deletes(row) && row.baselineLoaded
  }

  /** The ids a flush pass over ids takes out of the ledger. */
  predicate Removes(l: Ledger, ids: set<string>, kv: string -> KvOutcome, id: string) {
    id in ids && id in l.entries && l.entries[id].toDelete && kv(id).Success?
  }

  /** The ids a flush pass over ids leaves with nothing to publish. */
  predicate Cleans(l: Ledger, ids: set<string>, kv: string -> KvOutcome, id: string) {
    id in ids && (id !in l.entries || Removes(l, ids, kv, id) || (Publishes(l.entries[id]) && kv(id).Success?))
  }

  /** flushOne over ids in any order. */
  function FlushPass(l: Ledger, ids: set<string>, kv: string -> KvOutcome): Ledger {
    l.(entries := map id | id in l.entries && !Removes(l, ids, kv, id) :: l.entries[id],
       dirty := set id | id in l.dirty && !Cleans(l, ids, kv, id))
  }

  /** BUDGETS after flushOne over ids in any order. */
  function FlushPassBudgets(l: Ledger, ids: set<string>, kv: string -> KvOutcome, budgets: map<string, BudgetEntry>)
    : map<string, BudgetEntry>
  {
    var written := set id | id in ids && id in l.entries && !kv(id).FailedLost?;
    map id | id in budgets.Keys + written &&
             (id in written ==> !Deletes(l.entries[id])) &&
             (id !in budgets ==> Publishes(l.entries[id])) ::
      if id in written && Publishes(l.entries[id]) then EntryOf(l.entries[id]) else budgets[id]
  }

  /** A sink's MonthToDate: None is a failed call. */
  type MonthToDate = (string, string) -> Option<int>

  predicate LoadSucceeds(l: Ledger, sink: MonthToDate, id: string) {
    Live(l, id) && sink(id, l.entries[id].month).Some?
  }

  /** loadBaselines over ids. */
  function LoadPass(l: Ledger, ids: set<string>, sink: MonthToDate, force: bool): Ledger {
    l.(entries := map id | id in l.entries ::
         if id in ids && LoadSucceeds(l, sink, id)
         then LandRow(l.entries[id], sink(id, l.entries[id].month).value)
         else l.entries[id],
       dirty := l.dirty + set id | id in ids && LoadSucceeds(l, sink, id) &&
                (force || LandChanges(l.entries[id], sink(id, l.entries[id].month).value)))
  }

  function Baselined(l: Ledger): set<string> {
    set id | id in l.entries && !l.entries[id].toDelete && l.entries[id].baselineLoaded
  }

  function AwaitingBaseline(l: Ledger): set<string> {
    set id | id in l.entries && !l.entries[id].toDelete && !l.entries[id].baselineLoaded
  }

  /** rebaselineAll with no interference. */
  function RebaselinePass(l: Ledger, sink: MonthToDate): Ledger {
    LoadPass(l, Baselined(l), sink, false)
  }

  /** flushTick with no interference: the flush pass comes first. */
  function TickPass(l: Ledger, sink: MonthToDate, kv: string -> KvOutcome): Ledger {
    LoadPass(FlushPass(l, l.dirty, kv), AwaitingBaseline(l), sink, true)
  }
}
