/**
  Memory: what an admission leaves for the leases that are held, and for the
  encoder that still waits.
 */
module AdmissionMemory {
  import opened Wrappers
  import opened Admission
  import opened AdmissionLaws

  /** Budgets of the leases held on a device, among the first `n` rows. */
  function Promised(t: Table, device: nat, n: nat): nat
    requires n <= |t.rows|
  {
    if n == 0 then 0
    else Promised(t, device, n - 1)
         + (if HeldAt(t, n - 1) && t.rows[n - 1].device == device then Budget(t.rows[n - 1]) else 0)
  }

  /** Memory that is really used by the leases competing with row `k`, among the first `n` rows. */
  function Used(rows: seq<Row>, k: nat, usage: nat -> nat, n: nat): nat
    requires k < |rows| && n <= |rows|
  {
    if n == 0 then 0
    else Used(rows, k, usage, n - 1) + (if Competes(rows, k, n - 1) then usage(rows[n - 1].id) else 0)
  }

  /**
    When the sample was taken, free memory, the leases' use and everything else
    made up the device; nothing was attributed to a lease that it did not use.
   */
  predicate Truthful(rows: seq<Row>, k: nat, w: World, usage: nat -> nat, total: int, other: int)
    requires k < |rows| && w.sample.Some?
  {
    && w.sample.value.available + Used(rows, k, usage, |rows|) + other <= total
    && forall i :: 0 <= i < |rows| && Competes(rows, k, i) ==> ObservedBy(rows[i], w) <= usage(rows[i].id)
  }

  /** The request is granted just now, shared, and on the strength of a driver sample. */
  ghost predicate CheckedGrant(rows: seq<Row>, q: Request, w: World) {
    && Requested(rows, q, w).Ok? && q.mode == Shared && q.checkMemory && w.sample.Some?
    && var (entered, k) := Enter(rows, q, w).value;
       entered[k].status == Waiting && Admits(entered, k, q, w)
  }

  lemma CheckedGrantShape(rows: seq<Row>, q: Request, w: World)
    requires CheckedGrant(rows, q, w)
    ensures var (entered, k) := Enter(rows, q, w).value;
            var (after, granted) := Requested(rows, q, w).value;
            && Eligible(entered, k, q) && Fits(entered, k, q, w)
            && |after| == |entered| && granted == Some(entered[k].id)
            && after[k] == entered[k].(heartbeat := w.now, status := Active)
            && forall i :: 0 <= i < |after| && i != k ==>
                 after[i] == if Competes(entered, k, i) then Measured(entered[i], w) else entered[i]
  {
  }

  /** After the measurement every competing lease's budget covers what it was seen to use. */
  lemma BudgetCoversObserved(r: Row, w: World)
    requires w.sample.Some?
    ensures Budget(Measured(r, w)) >= ObservedBy(r, w)
    ensures ObservedBy(Measured(r, w), w) == ObservedBy(r, w)
    ensures Budget(Measured(Measured(r, w), w)) == Budget(Measured(r, w))
  {
  }

  /** The leases that are held after a grant are the competing ones and the new one. */
  lemma HeldAfterGrant(t: Table, op: Operation, i: nat)
    requires Inv(t) && op.Ask? && FreshId(t, op) && CheckedGrant(t.rows, op.request, op.world)
    requires i < |Apply(t, op).rows|
    ensures var u := Apply(t, op);
            var (entered, k) := Enter(t.rows, op.request, op.world).value;
            HeldAt(u, i) && u.rows[i].device == op.request.device ==> i == k || Competes(entered, k, i)
  {
    AskKeepsInv(t, op);
    CheckedGrantShape(t.rows, op.request, op.world);
    EnterShape(t.rows, op.request, op.world);
  }

  /** `u` is the table in which row `k` of `entered` was just granted by a checked admission. */
  predicate Granted(entered: seq<Row>, k: nat, u: Table, w: World)
    requires k < |entered| && w.sample.Some?
  {
    && |u.rows| == |entered|
    && (forall i :: 0 <= i < |entered| ==> u.rows[i].device == entered[i].device)
    && (forall i :: 0 <= i < |entered| ==> HeldAt(u, i) && entered[i].device == entered[k].device ==>
          i == k || (Competes(entered, k, i) && u.rows[i] == Measured(entered[i], w)))
    && Budget(u.rows[k]) == Budget(entered[k])
  }

  lemma {:induction false} PromisedIsBounded(entered: seq<Row>, k: nat, u: Table, w: World, usage: nat -> nat, n: nat)
    requires k < |entered| && n <= |entered| && w.sample.Some? && Granted(entered, k, u, w)
    requires forall i :: 0 <= i < |entered| && Competes(entered, k, i) ==> ObservedBy(entered[i], w) <= usage(entered[i].id)
    ensures Promised(u, entered[k].device, n)
            <= Pending(entered, k, w, n) + Used(entered, k, usage, n) + (if k < n then Budget(entered[k]) else 0)
  {
    if n > 0 {
      PromisedIsBounded(entered, k, u, w, usage, n - 1);
      BudgetCoversObserved(entered[n - 1], w);
    }
  }

  lemma GrantIsChecked(t: Table, op: Operation)
    requires Inv(t) && op.Ask? && FreshId(t, op) && CheckedGrant(t.rows, op.request, op.world)
    ensures var (entered, k) := Enter(t.rows, op.request, op.world).value;
            && Granted(entered, k, Apply(t, op), op.world) && Fits(entered, k, op.request, op.world)
            && entered[k].device == op.request.device
  {
    CheckedGrantShape(t.rows, op.request, op.world);
    EnterDevice(t.rows, op.request, op.world);
    var u := Apply(t, op);
    forall i | 0 <= i < |u.rows| && HeldAt(u, i) && u.rows[i].device == op.request.device
      ensures var (entered, k) := Enter(t.rows, op.request, op.world).value; i == k || Competes(entered, k, i)
    {
      HeldAfterGrant(t, op, i);
    }
  }

  lemma EnterDevice(rows: seq<Row>, q: Request, w: World)
    requires Enter(rows, q, w).Ok?
    ensures var (entered, k) := Enter(rows, q, w).value; entered[k].device == q.device
  {
    EnterShape(rows, q, w);
  }

  /**
    Memory is never promised twice: right after a checked admission the budgets
    of all held leases and the reserve fit in the memory that is not used by
    anything else, however old the sample is, as long as the rest did not grow.
   */
  lemma NeverPromisedTwice(ops: seq<Operation>, op: Operation, usage: nat -> nat, total: int, other: int)
    requires History(ops + [op]) && op.Ask? && CheckedGrant(Replay(ops).rows, op.request, op.world)
    requires var (entered, k) := Enter(Replay(ops).rows, op.request, op.world).value;
             Truthful(entered, k, op.world, usage, total, other)
    ensures var u := Replay(ops + [op]);
            Promised(u, op.request.device, |u.rows|) + op.request.reserve <= total - other
  {
    HistorySplits(ops, op);
    HistoryKeepsInv(ops);
    GrantIsChecked(Replay(ops), op);
    var (entered, k) := Enter(Replay(ops).rows, op.request, op.world).value;
    PromisedIsBounded(entered, k, Replay(ops + [op]), op.world, usage, |entered|);
  }

  // ----------------------------------------------------- the waiting encoder

  /** What a row may still claim beyond what it was seen to use. */
  function Claim(r: Row, w: World): nat
    requires w.sample.Some?
  {
    Max(0, Budget(Measured(r, w)) - ObservedBy(r, w))
  }

  /** After the grant the encoder competes with the same rows, and with the one just admitted. */
  lemma {:induction false} PendingOfEncoder(entered: seq<Row>, k: nat, after: seq<Row>, e: nat, w: World, n: nat)
    requires k < |entered| == |after| && e < |entered| && n <= |after| && w.sample.Some? && e != k
    requires entered[e].device == entered[k].device && entered[e].status == Waiting
    requires after[k] == entered[k].(heartbeat := w.now, status := Active)
    requires forall i :: 0 <= i < |after| && i != k ==>
               after[i] == if Competes(entered, k, i) then Measured(entered[i], w) else entered[i]
    ensures Pending(after, e, w, n) == Pending(entered, k, w, n) + (if k < n then Claim(entered[k], w) else 0)
  {
    if n > 0 {
      PendingOfEncoder(entered, k, after, e, w, n - 1);
      var i := n - 1;
      if i == k {
        assert ObservedBy(after[k], w) == ObservedBy(entered[k], w);
      } else {
        BudgetCoversObserved(entered[i], w);
        assert Competes(after, e, i) <==> Competes(entered, k, i);
      }
    }
  }

  lemma {:induction false} NoEncoderCounted(rows: seq<Row>, e: nat, n: nat)
    requires e < |rows| && n <= |rows|
    requires forall i :: 0 <= i < |rows| && Competes(rows, e, i) ==> WorkloadOf(rows[i]) != Compression
    ensures SameType(rows, e, n, Compression) == 0
  {
    if n > 0 {
      NoEncoderCounted(rows, e, n - 1);
    }
  }

  /** An extract or predict request is admitted by a sample while the encoder `e` waits ahead of it. */
  ghost predicate PassesEncoder(rows: seq<Row>, q: Request, w: World) {
    && CheckedGrant(rows, q, w) && q.workload != Compression
    && var (entered, k) := Enter(rows, q, w).value;
       OldestEncoder(entered, k, |entered|).Some? && !EncoderActive(entered, k)
  }

  /** Nothing but memory stands between the encoder and its lease. */
  lemma EncoderIsEligible(rows: seq<Row>, q: Request, w: World, own: Request)
    requires PassesEncoder(rows, q, w) && own.mode == Shared && own.workload == Compression
    ensures var (entered, k) := Enter(rows, q, w).value;
            var e := OldestEncoder(entered, k, |entered|).value;
            var after := Requested(rows, q, w).value.0;
            e < |after| && after[e] == entered[e] && Eligible(after, e, own)
  {
    CheckedGrantShape(rows, q, w);
    EnterShape(rows, q, w);
    var (entered, k) := Enter(rows, q, w).value;
    var e := OldestEncoder(entered, k, |entered|).value;
    var after := Requested(rows, q, w).value.0;
    forall i | 0 <= i < |after| && Competes(after, e, i)
      ensures after[i].status == Active && after[i].mode == Shared && WorkloadOf(after[i]) != Compression
    {
      if i != k {
        assert Competes(entered, k, i);
      } else {
        GrantedWorkload(rows, q, w);
      }
    }
    forall i | 0 <= i < |after| && Ahead(after, e, i) ensures after[i].mode == Shared {
      assert i != k && Ahead(entered, k, i);
    }
    NoEncoderCounted(after, e, |after|);
  }

  /** Exactly when that sample would admit the encoder next. */
  lemma EncoderAdmittedIff(rows: seq<Row>, q: Request, w: World, own: Request)
    requires PassesEncoder(rows, q, w) && own.mode == Shared && own.workload == Compression && own.checkMemory
    ensures var (entered, k) := Enter(rows, q, w).value;
            var e := OldestEncoder(entered, k, |entered|).value;
            Admits(Requested(rows, q, w).value.0, e, own, w) <==>
              w.sample.value.available - Pending(entered, k, w, |entered|) - Claim(entered[k], w)
              >= Budget(entered[e]) + own.reserve
  {
    CheckedGrantShape(rows, q, w);
    EnterShape(rows, q, w);
    EncoderIsEligible(rows, q, w, own);
    var (entered, k) := Enter(rows, q, w).value;
    var e := OldestEncoder(entered, k, |entered|).value;
    PendingOfEncoder(entered, k, Requested(rows, q, w).value.0, e, w, |entered|);
  }

  /**
    So a waiting encoder is not starved: it would be admitted next by the same
    sample, unless the caller just admitted was seen to use so much that its
    raised budget leaves more to claim than the budget it was admitted with.
   */
  lemma EncoderStillFits(rows: seq<Row>, q: Request, w: World, own: Request)
    requires PassesEncoder(rows, q, w)
    requires var (entered, k) := Enter(rows, q, w).value; Claim(entered[k], w) <= Budget(entered[k])
    requires own.mode == Shared && own.workload == Compression && own.reserve <= q.reserve
    ensures var (entered, k) := Enter(rows, q, w).value;
            var e := OldestEncoder(entered, k, |entered|).value;
            Admits(Requested(rows, q, w).value.0, e, own, w)
  {
    CheckedGrantShape(rows, q, w);
    EncoderIsEligible(rows, q, w, own);
    if own.checkMemory {
      EncoderAdmittedIff(rows, q, w, own);
    }
  }

  /** A shared request leaves its workload in its row. */
  lemma GrantedWorkload(rows: seq<Row>, q: Request, w: World)
    requires Enter(rows, q, w).Ok? && q.mode == Shared
    ensures var (entered, k) := Enter(rows, q, w).value;
            entered[k].workload == Some(q.workload) && entered[k].budget.Some? && entered[k].budget.value >= q.budget > 0
  {
  }
}
