/** The order in which waiting requests are served, and why they cannot block each other forever. */
module AdmissionQueue {
  import opened Wrappers
  import opened Admission
  import opened AdmissionLaws

  /** Row `h` is the first of those waiting for its device. */
  predicate IsHead(rows: seq<Row>, h: nat)
    requires h < |rows|
  {
    rows[h].status == Waiting && forall i :: 0 <= i < |rows| ==> !Ahead(rows, h, i)
  }

  predicate IsIdle(rows: seq<Row>, device: nat) {
    forall i :: 0 <= i < |rows| && rows[i].device == device ==> rows[i].status !in {Active, Conflict}
  }

  /** Among the first `n` rows nobody waits ahead of `h`, and `h` is no later than `w`. */
  lemma {:induction false} FirstAmong(rows: seq<Row>, device: nat, w: nat, n: nat) returns (h: nat)
    requires w < |rows| && rows[w].device == device && rows[w].status == Waiting && n <= |rows|
    ensures h < |rows| && rows[h].device == device && rows[h].status == Waiting
    ensures forall i :: 0 <= i < n ==> !Ahead(rows, h, i)
  {
    if n == 0 {
      h := w;
    } else {
      h := FirstAmong(rows, device, w, n - 1);
      if Ahead(rows, h, n - 1) {
        var first := h;
        h := n - 1;
        forall i | 0 <= i < n ensures !Ahead(rows, h, i) {
          assert i < n - 1 ==> !Ahead(rows, first, i);
        }
      }
    }
  }

  /** Where anyone waits, someone is first. */
  lemma HeadExists(rows: seq<Row>, device: nat, w: nat) returns (h: nat)
    requires w < |rows| && rows[w].device == device && rows[w].status == Waiting
    ensures h < |rows| && rows[h].device == device && IsHead(rows, h)
  {
    h := FirstAmong(rows, device, w, |rows|);
  }

  /**
    A newly granted shared lease leaves no exclusive request waiting ahead of
    it; a newly granted exclusive one was first and found nothing running.
   */
  lemma GrantRespectsQueue(rows: seq<Row>, q: Request, w: World, i: nat)
    requires Requested(rows, q, w).Ok? && Requested(rows, q, w).value.1.Some?
    requires var (entered, k) := Enter(rows, q, w).value;
             entered[k].status != Active && i < |entered| && i != k && entered[i].device == q.device
    ensures var (_, k) := Enter(rows, q, w).value;
            var (after, _) := Requested(rows, q, w).value;
            && k < |after| && i < |after|
            && (after[i].status == Waiting && after[i].mode != Shared ==> !Before(after[i], after[k]))
            && (after[k].mode != Shared ==>
                  after[i].status == Released || (after[i].status == Waiting && !Before(after[i], after[k])))
  {
    RequestShape(rows, q, w);
    EnterShape(rows, q, w);
    RequestKeepsAge(rows, q, w);
    var (entered, k) := Enter(rows, q, w).value;
    var (after, _) := Requested(rows, q, w).value;
    assert SameLease(entered[i], after[i]) && SameLease(entered[k], after[k]);
    assert !(after[i].status == Waiting && Before(after[i], after[k])) || Ahead(entered, k, i);
    assert after[i].status !in {Active, Conflict} || Competes(entered, k, i);
  }

  lemma RequestKeepsAge(rows: seq<Row>, q: Request, w: World)
    requires Requested(rows, q, w).Ok?
    ensures var (entered, k) := Enter(rows, q, w).value;
            var (after, _) := Requested(rows, q, w).value;
            |after| == |entered| && forall i :: 0 <= i < |after| ==> after[i].created == entered[i].created
  {
  }

  /** The caller's own row stays what the sweep left, but for budget and workload, if it was waiting. */
  lemma WaitingRowEnters(rows: seq<Row>, h: nat, q: Request, w: World)
    requires Unique(rows) && h < |rows| && Swept(rows[h], q.device, w).status == Waiting
    requires q.owner == rows[h].owner && q.mode == rows[h].mode && q.device == rows[h].device
    requires q.mode == Shared ==> q.budget > 0 && q.reserve > 0
    ensures var swept := Sweep(rows, q.device, w);
            && Enter(rows, q, w).Ok?
            && Enter(rows, q, w).value ==
               (if q.mode == Shared then swept[h := Budgeted(swept[h], q)] else swept, h)
  {
    var swept := Sweep(rows, q.device, w);
    assert swept[h].owner == q.owner;
    assert Owned(swept, q.owner);
    var k := Find(swept, q.owner);
    assert rows[k].owner == q.owner;
    assert k == h;
    assert swept[k := Entered(swept[k], q, w.now)] == swept;
  }

  lemma {:induction false} NothingPending(rows: seq<Row>, k: nat, w: World, n: nat)
    requires k < |rows| && n <= |rows| && w.sample.Some?
    requires forall i :: 0 <= i < |rows| ==> !Competes(rows, k, i)
    ensures Pending(rows, k, w, n) == 0
  {
    if n > 0 {
      NothingPending(rows, k, w, n - 1);
    }
  }

  lemma {:induction false} NothingCounted(rows: seq<Row>, k: nat, workload: Workload, n: nat)
    requires k < |rows| && n <= |rows|
    requires forall i :: 0 <= i < |rows| ==> !Competes(rows, k, i)
    ensures SameType(rows, k, n, workload) == 0
  {
    if n > 0 {
      NothingCounted(rows, k, workload, n - 1);
    }
  }

  /** What a request needs when nothing runs and nobody is ahead. */
  predicate Affordable(budget: nat, q: Request, w: World) {
    q.mode == Shared ==>
      Limit(q) >= 1 && (q.checkMemory ==> w.sample.Some? && w.sample.value.available >= budget + q.reserve)
  }

  lemma HeadAdmitsIff(rows: seq<Row>, h: nat, q: Request, w: World)
    requires h < |rows| && IsHead(rows, h)
    requires forall i :: 0 <= i < |rows| ==> !Competes(rows, h, i)
    ensures Admits(rows, h, q, w) <==> Affordable(Budget(rows[h]), q, w)
  {
    NothingCounted(rows, h, q.workload, |rows|);
    if w.sample.Some? {
      NothingPending(rows, h, w, |rows|);
      assert Earmark(rows, h, q) == 0;
    }
  }

  /**
    The first waiter of an idle device is granted its lease exactly when it can
    be afforded, so the waiters never block each other.
   */
  lemma HeadOfIdleDeviceIsGrantedIff(rows: seq<Row>, h: nat, q: Request, w: World)
    requires Unique(rows) && h < |rows|
    requires q.owner == rows[h].owner && q.mode == rows[h].mode && q.device == rows[h].device
    requires q.mode == Shared ==> q.budget > 0 && q.reserve > 0
    requires IsHead(Sweep(rows, q.device, w), h) && IsIdle(Sweep(rows, q.device, w), q.device)
    ensures Requested(rows, q, w).Ok?
    ensures var had: nat := if rows[h].budget.Some? then rows[h].budget.value else 0;
            Requested(rows, q, w).value.1 ==
            if Affordable(Max(had, Max(q.budget, q.floor)), q, w) then Some(rows[h].id) else None
  {
    var swept := Sweep(rows, q.device, w);
    assert swept[h] == Swept(rows[h], q.device, w);
    WaitingRowEnters(rows, h, q, w);
    var (entered, k) := Enter(rows, q, w).value;
    forall i | 0 <= i < |entered| ensures !Competes(entered, h, i) && !Ahead(entered, h, i) {
      assert !Ahead(swept, h, i);
    }
    HeadAdmitsIff(entered, h, q, w);
  }
}
