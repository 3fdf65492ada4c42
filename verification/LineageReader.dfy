/**
  Writers of the operation log in concurrent transactions, and a reader that
  remembers the largest identifier it has read.
 */
module LineageReader {
  import opened Wrappers
  import opened Lineage

  datatype Row = Row(id: nat, event: Event)

  /** `lock` is the transaction that may allocate; other readers do not matter to this one. */
  datatype State = State(
    committed: seq<Row>, pending: map<nat, seq<Row>>, lock: Option<nat>, nextId: nat, cursor: nat, seen: seq<Row>)

  const START := State([], map[], None, 1, 0, [])

  function Events(rows: seq<Row>): (log: seq<Event>)
    ensures |log| == |rows|
    ensures forall i :: 0 <= i < |log| ==> log[i] == rows[i].event
  {
    seq(|rows|, i requires 0 <= i < |rows| => rows[i].event)
  }

  function Own(s: State, tx: nat): seq<Row> {
    if tx in s.pending then s.pending[tx] else []
  }

  /** The row with the smallest identifier above `after`. */
  function NextAfter(rows: seq<Row>, after: nat): (next: Option<Row>)
    ensures next == None ==> forall r :: r in rows ==> r.id <= after
    ensures next.Some? ==> next.value in rows && next.value.id > after
    ensures next.Some? ==> forall r :: r in rows && r.id > after ==> next.value.id <= r.id
  {
    if rows == [] then None
    else
      var rest := NextAfter(rows[1..], after);
      assert forall r :: r in rows ==> r == rows[0] || r in rows[1..];
      if rows[0].id > after && (rest == None || rows[0].id <= rest.value.id) then Some(rows[0]) else rest
  }

  /** Up to `limit` rows above the cursor, in the order of their identifiers. */
  function ReadEvents(rows: seq<Row>, after: nat, limit: nat): (batch: seq<Row>)
    ensures |batch| <= limit
    decreases limit
  {
    if limit == 0 then []
    else
      match NextAfter(rows, after)
      case None => []
      case Some(row) => [row] + ReadEvents(rows, row.id, limit - 1)
  }

  // ------------------------------------------------------------------- steps

  /** With `locked`, allocating an identifier needs the lock, which is kept to the end of the transaction. */
  ghost predicate AppendStep(s: State, t: State, locked: bool) {
    exists tx: nat, v: Event :: AppendAs(s, t, tx, v, locked)
  }

  predicate AppendAs(s: State, t: State, tx: nat, v: Event, locked: bool) {
    && (!locked || s.lock == None || s.lock == Some(tx))
    && var taken := if locked then Some(tx) else None;
       match Append(Events(s.committed + Own(s, tx)), v)
       case Err(_) => t == s.(lock := taken)
       case Ok(log) =>
         if |log| == |s.committed + Own(s, tx)| then t == s.(lock := taken)
         else t == s.(lock := taken, pending := s.pending[tx := Own(s, tx) + [Row(s.nextId, v)]], nextId := s.nextId + 1)
  }

  ghost predicate CommitStep(s: State, t: State) {
    exists tx: nat :: CommitAs(s, t, tx)
  }

  predicate CommitAs(s: State, t: State, tx: nat) {
    t == s.(committed := s.committed + Own(s, tx), pending := s.pending - {tx},
            lock := if s.lock == Some(tx) then None else s.lock)
  }

  ghost predicate RollbackStep(s: State, t: State) {
    exists tx: nat :: RollbackAs(s, t, tx)
  }

  predicate RollbackAs(s: State, t: State, tx: nat) {
    t == s.(pending := s.pending - {tx}, lock := if s.lock == Some(tx) then None else s.lock)
  }

  /** Identifiers may be skipped; they never come back. */
  ghost predicate SkipStep(s: State, t: State) {
    exists n: nat :: n > s.nextId && t == s.(nextId := n)
  }

  ghost predicate ReadStep(s: State, t: State) {
    exists limit: nat :: ReadAs(s, t, limit)
  }

  predicate ReadAs(s: State, t: State, limit: nat) {
    var batch := ReadEvents(s.committed, s.cursor, limit);
    t == if batch == [] then s else s.(cursor := batch[|batch| - 1].id, seen := s.seen + batch)
  }

  ghost predicate Step(s: State, t: State, locked: bool) {
    AppendStep(s, t, locked) || CommitStep(s, t) || RollbackStep(s, t) || SkipStep(s, t) || ReadStep(s, t)
  }

  ghost predicate Stepped(run: seq<State>, i: nat, locked: bool)
    requires i + 1 < |run|
  {
    Step(run[i], run[i + 1], locked)
  }

  ghost predicate Run(run: seq<State>, locked: bool) {
    run != [] && run[0] == START && forall i :: 0 <= i < |run| - 1 ==> Stepped(run, i, locked)
  }

  // --------------------------------------------------------------- invariant

  predicate Increasing(rows: seq<Row>, bound: nat) {
    && (forall i, j :: 0 <= i < j < |rows| ==> rows[i].id < rows[j].id)
    && (forall i :: 0 <= i < |rows| ==> 0 < rows[i].id < bound)
  }

  /** What the transaction that holds the lock would leave. */
  function Tentative(s: State): seq<Row> {
    if s.lock.Some? then s.committed + Own(s, s.lock.value) else s.committed
  }

  function Last(rows: seq<Row>): nat {
    if rows == [] then 0 else rows[|rows| - 1].id
  }

  predicate Ordered(s: State) {
    && (forall tx :: tx in s.pending ==> s.lock == Some(tx))
    && Increasing(Tentative(s), s.nextId)
    && s.seen <= s.committed && s.cursor == Last(s.seen) && 0 < s.nextId
  }

  predicate Sound(s: State) {
    Chained(Events(s.committed)) && Chained(Events(Tentative(s)))
  }

  /** A transaction that may allocate sees all there is. */
  lemma AppendsToAll(s: State, t: State, tx: nat, v: Event)
    requires Ordered(s) && AppendAs(s, t, tx, v, true)
    ensures s.committed + Own(s, tx) == Tentative(s)
    ensures t.committed == s.committed
    ensures Tentative(t) == Tentative(s) || Tentative(t) == Tentative(s) + [Row(s.nextId, v)]
    ensures Tentative(t) != Tentative(s) ==>
              t.nextId == s.nextId + 1 && Append(Events(Tentative(s)), v) == Ok(Events(Tentative(s)) + [v])
  {
    var base := s.committed + Own(s, tx);
    assert base == Tentative(s) by {
      if s.lock == None {
        assert tx !in s.pending;
        assert base == s.committed;
      }
    }
    if t.nextId != s.nextId {
      assert Tentative(t) == base + [Row(s.nextId, v)];
    } else {
      assert Tentative(t) == base;
    }
  }

  /** Nothing else changes, and the transaction keeps the lock. */
  lemma AppendTouches(s: State, t: State, tx: nat, v: Event)
    requires Ordered(s) && AppendAs(s, t, tx, v, true)
    ensures t.lock == Some(tx) && t.seen == s.seen && t.cursor == s.cursor && t.nextId >= s.nextId
    ensures forall other :: other in t.pending ==> other == tx
  {
  }

  lemma LongerInOrder(s: State, t: State, tx: nat, v: Event)
    requires Ordered(s) && t.lock == Some(tx) && t.seen == s.seen && t.cursor == s.cursor && t.nextId >= s.nextId
    requires t.committed == s.committed && forall other :: other in t.pending ==> other == tx
    requires Tentative(t) == Tentative(s) || (Tentative(t) == Tentative(s) + [Row(s.nextId, v)] && t.nextId == s.nextId + 1)
    requires 0 < s.nextId
    ensures Ordered(t)
  {
  }

  lemma AppendKeepsOrder(s: State, t: State)
    requires Ordered(s) && AppendStep(s, t, true)
    ensures Ordered(t)
  {
    var tx: nat, v :| AppendAs(s, t, tx, v, true);
    AppendsToAll(s, t, tx, v);
    AppendTouches(s, t, tx, v);
    LongerInOrder(s, t, tx, v);
  }

  lemma AppendKeepsSound(s: State, t: State)
    requires Ordered(s) && Sound(s) && AppendStep(s, t, true)
    ensures Sound(t)
  {
    var tx: nat, v :| AppendAs(s, t, tx, v, true);
    AppendsToAll(s, t, tx, v);
    if Tentative(t) != Tentative(s) {
      AppendKeepsChains(Events(Tentative(s)), v);
      assert Events(Tentative(t)) == Events(Tentative(s)) + [v];
    }
  }

  /** A commit makes everything tentative definite; a rollback leaves what was committed. */
  lemma EndSettles(s: State, t: State)
    requires Ordered(s) && (CommitStep(s, t) || RollbackStep(s, t))
    ensures t.committed in {s.committed, Tentative(s)} && Tentative(t) in {s.committed, Tentative(s)}
    ensures s.committed <= Tentative(s) && s.committed <= t.committed && forall tx :: tx in t.pending ==> t.lock == Some(tx)
    ensures t.nextId == s.nextId && t.seen == s.seen && t.cursor == s.cursor
  {
    var tx: nat;
    if CommitStep(s, t) {
      tx :| CommitAs(s, t, tx);
      assert s.lock != Some(tx) ==> tx !in s.pending && s.committed + Own(s, tx) == s.committed;
    } else {
      tx :| RollbackAs(s, t, tx);
    }
    assert s.lock == Some(tx) ==> s.pending - {tx} == map[];
    assert s.lock != Some(tx) ==> s.pending - {tx} == s.pending;
  }

  lemma EndKeepsOrder(s: State, t: State)
    requires Ordered(s) && (CommitStep(s, t) || RollbackStep(s, t))
    ensures Ordered(t)
  {
    EndSettles(s, t);
    CommittedIncreases(s);
  }

  /** The first row above what a reader has read is the next one. */
  predicate NextIs(rows: seq<Row>, k: nat)
    requires k <= |rows|
  {
    NextAfter(rows, Last(rows[..k])) == if k == |rows| then None else Some(rows[k])
  }

  lemma NextIsNext(rows: seq<Row>, bound: nat, k: nat)
    requires Increasing(rows, bound) && k <= |rows|
    ensures NextIs(rows, k)
  {
    var next := NextAfter(rows, Last(rows[..k]));
    if k < |rows| {
      assert rows[k] in rows && next.Some?;
      var i :| 0 <= i < |rows| && rows[i] == next.value;
    }
  }

  /** A reader that has read the first `k` rows gets the next ones, none left out. */
  lemma {:induction false} ReadContinues(rows: seq<Row>, k: nat, limit: nat)
    requires k <= |rows| && forall j :: 0 <= j <= |rows| ==> NextIs(rows, j)
    ensures ReadEvents(rows, Last(rows[..k]), limit) == rows[k..Min(k + limit, |rows|)]
    decreases limit
  {
    assert NextIs(rows, k);
    if limit > 0 && k < |rows| {
      var n := Min(k + limit, |rows|);
      assert rows[..k + 1][k] == rows[k];
      ReadContinues(rows, k + 1, limit - 1);
      assert [rows[k]] + rows[k + 1..n] == rows[k..n];
    }
  }

  function Min(a: nat, b: nat): nat { if a < b then a else b }

  lemma ReadKeepsOrder(s: State, t: State)
    requires Ordered(s) && ReadStep(s, t)
    ensures Ordered(t)
  {
    var limit: nat :| ReadAs(s, t, limit);
    ReadExtends(s, limit);
    assert Tentative(t) == Tentative(s);
  }

  lemma RowsExtend(rows: seq<Row>, bound: nat, k: nat, limit: nat)
    requires Increasing(rows, bound) && k <= |rows|
    ensures rows[..k] + ReadEvents(rows, Last(rows[..k]), limit) == rows[..Min(k + limit, |rows|)]
  {
    forall j | 0 <= j <= |rows| ensures NextIs(rows, j) {
      NextIsNext(rows, bound, j);
    }
    ReadContinues(rows, k, limit);
    var n := Min(k + limit, |rows|);
    assert rows[..k] + rows[k..n] == rows[..n];
  }

  lemma ReadExtends(s: State, limit: nat)
    requires Ordered(s)
    ensures s.seen + ReadEvents(s.committed, s.cursor, limit) == s.committed[..Min(|s.seen| + limit, |s.committed|)]
  {
    CommittedIncreases(s);
    assert s.committed[..|s.seen|] == s.seen;
    RowsExtend(s.committed, s.nextId, |s.seen|, limit);
  }

  lemma CommittedIncreases(s: State)
    requires Ordered(s)
    ensures Increasing(s.committed, s.nextId)
  {
    assert s.committed == Tentative(s)[..|s.committed|];
  }

  lemma {:induction false} RunKeepsInv(run: seq<State>)
    requires Run(run, true)
    ensures Ordered(run[|run| - 1]) && Sound(run[|run| - 1])
  {
    if |run| > 1 {
      var n := |run| - 1;
      forall i | 0 <= i < n - 1 ensures Stepped(run[..n], i, true) {
        assert Stepped(run, i, true);
      }
      RunKeepsInv(run[..n]);
      assert Stepped(run, n - 1, true);
      StepKeepsInv(run[n - 1], run[n]);
    }
  }

  lemma StepKeepsInv(s: State, t: State)
    requires Ordered(s) && Sound(s) && Step(s, t, true)
    ensures Ordered(t) && Sound(t)
  {
    if AppendStep(s, t, true) {
      AppendKeepsOrder(s, t);
      AppendKeepsSound(s, t);
    } else if CommitStep(s, t) || RollbackStep(s, t) {
      EndKeepsOrder(s, t);
      EndSettles(s, t);
    } else if ReadStep(s, t) {
      ReadKeepsOrder(s, t);
    } else {
      assert Tentative(t) == Tentative(s);
    }
  }

  // ---------------------------------------------------------------- theorems

  /**
    In every interleaving the reader has seen exactly the first committed events,
    each once and in order; a read that is not full leaves none behind.
   */
  lemma ReaderNeverSkips(run: seq<State>, limit: nat)
    requires Run(run, true)
    ensures SeesAll(run[|run| - 1], limit)
  {
    RunKeepsInv(run);
    ReaderIsComplete(run[|run| - 1], limit);
  }

  predicate SeesAll(s: State, limit: nat) {
    && s.seen <= s.committed
    && (forall i, j :: 0 <= i < j < |s.seen| ==> s.seen[i].id < s.seen[j].id)
    && var batch := ReadEvents(s.committed, s.cursor, limit);
       && s.seen + batch <= s.committed
       && (|batch| < limit ==> s.seen + batch == s.committed)
  }

  lemma ReaderIsComplete(s: State, limit: nat)
    requires Ordered(s)
    ensures SeesAll(s, limit)
  {
    CommittedIncreases(s);
    ReadExtends(s, limit);
    forall i, j | 0 <= i < j < |s.seen| ensures s.seen[i].id < s.seen[j].id {
      assert s.seen[i] == s.committed[i] && s.seen[j] == s.committed[j];
    }
  }

  /** At every moment what is committed of an operation is a prefix of the four phases. */
  lemma CommittedChains(run: seq<State>, operation: string, sequence: int)
    requires Run(run, true)
    ensures var log := Events(run[|run| - 1].committed);
            Chained(log) && (Has(log, operation, sequence) <==> 0 <= sequence < Reached(log, operation))
  {
    RunKeepsInv(run);
    ReachedIsPrefix(Events(run[|run| - 1].committed), operation, sequence);
  }

  // ------------------------------------------------------------ without a lock

  function Planned(digit: char): (v: Event)
    requires IsHex(digit)
    ensures WellFormed(v) && v.operation[0] == digit && v.sequence == 0
  {
    var uuid := seq(36, i requires 0 <= i < 36 => if i in {8, 13, 18, 23} then '-' else digit);
    var digest := seq(64, i requires 0 <= i < 64 => digit);
    Event(uuid, 0, "video_filter", uuid, PHASES[0], Some(digest), None, "a", "b", 0)
  }

  /** Without the lock a later identifier can be committed and read first; the earlier event is then never read. */
  lemma UnlockedReaderSkips() returns (run: seq<State>, missed: Row)
    ensures Run(run, false)
    ensures var s := run[|run| - 1];
            missed in s.committed && missed !in s.seen && missed.id <= s.cursor
    ensures var s := run[|run| - 1];
            forall row, limit: nat :: row in ReadEvents(s.committed, s.cursor, limit) ==> row != missed
  {
    var a, b := Row(1, Planned('0')), Row(2, Planned('1'));
    var s1 := State([], map[1 := [a]], None, 2, 0, []);
    var s2 := State([], map[1 := [a], 2 := [b]], None, 3, 0, []);
    var s3 := State([b], map[1 := [a]], None, 3, 0, []);
    var s4 := s3.(cursor := 2, seen := [b]);
    var s5 := State([b, a], map[], None, 3, 2, [b]);
    run := [START, s1, s2, s3, s4, s5];
    missed := a;
    assert AppendAs(START, s1, 1, a.event, false) by { assert [] + [a] == [a]; }
    assert AppendAs(s1, s2, 2, b.event, false) by { assert [] + [b] == [b]; }
    assert CommitAs(s2, s3, 2) by { assert s2.pending - {2} == map[1 := [a]]; }
    assert ReadAs(s3, s4, 1) by {
      assert NextAfter([b], 0) == Some(b);
      assert ReadEvents([b], 0, 1) == [b];
      assert [] + [b] == [b];
    }
    assert CommitAs(s4, s5, 1) by { assert [b] + [a] == [b, a]; }
    forall i | 0 <= i < |run| - 1 ensures Stepped(run, i, false) {
      assert i in {0, 1, 2, 3, 4};
    }
    forall row, limit: nat | row in ReadEvents(s5.committed, s5.cursor, limit) ensures row != a {
      ReadIsAbove(s5.committed, s5.cursor, limit);
    }
  }

  lemma {:induction false} ReadIsAbove(rows: seq<Row>, after: nat, limit: nat)
    ensures forall r :: r in ReadEvents(rows, after, limit) ==> r.id > after
    decreases limit
  {
    if limit > 0 && NextAfter(rows, after).Some? {
      ReadIsAbove(rows, NextAfter(rows, after).value.id, limit - 1);
    }
  }
}
