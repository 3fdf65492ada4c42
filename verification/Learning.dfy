/** Whether a training snapshot still stands: no label it was trained on was corrected since. */
module Learning {
  import opened Wrappers
  import opened Feedback

  /** What a snapshot keeps of an asset. */
  datatype Item = Item(asset: nat, verdict: int, revision: nat)

  /** The events of an asset above one revision and up to another, in order. */
  function Since(events: seq<Event>, asset: nat, low: nat, high: nat, n: nat): (history: seq<Event>)
    requires n <= |events|
    ensures forall k :: 0 <= k < |history| ==> history[k] in events[..n]
  {
    if n == 0 then []
    else
      var e := events[n - 1];
      var earlier := Since(events, asset, low, high, n - 1);
      assert forall x :: x in events[..n - 1] ==> x in events[..n];
      assert e in events[..n];
      if e.record.asset == asset && low < e.resulting <= high then earlier + [e] else earlier
  }

  /** An event that continues the chain at a given distance, with the same label. */
  predicate Continues(e: Event, item: Item, offset: nat) {
    e.record.expected == item.revision + offset && e.resulting == item.revision + offset + 1 && e.record.verdict == item.verdict
  }

  /** The check of one item: its label still stands, through an unbroken chain of confirmations. */
  predicate Accepts(db: Database, item: Item) {
    && item.asset in db.assets
    && db.assets[item.asset].verdict == Some(item.verdict) && db.assets[item.asset].revision >= item.revision
    && (db.assets[item.asset].revision != item.revision ==>
          var history := Since(db.events, item.asset, item.revision, db.assets[item.asset].revision, |db.events|);
          && |history| == db.assets[item.asset].revision - item.revision
          && forall k :: 0 <= k < |history| ==> Continues(history[k], item, k))
  }

  /** Some later event says something else about the asset. */
  predicate Corrects(e: Event, item: Item) {
    e.record.asset == item.asset && e.resulting > item.revision && e.record.verdict != item.verdict
  }

  predicate IsCorrected(db: Database, item: Item) {
    exists i :: 0 <= i < |db.events| && Corrects(db.events[i], item)
  }

  /** The item was true of the asset at some moment of this history. */
  predicate WasTaken(db: Database, item: Item) {
    && item.asset in db.assets && item.revision <= db.assets[item.asset].revision
    && (item.revision == db.assets[item.asset].revision ==> db.assets[item.asset].verdict == Some(item.verdict))
  }

  // ------------------------------------------------------------ the history

  function Above(count: nat, low: nat): nat { if count <= low then 0 else count - low }

  /** One event of a gap-free chain. */
  predicate InChain(events: seq<Event>, i: nat)
    requires i < |events|
  {
    events[i].record.expected == Count(events, events[i].record.asset, i) && events[i].resulting == events[i].record.expected + 1
  }

  predicate ChainFrom(history: seq<Event>, low: nat) {
    forall k :: 0 <= k < |history| ==> history[k].record.expected == low + k && history[k].resulting == low + k + 1
  }

  /** A gap-free chain has exactly one event for every revision above `low`, in order. */
  lemma {:induction false} SinceIsChain(events: seq<Event>, asset: nat, low: nat, high: nat, n: nat)
    requires n <= |events| && Count(events, asset, n) <= high && forall i :: 0 <= i < n ==> InChain(events, i)
    ensures |Since(events, asset, low, high, n)| == Above(Count(events, asset, n), low)
    ensures ChainFrom(Since(events, asset, low, high, n), low)
  {
    if n > 0 {
      SinceIsChain(events, asset, low, high, n - 1);
      assert InChain(events, n - 1);
    }
  }

  lemma {:induction false} SinceHas(events: seq<Event>, asset: nat, low: nat, high: nat, n: nat, i: nat)
    requires i < n <= |events| && events[i].record.asset == asset && low < events[i].resulting <= high
    ensures events[i] in Since(events, asset, low, high, n)
  {
    if i < n - 1 {
      SinceHas(events, asset, low, high, n - 1, i);
    }
  }

  lemma {:induction false} SinceOnly(events: seq<Event>, asset: nat, low: nat, high: nat, n: nat)
    requires n <= |events|
    ensures forall e :: e in Since(events, asset, low, high, n) ==>
              e.record.asset == asset && low < e.resulting <= high && e in events
  {
    if n > 0 {
      SinceOnly(events, asset, low, high, n - 1);
    }
  }

  /** The label of an asset is that of its last event. */
  lemma {:induction false} LastLabel(events: seq<Event>, asset: nat, n: nat) returns (i: nat)
    requires n <= |events| && Count(events, asset, n) > 0 && forall i :: 0 <= i < n ==> InChain(events, i)
    ensures i < n && events[i].record.asset == asset && events[i].resulting == Count(events, asset, n)
    ensures LabelAfter(events, asset, n) == Some(events[i].record.verdict)
  {
    assert InChain(events, n - 1);
    if events[n - 1].record.asset == asset {
      i := n - 1;
    } else {
      i := LastLabel(events, asset, n - 1);
    }
  }

  function History(db: Database, item: Item): seq<Event>
    requires item.asset in db.assets
  {
    Since(db.events, item.asset, item.revision, db.assets[item.asset].revision, |db.events|)
  }

  /** What was written since a moment of the history: every revision once, and nothing else. */
  lemma HistoryIsComplete(db: Database, item: Item)
    requires Sound(db) && item.asset in db.assets
    ensures |History(db, item)| == Above(db.assets[item.asset].revision, item.revision)
    ensures ChainFrom(History(db, item), item.revision)
    ensures forall e :: e in History(db, item) ==>
              e.record.asset == item.asset && e.resulting > item.revision && e in db.events
  {
    forall i | 0 <= i < |db.events| ensures InChain(db.events, i) {
    }
    SinceIsChain(db.events, item.asset, item.revision, db.assets[item.asset].revision, |db.events|);
    SinceOnly(db.events, item.asset, item.revision, db.assets[item.asset].revision, |db.events|);
  }

  lemma ResultingCounts(events: seq<Event>, i: nat)
    requires i < |events| && InChain(events, i)
    ensures events[i].resulting <= Count(events, events[i].record.asset, |events|)
  {
    CountGrows(events, events[i].record.asset, i + 1, |events|);
  }

  lemma HistoryHas(db: Database, item: Item, i: nat)
    requires Sound(db) && item.asset in db.assets && i < |db.events|
    requires db.events[i].record.asset == item.asset && db.events[i].resulting > item.revision
    ensures db.events[i] in History(db, item)
  {
    var high := db.assets[item.asset].revision;
    assert InChain(db.events, i) && high == Count(db.events, item.asset, |db.events|);
    ResultingCounts(db.events, i);
    SinceHas(db.events, item.asset, item.revision, high, |db.events|, i);
  }

  // ---------------------------------------------------------------- theorems

  lemma CorrectedIsRefused(db: Database, item: Item)
    requires Sound(db) && WasTaken(db, item) && IsCorrected(db, item)
    ensures !Accepts(db, item)
  {
    var i :| 0 <= i < |db.events| && Corrects(db.events[i], item);
    HistoryHas(db, item, i);
    HistoryIsComplete(db, item);
    var history := History(db, item);
    var k :| 0 <= k < |history| && history[k] == db.events[i];
    assert !Continues(history[k], item, k);
  }

  lemma UncorrectedIsAccepted(db: Database, item: Item)
    requires Sound(db) && WasTaken(db, item) && !IsCorrected(db, item)
    ensures Accepts(db, item)
  {
    HistoryIsComplete(db, item);
    var history := History(db, item);
    forall k | 0 <= k < |history| ensures Continues(history[k], item, k) {
      assert history[k] in history;
      var i :| 0 <= i < |db.events| && db.events[i] == history[k];
      assert !Corrects(db.events[i], item);
    }
    if db.assets[item.asset].revision > item.revision {
      forall i | 0 <= i < |db.events| ensures InChain(db.events, i) {
      }
      var i := LastLabel(db.events, item.asset, |db.events|);
      assert !Corrects(db.events[i], item);
    }
  }

  /**
    A snapshot item taken from this history is accepted exactly when no event
    since then carries another label: flips back and forth are caught, repeated
    confirmations are not.
   */
  lemma AcceptsIff(db: Database, item: Item)
    requires Sound(db) && WasTaken(db, item)
    ensures Accepts(db, item) <==> !IsCorrected(db, item)
  {
    if IsCorrected(db, item) {
      CorrectedIsRefused(db, item);
    } else {
      UncorrectedIsAccepted(db, item);
    }
  }

  /** An accepted item is backed by one confirming event for every later revision, even in a damaged database. */
  lemma AcceptedHasNoGap(db: Database, item: Item, revision: nat)
    requires Accepts(db, item) && item.revision < revision <= db.assets[item.asset].revision
    ensures exists i :: 0 <= i < |db.events| && db.events[i].record.asset == item.asset
                        && db.events[i].resulting == revision && db.events[i].record.expected == revision - 1
                        && db.events[i].record.verdict == item.verdict
  {
    var history, k := History(db, item), revision - item.revision - 1;
    SinceOnly(db.events, item.asset, item.revision, db.assets[item.asset].revision, |db.events|);
    assert Continues(history[k], item, k) && history[k] in history;
    var i :| 0 <= i < |db.events| && db.events[i] == history[k];
  }

  /** An item that is true of an asset stays one that was taken, whatever happens afterwards. */
  lemma TakenStays(s: State, t: State, item: Item)
    requires Inv(s) && Step(s, t) && WasTaken(s.db, item)
    ensures WasTaken(t.db, item)
  {
  }

  /** For a snapshot taken anywhere in a run and checked at its end. */
  lemma {:induction false} SnapshotStandsIff(run: seq<State>, m: nat, item: Item)
    requires Run(run) && m < |run| && item.asset in run[m].db.assets
    requires run[m].db.assets[item.asset] == Asset(Some(item.verdict), item.revision)
    ensures Accepts(run[|run| - 1].db, item) <==> !IsCorrected(run[|run| - 1].db, item)
  {
    RunKeepsInv(run);
    TakenInRun(run, m, item);
    AcceptsIff(run[|run| - 1].db, item);
  }

  lemma {:induction false} TakenInRun(run: seq<State>, m: nat, item: Item)
    requires Run(run) && m < |run| && WasTaken(run[m].db, item)
    ensures WasTaken(run[|run| - 1].db, item)
  {
    if m < |run| - 1 {
      var n := |run| - 1;
      forall i | 0 <= i < n - 1 ensures Stepped(run[..n], i) {
        assert Stepped(run, i);
      }
      TakenInRun(run[..n], m, item);
      RunKeepsInv(run[..n]);
      assert Stepped(run, n - 1);
      TakenStays(run[n - 1], run[n], item);
    }
  }

  // ----------------------------------------------------------------- the checks

  method FeedbackSince(db: Database, item: Item, high: nat) returns (history: seq<Event>)
    ensures history == Since(db.events, item.asset, item.revision, high, |db.events|)
  {
    history := [];
    var n := 0;
    while n < |db.events|
      invariant n <= |db.events| && history == Since(db.events, item.asset, item.revision, high, n)
    {
      var e := db.events[n];
      if e.record.asset == item.asset && item.revision < e.resulting <= high {
        history := history + [e];
      }
      n := n + 1;
    }
  }

  method RequireItem(db: Database, item: Item) returns (accepted: bool)
    ensures accepted == Accepts(db, item)
  {
    if item.asset !in db.assets || db.assets[item.asset].verdict != Some(item.verdict)
       || db.assets[item.asset].revision < item.revision {
      return false;
    }
    var now := db.assets[item.asset].revision;
    if now != item.revision {
      var history := FeedbackSince(db, item, now);
      if |history| != now - item.revision {
        return false;
      }
      var k := 0;
      while k < |history|
        invariant k <= |history| && forall j :: 0 <= j < k ==> Continues(history[j], item, j)
      {
        if !Continues(history[k], item, k) {
          return false;
        }
        k := k + 1;
      }
    }
    accepted := true;
  }

  /** A snapshot taken from a history is refused exactly when some label in it was corrected. */
  method RequireCurrent(db: Database, snapshot: seq<Item>) returns (accepted: bool)
    requires Sound(db) && forall i :: 0 <= i < |snapshot| ==> WasTaken(db, snapshot[i])
    ensures accepted <==> forall i :: 0 <= i < |snapshot| ==> !IsCorrected(db, snapshot[i])
  {
    var i := 0;
    while i < |snapshot|
      invariant i <= |snapshot| && forall j :: 0 <= j < i ==> !IsCorrected(db, snapshot[j])
    {
      AcceptsIff(db, snapshot[i]);
      var standing := RequireItem(db, snapshot[i]);
      if !standing {
        return false;
      }
      i := i + 1;
    }
    accepted := true;
  }

  /** The other check, against the assets as a training run has gathered them. */
  predicate LabelChanged(db: Database, current: map<nat, Asset>, item: Item) {
    || item.asset !in current || current[item.asset].verdict != Some(item.verdict)
    || exists e :: e in Since(db.events, item.asset, item.revision, current[item.asset].revision, |db.events|)
                   && e.record.verdict != item.verdict
  }

  /** Where training lists an asset as it is, both checks tell the same; an asset it does not list counts as changed. */
  lemma ChecksAgree(db: Database, current: map<nat, Asset>, item: Item)
    requires Sound(db) && WasTaken(db, item)
    requires item.asset in current ==> current[item.asset] == db.assets[item.asset]
    ensures LabelChanged(db, current, item) <==> item.asset !in current || !Accepts(db, item)
  {
    AcceptsIff(db, item);
    HistoryIsComplete(db, item);
    forall e | e in History(db, item) && e.record.verdict != item.verdict ensures IsCorrected(db, item) {
      var i :| 0 <= i < |db.events| && db.events[i] == e;
      assert Corrects(db.events[i], item);
    }
    if IsCorrected(db, item) {
      var i :| 0 <= i < |db.events| && Corrects(db.events[i], item);
      HistoryHas(db, item, i);
    }
  }

  // ------------------------------------------- events that come in while it checks

  lemma {:induction false} SinceOfPrefix(events: seq<Event>, longer: seq<Event>, asset: nat, low: nat, high: nat, n: nat)
    requires events <= longer && n <= |events|
    ensures Since(longer, asset, low, high, n) == Since(events, asset, low, high, n)
    ensures Count(longer, asset, n) == Count(events, asset, n)
  {
    if n > 0 {
      SinceOfPrefix(events, longer, asset, low, high, n - 1);
    }
  }

  /** Events after the revision that was seen are not collected. */
  lemma {:induction false} SinceStops(events: seq<Event>, asset: nat, low: nat, high: nat, m: nat, n: nat)
    requires m <= n <= |events| && Count(events, asset, m) >= high && forall i :: 0 <= i < n ==> InChain(events, i)
    ensures Since(events, asset, low, high, n) == Since(events, asset, low, high, m)
  {
    if m < n {
      SinceStops(events, asset, low, high, m, n - 1);
      assert InChain(events, n - 1);
      CountGrows(events, asset, m, n - 1);
    }
  }

  lemma EventsStay(s: State, t: State)
    requires Step(s, t)
    ensures s.db.events <= t.db.events
  {
  }

  lemma {:induction false} EventsGrow(run: seq<State>, m: nat)
    requires Run(run) && m < |run|
    ensures run[m].db.events <= run[|run| - 1].db.events
  {
    if m < |run| - 1 {
      var n := |run| - 1;
      forall i | 0 <= i < n - 1 ensures Stepped(run[..n], i) {
        assert Stepped(run, i);
      }
      EventsGrow(run[..n], m);
      assert Stepped(run, n - 1);
      EventsStay(run[n - 1], run[n]);
    }
  }

  /** What the check reads of the log was settled when the training data was gathered. */
  lemma LaterEventsDoNotMatter(db: Database, later: Database, current: map<nat, Asset>, item: Item)
    requires Sound(db) && Sound(later) && db.events <= later.events
    requires item.asset in current ==> item.asset in db.assets && current[item.asset] == db.assets[item.asset]
    ensures LabelChanged(later, current, item) <==> LabelChanged(db, current, item)
  {
    if item.asset in current {
      var n, high := |db.events|, current[item.asset].revision;
      forall i | 0 <= i < |later.events| ensures InChain(later.events, i) {
      }
      SinceOfPrefix(db.events, later.events, item.asset, item.revision, high, n);
      SinceStops(later.events, item.asset, item.revision, high, n, |later.events|);
    }
  }

  /** A run up to one of its moments is a run. */
  lemma FirstPart(run: seq<State>, k: nat) returns (earlier: seq<State>)
    requires Run(run) && k < |run|
    ensures Run(earlier) && earlier == run[..k + 1] && earlier[|earlier| - 1] == run[k]
  {
    earlier := run[..k + 1];
    forall i | 0 <= i < k ensures Stepped(earlier, i) {
      assert Stepped(run, i);
    }
  }

  /**
    A snapshot taken at one moment of a run, training data gathered at a later
    one, and the log read at its end: the labels count as changed exactly when
    the data lacks the asset or a correction came between the first two.
   */
  lemma ChangedIffCorrectedBefore(run: seq<State>, m: nat, k: nat, item: Item, current: map<nat, Asset>)
    requires Run(run) && m <= k < |run| && item.asset in run[m].db.assets
    requires run[m].db.assets[item.asset] == Asset(Some(item.verdict), item.revision)
    requires item.asset in current ==> item.asset in run[k].db.assets && current[item.asset] == run[k].db.assets[item.asset]
    ensures LabelChanged(run[|run| - 1].db, current, item) <==> item.asset !in current || IsCorrected(run[k].db, item)
  {
    hide LabelChanged, Accepts, IsCorrected, Sound, Journal;
    var earlier := FirstPart(run, k);
    RunKeepsInv(run);
    RunKeepsInv(earlier);
    EventsGrow(run, k);
    TakenInRun(earlier, m, item);
    LaterEventsDoNotMatter(run[k].db, run[|run| - 1].db, current, item);
    ChecksAgree(run[k].db, current, item);
    AcceptsIff(run[k].db, item);
  }
}
