/**
  Batched extraction of one modality stands in for the loop over windows: windows
  are grouped, their items inferred together, and the values averaged by owner.
  A feature is one real coordinate; the average is the same for each.
 */
module BatchedExtraction {
  import opened Wrappers
  import opened Batching

  /** An item of a window and its weight: a frame, a clip or a piece of audio. */
  datatype Part<T> = Part(item: T, weight: nat)

  datatype Owned<T> = Owned(owner: nat, part: Part<T>)

  // ---------------------------------------------------------------- averages

  function Weight<T>(parts: seq<Part<T>>): nat {
    if parts == [] then 0 else Weight(parts[..|parts| - 1]) + parts[|parts| - 1].weight
  }

  function Weighted<T>(parts: seq<Part<T>>, model: T -> real): real {
    if parts == [] then 0.0
    else Weighted(parts[..|parts| - 1], model) + parts[|parts| - 1].weight as real * model(parts[|parts| - 1].item)
  }

  /** The weighted mean of the model's values; the parts of a window always weigh something. */
  function Mean<T>(parts: seq<Part<T>>, model: T -> real): real {
    if Weight(parts) == 0 then 0.0 else Weighted(parts, model) / Weight(parts) as real
  }

  predicate Weighty<T>(work: seq<seq<Part<T>>>) {
    forall i, j :: 0 <= i < |work| && 0 <= j < |work[i]| ==> work[i][j].weight > 0
  }

  // ------------------------------------------------------ what must come out

  /** The row of every window with items is its mean; windows without items stay as they were. */
  function Row<T>(before: (real, bool), parts: seq<Part<T>>, model: T -> real): (real, bool) {
    if parts == [] then before else (Mean(parts, model), true)
  }

  ghost predicate Extracted<T>(before: seq<(real, bool)>, after: seq<(real, bool)>, work: seq<seq<Part<T>>>, model: T -> real, n: nat) {
    && |before| == |after| == |work| && n <= |work|
    && (forall i :: 0 <= i < n ==> after[i] == Row(before[i], work[i], model))
    && (forall i :: n <= i < |work| ==> after[i] == before[i])
  }

  /** The acoustic features that are computed beside, from the same audio. */
  function Beside<T>(before: (real, bool), parts: seq<Part<T>>, acoustic: Option<seq<Part<T>> -> (real, bool)>): (real, bool) {
    if parts == [] || acoustic == None then before else acoustic.value(parts)
  }

  ghost predicate Heard<T>(before: seq<(real, bool)>, after: seq<(real, bool)>, work: seq<seq<Part<T>>>,
                           acoustic: Option<seq<Part<T>> -> (real, bool)>, n: nat)
  {
    && |before| == |after| == |work| && n <= |work|
    && (forall i :: 0 <= i < n ==> after[i] == Beside(before[i], work[i], acoustic))
    && (forall i :: n <= i < |work| ==> after[i] == before[i])
  }

  // ---------------------------------------------------------- the simple loop

  lemma {:induction false} WeightsJoin<T>(a: seq<Part<T>>, b: seq<Part<T>>, model: T -> real)
    ensures Weight(a + b) == Weight(a) + Weight(b)
    ensures Weighted(a + b, model) == Weighted(a, model) + Weighted(b, model)
  {
    if b == [] {
      assert a + b == a;
    } else {
      assert (a + b)[..|a + b| - 1] == a + b[..|b| - 1];
      WeightsJoin(a, b[..|b| - 1], model);
    }
  }

  /** What `extract` gives for a piece: the mean of its items. */
  method Extract<T>(piece: seq<Part<T>>, model: T -> real) returns (value: real)
    requires piece != [] && forall j :: 0 <= j < |piece| ==> piece[j].weight > 0
    ensures Weight(piece) as real * value == Weighted(piece, model)
  {
    var sum, j := 0.0, 0;
    while j < |piece|
      invariant j <= |piece| && sum == Weighted(piece[..j], model)
    {
      assert piece[..j + 1][..j] == piece[..j];
      sum := sum + piece[j].weight as real * model(piece[j].item);
      j := j + 1;
    }
    assert piece[..j] == piece;
    HasWeight(piece);
    value := sum / Weight(piece) as real;
  }

  lemma PieceAdds<T>(parts: seq<Part<T>>, offset: nat, end: nat, model: T -> real)
    requires offset <= end <= |parts|
    ensures Weight(parts[..end]) == Weight(parts[..offset]) + Weight(parts[offset..end])
    ensures Weighted(parts[..end], model) == Weighted(parts[..offset], model) + Weighted(parts[offset..end], model)
  {
    WeightsJoin(parts[..offset], parts[offset..end], model);
    assert parts[..offset] + parts[offset..end] == parts[..end];
  }

  lemma NothingWeighs<T>(model: T -> real)
    ensures Weight<T>([]) == 0 && Weighted([], model) == 0.0
  {
  }

  /** A window's items in pieces of at most `size`, the pieces averaged by weight. */
  method InPieces<T>(parts: seq<Part<T>>, size: nat, model: T -> real) returns (value: real)
    requires size >= 1 && parts != [] && forall j :: 0 <= j < |parts| ==> parts[j].weight > 0
    ensures value == Mean(parts, model)
  {
    hide Weight, Weighted;
    NothingWeighs(model);
    var sum, weight, offset := 0.0, 0, 0;
    assert parts[..offset] == [];
    while offset < |parts|
      invariant offset <= |parts| && sum == Weighted(parts[..offset], model) && weight == Weight(parts[..offset])
    {
      var end := Min(offset + size, |parts|);
      var piece := parts[offset..end];
      var extracted := Extract(piece, model);
      PieceAdds(parts, offset, end, model);
      sum := sum + Weight(piece) as real * extracted;
      weight := weight + Weight(piece);
      offset := end;
    }
    assert parts[..offset] == parts;
    HasWeight(parts);
    value := sum / weight as real;
  }

  /** One window after another, each piece by piece. */
  method PerWindow<T>(work: seq<seq<Part<T>>>, model: T -> real, acoustic: Option<seq<Part<T>> -> (real, bool)>, size: nat,
                      rows: array<(real, bool)>, side: array<(real, bool)>)
    returns (missing: set<nat>)
    requires rows.Length == side.Length == |work| && rows != side && size >= 1 && Weighty(work)
    modifies rows, side
    ensures Extracted(old(rows[..]), rows[..], work, model, |work|)
    ensures Heard(old(side[..]), side[..], work, acoustic, |work|)
    ensures missing == set i: nat | i < |work| && work[i] == []
  {
    hide Mean, Weighted, Weight;
    missing := {};
    var index := 0;
    while index < |work|
      invariant index <= |work| && Extracted(old(rows[..]), rows[..], work, model, index)
      invariant Heard(old(side[..]), side[..], work, acoustic, index)
      invariant missing == set i: nat | i < index && work[i] == []
    {
      var parts := work[index];
      if parts == [] {
        missing := missing + {index};
      } else {
        var value := InPieces(parts, size, model);
        if acoustic.Some? {
          side[index] := acoustic.value(parts);
        }
        rows[index] := (value, true);
      }
      index := index + 1;
    }
  }

  lemma HasWeight<T>(parts: seq<Part<T>>)
    requires parts != [] && forall j :: 0 <= j < |parts| ==> parts[j].weight > 0
    ensures Weight(parts) > 0
  {
    assert parts[|parts| - 1].weight > 0;
  }

  // ------------------------------------------------------ grouping by owner

  function Tagged<T>(parts: seq<Part<T>>, owner: nat): (owned: seq<Owned<T>>)
    ensures |owned| == |parts|
  {
    seq(|parts|, j requires 0 <= j < |parts| => Owned(owner, parts[j]))
  }

  /** The items of the windows from `lo` up to `hi`, each with its owner. */
  function Gathered<T>(work: seq<seq<Part<T>>>, lo: nat, hi: nat): seq<Owned<T>>
    requires lo <= hi <= |work|
  {
    if lo == hi then [] else Gathered(work, lo, hi - 1) + Tagged(work[hi - 1], hi - 1)
  }

  function Of<T>(owned: seq<Owned<T>>, owner: nat): seq<Part<T>> {
    if owned == [] then []
    else
      var last := owned[|owned| - 1];
      Of(owned[..|owned| - 1], owner) + if last.owner == owner then [last.part] else []
  }

  lemma {:induction false} OfJoined<T>(a: seq<Owned<T>>, b: seq<Owned<T>>, owner: nat)
    ensures Of(a + b, owner) == Of(a, owner) + Of(b, owner)
  {
    if b == [] {
      assert a + b == a;
    } else {
      assert (a + b)[..|a + b| - 1] == a + b[..|b| - 1];
      OfJoined(a, b[..|b| - 1], owner);
    }
  }

  lemma {:induction false} OfTagged<T>(parts: seq<Part<T>>, tag: nat, owner: nat)
    ensures Of(Tagged(parts, tag), owner) == if tag == owner then parts else []
  {
    if parts != [] {
      var n := |parts| - 1;
      assert Tagged(parts, tag)[..n] == Tagged(parts[..n], tag);
      OfTagged(parts[..n], tag, owner);
    }
  }

  lemma OneMoreWindow<T>(work: seq<seq<Part<T>>>, lo: nat, hi: nat, owner: nat)
    requires lo < hi <= |work|
    ensures Of(Gathered(work, lo, hi), owner) ==
            Of(Gathered(work, lo, hi - 1), owner) + if owner == hi - 1 then work[owner] else []
  {
    hide Tagged, Of;
    OfTagged(work[hi - 1], hi - 1, owner);
    OfJoined(Gathered(work, lo, hi - 1), Tagged(work[hi - 1], hi - 1), owner);
  }

  /** Grouping by owner gives every window of the group its own items back, in order. */
  lemma {:induction false} Regrouped<T>(work: seq<seq<Part<T>>>, lo: nat, hi: nat, owner: nat)
    requires lo <= hi <= |work|
    ensures Of(Gathered(work, lo, hi), owner) == if lo <= owner < hi then work[owner] else []
  {
    if lo < hi {
      hide Of, Gathered;
      Regrouped(work, lo, hi - 1, owner);
      OneMoreWindow(work, lo, hi, owner);
    }
  }

  function Items<T>(owned: seq<Owned<T>>): (items: seq<T>)
    ensures |items| == |owned|
    ensures forall j :: 0 <= j < |items| ==> items[j] == owned[j].part.item
  {
    seq(|owned|, j requires 0 <= j < |owned| => owned[j].part.item)
  }

  // ----------------------------------------------------------- the batched form

  /** Collects the items of one group; acoustic features are taken as the audio comes by. */
  method Gather<T>(work: seq<seq<Part<T>>>, lo: nat, hi: nat, acoustic: Option<seq<Part<T>> -> (real, bool)>,
                   side: array<(real, bool)>)
    returns (owned: seq<Owned<T>>, missing: set<nat>)
    requires lo <= hi <= |work| == side.Length
    modifies side
    ensures owned == Gathered(work, lo, hi)
    ensures missing == set i: nat | lo <= i < hi && work[i] == []
    ensures forall i :: lo <= i < hi ==> side[i] == Beside(old(side[i]), work[i], acoustic)
    ensures forall i :: 0 <= i < lo || hi <= i < |work| ==> side[i] == old(side[i])
  {
    owned, missing := [], {};
    var index := lo;
    while index < hi
      invariant lo <= index <= hi && owned == Gathered(work, lo, index)
      invariant missing == set i: nat | lo <= i < index && work[i] == []
      invariant forall i :: lo <= i < index ==> side[i] == Beside(old(side[i]), work[i], acoustic)
      invariant forall i :: 0 <= i < lo || index <= i < |work| ==> side[i] == old(side[i])
    {
      if work[index] == [] {
        missing := missing + {index};
      } else if acoustic.Some? {
        side[index] := acoustic.value(work[index]);
      }
      var j := 0;
      while j < |work[index]|
        invariant j <= |work[index]| && owned == Gathered(work, lo, index) + Tagged(work[index], index)[..j]
      {
        owned := owned + [Owned(index, work[index][j])];
        j := j + 1;
      }
      assert Tagged(work[index], index)[..j] == Tagged(work[index], index);
      index := index + 1;
    }
  }

  /** Averages the values whose owner is `index`. */
  method Average<T>(owned: seq<Owned<T>>, values: seq<real>, index: nat, model: T -> real) returns (mean: Option<real>)
    requires values == Mapped(model, Items(owned)) && forall j :: 0 <= j < |owned| ==> owned[j].part.weight > 0
    ensures mean == if Of(owned, index) == [] then None else Some(Mean(Of(owned, index), model))
  {
    var sum, weight, j := 0.0, 0, 0;
    while j < |owned|
      invariant j <= |owned|
      invariant sum == Weighted(Of(owned[..j], index), model) && weight == Weight(Of(owned[..j], index))
      invariant weight == 0 <==> Of(owned[..j], index) == []
    {
      assert owned[..j + 1][..j] == owned[..j];
      var before := Of(owned[..j], index);
      if owned[j].owner == index {
        assert Of(owned[..j + 1], index) == before + [owned[j].part];
        assert (before + [owned[j].part])[..|before|] == before;
        sum := sum + owned[j].part.weight as real * values[j];
        weight := weight + owned[j].part.weight;
      } else {
        assert Of(owned[..j + 1], index) == before;
      }
      j := j + 1;
    }
    assert owned[..j] == owned;
    mean := if weight == 0 then None else Some(sum / weight as real);
  }

  /** Spreads the values of one group over the rows of its windows. */
  method Spread<T>(ghost work: seq<seq<Part<T>>>, lo: nat, hi: nat, owned: seq<Owned<T>>, values: seq<real>, model: T -> real,
                   rows: array<(real, bool)>)
    requires lo <= hi <= |work| == rows.Length && Weighty(work)
    requires owned == Gathered(work, lo, hi) && values == Mapped(model, Items(owned))
    modifies rows
    ensures forall i :: lo <= i < hi ==> rows[i] == Row(old(rows[i]), work[i], model)
    ensures forall i :: 0 <= i < lo || hi <= i < |work| ==> rows[i] == old(rows[i])
  {
    hide Gathered, Of, Mean, Weighted, Weight;
    GatheredWeighs(work, lo, hi);
    var index := lo;
    while index < hi
      invariant lo <= index <= hi
      invariant forall i :: lo <= i < index ==> rows[i] == Row(old(rows[i]), work[i], model)
      invariant forall i :: 0 <= i < lo || index <= i < |work| ==> rows[i] == old(rows[i])
    {
      var mean := Average(owned, values, index, model);
      Regrouped(work, lo, hi, index);
      if mean.Some? {
        rows[index] := (mean.value, true);
      }
      index := index + 1;
    }
  }

  lemma {:induction false} GatheredWeighs<T>(work: seq<seq<Part<T>>>, lo: nat, hi: nat)
    requires lo <= hi <= |work| && Weighty(work)
    ensures forall j :: 0 <= j < |Gathered(work, lo, hi)| ==> Gathered(work, lo, hi)[j].part.weight > 0
  {
    if lo < hi {
      GatheredWeighs(work, lo, hi - 1);
    }
  }

  /**
    Whatever the batch size and whichever attempts run out of memory, work that
    completes leaves the rows the loop over windows would leave.
   */
  method Batched<T>(adapter: Adapter<T, real>, work: seq<seq<Part<T>>>, acoustic: Option<seq<Part<T>> -> (real, bool)>,
                    size: nat, perWindow: nat, rows: array<(real, bool)>, side: array<(real, bool)>)
    returns (r: Result<set<nat>, Error>)
    requires adapter.Valid() && size >= 1 && perWindow >= 1 && Weighty(work)
    requires rows.Length == side.Length == |work| && rows != side
    modifies adapter, rows, side
    ensures r.Ok? ==> Extracted(old(rows[..]), rows[..], work, adapter.model, |work|)
    ensures r.Ok? ==> Heard(old(side[..]), side[..], work, acoustic, |work|)
    ensures r.Ok? ==> r.value == set i: nat | i < |work| && work[i] == []
    ensures r.Err? ==> r.error != NothingToJoin
  {
    hide Mean, Weighted, Weight, Gathered;
    var group := if size / perWindow < 1 then 1 else size / perWindow;
    var missing: set<nat> := {};
    var offset := 0;
    while offset < |work|
      invariant offset <= |work| && adapter.Valid()
      invariant Extracted(old(rows[..]), rows[..], work, adapter.model, offset)
      invariant Heard(old(side[..]), side[..], work, acoustic, offset)
      invariant missing == set i: nat | i < offset && work[i] == []
    {
      var end := Min(offset + group, |work|);
      ghost var before := rows[..];
      var owned, silent := Gather(work, offset, end, acoustic, side);
      if owned != [] {
        var values := adapter.InferBatches(Items(owned), size);
        if values.Err? {
          return Err(values.error);
        }
        Spread(work, offset, end, owned, values.value, adapter.model, rows);
      } else {
        forall i | offset <= i < end ensures work[i] == [] {
          Regrouped(work, offset, end, i);
        }
      }
      assert forall i :: offset <= i < end ==> rows[i] == Row(before[i], work[i], adapter.model);
      missing := missing + silent;
      offset := end;
    }
    r := Ok(missing);
  }

  /** Both forms write the same rows, acoustic ones included. */
  lemma FormsAgree<T>(before: seq<(real, bool)>, a: seq<(real, bool)>, b: seq<(real, bool)>, work: seq<seq<Part<T>>>, model: T -> real,
                      beside: seq<(real, bool)>, c: seq<(real, bool)>, d: seq<(real, bool)>,
                      acoustic: Option<seq<Part<T>> -> (real, bool)>)
    requires Extracted(before, a, work, model, |work|) && Extracted(before, b, work, model, |work|)
    requires Heard(beside, c, work, acoustic, |work|) && Heard(beside, d, work, acoustic, |work|)
    ensures a == b && c == d
  {
    forall i | 0 <= i < |work| ensures a[i] == b[i] && c[i] == d[i] {
      assert a[i] == Row(before[i], work[i], model);
      assert c[i] == Beside(beside[i], work[i], acoustic);
    }
  }

  // ------------------------------------------------------------ what a row means

  /** Sums and weights, one part at a time. */
  lemma OnePartMore<T>(parts: seq<Part<T>>, part: Part<T>, model: T -> real)
    ensures Weight(parts + [part]) == Weight(parts) + part.weight
    ensures Weighted(parts + [part], model) == Weighted(parts, model) + part.weight as real * model(part.item)
    ensures Weight<T>([]) == 0 && Weighted([], model) == 0.0
  {
    assert (parts + [part])[..|parts|] == parts;
  }

  /**
    The row of a window with items is marked valid, and its value times the
    window's weight is the weighted sum; a window without items keeps its row.
    The acoustic row is what the acoustic model makes of the same items.
   */
  lemma RowsMean<T>(before: seq<(real, bool)>, after: seq<(real, bool)>, work: seq<seq<Part<T>>>, model: T -> real, i: nat,
                    beside: seq<(real, bool)>, side: seq<(real, bool)>, acoustic: Option<seq<Part<T>> -> (real, bool)>)
    requires Extracted(before, after, work, model, |work|) && Heard(beside, side, work, acoustic, |work|)
    requires Weighty(work) && i < |work|
    ensures work[i] != [] ==> after[i].1 && after[i].0 * Weight(work[i]) as real == Weighted(work[i], model)
    ensures work[i] == [] ==> after[i] == before[i] && side[i] == beside[i]
    ensures work[i] != [] && acoustic.Some? ==> side[i] == acoustic.value(work[i])
    ensures acoustic == None ==> side[i] == beside[i]
  {
    if work[i] != [] {
      HasWeight(work[i]);
      Divided(Weighted(work[i], model), Weight(work[i]) as real);
    }
  }

  lemma Divided(sum: real, w: real)
    requires w > 0.0
    ensures (sum / w) * w == sum
  {
  }

  lemma {:induction false} WeightedOfEquals<T>(parts: seq<Part<T>>, model: T -> real, value: real)
    requires forall j :: 0 <= j < |parts| ==> model(parts[j].item) == value
    ensures Weighted(parts, model) == value * Weight(parts) as real
  {
    if parts != [] {
      var n := |parts| - 1;
      WeightedOfEquals(parts[..n], model, value);
      var w, v := Weight(parts[..n]) as real, parts[n].weight as real;
      assert value * w + v * value == value * (w + v);
    }
  }

  /** A window whose items agree, such as one with a single item, has their value. */
  lemma MeanOfEquals<T>(parts: seq<Part<T>>, model: T -> real, value: real)
    requires Weight(parts) > 0 && forall j :: 0 <= j < |parts| ==> model(parts[j].item) == value
    ensures Mean(parts, model) == value
  {
    hide Weight, Weighted;
    WeightedOfEquals(parts, model, value);
    Undone(value, Weight(parts) as real);
  }

  lemma Undone(value: real, w: real)
    requires w > 0.0
    ensures (value * w) / w == value
  {
    var q := (value * w) / w;
    assert q * w == value * w;
    assert (q - value) * w == 0.0;
  }

  // --------------------------------------------------- parts averaged in pieces

  function Plain<T>(items: seq<T>): (parts: seq<Part<T>>)
    ensures |parts| == |items| && forall j :: 0 <= j < |parts| ==> parts[j] == Part(items[j], 1)
  {
    seq(|items|, j requires 0 <= j < |items| => Part(items[j], 1))
  }

  /** The frames of a window cut into pieces of at most `size`. */
  function Pieces<T>(items: seq<T>, size: nat): (pieces: seq<seq<T>>)
    requires size >= 1
    ensures forall i :: 0 <= i < |pieces| ==> 0 < |pieces[i]| <= size
    decreases |items|
  {
    if items == [] then []
    else if |items| <= size then [items]
    else [items[..size]] + Pieces(items[size..], size)
  }

  function Joined<T>(pieces: seq<seq<T>>): seq<T> {
    if pieces == [] then [] else pieces[0] + Joined(pieces[1..])
  }

  lemma {:induction false} PiecesJoin<T>(items: seq<T>, size: nat)
    requires size >= 1
    ensures Joined(Pieces(items, size)) == items
    decreases |items|
  {
    if items == [] {
    } else if |items| <= size {
      assert Pieces(items, size)[1..] == [];
      assert Joined(Pieces(items, size)) == items + [];
    } else {
      PiecesJoin(items[size..], size);
      assert Pieces(items, size)[1..] == Pieces(items[size..], size);
    }
  }

  lemma {:induction false} PlainWeight<T>(items: seq<T>)
    ensures Weight(Plain(items)) == |items|
  {
    if items != [] {
      assert Plain(items)[..|items| - 1] == Plain(items[..|items| - 1]);
      PlainWeight(items[..|items| - 1]);
    }
  }

  /** What one piece adds: its mean, weighted by its length. */
  function PieceValue<T>(piece: seq<T>, model: T -> real): real {
    |piece| as real * Mean(Plain(piece), model)
  }

  function PieceSum<T>(pieces: seq<seq<T>>, model: T -> real): real {
    if pieces == [] then 0.0 else PieceValue(pieces[0], model) + PieceSum(pieces[1..], model)
  }

  lemma {:induction false} WeightedJoined<T>(a: seq<T>, b: seq<T>, model: T -> real)
    ensures Weighted(Plain(a + b), model) == Weighted(Plain(a), model) + Weighted(Plain(b), model)
  {
    if b == [] {
      assert a + b == a;
    } else {
      var n := |b| - 1;
      assert Plain(a + b)[..|a| + n] == Plain(a + b[..n]);
      assert Plain(b)[..n] == Plain(b[..n]);
      WeightedJoined(a, b[..n], model);
    }
  }

  lemma PieceValueIsSum<T>(piece: seq<T>, model: T -> real)
    requires piece != []
    ensures PieceValue(piece, model) == Weighted(Plain(piece), model)
  {
    PlainWeight(piece);
    var sum, n := Weighted(Plain(piece), model), |piece| as real;
    assert n * (sum / n) == sum;
  }

  /** What the pieces of all items together sum up to, for means already replaced by sums. */
  function SumOfSums<T>(pieces: seq<seq<T>>, model: T -> real): real {
    if pieces == [] then 0.0 else Weighted(Plain(pieces[0]), model) + SumOfSums(pieces[1..], model)
  }

  lemma {:induction false} SumsAreSum<T>(pieces: seq<seq<T>>, model: T -> real)
    ensures SumOfSums(pieces, model) == Weighted(Plain(Joined(pieces)), model)
  {
    if pieces != [] {
      SumsAreSum(pieces[1..], model);
      WeightedJoined(pieces[0], Joined(pieces[1..]), model);
    }
  }

  lemma {:induction false} PieceSumIsSum<T>(pieces: seq<seq<T>>, model: T -> real)
    requires forall i :: 0 <= i < |pieces| ==> pieces[i] != []
    ensures PieceSum(pieces, model) == SumOfSums(pieces, model)
  {
    if pieces != [] {
      PieceSumIsSum(pieces[1..], model);
      PieceValueIsSum(pieces[0], model);
    }
  }

  /**
    The loop over windows averages the frames of a window piece by piece; for any
    piece size that is the mean the batched form takes of all of them at once.
   */
  lemma PiecewiseMean<T>(items: seq<T>, size: nat, model: T -> real)
    requires items != [] && size >= 1
    ensures PieceSum(Pieces(items, size), model) / |items| as real == Mean(Plain(items), model)
  {
    PiecesJoin(items, size);
    PieceSumIsSum(Pieces(items, size), model);
    SumsAreSum(Pieces(items, size), model);
    PlainWeight(items);
  }

  // -------------------------------------------------------------- audio pieces

  const CHUNK := 80000

  /** A window's audio as the model takes it: pieces of bounded length that weigh their length. */
  function AudioParts(audio: seq<real>): (parts: seq<Part<seq<real>>>)
    ensures |parts| == |Pieces(audio, CHUNK)|
    ensures forall i :: 0 <= i < |parts| ==> parts[i] == Part(Pieces(audio, CHUNK)[i], |Pieces(audio, CHUNK)[i]|)
  {
    var pieces := Pieces(audio, CHUNK);
    seq(|pieces|, i requires 0 <= i < |pieces| => Part(pieces[i], |pieces[i]|))
  }

  lemma {:induction false} PartsWeigh(pieces: seq<seq<real>>, parts: seq<Part<seq<real>>>)
    requires |parts| == |pieces| && forall i :: 0 <= i < |parts| ==> parts[i].weight == |pieces[i]|
    ensures Weight(parts) == |Joined(pieces)|
  {
    if pieces != [] {
      var n := |pieces| - 1;
      PartsWeigh(pieces[..n], parts[..n]);
      JoinedLast(pieces);
    }
  }

  lemma {:induction false} JoinedLast<T>(pieces: seq<seq<T>>)
    requires pieces != []
    ensures Joined(pieces) == Joined(pieces[..|pieces| - 1]) + pieces[|pieces| - 1]
  {
    if |pieces| == 1 {
      assert pieces[1..] == [] && pieces[..0] == [];
      assert Joined(pieces) == pieces[0] + [] && [] + pieces[0] == pieces[0];
    } else {
      JoinedLast(pieces[1..]);
      assert pieces[1..][..|pieces| - 2] == pieces[..|pieces| - 1][1..];
    }
  }

  /** The pieces are the audio, in order, and together weigh its length; only silence has none. */
  lemma AudioIsCovered(audio: seq<real>)
    ensures Joined(Pieces(audio, 80000)) == audio && Weight(AudioParts(audio)) == |audio|
    ensures AudioParts(audio) == [] <==> audio == []
    ensures forall i :: 0 <= i < |AudioParts(audio)| ==> 0 < AudioParts(audio)[i].weight <= 80000
  {
    PiecesJoin(audio, CHUNK);
    PartsWeigh(Pieces(audio, CHUNK), AudioParts(audio));
  }
}
