/**
  Attention pooling of a bag in chunks, with a running maximum, against softmax
  pooling of the whole bag. Numbers are real; `exp` is any function with the laws
  of the exponential.
 */
module Pooling {
  import opened Wrappers

  /** A row as the network encodes it: hidden features and one attention score. */
  datatype Encoded = Encoded(hidden: seq<real>, attention: real)

  datatype Error = InvalidChunkSize | InvalidBag | InvalidScore

  predicate Adds(exp: real -> real, x: real, y: real) { exp(x + y) == exp(x) * exp(y) }

  predicate Positive(exp: real -> real, x: real) { exp(x) > 0.0 }

  ghost predicate IsExp(exp: real -> real) {
    && exp(0.0) == 1.0
    && (forall x, y :: Adds(exp, x, y))
    && (forall x :: Positive(exp, x))
  }

  predicate Wide(rows: seq<Encoded>, width: nat) {
    forall i :: 0 <= i < |rows| ==> |rows[i].hidden| == width
  }

  // -------------------------------------------------------- whole-bag softmax

  /** Scores weighted by the exponential of their distance to `m`; for coordinate `d`, or of the weights alone. */
  function Total(exp: real -> real, rows: seq<Encoded>, m: real): real {
    if rows == [] then 0.0
    else Total(exp, rows[..|rows| - 1], m) + exp(rows[|rows| - 1].attention - m)
  }

  function Value(rows: seq<Encoded>, i: nat, d: nat): real
    requires i < |rows|
  {
    if d < |rows[i].hidden| then rows[i].hidden[d] else 0.0
  }

  function Sum(exp: real -> real, rows: seq<Encoded>, d: nat, m: real): real {
    if rows == [] then 0.0
    else
      Sum(exp, rows[..|rows| - 1], d, m) + exp(rows[|rows| - 1].attention - m) * Value(rows, |rows| - 1, d)
  }

  /** The softmax weight of a row in a bag. */
  function Softmax(exp: real -> real, rows: seq<Encoded>, attention: real): real {
    if Total(exp, rows, 0.0) == 0.0 then 0.0 else exp(attention) / Total(exp, rows, 0.0)
  }

  /** Coordinate `d` of the first `n` rows, weighted by their softmax in the whole bag. */
  function Pooled(exp: real -> real, rows: seq<Encoded>, d: nat, n: nat): real
    requires n <= |rows|
  {
    if n == 0 then 0.0
    else Pooled(exp, rows, d, n - 1) + Softmax(exp, rows, rows[n - 1].attention) * Value(rows, n - 1, d)
  }

  // ------------------------------------------------------------ rescaling laws

  /** Measuring from another point multiplies every weight by the same factor. */
  lemma {:induction false} SumRescaled(exp: real -> real, rows: seq<Encoded>, d: nat, m: real, to: real)
    requires IsExp(exp)
    ensures Sum(exp, rows, d, to) == Sum(exp, rows, d, m) * exp(m - to)
  {
    if rows != [] {
      var n := |rows| - 1;
      SumRescaled(exp, rows[..n], d, m, to);
      var a, f := rows[n].attention, exp(m - to);
      assert Adds(exp, a - m, m - to);
      assert exp(a - to) == exp(a - m) * f by { assert (a - m) + (m - to) == a - to; }
      var before, value, w := Sum(exp, rows[..n], d, m), Value(rows, n, d), exp(a - m);
      assert before * f + (w * f) * value == (before + w * value) * f;
    }
  }

  lemma {:induction false} TotalRescaled(exp: real -> real, rows: seq<Encoded>, m: real, to: real, carried: real, factor: real)
    requires IsExp(exp) && carried == Total(exp, rows, m) && factor == exp(m - to)
    ensures carried * factor == Total(exp, rows, to)
  {
    if rows != [] {
      var n := |rows| - 1;
      var a, before := rows[n].attention, Total(exp, rows[..n], m);
      TotalRescaled(exp, rows[..n], m, to, before, factor);
      assert Adds(exp, a - m, m - to);
      assert (a - m) + (m - to) == a - to;
      assert (before + exp(a - m)) * factor == before * factor + exp(a - m) * factor;
    }
  }

  lemma {:induction false} SumsJoin(exp: real -> real, a: seq<Encoded>, b: seq<Encoded>, d: nat, m: real)
    ensures Total(exp, a + b, m) == Total(exp, a, m) + Total(exp, b, m)
    ensures Sum(exp, a + b, d, m) == Sum(exp, a, d, m) + Sum(exp, b, d, m)
  {
    if b == [] {
      assert a + b == a;
    } else {
      assert (a + b)[..|a + b| - 1] == a + b[..|b| - 1];
      SumsJoin(exp, a, b[..|b| - 1], d, m);
    }
  }

  predicate IsMaximum(rows: seq<Encoded>, m: real) {
    && (exists i :: 0 <= i < |rows| && rows[i].attention == m)
    && (forall i :: 0 <= i < |rows| ==> rows[i].attention <= m)
  }

  /** The largest score has weight one, so the denominator never gets small. */
  lemma {:induction false} AtLeastOne(exp: real -> real, rows: seq<Encoded>, m: real, i: nat)
    requires IsExp(exp) && i < |rows| && rows[i].attention == m
    ensures Total(exp, rows, m) >= 1.0
  {
    var n := |rows| - 1;
    assert Positive(exp, rows[n].attention - m);
    if i < n {
      AtLeastOne(exp, rows[..n], m, i);
    } else {
      NotNegative(exp, rows[..n], m);
    }
  }

  lemma {:induction false} NotNegative(exp: real -> real, rows: seq<Encoded>, m: real)
    requires IsExp(exp)
    ensures Total(exp, rows, m) >= 0.0 && (rows != [] ==> Total(exp, rows, m) > 0.0)
  {
    if rows != [] {
      var n := |rows| - 1;
      NotNegative(exp, rows[..n], m);
      assert Positive(exp, rows[n].attention - m);
    }
  }

  lemma {:induction false} PooledIsQuotient(exp: real -> real, rows: seq<Encoded>, d: nat, n: nat)
    requires n <= |rows| && Total(exp, rows, 0.0) > 0.0
    ensures Pooled(exp, rows, d, n) == Sum(exp, rows[..n], d, 0.0) / Total(exp, rows, 0.0)
  {
    if n > 0 {
      PooledIsQuotient(exp, rows, d, n - 1);
      assert rows[..n][..n - 1] == rows[..n - 1];
      var t, before, w, v := Total(exp, rows, 0.0), Sum(exp, rows[..n - 1], d, 0.0), exp(rows[n - 1].attention), Value(rows, n - 1, d);
      assert rows[n - 1].attention - 0.0 == rows[n - 1].attention;
      assert before / t + (w / t) * v == (before + w * v) / t;
    }
  }

  /** Numerator over denominator, measured from any point, is softmax pooling of the whole bag. */
  lemma QuotientIsPooled(exp: real -> real, rows: seq<Encoded>, d: nat, m: real)
    requires IsExp(exp) && rows != []
    ensures Total(exp, rows, m) > 0.0
    ensures Sum(exp, rows, d, m) / Total(exp, rows, m) == Pooled(exp, rows, d, |rows|)
  {
    NotNegative(exp, rows, m);
    NotNegative(exp, rows, 0.0);
    SumRescaled(exp, rows, d, m, 0.0);
    TotalRescaled(exp, rows, m, 0.0, Total(exp, rows, m), exp(m - 0.0));
    PooledIsQuotient(exp, rows, d, |rows|);
    assert rows[..|rows|] == rows;
    assert Positive(exp, m - 0.0);
    Cancels(Sum(exp, rows, d, m), Total(exp, rows, m), exp(m - 0.0));
  }

  lemma Cancels(a: real, b: real, f: real)
    requires b != 0.0 && f != 0.0
    ensures b * f != 0.0 && (a * f) / (b * f) == a / b
  {
    var q := a / b;
    assert a == q * b;
    assert a * f == q * (b * f);
  }

  // ------------------------------------------------------------- the chunked form

  method Largest(rows: seq<Encoded>) returns (m: real)
    requires rows != []
    ensures IsMaximum(rows, m)
  {
    m := rows[0].attention;
    var i := 1;
    while i < |rows|
      invariant 1 <= i <= |rows|
      invariant exists j :: 0 <= j < i && rows[j].attention == m
      invariant forall j :: 0 <= j < i ==> rows[j].attention <= m
    {
      if rows[i].attention > m {
        m := rows[i].attention;
      }
      i := i + 1;
    }
  }

  /** The weights of one chunk and its weighted features, measured from `m`. */
  method Local(exp: real -> real, rows: seq<Encoded>, width: nat, m: real) returns (denominator: real, numerator: seq<real>)
    requires Wide(rows, width)
    ensures denominator == Total(exp, rows, m)
    ensures |numerator| == width && forall d :: 0 <= d < width ==> numerator[d] == Sum(exp, rows, d, m)
  {
    denominator, numerator := 0.0, seq(width, _ => 0.0);
    var i := 0;
    while i < |rows|
      invariant i <= |rows| && denominator == Total(exp, rows[..i], m)
      invariant |numerator| == width && forall d :: 0 <= d < width ==> numerator[d] == Sum(exp, rows[..i], d, m)
    {
      assert rows[..i + 1][..i] == rows[..i];
      var weight := exp(rows[i].attention - m);
      denominator := denominator + weight;
      numerator := seq(width, d requires 0 <= d < width => numerator[d] + weight * rows[i].hidden[d]);
      i := i + 1;
    }
    assert rows[..i] == rows;
  }

  /** What is carried from chunk to chunk. */
  datatype Running = Running(maximum: real, denominator: real, numerator: seq<real>)

  /** The prefix is represented exactly: its maximum, its weights and its weighted features. */
  predicate Represents(exp: real -> real, rows: seq<Encoded>, width: nat, r: Running) {
    && IsMaximum(rows, r.maximum) && r.denominator == Total(exp, rows, r.maximum) && r.denominator >= 1.0
    && |r.numerator| == width && forall d :: 0 <= d < width ==> r.numerator[d] == Sum(exp, rows, d, r.maximum)
  }

  lemma MaximumOfBoth(a: seq<Encoded>, b: seq<Encoded>, p: real, q: real)
    requires IsMaximum(a, p) && IsMaximum(b, q)
    ensures IsMaximum(a + b, if q > p then q else p)
  {
    var i :| 0 <= i < |a| && a[i].attention == p;
    var j :| 0 <= j < |b| && b[j].attention == q;
    assert (a + b)[i].attention == p && (a + b)[|a| + j].attention == q;
  }

  /** Rescaling what is carried and adding a chunk's own sums gives the longer prefix's. */
  lemma CarriedSum(exp: real -> real, a: seq<Encoded>, b: seq<Encoded>, d: nat, maximum: real, m: real)
    requires IsExp(exp)
    ensures Sum(exp, a + b, d, m) == Sum(exp, a, d, maximum) * exp(maximum - m) + Sum(exp, b, d, m)
  {
    SumRescaled(exp, a, d, maximum, m);
    SumsJoin(exp, a, b, d, m);
  }

  lemma LargestWeighsOne(exp: real -> real, rows: seq<Encoded>, m: real)
    requires IsExp(exp) && IsMaximum(rows, m)
    ensures Total(exp, rows, m) >= 1.0
  {
    var i :| 0 <= i < |rows| && rows[i].attention == m;
    AtLeastOne(exp, rows, m, i);
  }

  method First(exp: real -> real, chunk: seq<Encoded>, width: nat) returns (r: Running)
    requires IsExp(exp) && Wide(chunk, width) && chunk != []
    ensures Represents(exp, chunk, width, r)
  {
    var m := Largest(chunk);
    var denominator, numerator := Local(exp, chunk, width, m);
    LargestWeighsOne(exp, chunk, m);
    r := Running(m, denominator, numerator);
  }

  function Combined(carried: seq<real>, factor: real, local: seq<real>): (combined: seq<real>)
    requires |carried| == |local|
    ensures |combined| == |carried|
    ensures forall d :: 0 <= d < |combined| ==> combined[d] == carried[d] * factor + local[d]
  {
    seq(|carried|, d requires 0 <= d < |carried| => carried[d] * factor + local[d])
  }

  lemma CombinedIsSum(exp: real -> real, a: seq<Encoded>, b: seq<Encoded>, maximum: real, m: real,
                      carried: seq<real>, local: seq<real>, d: nat)
    requires IsExp(exp) && |carried| == |local| && d < |local|
    requires carried[d] == Sum(exp, a, d, maximum) && local[d] == Sum(exp, b, d, m)
    ensures Combined(carried, exp(maximum - m), local)[d] == Sum(exp, a + b, d, m)
  {
    CarriedSum(exp, a, b, d, maximum, m);
  }

  /** The carried denominator, rescaled, and the chunk's own. */
  method Extended(exp: real -> real, ghost a: seq<Encoded>, ghost b: seq<Encoded>, ghost maximum: real, ghost m: real,
                  carried: real, factor: real, local: real) returns (denominator: real)
    requires IsExp(exp) && carried == Total(exp, a, maximum) && factor == exp(maximum - m) && local == Total(exp, b, m)
    ensures denominator == Total(exp, a + b, m)
  {
    denominator := carried * factor + local;
    TotalRescaled(exp, a, maximum, m, carried, factor);
    SumsJoin(exp, a, b, 0, m);
  }

  /** One more chunk: the running maximum may grow, and what is carried is rescaled to it. */
  method Absorb(exp: real -> real, ghost prefix: seq<Encoded>, chunk: seq<Encoded>, width: nat, before: Running)
    returns (r: Running)
    requires IsExp(exp) && Wide(chunk, width) && chunk != [] && Represents(exp, prefix, width, before)
    ensures Represents(exp, prefix + chunk, width, r)
  {
    var largest := Largest(chunk);
    var m := if largest > before.maximum then largest else before.maximum;
    var local, features := Local(exp, chunk, width, m);
    var factor := exp(before.maximum - m);
    var denominator := Extended(exp, prefix, chunk, before.maximum, m, before.denominator, factor, local);
    r := Running(m, denominator, Combined(before.numerator, factor, features));
    MaximumOfBoth(prefix, chunk, before.maximum, largest);
    LargestWeighsOne(exp, prefix + chunk, m);
    forall d | 0 <= d < width ensures r.numerator[d] == Sum(exp, prefix + chunk, d, m) {
      CombinedIsSum(exp, prefix, chunk, before.maximum, m, before.numerator, features, d);
    }
  }

  method Divide(exp: real -> real, ghost rows: seq<Encoded>, width: nat, r: Running) returns (features: seq<real>)
    requires IsExp(exp) && rows != [] && Represents(exp, rows, width, r)
    ensures |features| == width
    ensures forall d :: 0 <= d < width ==> features[d] == Pooled(exp, rows, d, |rows|)
  {
    features := seq(width, d requires 0 <= d < width => r.numerator[d] / r.denominator);
    forall d | 0 <= d < width ensures features[d] == Pooled(exp, rows, d, |rows|) {
      QuotientIsPooled(exp, rows, d, r.maximum);
    }
  }

  /**
    The pooled features of a bag, chunk by chunk. For every bag that is not empty
    and every positive chunk size they are those of whole-bag softmax pooling.
   */
  method BagFeatures<X>(exp: real -> real, encode: X -> Encoded, width: nat, bag: seq<X>, chunkSize: int)
    returns (r: Result<seq<real>, Error>)
    requires IsExp(exp) && Wide(AllEncoded(encode, bag), width)
    ensures r == Err(InvalidChunkSize) <==> chunkSize <= 0
    ensures r == Err(InvalidBag) <==> chunkSize > 0 && bag == []
    ensures r != Err(InvalidScore)
    ensures r.Ok? ==> |r.value| == width && forall d :: 0 <= d < width ==>
              r.value[d] == Pooled(exp, AllEncoded(encode, bag), d, |bag|)
  {
    hide Represents, Pooled;
    if chunkSize <= 0 {
      return Err(InvalidChunkSize);
    }
    if bag == [] {
      return Err(InvalidBag);
    }
    ghost var rows := AllEncoded(encode, bag);
    var running: Option<Running> := None;
    var start := 0;
    while start < |bag|
      invariant start <= |bag| && (running == None <==> start == 0)
      invariant running.Some? ==> Represents(exp, rows[..start], width, running.value)
    {
      var end := if start + chunkSize < |bag| then start + chunkSize else |bag|;
      var chunk := AllEncoded(encode, bag[start..end]);
      assert chunk == rows[start..end] && rows[..end] == rows[..start] + chunk;
      var next: Running;
      if running == None {
        next := First(exp, chunk, width);
        assert rows[..end] == chunk;
      } else {
        next := Absorb(exp, rows[..start], chunk, width, running.value);
      }
      running, start := Some(next), end;
    }
    assert rows[..start] == rows;
    var features := Divide(exp, rows, width, running.value);
    r := Ok(features);
  }

  function AllEncoded<X>(encode: X -> Encoded, bag: seq<X>): (rows: seq<Encoded>)
    ensures |rows| == |bag| && forall i :: 0 <= i < |rows| ==> rows[i] == encode(bag[i])
  {
    seq(|bag|, i requires 0 <= i < |bag| => encode(bag[i]))
  }

  // ------------------------------------------------------------------ the score

  /** The last layer of the network. */
  datatype Classifier = Classifier(weights: seq<real>, bias: real)

  function Dot(weights: seq<real>, features: seq<real>, n: nat): real
    requires n <= |weights| && n <= |features|
  {
    if n == 0 then 0.0 else Dot(weights, features, n - 1) + weights[n - 1] * features[n - 1]
  }

  function Sigmoid(exp: real -> real, x: real): real {
    if 1.0 + exp(-x) == 0.0 then 0.0 else 1.0 / (1.0 + exp(-x))
  }

  function WholeBag(exp: real -> real, rows: seq<Encoded>, width: nat): (features: seq<real>)
    ensures |features| == width
  {
    seq(width, d requires 0 <= d < width => Pooled(exp, rows, d, |rows|))
  }

  /** The network's answer for the whole bag at once. */
  function Score(exp: real -> real, classifier: Classifier, rows: seq<Encoded>): real {
    var width := |classifier.weights|;
    Sigmoid(exp, Dot(classifier.weights, WholeBag(exp, rows, width), width) + classifier.bias)
  }

  lemma SigmoidIsInside(exp: real -> real, x: real)
    requires IsExp(exp)
    ensures 0.0 < Sigmoid(exp, x) < 1.0
  {
    assert Positive(exp, -x);
    var y := 1.0 + exp(-x);
    assert y > 1.0 && (1.0 / y) * y == 1.0;
  }

  lemma QuotientIs(a: real, b: real, q: real)
    requires b > 0.0 && a == q * b
    ensures a / b == q
  {
    var r := a / b;
    assert r * b == a;
    assert (r - q) * b == 0.0;
  }

  method Logit(classifier: Classifier, features: seq<real>) returns (logit: real)
    requires |features| == |classifier.weights|
    ensures logit == Dot(classifier.weights, features, |features|) + classifier.bias
  {
    logit := 0.0;
    var d := 0;
    while d < |features|
      invariant d <= |features| && logit == Dot(classifier.weights, features, d)
    {
      logit := logit + classifier.weights[d] * features[d];
      d := d + 1;
    }
    logit := logit + classifier.bias;
  }

  /** The weighted sum is linear in every feature, and zero without any. */
  lemma {:induction false} DotFollows(weights: seq<real>, features: seq<real>, n: nat, d: nat, value: real)
    requires n <= |weights| && n <= |features| && d < |features|
    ensures Dot(weights, features[d := value], n) ==
            Dot(weights, features, n) + if d < n then weights[d] * (value - features[d]) else 0.0
  {
    if n > 0 {
      DotFollows(weights, features, n - 1, d, value);
      if d == n - 1 {
        assert weights[d] * value == weights[d] * (value - features[d]) + weights[d] * features[d];
      }
    }
  }

  lemma {:induction false} DotOfNothing(weights: seq<real>, features: seq<real>, n: nat)
    requires n <= |weights| && n <= |features| && forall d :: 0 <= d < n ==> features[d] == 0.0
    ensures Dot(weights, features, n) == 0.0
  {
    if n > 0 {
      DotOfNothing(weights, features, n - 1);
    }
  }

  /** The score is the one whose odds are the exponential of the logit. */
  lemma OddsAreExponential(exp: real -> real, x: real)
    requires IsExp(exp)
    ensures Sigmoid(exp, x) == exp(x) * (1.0 - Sigmoid(exp, x))
    ensures Sigmoid(exp, 0.0) == 0.5
  {
    assert Positive(exp, -x) && Positive(exp, x) && Adds(exp, x, -x);
    assert x + -x == 0.0;
    var e, f := exp(-x), exp(x);
    assert f * e == 1.0;
    var q := 1.0 / (1.0 + e);
    assert q * (1.0 + e) == 1.0;
    assert q + q * e == 1.0;
    assert f * (1.0 - q) == f * (q * e) == q * (f * e) == q;
    assert -0.0 == 0.0;
  }

  predicate Orders(exp: real -> real, x: real, y: real) { x < y ==> exp(x) < exp(y) }

  /** A larger logit gives a larger score. */
  lemma ScoreGrows(exp: real -> real, x: real, y: real)
    requires IsExp(exp) && x < y && Orders(exp, x, y)
    ensures Sigmoid(exp, x) < Sigmoid(exp, y)
  {
    OddsAreExponential(exp, x);
    OddsAreExponential(exp, y);
    SigmoidIsInside(exp, x);
    SigmoidIsInside(exp, y);
    var p, q, f, g := Sigmoid(exp, x), Sigmoid(exp, y), exp(x), exp(y);
    if p >= q {
      OddsDiffer(p, q, f, g);
    }
  }

  lemma OddsDiffer(p: real, q: real, f: real, g: real)
    requires p == f * (1.0 - p) && q == g * (1.0 - q) && 0.0 < f < g && 0.0 < p < 1.0 && 0.0 < q < 1.0
    ensures p < q
  {
    assert p * (1.0 + f) == f && q * (1.0 + g) == g;
    assert p * (1.0 + f) * (1.0 + g) == f * (1.0 + g);
    assert q * (1.0 + g) * (1.0 + f) == g * (1.0 + f);
    assert f * (1.0 + g) < g * (1.0 + f);
    var a := (1.0 + f) * (1.0 + g);
    assert a > 0.0 && p * a < q * a;
  }

  // ---- what pooling weighs

  /** The weights of the rows of a bag. */
  function Weights(exp: real -> real, rows: seq<Encoded>, n: nat): real
    requires n <= |rows|
  {
    if n == 0 then 0.0 else Weights(exp, rows, n - 1) + Softmax(exp, rows, rows[n - 1].attention)
  }

  lemma {:induction false} WeightsAre(exp: real -> real, rows: seq<Encoded>, n: nat)
    requires n <= |rows| && Total(exp, rows, 0.0) > 0.0
    ensures Weights(exp, rows, n) * Total(exp, rows, 0.0) == Total(exp, rows[..n], 0.0)
  {
    if n > 0 {
      WeightsAre(exp, rows, n - 1);
      assert rows[..n][..n - 1] == rows[..n - 1];
      assert rows[n - 1].attention - 0.0 == rows[n - 1].attention;
      var t, w := Total(exp, rows, 0.0), exp(rows[n - 1].attention);
      assert (w / t) * t == w;
      assert (Weights(exp, rows, n - 1) + w / t) * t == Weights(exp, rows, n - 1) * t + w;
    }
  }

  lemma OnlyOne(w: real, t: real)
    requires t > 0.0 && w * t == t
    ensures w == 1.0
  {
    assert (w - 1.0) * t == 0.0;
  }

  /** They sum to one. */
  lemma WeightsSumToOne(exp: real -> real, rows: seq<Encoded>)
    requires IsExp(exp) && rows != []
    ensures Weights(exp, rows, |rows|) == 1.0
  {
    hide IsExp, Weights;
    NotNegative(exp, rows, 0.0);
    WeightsAre(exp, rows, |rows|);
    assert rows[..|rows|] == rows;
    OnlyOne(Weights(exp, rows, |rows|), Total(exp, rows, 0.0));
  }

  /** They are positive, and any two are in the ratio of the exponentials of their scores. */
  lemma WeightsCompare(exp: real -> real, rows: seq<Encoded>, i: nat, j: nat)
    requires IsExp(exp) && i < |rows| && j < |rows|
    ensures Softmax(exp, rows, rows[i].attention) > 0.0
    ensures Softmax(exp, rows, rows[i].attention) * exp(rows[j].attention)
            == Softmax(exp, rows, rows[j].attention) * exp(rows[i].attention)
  {
    NotNegative(exp, rows, 0.0);
    assert Positive(exp, rows[i].attention) && Positive(exp, rows[j].attention);
    var t, a, b := Total(exp, rows, 0.0), exp(rows[i].attention), exp(rows[j].attention);
    assert (a / t) * b == a * b / t == (b / t) * a;
  }

  /** What one row contributes to a pooled coordinate is its weight times its value. */
  lemma {:induction false} PooledFollows(exp: real -> real, rows: seq<Encoded>, other: seq<Encoded>, d: nat, n: nat, i: nat)
    requires n <= |rows| == |other| && i < |rows|
    requires forall k :: 0 <= k < |rows| ==> other[k].attention == rows[k].attention
    requires forall k :: 0 <= k < |rows| && k != i ==> Value(other, k, d) == Value(rows, k, d)
    ensures Pooled(exp, other, d, n) == Pooled(exp, rows, d, n)
              + if i < n then Softmax(exp, rows, rows[i].attention) * (Value(other, i, d) - Value(rows, i, d)) else 0.0
  {
    hide Softmax, Value;
    if n > 0 {
      PooledFollows(exp, rows, other, d, n - 1, i);
      SameSoftmax(exp, rows, other, rows[n - 1].attention);
      var w, before, after := Softmax(exp, rows, rows[n - 1].attention), Value(rows, n - 1, d), Value(other, n - 1, d);
      assert w * after == w * (after - before) + w * before;
    }
  }

  lemma SameSoftmax(exp: real -> real, rows: seq<Encoded>, other: seq<Encoded>, a: real)
    requires |rows| == |other| && forall k :: 0 <= k < |rows| ==> other[k].attention == rows[k].attention
    ensures Softmax(exp, rows, a) == Softmax(exp, other, a)
  {
    SameTotal(exp, rows, other, 0.0);
  }

  lemma {:induction false} SameTotal(exp: real -> real, rows: seq<Encoded>, other: seq<Encoded>, m: real)
    requires |rows| == |other| && forall k :: 0 <= k < |rows| ==> other[k].attention == rows[k].attention
    ensures Total(exp, rows, m) == Total(exp, other, m)
  {
    if rows != [] {
      SameTotal(exp, rows[..|rows| - 1], other[..|rows| - 1], m);
    }
  }

  /**
    The score computed in chunks is that of the whole bag, strictly between
    zero and one, so that the check of its range never refuses it; its odds are
    the exponential of the weighted sum of the pooled features and the bias.
   */
  method Probability<X>(exp: real -> real, encode: X -> Encoded, classifier: Classifier, bag: seq<X>, chunkSize: int)
    returns (r: Result<real, Error>)
    requires IsExp(exp) && Wide(AllEncoded(encode, bag), |classifier.weights|)
    ensures r == Err(InvalidChunkSize) <==> chunkSize <= 0
    ensures r == Err(InvalidBag) <==> chunkSize > 0 && bag == []
    ensures r != Err(InvalidScore)
    ensures r.Ok? ==> r.value == Score(exp, classifier, AllEncoded(encode, bag)) && 0.0 < r.value < 1.0
    ensures r.Ok? ==>
      var width := |classifier.weights|;
      var logit := Dot(classifier.weights, WholeBag(exp, AllEncoded(encode, bag), width), width) + classifier.bias;
      r.value / (1.0 - r.value) == exp(logit)
  {
    hide Pooled, Wide, Dot, Sigmoid;
    var width := |classifier.weights|;
    var features := BagFeatures(exp, encode, width, bag, chunkSize);
    if features.Err? {
      return Err(features.error);
    }
    assert features.value == WholeBag(exp, AllEncoded(encode, bag), width);
    var logit := Logit(classifier, features.value);
    var score := Sigmoid(exp, logit);
    SigmoidIsInside(exp, logit);
    OddsAreExponential(exp, logit);
    QuotientIs(score, 1.0 - score, exp(logit));
    if score < 0.0 || score > 1.0 {
      return Err(InvalidScore);
    }
    r := Ok(score);
  }
}
