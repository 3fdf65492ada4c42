/**
  One continuous audio decode cut into adjacent windows while a single frame is
  kept. Frames are placed by sample numbers, windows asked for in seconds.
 */
module AudioWindows {
  import opened Wrappers

  /**
    What the decoder reports next: `count` samples from `pts` on, of which
    `samples` could be read; `intact` when they were whole and finite numbers.
    A `Fault` is anything else: unreadable metadata, or a wait that timed out.
   */
  datatype Item = Frame(pts: int, count: int, samples: seq<real>, intact: bool) | Fault

  /** `limit` is the most samples the window may have. */
  datatype Window = Window(start: int, end: int, limit: nat)

  datatype Error = BadWindows | BadFrame | Overlap | Exceeded | ExitFailed

  const MAX_COUNT := 160000

  predicate Sane(item: Item) {
    item.Frame? && 0 < item.count <= MAX_COUNT && item.intact
  }

  /** A frame may start one sample before the end of the one before it. */
  predicate Follows(items: seq<Item>, k: nat)
    requires k < |items|
  {
    items[k].Frame? && (k > 0 && items[k - 1].Frame? ==> items[k].pts >= items[k - 1].pts + items[k - 1].count - 1)
  }

  predicate Good(items: seq<Item>, k: nat)
    requires k < |items|
  {
    Sane(items[k]) && Follows(items, k)
  }

  /** A read returns no more than was asked for. */
  predicate Bounded(items: seq<Item>) {
    forall k :: 0 <= k < |items| && items[k].Frame? ==> |items[k].samples| <= items[k].count
  }

  predicate AllGood(items: seq<Item>) {
    forall k :: 0 <= k < |items| ==> Good(items, k)
  }

  /** The stream up to its first fault. */
  function Readable(items: seq<Item>, from: nat): (n: nat)
    requires from <= |items|
    ensures from <= n <= |items|
    ensures forall k :: from <= k < n ==> Good(items, k)
    ensures n < |items| ==> !Good(items, n)
    decreases |items| - from
  {
    if from == |items| || !Good(items, from) then from else Readable(items, from + 1)
  }

  predicate Adjacent(windows: seq<Window>) {
    && (forall i :: 0 <= i < |windows| ==> windows[i].start <= windows[i].end)
    && (forall i :: 0 <= i < |windows| - 1 ==> windows[i].end == windows[i + 1].start)
  }

  // ------------------------------------------------------------- the naive form

  function Max(a: int, b: int): int { if a < b then b else a }

  function Min(a: int, b: int): int { if a < b then a else b }

  /** The part of a frame that lies from `lo` up to `hi`. */
  function Piece(f: Item, lo: int, hi: int): seq<real> {
    if f.Fault? then []
    else
      var first, last := Max(0, lo - f.pts), Min(|f.samples|, Max(0, hi - f.pts));
      if last > first then f.samples[first..last] else []
  }

  /** All samples of all frames from `lo` up to `hi`. */
  function Clip(frames: seq<Item>, lo: int, hi: int): seq<real> {
    if frames == [] then [] else Clip(frames[..|frames| - 1], lo, hi) + Piece(frames[|frames| - 1], lo, hi)
  }

  function Clips(frames: seq<Item>, windows: seq<Window>): (clips: seq<seq<real>>)
    ensures |clips| == |windows|
  {
    seq(|windows|, i requires 0 <= i < |windows| => Clip(frames, windows[i].start, windows[i].end))
  }

  /** Later frames never start before an earlier one's last sample. */
  lemma {:induction false} LaterStarts(items: seq<Item>, n: nat, a: nat, b: nat)
    requires a < b < n <= |items| && forall k :: 0 <= k < n ==> Good(items, k)
    ensures items[a].Frame? && items[b].Frame? && items[b].pts >= items[a].pts + items[a].count - 1
  {
    assert Good(items, a) && Good(items, b);
    if b > a + 1 {
      LaterStarts(items, n, a, b - 1);
      assert Good(items, b - 1);
    }
  }

  lemma {:induction false} NothingBefore(frames: seq<Item>, lo: int, hi: int)
    requires forall k :: 0 <= k < |frames| ==> frames[k].Frame? && frames[k].pts + |frames[k].samples| <= lo
    ensures Clip(frames, lo, hi) == []
  {
    if frames != [] {
      NothingBefore(frames[..|frames| - 1], lo, hi);
    }
  }

  lemma {:induction false} NothingAfter(frames: seq<Item>, c: nat, lo: int, hi: int)
    requires c <= |frames|
    requires forall k :: c <= k < |frames| ==> frames[k].Frame? && frames[k].pts >= hi
    ensures Clip(frames, lo, hi) == Clip(frames[..c], lo, hi)
  {
    if c == |frames| {
      assert frames[..c] == frames;
    } else {
      var shorter := frames[..|frames| - 1];
      NothingAfter(shorter, c, lo, hi);
      assert shorter[..c] == frames[..c];
    }
  }

  lemma ClipNext(frames: seq<Item>, c: nat, lo: int, hi: int)
    requires c < |frames|
    ensures Clip(frames[..c + 1], lo, hi) == Clip(frames[..c], lo, hi) + Piece(frames[c], lo, hi)
  {
    assert frames[..c + 1][..c] == frames[..c];
  }

  // ----------------------------------------------------------------- the reader

  /** The decoder's output, read frame by frame. */
  class Stream {
    const items: seq<Item>
    var next: nat
    var ended: bool
    var previousEnd: Option<int>

    ghost predicate Valid()
      reads this
    {
      && next <= |items| && Bounded(items) && (ended ==> next == |items|)
      && (forall k :: 0 <= k < next ==> Good(items, k))
      && (next == 0 ==> previousEnd == None)
      && (next > 0 ==> items[next - 1].Frame? && previousEnd == Some(items[next - 1].pts + items[next - 1].count))
    }

    constructor (items: seq<Item>)
      requires Bounded(items)
      ensures Valid() && this.items == items && next == 0 && !ended
    {
      this.items := items;
      next, ended, previousEnd := 0, false, None;
    }

    method NextFrame() returns (r: Result<Option<Item>, Error>)
      requires Valid() && !ended
      modifies this
      ensures Valid()
      ensures r.Err? <==> old(next) < |items| && !Good(items, old(next))
      ensures r.Err? ==> r.error in {BadFrame, Overlap}
      ensures r.Err? ==> next == old(next)
      ensures r.Ok? ==> ended == (old(next) == |items|)
      ensures r.Ok? ==> if ended then r.value == None && next == old(next)
                        else next == old(next) + 1 && r.value == Some(items[old(next)])
    {
      if next == |items| {
        ended := true;
        return Ok(None);
      }
      var item := items[next];
      if item.Fault? || !(0 < item.count <= MAX_COUNT) {
        return Err(BadFrame);
      }
      if previousEnd.Some? && item.pts < previousEnd.value - 1 {
        return Err(Overlap);
      }
      if !item.intact {
        return Err(BadFrame);
      }
      previousEnd := Some(item.pts + item.count);
      next := next + 1;
      r := Ok(Some(item));
    }
  }

  /** The first `c` frames end by a point in time. */
  predicate Passed(items: seq<Item>, c: nat, point: int)
    requires c <= |items|
  {
    forall k :: 0 <= k < c ==> items[k].Frame? && items[k].pts + |items[k].samples| <= point
  }

  lemma PassedNext(items: seq<Item>, c: nat, point: int)
    requires c < |items| && Passed(items, c, point)
    requires items[c].Frame? && items[c].pts + |items[c].samples| <= point
    ensures Passed(items, c + 1, point)
  {
  }

  lemma NothingPassed(items: seq<Item>, c: nat, lo: int, hi: int)
    requires c <= |items| && lo <= hi && Passed(items, c, lo)
    ensures Clip(items[..c], lo, hi) == [] && Passed(items, c, hi)
  {
    forall k | 0 <= k < c ensures items[..c][k].Frame? && items[..c][k].pts + |items[..c][k].samples| <= lo {
      assert items[..c][k] == items[k];
    }
    NothingBefore(items[..c], lo, hi);
  }

  /** What is kept between frames: nothing, or the last frame that was read. */
  ghost predicate Keeps(stream: Stream, frame: Option<Item>)
    reads stream
  {
    && stream.Valid()
    && (frame.Some? ==> stream.next > 0 && frame.value == stream.items[stream.next - 1] && !stream.ended)
  }

  ghost function Consumed(stream: Stream, frame: Option<Item>): (c: nat)
    requires Keeps(stream, frame)
    reads stream
    ensures c <= |stream.items|
  {
    if frame.Some? then stream.next - 1 else stream.next
  }

  /** Where a frame's last sample is not before a point, later frames start at it or after. */
  lemma LaterAreAfter(items: seq<Item>, n: nat, c: nat, point: int)
    requires c < n <= |items| && forall k :: 0 <= k < n ==> Good(items, k)
    requires items[c].Frame? && items[c].pts + items[c].count - 1 >= point
    ensures forall k :: c < k < n ==> items[k].Frame? && items[k].pts >= point
  {
    forall k | c < k < n ensures items[k].Frame? && items[k].pts >= point {
      LaterStarts(items, n, c, k);
    }
  }

  /** Frames that start after a window add nothing to it. */
  lemma WindowIsDone(items: seq<Item>, n: nat, c: nat, lo: int, hi: int)
    requires c <= n <= |items|
    requires forall k :: c <= k < n ==> items[k].Frame? && items[k].pts >= hi
    ensures Clip(items[..n], lo, hi) == Clip(items[..c], lo, hi)
  {
    NothingAfter(items[..n], c, lo, hi);
    assert items[..n][..c] == items[..c];
  }

  /** A frame that starts after a window or ends after it is the last one the window needs. */
  lemma FrameEndsWindow(items: seq<Item>, n: nat, c: nat, lo: int, hi: int)
    requires c < n <= |items| && Bounded(items) && forall k :: 0 <= k < n ==> Good(items, k)
    ensures Good(items, c) && items[c].Frame?
    ensures items[c].pts >= hi ==> Clip(items[..n], lo, hi) == Clip(items[..c], lo, hi)
    ensures items[c].pts + |items[c].samples| > hi ==> Clip(items[..n], lo, hi) == Clip(items[..c + 1], lo, hi)
  {
    assert Good(items, c);
    if items[c].pts >= hi {
      LaterAreAfter(items, n, c, hi);
      WindowIsDone(items, n, c, lo, hi);
    }
    if items[c].pts + |items[c].samples| > hi {
      LaterAreAfter(items, n, c, hi);
      WindowIsDone(items, n, c + 1, lo, hi);
    }
  }

  method Cut(f: Item, lo: int, hi: int) returns (part: seq<real>)
    requires f.Frame?
    ensures part == Piece(f, lo, hi)
  {
    var first, last := Max(0, lo - f.pts), Min(|f.samples|, Max(0, hi - f.pts));
    part := [];
    if last > first {
      part := f.samples[first..last];
    }
  }

  /** The kept frame, or else the next one; reading ahead does not consume anything. */
  method Fetch(stream: Stream, kept: Option<Item>) returns (r: Result<Option<Item>, Error>)
    requires Keeps(stream, kept)
    modifies stream
    ensures stream.Valid()
    ensures r.Ok? ==> Keeps(stream, r.value) && Consumed(stream, r.value) == old(Consumed(stream, kept))
    ensures r.Ok? ==> if r.value == None then Consumed(stream, None) == Readable(stream.items, 0) && stream.ended
                      else Consumed(stream, r.value) < Readable(stream.items, 0)
    ensures r.Err? ==> Readable(stream.items, 0) < |stream.items| && r.error in {BadFrame, Overlap}
  {
    r := Ok(kept);
    if kept == None && !stream.ended {
      r := stream.NextFrame();
    }
  }

  /** What the next frame does to a window whose samples are complete up to it. */
  lemma FrameSettles(items: seq<Item>, n: nat, c: nat, lo: int, hi: int)
    requires c < n <= |items| && Bounded(items) && Passed(items, c, hi) && forall k :: 0 <= k < n ==> Good(items, k)
    ensures items[c].Frame?
    ensures items[c].pts >= hi ==> Clip(items[..c], lo, hi) == Clip(items[..n], lo, hi)
    ensures Clip(items[..c], lo, hi) + Piece(items[c], lo, hi) == Clip(items[..c + 1], lo, hi)
    ensures items[c].pts + |items[c].samples| > hi ==> Clip(items[..c + 1], lo, hi) == Clip(items[..n], lo, hi)
    ensures items[c].pts + |items[c].samples| <= hi ==> Passed(items, c + 1, hi)
  {
    FrameEndsWindow(items, n, c, lo, hi);
    ClipNext(items, c, lo, hi);
    if items[c].pts + |items[c].samples| <= hi {
      PassedNext(items, c, hi);
    }
  }

  /** One window's samples: from the kept frame, then from new ones until the window's end is reached. */
  method ReadWindow(stream: Stream, kept: Option<Item>, lo: int, hi: int)
    returns (r: Result<seq<real>, Error>, frame: Option<Item>)
    requires Keeps(stream, kept) && lo <= hi && Passed(stream.items, Consumed(stream, kept), lo)
    modifies stream
    ensures stream.Valid()
    ensures r.Ok? ==> Keeps(stream, frame) && Passed(stream.items, Consumed(stream, frame), hi)
    ensures r.Ok? ==> r.value == Clip(stream.items[..Readable(stream.items, 0)], lo, hi)
    ensures r.Err? ==> Readable(stream.items, 0) < |stream.items| && r.error in {BadFrame, Overlap}
  {
    hide Clip, Piece, Readable, Passed;
    frame := kept;
    var audio := [];
    ghost var items, n := stream.items, Readable(stream.items, 0);
    ghost var c := Consumed(stream, frame);
    NothingPassed(items, c, lo, hi);
    while true
      invariant Keeps(stream, frame) && c == Consumed(stream, frame) && Passed(items, c, hi)
      invariant audio == Clip(items[..c], lo, hi)
      decreases |items| - c
    {
      var fetched := Fetch(stream, frame);
      if fetched.Err? {
        return Err(fetched.error), frame;
      }
      frame := fetched.value;
      if frame == None {
        break;
      }
      var current := frame.value;
      FrameSettles(items, n, c, lo, hi);
      if current.pts >= hi {
        break;
      }
      var part := Cut(current, lo, hi);
      audio := audio + part;
      if current.pts + |current.samples| > hi {
        break;
      }
      frame, c := None, c + 1;
    }
    r := Ok(audio);
  }

  /**
    All windows in order, by sample numbers. Each one is what slicing every readable frame would
    give; the whole succeeds exactly when every frame is good and no window has
    too many samples.
   */
  method Split(items: seq<Item>, windows: seq<Window>) returns (yielded: seq<seq<real>>, error: Option<Error>)
    requires Bounded(items) && Adjacent(windows)
    ensures yielded <= Clips(items[..Readable(items, 0)], windows)
    ensures error in {None, Some(BadFrame), Some(Overlap), Some(Exceeded)}
    ensures error == None ==> |yielded| == |windows|
    ensures error == None <==>
            windows == [] || (AllGood(items) && forall i :: 0 <= i < |windows| ==>
              |Clips(items, windows)[i]| <= windows[i].limit)
  {
    hide Clip, Piece;
    yielded := [];
    if windows == [] {
      return yielded, None;
    }
    var stream := new Stream(items);
    var frame: Option<Item> := None;
    ghost var n := Readable(items, 0);
    ghost var clips := Clips(items[..n], windows);
    var i := 0;
    while i < |windows|
      invariant i <= |windows| && fresh(stream) && stream.items == items
      invariant Keeps(stream, frame)
      invariant Passed(items, Consumed(stream, frame), if i < |windows| then windows[i].start else windows[|windows| - 1].end)
      invariant yielded == clips[..i]
      invariant forall k :: 0 <= k < i ==> |clips[k]| <= windows[k].limit
    {
      var read;
      read, frame := ReadWindow(stream, frame, windows[i].start, windows[i].end);
      if read.Err? {
        return yielded, Some(read.error);
      }
      assert read.value == clips[i];
      if |read.value| > windows[i].limit {
        assert AllGood(items) ==> items[..n] == items;
        return yielded, Some(Exceeded);
      }
      yielded := yielded + [read.value];
      i := i + 1;
    }
    while !stream.ended
      invariant fresh(stream) && stream.items == items && stream.Valid()
      decreases |items| - stream.next, if stream.ended then 0 else 1
    {
      var read := stream.NextFrame();
      if read.Err? {
        return yielded, Some(read.error);
      }
    }
    assert items[..n] == items;
    error := None;
  }

  // ------------------------------------------------------ the windows together

  function Joined(parts: seq<seq<real>>): seq<real> {
    if parts == [] then [] else Joined(parts[..|parts| - 1]) + parts[|parts| - 1]
  }

  lemma Regroup(a: seq<real>, b: seq<real>, p: seq<real>, q: seq<real>)
    requires b == [] || p == []
    ensures (a + p) + (b + q) == (a + b) + (p + q)
  {
    if b == [] {
      assert a + b == a && b + q == q;
    } else {
      assert a + p == a && p + q == q;
    }
  }

  /** Once a frame starts before a point, the frames before it have ended by that point. */
  lemma EarlierEnd(frames: seq<Item>, n: nat, mid: int, hi: int)
    requires n + 1 == |frames| && AllGood(frames) && Bounded(frames) && frames[n].Frame? && frames[n].pts < mid
    ensures Clip(frames[..n], mid, hi) == []
  {
    forall k | 0 <= k < n ensures frames[k].Frame? && frames[k].pts + |frames[k].samples| <= mid {
      LaterStarts(frames, n + 1, k, n);
      assert Good(frames, k);
    }
    NothingBefore(frames[..n], mid, hi);
  }

  lemma GoodBefore(frames: seq<Item>, n: nat)
    requires n <= |frames| && AllGood(frames) && Bounded(frames)
    ensures AllGood(frames[..n]) && Bounded(frames[..n])
  {
    forall k | 0 <= k < n ensures Good(frames[..n], k) {
      assert Good(frames, k);
    }
  }

  /** Two adjacent clips are one, because only one frame can lie across their border. */
  lemma {:induction false} ClipsJoin(frames: seq<Item>, lo: int, mid: int, hi: int)
    requires lo <= mid <= hi && AllGood(frames) && Bounded(frames)
    ensures Clip(frames, lo, mid) + Clip(frames, mid, hi) == Clip(frames, lo, hi)
  {
    if frames != [] {
      var n := |frames| - 1;
      assert Good(frames, n);
      GoodBefore(frames, n);
      ClipsJoin(frames[..n], lo, mid, hi);
      if frames[n].pts < mid {
        EarlierEnd(frames, n, mid, hi);
        PiecesJoin(frames[n], lo, mid, hi);
      } else {
        LatePiece(frames[n], lo, mid, hi);
      }
      Regroup(Clip(frames[..n], lo, mid), Clip(frames[..n], mid, hi), Piece(frames[n], lo, mid), Piece(frames[n], mid, hi));
    }
  }

  lemma LatePiece(f: Item, lo: int, mid: int, hi: int)
    requires f.Frame? && lo <= mid <= hi && f.pts >= mid
    ensures Piece(f, lo, mid) == [] && Piece(f, lo, mid) + Piece(f, mid, hi) == Piece(f, lo, hi)
  {
    assert [] + Piece(f, mid, hi) == Piece(f, lo, hi);
  }

  lemma PiecesJoin(f: Item, lo: int, mid: int, hi: int)
    requires lo <= mid <= hi
    ensures Piece(f, lo, mid) + Piece(f, mid, hi) == Piece(f, lo, hi)
  {
  }

  /** All windows joined are all frames clipped to the covered range. */
  lemma {:induction false} WindowsJoin(frames: seq<Item>, windows: seq<Window>)
    requires windows != [] && Adjacent(windows) && AllGood(frames) && Bounded(frames)
    ensures Joined(Clips(frames, windows)) == Clip(frames, windows[0].start, windows[|windows| - 1].end)
    decreases |windows|
  {
    var n := |windows| - 1;
    var clips := Clips(frames, windows);
    if n == 0 {
      assert clips[..0] == [] && Joined(clips) == [] + clips[0];
    } else {
      assert clips[..n] == Clips(frames, windows[..n]);
      WindowsJoin(frames, windows[..n]);
      WindowsGrow(windows, n);
      assert windows[n - 1].end == windows[n].start;
      ClipsJoin(frames, windows[0].start, windows[n].start, windows[n].end);
    }
  }

  lemma {:induction false} WindowsGrow(windows: seq<Window>, n: nat)
    requires n < |windows| && Adjacent(windows)
    ensures windows[0].start <= windows[n].start
  {
    if n > 0 {
      WindowsGrow(windows, n - 1);
      assert windows[n - 1].end == windows[n].start;
    }
  }

  // ------------------------------------------------------- the windows' bounds

  function Ceiling(x: real): (n: int)
    ensures x <= n as real < x + 1.0
  {
    -((-x).Floor)
  }

  function Bound(i: nat, width: real, duration: real): real {
    if i as real * width < duration then i as real * width else duration
  }

  /** Non-overlapping windows over the whole duration, the last one possibly short. */
  function Aligned(duration: real, width: real): (windows: seq<(real, real)>)
    requires duration > 0.0 && width > 0.0
    ensures |windows| == Ceiling(duration / width)
  {
    Positive(duration, width);
    seq(Ceiling(duration / width), i requires i >= 0 => (i as real * width, Bound(i + 1, width, duration)))
  }

  lemma Positive(duration: real, width: real)
    requires duration > 0.0 && width > 0.0
    ensures duration / width > 0.0 && Ceiling(duration / width) >= 1
  {
  }

  lemma Scaled(a: real, b: real, width: real)
    requires width > 0.0
    ensures a < b <==> a * width < b * width
    ensures a <= b <==> a * width <= b * width
  {
  }

  lemma StartsInTime(i: nat, duration: real, width: real)
    requires duration > 0.0 && width > 0.0
    ensures i < Ceiling(duration / width) <==> i as real * width < duration
  {
    var ratio := duration / width;
    assert ratio * width == duration;
    Scaled(i as real, ratio, width);
  }

  lemma WindowAt(i: nat, duration: real, width: real)
    requires duration > 0.0 && width > 0.0 && i < |Aligned(duration, width)|
    ensures var (start, end) := Aligned(duration, width)[i];
            && start == i as real * width && 0.0 < end - start <= width
            && (i + 1 < |Aligned(duration, width)| ==> end == (i + 1) as real * width)
            && (i + 1 == |Aligned(duration, width)| ==> end == duration)
  {
    StartsInTime(i, duration, width);
    StartsInTime(i + 1, duration, width);
    assert (i + 1) as real * width == i as real * width + width;
  }

  /** They begin at zero, touch each other, are positive and no wider than asked, and end with the media. */
  lemma AlignedCovers(duration: real, width: real)
    requires duration > 0.0 && width > 0.0
    ensures var windows := Aligned(duration, width);
            && windows != [] && windows[0].0 == 0.0 && windows[|windows| - 1].1 == duration
            && (forall i :: 0 <= i < |windows| ==> 0.0 < windows[i].1 - windows[i].0 <= width)
            && (forall i :: 0 <= i < |windows| - 1 ==> windows[i].1 == windows[i + 1].0)
  {
    Positive(duration, width);
    var windows := Aligned(duration, width);
    WindowAt(|windows| - 1, duration, width);
    forall i | 0 <= i < |windows|
      ensures 0.0 < windows[i].1 - windows[i].0 <= width
      ensures i + 1 < |windows| ==> windows[i].1 == windows[i + 1].0
    {
      WindowAt(i, duration, width);
    }
  }

  /** In whole samples, however times are rounded as long as order is kept, the windows are adjacent. */
  lemma SampledWindowsAreAdjacent(duration: real, width: real, rounded: real -> int, windows: seq<Window>)
    requires duration > 0.0 && width > 0.0
    requires forall x, y :: x <= y ==> rounded(x) <= rounded(y)
    requires |windows| == |Aligned(duration, width)|
    requires forall i :: 0 <= i < |windows| ==>
               windows[i].start == rounded(Aligned(duration, width)[i].0) && windows[i].end == rounded(Aligned(duration, width)[i].1)
    ensures Adjacent(windows)
  {
    AlignedCovers(duration, width);
    var aligned := Aligned(duration, width);
    forall i | 0 <= i < |windows| ensures windows[i].start <= windows[i].end {
      assert aligned[i].0 <= aligned[i].1;
    }
    forall i | 0 <= i < |windows| - 1 ensures windows[i].end == windows[i + 1].start {
      assert aligned[i].1 == aligned[i + 1].0;
    }
  }

  // ----------------------------------------------------- windows asked for in seconds

  const RATE := 16000

  /** To the nearest whole number, from the middle to the even one. */
  function Round(x: real): (n: int)
    ensures n as real - 0.5 <= x <= n as real + 0.5
  {
    var below := x.Floor;
    var rest := x - below as real;
    if rest < 0.5 || (rest == 0.5 && below % 2 == 0) then below else below + 1
  }

  lemma RoundKeepsOrder(x: real, y: real)
    requires x <= y
    ensures Round(x) <= Round(y)
  {
  }

  /** What the decoder demands of its windows. */
  predicate ValidWindows(windows: seq<(real, real)>) {
    && windows != [] && windows[0].0 == 0.0
    && (forall i :: 0 <= i < |windows| ==> 0.0 < windows[i].1 - windows[i].0 <= 10.0)
    && (forall i :: 0 <= i < |windows| - 1 ==> windows[i].1 == windows[i + 1].0)
  }

  function Sampled(windows: seq<(real, real)>): (sampled: seq<Window>)
    requires forall i :: 0 <= i < |windows| ==> windows[i].0 < windows[i].1
    ensures |sampled| == |windows|
  {
    seq(|windows|, i requires 0 <= i < |windows| =>
      Window(Round(windows[i].0 * RATE as real), Round(windows[i].1 * RATE as real),
             SampleLimit(windows[i].1 - windows[i].0)))
  }

  /** A tenth of a second more than asked for is tolerated. */
  function SampleLimit(length: real): nat
    requires length > 0.0
  {
    Round((length + 0.1) * RATE as real)
  }

  lemma SampledAreAdjacent(windows: seq<(real, real)>)
    requires ValidWindows(windows)
    ensures Adjacent(Sampled(windows)) && Sampled(windows)[0].start == 0
  {
    hide Round;
    forall i | 0 <= i < |windows| ensures Sampled(windows)[i].start <= Sampled(windows)[i].end {
      RoundKeepsOrder(windows[i].0 * RATE as real, windows[i].1 * RATE as real);
    }
    RoundOfZero();
  }

  lemma RoundOfZero()
    ensures Round(0.0) == 0
  {
  }

  /**
    The decode as its callers see it: windows in seconds are refused or cut as
    above, and the exit code of the decoder is looked at after the last frame.
   */
  method AudioWindows(items: seq<Item>, windows: seq<(real, real)>, exitCode: int)
    returns (yielded: seq<seq<real>>, error: Option<Error>)
    requires Bounded(items)
    ensures error == Some(BadWindows) <==> windows != [] && !ValidWindows(windows)
    ensures error == Some(BadWindows) || windows == [] ==> yielded == []
    ensures ValidWindows(windows) ==>
              && yielded <= Clips(items[..Readable(items, 0)], Sampled(windows))
              && (error == None || error == Some(ExitFailed) ==> |yielded| == |windows|)
              && (error == None || error == Some(ExitFailed) <==>
                    AllGood(items) && forall i :: 0 <= i < |windows| ==>
                      |Clips(items, Sampled(windows))[i]| <= SampleLimit(windows[i].1 - windows[i].0))
    ensures error == Some(ExitFailed) ==> exitCode != 0
    ensures error == None ==> windows == [] || exitCode == 0
  {
    hide Clip, Round;
    if windows == [] {
      return [], None;
    }
    if windows[0].0 != 0.0 {
      return [], Some(BadWindows);
    }
    var i := 0;
    while i < |windows|
      invariant i <= |windows| && forall k :: 0 <= k < i ==> 0.0 < windows[k].1 - windows[k].0 <= 10.0
    {
      if !(0.0 < windows[i].1 - windows[i].0 <= 10.0) {
        return [], Some(BadWindows);
      }
      i := i + 1;
    }
    i := 0;
    while i < |windows| - 1
      invariant i <= |windows| - 1 && forall k :: 0 <= k < i ==> windows[k].1 == windows[k + 1].0
    {
      if windows[i].1 != windows[i + 1].0 {
        return [], Some(BadWindows);
      }
      i := i + 1;
    }
    SampledAreAdjacent(windows);
    yielded, error := Split(items, Sampled(windows));
    if error == None && exitCode != 0 {
      error := Some(ExitFailed);
    }
  }

  /** Aligned windows of at most ten seconds are never refused. */
  lemma AlignedAreValid(duration: real, width: real)
    requires duration > 0.0 && 0.0 < width <= 10.0
    ensures ValidWindows(Aligned(duration, width))
  {
    AlignedCovers(duration, width);
  }

  /** Together they yield every sample of the media, from its start to its rounded end, once. */
  lemma AlignedWindowsJoin(frames: seq<Item>, duration: real, width: real)
    requires duration > 0.0 && 0.0 < width <= 10.0 && AllGood(frames) && Bounded(frames)
    ensures ValidWindows(Aligned(duration, width))
    ensures Joined(Clips(frames, Sampled(Aligned(duration, width)))) == Clip(frames, 0, Round(duration * RATE as real))
  {
    hide Clip, Round;
    var aligned := Aligned(duration, width);
    AlignedCovers(duration, width);
    SampledAreAdjacent(aligned);
    WindowsJoin(frames, Sampled(aligned));
  }

  // ------------------------------------------------------------ sample by sample

  /** Those of a frame's first `n` samples that lie from `lo` up to `hi`. */
  function Within(f: Item, lo: int, hi: int, n: nat): seq<real>
    requires f.Frame? && n <= |f.samples|
  {
    if n == 0 then []
    else Within(f, lo, hi, n - 1) + if lo <= f.pts + n - 1 < hi then [f.samples[n - 1]] else []
  }

  function AllWithin(frames: seq<Item>, lo: int, hi: int): seq<real> {
    if frames == [] then []
    else
      var last := frames[|frames| - 1];
      AllWithin(frames[..|frames| - 1], lo, hi) + if last.Frame? then Within(last, lo, hi, |last.samples|) else []
  }

  lemma {:induction false} WithinIsSlice(f: Item, lo: int, hi: int, n: nat)
    requires f.Frame? && n <= |f.samples|
    ensures var first, last := Max(0, lo - f.pts), Min(n, Max(0, hi - f.pts));
            Within(f, lo, hi, n) == if last > first then f.samples[first..last] else []
  {
    if n > 0 {
      WithinIsSlice(f, lo, hi, n - 1);
    }
  }

  lemma PieceIsFilter(f: Item, lo: int, hi: int)
    requires f.Frame?
    ensures Piece(f, lo, hi) == Within(f, lo, hi, |f.samples|)
  {
    WithinIsSlice(f, lo, hi, |f.samples|);
  }

  /** A clip has exactly the samples whose place on the time line lies in it, in order. */
  lemma {:induction false} ClipIsFilter(frames: seq<Item>, lo: int, hi: int)
    ensures Clip(frames, lo, hi) == AllWithin(frames, lo, hi)
  {
    hide Within, Max, Min;
    if frames != [] {
      var last := frames[|frames| - 1];
      ClipIsFilter(frames[..|frames| - 1], lo, hi);
      if last.Frame? {
        PieceIsFilter(last, lo, hi);
      } else {
        assert Piece(last, lo, hi) == [];
      }
    }
  }

  /** What makes a frame good: its own data, and an overlap of one sample at most with the one before. */
  lemma GoodIff(items: seq<Item>, k: nat)
    requires k < |items|
    ensures Good(items, k) <==>
      && items[k].Frame? && 1 <= items[k].count <= 160000 && items[k].intact
      && (k == 0 || items[k - 1].Fault? || items[k].pts + 1 >= items[k - 1].pts + items[k - 1].count)
  {
  }

  /** Frames that do not overlap never fill a window with more samples than it is long. */
  lemma {:induction false} ClipIsBounded(frames: seq<Item>, lo: int, hi: int, end: int)
    requires lo <= end <= hi && Bounded(frames)
    requires forall k :: 0 <= k < |frames| ==> frames[k].Frame? && frames[k].pts + frames[k].count <= end
    requires forall k :: 0 < k < |frames| ==> frames[k].pts >= frames[k - 1].pts + frames[k - 1].count
    requires forall k :: 0 <= k < |frames| ==> frames[k].count > 0
    ensures |Clip(frames, lo, hi)| <= end - lo
  {
    if frames != [] {
      var n := |frames| - 1;
      var start := if frames[n].pts < lo then lo else frames[n].pts;
      if frames[n].pts >= lo {
        forall k | 0 <= k < n ensures frames[k].pts + frames[k].count <= frames[n].pts {
          Earlier(frames, k, n);
        }
        ClipIsBounded(frames[..n], lo, hi, frames[n].pts);
      } else {
        forall k | 0 <= k < n ensures frames[..n][k].Frame? && frames[..n][k].pts + |frames[..n][k].samples| <= lo {
          Earlier(frames, k, n);
        }
        NothingBefore(frames[..n], lo, hi);
      }
      assert |Piece(frames[n], lo, hi)| <= end - start;
    }
  }

  lemma {:induction false} Earlier(frames: seq<Item>, k: nat, n: nat)
    requires k < n < |frames| && forall i :: 0 <= i < |frames| ==> frames[i].Frame? && frames[i].count > 0
    requires forall i :: 0 < i < |frames| ==> frames[i].pts >= frames[i - 1].pts + frames[i - 1].count
    ensures frames[k].pts + frames[k].count <= frames[n].pts
  {
    if k < n - 1 {
      Earlier(frames, k, n - 1);
    }
  }

  /** The tolerance is a tenth of a second over the window's length, and no window is refused for rounding. */
  lemma LimitTolerates(start: real, end: real)
    requires 0.0 <= start < end
    ensures Round(end * 16000.0) - Round(start * 16000.0) <= SampleLimit(end - start)
    ensures (end - start) * 16000.0 + 1599.5 <= SampleLimit(end - start) as real <= (end - start) * 16000.0 + 1600.5
  {
    assert (end - start + 0.1) * 16000.0 == end * 16000.0 - start * 16000.0 + 1600.0;
  }

  /** Halves go to the even neighbour. */
  lemma HalvesAreRoundedToEven(n: int)
    ensures Round(n as real) == n && Round(n as real + 0.25) == n && Round(n as real + 0.75) == n + 1
    ensures Round(n as real + 0.5) == if n % 2 == 0 then n else n + 1
  {
    assert (n as real).Floor == n && (n as real + 0.25).Floor == n && (n as real + 0.5).Floor == n && (n as real + 0.75).Floor == n;
  }

  /** Windows are refused exactly for a late start, an empty or too long window, or a gap. */
  lemma RefusedIff(windows: seq<(real, real)>)
    requires windows != []
    ensures !ValidWindows(windows) <==>
      || windows[0].0 < 0.0 || windows[0].0 > 0.0
      || (exists i :: 0 <= i < |windows| && (windows[i].1 <= windows[i].0 || windows[i].1 > windows[i].0 + 10.0))
      || (exists i :: 0 <= i < |windows| - 1 && (windows[i].1 < windows[i + 1].0 || windows[i].1 > windows[i + 1].0))
  {
  }
}
