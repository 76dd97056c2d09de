/** `SplitBatchWithPrefix` (santodan_nodes/utils.py:9-84): a node that
    hands out one image of a batch per call, with a name numbered from
    the `index` input, and counts its calls across a run.

    The image tensor is abstracted to its shape, and the image it returns
    to its position in the batch. The clock `time.time()` is the `now`
    parameter; times are exact reals. */
module SplitBatch {
  import opened Wrappers
  import opened Numbers

  /** The `images` input: a tensor, known by its shape, or anything else. */
  datatype Images = Tensor(shape: seq<nat>) | NotATensor

  /** The exceptions `pair_one` raises. */
  datatype Failure =
    | NotTensor                            // `ValueError`: not a `torch.Tensor`
    | NotFourDimensional(shape: seq<nat>)  // `ValueError`: not `[B,H,W,C]`
    | IndexOutOfRange                      // `IndexError` of `images[i]` on an empty batch

  /** The image `images[i].unsqueeze(0)`, known by `i`, and the name; or
      the exception raised. */
  datatype Result = Pair(imageIndex: nat, name: string) | Raised(failure: Failure)

  /** The fields `pair_one` reads and writes. */
  datatype Tracking = Tracking(counter: nat, lastIndex: Option<int>, lastFilename: Option<string>, lastCallTime: real)

  /** A node fresh from `__init__`. */
  const Initial := Tracking(0, None, None, 0.0)

  /** The counter once a new run has been detected: back to 0 when the
      index or the filename differs from the previous call's, or when
      more than `window` seconds have passed since it. */
  function RunCounter(s: Tracking, window: real, filename: string, index: int, now: real): nat
  {
    if s.lastIndex != Some(index) || s.lastFilename != Some(filename) then 0
    else if now - s.lastCallTime > window then 0
    else s.counter
  }

  /** The position of the image handed out: the counter while it is below
      the batch size, otherwise `max(0, batch_size - 1)`. */
  function ImageIndex(counter: nat, batchSize: nat): nat
  {
    var last := batchSize as int - 1;
    if counter >= batchSize then (if last > 0 then last else 0)
    else counter
  }

  /** `f"{counter + index}{filename}"` */
  function Name(counter: nat, index: int, filename: string): string
  {
    IntToString(counter + index) + filename
  }

  /** One call of `pair_one(images, filename, index)` at time `now`: the
      fields afterwards, and what the call returns or raises. */
  function Step(s: Tracking, window: real, images: Images, filename: string, index: int, now: real): (Tracking, Result)
  {
    match images
    case NotATensor => (s, Raised(NotTensor))
    case Tensor(shape) =>
      if |shape| != 4 then (s, Raised(NotFourDimensional(shape)))
      else
        var c := RunCounter(s, window, filename, index, now);
        var tracked := Tracking(c, Some(index), Some(filename), now);
        var i := ImageIndex(c, shape[0]);
        if i >= shape[0] then (tracked, Raised(IndexOutOfRange))
        else (tracked.(counter := c + 1), Pair(i, Name(c, index, filename)))
  }

  class SplitBatchWithPrefix {
    var currentGlobalIndex: nat
    var lastInputIndex: Option<int>
    var lastFilename: Option<string>
    var lastCallTime: real
    /** Calls closer together than this many seconds belong to one run. */
    const sameRunWindow: real

    function Tracked(): Tracking
      reads this
    {
      Tracking(currentGlobalIndex, lastInputIndex, lastFilename, lastCallTime)
    }

    /** `__init__`: counter 0, no previous call, a window of one second. */
    constructor()
      ensures Tracked() == Initial && sameRunWindow == 1.0
    {
      currentGlobalIndex := 0;
      lastInputIndex := None;
      lastFilename := None;
      lastCallTime := 0.0;
      sameRunWindow := 1.0;
    }

    /** `pair_one(images, filename, index)`, with `time.time()` as `now`. */
    method PairOne(images: Images, filename: string, index: int, now: real) returns (r: Result)
      modifies this
      ensures (Tracked(), r) == Step(old(Tracked()), sameRunWindow, images, filename, index, now)
    {
      if images.NotATensor? {
        return Raised(NotTensor);
      }
      if |images.shape| != 4 {
        return Raised(NotFourDimensional(images.shape));
      }
      if lastInputIndex != Some(index) || lastFilename != Some(filename) {
        currentGlobalIndex := 0;
      } else if now - lastCallTime > sameRunWindow {
        currentGlobalIndex := 0;
      }
      lastInputIndex := Some(index);
      lastFilename := Some(filename);
      lastCallTime := now;
      var batchSize := images.shape[0];
      var currentImageIndex: nat;
      if currentGlobalIndex >= batchSize {
        var last := batchSize as int - 1;
        currentImageIndex := if last > 0 then last else 0;
      } else {
        currentImageIndex := currentGlobalIndex;
      }
      if currentImageIndex >= batchSize {
        return Raised(IndexOutOfRange);
      }
      var name := IntToString(currentGlobalIndex + index) + filename;
      currentGlobalIndex := currentGlobalIndex + 1;
      return Pair(currentImageIndex, name);
    }
  }

  // ---------------------------------------------------------------------
  // Properties of one call

  /** Input that is not a four-dimensional tensor is rejected before any
      field changes, and nothing else is rejected that way. */
  lemma {:induction false} RejectedUnchanged(s: Tracking, window: real, images: Images, filename: string, index: int, now: real)
    ensures var (t, r) := Step(s, window, images, filename, index, now);
      (r.Raised? && (r.failure.NotTensor? || r.failure.NotFourDimensional?)) <==>
        !(images.Tensor? && |images.shape| == 4)
    ensures var (t, r) := Step(s, window, images, filename, index, now);
      !(images.Tensor? && |images.shape| == 4) ==> t == s
  {
  }

  /** After a call on a four-dimensional tensor, raising or not, the
      tracking fields hold this call's index, filename and time. */
  lemma {:induction false} TrackingUpdated(s: Tracking, window: real, images: Images, filename: string, index: int, now: real)
    requires images.Tensor? && |images.shape| == 4
    ensures var t := Step(s, window, images, filename, index, now).0;
      t.lastIndex == Some(index) && t.lastFilename == Some(filename) && t.lastCallTime == now
  {
  }

  /** The image handed out is always in the batch: the counter, clamped
      to the last image. The only `IndexError` is on an empty batch, and
      it leaves the counter where the run detection put it. */
  lemma {:induction false} ImageInBatch(s: Tracking, window: real, shape: seq<nat>, filename: string, index: int, now: real)
    requires |shape| == 4
    ensures var (t, r) := Step(s, window, Tensor(shape), filename, index, now);
      var c := RunCounter(s, window, filename, index, now);
      (r.Raised? <==> shape[0] == 0) &&
      (r.Raised? ==> r.failure == IndexOutOfRange && t.counter == c) &&
      (r.Pair? ==> r.imageIndex < shape[0] && r.imageIndex == if c < shape[0] then c else shape[0] - 1)
  {
  }

  /** A successful call names its image after the counter before the
      increment plus `index`: the name is that number in decimal followed
      by the filename, and the counter goes up by exactly one. */
  lemma {:induction false} NameCarriesCounter(s: Tracking, window: real, images: Images, filename: string, index: int, now: real)
    ensures var (t, r) := Step(s, window, images, filename, index, now);
      r.Pair? ==>
        t.counter == RunCounter(s, window, filename, index, now) + 1 &&
        |r.name| >= |filename| &&
        r.name[|r.name| - |filename|..] == filename &&
        ParseInt(r.name[..|r.name| - |filename|]) == Some(t.counter - 1 + index)
  {
    var (t, r) := Step(s, window, images, filename, index, now);
    if r.Pair? {
      var n := t.counter - 1 + index;
      ParseIntOfString(n);
      assert r.name == IntToString(n) + filename;
      assert r.name[..|r.name| - |filename|] == IntToString(n);
    }
  }

  /** A new index or filename starts a new run: the counter restarts at
      0 whatever it was, so the name carries `index` itself. */
  lemma {:induction false} NewParametersRestart(s: Tracking, window: real, images: Images, filename: string, index: int, now: real)
    requires s.lastIndex != Some(index) || s.lastFilename != Some(filename)
    ensures var (t, r) := Step(s, window, images, filename, index, now);
      r.Pair? ==> r.imageIndex == 0 && r.name == Name(0, index, filename) && t.counter == 1
  {
  }

  /** With the same index and filename, a call more than `window` seconds
      after the previous one starts a new run, and one within the window
      carries on from the counter. */
  lemma {:induction false} WindowDecidesRun(s: Tracking, window: real, images: Images, filename: string, index: int, now: real)
    requires s.lastIndex == Some(index) && s.lastFilename == Some(filename)
    ensures var (t, r) := Step(s, window, images, filename, index, now);
      var c := if now - s.lastCallTime > window then 0 else s.counter;
      r.Pair? ==> r.name == Name(c, index, filename) && t.counter == c + 1
  {
  }

  // ---------------------------------------------------------------------
  // A run of calls

  /** What successive calls return, at the given times, with the same
      images, filename and index. */
  function Calls(s: Tracking, window: real, images: Images, filename: string, index: int, times: seq<real>): (rs: seq<Result>)
    ensures |rs| == |times|
    decreases |times|
  {
    if times == [] then []
    else
      var next := Step(s, window, images, filename, index, times[0]);
      [next.1] + Calls(next.0, window, images, filename, index, times[1..])
  }

  /** Each call comes no more than `window` seconds after the one before,
      the first after time `last`. */
  predicate Paced(window: real, last: real, times: seq<real>)
    decreases |times|
  {
    times == [] || (times[0] - last <= window && Paced(window, times[0], times[1..]))
  }

  /** What the call of a run that finds the counter at `c` returns. */
  function InRun(batchSize: nat, filename: string, index: int): nat -> Result
  {
    (c: nat) => Pair(ImageIndex(c, batchSize), Name(c, index, filename))
  }

  /** `[f(c), f(c + 1), ..., f(c + n - 1)]` */
  function Series(f: nat -> Result, c: nat, n: nat): (rs: seq<Result>)
    ensures |rs| == n
    decreases n
  {
    if n == 0 then [] else [f(c)] + Series(f, c + 1, n - 1)
  }

  lemma {:induction false} SeriesAt(f: nat -> Result, c: nat, n: nat, k: nat)
    requires k < n
    ensures Series(f, c, n)[k] == f(c + k)
    decreases k
  {
    if k > 0 {
      SeriesAt(f, c + 1, n - 1, k - 1);
    }
  }

  /** Within one run, successive calls on a non-empty batch carry the
      counter on from `c`, one step per call. */
  lemma {:induction false} RunContinues(c: nat, window: real, shape: seq<nat>, filename: string, index: int, last: real, times: seq<real>)
    requires |shape| == 4 && shape[0] > 0
    requires Paced(window, last, times)
    ensures Calls(Tracking(c, Some(index), Some(filename), last), window, Tensor(shape), filename, index, times) ==
      Series(InRun(shape[0], filename, index), c, |times|)
    decreases |times|
  {
    if times != [] {
      var s := Tracking(c, Some(index), Some(filename), last);
      var t := Tracking(c + 1, Some(index), Some(filename), times[0]);
      var f := InRun(shape[0], filename, index);
      RunStep(c, window, shape, filename, index, last, times[0]);
      RunContinues(c + 1, window, shape, filename, index, times[0], times[1..]);
      assert Calls(s, window, Tensor(shape), filename, index, times) ==
        [f(c)] + Calls(t, window, Tensor(shape), filename, index, times[1..]);
    }
  }

  /** A call within the window of the previous one, with the same index
      and filename, on a non-empty batch. */
  lemma {:induction false} RunStep(c: nat, window: real, shape: seq<nat>, filename: string, index: int, last: real, now: real)
    requires |shape| == 4 && shape[0] > 0 && now - last <= window
    ensures Step(Tracking(c, Some(index), Some(filename), last), window, Tensor(shape), filename, index, now) ==
      (Tracking(c + 1, Some(index), Some(filename), now), InRun(shape[0], filename, index)(c))
  {
  }

  /** A fresh node, given a non-empty batch by calls no more than the
      window apart, hands out the images in batch order (repeating the
      last one once the batch is used up) named `index`, `index + 1`, ... */
  lemma {:induction false} FreshRun(window: real, shape: seq<nat>, filename: string, index: int, times: seq<real>)
    requires |shape| == 4 && shape[0] > 0 && |times| >= 1
    requires Paced(window, times[0], times[1..])
    ensures var rs := Calls(Initial, window, Tensor(shape), filename, index, times);
      forall k :: 0 <= k < |rs| ==>
        rs[k] == Pair(if k < shape[0] then k else shape[0] - 1, Name(k, index, filename))
  {
    var t := Tracking(1, Some(index), Some(filename), times[0]);
    assert Step(Initial, window, Tensor(shape), filename, index, times[0]) ==
      (t, Pair(0, Name(0, index, filename)));
    RunContinues(1, window, shape, filename, index, times[0], times[1..]);
    var rs := Calls(Initial, window, Tensor(shape), filename, index, times);
    assert rs == Series(InRun(shape[0], filename, index), 0, |times|);
    forall k | 0 <= k < |rs|
      ensures rs[k] == Pair(if k < shape[0] then k else shape[0] - 1, Name(k, index, filename))
    {
      SeriesAt(InRun(shape[0], filename, index), 0, |times|, k);
    }
  }
}
