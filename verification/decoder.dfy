/** The sample-level part of the decoder: the decoded stream is forced to
    one channel, the sample buffer is seeded by resizing it to the channel
    count, and each resampled frame is appended with every sample clamped to
    [-1, 1], counting the clamped samples and measuring the frame's peak.
    Opening the file, decoding packets and resampling are outside the model:
    the resampled frames arrive as sequences of reals. */
module Decoder {

  /** The decoder always resamples to a single channel. */
  const ChannelCount: nat := 1

  /** `std::vector::resize`: keeps the first `n` elements and pads with
      zeros up to `n`. */
  function Resize(s: seq<real>, n: nat): (r: seq<real>)
    ensures |r| == n
    ensures forall i :: 0 <= i < n && i < |s| ==> r[i] == s[i]
    ensures forall i :: |s| <= i < n ==> r[i] == 0.0
  {
    if |s| >= n then s[..n] else s + seq(n - |s|, _ => 0.0)
  }

  function Abs(x: real): real {
    if x < 0.0 then -x else x
  }

  predicate OutOfRange(x: real) {
    x > 1.0 || x < -1.0
  }

  /** A sample after the loop's two range checks: first capped above at 1,
      then capped below at -1. */
  function Clamp(x: real): (y: real)
    ensures -1.0 <= y <= 1.0
    ensures !OutOfRange(x) ==> y == x
    ensures x > 1.0 ==> y == 1.0
    ensures x < -1.0 ==> y == -1.0
  {
    var capped := if x > 1.0 then 1.0 else x;
    if capped < -1.0 then -1.0 else capped
  }

  /** Clamping keeps the order of samples and clamping twice is clamping
      once. */
  lemma ClampMonotoneIdempotent(x: real, y: real)
    ensures x <= y ==> Clamp(x) <= Clamp(y)
    ensures Clamp(Clamp(x)) == Clamp(x)
  {
  }

  function ClampAll(s: seq<real>): (r: seq<real>)
    ensures |r| == |s|
  {
    seq(|s|, i requires 0 <= i < |s| => Clamp(s[i]))
  }

  lemma ClampAllAppend(a: seq<real>, b: seq<real>)
    ensures ClampAll(a + b) == ClampAll(a) + ClampAll(b)
  {
  }

  /** The number of out-of-range samples in `s`. */
  function CountClipped(s: seq<real>): (n: nat)
    ensures n <= |s|
  {
    if |s| == 0 then 0
    else CountClipped(s[..|s| - 1]) + (if OutOfRange(s[|s| - 1]) then 1 else 0)
  }

  /** The positions of the out-of-range samples. */
  function ClippedPositions(s: seq<real>): set<nat> {
    set i: nat | i < |s| && OutOfRange(s[i])
  }

  /** The clipped count is the number of positions holding an out-of-range
      sample; in particular it is zero exactly when every sample is in
      range. */
  lemma {:induction false} CountClippedPositions(s: seq<real>)
    ensures CountClipped(s) == |ClippedPositions(s)|
    ensures CountClipped(s) == 0 <==> forall i :: 0 <= i < |s| ==> !OutOfRange(s[i])
  {
    if |s| > 0 {
      var init := s[..|s| - 1];
      CountClippedPositions(init);
      var last := if OutOfRange(s[|s| - 1]) then {|s| - 1} else {};
      assert ClippedPositions(s) == ClippedPositions(init) + last;
      assert ClippedPositions(init) !! last;
      if CountClipped(s) == 0 {
        forall i | 0 <= i < |s| ensures !OutOfRange(s[i]) {
          if i < |s| - 1 {
            assert init[i] == s[i];
          }
        }
      }
    }
  }

  /** Counting the clipped samples of two stretches one after the other adds
      up. */
  lemma {:induction false} CountClippedAppend(a: seq<real>, b: seq<real>)
    ensures CountClipped(a + b) == CountClipped(a) + CountClipped(b)
  {
    if |b| > 0 {
      assert (a + b)[..|a + b| - 1] == a + b[..|b| - 1];
      CountClippedAppend(a, b[..|b| - 1]);
    } else {
      assert a + b == a;
    }
  }

  /** `peak` is the largest absolute value in the frame, or 0 for an empty
      frame. It is taken before clamping, so it can exceed 1. */
  predicate IsFramePeak(peak: real, frame: seq<real>) {
    && (forall j :: 0 <= j < |frame| ==> Abs(frame[j]) <= peak)
    && (if |frame| == 0 then peak == 0.0 else exists j :: 0 <= j < |frame| && peak == Abs(frame[j]))
  }

  /** The loop over one resampled frame: appends the clamped samples to
      `data` after what is already there, adds the number of clamped samples
      to `clipped`, and returns the frame's peak. */
  method ProcessFrame(data: seq<real>, clipped: nat, frame: seq<real>)
    returns (data': seq<real>, clipped': nat, peak: real)
    ensures data' == data + ClampAll(frame)
    ensures forall k :: |data| <= k < |data'| ==> -1.0 <= data'[k] <= 1.0
    ensures clipped' == clipped + CountClipped(frame)
    ensures IsFramePeak(peak, frame)
  {
    data' := data;
    clipped' := clipped;
    peak := 0.0;
    var j := 0;
    while j < |frame|
      invariant 0 <= j <= |frame|
      invariant data' == data + ClampAll(frame[..j])
      invariant clipped' == clipped + CountClipped(frame[..j])
      invariant IsFramePeak(peak, frame[..j])
    {
      var sample := frame[j];
      var absolute := Abs(sample);
      if absolute > peak {
        peak := absolute;
      }
      if sample > 1.0 {
        clipped' := clipped' + 1;
        sample := 1.0;
      }
      if sample < -1.0 {
        clipped' := clipped' + 1;
        sample := -1.0;
      }
      data' := data' + [sample];
      assert frame[..j + 1][..j] == frame[..j];
      j := j + 1;
    }
    assert frame[..j] == frame;
  }

  /** The frames of a stream, one after the other. */
  function Concat(frames: seq<seq<real>>): (s: seq<real>)
  {
    if |frames| == 0 then [] else Concat(frames[..|frames| - 1]) + frames[|frames| - 1]
  }

  /** Processes the resampled frames in order. `data`, `clipped` and `peak`
      are the decoder's state before the first frame; the peak of each frame
      replaces the previous one. */
  method LoadSamples(data: seq<real>, clipped: nat, peak: real, frames: seq<seq<real>>)
    returns (data': seq<real>, clipped': nat, peak': real)
    ensures data' == data + ClampAll(Concat(frames))
    ensures clipped' == clipped + CountClipped(Concat(frames))
    ensures |frames| == 0 ==> peak' == peak
    ensures |frames| > 0 ==> IsFramePeak(peak', frames[|frames| - 1])
  {
    data' := data;
    clipped' := clipped;
    peak' := peak;
    var f := 0;
    while f < |frames|
      invariant 0 <= f <= |frames|
      invariant data' == data + ClampAll(Concat(frames[..f]))
      invariant clipped' == clipped + CountClipped(Concat(frames[..f]))
      invariant f == 0 ==> peak' == peak
      invariant f > 0 ==> IsFramePeak(peak', frames[f - 1])
    {
      data', clipped', peak' := ProcessFrame(data', clipped', frames[f]);
      assert frames[..f + 1][..f] == frames[..f];
      ClampAllAppend(Concat(frames[..f]), frames[f]);
      CountClippedAppend(Concat(frames[..f]), frames[f]);
      f := f + 1;
    }
    assert frames[..f] == frames;
  }

  /** Decoding a stream: the buffer left by the previous decode is resized
      to the channel count, then the frames are appended. After `destroy`
      the buffer is empty, so the decoded data is a single 0 followed by the
      clamped samples; the clipped count is never reset and keeps adding up
      across streams. */
  method Decode(previous: seq<real>, clipped: nat, peak: real, frames: seq<seq<real>>)
    returns (data: seq<real>, clipped': nat, peak': real)
    ensures |data| == ChannelCount + |Concat(frames)|
    ensures data[0] == (if |previous| == 0 then 0.0 else previous[0])
    ensures data[ChannelCount..] == ClampAll(Concat(frames))
    ensures forall k :: ChannelCount <= k < |data| ==> -1.0 <= data[k] <= 1.0
    ensures clipped' == clipped + CountClipped(Concat(frames))
    ensures |frames| == 0 ==> peak' == peak
    ensures |frames| > 0 ==> IsFramePeak(peak', frames[|frames| - 1])
  {
    var seeded := Resize(previous, ChannelCount);
    data, clipped', peak' := LoadSamples(seeded, clipped, peak, frames);
    assert data[ChannelCount..] == ClampAll(Concat(frames));
  }
}
