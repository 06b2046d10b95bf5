/**
 The constant-space hold-off shared by the speeding and idling detectors, and
 what it means over a whole history of samples.
 */
module Debounce {

  datatype Sample = Sample(at: int, on: bool)

  /** `since` is the time of the current block's first sample, 0 when there is none. */
  datatype Track = Track(since: int, started: bool)

  datatype Edge = Quiet | Started | Ended

  function Step(tr: Track, s: Sample, hold: int): (r: (Track, Edge)) {
    if s.on then
      var since := if tr.since == 0 then s.at else tr.since;
      if !tr.started && s.at - since >= hold then (Track(since, true), Started)
      else (Track(since, tr.started), Quiet)
    else
      (Track(0, false), if tr.started then Ended else Quiet)
  }

  /** The track after the first `i` samples. */
  function TrackAt(h: seq<Sample>, i: nat, hold: int): Track
    requires i <= |h|
  {
    if i == 0 then Track(0, false) else Step(TrackAt(h, i - 1, hold), h[i - 1], hold).0
  }

  function EdgeAt(h: seq<Sample>, i: nat, hold: int): Edge
    requires i < |h|
  {
    Step(TrackAt(h, i, hold), h[i], hold).1
  }

  /** The first index of the maximal block of on-samples that holds `i`. */
  function BlockStart(h: seq<Sample>, i: nat): (b: nat)
    requires i < |h| && h[i].on
    ensures b <= i && (forall k :: b <= k <= i ==> h[k].on) && (b == 0 || !h[b - 1].on)
  {
    if i == 0 || !h[i - 1].on then i else BlockStart(h, i - 1)
  }

  /** Some sample of the block, up to `i`, is at least `hold` after the block's first sample. */
  ghost predicate Held(h: seq<Sample>, i: nat, hold: int)
    requires i < |h| && h[i].on
  {
    exists k :: BlockStart(h, i) <= k <= i && h[k].at - h[BlockStart(h, i)].at >= hold
  }

  ghost predicate StartsAt(h: seq<Sample>, i: nat, hold: int)
    requires i < |h|
  {
    && h[i].on
    && h[i].at - h[BlockStart(h, i)].at >= hold
    && forall k :: BlockStart(h, i) <= k < i ==> h[k].at - h[BlockStart(h, i)].at < hold
  }

  ghost predicate EndsAt(h: seq<Sample>, i: nat, hold: int)
    requires i < |h|
  {
    i > 0 && !h[i].on && h[i - 1].on && Held(h, i - 1, hold)
  }

  ghost predicate SampleTimesSet(h: seq<Sample>) {
    forall i :: 0 <= i < |h| ==> h[i].at != 0
  }

  lemma {:induction false} TrackMeaning(h: seq<Sample>, i: nat, hold: int)
    requires SampleTimesSet(h) && i <= |h|
    ensures TrackAt(h, i, hold)
         == if i == 0 || !h[i - 1].on then Track(0, false)
            else Track(h[BlockStart(h, i - 1)].at, Held(h, i - 1, hold))
  {
    if i > 0 {
      TrackMeaning(h, i - 1, hold);
      if h[i - 1].on {
        var b := BlockStart(h, i - 1);
        if b < i - 1 {
          assert Held(h, i - 1, hold) <==> Held(h, i - 2, hold) || h[i - 1].at - h[b].at >= hold;
        }
      }
    }
  }

  /** The detector's meaning: in each maximal block, started exactly at the first sample at least `hold` after the
      block's first; ended exactly at the first sample after a block in which it started. */
  lemma DebounceMeaning(h: seq<Sample>, i: nat, hold: int)
    requires SampleTimesSet(h) && i < |h|
    ensures EdgeAt(h, i, hold)
         == if StartsAt(h, i, hold) then Started else if EndsAt(h, i, hold) then Ended else Quiet
  {
    TrackMeaning(h, i, hold);
    if h[i].on && BlockStart(h, i) < i {
      var b := BlockStart(h, i);
      assert Held(h, i - 1, hold) <==> exists k :: b <= k < i && h[k].at - h[b].at >= hold;
    }
  }
}
