/** What a tap and a pan do to the selection flags of the tracked subviews,
    stated on values: `flags[i]` is the `isSelected` flag of the i-th tracked
    subview and `hits[i]` says whether its frame contains the tapped point. */
module Gestures {
  import opened Geometry

  /** The states a pan gesture recognizer reports to its action. */
  datatype PanState = Possible | Began | Changed | Ended | Cancelled | Failed

  /** Every flag off, as `deselectAll` leaves them. */
  function Cleared(n: nat): (r: seq<bool>) {
    seq(n, _ => false)
  }

  /** Which frames contain the point: those whose edges enclose it, closed on
      the minimum edges and open on the maximum edges. */
  function Hits(frames: seq<Rect>, p: Point): (r: seq<bool>)
    ensures |r| == |frames|
    ensures forall i :: 0 <= i < |frames| ==>
      (r[i] <==> MinX(frames[i]) <= p.x < MaxX(frames[i]) && MinY(frames[i]) <= p.y < MaxY(frames[i]))
  {
    seq(|frames|, i requires 0 <= i < |frames| => Contains(frames[i], p))
  }

  /** At most one flag is on. */
  predicate AtMostOne(flags: seq<bool>) {
    forall i, j :: 0 <= i < |flags| && 0 <= j < |flags| && flags[i] && flags[j] ==> i == j
  }

  // ---------------------------------------------------------------------
  // Tap

  /** One pass of the tap loop's body over the i-th tracked subview: if its
      frame was hit, first (in single-selection mode) deselect everything, then
      invert its flag. */
  function TapStep(flags: seq<bool>, hits: seq<bool>, multi: bool, i: nat): (r: seq<bool>)
    requires |flags| == |hits| && i < |hits|
    ensures |r| == |flags|
    ensures !hits[i] ==> r == flags
    ensures hits[i] && multi ==> forall j :: 0 <= j < |flags| ==> r[j] == (flags[j] != (j == i))
    ensures hits[i] && !multi ==> forall j :: 0 <= j < |flags| ==> r[j] == (j == i)
  {
    if !hits[i] then flags
    else
      var g := if multi then flags else Cleared(|flags|);
      g[i := !g[i]]
  }

  /** The flags after the tap loop has visited the first k tracked subviews. */
  function TapPrefix(flags: seq<bool>, hits: seq<bool>, multi: bool, k: nat): (r: seq<bool>)
    requires |flags| == |hits| && k <= |hits|
    ensures |r| == |flags|
  {
    if k == 0 then flags else TapStep(TapPrefix(flags, hits, multi, k - 1), hits, multi, k - 1)
  }

  /** The flags after a whole tap. Multiple selection: every hit flag is
      inverted and every other flag kept. Single selection: a tap that hits
      nothing changes nothing; otherwise exactly one flag is on, that of the
      last hit subview in iteration order, whatever the flags were before. */
  function Tap(flags: seq<bool>, hits: seq<bool>, multi: bool): (r: seq<bool>)
    requires |flags| == |hits|
    ensures |r| == |flags|
    ensures multi ==> forall j :: 0 <= j < |flags| ==> r[j] == (flags[j] != hits[j])
    ensures !multi && !HitBefore(hits, |hits|) ==> r == flags
    ensures !multi && HitBefore(hits, |hits|) ==> forall j :: 0 <= j < |flags| ==>
      r[j] == (j == LastHitBefore(hits, |hits|))
  {
    var t := TapPrefix(flags, hits, multi, |hits|);
    if multi then
      TapPrefixMultiple(flags, hits, |hits|); t
    else if HitBefore(hits, |hits|) then
      TapPrefixSingleHit(flags, hits, |hits|); t
    else
      TapPrefixSingleMiss(flags, hits, |hits|); t
  }

  /** Some subview among the first k was hit. */
  predicate HitBefore(hits: seq<bool>, k: nat)
    requires k <= |hits|
  {
    exists i :: 0 <= i < k && hits[i]
  }

  /** `j` is the last hit subview among the first k. */
  predicate IsLastHitBefore(hits: seq<bool>, k: nat, j: int)
    requires k <= |hits|
  {
    0 <= j < k && hits[j] && forall i :: j < i < k ==> !hits[i]
  }

  /** The index of the last hit subview among the first k. */
  function LastHitBefore(hits: seq<bool>, k: nat): (j: nat)
    requires k <= |hits| && HitBefore(hits, k)
    ensures IsLastHitBefore(hits, k, j)
  {
    if hits[k - 1] then k - 1 else LastHitBefore(hits, k - 1)
  }

  /** With multiple selection on, the tap loop has inverted exactly the hit
      flags among those it has visited. */
  lemma {:induction false} TapPrefixMultiple(flags: seq<bool>, hits: seq<bool>, k: nat)
    requires |flags| == |hits| && k <= |hits|
    ensures forall j :: 0 <= j < |flags| ==>
      TapPrefix(flags, hits, true, k)[j] == if j < k then flags[j] != hits[j] else flags[j]
  {
    if k > 0 {
      TapPrefixMultiple(flags, hits, k - 1);
    }
  }

  /** With multiple selection off, the tap loop changes nothing until it meets
      a hit subview. */
  lemma {:induction false} TapPrefixSingleMiss(flags: seq<bool>, hits: seq<bool>, k: nat)
    requires |flags| == |hits| && k <= |hits|
    requires !HitBefore(hits, k)
    ensures TapPrefix(flags, hits, false, k) == flags
  {
    if k > 0 {
      TapPrefixSingleMiss(flags, hits, k - 1);
    }
  }

  /** With multiple selection off, once the tap loop has met a hit subview,
      exactly the last hit it has met is selected. */
  lemma {:induction false} TapPrefixSingleHit(flags: seq<bool>, hits: seq<bool>, k: nat)
    requires |flags| == |hits| && k <= |hits|
    requires HitBefore(hits, k)
    ensures forall j :: 0 <= j < |flags| ==>
      TapPrefix(flags, hits, false, k)[j] == IsLastHitBefore(hits, k, j)
  {
    if hits[k - 1] {
      forall j | 0 <= j < |flags|
        ensures TapPrefix(flags, hits, false, k)[j] == IsLastHitBefore(hits, k, j)
      {
        assert IsLastHitBefore(hits, k, j) <==> j == k - 1;
      }
    } else {
      assert HitBefore(hits, k - 1) by {
        var i :| 0 <= i < k && hits[i];
        assert i < k - 1;
      }
      TapPrefixSingleHit(flags, hits, k - 1);
      forall j | 0 <= j < |flags|
        ensures TapPrefix(flags, hits, false, k)[j] == IsLastHitBefore(hits, k, j)
      {
        assert IsLastHitBefore(hits, k, j) <==> IsLastHitBefore(hits, k - 1, j);
      }
    }
  }

  /** Multiple selection: two taps at the same point restore the original flags. */
  lemma TapMultipleTwiceRestores(flags: seq<bool>, hits: seq<bool>)
    requires |flags| == |hits|
    ensures Tap(Tap(flags, hits, true), hits, true) == flags
  {
  }

  /** Single selection: a tap never leaves more than one subview selected if
      at most one was selected before. */
  lemma TapSingleKeepsAtMostOne(flags: seq<bool>, hits: seq<bool>)
    requires |flags| == |hits| && AtMostOne(flags)
    ensures AtMostOne(Tap(flags, hits, false))
  {
  }

  /** Single selection: re-tapping the one selected subview, where no other
      frame is hit, leaves it selected (the deselection that precedes the
      toggle clears it first). */
  lemma TapSingleRetapKeepsSelection(flags: seq<bool>, hits: seq<bool>, j: nat)
    requires |flags| == |hits| && j < |hits|
    requires flags[j] && hits[j]
    requires forall i :: 0 <= i < |hits| && i != j ==> !hits[i]
    ensures Tap(flags, hits, false)[j]
  {
  }

  /** Two subviews hit by the same tap have intersecting frames; so when the
      frames do not intersect pairwise, a tap hits at most one subview. */
  lemma HitsOfDisjointFrames(frames: seq<Rect>, p: Point)
    requires forall i, j :: 0 <= i < |frames| && 0 <= j < |frames| && i != j ==>
      !Intersects(frames[i], frames[j])
    ensures AtMostOne(Hits(frames, p))
  {
    var h := Hits(frames, p);
    forall i, j | 0 <= i < |h| && 0 <= j < |h| && h[i] && h[j]
      ensures i == j
    {
      IntersectsIffCommonPoint(frames[i], frames[j]);
    }
  }

  // ---------------------------------------------------------------------
  // Pan

  /** Every frame that shares a grid point with the marquee intersects it. */
  lemma IntersectsEachIffCommonPoint(frames: seq<Rect>, marquee: Rect)
    ensures forall i :: 0 <= i < |frames| ==>
      (Intersects(frames[i], marquee) <==> exists q :: Contains(frames[i], q) && Contains(marquee, q))
  {
    forall i | 0 <= i < |frames| {
      IntersectsIffCommonPoint(frames[i], marquee);
    }
  }

  /** Every flag set to whether its frame intersects the marquee, that is,
      whether the two share a point. */
  function PanFlags(frames: seq<Rect>, marquee: Rect): (r: seq<bool>)
    ensures |r| == |frames|
    ensures forall i :: 0 <= i < |frames| ==>
      (r[i] <==> exists q :: Contains(frames[i], q) && Contains(marquee, q))
  {
    IntersectsEachIffCommonPoint(frames, marquee);
    seq(|frames|, i requires 0 <= i < |frames| => Intersects(frames[i], marquee))
  }

  /** The flags and the marquee after one pan action in the given state:
      `Began` changes nothing; `Changed` sets the marquee from the location
      and translation and every flag to whether its frame intersects it; any
      other state keeps the flags and zeroes the marquee. */
  function Pan(flags: seq<bool>, frames: seq<Rect>, marquee: Rect,
               state: PanState, location: Point, translation: Point): (r: (seq<bool>, Rect))
    requires |flags| == |frames|
    ensures |r.0| == |flags|
    ensures state == Changed ==> r.1 == PanRect(location, translation)
    ensures state == Changed ==> forall i :: 0 <= i < |frames| ==> r.0[i] == Intersects(frames[i], r.1)
    ensures state != Changed ==> r.0 == flags
    ensures state == Began ==> r.1 == marquee
    ensures state != Changed && state != Began ==> r.1 == ZeroRect
  {
    match state
    case Began => (flags, marquee)
    case Changed =>
      var m := PanRect(location, translation);
      (PanFlags(frames, m), m)
    case _ => (flags, ZeroRect)
  }

  /** Repeating a pan action with the same input gives the same flags and marquee. */
  lemma PanIdempotent(flags: seq<bool>, frames: seq<Rect>, marquee: Rect,
                      state: PanState, location: Point, translation: Point)
    requires |flags| == |frames|
    ensures var (f, m) := Pan(flags, frames, marquee, state, location, translation);
      |f| == |frames| && Pan(f, frames, m, state, location, translation) == (f, m)
  {
  }

  /** A `Changed` update overwrites the flags: what they were before makes no
      difference. */
  lemma PanChangedOverwrites(f: seq<bool>, g: seq<bool>, frames: seq<Rect>, m: Rect, n: Rect,
                             location: Point, translation: Point)
    requires |f| == |frames| && |g| == |frames|
    ensures Pan(f, frames, m, Changed, location, translation) ==
            Pan(g, frames, n, Changed, location, translation)
  {
  }
}
