/**
 * Value-level specification of the touch engine of qtouch.h.
 *
 * The classes of module QTouch are proved against the functions here: a tick
 * of the engine is `Tick`, built from the peak scan (`Peaks`), the centroid
 * window (`Centroid`), the first-match/first-free pass (`MatchAll`) and the
 * end-of-tick sweep (`EraseSlots`, `EraseEvents`). The lemmas state what the
 * source promises about each of these.
 */
module TouchSpec {
  import opened Constants

  // ---------------------------------------------------------------------
  //  Constants of qtouch.h
  // ---------------------------------------------------------------------

  const MAX_PADS: int := MAX_SENS
  const TOUCH_THRESHOLD: int := 10
  const CLOSE_RANGE: real := 3.0
  /** Half width of the centroid window. */
  const FINGER_RANGE: int := 3
  const WINDOW: int := 2 * FINGER_RANGE + 1
  /** Length of a pad's reading history. */
  const MAX_MOVING_AVERAGE: int := 4
  /** Location of a slot that holds no touch. */
  const INIT_VAL: real := 100.0

  const NOTE_ON: int := 0x90
  const NOTE_OFF: int := 0x80
  const RELEASE_VELOCITY: int := 0x40

  /**
   * Largest raw reading the model admits. With it the un-divided pad sum
   * (at most 4 * 1170 = 4680) fits the pad's uint16_t and the window sum
   * (at most 7 * 4680 = 32760) fits the int16_t of the centroid pass.
   */
  const MAX_READING: int := 1170
  const MAX_CRNT: int := MAX_MOVING_AVERAGE * MAX_READING
  const MAX_INTENSITY: int := WINDOW * MAX_CRNT

  // ---------------------------------------------------------------------
  //  Integer conversions of the C++ code
  // ---------------------------------------------------------------------

  predicate IsInt16(x: int) { -32768 <= x <= 32767 }

  /** Storing an int into an int16_t: wrap modulo 2^16. */
  function ToInt16(x: int): (r: int)
    ensures IsInt16(r)
    ensures (r - x) % 0x1_0000 == 0
    ensures IsInt16(x) ==> r == x
  {
    (x + 0x8000) % 0x1_0000 - 0x8000
  }

  /** Converting an integer to uint8_t: wrap modulo 2^8. */
  function ToUint8(x: int): (r: int)
    ensures 0 <= r < 0x100
    ensures (r - x) % 0x100 == 0
    ensures 0 <= x < 0x100 ==> r == x
  {
    x % 0x100
  }

  /** Converting an integer to uint16_t: wrap modulo 2^16. */
  function ToUint16(x: int): (r: int)
    ensures 0 <= r < 0x1_0000
    ensures (r - x) % 0x1_0000 == 0
    ensures 0 <= x < 0x1_0000 ==> r == x
  {
    x % 0x1_0000
  }

  /** Float to integer conversion: truncation toward zero. */
  function Truncate(r: real): (n: int)
    ensures r >= 0.0 ==> n as real <= r < n as real + 1.0
    ensures r < 0.0 ==> n as real - 1.0 < r <= n as real
  {
    if r >= 0.0 then r.Floor else -((-r).Floor)
  }

  // ---------------------------------------------------------------------
  //  Ring of pads
  // ---------------------------------------------------------------------

  /** The pad that QubitTouch::proper_pad selects for an arbitrary offset. */
  function RingIndex(k: int): (r: int)
    ensures 0 <= r < MAX_PADS
    ensures (r - k) % MAX_PADS == 0
  {
    k % MAX_PADS
  }

  /** Whole turns around the ring do not change the pad selected. */
  lemma RingIndexShift(k: int, t: int)
    ensures RingIndex(k + t * MAX_PADS) == RingIndex(k)
  {
    var q, r := k / MAX_PADS, k % MAX_PADS;
    assert k + t * MAX_PADS == (q + t) * MAX_PADS + r;
  }

  /** The pad at unwrapped position k, for a position less than one turn off the ring. */
  function Ring(k: int): (r: int)
    requires -MAX_PADS <= k < 2 * MAX_PADS
    ensures 0 <= r < MAX_PADS
  {
    if k < 0 then k + MAX_PADS else if k >= MAX_PADS then k - MAX_PADS else k
  }

  /** Near the ring, proper_pad's index is the one-turn wrap. */
  lemma RingIsRingIndex(k: int)
    requires -MAX_PADS <= k < 2 * MAX_PADS
    ensures RingIndex(k) == Ring(k)
  {
  }

  /** The running sums of all pads, as read by the engine. */
  predicate ValidCrnts(c: seq<int>) {
    |c| == MAX_PADS && forall i :: 0 <= i < |c| ==> 0 <= c[i] <= MAX_CRNT
  }

  /** A strict local maximum of the ring above the touch threshold. */
  predicate IsPeak(c: seq<int>, p: int)
    requires |c| == MAX_PADS && 0 <= p < MAX_PADS
  {
    c[Ring(p - 1)] < c[p] && c[p] > c[Ring(p + 1)] && c[p] > TOUCH_THRESHOLD
  }

  /** All peaks among pads 0 .. n-1, in ascending order. */
  function PeaksBelow(c: seq<int>, n: int): seq<int>
    requires |c| == MAX_PADS && 0 <= n <= MAX_PADS
    decreases n
  {
    if n == 0 then []
    else PeaksBelow(c, n - 1) + (if IsPeak(c, n - 1) then [n - 1] else [])
  }

  /** The candidates the scan keeps: the first MAX_TOUCH_POINTS peaks. */
  function Peaks(c: seq<int>): (r: seq<int>)
    requires |c| == MAX_PADS
    ensures |r| <= MAX_TOUCH_POINTS
  {
    var all := PeaksBelow(c, MAX_PADS);
    if |all| <= MAX_TOUCH_POINTS then all else all[..MAX_TOUCH_POINTS]
  }

  /**
   * The last loop step of the scan: the step after the fourth peak, when
   * the scan stops early, or the extra step MAX_PADS that closes the ring.
   */
  function ScanEnd(c: seq<int>): int
    requires |c| == MAX_PADS
  {
    var all := PeaksBelow(c, MAX_PADS);
    if |all| >= MAX_TOUCH_POINTS then all[MAX_TOUCH_POINTS - 1] + 1 else MAX_PADS
  }

  /**
   * The scan stops after the pad that brings the count of kept peaks to
   * MAX_TOUCH_POINTS: the peaks below it are all the kept peaks, and it is
   * the last step of the scan.
   */
  lemma ScanStopsEarly(c: seq<int>, n: int)
    requires |c| == MAX_PADS && 1 <= n <= MAX_PADS
    requires |PeaksBelow(c, n)| == MAX_TOUCH_POINTS && PeaksBelow(c, n)[MAX_TOUCH_POINTS - 1] == n - 1
    ensures Peaks(c) == PeaksBelow(c, n)
    ensures ScanEnd(c) == n
  {
    PeaksBelowPrefix(c, n, MAX_PADS);
  }

  /** The difference the scan stores in pad q: its predecessor's sum minus its own. */
  function Diff(c: seq<int>, q: int): int
    requires |c| == MAX_PADS && 0 <= q <= MAX_PADS
  {
    c[Ring(q - 1)] - c[Ring(q)]
  }

  /** The int16_t arithmetic of set_diff_from_before computes the exact difference of two sums in range. */
  lemma DiffFits(c: seq<int>, q: int)
    requires ValidCrnts(c) && 0 <= q <= MAX_PADS
    ensures IsInt16(c[Ring(q - 1)])
    ensures ToInt16(ToInt16(c[Ring(q - 1)]) - c[Ring(q)]) == Diff(c, q)
  {
  }

  /** Step MAX_PADS of the scan revisits pad 0 and stores the same difference as step 0. */
  lemma DiffWraps(c: seq<int>)
    requires |c| == MAX_PADS
    ensures Diff(c, MAX_PADS) == Diff(c, 0)
  {
  }

  /**
   * Step i of the scan (1 <= i <= MAX_PADS) compares the difference it has
   * just stored with the one of step i-1: a sign change from negative to
   * positive above the threshold is exactly a peak at pad i-1.
   */
  lemma PeakTest(c: seq<int>, i: int)
    requires |c| == MAX_PADS && 1 <= i <= MAX_PADS
    ensures (Diff(c, i) > 0 && Diff(c, i - 1) < 0 && c[i - 1] > TOUCH_THRESHOLD) == IsPeak(c, i - 1)
    ensures PeaksBelow(c, i) == PeaksBelow(c, i - 1) + (if IsPeak(c, i - 1) then [i - 1] else [])
  {
  }

  /** The pads' difference fields after a scan that started from `d`. */
  function ScannedDiffs(d: seq<int>, c: seq<int>): seq<int>
    requires |d| == MAX_PADS && |c| == MAX_PADS
  {
    seq(MAX_PADS, q requires 0 <= q < MAX_PADS => if q <= ScanEnd(c) then Diff(c, q) else d[q])
  }

  /** The peaks below n are at most n pads, each a peak below n. */
  lemma {:induction false} PeaksBelowArePeaks(c: seq<int>, n: int)
    requires |c| == MAX_PADS && 0 <= n <= MAX_PADS
    ensures |PeaksBelow(c, n)| <= n
    ensures forall k :: 0 <= k < |PeaksBelow(c, n)| ==>
              0 <= PeaksBelow(c, n)[k] < n && IsPeak(c, PeaksBelow(c, n)[k])
    decreases n
  {
    if n > 0 {
      PeaksBelowArePeaks(c, n - 1);
      var prev, all := PeaksBelow(c, n - 1), PeaksBelow(c, n);
      assert all == prev + (if IsPeak(c, n - 1) then [n - 1] else []);
      forall k | 0 <= k < |all|
        ensures 0 <= all[k] < n && IsPeak(c, all[k])
      {
        if k < |prev| {
          assert all[k] == prev[k];
        }
      }
    }
  }

  /** The peaks below n are listed in strictly ascending order. */
  lemma {:induction false} PeaksBelowSorted(c: seq<int>, n: int)
    requires |c| == MAX_PADS && 0 <= n <= MAX_PADS
    ensures forall k, l :: 0 <= k < l < |PeaksBelow(c, n)| ==> PeaksBelow(c, n)[k] < PeaksBelow(c, n)[l]
    decreases n
  {
    if n > 0 {
      PeaksBelowSorted(c, n - 1);
      PeaksBelowArePeaks(c, n - 1);
      var prev, all := PeaksBelow(c, n - 1), PeaksBelow(c, n);
      assert all == prev + (if IsPeak(c, n - 1) then [n - 1] else []);
      forall k, l | 0 <= k < l < |all|
        ensures all[k] < all[l]
      {
        if l < |prev| {
          assert all[k] == prev[k] && all[l] == prev[l];
        } else {
          assert all[k] == prev[k];
        }
      }
    }
  }

  /** Every peak below n is listed. */
  lemma {:induction false} PeaksBelowComplete(c: seq<int>, n: int)
    requires |c| == MAX_PADS && 0 <= n <= MAX_PADS
    ensures forall p :: 0 <= p < n && IsPeak(c, p) ==> p in PeaksBelow(c, n)
    decreases n
  {
    if n > 0 {
      PeaksBelowComplete(c, n - 1);
      assert PeaksBelow(c, n) == PeaksBelow(c, n - 1) + (if IsPeak(c, n - 1) then [n - 1] else []);
    }
  }

  /** PeaksBelow lists exactly the peaks below n, ascending, each once. */
  lemma PeaksBelowFacts(c: seq<int>, n: int)
    requires |c| == MAX_PADS && 0 <= n <= MAX_PADS
    ensures |PeaksBelow(c, n)| <= n
    ensures forall k :: 0 <= k < |PeaksBelow(c, n)| ==>
              0 <= PeaksBelow(c, n)[k] < n && IsPeak(c, PeaksBelow(c, n)[k])
    ensures forall k, l :: 0 <= k < l < |PeaksBelow(c, n)| ==> PeaksBelow(c, n)[k] < PeaksBelow(c, n)[l]
    ensures forall p :: 0 <= p < n && IsPeak(c, p) ==> p in PeaksBelow(c, n)
  {
    PeaksBelowArePeaks(c, n);
    PeaksBelowSorted(c, n);
    PeaksBelowComplete(c, n);
  }

  lemma {:induction false} PeaksBelowPrefix(c: seq<int>, n: int, m: int)
    requires |c| == MAX_PADS && 0 <= n <= m <= MAX_PADS
    ensures PeaksBelow(c, n) <= PeaksBelow(c, m)
    decreases m - n
  {
    if n < m {
      PeaksBelowPrefix(c, n, m - 1);
    }
  }

  /**
   * The peak scan keeps exactly the first MAX_TOUCH_POINTS strict local
   * maxima above the threshold, in ascending ring order, each once.
   */
  lemma PeakScan(c: seq<int>)
    requires |c| == MAX_PADS
    ensures |Peaks(c)| <= MAX_TOUCH_POINTS
    ensures forall k :: 0 <= k < |Peaks(c)| ==> 0 <= Peaks(c)[k] < MAX_PADS && IsPeak(c, Peaks(c)[k])
    ensures forall k, l :: 0 <= k < l < |Peaks(c)| ==> Peaks(c)[k] < Peaks(c)[l]
    ensures forall p :: 0 <= p < MAX_PADS && IsPeak(c, p) && p !in Peaks(c) ==>
              |Peaks(c)| == MAX_TOUCH_POINTS && forall k :: 0 <= k < |Peaks(c)| ==> Peaks(c)[k] < p
  {
    PeaksBelowFacts(c, MAX_PADS);
    var all := PeaksBelow(c, MAX_PADS);
    forall p | 0 <= p < MAX_PADS && IsPeak(c, p) && p !in Peaks(c)
      ensures |Peaks(c)| == MAX_TOUCH_POINTS && forall k :: 0 <= k < |Peaks(c)| ==> Peaks(c)[k] < p
    {
      var j :| 0 <= j < |all| && all[j] == p;
      assert j >= MAX_TOUCH_POINTS;
    }
  }

  /** A ring whose every sum is at most the threshold yields no candidate. */
  lemma QuietRingHasNoPeaks(c: seq<int>)
    requires |c| == MAX_PADS
    requires forall i :: 0 <= i < |c| ==> c[i] <= TOUCH_THRESHOLD
    ensures Peaks(c) == []
  {
    NoPeaksBelow(c, MAX_PADS);
  }

  lemma {:induction false} NoPeaksBelow(c: seq<int>, n: int)
    requires |c| == MAX_PADS && 0 <= n <= MAX_PADS
    requires forall i :: 0 <= i < |c| ==> c[i] <= TOUCH_THRESHOLD
    ensures PeaksBelow(c, n) == []
  {
    if n > 0 {
      NoPeaksBelow(c, n - 1);
    }
  }

  // ---------------------------------------------------------------------
  //  Centroid window
  // ---------------------------------------------------------------------

  /** Unwrapped position of window step j around pad tp. */
  function WindowPos(tp: int, j: int): int { tp + j - FINGER_RANGE }

  /** Sum of the first n window weights. */
  function WindowSum(c: seq<int>, tp: int, n: int): int
    requires |c| == MAX_PADS && 0 <= tp < MAX_PADS && 0 <= n <= WINDOW
  {
    if n == 0 then 0 else WindowSum(c, tp, n - 1) + c[Ring(WindowPos(tp, n - 1))]
  }

  /** Sum of position times weight over the first n window steps. */
  function WindowMoment(c: seq<int>, tp: int, n: int): int
    requires |c| == MAX_PADS && 0 <= tp < MAX_PADS && 0 <= n <= WINDOW
  {
    if n == 0 then 0
    else WindowMoment(c, tp, n - 1) + WindowPos(tp, n - 1) * c[Ring(WindowPos(tp, n - 1))]
  }

  lemma MulLe(a: int, b: int, w: int)
    requires a <= b && w >= 0
    ensures a * w <= b * w
  {
  }

  lemma MulDistrib(a: int, x: int, y: int)
    ensures a * (x + y) == a * x + a * y
  {
  }

  lemma {:induction false} WindowSumBounds(c: seq<int>, tp: int, n: int)
    requires ValidCrnts(c) && 0 <= tp < MAX_PADS && 0 <= n <= WINDOW
    ensures 0 <= WindowSum(c, tp, n) <= n * MAX_CRNT
    ensures n > FINGER_RANGE ==> WindowSum(c, tp, n) >= c[tp]
  {
    if n > 0 {
      WindowSumBounds(c, tp, n - 1);
      if n - 1 == FINGER_RANGE {
        assert WindowPos(tp, n - 1) == tp;
      }
    }
  }

  /** The window moment lies between the extreme positions times the window sum. */
  lemma {:induction false} WindowMomentBounds(c: seq<int>, tp: int, n: int)
    requires ValidCrnts(c) && 0 <= tp < MAX_PADS && 0 <= n <= WINDOW
    ensures (tp - FINGER_RANGE) * WindowSum(c, tp, n) <= WindowMoment(c, tp, n)
    ensures WindowMoment(c, tp, n) <= (tp + FINGER_RANGE) * WindowSum(c, tp, n)
  {
    if n > 0 {
      WindowMomentBounds(c, tp, n - 1);
      var w := c[Ring(WindowPos(tp, n - 1))];
      var s := WindowSum(c, tp, n - 1);
      var pos := WindowPos(tp, n - 1);
      MulLe(tp - FINGER_RANGE, pos, w);
      MulLe(pos, tp + FINGER_RANGE, w);
      MulDistrib(tp - FINGER_RANGE, s, w);
      MulDistrib(tp + FINGER_RANGE, s, w);
    }
  }

  lemma DivBounds(m: int, s: int, lo: int, hi: int)
    requires s > 0 && lo * s <= m <= hi * s
    ensures lo as real <= m as real / s as real <= hi as real
  {
    var q := m as real / s as real;
    assert q * s as real == m as real;
  }

  /** A refined touch candidate: centroid location and summed intensity. */
  datatype Candidate = Candidate(location: real, intensity: int)

  /**
   * The centroid of the window of 7 pads around peak tp: the weighted mean
   * of the unwrapped positions tp-3 .. tp+3, weighted by the pad sums, and
   * the sum of those weights as intensity.
   */
  function Centroid(c: seq<int>, tp: int): (r: Candidate)
    requires ValidCrnts(c) && 0 <= tp < MAX_PADS && IsPeak(c, tp)
    ensures TOUCH_THRESHOLD < r.intensity <= MAX_INTENSITY
    ensures (tp - FINGER_RANGE) as real <= r.location <= (tp + FINGER_RANGE) as real
  {
    CentroidInWindow(c, tp);
    Candidate(WindowMoment(c, tp, WINDOW) as real / WindowSum(c, tp, WINDOW) as real, WindowSum(c, tp, WINDOW))
  }

  lemma CentroidInWindow(c: seq<int>, tp: int)
    requires ValidCrnts(c) && 0 <= tp < MAX_PADS && IsPeak(c, tp)
    ensures TOUCH_THRESHOLD < WindowSum(c, tp, WINDOW) <= MAX_INTENSITY
    ensures (tp - FINGER_RANGE) as real <= WindowMoment(c, tp, WINDOW) as real / WindowSum(c, tp, WINDOW) as real
    ensures WindowMoment(c, tp, WINDOW) as real / WindowSum(c, tp, WINDOW) as real <= (tp + FINGER_RANGE) as real
  {
    var s := WindowSum(c, tp, WINDOW);
    var m := WindowMoment(c, tp, WINDOW);
    WindowSumBounds(c, tp, WINDOW);
    WindowMomentBounds(c, tp, WINDOW);
    DivBounds(m, s, tp - FINGER_RANGE, tp + FINGER_RANGE);
  }

  /** The refined candidates of one tick, in the order of the scan. */
  function Candidates(c: seq<int>): (r: seq<Candidate>)
    requires ValidCrnts(c)
    ensures |r| == |Peaks(c)| <= MAX_TOUCH_POINTS
    ensures forall k :: 0 <= k < |r| ==> TOUCH_THRESHOLD < r[k].intensity <= MAX_INTENSITY
    ensures forall k :: 0 <= k < |r| ==> IsInt16(r[k].intensity) && r[k].intensity >= 0
  {
    PeakScan(c);
    seq(|Peaks(c)|, k requires 0 <= k < |Peaks(c)| => Centroid(c, Peaks(c)[k]))
  }

  // ---------------------------------------------------------------------
  //  Touch-point slots and note events
  // ---------------------------------------------------------------------

  /** The observable state of one TouchPoint; `hasCallback` says whether its callback is set. */
  datatype Slot = Slot(location: real, intensity: int, updated: bool, touched: bool, hasCallback: bool)

  /** One call of the note callback: (status, note, velocity). */
  datatype NoteEvent = NoteEvent(status: int, note: int, velocity: int)

  /** The effect of a step on the slots: their new states and the events emitted, in order. */
  datatype Effect = Effect(slots: seq<Slot>, events: seq<NoteEvent>)

  /** A slot as the TouchPoint constructor leaves it. */
  const FreeSlot: Slot := Slot(INIT_VAL, 0, false, false, false)

  function NoteOn(location: real, intensity: int): NoteEvent {
    NoteEvent(NOTE_ON, Truncate(location), ToUint8(intensity))
  }

  function NoteOff(location: real): NoteEvent {
    NoteEvent(NOTE_OFF, Truncate(location), RELEASE_VELOCITY)
  }

  /** TouchPoint::is_near_here: touched and within CLOSE_RANGE; the updated flag plays no part. */
  predicate IsNearHere(s: Slot, location: real) {
    s.touched && location - CLOSE_RANGE <= s.location <= location + CLOSE_RANGE
  }

  /** Index of the first slot near `location`, or |slots| when there is none. */
  function FirstNear(slots: seq<Slot>, location: real): (k: int)
    ensures 0 <= k <= |slots|
    ensures k < |slots| ==> IsNearHere(slots[k], location)
    ensures forall j :: 0 <= j < k ==> !IsNearHere(slots[j], location)
  {
    if |slots| == 0 then 0
    else if IsNearHere(slots[0], location) then 0
    else 1 + FirstNear(slots[1..], location)
  }

  /** Index of the first untouched slot, or |slots| when every slot is touched. */
  function FirstFree(slots: seq<Slot>): (k: int)
    ensures 0 <= k <= |slots|
    ensures k < |slots| ==> !slots[k].touched
    ensures forall j :: 0 <= j < k ==> slots[j].touched
  {
    if |slots| == 0 then 0
    else if !slots[0].touched then 0
    else 1 + FirstFree(slots[1..])
  }

  /** TouchPoint::update_touch: new location and intensity, Note-On for the new location then Note-Off for the old. */
  function UpdateTouch(s: Slot, cand: Candidate): Effect {
    Effect([Slot(cand.location, cand.intensity, true, true, s.hasCallback)],
           [NoteOn(cand.location, cand.intensity), NoteOff(s.location)])
  }

  /** QubitTouch::new_touch_point: the first untouched slot takes the touch, with the engine's callback. */
  function Allocate(slots: seq<Slot>, location: int, intensity: int): (e: Effect)
    ensures |e.slots| == |slots|
  {
    var k := FirstFree(slots);
    if k < |slots| then
      Effect(slots[k := Slot(location as real, intensity, true, true, true)], [NoteOn(location as real, intensity)])
    else
      Effect(slots, [])
  }

  /** One candidate of phase 3: update the first near slot, or allocate with the truncated location. */
  function MatchOne(slots: seq<Slot>, cand: Candidate): (e: Effect)
    ensures |e.slots| == |slots|
  {
    var k := FirstNear(slots, cand.location);
    if k < |slots| then
      var u := UpdateTouch(slots[k], cand);
      Effect(slots[k := u.slots[0]], u.events)
    else
      Allocate(slots, Truncate(cand.location), cand.intensity)
  }

  /** Phase 3 over all candidates, in order; the events are concatenated. */
  function MatchAll(slots: seq<Slot>, cands: seq<Candidate>): (e: Effect)
    ensures |e.slots| == |slots|
    decreases |cands|
  {
    if |cands| == 0 then Effect(slots, [])
    else
      var e := MatchAll(slots, cands[..|cands| - 1]);
      var m := MatchOne(e.slots, cands[|cands| - 1]);
      Effect(m.slots, e.events + m.events)
  }

  /** Appending events in two steps or in one. */
  lemma AppendAssoc(a: seq<NoteEvent>, b: seq<NoteEvent>, c: seq<NoteEvent>)
    ensures (a + b) + c == a + (b + c)
  {
  }

  /** MatchAll over one more candidate. */
  lemma MatchAllStep(slots: seq<Slot>, cands: seq<Candidate>, i: int)
    requires 0 <= i < |cands|
    ensures var e := MatchAll(slots, cands[..i]);
            var m := MatchOne(e.slots, cands[i]);
            MatchAll(slots, cands[..i + 1]) == Effect(m.slots, e.events + m.events)
  {
    assert cands[..i + 1][..i] == cands[..i];
  }

  /** A slot after erase_touch_point: cleared if it was updated, released otherwise. */
  function EraseSlot(s: Slot): Slot {
    if s.updated then s.(updated := false)
    else s.(location := INIT_VAL, intensity := 0, touched := false)
  }

  /** The Note-Off that released() emits for a slot that was not updated, when its callback is set. */
  function ReleaseEvents(s: Slot): seq<NoteEvent> {
    if !s.updated && s.hasCallback then [NoteOff(s.location)] else []
  }

  function EraseSlots(slots: seq<Slot>): seq<Slot> {
    seq(|slots|, i requires 0 <= i < |slots| => EraseSlot(slots[i]))
  }

  function EraseEvents(slots: seq<Slot>): seq<NoteEvent>
    decreases |slots|
  {
    if |slots| == 0 then [] else EraseEvents(slots[..|slots| - 1]) + ReleaseEvents(slots[|slots| - 1])
  }

  /** EraseEvents over one more slot. */
  lemma EraseEventsStep(slots: seq<Slot>, j: int)
    requires 0 <= j < |slots|
    ensures EraseEvents(slots[..j + 1]) == EraseEvents(slots[..j]) + ReleaseEvents(slots[j])
  {
    assert slots[..j + 1][..j] == slots[..j];
  }

  /** One call of seek_and_update_touch_point on the slots, given the pad sums. */
  function Tick(slots: seq<Slot>, c: seq<int>): Effect
    requires ValidCrnts(c)
  {
    var m := MatchAll(slots, Candidates(c));
    Effect(EraseSlots(m.slots), m.events + EraseEvents(m.slots))
  }

  /** A tick is the matching pass over the tick's candidates followed by the sweep. */
  lemma TickSweeps(slots: seq<Slot>, c: seq<int>, cands: seq<Candidate>)
    requires ValidCrnts(c) && cands == Candidates(c)
    ensures Tick(slots, c).slots == EraseSlots(MatchAll(slots, cands).slots)
    ensures Tick(slots, c).events == MatchAll(slots, cands).events + EraseEvents(MatchAll(slots, cands).slots)
  {
  }

  // ---------------------------------------------------------------------
  //  Properties of the matching pass and of the sweep
  // ---------------------------------------------------------------------

  /**
   * A candidate updates the first touched slot within CLOSE_RANGE, and the
   * update always emits a Note-On for the new location followed by a
   * Note-Off for the previous one, even when both truncate to the same note.
   */
  lemma MatchUpdatesFirstNear(slots: seq<Slot>, cand: Candidate, k: int)
    requires 0 <= k < |slots| && IsNearHere(slots[k], cand.location)
    requires forall j :: 0 <= j < k ==> !IsNearHere(slots[j], cand.location)
    ensures MatchOne(slots, cand).slots ==
            slots[k := Slot(cand.location, cand.intensity, true, true, slots[k].hasCallback)]
    ensures MatchOne(slots, cand).events ==
            [NoteEvent(NOTE_ON, Truncate(cand.location), ToUint8(cand.intensity)),
             NoteEvent(NOTE_OFF, Truncate(slots[k].location), RELEASE_VELOCITY)]
  {
    assert FirstNear(slots, cand.location) == k;
  }

  /** Without a near slot the candidate takes the first untouched slot, at its truncated location, with one Note-On. */
  lemma MatchAllocatesFirstFree(slots: seq<Slot>, cand: Candidate, k: int)
    requires forall j :: 0 <= j < |slots| ==> !IsNearHere(slots[j], cand.location)
    requires 0 <= k < |slots| && !slots[k].touched
    requires forall j :: 0 <= j < k ==> slots[j].touched
    ensures MatchOne(slots, cand).slots ==
            slots[k := Slot(Truncate(cand.location) as real, cand.intensity, true, true, true)]
    ensures MatchOne(slots, cand).events ==
            [NoteEvent(NOTE_ON, Truncate(cand.location), ToUint8(cand.intensity))]
  {
    assert FirstNear(slots, cand.location) == |slots|;
    assert FirstFree(slots) == k;
    assert Truncate(Truncate(cand.location) as real) == Truncate(cand.location);
  }

  /** When no slot is near and every slot is touched, the candidate is dropped. */
  lemma MatchDropsWhenFull(slots: seq<Slot>, cand: Candidate)
    requires forall j :: 0 <= j < |slots| ==> !IsNearHere(slots[j], cand.location)
    requires forall j :: 0 <= j < |slots| ==> slots[j].touched
    ensures MatchOne(slots, cand) == Effect(slots, [])
  {
    assert FirstNear(slots, cand.location) == |slots|;
    assert FirstFree(slots) == |slots|;
  }

  /** Count of the slots that the sweep releases with a Note-Off. */
  function CountReleased(slots: seq<Slot>): nat
    decreases |slots|
  {
    if |slots| == 0 then 0
    else CountReleased(slots[..|slots| - 1]) + (if !slots[|slots| - 1].updated && slots[|slots| - 1].hasCallback then 1 else 0)
  }

  /**
   * End of tick: no slot stays updated; every slot that was not updated is
   * released (untouched, INIT_VAL, intensity 0) whether or not it was
   * touched; updated slots keep their location and intensity. The sweep
   * emits one Note-Off with velocity 0x40 per released slot whose callback
   * is set, and nothing else.
   */
  lemma {:induction false} EndOfTick(slots: seq<Slot>)
    ensures |EraseSlots(slots)| == |slots|
    ensures forall i :: 0 <= i < |slots| ==> !EraseSlots(slots)[i].updated
    ensures forall i :: 0 <= i < |slots| && !slots[i].updated ==>
              EraseSlots(slots)[i] == Slot(INIT_VAL, 0, false, false, slots[i].hasCallback)
    ensures forall i :: 0 <= i < |slots| && slots[i].updated ==>
              EraseSlots(slots)[i] == slots[i].(updated := false)
    ensures |EraseEvents(slots)| == CountReleased(slots)
    ensures forall k :: 0 <= k < |EraseEvents(slots)| ==>
              EraseEvents(slots)[k].status == NOTE_OFF && EraseEvents(slots)[k].velocity == RELEASE_VELOCITY
    decreases |slots|
  {
    if |slots| > 0 {
      EndOfTick(slots[..|slots| - 1]);
    }
  }

  /**
   * A free slot whose callback was once set emits Note-Off for note 100
   * (the INIT_VAL location) on every sweep that does not update it.
   */
  lemma FreeSlotEmitsNoteOff(s: Slot)
    requires s == Slot(INIT_VAL, 0, false, false, true)
    ensures EraseEvents([s]) == [NoteEvent(NOTE_OFF, 100, RELEASE_VELOCITY)]
    ensures EraseSlots([s]) == [s]
  {
    assert [s][..0] == [];
  }

  /** A slot state reachable between or within ticks. */
  predicate SlotOk(s: Slot) {
    && (!s.touched ==> s.location == INIT_VAL && s.intensity == 0)
    && (s.touched ==> s.hasCallback)
    && (s.updated ==> s.touched)
    && IsInt16(s.intensity)
  }

  /** The state of the slot pool between two ticks. */
  predicate Settled(slots: seq<Slot>) {
    forall i :: 0 <= i < |slots| ==> SlotOk(slots[i]) && !slots[i].updated
  }

  lemma {:induction false} MatchAllKeepsSlotsOk(slots: seq<Slot>, cands: seq<Candidate>)
    requires forall i :: 0 <= i < |slots| ==> SlotOk(slots[i])
    requires forall k :: 0 <= k < |cands| ==> IsInt16(cands[k].intensity)
    ensures forall i :: 0 <= i < |slots| ==> SlotOk(MatchAll(slots, cands).slots[i])
    ensures forall i :: 0 <= i < |slots| && MatchAll(slots, cands).slots[i].updated ==>
              MatchAll(slots, cands).slots[i].touched
    decreases |cands|
  {
    if |cands| > 0 {
      MatchAllKeepsSlotsOk(slots, cands[..|cands| - 1]);
    }
  }

  /**
   * A tick keeps the pool settled, and a slot is touched after the tick
   * exactly when some candidate of this tick updated or allocated it.
   */
  lemma TickKeepsSettled(slots: seq<Slot>, c: seq<int>)
    requires Settled(slots) && ValidCrnts(c)
    ensures |Tick(slots, c).slots| == |slots|
    ensures Settled(Tick(slots, c).slots)
    ensures forall i :: 0 <= i < |slots| ==>
              (Tick(slots, c).slots[i].touched <==> MatchAll(slots, Candidates(c)).slots[i].updated)
  {
    MatchAllKeepsSlotsOk(slots, Candidates(c));
    EndOfTick(MatchAll(slots, Candidates(c)).slots);
  }

  /**
   * Nothing in the matching pass consults the updated flag: two candidates
   * near the same touched slot both update it, and four events are emitted.
   */
  lemma SameSlotUpdatedTwice()
    ensures var slots := [Slot(5.0, 40, false, true, true), FreeSlot, FreeSlot, FreeSlot];
            var e := MatchAll(slots, [Candidate(5.5, 20), Candidate(7.0, 30)]);
            e.slots[0] == Slot(7.0, 30, true, true, true) &&
            e.slots[1..] == slots[1..] &&
            |e.events| == 4
  {
    var slots := [Slot(5.0, 40, false, true, true), FreeSlot, FreeSlot, FreeSlot];
    var cands := [Candidate(5.5, 20), Candidate(7.0, 30)];
    assert cands[..1] == [Candidate(5.5, 20)];
    assert cands[..1][..0] == [];
    assert MatchAll(slots, cands[..1][..0]) == Effect(slots, []);
    MatchUpdatesFirstNear(slots, Candidate(5.5, 20), 0);
    var s1 := slots[0 := Slot(5.5, 20, true, true, true)];
    assert MatchAll(slots, cands[..1]) == MatchOne(slots, Candidate(5.5, 20));
    assert MatchAll(slots, cands[..1]).slots == s1;
    MatchUpdatesFirstNear(s1, Candidate(7.0, 30), 0);
  }

  // ---------------------------------------------------------------------
  //  LED report
  // ---------------------------------------------------------------------

  /** One call of the LED callback. */
  datatype LedCall = LedCall(location: real, intensity: int)

  /** The calls lighten_leds makes: one per touched slot, in slot order. */
  function LedCalls(slots: seq<Slot>): seq<LedCall>
    decreases |slots|
  {
    if |slots| == 0 then []
    else
      var last := slots[|slots| - 1];
      LedCalls(slots[..|slots| - 1]) + (if last.touched then [LedCall(last.location, last.intensity)] else [])
  }

  /** The indices of the touched slots, in ascending order. */
  function TouchedIndices(slots: seq<Slot>): seq<int>
    decreases |slots|
  {
    if |slots| == 0 then []
    else TouchedIndices(slots[..|slots| - 1]) + (if slots[|slots| - 1].touched then [|slots| - 1] else [])
  }

  /**
   * lighten_leds reports each touched slot exactly once, in slot order,
   * with that slot's location and intensity, and nothing for free slots.
   */
  lemma {:induction false} LedReport(slots: seq<Slot>)
    ensures |LedCalls(slots)| == |TouchedIndices(slots)|
    ensures forall m :: 0 <= m < |TouchedIndices(slots)| ==>
              0 <= TouchedIndices(slots)[m] < |slots| &&
              LedCalls(slots)[m] == LedCall(slots[TouchedIndices(slots)[m]].location,
                                            slots[TouchedIndices(slots)[m]].intensity)
    ensures forall m, n :: 0 <= m < n < |TouchedIndices(slots)| ==> TouchedIndices(slots)[m] < TouchedIndices(slots)[n]
    ensures forall i :: 0 <= i < |slots| ==> (slots[i].touched <==> i in TouchedIndices(slots))
    decreases |slots|
  {
    if |slots| > 0 {
      var init, last := slots[..|slots| - 1], slots[|slots| - 1];
      LedReport(init);
      var ti, lc := TouchedIndices(init), LedCalls(init);
      var t, l := TouchedIndices(slots), LedCalls(slots);
      assert t == ti + (if last.touched then [|slots| - 1] else []);
      assert l == lc + (if last.touched then [LedCall(last.location, last.intensity)] else []);
      forall m | 0 <= m < |t|
        ensures 0 <= t[m] < |slots| && l[m] == LedCall(slots[t[m]].location, slots[t[m]].intensity)
      {
        if m < |ti| {
          assert t[m] == ti[m] && l[m] == lc[m] && slots[ti[m]] == init[ti[m]];
        }
      }
      forall m, n | 0 <= m < n < |t|
        ensures t[m] < t[n]
      {
        assert t[m] == ti[m];
        if n < |ti| {
          assert t[n] == ti[n];
        }
      }
      forall i | 0 <= i < |slots|
        ensures slots[i].touched <==> i in t
      {
        if i < |init| {
          assert slots[i] == init[i];
          assert i in t <==> i in ti;
        }
      }
    }
  }

  /** No touched slot, no LED call. */
  lemma NoTouchNoLedCall(slots: seq<Slot>)
    ensures (forall i :: 0 <= i < |slots| ==> !slots[i].touched) <==> LedCalls(slots) == []
  {
    LedReport(slots);
    if LedCalls(slots) == [] {
      assert TouchedIndices(slots) == [];
    } else {
      assert slots[TouchedIndices(slots)[0]].touched;
    }
  }
}
