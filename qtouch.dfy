/**
 * The classes of qtouch.h: Pad, TouchPoint and QubitTouch.
 *
 * The two callbacks of the source are objects that record their calls in
 * order (MidiSink, LedSink). Every method that changes state is proved
 * against the value-level functions of module TouchSpec.
 */
module QTouch {
  import opened Constants
  import opened TouchSpec

  /** The note callback (status, note, velocity): it records every call in order. */
  class MidiSink {
    var events: seq<NoteEvent>

    constructor ()
      ensures events == []
    {
      events := [];
    }

    method Send(e: NoteEvent)
      modifies this
      ensures events == old(events) + [e]
    {
      events := events + [e];
    }
  }

  /** The LED callback (location, intensity): it records every call in order. */
  class LedSink {
    var calls: seq<LedCall>

    constructor ()
      ensures calls == []
    {
      calls := [];
    }

    method Light(location: real, intensity: int)
      modifies this
      ensures calls == old(calls) + [LedCall(location, intensity)]
    {
      calls := calls + [LedCall(location, intensity)];
    }
  }

  // ---------------------------------------------------------------------
  //  Pad
  // ---------------------------------------------------------------------

  function SumOf(s: seq<int>): int
    decreases |s|
  {
    if |s| == 0 then 0 else SumOf(s[..|s| - 1]) + s[|s| - 1]
  }

  lemma SumOfFour(s: seq<int>)
    requires |s| == 4
    ensures SumOf(s) == s[0] + s[1] + s[2] + s[3]
  {
    assert s[..3][..2] == s[..2];
    assert s[..2][..1] == s[..1];
    assert s[..1][..0] == [];
    assert SumOf(s[..1]) == s[0];
    assert SumOf(s[..2]) == s[0] + s[1];
    assert SumOf(s[..3]) == s[0] + s[1] + s[2];
  }

  /** Age rank of entry k of a four-entry ring whose oldest entry is under cursor p (0 = oldest). */
  function Rot(k: int, p: int): (r: int)
    requires 0 <= k < MAX_MOVING_AVERAGE && 0 <= p < MAX_MOVING_AVERAGE
    ensures 0 <= r < MAX_MOVING_AVERAGE
  {
    if k >= p then k - p else k + MAX_MOVING_AVERAGE - p
  }

  /** A rotated copy of a four-element window has the same sum. */
  lemma RotationSum(a: seq<int>, w: seq<int>, p: int)
    requires |a| == 4 && |w| == 4 && 0 <= p < 4
    requires forall k :: 0 <= k < 4 ==> a[k] == w[Rot(k, p)]
    ensures SumOf(a) == SumOf(w)
  {
    SumOfFour(a);
    SumOfFour(w);
    assert a[0] == w[Rot(0, p)] && a[1] == w[Rot(1, p)];
    assert a[2] == w[Rot(2, p)] && a[3] == w[Rot(3, p)];
  }

  /**
   * The history of a pad: `a` holds the last four readings of `f` rotated
   * so that the oldest one sits under the cursor `p`; every reading is in range.
   */
  ghost predicate History(a: seq<int>, p: int, f: seq<int>) {
    && |a| == MAX_MOVING_AVERAGE
    && 0 <= p < MAX_MOVING_AVERAGE
    && |f| >= MAX_MOVING_AVERAGE
    && (forall k :: 0 <= k < |f| ==> 0 <= f[k] <= MAX_READING)
    && (forall k :: 0 <= k < MAX_MOVING_AVERAGE ==> 0 <= a[k] <= MAX_READING)
    && (forall k :: 0 <= k < MAX_MOVING_AVERAGE ==> a[k] == f[|f| - MAX_MOVING_AVERAGE + Rot(k, p)])
  }

  /** The sum of the last four readings. */
  function LastFour(f: seq<int>): int
    requires |f| >= MAX_MOVING_AVERAGE
  {
    f[|f| - 4] + f[|f| - 3] + f[|f| - 2] + f[|f| - 1]
  }

  /** The sum of a history is the sum of the last four readings, and fits the uint16_t field. */
  lemma HistorySum(a: seq<int>, p: int, f: seq<int>)
    requires History(a, p, f)
    ensures SumOf(a) == LastFour(f)
    ensures 0 <= SumOf(a) <= MAX_CRNT
  {
    var w := f[|f| - MAX_MOVING_AVERAGE..];
    RotationSum(a, w, p);
    SumOfFour(a);
    SumOfFour(w);
  }

  /** Writing the newest reading over the oldest entry and advancing the cursor keeps the history. */
  lemma {:induction false} HistoryStep(a: seq<int>, p: int, f: seq<int>, v: int, b: seq<int>, q: int, g: seq<int>)
    requires History(a, p, f) && 0 <= v <= MAX_READING
    requires b == a[p := v] && q == (p + 1) % MAX_MOVING_AVERAGE && g == f + [v]
    ensures History(b, q, g)
  {
    assert forall k :: 0 <= k < |g| ==> 0 <= g[k] <= MAX_READING by {
      forall k | 0 <= k < |g| ensures 0 <= g[k] <= MAX_READING {
        if k < |f| { assert g[k] == f[k]; }
      }
    }
    assert forall k :: 0 <= k < MAX_MOVING_AVERAGE ==> 0 <= b[k] <= MAX_READING;
    assert q == if p == MAX_MOVING_AVERAGE - 1 then 0 else p + 1;
    forall k | 0 <= k < MAX_MOVING_AVERAGE
      ensures b[k] == g[|g| - MAX_MOVING_AVERAGE + Rot(k, q)]
    {
      if k == p {
        assert Rot(k, q) == MAX_MOVING_AVERAGE - 1;
      } else {
        assert Rot(k, q) + 1 == Rot(k, p);
      }
    }
  }

  /**
   * One sensor of the ring: a circular history of its last four readings,
   * the write cursor, the un-divided sum of the history, and the difference
   * that the scan stores.
   */
  class Pad {
    const pastValue: array<int>
    var pastIndex: int
    var mvAvgValue: int
    var diffFromBefore: int
    /** Every reading fed so far, after the four zeros of the constructor. */
    ghost var fed: seq<int>

    ghost predicate Valid()
      reads this`pastIndex, this`mvAvgValue, this`fed, pastValue
    {
      && pastValue.Length == MAX_MOVING_AVERAGE
      && History(pastValue[..], pastIndex, fed)
      && mvAvgValue == SumOf(pastValue[..])
      && 0 <= mvAvgValue <= MAX_CRNT
    }

    constructor ()
      ensures Valid() && fresh(pastValue)
      ensures fed == [0, 0, 0, 0] && mvAvgValue == 0 && diffFromBefore == 0
    {
      pastValue := new int[MAX_MOVING_AVERAGE](_ => 0);
      pastIndex := 0;
      mvAvgValue := 0;
      diffFromBefore := 0;
      fed := [0, 0, 0, 0];
      new;
      SumOfFour(pastValue[..]);
    }

    /**
     * set_crnt: the reading replaces the oldest entry (the one under the
     * cursor), the cursor advances modulo 4, and the stored sum is the sum of
     * the four entries, that is of the last four readings.
     */
    method SetCrnt(value: int)
      requires Valid() && 0 <= value <= MAX_READING
      modifies this`pastIndex, this`mvAvgValue, this`fed, pastValue
      ensures Valid()
      ensures fed == old(fed) + [value]
      ensures pastValue[..] == old(pastValue[..])[old(pastIndex) := value]
      ensures pastIndex == (old(pastIndex) + 1) % MAX_MOVING_AVERAGE
      ensures mvAvgValue == LastFour(fed)
    {
      ghost var before, was, oldFed := pastValue[..], pastIndex, fed;
      pastValue[pastIndex] := value;
      pastIndex := (pastIndex + 1) % MAX_MOVING_AVERAGE;
      fed := fed + [value];
      HistoryStep(before, was, oldFed, value, pastValue[..], pastIndex, fed);
      HistorySum(pastValue[..], pastIndex, fed);
      SumHistory();
    }

    /** The summing loop of set_crnt: the uint16_t sum of the four entries, which never wraps. */
    method SumHistory()
      requires pastValue.Length == MAX_MOVING_AVERAGE
      requires forall k :: 0 <= k < MAX_MOVING_AVERAGE ==> 0 <= pastValue[k] <= MAX_READING
      modifies this`mvAvgValue
      ensures mvAvgValue == SumOf(pastValue[..]) && pastValue[..] == old(pastValue[..])
    {
      mvAvgValue := 0;
      for i := 0 to MAX_MOVING_AVERAGE
        modifies this`mvAvgValue
        invariant mvAvgValue == SumOf(pastValue[..i])
        invariant 0 <= mvAvgValue <= i * MAX_READING
      {
        assert pastValue[..i + 1][..i] == pastValue[..i];
        mvAvgValue := ToUint16(mvAvgValue + pastValue[i]);
      }
      assert pastValue[..MAX_MOVING_AVERAGE] == pastValue[..];
    }

    /** set_diff_from_before: the int16_t difference of the given sum and this pad's sum, stored and returned. */
    method SetDiffFromBefore(valueBefore: int) returns (d: int)
      requires IsInt16(valueBefore)
      modifies this`diffFromBefore
      ensures d == diffFromBefore == ToInt16(valueBefore - mvAvgValue)
    {
      diffFromBefore := ToInt16(valueBefore - mvAvgValue);
      d := diffFromBefore;
    }
  }

  // ---------------------------------------------------------------------
  //  TouchPoint
  // ---------------------------------------------------------------------

  /** One polyphony slot: where it is touched, how hard, and its note callback. */
  class TouchPoint {
    var centerLocation: real
    var intensity: int
    var isUpdated: bool
    var isTouched: bool
    var midiCallback: MidiSink?

    /** The observable state, as a TouchSpec slot. */
    function View(): Slot
      reads this
    {
      Slot(centerLocation, intensity, isUpdated, isTouched, midiCallback != null)
    }

    constructor ()
      ensures View() == FreeSlot && midiCallback == null
    {
      centerLocation := INIT_VAL;
      intensity := 0;
      isUpdated := false;
      isTouched := false;
      midiCallback := null;
    }

    /** new_touch: take the touch and the callback, and emit one Note-On when the callback is set. */
    method NewTouch(location: real, newIntensity: int, callback: MidiSink?)
      requires IsInt16(newIntensity)
      modifies this, callback
      ensures midiCallback == callback
      ensures View() == Slot(location, newIntensity, true, true, callback != null)
      ensures callback != null ==>
                callback.events == old(callback.events) + [NoteEvent(NOTE_ON, Truncate(location), ToUint8(newIntensity))]
    {
      centerLocation := location;
      intensity := newIntensity;
      isUpdated := true;
      isTouched := true;
      midiCallback := callback;
      if midiCallback != null {
        midiCallback.Send(NoteOn(centerLocation, intensity));
      }
    }

    /** is_near_here: only a touched slot is near, when its location is within CLOSE_RANGE of `location`. */
    method IsNearHere(location: real) returns (near: bool)
      ensures near <==> isTouched && location - CLOSE_RANGE <= centerLocation <= location + CLOSE_RANGE
      ensures near == TouchSpec.IsNearHere(View(), location)
    {
      if !isTouched {
        return false;
      }
      if centerLocation >= location - CLOSE_RANGE && centerLocation <= location + CLOSE_RANGE {
        return true;
      }
      return false;
    }

    /**
     * update_touch: move the touch and emit Note-On for the new location and
     * then Note-Off for the previous one. The uint16_t intensity is stored
     * into the int16_t field.
     */
    method UpdateTouch(location: real, newIntensity: int)
      requires midiCallback != null && 0 <= newIntensity < 0x1_0000
      modifies this, midiCallback
      ensures midiCallback == old(midiCallback)
      ensures [View()] == TouchSpec.UpdateTouch(old(View()), Candidate(location, ToInt16(newIntensity))).slots
      ensures midiCallback.events == old(midiCallback.events) +
                TouchSpec.UpdateTouch(old(View()), Candidate(location, ToInt16(newIntensity))).events
    {
      var previousLocation := centerLocation;
      centerLocation := location;
      intensity := ToInt16(newIntensity);
      isUpdated := true;
      isTouched := true;
      midiCallback.Send(NoteOn(centerLocation, intensity));
      midiCallback.Send(NoteOff(previousLocation));
    }

    method ClearUpdatedFlag()
      modifies this`isUpdated
      ensures View() == old(View()).(updated := false)
    {
      isUpdated := false;
    }

    /** released: emit Note-Off for the current location when the callback is set, then free the slot. */
    method Released()
      modifies this, midiCallback
      ensures midiCallback == old(midiCallback)
      ensures View() == old(View()).(location := INIT_VAL, intensity := 0, touched := false)
      ensures midiCallback != null ==>
                midiCallback.events == old(midiCallback.events) + [NoteEvent(NOTE_OFF, Truncate(old(centerLocation)), RELEASE_VELOCITY)]
    {
      if midiCallback != null {
        midiCallback.Send(NoteOff(centerLocation));
      }
      isTouched := false;
      centerLocation := INIT_VAL;
      intensity := 0;
    }
  }

  // ---------------------------------------------------------------------
  //  QubitTouch
  // ---------------------------------------------------------------------

  /** An entry of temp_touch_point: candidate pad, centroid location, summed intensity. */
  datatype TempPoint = TempPoint(pad: int, location: real, intensity: int)

  /** The candidates held in the first n entries of temp_touch_point. */
  function TempCandidates(temp: seq<TempPoint>, n: int): (r: seq<Candidate>)
    requires 0 <= n <= |temp|
    ensures |r| == n
    ensures forall k :: 0 <= k < n ==> r[k] == Candidate(temp[k].location, temp[k].intensity)
  {
    seq(n, k requires 0 <= k < n => Candidate(temp[k].location, temp[k].intensity))
  }

  /** The whole touch engine: the ring of pads, the slots and the note callback. */
  class QubitTouch {
    const pads: seq<Pad>
    const touchPoints: seq<TouchPoint>
    const midiCallback: MidiSink
    var touchCount: int
    /** The position of each pad, of each pad's history array and of each slot. */
    ghost const padIndex: map<Pad, int>
    ghost const arrayIndex: map<array<int>, int>
    ghost const slotIndex: map<TouchPoint, int>

    ghost function PadArrays(): set<array<int>> {
      set i | 0 <= i < |pads| :: pads[i].pastValue
    }

    /**
     * The engine owns MAX_PADS pads and MAX_TOUCH_POINTS slots, and no two
     * positions share a pad or a slot: each is mapped back to its own position.
     */
    ghost predicate Distinct() {
      && |pads| == MAX_PADS
      && |touchPoints| == MAX_TOUCH_POINTS
      && (forall i :: 0 <= i < |pads| ==> pads[i] in padIndex && padIndex[pads[i]] == i)
      && (forall k :: 0 <= k < |touchPoints| ==> touchPoints[k] in slotIndex && slotIndex[touchPoints[k]] == k)
    }

    /** No two pads share a history array. */
    ghost predicate ArraysApart() {
      forall i :: 0 <= i < |pads| ==> pads[i].pastValue in arrayIndex && arrayIndex[pads[i].pastValue] == i
    }

    /** Distinct positions hold distinct pads, history arrays and slots. */
    lemma DistinctParts()
      requires Distinct() && ArraysApart()
      ensures forall i, j :: 0 <= i < j < |pads| ==> pads[i] != pads[j] && pads[i].pastValue != pads[j].pastValue
      ensures forall i, j :: 0 <= i < j < |touchPoints| ==> touchPoints[i] != touchPoints[j]
    {
      forall i, j | 0 <= i < j < |pads|
        ensures pads[i] != pads[j] && pads[i].pastValue != pads[j].pastValue
      {
        assert padIndex[pads[i]] != padIndex[pads[j]];
        assert arrayIndex[pads[i].pastValue] != arrayIndex[pads[j].pastValue];
      }
    }

    ghost predicate PadsValid()
      reads pads`pastIndex, pads`mvAvgValue, pads`fed, PadArrays()
    {
      Distinct() && ArraysApart() && forall i :: 0 <= i < |pads| ==> pads[i].Valid()
    }

    /** Every slot is in a reachable state, and a callback it holds is the engine's. */
    ghost predicate SlotsValid()
      reads touchPoints
    {
      Distinct() &&
      forall k :: 0 <= k < |touchPoints| ==>
        (touchPoints[k].midiCallback == null || touchPoints[k].midiCallback == midiCallback) &&
        SlotOk(touchPoints[k].View())
    }

    ghost predicate Valid()
      reads pads`pastIndex, pads`mvAvgValue, pads`fed, touchPoints, PadArrays()
    {
      PadsValid() && SlotsValid()
    }

    /** get_crnt of every pad, in ring order. */
    ghost function Crnts(): seq<int>
      reads pads
    {
      seq(|pads|, i requires 0 <= i < |pads| reads pads => pads[i].mvAvgValue)
    }

    /** diff_from_before of every pad, in ring order. */
    ghost function Diffs(): seq<int>
      reads pads
    {
      seq(|pads|, i requires 0 <= i < |pads| reads pads => pads[i].diffFromBefore)
    }

    /** The readings each pad has been fed. */
    ghost function Histories(): seq<seq<int>>
      reads pads
    {
      seq(|pads|, i requires 0 <= i < |pads| reads pads => pads[i].fed)
    }

    /** The slots, as TouchSpec sees them. */
    ghost function Slots(): seq<Slot>
      reads touchPoints
    {
      seq(|touchPoints|, k requires 0 <= k < |touchPoints| reads touchPoints => touchPoints[k].View())
    }

    /** Between two ticks no slot carries the updated flag. */
    ghost predicate Settled()
      reads pads`pastIndex, pads`mvAvgValue, pads`fed, touchPoints, PadArrays()
    {
      Valid() && TouchSpec.Settled(Slots())
    }

    lemma CrntsInRange()
      requires PadsValid()
      ensures ValidCrnts(Crnts())
    {
    }

    constructor (cb: MidiSink)
      ensures Settled() && midiCallback == cb && touchCount == 0
      ensures Crnts() == seq(MAX_PADS, _ => 0) && Diffs() == seq(MAX_PADS, _ => 0)
      ensures Histories() == seq(MAX_PADS, _ => [0, 0, 0, 0])
      ensures Slots() == seq(MAX_TOUCH_POINTS, _ => FreeSlot)
      ensures forall i :: 0 <= i < |pads| ==> fresh(pads[i]) && fresh(pads[i].pastValue)
      ensures forall k :: 0 <= k < |touchPoints| ==> fresh(touchPoints[k])
    {
      var ps, pi, ai := NewPads();
      var ts, si := NewTouchPoints();
      pads := ps;
      touchPoints := ts;
      midiCallback := cb;
      touchCount := 0;
      padIndex := pi;
      arrayIndex := ai;
      slotIndex := si;
      new;
      InitialState();
    }

    /** Zeroed pads and free slots without a callback: the state the constructor promises. */
    lemma InitialState()
      requires Distinct() && ArraysApart()
      requires forall i :: 0 <= i < |pads| ==>
                 pads[i].Valid() && pads[i].mvAvgValue == 0 && pads[i].diffFromBefore == 0 && pads[i].fed == [0, 0, 0, 0]
      requires forall k :: 0 <= k < |touchPoints| ==> touchPoints[k].View() == FreeSlot && touchPoints[k].midiCallback == null
      ensures Settled()
      ensures Crnts() == seq(MAX_PADS, _ => 0) && Diffs() == seq(MAX_PADS, _ => 0)
      ensures Histories() == seq(MAX_PADS, _ => [0, 0, 0, 0])
      ensures Slots() == seq(MAX_TOUCH_POINTS, _ => FreeSlot)
    {
      assert forall i :: 0 <= i < MAX_PADS ==> Crnts()[i] == 0 && Diffs()[i] == 0 && Histories()[i] == [0, 0, 0, 0];
      assert forall k :: 0 <= k < MAX_TOUCH_POINTS ==> Slots()[k] == FreeSlot;
    }

    /** The value-initialised pads_ array, with the position of each pad and of each history array. */
    static method NewPads() returns (ps: seq<Pad>, ghost pi: map<Pad, int>, ghost ai: map<array<int>, int>)
      ensures |ps| == MAX_PADS
      ensures forall i :: 0 <= i < |ps| ==> fresh(ps[i]) && fresh(ps[i].pastValue)
      ensures forall i :: 0 <= i < |ps| ==>
                ps[i].Valid() && ps[i].mvAvgValue == 0 && ps[i].diffFromBefore == 0 && ps[i].fed == [0, 0, 0, 0]
      ensures forall i :: 0 <= i < |ps| ==>
                ps[i] in pi && pi[ps[i]] == i && ps[i].pastValue in ai && ai[ps[i].pastValue] == i
    {
      ps, pi, ai := [], map[], map[];
      while |ps| < MAX_PADS
        invariant |ps| <= MAX_PADS
        invariant forall i :: 0 <= i < |ps| ==> fresh(ps[i]) && fresh(ps[i].pastValue)
        invariant forall i :: 0 <= i < |ps| ==>
                    ps[i].Valid() && ps[i].mvAvgValue == 0 && ps[i].diffFromBefore == 0 && ps[i].fed == [0, 0, 0, 0]
        invariant forall i :: 0 <= i < |ps| ==>
                    ps[i] in pi && pi[ps[i]] == i && ps[i].pastValue in ai && ai[ps[i].pastValue] == i
      {
        var pad := new Pad();
        pi := pi[pad := |ps|];
        ai := ai[pad.pastValue := |ps|];
        ps := ps + [pad];
      }
    }

    /** The value-initialised touch_points_ array: free slots without a callback, with their positions. */
    static method NewTouchPoints() returns (ts: seq<TouchPoint>, ghost si: map<TouchPoint, int>)
      ensures |ts| == MAX_TOUCH_POINTS
      ensures forall k :: 0 <= k < |ts| ==> fresh(ts[k])
      ensures forall k :: 0 <= k < |ts| ==> ts[k].View() == FreeSlot && ts[k].midiCallback == null
      ensures forall k :: 0 <= k < |ts| ==> ts[k] in si && si[ts[k]] == k
    {
      ts, si := [], map[];
      while |ts| < MAX_TOUCH_POINTS
        invariant |ts| <= MAX_TOUCH_POINTS
        invariant forall k :: 0 <= k < |ts| ==> fresh(ts[k])
        invariant forall k :: 0 <= k < |ts| ==> ts[k].View() == FreeSlot && ts[k].midiCallback == null
        invariant forall k :: 0 <= k < |ts| ==> ts[k] in si && si[ts[k]] == k
      {
        var tp := new TouchPoint();
        si := si[tp := |ts|];
        ts := ts + [tp];
      }
    }

    /** set_value: feed one reading to the pad. */
    method SetValue(padNum: int, value: int)
      requires Valid() && 0 <= padNum < MAX_PADS && 0 <= value <= MAX_READING
      modifies pads[padNum], pads[padNum].pastValue
      ensures Valid()
      ensures pads[padNum].fed == old(pads[padNum].fed) + [value]
      ensures pads[padNum].mvAvgValue == LastFour(pads[padNum].fed)
      ensures pads[padNum].diffFromBefore == old(pads[padNum].diffFromBefore)
    {
      var pad := pads[padNum];
      pad.SetCrnt(value);
      forall q | 0 <= q < MAX_PADS && q != padNum
        ensures pads[q].Valid()
      {
        assert pads[q] != pad && pads[q].pastValue != pad.pastValue;
      }
    }

    /** proper_pad: the pad of an arbitrary, possibly negative or oversized, ring offset. */
    method ProperPad(padNum: int) returns (pad: Pad)
      requires |pads| == MAX_PADS
      ensures pad == pads[RingIndex(padNum)]
    {
      var n := padNum;
      ghost var turns := 0;
      while n < 0
        invariant n == padNum + turns * MAX_PADS
        decreases -n
      {
        n := n + MAX_PADS;
        turns := turns + 1;
      }
      RingIndexShift(padNum, turns + 1);
      pad := pads[(n + MAX_PADS) % MAX_PADS];
    }

    /** The pads' running sums are c. */
    ghost predicate SumsAre(c: seq<int>)
      reads pads`mvAvgValue
    {
      |pads| == |c| && forall q {:trigger pads[q].mvAvgValue} :: 0 <= q < |c| ==> pads[q].mvAvgValue == c[q]
    }

    /** The pads' stored differences are d. */
    ghost predicate DiffsAre(d: seq<int>)
      reads pads`diffFromBefore
    {
      |pads| == |d| && forall q {:trigger pads[q].diffFromBefore} :: 0 <= q < |d| ==> pads[q].diffFromBefore == d[q]
    }

    lemma SumsAreCrnts(c: seq<int>)
      requires SumsAre(c)
      ensures Crnts() == c
    {
      assert forall q :: 0 <= q < |c| ==> Crnts()[q] == c[q];
    }

    lemma DiffsAreDiffs(d: seq<int>)
      requires DiffsAre(d)
      ensures Diffs() == d
    {
      assert forall q :: 0 <= q < |d| ==> Diffs()[q] == d[q];
    }

    /** The kept peaks of c, as recorded in the first tempIndex entries of temp. */
    ghost predicate Recorded(c: seq<int>, temp: seq<TempPoint>, tempIndex: int)
      requires |c| == MAX_PADS
    {
      && |temp| == MAX_TOUCH_POINTS
      && tempIndex == |Peaks(c)|
      && forall k :: 0 <= k < tempIndex ==> temp[k].pad == Peaks(c)[k]
    }

    /**
     * seek_and_update_touch_point: one tick of the engine. Phase 1 stores the
     * ring differences and records the peaks, phase 2 refines them into
     * candidates, phase 3 matches the candidates against the slots, and the
     * sweep releases every slot this tick did not update. The pad sums and
     * histories are not changed.
     */
    method SeekAndUpdateTouchPoint()
      requires Valid()
      modifies this`touchCount, pads`diffFromBefore, touchPoints, midiCallback
      ensures Settled()
      ensures Crnts() == old(Crnts()) && Histories() == old(Histories())
      ensures touchCount == |Peaks(Crnts())|
      ensures Diffs() == ScannedDiffs(old(Diffs()), Crnts())
      ensures Slots() == Tick(old(Slots()), Crnts()).slots
      ensures midiCallback.events == old(midiCallback.events) + Tick(old(Slots()), Crnts()).events
    {
      ghost var c, d0, h := Crnts(), Diffs(), Histories();
      CrntsInRange();
      assert SumsAre(c) && DiffsAre(d0) && FedAre(h);
      TickFrom(c, d0, h);
      SumsAreCrnts(c);
      DiffsAreDiffs(ScannedDiffs(d0, c));
      FedAreHistories(h);
    }

    /** The tick over pad sums c, stored differences d0 and histories h. */
    method TickFrom(ghost c: seq<int>, ghost d0: seq<int>, ghost h: seq<seq<int>>)
      requires PadsValid() && SlotsValid() && ValidCrnts(c) && SumsAre(c) && DiffsAre(d0) && FedAre(h)
      modifies this`touchCount, pads`diffFromBefore, touchPoints, midiCallback
      ensures PadsValid() && SlotsValid() && TouchSpec.Settled(Slots())
      ensures SumsAre(c) && DiffsAre(ScannedDiffs(d0, c)) && FedAre(h)
      ensures touchCount == |Peaks(c)|
      ensures Slots() == Tick(old(Slots()), c).slots
      ensures midiCallback.events == old(midiCallback.events) + Tick(old(Slots()), c).events
    {
      var temp, tempIndex := LocateTouches(c, d0, h);
      TrackTouches(temp, tempIndex, c, ScannedDiffs(d0, c), h);
    }

    /**
     * Phases 1 and 2 (FindCandidates), stated together with what they leave
     * alone: the slots, the validity of every pad and the pad histories.
     */
    method LocateTouches(ghost c: seq<int>, ghost d0: seq<int>, ghost h: seq<seq<int>>) returns (temp: seq<TempPoint>, tempIndex: int)
      requires PadsValid() && SlotsValid() && ValidCrnts(c) && SumsAre(c) && DiffsAre(d0) && FedAre(h)
      modifies this`touchCount, pads`diffFromBefore
      ensures PadsValid() && SlotsValid() && FedAre(h)
      ensures SumsAre(c) && DiffsAre(ScannedDiffs(d0, c))
      ensures touchCount == tempIndex == |Peaks(c)|
      ensures 0 <= tempIndex <= |temp| && TempCandidates(temp, tempIndex) == Candidates(c)
    {
      temp, tempIndex := FindCandidates(c, d0);
    }

    /** Phase 3 and the sweep (TrackTick), stated together with the pad facts they leave alone. */
    method TrackTouches(temp: seq<TempPoint>, tempIndex: int, ghost c: seq<int>, ghost d: seq<int>, ghost h: seq<seq<int>>)
      requires PadsValid() && SumsAre(c) && DiffsAre(d) && FedAre(h)
      requires SlotsValid() && ValidCrnts(c) && 0 <= tempIndex <= |temp| && TempCandidates(temp, tempIndex) == Candidates(c)
      modifies touchPoints, midiCallback
      ensures PadsValid() && SumsAre(c) && DiffsAre(d) && FedAre(h)
      ensures SlotsValid() && TouchSpec.Settled(Slots())
      ensures Slots() == Tick(old(Slots()), c).slots
      ensures midiCallback.events == old(midiCallback.events) + Tick(old(Slots()), c).events
    {
      TrackTick(temp, tempIndex, c);
    }

    /** Phases 1 and 2, over the pad sums c and the stored differences d0; touch_count_ is the number of kept peaks. */
    method FindCandidates(ghost c: seq<int>, ghost d0: seq<int>) returns (temp: seq<TempPoint>, tempIndex: int)
      requires Distinct() && ValidCrnts(c) && SumsAre(c) && DiffsAre(d0)
      modifies this`touchCount, pads`diffFromBefore
      ensures SumsAre(c) && DiffsAre(ScannedDiffs(d0, c))
      ensures touchCount == tempIndex == |Peaks(c)|
      ensures 0 <= tempIndex <= |temp| && TempCandidates(temp, tempIndex) == Candidates(c)
    {
      var temp0 := seq(MAX_TOUCH_POINTS, _ => TempPoint(INIT_VAL.Floor, INIT_VAL, 0));
      temp, tempIndex := ScanPeaks(temp0, c, d0);
      touchCount := tempIndex;
      temp := ComputeCentroids(temp, tempIndex, c);
    }

    /** Phase 3 and the sweep, as the slot side of Tick for the pad sums c. */
    method TrackTick(temp: seq<TempPoint>, tempIndex: int, ghost c: seq<int>)
      requires SlotsValid() && ValidCrnts(c) && 0 <= tempIndex <= |temp| && TempCandidates(temp, tempIndex) == Candidates(c)
      modifies touchPoints, midiCallback
      ensures SlotsValid() && TouchSpec.Settled(Slots())
      ensures Slots() == Tick(old(Slots()), c).slots
      ensures midiCallback.events == old(midiCallback.events) + Tick(old(Slots()), c).events
    {
      ghost var cands := Candidates(c);
      TickSweeps(Slots(), c, cands);
      ghost var m := MatchAll(Slots(), cands);
      AppendAssoc(midiCallback.events, m.events, EraseEvents(m.slots));
      MatchAndSweep(temp, tempIndex, cands);
    }

    /** Phase 3 and the closing sweep: the slots take the candidates cands, then every slot not updated is released. */
    method MatchAndSweep(temp: seq<TempPoint>, tempIndex: int, ghost cands: seq<Candidate>)
      requires SlotsValid() && 0 <= tempIndex <= |temp| && TempCandidates(temp, tempIndex) == cands
      requires forall k :: 0 <= k < |cands| ==> IsInt16(cands[k].intensity) && cands[k].intensity >= 0
      modifies touchPoints, midiCallback
      ensures SlotsValid() && TouchSpec.Settled(Slots())
      ensures Slots() == EraseSlots(MatchAll(old(Slots()), cands).slots)
      ensures midiCallback.events == old(midiCallback.events) + MatchAll(old(Slots()), cands).events
                                      + EraseEvents(MatchAll(old(Slots()), cands).slots)
    {
      ghost var m := MatchAll(Slots(), cands);
      MatchAllKeepsSlotsOk(Slots(), cands);
      MatchCandidates(temp, tempIndex);
      EraseTouchPoint();
      EndOfTick(m.slots);
    }

    /** The readings fed to the pads are h. */
    ghost predicate FedAre(h: seq<seq<int>>)
      reads pads`fed
    {
      |pads| == |h| && forall q {:trigger pads[q].fed} :: 0 <= q < |h| ==> pads[q].fed == h[q]
    }

    lemma FedAreHistories(h: seq<seq<int>>)
      requires FedAre(h)
      ensures Histories() == h
    {
      assert forall q :: 0 <= q < |h| ==> Histories()[q] == h[q];
    }

    /**
     * Phase 1 of seek_and_update_touch_point, over sums c and stored
     * differences d0. Step i (0 .. MAX_PADS) stores in pad i the difference
     * of pad i-1's sum and its own; a pad whose difference turned from
     * negative to positive, at a sum above the threshold, is kept, and the
     * scan stops once MAX_TOUCH_POINTS are kept.
     */
    method ScanPeaks(temp0: seq<TempPoint>, ghost c: seq<int>, ghost d0: seq<int>) returns (temp: seq<TempPoint>, tempIndex: int)
      requires Distinct() && ValidCrnts(c) && SumsAre(c) && DiffsAre(d0) && |temp0| == MAX_TOUCH_POINTS
      modifies pads`diffFromBefore
      ensures SumsAre(c) && DiffsAre(ScannedDiffs(d0, c))
      ensures Recorded(c, temp, tempIndex)
    {
      ghost var kept: seq<int> := [];
      temp := temp0;
      tempIndex := 0;
      var diffBefore := 0;
      var i := 0;
      while i <= MAX_PADS
        invariant 0 <= i <= MAX_PADS + 1
        invariant SumsAre(c)
        invariant |temp| == MAX_TOUCH_POINTS
        invariant kept == PeaksBelow(c, if i == 0 then 0 else i - 1)
        invariant tempIndex == |kept| < MAX_TOUCH_POINTS
        invariant forall k :: 0 <= k < tempIndex ==> temp[k].pad == kept[k]
        invariant diffBefore == if i == 0 then 0 else Diff(c, i - 1)
        invariant forall q {:trigger pads[q].diffFromBefore} :: 0 <= q < MAX_PADS ==>
                    pads[q].diffFromBefore == if q < i then Diff(c, q) else d0[q]
        invariant i == MAX_PADS + 1 ==> DiffsAre(ScannedDiffs(d0, c)) && Recorded(c, temp, tempIndex)
      {
        var prevPad, diffAfter := StoreDiff(i, c, d0);
        var stop;
        temp, tempIndex, stop := KeepPeak(temp, tempIndex, i, diffBefore, diffAfter, ToInt16(prevPad.mvAvgValue), c);
        if i >= 1 {
          kept := kept + (if IsPeak(c, i - 1) then [i - 1] else []);
        }
        if stop {
          ScanDoneAt(c, d0, i);
          break;
        }
        diffBefore := diffAfter;
        i := i + 1;
        if i == MAX_PADS + 1 {
          ScanDoneAt(c, d0, MAX_PADS);
        }
      }
    }

    /**
     * The second half of scan step i: a sign change from negative to positive
     * at a pad whose int16_t sum is above the threshold keeps pad i-1; the
     * scan stops once MAX_TOUCH_POINTS pads are kept.
     */
    static method KeepPeak(temp0: seq<TempPoint>, tempIndex0: int, i: int, diffBefore: int, diffAfter: int, value: int, ghost c: seq<int>)
        returns (temp: seq<TempPoint>, tempIndex: int, stop: bool)
      requires ValidCrnts(c) && 0 <= i <= MAX_PADS && |temp0| == MAX_TOUCH_POINTS
      requires tempIndex0 == |PeaksBelow(c, if i == 0 then 0 else i - 1)| < MAX_TOUCH_POINTS
      requires forall k :: 0 <= k < tempIndex0 ==> temp0[k].pad == PeaksBelow(c, if i == 0 then 0 else i - 1)[k]
      requires diffBefore == (if i == 0 then 0 else Diff(c, i - 1)) && diffAfter == Diff(c, i)
      requires value == c[Ring(i - 1)]
      ensures |temp| == MAX_TOUCH_POINTS
      ensures tempIndex == |PeaksBelow(c, if i == 0 then 0 else i)|
      ensures forall k :: 0 <= k < tempIndex ==> temp[k].pad == PeaksBelow(c, if i == 0 then 0 else i)[k]
      ensures stop <==> tempIndex == MAX_TOUCH_POINTS
      ensures stop ==> Peaks(c) == PeaksBelow(c, i) && ScanEnd(c) == i
    {
      temp, tempIndex, stop := temp0, tempIndex0, false;
      if i >= 1 {
        PeakTest(c, i);
      }
      if diffAfter > 0 && diffBefore < 0 {
        if value > TOUCH_THRESHOLD {
          temp := temp[tempIndex := temp[tempIndex].(pad := if i >= 1 then i - 1 else i - 1 + MAX_PADS)];
          tempIndex := tempIndex + 1;
          if tempIndex >= MAX_TOUCH_POINTS {
            ScanStopsEarly(c, i);
            stop := true;
          }
        }
      }
    }

    /**
     * The first half of scan step i: proper_pad(i - 1), then
     * proper_pad(i).set_diff_from_before(prev_pad.get_crnt()).
     */
    method StoreDiff(i: int, ghost c: seq<int>, ghost d0: seq<int>) returns (prevPad: Pad, diffAfter: int)
      requires Distinct() && ValidCrnts(c) && SumsAre(c) && |d0| == MAX_PADS && 0 <= i <= MAX_PADS
      requires forall q {:trigger pads[q].diffFromBefore} :: 0 <= q < MAX_PADS ==>
                 pads[q].diffFromBefore == if q < i then Diff(c, q) else d0[q]
      modifies pads`diffFromBefore
      ensures SumsAre(c)
      ensures prevPad == pads[Ring(i - 1)] && prevPad.mvAvgValue == c[Ring(i - 1)]
      ensures IsInt16(prevPad.mvAvgValue) && diffAfter == Diff(c, i)
      ensures forall q {:trigger pads[q].diffFromBefore} :: 0 <= q < MAX_PADS ==>
                pads[q].diffFromBefore == if q <= i then Diff(c, q) else d0[q]
    {
      RingIsRingIndex(i - 1);
      RingIsRingIndex(i);
      prevPad := ProperPad(i - 1);
      var pad := ProperPad(i);
      DiffFits(c, i);
      assert prevPad.mvAvgValue == c[Ring(i - 1)] && pad.mvAvgValue == c[Ring(i)];
      diffAfter := pad.SetDiffFromBefore(ToInt16(prevPad.mvAvgValue));
      forall q | 0 <= q < MAX_PADS
        ensures pads[q].diffFromBefore == if q <= i then Diff(c, q) else d0[q]
      {
        if q != Ring(i) {
          assert pads[q] != pad;
        } else if i == MAX_PADS {
          DiffWraps(c);
        }
      }
    }

    /** After its last step e the scan has stored ScannedDiffs. */
    lemma ScanDoneAt(c: seq<int>, d0: seq<int>, e: int)
      requires |c| == MAX_PADS && |d0| == MAX_PADS && |pads| == MAX_PADS
      requires 0 <= e <= MAX_PADS && e == ScanEnd(c)
      requires forall q {:trigger pads[q].diffFromBefore} :: 0 <= q < MAX_PADS ==>
                 pads[q].diffFromBefore == if q <= e then Diff(c, q) else d0[q]
      ensures DiffsAre(ScannedDiffs(d0, c))
    {
    }

    /**
     * Phase 2 of seek_and_update_touch_point: each kept pad tp gets the
     * weighted mean of the unwrapped positions tp-3 .. tp+3 over the int16_t
     * sums of the seven pads around it, and the sum of those weights.
     */
    method ComputeCentroids(temp0: seq<TempPoint>, tempIndex: int, ghost c: seq<int>) returns (temp: seq<TempPoint>)
      requires |pads| == MAX_PADS && ValidCrnts(c) && SumsAre(c) && Recorded(c, temp0, tempIndex)
      ensures Recorded(c, temp, tempIndex)
      ensures TempCandidates(temp, tempIndex) == Candidates(c)
    {
      PeakScan(c);
      temp := temp0;
      var i := 0;
      while i < tempIndex
        invariant 0 <= i <= tempIndex
        invariant Recorded(c, temp, tempIndex)
        invariant forall k :: 0 <= k < i ==> Candidate(temp[k].location, temp[k].intensity) == Candidates(c)[k]
      {
        var tp := temp[i].pad;
        var locate, sum := WindowCentroid(tp, c);
        temp := temp[i := temp[i].(location := locate, intensity := sum)];
        i := i + 1;
      }
    }

    /** The inner loop of phase 2, over the window of seven pads around peak tp. */
    method WindowCentroid(tp: int, ghost c: seq<int>) returns (locate: real, sum: int)
      requires |pads| == MAX_PADS && ValidCrnts(c) && SumsAre(c)
      requires 0 <= tp < MAX_PADS && IsPeak(c, tp)
      ensures Candidate(locate, sum) == Centroid(c, tp)
    {
      sum := 0;
      var moment := 0.0;
      var j := 0;
      while j < WINDOW
        invariant 0 <= j <= WINDOW
        invariant sum == WindowSum(c, tp, j)
        invariant moment == WindowMoment(c, tp, j) as real
      {
        var windowIdx := j - FINGER_RANGE;
        RingIsRingIndex(tp + windowIdx);
        var pad := ProperPad(tp + windowIdx);
        var tpValue := ToInt16(pad.mvAvgValue);
        WindowSumBounds(c, tp, j + 1);
        sum := ToInt16(sum + tpValue);
        moment := moment + ((tp + windowIdx) * tpValue) as real;
        j := j + 1;
      }
      CentroidInWindow(c, tp);
      locate := moment / sum as real;
    }

    /**
     * One candidate of phase 3: the first slot near `locate` is updated, and
     * when no slot is near, new_touch_point takes the candidate with its
     * location truncated to uint16_t.
     */
    method MatchCandidate(locate: real, intensity: int)
      requires SlotsValid() && IsInt16(intensity) && intensity >= 0
      modifies touchPoints, midiCallback
      ensures SlotsValid()
      ensures Slots() == MatchOne(old(Slots()), Candidate(locate, intensity)).slots
      ensures midiCallback.events == old(midiCallback.events) + MatchOne(old(Slots()), Candidate(locate, intensity)).events
    {
      ghost var before := Slots();
      var j := 0;
      while j < MAX_TOUCH_POINTS
        invariant 0 <= j <= MAX_TOUCH_POINTS
        invariant SlotsValid() && Slots() == before && midiCallback.events == old(midiCallback.events)
        invariant forall k :: 0 <= k < j ==> !IsNearHere(before[k], locate)
      {
        var tp := touchPoints[j];
        var near := tp.IsNearHere(locate);
        if near {
          UpdateAt(j, locate, intensity);
          MatchUpdatesFirstNear(before, Candidate(locate, intensity), j);
          return;
        }
        j := j + 1;
      }
      NewTouchPoint(Truncate(locate), ToUint16(intensity));
    }

    /** Slot j, which is near, takes the candidate through update_touch, with the int16_t intensity sent as uint16_t. */
    method UpdateAt(j: int, locate: real, intensity: int)
      requires SlotsValid() && 0 <= j < MAX_TOUCH_POINTS && IsInt16(intensity) && intensity >= 0
      requires touchPoints[j].isTouched
      modifies touchPoints[j], midiCallback
      ensures SlotsValid()
      ensures Slots() == old(Slots())[j := Slot(locate, intensity, true, true, old(Slots())[j].hasCallback)]
      ensures midiCallback.events == old(midiCallback.events) +
                [NoteEvent(NOTE_ON, Truncate(locate), ToUint8(intensity)),
                 NoteEvent(NOTE_OFF, Truncate(old(Slots())[j].location), RELEASE_VELOCITY)]
    {
      var tp := touchPoints[j];
      tp.UpdateTouch(locate, ToUint16(intensity));
      forall k | 0 <= k < MAX_TOUCH_POINTS && k != j
        ensures touchPoints[k].View() == old(touchPoints[k].View()) && touchPoints[k].midiCallback == old(touchPoints[k].midiCallback)
      {
        assert touchPoints[k] != tp;
      }
      assert Slots() == old(Slots())[j := tp.View()];
    }

    /**
     * new_touch_point: the first untouched slot takes the touch with the
     * engine's callback; when every slot is touched nothing happens.
     */
    method NewTouchPoint(location: int, intensity: int)
      requires SlotsValid() && 0 <= intensity < 0x1_0000
      modifies touchPoints, midiCallback
      ensures SlotsValid()
      ensures Slots() == Allocate(old(Slots()), location, ToInt16(intensity)).slots
      ensures midiCallback.events == old(midiCallback.events) + Allocate(old(Slots()), location, ToInt16(intensity)).events
    {
      ghost var before := Slots();
      var j := 0;
      while j < MAX_TOUCH_POINTS
        invariant 0 <= j <= MAX_TOUCH_POINTS
        invariant SlotsValid() && Slots() == before && midiCallback.events == old(midiCallback.events)
        invariant forall k :: 0 <= k < j ==> before[k].touched
      {
        var tp := touchPoints[j];
        if !tp.isTouched {
          assert before[j] == tp.View();
          tp.NewTouch(location as real, ToInt16(intensity), midiCallback);
          forall k | 0 <= k < MAX_TOUCH_POINTS && k != j
            ensures touchPoints[k].View() == before[k] && touchPoints[k].midiCallback == old(touchPoints[k].midiCallback)
          {
            assert touchPoints[k] != tp;
          }
          assert Slots() == before[j := tp.View()];
          return;
        }
        j := j + 1;
      }
    }

    /** Phase 3 over the first tempIndex entries of temp_touch_point, in order; each int16_t intensity goes out as uint16_t. */
    method MatchCandidates(temp: seq<TempPoint>, tempIndex: int)
      requires SlotsValid() && 0 <= tempIndex <= |temp|
      requires forall k :: 0 <= k < tempIndex ==> IsInt16(temp[k].intensity) && temp[k].intensity >= 0
      modifies touchPoints, midiCallback
      ensures SlotsValid()
      ensures Slots() == MatchAll(old(Slots()), TempCandidates(temp, tempIndex)).slots
      ensures midiCallback.events == old(midiCallback.events) + MatchAll(old(Slots()), TempCandidates(temp, tempIndex)).events
    {
      ghost var cands := TempCandidates(temp, tempIndex);
      ghost var s0, e0 := Slots(), midiCallback.events;
      ghost var eff := Effect(s0, []);
      var i := 0;
      while i < tempIndex
        invariant 0 <= i <= tempIndex
        invariant SlotsValid()
        invariant eff == MatchAll(s0, cands[..i])
        invariant Slots() == eff.slots && midiCallback.events == e0 + eff.events
      {
        eff := MatchNext(temp[i].location, temp[i].intensity, s0, e0, cands, i, eff);
        i := i + 1;
      }
      assert cands[..tempIndex] == cands;
    }

    /** Candidate i of cands, at locate with intensity, after the effect eff of the candidates before it. */
    method MatchNext(locate: real, intensity: int, ghost s0: seq<Slot>, ghost e0: seq<NoteEvent>, ghost cands: seq<Candidate>, ghost i: int, ghost eff: Effect)
        returns (ghost eff': Effect)
      requires SlotsValid() && IsInt16(intensity) && intensity >= 0
      requires 0 <= i < |cands| && cands[i] == Candidate(locate, intensity)
      requires eff == MatchAll(s0, cands[..i]) && Slots() == eff.slots && midiCallback.events == e0 + eff.events
      modifies touchPoints, midiCallback
      ensures SlotsValid()
      ensures eff' == MatchAll(s0, cands[..i + 1]) && Slots() == eff'.slots && midiCallback.events == e0 + eff'.events
    {
      MatchCandidate(locate, intensity);
      MatchAllStep(s0, cands, i);
      ghost var m := MatchOne(eff.slots, cands[i]);
      eff' := Effect(m.slots, eff.events + m.events);
      AppendAssoc(e0, eff.events, m.events);
    }

    /**
     * erase_touch_point: a slot that this tick did not update is released,
     * whether or not it was touched; an updated slot only loses the flag.
     */
    method EraseTouchPoint()
      requires SlotsValid()
      modifies touchPoints, midiCallback
      ensures SlotsValid()
      ensures Slots() == EraseSlots(old(Slots()))
      ensures midiCallback.events == old(midiCallback.events) + EraseEvents(old(Slots()))
    {
      ghost var before := Slots();
      var j := 0;
      while j < MAX_TOUCH_POINTS
        invariant 0 <= j <= MAX_TOUCH_POINTS
        invariant SlotsValid()
        invariant forall k :: 0 <= k < MAX_TOUCH_POINTS ==>
                    touchPoints[k].View() == if k < j then EraseSlot(before[k]) else before[k]
        invariant midiCallback.events == old(midiCallback.events) + EraseEvents(before[..j])
      {
        EraseOne(j, before);
        EraseEventsStep(before, j);
        AppendAssoc(old(midiCallback.events), EraseEvents(before[..j]), ReleaseEvents(before[j]));
        j := j + 1;
      }
      assert before[..MAX_TOUCH_POINTS] == before;
      assert Slots() == EraseSlots(before);
    }

    /** One step of erase_touch_point, on slot j. */
    method EraseOne(j: int, ghost before: seq<Slot>)
      requires SlotsValid() && 0 <= j < MAX_TOUCH_POINTS && |before| == MAX_TOUCH_POINTS
      requires forall k :: 0 <= k < MAX_TOUCH_POINTS ==>
                 touchPoints[k].View() == if k < j then EraseSlot(before[k]) else before[k]
      modifies touchPoints[j], midiCallback
      ensures SlotsValid()
      ensures forall k :: 0 <= k < MAX_TOUCH_POINTS ==>
                touchPoints[k].View() == if k <= j then EraseSlot(before[k]) else before[k]
      ensures midiCallback.events == old(midiCallback.events) + ReleaseEvents(before[j])
    {
      var tp := touchPoints[j];
      if !tp.isUpdated {
        tp.Released();
      } else {
        tp.ClearUpdatedFlag();
      }
      forall k | 0 <= k < MAX_TOUCH_POINTS && k != j
        ensures touchPoints[k].View() == old(touchPoints[k].View()) && touchPoints[k].midiCallback == old(touchPoints[k].midiCallback)
      {
        assert touchPoints[k] != tp;
      }
    }

    /** lighten_leds: one LED call per touched slot, in slot order. */
    method LightenLeds(led: LedSink)
      requires |touchPoints| == MAX_TOUCH_POINTS
      modifies led
      ensures led.calls == old(led.calls) + LedCalls(Slots())
    {
      var j := 0;
      while j < MAX_TOUCH_POINTS
        invariant 0 <= j <= MAX_TOUCH_POINTS
        invariant led.calls == old(led.calls) + LedCalls(Slots()[..j])
      {
        var tp := touchPoints[j];
        assert Slots()[..j + 1][..j] == Slots()[..j];
        if tp.isTouched {
          led.Light(tp.centerLocation, tp.intensity);
        }
        j := j + 1;
      }
      assert Slots()[..MAX_TOUCH_POINTS] == Slots();
    }
  }
}
