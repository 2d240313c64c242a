/**
 * The head-tracking receiver attached to the camera: it restores its
 * selection and calibration from the preferences store at start, reacts to
 * three key presses (calibrate, cycle the mapping, commit the mapping) and
 * turns each orientation message into a rotation of the target.
 *
 * Every handler is a pure transition on `State`; the preferences store is a
 * map carried inside the state, and the target's rotation writes are
 * returned as effects.
 */
module Receiver {
  import opened Wrappers
  import opened Quaternions
  import opened Mappings

  /** A stored preference: the store keeps integers and floats apart. */
  datatype Pref = IntPref(i: int) | FloatPref(f: real)

  type Prefs = map<string, Pref>

  const MappingIndexKey: string := "mapping_index"
  const CalibX: string := "calib_x"
  const CalibY: string := "calib_y"
  const CalibZ: string := "calib_z"
  const CalibW: string := "calib_w"

  /** The integer under `key`, or `default` when absent or not an integer. */
  function GetInt(prefs: Prefs, key: string, default: int): int {
    if key in prefs && prefs[key].IntPref? then prefs[key].i else default
  }

  /** The float under `key`, or 0 when absent or not a float. */
  function GetFloat(prefs: Prefs, key: string): real {
    if key in prefs && prefs[key].FloatPref? then prefs[key].f else 0.0
  }

  /**
   * The receiver's fields: the selected catalog index, the calibration
   * offset and flag, the last mapped sample, and the preferences store.
   */
  datatype State = State(index: int, offset: Quat, calibrated: bool, last: Quat, prefs: Prefs)

  /** Whether the selected index names a catalog entry. */
  predicate ValidIndex(st: State) {
    0 <= st.index < |Catalog()|
  }

  /**
   * The state after start-up, and whether the message handler got bound.
   * Start-up prints the selected label before binding the handler, so an
   * out-of-range restored index aborts it there and no message ever arrives.
   */
  datatype Boot = Boot(state: State, listening: bool)

  /** What one message did to the target. */
  datatype Effect =
    | Dropped                 // too few values, or no target: nothing happened
    | Warned                  // mapped and remembered, but not calibrated: no write
    | Wrote(rotation: Quat)   // the target's rotation was set to `rotation`

  datatype Reaction = Reaction(state: State, effect: Effect)

  /** Start-up: restore the mapping index and, if stored, the calibration. */
  function Startup(prefs: Prefs): (b: Boot)
    ensures b.state.prefs == prefs && b.state.last == Identity
    ensures MappingIndexKey in prefs && prefs[MappingIndexKey].IntPref? ==>
              b.state.index == prefs[MappingIndexKey].i
    ensures !(MappingIndexKey in prefs && prefs[MappingIndexKey].IntPref?) ==> b.state.index == 0
    ensures b.state.calibrated <==> CalibX in prefs
    ensures !b.state.calibrated ==> b.state.offset == Identity
    ensures b.state.calibrated ==>
              b.state.offset == Quat(GetFloat(prefs, CalibX), GetFloat(prefs, CalibY),
                                     GetFloat(prefs, CalibZ), GetFloat(prefs, CalibW))
    ensures b.listening <==> ValidIndex(b.state)
  {
    PreferredLabelAbsent();
    var index := GetInt(prefs, MappingIndexKey, DefaultSelection());
    var restored := CalibX in prefs;
    var offset :=
      if restored
      then Quat(GetFloat(prefs, CalibX), GetFloat(prefs, CalibY), GetFloat(prefs, CalibZ), GetFloat(prefs, CalibW))
      else Identity;
    var st := State(index, offset, restored, Identity, prefs);
    Boot(st, ValidIndex(st))
  }

  /**
   * The calibrate key: the inverse of the last mapped sample becomes the
   * offset, the flag is raised, and the offset's four components are stored.
   */
  function Calibrate(st: State): (r: State)
    ensures r.calibrated && r.offset == Inverse(st.last)
    ensures r.index == st.index && r.last == st.last
    ensures r.prefs.Keys == st.prefs.Keys + {CalibX, CalibY, CalibZ, CalibW}
    ensures r.prefs[CalibX] == FloatPref(r.offset.x) && r.prefs[CalibY] == FloatPref(r.offset.y)
    ensures r.prefs[CalibZ] == FloatPref(r.offset.z) && r.prefs[CalibW] == FloatPref(r.offset.w)
    ensures forall k :: k in st.prefs && k !in {CalibX, CalibY, CalibZ, CalibW} ==>
              r.prefs[k] == st.prefs[k]
  {
    var offset := Inverse(st.last);
    var prefs := st.prefs[CalibX := FloatPref(offset.x)][CalibY := FloatPref(offset.y)]
                         [CalibZ := FloatPref(offset.z)][CalibW := FloatPref(offset.w)];
    st.(offset := offset, calibrated := true, prefs := prefs)
  }

  /** C#'s `%`: the remainder truncated toward zero, which keeps the sign of `a`. */
  function CsRem(a: int, n: int): (r: int)
    requires n > 0
    ensures -n < r < n
    ensures a >= 0 ==> r >= 0
    ensures a <= 0 ==> r <= 0
    ensures a >= 0 ==> r == a % n
    ensures (a - r) % n == 0
  {
    if a >= 0 then
      MultipleMod(a / n, n);
      assert a - a % n == n * (a / n);
      a % n
    else
      var q := (-a) / n;
      MultipleMod(-q, n);
      assert a - -((-a) % n) == n * -q;
      -((-a) % n)
  }

  /** A multiple of `n` leaves no remainder. */
  lemma MultipleMod(k: int, n: int)
    requires n > 0
    ensures (n * k) % n == 0
  {
    var d, e := (n * k) / n, (n * k) % n;
    assert n * (k - d) == e;
    if k - d > 0 {
      PositiveProduct(n, k - d);
    } else if k - d < 0 {
      PositiveProduct(n, d - k);
    }
  }

  lemma PositiveProduct(n: int, j: int)
    requires n > 0 && j > 0
    ensures n * j >= n
  {
  }

  /** C#'s 32-bit `int` addition wraps: the result is the sum modulo 2^32, in range. */
  function WrapInt32(x: int): (r: int)
    ensures -0x8000_0000 <= r < 0x8000_0000
    ensures (x - r) % 0x1_0000_0000 == 0
    ensures -0x8000_0000 <= x < 0x8000_0000 ==> r == x
  {
    (x + 0x8000_0000) % 0x1_0000_0000 - 0x8000_0000
  }

  /**
   * The cycle key: move to the next catalog entry, wrapping after the last.
   * The calibration is left as it is, even though it was taken under the
   * previous mapping.
   */
  function Cycle(st: State): (r: State)
    ensures ValidIndex(st) ==> ValidIndex(r) && r.index == (st.index + 1) % 48
    ensures ValidIndex(st) && st.index < 47 ==> r.index == st.index + 1
    ensures ValidIndex(st) && st.index == 47 ==> r.index == 0
    ensures r.offset == st.offset && r.calibrated == st.calibrated
    ensures r.last == st.last && r.prefs == st.prefs
  {
    st.(index := CsRem(WrapInt32(st.index + 1), |Catalog()|))
  }

  /** The commit key: store the selected index; nothing else changes. */
  function Commit(st: State): (r: State)
    ensures r.prefs.Keys == st.prefs.Keys + {MappingIndexKey}
    ensures r.prefs[MappingIndexKey] == IntPref(st.index)
    ensures forall k :: k in st.prefs && k != MappingIndexKey ==> r.prefs[k] == st.prefs[k]
    ensures r.index == st.index && r.offset == st.offset
    ensures r.calibrated == st.calibrated && r.last == st.last
  {
    st.(prefs := st.prefs[MappingIndexKey := IntPref(st.index)])
  }

  /**
   * One orientation message with `values` (x, y, z, w first) while the
   * target is or is not attached.  A short message or a missing target is
   * ignored; otherwise the sample is mapped through the selected entry and
   * remembered, and written to the target, composed with the offset, only
   * once calibrated.
   */
  function OnSample(st: State, values: seq<real>, targetAttached: bool): (r: Reaction)
    requires |values| >= 4 && targetAttached ==> ValidIndex(st)
    ensures |values| < 4 || !targetAttached ==> r == Reaction(st, Dropped)
    ensures |values| >= 4 && targetAttached ==>
              && r.state == st.(last := r.state.last)
              && r.state.last == Apply(Catalog()[st.index], Quat(values[0], values[1], values[2], values[3]))
              && (r.effect.Warned? <==> !st.calibrated)
              && (r.effect.Wrote? <==> st.calibrated)
              && (r.effect.Wrote? ==> r.effect.rotation == Mul(st.offset, r.state.last))
  {
    if |values| < 4 || !targetAttached then
      Reaction(st, Dropped)
    else
      var raw := Quat(values[0], values[1], values[2], values[3]);
      CatalogWellFormed(st.index);
      var mapped := Apply(Catalog()[st.index], raw);
      var st' := st.(last := mapped);
      if !st.calibrated then Reaction(st', Warned)
      else Reaction(st', Wrote(Mul(st.offset, mapped)))
  }

  /** Traces --------------------------------------------------------------- */

  /** The inputs the receiver reacts to, in the order they reach it. */
  datatype Action =
    | PressCalibrate
    | PressCycle
    | PressCommit
    | Message(values: seq<real>, targetAttached: bool)

  function Step(st: State, a: Action): (r: Reaction)
    requires ValidIndex(st)
    ensures ValidIndex(r.state)
    ensures !a.Message? ==> r.effect == Dropped
    ensures st.calibrated ==> r.state.calibrated
  {
    match a
    case PressCalibrate => Reaction(Calibrate(st), Dropped)
    case PressCycle => Reaction(Cycle(st), Dropped)
    case PressCommit => Reaction(Commit(st), Dropped)
    case Message(values, attached) => OnSample(st, values, attached)
  }

  /** The final state and the rotations written to the target, in order. */
  datatype Run = Run(state: State, writes: seq<Quat>)

  function RunTrace(st: State, trace: seq<Action>): (r: Run)
    requires ValidIndex(st)
    ensures ValidIndex(r.state)
    ensures |r.writes| <= |trace|
    decreases |trace|
  {
    if |trace| == 0 then Run(st, [])
    else
      var step := Step(st, trace[0]);
      var rest := RunTrace(step.state, trace[1..]);
      Run(rest.state, Written(step.effect) + rest.writes)
  }

  /** The write an effect makes, as a sequence of zero or one rotations. */
  function Written(e: Effect): seq<Quat> {
    if e.Wrote? then [e.rotation] else []
  }

  /** Cycling `k` times. */
  function CycleTimes(st: State, k: nat): State {
    if k == 0 then st else Cycle(CycleTimes(st, k - 1))
  }

  /** Lemmas --------------------------------------------------------------- */

  /** Cycling `k` times advances the index by `k` modulo 48 and changes nothing else. */
  lemma {:induction false} CycleTimesIndex(st: State, k: nat)
    requires ValidIndex(st)
    ensures CycleTimes(st, k).index == (st.index + k) % 48
    ensures CycleTimes(st, k) == st.(index := (st.index + k) % 48)
  {
    if k > 0 {
      CycleTimesIndex(st, k - 1);
      SuccessorMod(st.index + k - 1);
    }
  }

  /** Taking the remainder before or after adding one gives the same index. */
  lemma SuccessorMod(x: nat)
    ensures (x % 48 + 1) % 48 == (x + 1) % 48
  {
    var q, r := x / 48, x % 48;
    assert x == 48 * q + r;
    if r == 47 {
      assert x + 1 == 48 * (q + 1);
    } else {
      assert x + 1 == 48 * q + (r + 1);
    }
  }

  /**
   * The largest stored index wraps to the smallest `int` on the cycle key,
   * whose truncated remainder is negative: the index leaves the catalog.
   */
  lemma CycleFromMaxIndex(st: State)
    requires st.index == 0x7FFF_FFFF
    ensures Cycle(st).index == -32
    ensures !ValidIndex(Cycle(st))
  {
  }

  /** 48 presses of the cycle key return to the starting state, and no fewer do. */
  lemma CyclePeriod(st: State, k: nat)
    requires ValidIndex(st)
    ensures CycleTimes(st, 48) == st
    ensures 0 < k < 48 ==> CycleTimes(st, k).index != st.index
  {
    CycleTimesWhole(st, 48);
    if 0 < k < 48 {
      CycleTimesIndex(st, k);
    }
  }

  /** A whole turn of `n` cycles, `n` the catalog size, restores the state. */
  lemma CycleTimesWhole(st: State, n: nat)
    requires ValidIndex(st) && n == |Catalog()|
    ensures CycleTimes(st, n) == st
  {
    CycleTimesIndex(st, n);
  }

  /** Once calibrated, no sequence of actions makes the receiver uncalibrated. */
  lemma {:induction false} CalibrationIsSticky(st: State, trace: seq<Action>)
    requires ValidIndex(st) && st.calibrated
    ensures RunTrace(st, trace).state.calibrated
    decreases |trace|
  {
    if |trace| > 0 {
      CalibrationIsSticky(Step(st, trace[0]).state, trace[1..]);
    }
  }

  /**
   * Until the calibrate key is pressed, an uncalibrated receiver never writes
   * the target and stays uncalibrated.
   */
  lemma {:induction false} SilentUntilCalibrated(st: State, trace: seq<Action>)
    requires ValidIndex(st) && !st.calibrated
    requires PressCalibrate !in trace
    ensures RunTrace(st, trace).writes == []
    ensures !RunTrace(st, trace).state.calibrated
    decreases |trace|
  {
    if |trace| > 0 {
      assert trace[0] != PressCalibrate;
      assert forall a :: a in trace[1..] ==> a in trace;
      SilentUntilCalibrated(Step(st, trace[0]).state, trace[1..]);
    }
  }

  /** A trace runs its first action, then the rest from the state that action leaves. */
  lemma RunCons(st: State, a: Action, rest: seq<Action>)
    requires ValidIndex(st)
    ensures RunTrace(st, [a] + rest).writes
            == Written(Step(st, a).effect) + RunTrace(Step(st, a).state, rest).writes
  {
    assert ([a] + rest)[1..] == rest;
  }

  /** A one-message trace writes what that message writes. */
  lemma RunMessage(st: State, values: seq<real>)
    requires ValidIndex(st) && |values| >= 4
    ensures RunTrace(st, [Message(values, true)]).writes == Written(OnSample(st, values, true).effect)
  {
    RunCons(st, Message(values, true), []);
    assert [Message(values, true)] + [] == [Message(values, true)];
  }

  /**
   * The trace sample, calibrate, same sample: the first sample's write (if
   * any), then whatever the sample makes after calibration.
   */
  lemma RunRecalibration(st: State, values: seq<real>)
    requires ValidIndex(st) && |values| >= 4
    ensures RunTrace(st, [Message(values, true), PressCalibrate, Message(values, true)]).writes
            == Written(OnSample(st, values, true).effect)
               + RunTrace(Calibrate(OnSample(st, values, true).state), [Message(values, true)]).writes
  {
    var m := Message(values, true);
    var s1 := OnSample(st, values, true);
    var tail := RunTrace(Calibrate(s1.state), [m]).writes;
    assert Step(s1.state, PressCalibrate) == Reaction(Calibrate(s1.state), Dropped);
    RunCons(s1.state, PressCalibrate, [m]);
    assert [PressCalibrate] + [m] == [PressCalibrate, m];
    assert RunTrace(s1.state, [PressCalibrate, m]).writes == [] + tail == tail;
    assert Step(st, m) == s1;
    RunCons(st, m, [PressCalibrate, m]);
    assert [m] + [PressCalibrate, m] == [m, PressCalibrate, m];
  }

  /** Calibration makes the offset cancel the last mapped sample, exactly so for a unit one. */
  lemma CalibrationCancels(st: State)
    ensures Mul(Calibrate(st).offset, st.last) == Quat(0.0, 0.0, 0.0, NormSq(st.last))
    ensures IsUnit(st.last) ==> Mul(Calibrate(st).offset, st.last) == Identity
  {
    InverseCancels(st.last);
  }

  /**
   * Re-zeroing: a unit sample, a calibration, then the same sample again
   * puts the target at the identity rotation, whatever the mapping.
   */
  lemma RecalibrationZeroes(st: State, values: seq<real>)
    requires ValidIndex(st) && |values| >= 4
    requires IsUnit(Quat(values[0], values[1], values[2], values[3]))
    ensures var run := RunTrace(st, [Message(values, true), PressCalibrate, Message(values, true)]);
            |run.writes| > 0 && run.writes[|run.writes| - 1] == Identity
  {
    var raw := Quat(values[0], values[1], values[2], values[3]);
    CatalogWellFormed(st.index);
    ApplyPreservesNorm(Catalog()[st.index], raw);
    var s1 := OnSample(st, values, true);
    var s2 := Calibrate(s1.state);
    CalibrationCancels(s1.state);
    var s3 := OnSample(s2, values, true);
    assert s3.effect == Wrote(Identity);
    RunMessage(s2, values);
    RunRecalibration(st, values);
  }

  /**
   * The first run: with an empty store the receiver listens on entry 0,
   * warns on the sample (0, 0, 0, 1), and after calibration writes the
   * identity for the same sample.
   */
  lemma FirstRun()
    ensures Startup(map[]).listening && Startup(map[]).state.index == 0
    ensures OnSample(Startup(map[]).state, [0.0, 0.0, 0.0, 1.0], true).effect == Warned
    ensures RunTrace(Startup(map[]).state,
                     [Message([0.0, 0.0, 0.0, 1.0], true), PressCalibrate,
                      Message([0.0, 0.0, 0.0, 1.0], true)]).writes == [Identity]
  {
    var st := Startup(map[]).state;
    assert st.index == 0 && !st.calibrated;
    var values := [0.0, 0.0, 0.0, 1.0];
    var raw := Quat(0.0, 0.0, 0.0, 1.0);
    FirstIsIdentity(raw);
    var s1 := OnSample(st, values, true);
    assert s1.effect == Warned && s1.state.last == raw;
    var s2 := Calibrate(s1.state);
    CalibrationCancels(s1.state);
    var s3 := OnSample(s2, values, true);
    assert s3.effect == Wrote(Identity);
    RunMessage(s2, values);
    RunRecalibration(st, values);
  }

  /** A committed index is the one selected after the next start-up. */
  lemma CommitSurvivesRestart(st: State)
    ensures Startup(Commit(st).prefs).state.index == st.index
    ensures Startup(Commit(st).prefs).listening <==> ValidIndex(st)
  {
  }

  /** A calibration is restored, offset and flag, by the next start-up. */
  lemma CalibrationSurvivesRestart(st: State)
    ensures Startup(Calibrate(st).prefs).state.calibrated
    ensures Startup(Calibrate(st).prefs).state.offset == Inverse(st.last)
  {
  }
}
