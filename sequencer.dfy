/**
 * The transport and pattern engine of the step sequencer: a 4 x 16 grid of pads, each
 * with a velocity (0: silent) and an "active" flag that is set while its note sounds;
 * a step pointer driven by a periodic timer at 15000 / bpm milliseconds; and the edit
 * controls (tempo, velocity, volume, edit cursor). Notes go out through the output router,
 * whose ghost trace records every message.
 */
module SequencerEngine {
  import opened Wrappers
  import opened Midi
  import opened SequencerOutput

  /** The number of steps of a pattern. */
  const NQuarters: int := 16

  const MinBpm: int := 20
  const MaxBpm: int := 999
  const DefaultBpm: int := 120
  const DefaultVelocity: int := 64
  const DefaultVolume: int := 100

  /** A pad of the grid. */
  datatype Pad = Pad(velocity: int, active: bool)

  /** An armed interval timer: its handle and its period in milliseconds. */
  datatype Timer = Timer(id: nat, intervalMs: real)

  /** A pattern snapshot: tempo, the 4 x 16 velocities, and the output bindings. */
  datatype Config = Config(bpm: int, tracks: seq<seq<int>>, tracksOutput: seq<TrackConfig>)

  // ---------------------------------------------------------------------------
  // Timing

  /**
   * The timer period for a tempo: a quarter note lasts 60 / bpm seconds and a step is a
   * quarter of that, so a tick comes every 15000 / bpm milliseconds.
   */
  function IntervalMs(bpm: int): (ms: real)
    requires bpm > 0
    ensures ms * bpm as real == 15000.0
  {
    60.0 / bpm as real * 250.0
  }

  /** The step after `q`: increment, and wrap to 0 at the end of the pattern. */
  function Next(q: int): (n: int)
    requires 0 <= q < NQuarters
    ensures n == (q + 1) % NQuarters
  {
    if q + 1 == NQuarters then 0 else q + 1
  }

  /** The step reached from `q` after `n` ticks. */
  function Advance(q: int, n: nat): (r: int)
    requires 0 <= q < NQuarters
    ensures 0 <= r < NQuarters
  {
    if n == 0 then q else Next(Advance(q, n - 1))
  }

  lemma StepMod(x: int)
    ensures (x % NQuarters + 1) % NQuarters == (x + 1) % NQuarters
  {
    var k := x / NQuarters;
    assert x == NQuarters * k + x % NQuarters;
  }

  lemma {:induction false} AdvanceWraps(q: int, n: nat)
    requires 0 <= q < NQuarters
    ensures Advance(q, n) == (q + n) % NQuarters
  {
    if n > 0 {
      AdvanceWraps(q, n - 1);
      var p := Advance(q, n - 1);
      assert Advance(q, n) == (p + 1) % NQuarters;
      StepMod(q + n - 1);
      assert (p + 1) % NQuarters == (q + n) % NQuarters;
    }
  }

  /** The number of ticks from step `from` to step `to`. */
  function Distance(from: int, to: int): (d: int)
    ensures 0 <= d < NQuarters
  {
    (to - from) % NQuarters
  }

  /** Sixteen consecutive ticks reach sixteen different steps. */
  lemma TicksNoRepeat(q: int, i: nat, j: nat)
    requires 0 <= q < NQuarters && i < j < NQuarters
    ensures Advance(q, i) != Advance(q, j)
  {
    AdvanceWraps(q, i);
    AdvanceWraps(q, j);
    var a, b := (q + i) / NQuarters, (q + j) / NQuarters;
    assert q + i == NQuarters * a + (q + i) % NQuarters;
    assert q + j == NQuarters * b + (q + j) % NQuarters;
  }

  /** Every step is reached from every other, after their distance in ticks. */
  lemma TicksReach(q: int, s: int)
    requires 0 <= q < NQuarters && 0 <= s < NQuarters
    ensures Advance(q, Distance(q, s)) == s
  {
    var d := Distance(q, s);
    AdvanceWraps(q, d);
    var k := (s - q) / NQuarters;
    assert s - q == NQuarters * k + d;
    assert q + d == s + NQuarters * (-k);
  }

  /** Sixteen ticks bring the pattern back to where it started. */
  lemma TicksPeriod(q: int)
    requires 0 <= q < NQuarters
    ensures Advance(q, NQuarters) == q
  {
    AdvanceWraps(q, NQuarters);
  }

  // ---------------------------------------------------------------------------
  // Pad colours

  lemma LightnessFloor(velocity: int)
    requires 0 <= velocity <= 127
    ensures (10.0 + 60.0 * (1.0 - velocity as real / 127.0)).Floor == 10 + 60 * (127 - velocity) / 127
  {
    var n := 60 * (127 - velocity);
    var q, r := n / 127, n % 127;
    assert n == 127 * q + r && 0 <= r < 127;
    var x := 10.0 + 60.0 * (1.0 - velocity as real / 127.0);
    assert x == (10 + q) as real + r as real / 127.0;
  }

  /**
   * `getVelocityHSL`: the lightness (in percent) of a sounding pad, from 70 for the
   * softest note down to 10 for velocity 127.
   */
  function VelocityLightness(velocity: int): (l: int)
    ensures 0 <= velocity <= 127 ==> l == 10 + 60 * (127 - velocity) / 127 && 10 <= l <= 70
  {
    if 0 <= velocity <= 127 then LightnessFloor(velocity); (10.0 + 60.0 * (1.0 - velocity as real / 127.0)).Floor
    else (10.0 + 60.0 * (1.0 - velocity as real / 127.0)).Floor
  }

  /** Louder pads are darker: the lightness never increases with the velocity. */
  lemma LightnessDecreasing(v1: int, v2: int)
    requires 0 <= v1 <= v2 <= 127
    ensures VelocityLightness(v1) >= VelocityLightness(v2)
    ensures VelocityLightness(0) == 70 && VelocityLightness(127) == 10
  {
    var a, b := 60 * (127 - v1), 60 * (127 - v2);
    assert a == 127 * (a / 127) + a % 127;
    assert b == 127 * (b / 127) + b % 127;
  }

  /**
   * `Pad.setVelocity`'s colour: a sounding pad gets its velocity lightness; a silent pad
   * is white, or light grey in every second group of four steps.
   */
  function PadLightness(velocity: int, quarter: int): (l: int)
    requires 0 <= quarter < NQuarters
    ensures velocity > 0 ==> l == VelocityLightness(velocity)
    ensures 0 < velocity <= 127 ==> 10 <= l <= 70
    ensures velocity <= 0 ==> (l == 96 <==> quarter / 4 == 1 || quarter / 4 == 3) && (l == 96 || l == 100)
  {
    if velocity > 0 then VelocityLightness(velocity)
    else if (quarter / 4) % 2 == 1 then 96
    else 100
  }

  // ---------------------------------------------------------------------------
  // Note dispatch within one tick

  /** Whether a pad is dispatched: by its velocity for note-ons, by its active flag for note-offs. */
  predicate Sounds(p: Pad, on: bool) {
    if on then p.velocity > 0 else p.active
  }

  /**
   * The `sendNote` requests of `#sendNotes` (on) or `#sendNotesOff` (off) for the first
   * `n` tracks of one column: the dispatched pads in increasing track order, the k-th
   * request with delay k, note-ons with the pad's velocity and note-offs with velocity 0.
   */
  function Calls(col: seq<Pad>, n: int, on: bool): (cs: seq<NoteCall>)
    requires 0 <= n <= |col|
    ensures |cs| <= n
    ensures CallsInRange(|col|, cs)
  {
    if n == 0 then []
    else
      var prev := Calls(col, n - 1, on);
      if Sounds(col[n - 1], on) then prev + [NoteCall(n - 1, if on then col[n - 1].velocity else 0, |prev|)] else prev
  }

  /**
   * The requests are sound: each names a dispatched pad among the first `n`, carries its
   * position as delay and the pad's velocity (0 for a note-off), in increasing track order.
   */
  lemma {:induction false} CallsSound(col: seq<Pad>, n: int, on: bool)
    requires 0 <= n <= |col|
    ensures forall k :: 0 <= k < |Calls(col, n, on)| ==>
      var c := Calls(col, n, on)[k];
      0 <= c.track < n && Sounds(col[c.track], on) && c.delay == k &&
      c.velocity == if on then col[c.track].velocity else 0
    ensures forall k, m :: 0 <= k < m < |Calls(col, n, on)| ==> Calls(col, n, on)[k].track < Calls(col, n, on)[m].track
  {
    if n > 0 {
      CallsSound(col, n - 1, on);
    }
  }

  /** Every dispatched pad among the first `n` gets a request. */
  lemma {:induction false} CallsComplete(col: seq<Pad>, n: int, on: bool, t: int)
    requires 0 <= t < n <= |col| && Sounds(col[t], on)
    ensures exists k :: 0 <= k < |Calls(col, n, on)| && Calls(col, n, on)[k].track == t
  {
    var prev := Calls(col, n - 1, on);
    if t == n - 1 {
      assert Calls(col, n, on)[|prev|].track == t;
    } else {
      CallsComplete(col, n - 1, on, t);
      var k :| 0 <= k < |prev| && prev[k].track == t;
      assert Calls(col, n, on)[k] == prev[k];
    }
  }

  /** The requests depend only on what is dispatched: the flags for note-offs, the velocities for note-ons. */
  lemma {:induction false} CallsAgree(c1: seq<Pad>, c2: seq<Pad>, n: int, on: bool)
    requires 0 <= n <= |c1| == |c2|
    requires forall t :: 0 <= t < |c1| ==> (if on then c1[t].velocity == c2[t].velocity else c1[t].active == c2[t].active)
    ensures Calls(c1, n, on) == Calls(c2, n, on)
  {
    if n > 0 {
      CallsAgree(c1, c2, n - 1, on);
    }
  }

  /**
   * The state of a dispatch loop after the first `n` tracks: the delay counter equals the
   * number of requests made, and the trace grew by their messages.
   */
  ghost predicate Dispatched(ts: seq<Track>, col: seq<Pad>, n: int, on: bool, before: seq<Sent>, after: seq<Sent>, delay: int)
    requires AllValid(ts) && |col| == |ts| && 0 <= n <= |col|
  {
    delay == |Calls(col, n, on)| && after == before + Sends(ts, Calls(col, n, on))
  }

  /** One step of a dispatch loop: track `n` adds its message, if it is dispatched. */
  lemma DispatchStep(ts: seq<Track>, col: seq<Pad>, n: int, on: bool, before: seq<Sent>, after: seq<Sent>, delay: int)
    requires AllValid(ts) && |col| == |ts| && 0 <= n < |col|
    requires Dispatched(ts, col, n, on, before, after, delay)
    ensures Sounds(col[n], on) ==>
      Dispatched(ts, col, n + 1, on, before, after + NoteMessages(ts[n], if on then col[n].velocity else 0, delay), delay + 1)
    ensures !Sounds(col[n], on) ==> Dispatched(ts, col, n + 1, on, before, after, delay)
  {
    var prev := Calls(col, n, on);
    if Sounds(col[n], on) {
      SendsSnoc(ts, prev, NoteCall(n, if on then col[n].velocity else 0, |prev|));
    }
  }

  /**
   * The stagger workaround: within one dispatch, the messages actually sent leave at
   * strictly increasing offsets after "now", one millisecond apart at least.
   */
  lemma DispatchStaggered(ts: seq<Track>, col: seq<Pad>, on: bool)
    requires AllValid(ts) && |col| == |ts|
    ensures forall i, j :: 0 <= i < j < |Sends(ts, Calls(col, |col|, on))| ==>
      DelayOf(Sends(ts, Calls(col, |col|, on))[i]) < DelayOf(Sends(ts, Calls(col, |col|, on))[j])
  {
    CallsSound(col, |col|, on);
    SendsStaggered(ts, Calls(col, |col|, on));
  }

  /** A column whose first pad is dispatched yields a first request for track 0 with delay 0. */
  lemma {:induction false} CallsFirst(col: seq<Pad>, n: int, on: bool)
    requires 0 < n <= |col| && Sounds(col[0], on)
    ensures |Calls(col, n, on)| > 0 && Calls(col, n, on)[0].track == 0 && Calls(col, n, on)[0].delay == 0
  {
    if n > 1 {
      CallsFirst(col, n - 1, on);
    }
  }

  /**
   * Staggering holds within one dispatch only: a tick sends the note-offs of the old step
   * and then the note-ons of the new step, and both dispatches number their delays from 0.
   * When track 0 is bound, sounds at the old step and has a note at the new step, the tick
   * sends its Note Off and its Note On to the same device, both without a timestamp.
   */
  lemma TickCollision(ts: seq<Track>, offCol: seq<Pad>, onCol: seq<Pad>)
    requires AllValid(ts) && |ts| == NTracks && |offCol| == NTracks && |onCol| == NTracks
    requires ts[0].device.Some? && offCol[0].active && onCol[0].velocity > 0
    ensures var offs, ons := Sends(ts, Calls(offCol, NTracks, false)), Sends(ts, Calls(onCol, NTracks, true));
      |offs| > 0 && |ons| > 0 && offs[0].device == ons[0].device && offs[0].delay.None? && ons[0].delay.None?
  {
    CallsFirst(offCol, NTracks, false);
    CallsFirst(onCol, NTracks, true);
    SendsFirst(ts, Calls(offCol, NTracks, false));
    SendsFirst(ts, Calls(onCol, NTracks, true));
  }

  /** Clamping of the volume control to 0..127. */
  function ClampVolume(number: int): (v: int)
    ensures 0 <= v <= 127
    ensures 0 <= number <= 127 ==> v == number
    ensures number < 0 ==> v == 0
    ensures number > 127 ==> v == 127
  {
    if number < 0 then 0 else if number > 127 then 127 else number
  }

  // ---------------------------------------------------------------------------
  // The sequencer

  class Sequencer {
    /** The output router. */
    const output: Output
    /** The pad grid, indexed [track, quarter]. */
    const pads: array2<Pad>
    /** The tempo control. */
    var bpm: int
    /** The velocity control: the velocity a silent pad takes when clicked. */
    var velocity: int
    /** The volume control, sent as Channel Volume. */
    var volume: int
    /** The edit cursor: the pad the velocity control edits, if any. */
    var editTrack: Option<int>
    var editQuarter: int
    /** The run state: the interval timer, the wake lock, and the current step. */
    var timer: Option<Timer>
    var wakeLock: bool
    var quarter: int
    /** The number of timers armed so far; the next handle. */
    var timersCreated: nat
    /** The number of "changed" notifications emitted. */
    ghost var changed: nat

    /** The grid's shape, a valid router, and a step in range. */
    ghost predicate Shaped()
      reads this, output.tracks
    {
      pads.Length0 == NTracks && pads.Length1 == NQuarters && output.Valid() && 0 <= quarter < NQuarters
    }

    ghost predicate Valid()
      reads this, pads, output.tracks
    {
      Shaped() && MinBpm <= bpm <= MaxBpm &&
      1 <= velocity <= 127 && 0 <= volume <= 127 &&
      (editTrack.Some? ==> 0 <= editTrack.value < NTracks) && 0 <= editQuarter < NQuarters &&
      // only the pads of the current step may be sounding
      forall t, q :: 0 <= t < NTracks && 0 <= q < NQuarters && pads[t, q].active ==> q == quarter
    }

    /** The pads of one step, by track. */
    ghost function Column(q: int): (col: seq<Pad>)
      reads pads
      requires pads.Length0 == NTracks && pads.Length1 == NQuarters && 0 <= q < NQuarters
      ensures |col| == NTracks && forall t :: 0 <= t < NTracks ==> col[t] == pads[t, q]
    {
      seq(NTracks, t requires 0 <= t < NTracks reads pads => pads[t, q])
    }

    constructor()
      ensures Valid() && fresh(pads) && fresh(output) && fresh(output.tracks)
      ensures bpm == DefaultBpm && velocity == DefaultVelocity && volume == DefaultVolume
      ensures editTrack.None? && editQuarter == 0
      ensures timer.None? && !wakeLock && quarter == 0
      ensures forall t, q :: 0 <= t < NTracks && 0 <= q < NQuarters ==> pads[t, q] == Pad(0, false)
      ensures forall i :: 0 <= i < NTracks ==> output.tracks[i] == DefaultTrack(i)
      ensures output.trace == [] && changed == 0
    {
      output := new Output();
      pads := new Pad[NTracks, NQuarters]((t, q) => Pad(0, false));
      bpm, velocity, volume := DefaultBpm, DefaultVelocity, DefaultVolume;
      editTrack, editQuarter := None, 0;
      timer, wakeLock, quarter := None, false, 0;
      timersCreated := 0;
      changed := 0;
    }

    /** `#bpm.update(number, silent)`: a tempo outside 20..999 is ignored. */
    method BpmUpdate(number: Option<int>, silent: bool)
      requires Valid()
      modifies this`bpm, this`changed, this`timer, this`timersCreated
      ensures Valid()
      ensures number.None? || number.value < MinBpm || number.value > MaxBpm ==>
        bpm == old(bpm) && changed == old(changed) && timer == old(timer) && timersCreated == old(timersCreated)
      ensures number.Some? && MinBpm <= number.value <= MaxBpm ==>
        bpm == number.value && changed == old(changed) + (if silent then 0 else 1) &&
        timer == (if old(timer).None? then None else Some(Timer(old(timersCreated), IntervalMs(bpm)))) &&
        timersCreated == old(timersCreated) + (if old(timer).None? then 0 else 1)
    {
      if number.None? || number.value < MinBpm || number.value > MaxBpm {
        return;
      }
      if !silent {
        changed := changed + 1;
      }
      bpm := number.value;
      if timer.Some? {
        SetTimer();
      }
    }

    /**
     * `#velocity.update(number, suppress)`: a velocity outside 1..127 is ignored; an
     * accepted one is also written to the pad under the edit cursor unless suppressed.
     */
    method VelocityUpdate(number: Option<int>, suppress: bool)
      requires Valid()
      modifies this`velocity, pads
      ensures Valid()
      ensures velocity == if number.Some? && 1 <= number.value <= 127 then number.value else old(velocity)
      ensures forall t, q :: 0 <= t < NTracks && 0 <= q < NQuarters ==>
        pads[t, q] == if number.Some? && 1 <= number.value <= 127 && !suppress && editTrack == Some(t) && editQuarter == q
                      then old(pads[t, q]).(velocity := number.value) else old(pads[t, q])
    {
      if number.None? || number.value < 1 || number.value > 127 {
        return;
      }
      velocity := number.value;
      if !suppress && editTrack.Some? {
        pads[editTrack.value, editQuarter] := pads[editTrack.value, editQuarter].(velocity := number.value);
      }
    }

    /** `#volume.update(number)`: clamps to 0..127 and broadcasts it as Channel Volume. */
    method VolumeUpdate(number: Option<int>)
      requires Valid()
      modifies this`volume, output`trace
      ensures Valid()
      ensures number.None? ==> volume == old(volume) && output.trace == old(output.trace)
      ensures number.Some? ==> volume == ClampVolume(number.value)
      ensures number.Some? ==>
        output.trace == old(output.trace) + BroadcastTo(output.tracks[..], ControlChangeBroadcast(ChannelVolume, volume))
    {
      if number.None? {
        return;
      }
      volume := ClampVolume(number.value);
      output.SendControlChange(ChannelVolume, volume);
    }

    /**
     * The pad's mousedown handler. Listeners are notified first. A silent pad takes the
     * velocity control's value; a sounding pad under the edit cursor is cleared and the
     * cursor stays; any other sounding pad loads its velocity into the control without
     * writing it back. Except when clearing, the cursor then moves to the pad.
     */
    method PadMouseDown(track: int, q: int)
      requires Valid() && 0 <= track < NTracks && 0 <= q < NQuarters
      modifies this`changed, this`velocity, this`editTrack, this`editQuarter, pads
      ensures Valid()
      ensures changed == old(changed) + 1
      ensures old(pads[track, q]).velocity == 0 ==>
        pads[track, q] == old(pads[track, q]).(velocity := old(velocity)) && velocity == old(velocity) &&
        editTrack == Some(track) && editQuarter == q
      ensures old(pads[track, q]).velocity != 0 && old(editTrack) == Some(track) && old(editQuarter) == q ==>
        pads[track, q] == old(pads[track, q]).(velocity := 0) && velocity == old(velocity) &&
        editTrack == old(editTrack) && editQuarter == old(editQuarter)
      ensures old(pads[track, q]).velocity != 0 && !(old(editTrack) == Some(track) && old(editQuarter) == q) ==>
        pads[track, q] == old(pads[track, q]) &&
        velocity == (if 1 <= old(pads[track, q]).velocity <= 127 then old(pads[track, q]).velocity else old(velocity)) &&
        editTrack == Some(track) && editQuarter == q
      ensures forall t, r :: 0 <= t < NTracks && 0 <= r < NQuarters && (t != track || r != q) ==> pads[t, r] == old(pads[t, r])
    {
      changed := changed + 1;
      var pad := pads[track, q];
      if pad.velocity == 0 {
        pads[track, q] := pad.(velocity := velocity);
      } else {
        if editTrack == Some(track) && editQuarter == q {
          pads[track, q] := pad.(velocity := 0);
          return;
        }
        VelocityUpdate(Some(pad.velocity), true);
      }
      editTrack := Some(track);
      editQuarter := q;
    }

    /** `#sendNotesOff`: a note-off for every active pad of the current step, which becomes inactive. */
    method SendNotesOff()
      requires Valid()
      modifies pads, output`trace
      ensures Valid()
      ensures forall t, q :: 0 <= t < NTracks && 0 <= q < NQuarters ==>
        pads[t, q] == if q == quarter then old(pads[t, q]).(active := false) else old(pads[t, q])
      ensures forall t, q :: 0 <= t < NTracks && 0 <= q < NQuarters ==> !pads[t, q].active
      ensures output.trace == old(output.trace) + Sends(output.tracks[..], Calls(old(Column(quarter)), NTracks, false))
    {
      ghost var cur := quarter;
      ghost var col := Column(quarter);
      ghost var ts := output.tracks[..];
      var delay := 0;
      for track := 0 to NTracks
        invariant Dispatched(ts, col, track, false, old(output.trace), output.trace, delay)
        invariant forall t, q :: 0 <= t < NTracks && 0 <= q < NQuarters && (q != cur || track <= t) ==>
          pads[t, q] == old(pads[t, q])
        invariant forall t :: 0 <= t < track ==> pads[t, cur] == col[t].(active := false)
      {
        DispatchStep(ts, col, track, false, old(output.trace), output.trace, delay);
        delay := ReleaseTrack(track, delay);
      }
    }

    /** One iteration of `#sendNotesOff`: a note-off for the track's pad at the current step if it is active. */
    method ReleaseTrack(track: int, delay: int) returns (next: int)
      requires Shaped() && 0 <= track < NTracks
      modifies pads, output`trace
      ensures pads[track, quarter] == old(pads[track, quarter]).(active := false)
      ensures forall t, q :: 0 <= t < NTracks && 0 <= q < NQuarters && (t != track || q != quarter) ==> pads[t, q] == old(pads[t, q])
      ensures next == delay + if old(pads[track, quarter]).active then 1 else 0
      ensures output.trace == old(output.trace) + if old(pads[track, quarter]).active then NoteMessages(output.tracks[track], 0, delay) else []
    {
      next := delay;
      var pad := pads[track, quarter];
      if pad.active {
        output.SendNote(track, 0, delay);
        next := delay + 1;
        pads[track, quarter] := pad.(active := false);
      }
    }

    /** `#sendNotes`: a note-on for every pad of the current step with a velocity, which becomes active. */
    method SendNotes()
      requires Valid()
      modifies pads, output`trace
      ensures Valid()
      ensures forall t, q :: 0 <= t < NTracks && 0 <= q < NQuarters ==> pads[t, q].velocity == old(pads[t, q]).velocity
      ensures forall t, q :: 0 <= t < NTracks && 0 <= q < NQuarters ==>
        pads[t, q].active == (old(pads[t, q]).active || (q == quarter && old(pads[t, q]).velocity > 0))
      ensures output.trace == old(output.trace) + Sends(output.tracks[..], Calls(old(Column(quarter)), NTracks, true))
    {
      ghost var cur := quarter;
      ghost var col := Column(quarter);
      ghost var ts := output.tracks[..];
      var delay := 0;
      for track := 0 to NTracks
        invariant Dispatched(ts, col, track, true, old(output.trace), output.trace, delay)
        invariant forall t, q :: 0 <= t < NTracks && 0 <= q < NQuarters && (q != cur || track <= t) ==>
          pads[t, q] == old(pads[t, q])
        invariant forall t :: 0 <= t < track ==>
          pads[t, cur].velocity == col[t].velocity && pads[t, cur].active == (col[t].active || col[t].velocity > 0)
      {
        DispatchStep(ts, col, track, true, old(output.trace), output.trace, delay);
        delay := StrikeTrack(track, delay);
      }
    }

    /** One iteration of `#sendNotes`: a note-on for the track's pad at the current step if it has a velocity. */
    method StrikeTrack(track: int, delay: int) returns (next: int)
      requires Shaped() && 0 <= track < NTracks
      modifies pads, output`trace
      ensures pads[track, quarter].velocity == old(pads[track, quarter]).velocity
      ensures pads[track, quarter].active == (old(pads[track, quarter]).active || old(pads[track, quarter]).velocity > 0)
      ensures forall t, q :: 0 <= t < NTracks && 0 <= q < NQuarters && (t != track || q != quarter) ==> pads[t, q] == old(pads[t, q])
      ensures next == delay + if old(pads[track, quarter]).velocity > 0 then 1 else 0
      ensures output.trace == old(output.trace) +
        if old(pads[track, quarter]).velocity > 0 then NoteMessages(output.tracks[track], old(pads[track, quarter]).velocity, delay) else []
    {
      next := delay;
      var pad := pads[track, quarter];
      if pad.velocity > 0 {
        output.SendNote(track, pad.velocity, delay);
        next := delay + 1;
        pads[track, quarter] := pad.(active := true);
      }
    }

    /**
     * `#timerHandler`, one tick: note-offs for the current step, then the step advances
     * (wrapping to 0 after 15), then note-ons for the new step. Afterwards exactly the
     * pads of the new step that have a velocity are sounding.
     */
    method TimerHandler()
      requires Valid()
      modifies this`quarter, pads, output`trace
      ensures Valid()
      ensures quarter == Next(old(quarter))
      ensures forall t, q :: 0 <= t < NTracks && 0 <= q < NQuarters ==>
        pads[t, q].velocity == old(pads[t, q]).velocity && (pads[t, q].active <==> q == quarter && pads[t, q].velocity > 0)
      ensures output.trace == old(output.trace)
        + Sends(output.tracks[..], Calls(old(Column(quarter)), NTracks, false))
        + Sends(output.tracks[..], Calls(old(Column(Next(quarter))), NTracks, true))
    {
      ghost var onCol := Column(Next(quarter));
      SendNotesOff();
      quarter := quarter + 1;
      if quarter == NQuarters {
        quarter := 0;
      }
      assert Column(quarter) == onCol;
      SendNotes();
    }

    /** `#setTimer`: clears a running timer and arms a new one at the current tempo's period. */
    method SetTimer()
      requires Valid()
      modifies this`timer, this`timersCreated
      ensures Valid()
      ensures timer == Some(Timer(old(timersCreated), IntervalMs(bpm)))
      ensures timersCreated == old(timersCreated) + 1
    {
      if timer.Some? {
        timer := None;  // clearInterval
      }
      timer := Some(Timer(timersCreated, IntervalMs(bpm)));
      timersCreated := timersCreated + 1;
    }

    /**
     * `#play`: takes the wake lock when the host offers one, sends the note-ons of the
     * current step and arms the timer. There is no guard against playing twice.
     */
    method Play(wakeLockSupported: bool)
      requires Valid()
      modifies this`wakeLock, this`timer, this`timersCreated, pads, output`trace
      ensures Valid()
      ensures wakeLock == (old(wakeLock) || wakeLockSupported)
      ensures timer == Some(Timer(old(timersCreated), IntervalMs(bpm))) && timersCreated == old(timersCreated) + 1
      ensures forall t, q :: 0 <= t < NTracks && 0 <= q < NQuarters ==> pads[t, q].velocity == old(pads[t, q]).velocity
      ensures forall t, q :: 0 <= t < NTracks && 0 <= q < NQuarters ==>
        pads[t, q].active == (old(pads[t, q]).active || (q == quarter && old(pads[t, q]).velocity > 0))
      ensures output.trace == old(output.trace) + Sends(output.tracks[..], Calls(old(Column(quarter)), NTracks, true))
    {
      if wakeLockSupported {
        wakeLock := true;
      }
      SendNotes();
      SetTimer();
    }

    /** `#releaseWakeLock`. */
    method ReleaseWakeLock()
      requires Valid()
      modifies this`wakeLock
      ensures Valid() && !wakeLock
    {
      if !wakeLock {
        return;
      }
      wakeLock := false;
    }

    /**
     * `#cleanupPlay`: note-offs for the current step, back to step 0, and one All Notes Off
     * to every unique (device, channel) pair.
     */
    method CleanupPlay()
      requires Valid()
      modifies this`quarter, pads, output`trace
      ensures Valid() && quarter == 0
      ensures forall t, q :: 0 <= t < NTracks && 0 <= q < NQuarters ==> pads[t, q] == old(pads[t, q]).(active := false)
      ensures output.trace == old(output.trace)
        + Sends(output.tracks[..], Calls(old(Column(quarter)), NTracks, false))
        + BroadcastTo(output.tracks[..], ControlChangeBroadcast(AllNotesOff, 0))
    {
      SendNotesOff();
      quarter := 0;
      output.SendControlChange(AllNotesOff, 0);
    }

    /**
     * `#stop`: disarms the timer, releases the wake lock and cleans up, whether or not it
     * was playing. Afterwards nothing is sounding.
     */
    method Stop()
      requires Valid()
      modifies this`timer, this`wakeLock, this`quarter, pads, output`trace
      ensures Valid()
      ensures timer.None? && !wakeLock && quarter == 0
      ensures forall t, q :: 0 <= t < NTracks && 0 <= q < NQuarters ==> pads[t, q] == old(pads[t, q]).(active := false)
      ensures output.trace == old(output.trace)
        + Sends(output.tracks[..], Calls(old(Column(quarter)), NTracks, false))
        + BroadcastTo(output.tracks[..], ControlChangeBroadcast(AllNotesOff, 0))
    {
      if timer.Some? {
        timer := None;  // clearInterval
      }
      ReleaseWakeLock();
      CleanupPlay();
    }

    /** The wake lock's `onrelease` handler, installed only while the lock is held: it stops playback. */
    method WakeLockReleased()
      requires Valid() && wakeLock
      modifies this`timer, this`wakeLock, this`quarter, pads, output`trace
      ensures Valid()
      ensures timer.None? && !wakeLock && quarter == 0
      ensures forall t, q :: 0 <= t < NTracks && 0 <= q < NQuarters ==> pads[t, q] == old(pads[t, q]).(active := false)
      ensures output.trace == old(output.trace)
        + Sends(output.tracks[..], Calls(old(Column(quarter)), NTracks, false))
        + BroadcastTo(output.tracks[..], ControlChangeBroadcast(AllNotesOff, 0))
    {
      Stop();
    }

    /** The Space key: stops when a timer is armed, plays otherwise. */
    method TogglePlayback(wakeLockSupported: bool)
      requires Valid()
      modifies this`timer, this`timersCreated, this`wakeLock, this`quarter, pads, output`trace
      ensures Valid()
      ensures old(timer).Some? ==> timer.None? && !wakeLock && quarter == 0 && timersCreated == old(timersCreated)
      ensures old(timer).Some? ==> forall t, q :: 0 <= t < NTracks && 0 <= q < NQuarters ==>
        pads[t, q] == old(pads[t, q]).(active := false)
      ensures old(timer).Some? ==>
        output.trace == old(output.trace)
          + Sends(output.tracks[..], Calls(old(Column(quarter)), NTracks, false))
          + BroadcastTo(output.tracks[..], ControlChangeBroadcast(AllNotesOff, 0))
      ensures old(timer).None? ==> timer == Some(Timer(old(timersCreated), IntervalMs(bpm))) && quarter == old(quarter)
      ensures old(timer).None? ==> timersCreated == old(timersCreated) + 1
      ensures old(timer).None? ==> wakeLock == (old(wakeLock) || wakeLockSupported)
      ensures old(timer).None? ==> forall t, q :: 0 <= t < NTracks && 0 <= q < NQuarters ==>
        pads[t, q].velocity == old(pads[t, q]).velocity &&
        pads[t, q].active == (old(pads[t, q]).active || (q == quarter && old(pads[t, q]).velocity > 0))
      ensures old(timer).None? ==>
        output.trace == old(output.trace) + Sends(output.tracks[..], Calls(old(Column(quarter)), NTracks, true))
    {
      if timer.Some? {
        Stop();
      } else {
        Play(wakeLockSupported);
      }
    }

    /**
     * `#reset`: a System Reset to every unique pair, stop, clear the edit cursor, volume
     * 100 (broadcast as Channel Volume), tempo 120 without notifying, velocity 64, and
     * every pad silent.
     */
    method Reset()
      requires Valid()
      modifies this`timer, this`timersCreated, this`wakeLock, this`quarter, this`editTrack, this`volume,
               this`bpm, this`changed, this`velocity, pads, output`trace
      ensures Valid()
      ensures timer.None? && !wakeLock && quarter == 0 && editTrack.None?
      ensures bpm == DefaultBpm && velocity == DefaultVelocity && volume == DefaultVolume
      ensures changed == old(changed) && timersCreated == old(timersCreated)
      ensures forall t, q :: 0 <= t < NTracks && 0 <= q < NQuarters ==> pads[t, q] == Pad(0, false)
      ensures output.trace == old(output.trace)
        + BroadcastTo(output.tracks[..], SystemResetBroadcast)
        + Sends(output.tracks[..], Calls(old(Column(quarter)), NTracks, false))
        + BroadcastTo(output.tracks[..], ControlChangeBroadcast(AllNotesOff, 0))
        + BroadcastTo(output.tracks[..], ControlChangeBroadcast(ChannelVolume, DefaultVolume))
    {
      output.SendSystemReset();
      Stop();
      RestoreControls();
    }

    /**
     * The part of `#reset` after the stop: clear the edit cursor, volume 100 (broadcast),
     * tempo 120 without notifying, velocity 64, and every pad silent.
     */
    method RestoreControls()
      requires Valid() && timer.None?
      requires forall t, q :: 0 <= t < NTracks && 0 <= q < NQuarters ==> !pads[t, q].active
      modifies this`editTrack, this`volume, this`bpm, this`changed, this`velocity, this`timer, this`timersCreated,
               pads, output`trace
      ensures Valid() && editTrack.None?
      ensures bpm == DefaultBpm && velocity == DefaultVelocity && volume == DefaultVolume
      ensures changed == old(changed) && timer.None? && timersCreated == old(timersCreated)
      ensures forall t, q :: 0 <= t < NTracks && 0 <= q < NQuarters ==> pads[t, q] == Pad(0, false)
      ensures output.trace == old(output.trace) + BroadcastTo(output.tracks[..], ControlChangeBroadcast(ChannelVolume, DefaultVolume))
    {
      editTrack := None;
      VolumeUpdate(Some(DefaultVolume));
      BpmUpdate(Some(DefaultBpm), true);
      VelocityUpdate(Some(DefaultVelocity), false);
      ClearVelocities();
    }

    /** The pad loop of `#reset`: every pad's velocity becomes 0. */
    method ClearVelocities()
      requires pads.Length0 == NTracks && pads.Length1 == NQuarters
      modifies pads
      ensures forall t, q :: 0 <= t < NTracks && 0 <= q < NQuarters ==> pads[t, q] == old(pads[t, q]).(velocity := 0)
    {
      for t := 0 to NTracks
        invariant forall t', q :: 0 <= t' < NTracks && 0 <= q < NQuarters ==>
          pads[t', q] == if t' < t then old(pads[t', q]).(velocity := 0) else old(pads[t', q])
      {
        for q := 0 to NQuarters
          invariant forall t', q' :: 0 <= t' < NTracks && 0 <= q' < NQuarters ==>
            pads[t', q'] == if t' < t || (t' == t && q' < q) then old(pads[t', q']).(velocity := 0) else old(pads[t', q'])
        {
          pads[t, q] := pads[t, q].(velocity := 0);
        }
      }
    }

    /** The Reset button: `#reset`, then listeners are notified. */
    method ResetClick()
      requires Valid()
      modifies this`timer, this`timersCreated, this`wakeLock, this`quarter, this`editTrack, this`volume,
               this`bpm, this`changed, this`velocity, pads, output`trace
      ensures Valid()
      ensures changed == old(changed) + 1
      ensures timer.None? && !wakeLock && quarter == 0 && editTrack.None?
      ensures bpm == DefaultBpm && velocity == DefaultVelocity && volume == DefaultVolume
      ensures timersCreated == old(timersCreated)
      ensures forall t, q :: 0 <= t < NTracks && 0 <= q < NQuarters ==> pads[t, q] == Pad(0, false)
      ensures output.trace == old(output.trace)
        + BroadcastTo(output.tracks[..], SystemResetBroadcast)
        + Sends(output.tracks[..], Calls(old(Column(quarter)), NTracks, false))
        + BroadcastTo(output.tracks[..], ControlChangeBroadcast(AllNotesOff, 0))
        + BroadcastTo(output.tracks[..], ControlChangeBroadcast(ChannelVolume, DefaultVolume))
    {
      Reset();
      changed := changed + 1;
    }

    /** `getConfig`: the tempo, a copy of every pad's velocity, and the output snapshot. */
    method GetConfig() returns (config: Config)
      requires Valid()
      ensures config.bpm == bpm
      ensures |config.tracks| == NTracks && forall t :: 0 <= t < NTracks ==> |config.tracks[t]| == NQuarters
      ensures forall t, q :: 0 <= t < NTracks && 0 <= q < NQuarters ==> config.tracks[t][q] == pads[t, q].velocity
      ensures |config.tracksOutput| == NTracks
      ensures forall i :: 0 <= i < NTracks ==> config.tracksOutput[i] == ExportTrack(output.tracks[i])
    {
      var tracks: seq<seq<int>> := [];
      for t := 0 to NTracks
        invariant |tracks| == t
        invariant forall t' :: 0 <= t' < t ==> |tracks[t']| == NQuarters
        invariant forall t', q :: 0 <= t' < t && 0 <= q < NQuarters ==> tracks[t'][q] == pads[t', q].velocity
      {
        var quarters: seq<int> := [];
        for q := 0 to NQuarters
          invariant |quarters| == q
          invariant forall q' :: 0 <= q' < q ==> quarters[q'] == pads[t, q'].velocity
        {
          quarters := quarters + [pads[t, q].velocity];
        }
        tracks := tracks + [quarters];
      }
      var tracksOutput := output.GetConfig();
      config := Config(bpm, tracks, tracksOutput);
    }

    /**
     * `setConfig`: clears the edit cursor, takes a positive tempo silently (re-arming a
     * running timer), loads every pad's velocity, cleans up (note-offs on the old bindings,
     * step 0, All Notes Off), restores the output bindings, and when a timer is armed sends
     * the note-ons of step 0.
     */
    method SetConfig(config: Config, devices: seq<Device>)
      requires Valid()
      requires |config.tracks| >= NTracks && forall t :: 0 <= t < NTracks ==> |config.tracks[t]| >= NQuarters
      requires |config.tracksOutput| >= NTracks
      modifies this`editTrack, this`bpm, this`changed, this`timer, this`timersCreated, this`quarter,
               pads, output`trace, output`changed, output.tracks
      ensures Valid()
      ensures editTrack.None? && quarter == 0 && changed == old(changed) && output.changed == old(output.changed)
      ensures bpm == if MinBpm <= config.bpm <= MaxBpm then config.bpm else old(bpm)
      ensures timer == if old(timer).Some? && MinBpm <= config.bpm <= MaxBpm
                       then Some(Timer(old(timersCreated), IntervalMs(bpm))) else old(timer)
      ensures timersCreated == old(timersCreated) + if old(timer).Some? && MinBpm <= config.bpm <= MaxBpm then 1 else 0
      ensures forall t, q :: 0 <= t < NTracks && 0 <= q < NQuarters ==>
        pads[t, q].velocity == config.tracks[t][q] && (pads[t, q].active <==> timer.Some? && q == 0 && pads[t, q].velocity > 0)
      ensures forall i :: 0 <= i < NTracks ==>
        output.tracks[i] == AssignTrack(RestoreTrack(old(output.tracks[i]), config.tracksOutput[i]), devices)
      ensures output.trace == old(output.trace)
        + Sends(old(output.tracks[..]), Calls(old(Column(quarter)), NTracks, false))
        + old(BroadcastTo(output.tracks[..], ControlChangeBroadcast(AllNotesOff, 0)))
        + (if timer.Some? then Sends(output.tracks[..], Calls(Column(0), NTracks, true)) else [])
    {
      LoadAndClean(config);
      Rebind(config.tracksOutput, devices);
    }

    /**
     * The first part of `setConfig`: load the tempo and the velocities, then clean up with
     * note-offs for the pads that were sounding, step 0, and All Notes Off.
     */
    method LoadAndClean(config: Config)
      requires Valid()
      requires |config.tracks| >= NTracks && forall t :: 0 <= t < NTracks ==> |config.tracks[t]| >= NQuarters
      modifies this`editTrack, this`bpm, this`changed, this`timer, this`timersCreated, this`quarter, pads, output`trace
      ensures Valid() && editTrack.None? && quarter == 0 && changed == old(changed)
      ensures bpm == if MinBpm <= config.bpm <= MaxBpm then config.bpm else old(bpm)
      ensures timer == if old(timer).Some? && MinBpm <= config.bpm <= MaxBpm
                       then Some(Timer(old(timersCreated), IntervalMs(bpm))) else old(timer)
      ensures timersCreated == old(timersCreated) + if old(timer).Some? && MinBpm <= config.bpm <= MaxBpm then 1 else 0
      ensures forall t, q :: 0 <= t < NTracks && 0 <= q < NQuarters ==>
        pads[t, q] == Pad(config.tracks[t][q], false)
      ensures output.trace == old(output.trace)
        + Sends(output.tracks[..], Calls(old(Column(quarter)), NTracks, false))
        + BroadcastTo(output.tracks[..], ControlChangeBroadcast(AllNotesOff, 0))
    {
      ghost var offCol := Column(quarter);
      LoadPattern(config);
      CallsAgree(Column(quarter), offCol, NTracks, false);
      CleanupPlay();
    }

    /**
     * The last part of `setConfig`: restore the output bindings and, when a timer is armed,
     * send the note-ons of the current step on the new bindings.
     */
    method Rebind(tracksOutput: seq<TrackConfig>, devices: seq<Device>)
      requires Valid() && |tracksOutput| >= NTracks
      requires forall t, q :: 0 <= t < NTracks && 0 <= q < NQuarters ==> !pads[t, q].active
      modifies pads, output`trace, output`changed, output.tracks
      ensures Valid() && output.changed == old(output.changed)
      ensures forall t, q :: 0 <= t < NTracks && 0 <= q < NQuarters ==>
        pads[t, q].velocity == old(pads[t, q]).velocity &&
        (pads[t, q].active <==> timer.Some? && q == quarter && pads[t, q].velocity > 0)
      ensures forall i :: 0 <= i < NTracks ==>
        output.tracks[i] == AssignTrack(RestoreTrack(old(output.tracks[i]), tracksOutput[i]), devices)
      ensures output.trace == old(output.trace)
        + (if timer.Some? then Sends(output.tracks[..], Calls(Column(quarter), NTracks, true)) else [])
    {
      output.SetConfig(tracksOutput, devices);
      if timer.Some? {
        ghost var onCol := Column(quarter);
        SendNotes();
        CallsAgree(Column(quarter), onCol, NTracks, true);
      }
    }

    /**
     * The first part of `setConfig`: clear the edit cursor, take a positive tempo silently,
     * and load every pad's velocity; which pads are sounding does not change.
     */
    method LoadPattern(config: Config)
      requires Valid()
      requires |config.tracks| >= NTracks && forall t :: 0 <= t < NTracks ==> |config.tracks[t]| >= NQuarters
      modifies this`editTrack, this`bpm, this`changed, this`timer, this`timersCreated, pads
      ensures Valid() && editTrack.None? && changed == old(changed)
      ensures bpm == if MinBpm <= config.bpm <= MaxBpm then config.bpm else old(bpm)
      ensures timer == if old(timer).Some? && MinBpm <= config.bpm <= MaxBpm
                       then Some(Timer(old(timersCreated), IntervalMs(bpm))) else old(timer)
      ensures timersCreated == old(timersCreated) + if old(timer).Some? && MinBpm <= config.bpm <= MaxBpm then 1 else 0
      ensures forall t, q :: 0 <= t < NTracks && 0 <= q < NQuarters ==> pads[t, q] == old(pads[t, q]).(velocity := config.tracks[t][q])
    {
      editTrack := None;
      if config.bpm > 0 {
        BpmUpdate(Some(config.bpm), true);
      }
      LoadVelocities(config.tracks);
    }

    /** The pad loop of `setConfig`: every pad takes its velocity from the snapshot. */
    method LoadVelocities(tracks: seq<seq<int>>)
      requires pads.Length0 == NTracks && pads.Length1 == NQuarters
      requires |tracks| >= NTracks && forall t :: 0 <= t < NTracks ==> |tracks[t]| >= NQuarters
      modifies pads
      ensures forall t, q :: 0 <= t < NTracks && 0 <= q < NQuarters ==> pads[t, q] == old(pads[t, q]).(velocity := tracks[t][q])
    {
      for t := 0 to NTracks
        invariant forall t', q :: 0 <= t' < NTracks && 0 <= q < NQuarters ==>
          pads[t', q] == if t' < t then old(pads[t', q]).(velocity := tracks[t'][q]) else old(pads[t', q])
      {
        for q := 0 to NQuarters
          invariant forall t', q' :: 0 <= t' < NTracks && 0 <= q' < NQuarters ==>
            pads[t', q'] == if t' < t || (t' == t && q' < q) then old(pads[t', q']).(velocity := tracks[t'][q']) else old(pads[t', q'])
        {
          pads[t, q] := pads[t, q].(velocity := tracks[t][q]);
        }
      }
    }

    /**
     * Snapshot round trip: restoring the sequencer's own snapshot keeps every pad's
     * velocity, the tempo, and every track's channel and note, and a bound track keeps its
     * device name.
     */
    method SnapshotRoundTrip(devices: seq<Device>)
      requires Valid()
      modifies this`editTrack, this`bpm, this`changed, this`timer, this`timersCreated, this`quarter,
               pads, output`trace, output`changed, output.tracks
      ensures Valid()
      ensures bpm == old(bpm)
      ensures forall t, q :: 0 <= t < NTracks && 0 <= q < NQuarters ==> pads[t, q].velocity == old(pads[t, q].velocity)
      ensures forall i :: 0 <= i < NTracks ==>
        output.tracks[i].channel == old(output.tracks[i].channel) && output.tracks[i].note == old(output.tracks[i].note) &&
        (old(output.tracks[i].device.Some?) ==> output.tracks[i].deviceName == old(output.tracks[i].deviceName))
    {
      var config := GetConfig();
      SetConfig(config, devices);
      forall i | 0 <= i < NTracks
        ensures output.tracks[i].channel == old(output.tracks[i].channel) && output.tracks[i].note == old(output.tracks[i].note) &&
          (old(output.tracks[i].device.Some?) ==> output.tracks[i].deviceName == old(output.tracks[i].deviceName))
      {
        TrackConfigRoundTrip(old(output.tracks[i]), devices);
      }
    }
  }
}
