/**
 * The output router of the step sequencer: for each of the four tracks, the device the
 * track plays on (bound by device name and re-bound by name when devices come and go),
 * its MIDI channel and its note. It turns the sequencer's note requests into MIDI
 * messages and sends broadcasts once per distinct (device, channel) pair.
 *
 * Every message the router sends is appended to the ghost `trace` of the Output object.
 */
module SequencerOutput {
  import opened Wrappers
  import opened Midi

  /** The number of tracks of the sequencer. */
  const NTracks: int := 4

  /** A MIDI output as the device list reports it: its id and its name. */
  datatype Device = Device(id: string, name: string)

  /**
   * One track's output binding: the live device (None when unbound), the name it is bound
   * by (kept across disconnects so that it can be re-bound), the index of the selected
   * channel (0..15; -1 when no channel option is selected) and the note it plays.
   */
  datatype Track = Track(device: Option<Device>, deviceName: Option<string>, channel: int, note: int)

  /** One track's entry in a configuration snapshot. */
  datatype TrackConfig = TrackConfig(deviceName: Option<string>, channel: int, note: int)

  /**
   * A message handed to a device: the device id, the bytes, and the delay in milliseconds
   * after "now" at which it is to be sent (None: sent at once).
   */
  datatype Sent = Sent(device: string, bytes: seq<int>, delay: Option<int>)

  /** The arguments of one `sendNote` request: track index, velocity (0: note off), delay. */
  datatype NoteCall = NoteCall(track: int, velocity: int, delay: int)

  /** The messages a broadcast sends per (device, channel) pair. */
  datatype Broadcast = SystemResetBroadcast | ControlChangeBroadcast(controller: int, value: int)

  /** A broadcast is addressed by device id and channel. */
  type Key = (string, int)

  /** The invariant every track keeps: a bound track is bound by its device's name. */
  predicate TrackValid(t: Track) {
    -1 <= t.channel < 16 && 0 <= t.note < 128 &&
    (t.device.Some? ==> t.deviceName == Some(t.device.value.name))
  }

  predicate AllValid(ts: seq<Track>) {
    forall i :: 0 <= i < |ts| ==> TrackValid(ts[i])
  }

  /** The binding a track has after construction or reset: no device, channel index 0, note 60 + index. */
  function DefaultTrack(index: int): (t: Track)
    ensures t.device.None? && t.deviceName.None? && t.channel == 0 && t.note == 60 + index
    ensures 0 <= index < NTracks ==> TrackValid(t)
  {
    Track(None, None, 0, 60 + index)
  }

  /**
   * The note after `note.update(number)`: a missing number or one outside 0..127 is
   * ignored and the prior note kept.
   */
  function UpdatedNote(note: int, number: Option<int>): (r: int)
    ensures number.Some? && 0 <= number.value <= 127 ==> r == number.value
    ensures number.None? || number.value < 0 || number.value > 127 ==> r == note
  {
    if number.None? || number.value < 0 || number.value > 127 then note else number.value
  }

  /**
   * The selected index of the 16-option channel select after its `selectedIndex` is set to
   * `index`: an index without an option leaves no option selected.
   */
  function SelectIndex(index: int): (r: int)
    ensures -1 <= r < 16
    ensures 0 <= index < 16 ==> r == index
    ensures !(0 <= index < 16) ==> r == -1
  {
    if 0 <= index < 16 then index else -1
  }

  // ---------------------------------------------------------------------------
  // Note messages

  /** The offset after "now" at which a message is sent. */
  function DelayOf(m: Sent): int {
    if m.delay.Some? then m.delay.value else 0
  }

  /**
   * What `sendNote(track, velocity, delay)` sends to a track: nothing when the track is
   * unbound; otherwise one Note On (velocity > 0) or Note Off (release velocity 64) on the
   * track's channel and note, timestamped only when the delay is not zero.
   */
  function NoteMessages(t: Track, velocity: int, delay: int): (ms: seq<Sent>)
    requires TrackValid(t)
    ensures t.device.None? <==> ms == []
    ensures t.device.Some? ==> |ms| == 1 && ms[0].device == t.device.value.id
    ensures t.device.Some? ==> (ms[0].delay.Some? <==> delay != 0) && (delay >= 0 ==> DelayOf(ms[0]) == delay)
    ensures t.device.Some? && 0 <= t.channel && velocity <= 127 ==>
      Parse(ms[0].bytes) == Some(if velocity > 0 then NoteOnEvent(t.channel, t.note, velocity)
                                 else NoteOffEvent(t.channel, t.note, ReleaseVelocity))
  {
    if t.device.None? then []
    else
      var bytes := if velocity > 0 then NoteOnBytes(t.channel, t.note, velocity) else NoteOffBytes(t.channel, t.note);
      [Sent(t.device.value.id, bytes, if delay != 0 then Some(delay) else None)]
  }

  predicate CallsInRange(n: int, cs: seq<NoteCall>) {
    forall k :: 0 <= k < |cs| ==> 0 <= cs[k].track < n
  }

  /** The messages sent by the `sendNote` requests `cs`, in order. */
  function Sends(ts: seq<Track>, cs: seq<NoteCall>): (ms: seq<Sent>)
    requires AllValid(ts) && CallsInRange(|ts|, cs)
    ensures |ms| <= |cs|
  {
    if cs == [] then []
    else
      var c := cs[|cs| - 1];
      Sends(ts, cs[..|cs| - 1]) + NoteMessages(ts[c.track], c.velocity, c.delay)
  }

  lemma SendsSnoc(ts: seq<Track>, cs: seq<NoteCall>, c: NoteCall)
    requires AllValid(ts) && CallsInRange(|ts|, cs) && 0 <= c.track < |ts|
    ensures CallsInRange(|ts|, cs + [c])
    ensures Sends(ts, cs + [c]) == Sends(ts, cs) + NoteMessages(ts[c.track], c.velocity, c.delay)
  {
    assert (cs + [c])[..|cs|] == cs;
  }

  /** The first message of a dispatch comes from its first request, when that track is bound. */
  lemma {:induction false} SendsFirst(ts: seq<Track>, cs: seq<NoteCall>)
    requires AllValid(ts) && CallsInRange(|ts|, cs) && cs != [] && ts[cs[0].track].device.Some?
    ensures |Sends(ts, cs)| > 0 && Sends(ts, cs)[0] == NoteMessages(ts[cs[0].track], cs[0].velocity, cs[0].delay)[0]
  {
    if |cs| > 1 {
      var init := cs[..|cs| - 1];
      assert init[0] == cs[0];
      SendsFirst(ts, init);
    }
  }

  /**
   * Staggering: when the requests of one tick carry non-negative, strictly increasing
   * delays, the messages actually sent (unbound tracks send nothing) are scheduled at
   * strictly increasing offsets, each at most the last request's delay.
   */
  lemma {:induction false} SendsStaggered(ts: seq<Track>, cs: seq<NoteCall>)
    requires AllValid(ts) && CallsInRange(|ts|, cs)
    requires forall k :: 0 <= k < |cs| ==> cs[k].delay >= 0
    requires forall k, m :: 0 <= k < m < |cs| ==> cs[k].delay < cs[m].delay
    ensures forall i, j :: 0 <= i < j < |Sends(ts, cs)| ==> DelayOf(Sends(ts, cs)[i]) < DelayOf(Sends(ts, cs)[j])
    ensures forall i :: 0 <= i < |Sends(ts, cs)| ==> |cs| > 0 && DelayOf(Sends(ts, cs)[i]) <= cs[|cs| - 1].delay
  {
    if cs != [] {
      var init, c := cs[..|cs| - 1], cs[|cs| - 1];
      SendsStaggered(ts, init);
      var prev := Sends(ts, init);
      var last := NoteMessages(ts[c.track], c.velocity, c.delay);
      assert Sends(ts, cs) == prev + last;
      assert c.delay >= 0;
      forall i | 0 <= i < |prev|
        ensures DelayOf(prev[i]) < c.delay
      {
        assert init[|init| - 1] == cs[|init| - 1];
        assert cs[|init| - 1].delay < c.delay;
      }
      forall i | 0 <= i < |Sends(ts, cs)|
        ensures DelayOf(Sends(ts, cs)[i]) <= c.delay
      {
        if i >= |prev| {
          assert Sends(ts, cs)[i] == last[0];
        }
      }
    } else {
      assert Sends(ts, cs) == [];
    }
  }

  // ---------------------------------------------------------------------------
  // Broadcast pairs

  /** The broadcast key of a bound track. */
  function KeyOf(t: Track): Key
    requires t.device.Some?
  {
    (t.device.value.id, t.channel)
  }

  /** Every key names a channel index in -1..15. */
  predicate ChannelsInRange(ks: seq<Key>) {
    forall k <- ks :: -1 <= k.1 < 16
  }

  /** The keys of the bound tracks, in track order, repetitions included. */
  function BoundKeys(ts: seq<Track>): (ks: seq<Key>)
    ensures AllValid(ts) ==> ChannelsInRange(ks)
  {
    if ts == [] then []
    else
      var t := ts[|ts| - 1];
      BoundKeys(ts[..|ts| - 1]) + (if t.device.Some? then [KeyOf(t)] else [])
  }

  /** A key occurs among `ts` when some bound track has it. */
  ghost predicate HasKey(ts: seq<Track>, k: Key) {
    exists i :: 0 <= i < |ts| && ts[i].device.Some? && KeyOf(ts[i]) == k
  }

  lemma {:induction false} BoundKeysExact(ts: seq<Track>)
    ensures forall k :: k in BoundKeys(ts) <==> HasKey(ts, k)
  {
    if ts != [] {
      var init, t := ts[..|ts| - 1], ts[|ts| - 1];
      BoundKeysExact(init);
      forall k ensures k in BoundKeys(ts) <==> HasKey(ts, k) {
        if HasKey(init, k) {
          var i :| 0 <= i < |init| && init[i].device.Some? && KeyOf(init[i]) == k;
          assert ts[i] == init[i];
        }
        if HasKey(ts, k) {
          var i :| 0 <= i < |ts| && ts[i].device.Some? && KeyOf(ts[i]) == k;
          if i < |init| {
            assert init[i] == ts[i];
          }
        }
      }
    }
  }

  predicate NoDuplicates(ks: seq<Key>) {
    forall i, j :: 0 <= i < j < |ks| ==> ks[i] != ks[j]
  }

  /** First occurrences, in order: the keys a JavaScript `Map` holds after `set` of each key of `ks`. */
  function Dedup(ks: seq<Key>): (r: seq<Key>)
    ensures |r| <= |ks|
  {
    if ks == [] then []
    else
      var p := Dedup(ks[..|ks| - 1]);
      if ks[|ks| - 1] in p then p else p + [ks[|ks| - 1]]
  }

  /** Deduplication keeps every key and repeats none. */
  lemma {:induction false} DedupExact(ks: seq<Key>)
    ensures forall k :: k in Dedup(ks) <==> k in ks
    ensures NoDuplicates(Dedup(ks))
  {
    if ks != [] {
      var init, k := ks[..|ks| - 1], ks[|ks| - 1];
      assert ks == init + [k];
      DedupExact(init);
    }
  }

  lemma BoundKeysSnoc(ts: seq<Track>, t: Track)
    ensures BoundKeys(ts + [t]) == BoundKeys(ts) + if t.device.Some? then [KeyOf(t)] else []
  {
    assert (ts + [t])[..|ts|] == ts;
  }

  lemma DedupSnoc(ks: seq<Key>, k: Key)
    ensures Dedup(ks + [k]) == if k in Dedup(ks) then Dedup(ks) else Dedup(ks) + [k]
  {
    assert (ks + [k])[..|ks|] == ks;
  }

  /**
   * What the `Map` built by `#getUniqueTracks` holds after the first `i` tracks: its keys
   * in insertion order, and for each key the last of those tracks that has it.
   */
  ghost predicate UniqueMap(ts: seq<Track>, i: int, keys: seq<Key>, last: map<Key, int>) {
    0 <= i <= |ts| && keys == Dedup(BoundKeys(ts[..i])) &&
    SameKeys(keys, last) && LastOwners(ts, i, last) && LastCovers(ts, i, last)
  }

  /** The insertion-ordered keys are exactly the keys of the `Map`. */
  ghost predicate SameKeys(keys: seq<Key>, last: map<Key, int>) {
    forall k :: k in keys <==> k in last
  }

  /** Each key maps to one of the first `i` tracks, bound and with that key. */
  ghost predicate LastOwners(ts: seq<Track>, i: int, last: map<Key, int>)
    requires 0 <= i <= |ts|
  {
    forall k :: k in last ==> 0 <= last[k] < i && ts[last[k]].device.Some? && KeyOf(ts[last[k]]) == k
  }

  /** Every bound track among the first `i` has its key mapped, to itself or a later track. */
  ghost predicate LastCovers(ts: seq<Track>, i: int, last: map<Key, int>)
    requires 0 <= i <= |ts|
  {
    forall j :: 0 <= j < i && ts[j].device.Some? ==> KeyOf(ts[j]) in last && j <= last[KeyOf(ts[j])]
  }

  /** An unbound track leaves the `Map` of `#getUniqueTracks` as it is. */
  lemma UniqueMapSkip(ts: seq<Track>, i: int, keys: seq<Key>, last: map<Key, int>)
    requires UniqueMap(ts, i, keys, last) && i < |ts| && ts[i].device.None?
    ensures UniqueMap(ts, i + 1, keys, last)
  {
    assert ts[..i + 1] == ts[..i] + [ts[i]];
    BoundKeysSnoc(ts[..i], ts[i]);
    assert BoundKeys(ts[..i + 1]) == BoundKeys(ts[..i]);
    assert LastCovers(ts, i + 1, last);
  }

  /** One `Map.set` of `#getUniqueTracks`: a new key goes last, an existing key keeps its place and takes the new track. */
  lemma UniqueMapSet(ts: seq<Track>, i: int, keys: seq<Key>, last: map<Key, int>)
    requires UniqueMap(ts, i, keys, last) && i < |ts| && ts[i].device.Some?
    ensures UniqueMap(ts, i + 1, if KeyOf(ts[i]) in last then keys else keys + [KeyOf(ts[i])], last[KeyOf(ts[i]) := i])
  {
    var key := KeyOf(ts[i]);
    BoundDedupSnoc(ts, i);
    assert key in keys <==> key in last;
    SameKeysSet(keys, last, key, i);
    LastOwnersSet(ts, i, last);
    LastCoversSet(ts, i, last);
  }

  lemma BoundDedupSnoc(ts: seq<Track>, i: int)
    requires 0 <= i < |ts| && ts[i].device.Some?
    ensures Dedup(BoundKeys(ts[..i + 1])) ==
      if KeyOf(ts[i]) in Dedup(BoundKeys(ts[..i])) then Dedup(BoundKeys(ts[..i]))
      else Dedup(BoundKeys(ts[..i])) + [KeyOf(ts[i])]
  {
    assert ts[..i + 1] == ts[..i] + [ts[i]];
    BoundKeysSnoc(ts[..i], ts[i]);
    DedupSnoc(BoundKeys(ts[..i]), KeyOf(ts[i]));
  }

  lemma SameKeysSet(keys: seq<Key>, last: map<Key, int>, key: Key, i: int)
    requires SameKeys(keys, last)
    ensures SameKeys(if key in last then keys else keys + [key], last[key := i])
  {
  }

  lemma LastOwnersSet(ts: seq<Track>, i: int, last: map<Key, int>)
    requires 0 <= i < |ts| && ts[i].device.Some? && LastOwners(ts, i, last)
    ensures LastOwners(ts, i + 1, last[KeyOf(ts[i]) := i])
  {
    var last' := last[KeyOf(ts[i]) := i];
    forall k | k in last'
      ensures 0 <= last'[k] < i + 1 && ts[last'[k]].device.Some? && KeyOf(ts[last'[k]]) == k
    {
      if k != KeyOf(ts[i]) {
        assert last'[k] == last[k];
      }
    }
  }

  lemma LastCoversSet(ts: seq<Track>, i: int, last: map<Key, int>)
    requires 0 <= i < |ts| && ts[i].device.Some? && LastCovers(ts, i, last)
    ensures LastCovers(ts, i + 1, last[KeyOf(ts[i]) := i])
  {
    var key := KeyOf(ts[i]);
    var last' := last[key := i];
    forall j | 0 <= j < i + 1 && ts[j].device.Some?
      ensures KeyOf(ts[j]) in last' && j <= last'[KeyOf(ts[j])]
    {
      if j < i && KeyOf(ts[j]) != key {
        assert last'[KeyOf(ts[j])] == last[KeyOf(ts[j])];
      }
    }
  }

  /** The (device id, channel) pairs a broadcast is sent to, in order of first appearance. */
  function Pairs(ts: seq<Track>): (ps: seq<Key>)
    requires AllValid(ts)
    ensures ChannelsInRange(ps)
  {
    DedupExact(BoundKeys(ts));
    Dedup(BoundKeys(ts))
  }

  /** The pairs are exactly the keys of the bound tracks, each once. */
  lemma PairsExact(ts: seq<Track>)
    requires AllValid(ts)
    ensures NoDuplicates(Pairs(ts))
    ensures forall k :: k in Pairs(ts) <==> HasKey(ts, k)
  {
    BoundKeysExact(ts);
    DedupExact(BoundKeys(ts));
  }

  lemma {:induction false} NoDuplicatesCount(ks: seq<Key>, k: Key)
    requires NoDuplicates(ks)
    ensures multiset(ks)[k] == if k in ks then 1 else 0
  {
    if ks != [] {
      var init := ks[..|ks| - 1];
      assert ks == init + [ks[|ks| - 1]];
      assert NoDuplicates(init);
      NoDuplicatesCount(init, k);
    }
  }

  /**
   * Deduplication: every (device, channel) pair of a bound track is addressed exactly once
   * by a broadcast, however many tracks share it, and no other pair is addressed.
   */
  lemma OncePerPair(ts: seq<Track>, k: Key)
    requires AllValid(ts)
    ensures multiset(Pairs(ts))[k] == if HasKey(ts, k) then 1 else 0
  {
    PairsExact(ts);
    NoDuplicatesCount(Pairs(ts), k);
  }

  /** The bytes of a broadcast on one channel. */
  function BroadcastBytes(kind: Broadcast, channel: int): seq<int>
    requires -1 <= channel < 16
  {
    match kind
    case SystemResetBroadcast => SystemResetBytes()
    case ControlChangeBroadcast(controller, value) => ControlChangeBytes(channel, controller, value)
  }

  /**
   * What a broadcast message reads as: a System Reset, or a Control Change on the pair's
   * channel; a track whose channel is unset (-1) yields bytes that are no Control Change.
   */
  lemma BroadcastMessage(kind: Broadcast, channel: int)
    requires -1 <= channel < 16
    ensures kind.SystemResetBroadcast? ==> Parse(BroadcastBytes(kind, channel)) == Some(SystemResetEvent)
    ensures kind.ControlChangeBroadcast? && 0 <= channel && IsData(kind.controller) && IsData(kind.value) ==>
      Parse(BroadcastBytes(kind, channel)) == Some(ControlChangeEvent(channel, kind.controller, kind.value))
    ensures kind.ControlChangeBroadcast? && channel < 0 ==> Parse(BroadcastBytes(kind, channel)) == None
  {
  }

  /** The messages of a broadcast to the first `n` pairs of `keys`, in order; broadcasts carry no timestamp. */
  function Broadcasts(keys: seq<Key>, n: int, kind: Broadcast): (ms: seq<Sent>)
    requires ChannelsInRange(keys) && 0 <= n <= |keys|
    ensures |ms| == n
  {
    if n == 0 then []
    else
      var k := keys[n - 1];
      Broadcasts(keys, n - 1, kind) + [Sent(k.0, BroadcastBytes(kind, k.1), None)]
  }

  /** The n-th broadcast message goes to the n-th pair, on its channel, without a timestamp. */
  lemma {:induction false} BroadcastsAddressed(keys: seq<Key>, n: int, kind: Broadcast)
    requires ChannelsInRange(keys) && 0 <= n <= |keys|
    ensures forall m :: 0 <= m < n ==> Broadcasts(keys, n, kind)[m] == Sent(keys[m].0, BroadcastBytes(kind, keys[m].1), None)
  {
    if n > 0 {
      BroadcastsAddressed(keys, n - 1, kind);
    }
  }

  /** The messages of one broadcast from the tracks `ts`: one per unique (device, channel) pair. */
  function BroadcastTo(ts: seq<Track>, kind: Broadcast): (ms: seq<Sent>)
    requires AllValid(ts)
    ensures |ms| == |Pairs(ts)|
  {
    var ps := Pairs(ts);
    Broadcasts(ps, |ps|, kind)
  }

  // ---------------------------------------------------------------------------
  // Binding by name and configuration snapshots

  /** The index of the first listed device with the given name, if any. */
  function FirstNamed(devices: seq<Device>, name: string): (r: Option<nat>)
    ensures r.Some? ==> r.value < |devices| && devices[r.value].name == name &&
                        forall j :: 0 <= j < r.value ==> devices[j].name != name
    ensures r.None? ==> forall d <- devices :: d.name != name
  {
    if devices == [] then None
    else if devices[0].name == name then Some(0)
    else
      match FirstNamed(devices[1..], name)
      case None => None
      case Some(i) => Some(i + 1)
  }

  /**
   * `#assignDevice`: an unbound track with a non-empty device name is bound to the first
   * listed device of that name, if there is one; any other track is left as it is.
   */
  function AssignTrack(t: Track, devices: seq<Device>): (r: Track)
    ensures r.deviceName == t.deviceName && r.channel == t.channel && r.note == t.note
    ensures t.device.Some? ==> r == t
    ensures TrackValid(t) ==> TrackValid(r)
    ensures r.device.Some? && t.device.None? ==> r.device.value in devices && t.deviceName == Some(r.device.value.name)
    ensures t.device.None? && (t.deviceName.None? || t.deviceName.value == "") ==> r == t
    ensures t.device.None? && t.deviceName.Some? && t.deviceName.value != "" ==>
      (r.device.Some? <==> exists d <- devices :: d.name == t.deviceName.value)
    ensures r.device.Some? && t.device.None? ==>
      exists i :: 0 <= i < |devices| && devices[i] == r.device.value && forall j :: 0 <= j < i ==> devices[j].name != devices[i].name
  {
    if t.device.Some? || t.deviceName.None? || t.deviceName.value == "" then t
    else
      match FirstNamed(devices, t.deviceName.value)
      case None => t
      case Some(i) => t.(device := Some(devices[i]))
  }

  /** A track's snapshot entry: the name only of a bound device, the channel index and the note. */
  function ExportTrack(t: Track): (c: TrackConfig)
    ensures c.channel == t.channel && c.note == t.note
    ensures c.deviceName.Some? <==> t.device.Some?
    ensures t.device.Some? ==> c.deviceName == Some(t.device.value.name)
  {
    TrackConfig(if t.device.Some? then Some(t.device.value.name) else None, t.channel, t.note)
  }

  /** The first step of `setConfig` on one track: unbind, then take name, channel and note from the entry. */
  function RestoreTrack(t: Track, c: TrackConfig): (r: Track)
    ensures r.device.None?
    ensures TrackValid(t) ==> TrackValid(r)
  {
    Track(None, c.deviceName, SelectIndex(c.channel), UpdatedNote(t.note, Some(c.note)))
  }

  /**
   * Snapshot round trip for one track: restoring a track's own snapshot keeps its channel
   * and note; a bound track keeps its device name (and is bound again whenever a device of
   * that name is listed); an unbound track loses its remembered name, because the snapshot
   * only records the name of a bound device.
   */
  lemma TrackConfigRoundTrip(t: Track, devices: seq<Device>)
    requires TrackValid(t)
    ensures var r := AssignTrack(RestoreTrack(t, ExportTrack(t)), devices);
      r.channel == t.channel && r.note == t.note && TrackValid(r) &&
      (t.device.Some? ==> r.deviceName == t.deviceName) &&
      (t.device.Some? && t.device.value.name != "" && t.device.value in devices ==>
         r.device.Some? && r.device.value.name == t.device.value.name) &&
      (t.device.None? ==> r == t.(deviceName := None))
  {
    var r0 := RestoreTrack(t, ExportTrack(t));
    if t.device.Some? && t.device.value.name != "" && t.device.value in devices {
      var i :| 0 <= i < |devices| && devices[i] == t.device.value;
      assert devices[i].name == t.device.value.name;
    }
  }

  /**
   * Reconnection: a disconnected track keeps its name, stays unbound while no device of
   * that name is listed, and is bound again to a device of that name once one is listed.
   */
  lemma Reconnect(t: Track, gone: seq<Device>, back: seq<Device>, d: Device)
    requires TrackValid(t) && t.device == Some(d) && d.name != ""
    requires forall e <- gone :: e.name != d.name
    requires exists e <- back :: e.name == d.name
    ensures var u := t.(device := None);
      AssignTrack(u, gone) == u &&
      AssignTrack(u, back).device.Some? && AssignTrack(u, back).device.value.name == d.name
  {
    var e :| e in back && e.name == d.name;
    var i :| 0 <= i < |back| && back[i] == e;
    assert back[i].name == d.name;
  }

  // ---------------------------------------------------------------------------
  // The router

  class Output {
    /** The four track records; their fields are updated in place. */
    const tracks: array<Track>
    /** Every message sent, in order. */
    ghost var trace: seq<Sent>
    /** The number of "changed" notifications emitted. */
    ghost var changed: nat

    ghost predicate Valid()
      reads tracks
    {
      tracks.Length == NTracks && forall i :: 0 <= i < NTracks ==> TrackValid(tracks[i])
    }

    /** Construction: every track unbound, channel index 0, note 60 + its index. */
    constructor()
      ensures Valid() && fresh(tracks)
      ensures forall i :: 0 <= i < NTracks ==> tracks[i] == DefaultTrack(i)
      ensures trace == [] && changed == 0
    {
      tracks := new Track[NTracks](DefaultTrack);
      trace, changed := [], 0;
    }

    /** `note.update(number, silent)` of one track. */
    method NoteUpdate(track: int, number: Option<int>, silent: bool)
      requires Valid() && 0 <= track < NTracks
      modifies tracks, this`changed
      ensures Valid()
      ensures tracks[track] == old(tracks[track]).(note := UpdatedNote(old(tracks[track]).note, number))
      ensures forall i :: 0 <= i < NTracks && i != track ==> tracks[i] == old(tracks[i])
      ensures changed == if number.None? || number.value < 0 || number.value > 127 || silent
                         then old(changed) else old(changed) + 1
    {
      if number.None? || number.value < 0 || number.value > 127 {
        return;
      }
      if !silent {
        changed := changed + 1;
      }
      tracks[track] := tracks[track].(note := number.value);
    }

    /** The channel select's "change" event: the user picked the channel with index `index`. */
    method SelectChannel(track: int, index: int)
      requires Valid() && 0 <= track < NTracks && 0 <= index < 16
      modifies tracks, this`changed
      ensures Valid()
      ensures tracks[track] == old(tracks[track]).(channel := index)
      ensures forall i :: 0 <= i < NTracks && i != track ==> tracks[i] == old(tracks[i])
      ensures changed == old(changed) + 1
    {
      tracks[track] := tracks[track].(channel := index);
      changed := changed + 1;
    }

    /** `reset`: every track back to its default binding. */
    method Reset()
      requires Valid()
      modifies tracks
      ensures Valid()
      ensures forall i :: 0 <= i < NTracks ==> tracks[i] == DefaultTrack(i)
    {
      var note := 60;
      for i := 0 to NTracks
        invariant note == 60 + i
        invariant forall j :: 0 <= j < i ==> tracks[j] == DefaultTrack(j)
        invariant forall j :: i <= j < NTracks ==> tracks[j] == old(tracks[j])
      {
        tracks[i] := tracks[i].(note := note);
        note := note + 1;
        tracks[i] := tracks[i].(channel := 0, deviceName := None, device := None);
      }
    }

    /** The router's Reset button: `reset()`, then one notification. */
    method ResetClick()
      requires Valid()
      modifies tracks, this`changed
      ensures Valid()
      ensures forall i :: 0 <= i < NTracks ==> tracks[i] == DefaultTrack(i)
      ensures changed == old(changed) + 1 && trace == old(trace)
    {
      Reset();
      changed := changed + 1;
    }

    /** `#copyDevice(d)`: every unbound track is bound to `d`; bound tracks are left alone. */
    method CopyDevice(d: Device)
      requires Valid()
      modifies tracks
      ensures Valid()
      ensures forall i :: 0 <= i < NTracks ==>
        tracks[i] == if old(tracks[i]).device.Some? then old(tracks[i])
                     else old(tracks[i]).(device := Some(d), deviceName := Some(d.name))
    {
      for i := 0 to NTracks
        invariant forall j :: 0 <= j < i ==>
          tracks[j] == if old(tracks[j]).device.Some? then old(tracks[j])
                       else old(tracks[j]).(device := Some(d), deviceName := Some(d.name))
        invariant forall j :: i <= j < NTracks ==> tracks[j] == old(tracks[j])
      {
        if tracks[i].device.Some? {
          continue;
        }
        tracks[i] := tracks[i].(deviceName := Some(d.name), device := Some(d));
      }
    }

    /**
     * The device select's "select" event on `track`: a picked device is copied to every
     * unbound track; clearing the selection unbinds this track. Either way listeners are
     * notified.
     */
    method Select(track: int, selected: Option<Device>)
      requires Valid() && 0 <= track < NTracks
      modifies tracks, this`changed
      ensures Valid()
      ensures selected.Some? ==> forall i :: 0 <= i < NTracks ==>
        tracks[i] == if old(tracks[i]).device.Some? then old(tracks[i])
                     else old(tracks[i]).(device := selected, deviceName := Some(selected.value.name))
      ensures selected.None? ==> tracks[track] == old(tracks[track]).(device := None)
      ensures selected.None? ==> forall i :: 0 <= i < NTracks && i != track ==> tracks[i] == old(tracks[i])
      ensures changed == old(changed) + 1
    {
      if selected.Some? {
        CopyDevice(selected.value);
      } else {
        tracks[track] := tracks[track].(device := None);
      }
      changed := changed + 1;
    }

    /** The device select's "disconnect" event: the track is unbound but keeps its device name. */
    method Disconnect(track: int)
      requires Valid() && 0 <= track < NTracks
      modifies tracks
      ensures Valid()
      ensures tracks[track] == old(tracks[track]).(device := None)
      ensures forall i :: 0 <= i < NTracks && i != track ==> tracks[i] == old(tracks[i])
    {
      tracks[track] := tracks[track].(device := None);
    }

    /** `#assignDevice(track)` against the devices the track's select lists. */
    method AssignDevice(track: int, devices: seq<Device>)
      requires Valid() && 0 <= track < NTracks
      modifies tracks
      ensures Valid()
      ensures tracks[track] == AssignTrack(old(tracks[track]), devices)
      ensures forall i :: 0 <= i < NTracks && i != track ==> tracks[i] == old(tracks[i])
    {
      var t := tracks[track];
      if t.device.Some? {
        return;
      }
      if t.deviceName.None? || t.deviceName.value == "" {
        return;
      }
      var name := t.deviceName.value;
      for n := 0 to |devices|
        invariant tracks[track] == t
        invariant forall j :: 0 <= j < n ==> devices[j].name != name
      {
        if devices[n].name != name {
          continue;
        }
        tracks[track] := t.(device := Some(devices[n]));
        return;
      }
    }

    /**
     * `assignDevices`, and also what the MIDI "state" notifications do: each unbound track
     * with a remembered name is re-bound by name.
     */
    method AssignDevices(devices: seq<Device>)
      requires Valid()
      modifies tracks
      ensures Valid()
      ensures forall i :: 0 <= i < NTracks ==> tracks[i] == AssignTrack(old(tracks[i]), devices)
    {
      for i := 0 to NTracks
        invariant Valid()
        invariant forall j :: 0 <= j < i ==> tracks[j] == AssignTrack(old(tracks[j]), devices)
        invariant forall j :: i <= j < NTracks ==> tracks[j] == old(tracks[j])
      {
        AssignDevice(i, devices);
      }
    }

    /**
     * `#getUniqueTracks`: one bound track per distinct (device id, channel) pair, the pairs
     * in order of first appearance and, for each, the last track that has it (a `Map`
     * keeps a key's first position and its last value).
     */
    method UniqueTracks() returns (us: seq<int>)
      requires Valid()
      ensures |us| == |Dedup(BoundKeys(tracks[..]))|
      ensures forall n :: 0 <= n < |us| ==>
        0 <= us[n] < NTracks && tracks[us[n]].device.Some? && KeyOf(tracks[us[n]]) == Dedup(BoundKeys(tracks[..]))[n]
      ensures forall n, j :: 0 <= n < |us| && us[n] < j < NTracks && tracks[j].device.Some? ==>
                             KeyOf(tracks[j]) != KeyOf(tracks[us[n]])
    {
      ghost var ts := tracks[..];
      var keys: seq<Key> := [];
      var last: map<Key, int> := map[];
      for i := 0 to NTracks
        invariant UniqueMap(ts, i, keys, last)
      {
        var t := tracks[i];
        if t.device.None? {
          UniqueMapSkip(ts, i, keys, last);
          continue;
        }
        UniqueMapSet(ts, i, keys, last);
        var key := KeyOf(t);
        if key !in last {
          keys := keys + [key];
        }
        last := last[key := i];
      }
      assert ts[..NTracks] == ts;
      us := seq(|keys|, n requires 0 <= n < |keys| => last[keys[n]]);
    }

    /** Sends one message of `kind` to every unique (device, channel) pair. */
    method SendBroadcast(kind: Broadcast)
      requires Valid()
      modifies this`trace
      ensures trace == old(trace) + BroadcastTo(tracks[..], kind)
    {
      var us := UniqueTracks();
      ghost var keys := Pairs(tracks[..]);
      for n := 0 to |us|
        invariant trace == old(trace) + Broadcasts(keys, n, kind)
      {
        var t := tracks[us[n]];
        trace := trace + [Sent(t.device.value.id, BroadcastBytes(kind, t.channel), None)];
      }
    }

    /** `sendSystemReset`: one System Reset per unique (device, channel) pair. */
    method SendSystemReset()
      requires Valid()
      modifies this`trace
      ensures trace == old(trace) + BroadcastTo(tracks[..], SystemResetBroadcast)
    {
      SendBroadcast(SystemResetBroadcast);
    }

    /** `sendControlChange(number, value)`: one Control Change per unique (device, channel) pair. */
    method SendControlChange(number: int, value: int)
      requires Valid()
      modifies this`trace
      ensures trace == old(trace) + BroadcastTo(tracks[..], ControlChangeBroadcast(number, value))
    {
      SendBroadcast(ControlChangeBroadcast(number, value));
    }

    /** `sendNote(trackIndex, velocity, delay)`. */
    method SendNote(trackIndex: int, velocity: int, delay: int)
      requires Valid() && 0 <= trackIndex < NTracks
      modifies this`trace
      ensures trace == old(trace) + NoteMessages(tracks[trackIndex], velocity, delay)
    {
      var t := tracks[trackIndex];
      if t.device.None? {
        return;
      }
      var timestamp := if delay != 0 then Some(delay) else None;
      if velocity > 0 {
        trace := trace + [Sent(t.device.value.id, NoteOnBytes(t.channel, t.note, velocity), timestamp)];
      } else {
        trace := trace + [Sent(t.device.value.id, NoteOffBytes(t.channel, t.note), timestamp)];
      }
    }

    /** `getConfig`: a snapshot of every track's binding (by name), channel index and note. */
    method GetConfig() returns (config: seq<TrackConfig>)
      requires Valid()
      ensures |config| == NTracks
      ensures forall i :: 0 <= i < NTracks ==>
        config[i].channel == tracks[i].channel && config[i].note == tracks[i].note &&
        config[i].deviceName == (if tracks[i].device.Some? then Some(tracks[i].device.value.name) else None)
    {
      config := [];
      for i := 0 to NTracks
        invariant |config| == i
        invariant forall j :: 0 <= j < i ==> config[j] == ExportTrack(tracks[j])
      {
        var t := tracks[i];
        var output := TrackConfig(if t.device.Some? then Some(t.device.value.name) else None, t.channel, t.note);
        config := config + [output];
      }
    }

    /**
     * `setConfig(config)`: every track is unbound and takes name, channel and note from its
     * entry (an invalid note is ignored), then all tracks are re-bound by name.
     */
    method SetConfig(config: seq<TrackConfig>, devices: seq<Device>)
      requires Valid() && |config| >= NTracks
      modifies tracks, this`changed
      ensures Valid() && changed == old(changed)
      ensures forall i :: 0 <= i < NTracks ==> tracks[i] == AssignTrack(RestoreTrack(old(tracks[i]), config[i]), devices)
    {
      for i := 0 to NTracks
        invariant Valid()
        invariant forall j :: 0 <= j < i ==> tracks[j] == RestoreTrack(old(tracks[j]), config[j])
        invariant forall j :: i <= j < NTracks ==> tracks[j] == old(tracks[j])
        invariant changed == old(changed)
      {
        tracks[i] := tracks[i].(device := None, deviceName := config[i].deviceName, channel := SelectIndex(config[i].channel));
        NoteUpdate(i, Some(config[i].note), true);
      }
      AssignDevices(devices);
    }
  }
}
