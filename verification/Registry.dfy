/** The observer of three instance lifecycles: sensor 1 is disposed, sensor 2 loses its
    writers, sensor 3 stays alive. Samples come in callbacks of any size. */
module Registry {

  datatype Option<T> = None | Some(value: T)

  datatype InstanceState = Alive | Disposed | NoWriters | Unknown

  datatype Event = Event(sensor: int, state: InstanceState, handle: nat)

  datatype Track = Track(sensor: int, seenAlive: bool, terminal: bool, handle: nat)

  const FRESH: seq<Track> := [Track(1, false, false, 0), Track(2, false, false, 0), Track(3, false, false, 0)]

  // ---- One event ----

  /** What an event does to the track of its sensor; None where the program fails. */
  function Touch(t: Track, e: Event): Option<Track> {
    var seen := t.(handle := e.handle);
    match e.state
    case Alive => Some(seen.(seenAlive := true, terminal := t.terminal || t.sensor == 3))
    case Disposed => if t.sensor != 1 || !t.seenAlive then None else Some(seen.(terminal := true))
    case NoWriters => if t.sensor != 2 || !t.seenAlive then None else Some(seen.(terminal := true))
    case Unknown => None
  }

  predicate Known(sensor: int) {
    1 <= sensor <= 3
  }

  predicate Shaped(ts: seq<Track>) {
    |ts| == 3 && forall i :: 0 <= i < 3 ==> ts[i].sensor == i + 1
  }

  function TrackStep(ts: seq<Track>, e: Event): Option<seq<Track>>
    requires Shaped(ts)
  {
    if !Known(e.sensor) then None
    else match Touch(ts[e.sensor - 1], e)
         case None => None
         case Some(t) => Some(ts[e.sensor - 1 := t])
  }

  predicate AllTerminal(ts: seq<Track>) {
    forall i :: 0 <= i < |ts| ==> ts[i].terminal
  }

  /** `done` is what all_done and the callback's own flag say together. */
  datatype Outcome = Failed | Running(tracks: seq<Track>, done: bool, lookups: nat)

  predicate Ok(o: Outcome) {
    o.Running? ==> Shaped(o.tracks)
  }

  const START := Running(FRESH, false, 0)

  /** One sample, with the answer that lookup_instance() would give for sensor 3. */
  function Observe(o: Outcome, e: Event, lookup: nat): (r: Outcome)
    requires Ok(o)
    ensures Ok(r)
  {
    if o.Failed? then Failed
    else match TrackStep(o.tracks, e)
         case None => Failed
         case Some(ts) =>
           if !AllTerminal(ts) || o.done then Running(ts, o.done, o.lookups)
           else if lookup == 0 || lookup != ts[2].handle then Failed
           else Running(ts, true, o.lookups + 1)
  }

  function ObserveAll(o: Outcome, es: seq<Event>, lookup: nat): (r: Outcome)
    requires Ok(o)
    ensures Ok(r)
  {
    if es == [] then o else Observe(ObserveAll(o, es[..|es| - 1], lookup), es[|es| - 1], lookup)
  }

  lemma {:induction false} ObserveConcat(o: Outcome, es: seq<Event>, fs: seq<Event>, lookup: nat)
    requires Ok(o)
    ensures ObserveAll(o, es + fs, lookup) == ObserveAll(ObserveAll(o, es, lookup), fs, lookup)
  {
    if fs == [] {
      assert es + fs == es;
    } else {
      assert (es + fs)[..|es + fs| - 1] == es + fs[..|fs| - 1];
      ObserveConcat(o, es, fs[..|fs| - 1], lookup);
    }
  }

  lemma {:induction false} FailureSticks(o: Outcome, es: seq<Event>, lookup: nat, k: nat)
    requires Ok(o) && k <= |es| && ObserveAll(o, es[..k], lookup).Failed?
    ensures ObserveAll(o, es, lookup).Failed?
    decreases |es|
  {
    if k < |es| {
      assert es[..|es| - 1][..k] == es[..k];
      FailureSticks(o, es[..|es| - 1], lookup, k);
    } else {
      assert es[..k] == es;
    }
  }

  // ---- The listener ----

  datatype Op = Take | StoreAllDone

  function Concat(batches: seq<seq<Event>>): seq<Event> {
    if batches == [] then [] else Concat(batches[..|batches| - 1]) + batches[|batches| - 1]
  }

  class Observer {
    var tracks: seq<Track>
    var allDone: bool
    ghost var lookups: nat

    ghost function Now(): Outcome
      reads this
    {
      Running(tracks, allDone, lookups)
    }

    constructor ()
      ensures Now() == START
    {
      tracks, allDone, lookups := FRESH, false, 0;
    }

    method TrackFor(sensor: int) returns (i: nat, found: bool)
      requires Shaped(tracks)
      ensures found <==> 1 <= sensor <= 3
      ensures found ==> i == sensor - 1
    {
      i := 0;
      while i < 3
        invariant 0 <= i <= 3
        invariant !(1 <= sensor <= i)
      {
        if tracks[i].sensor == sensor {
          return i, true;
        }
        i := i + 1;
      }
      found := false;
    }

    method AllInstancesDone() returns (done: bool)
      requires Shaped(tracks)
      ensures done <==> AllTerminal(tracks)
    {
      var i := 0;
      while i < 3
        invariant 0 <= i <= 3
        invariant forall j :: 0 <= j < i ==> tracks[j].terminal
      {
        if !tracks[i].terminal {
          return false;
        }
        i := i + 1;
      }
      return true;
    }

    /** One sample. The callback's own flag goes in and comes out; all_done stays. */
    method Handle(e: Event, lookup: nat, became0: bool) returns (ok: bool, became: bool)
      requires Shaped(tracks)
      modifies this
      ensures allDone == old(allDone)
      ensures became0 ==> became
      ensures became ==> became0 || !allDone
      ensures !ok <==> Observe(Running(old(tracks), old(allDone) || became0, old(lookups)), e, lookup).Failed?
      ensures ok ==> Running(tracks, allDone || became, lookups)
                     == Observe(Running(old(tracks), old(allDone) || became0, old(lookups)), e, lookup)
    {
      ok, became := false, became0;
      var i, found := TrackFor(e.sensor);
      if !found {
        return;
      }
      ghost var touched := Touch(tracks[i], e);
      tracks := tracks[i := tracks[i].(handle := e.handle)];
      match e.state {
        case Alive =>
          tracks := tracks[i := tracks[i].(seenAlive := true)];
          if tracks[i].sensor == 3 {
            tracks := tracks[i := tracks[i].(terminal := true)];
          }
        case Disposed =>
          if tracks[i].sensor != 1 || !tracks[i].seenAlive {
            return;
          }
          tracks := tracks[i := tracks[i].(terminal := true)];
        case NoWriters =>
          if tracks[i].sensor != 2 || !tracks[i].seenAlive {
            return;
          }
          tracks := tracks[i := tracks[i].(terminal := true)];
        case Unknown =>
          return;
      }
      assert touched.Some? && tracks == old(tracks)[i := touched.value];
      var complete := AllInstancesDone();
      if complete && !allDone && !became {
        if lookup == 0 || lookup != tracks[2].handle {
          return;
        }
        lookups := lookups + 1;
        became := true;
      }
      ok := true;
    }

    /** One callback: its take loop, and all_done stored, if at all, after the last take. */
    method OnDataAvailable(batch: seq<Event>, lookup: nat) returns (ok: bool, ops: seq<Op>)
      requires Shaped(tracks)
      modifies this
      ensures !ok <==> ObserveAll(old(Now()), batch, lookup).Failed?
      ensures ok ==> Now() == ObserveAll(old(Now()), batch, lookup)
      ensures ok ==> ops == seq(|batch| + 1, _ => Take) + if allDone && !old(allDone) then [StoreAllDone] else []
      ensures !ok ==> allDone == old(allDone) && StoreAllDone !in ops
    {
      var became := false;
      ghost var start := Now();
      ops := [];
      var i := 0;
      while i < |batch|
        invariant 0 <= i <= |batch| && allDone == old(allDone)
        invariant ObserveAll(start, batch[..i], lookup) == Running(tracks, allDone || became, lookups)
        invariant became ==> !old(allDone)
        invariant ops == seq(i, _ => Take)
      {
        ops := ops + [Take];
        ok, became := Handle(batch[i], lookup, became);
        assert batch[..i + 1][..i] == batch[..i];
        if !ok {
          FailureSticks(start, batch, lookup, i + 1);
          return;
        }
        i := i + 1;
      }
      assert batch[..i] == batch;
      ops := ops + [Take];
      if became {
        allDone := true;
        ops := ops + [StoreAllDone];
      }
      ok := true;
    }

    /** Any division of the stream into callbacks leads to the same tracks, the same
        acceptance, the same all_done and the same number of look-ups. */
    method Deliver(batches: seq<seq<Event>>, lookup: nat) returns (ok: bool)
      requires Now() == START
      modifies this
      ensures !ok <==> ObserveAll(START, Concat(batches), lookup).Failed?
      ensures ok ==> Now() == ObserveAll(START, Concat(batches), lookup)
    {
      var i := 0;
      while i < |batches|
        invariant 0 <= i <= |batches| && Shaped(tracks)
        invariant Now() == ObserveAll(START, Concat(batches[..i]), lookup)
      {
        var ops;
        assert batches[..i + 1][..i] == batches[..i];
        ObserveConcat(START, Concat(batches[..i]), batches[i], lookup);
        ok, ops := OnDataAvailable(batches[i], lookup);
        if !ok {
          assert Concat(batches[..i + 1]) == Concat(batches[..i]) + batches[i];
          ConcatPrefix(batches, i + 1);
          FailureSticks(START, Concat(batches), lookup, |Concat(batches[..i + 1])|);
          return;
        }
        i := i + 1;
      }
      assert batches[..i] == batches;
      ok := true;
    }
  }

  lemma {:induction false} ConcatPrefix(batches: seq<seq<Event>>, k: nat)
    requires k <= |batches|
    ensures |Concat(batches[..k])| <= |Concat(batches)|
    ensures Concat(batches)[..|Concat(batches[..k])|] == Concat(batches[..k])
    decreases |batches|
  {
    if k < |batches| {
      var front := batches[..|batches| - 1];
      assert front[..k] == batches[..k];
      ConcatPrefix(front, k);
    } else {
      assert batches[..k] == batches;
    }
  }

  // ---- What a stream means ----

  function RunTracks(es: seq<Event>): (r: Option<seq<Track>>)
    ensures r.Some? ==> Shaped(r.value)
  {
    if es == [] then Some(FRESH)
    else match RunTracks(es[..|es| - 1])
         case None => None
         case Some(ts) => TrackStep(ts, es[|es| - 1])
  }

  predicate Occurs(es: seq<Event>, sensor: int, state: InstanceState) {
    exists i :: 0 <= i < |es| && es[i].sensor == sensor && es[i].state == state
  }

  /** Disposals are of sensor 1 only, lost writers of sensor 2 only, each after an alive. */
  predicate EventOk(before: seq<Event>, e: Event) {
    match e.state
    case Alive => 1 <= e.sensor <= 3
    case Disposed => e.sensor == 1 && Occurs(before, 1, Alive)
    case NoWriters => e.sensor == 2 && Occurs(before, 2, Alive)
    case Unknown => false
  }

  predicate WellFormed(es: seq<Event>) {
    forall i :: 0 <= i < |es| ==> EventOk(es[..i], es[i])
  }

  function Terminal(sensor: int): InstanceState {
    if sensor == 1 then Disposed else if sensor == 2 then NoWriters else Alive
  }

  /** All three lifecycles have been seen to their expected ends. */
  predicate Completes(es: seq<Event>) {
    Occurs(es, 1, Disposed) && Occurs(es, 2, NoWriters) && Occurs(es, 3, Alive)
  }

  predicate Summarises(t: Track, es: seq<Event>, sensor: int) {
    && t.sensor == sensor
    && (t.seenAlive <==> Occurs(es, sensor, Alive))
    && (t.terminal <==> Occurs(es, sensor, Terminal(sensor)))
  }

  lemma OccursLast(es: seq<Event>, sensor: int, state: InstanceState)
    requires es != []
    ensures Occurs(es, sensor, state) <==>
              Occurs(es[..|es| - 1], sensor, state) || (es[|es| - 1].sensor == sensor && es[|es| - 1].state == state)
  {
    if Occurs(es[..|es| - 1], sensor, state) {
      var i :| 0 <= i < |es| - 1 && es[..|es| - 1][i].sensor == sensor && es[..|es| - 1][i].state == state;
      assert es[i].sensor == sensor;
    }
    if Occurs(es, sensor, state) {
      var i :| 0 <= i < |es| && es[i].sensor == sensor && es[i].state == state;
      if i < |es| - 1 {
        assert es[..|es| - 1][i].sensor == sensor;
      }
    }
  }

  lemma WellFormedLast(es: seq<Event>)
    requires es != []
    ensures WellFormed(es) <==> WellFormed(es[..|es| - 1]) && EventOk(es[..|es| - 1], es[|es| - 1])
  {
    var front := es[..|es| - 1];
    assert forall i :: 0 <= i < |front| ==> front[..i] == es[..i] && front[i] == es[i];
    if WellFormed(es) {
      forall i | 0 <= i < |front|
        ensures EventOk(front[..i], front[i])
      {
        assert EventOk(es[..i], es[i]);
      }
    } else {
      var i :| 0 <= i < |es| && !EventOk(es[..i], es[i]);
      assert i < |front| ==> !EventOk(front[..i], front[i]);
    }
  }

  /** The tracks are kept on well-formed streams exactly, and say what has occurred. */
  lemma {:induction false} TracksMeanStream(es: seq<Event>)
    ensures RunTracks(es).Some? <==> WellFormed(es)
    ensures RunTracks(es).Some? ==>
              forall k {:trigger RunTracks(es).value[k]} :: 0 <= k < 3 ==> Summarises(RunTracks(es).value[k], es, k + 1)
  {
    if es != [] {
      var front, e := es[..|es| - 1], es[|es| - 1];
      TracksMeanStream(front);
      WellFormedLast(es);
      if RunTracks(front).Some? {
        var ts := RunTracks(front).value;
        forall k | 0 <= k < 3
          ensures Summarises(ts[k], front, k + 1)
          ensures Occurs(es, k + 1, Alive) <==> ts[k].seenAlive || (e.sensor == k + 1 && e.state == Alive)
          ensures Occurs(es, k + 1, Terminal(k + 1)) <==>
                    ts[k].terminal || (e.sensor == k + 1 && e.state == Terminal(k + 1))
        {
          OccursLast(es, k + 1, Alive);
          OccursLast(es, k + 1, Terminal(k + 1));
        }
      }
    }
  }

  /** Samples of one sensor, in order. */
  function Own(es: seq<Event>, sensor: int): seq<Event> {
    if es == [] then []
    else Own(es[..|es| - 1], sensor) + if es[|es| - 1].sensor == sensor then [es[|es| - 1]] else []
  }

  function RunTrack(sensor: int, es: seq<Event>): Option<Track> {
    if es == [] then Some(Track(sensor, false, false, 0))
    else match RunTrack(sensor, es[..|es| - 1])
         case None => None
         case Some(t) => if Known(sensor) then Touch(t, es[|es| - 1]) else None
  }

  function OwnTrack(es: seq<Event>, sensor: int): Option<Track> {
    RunTrack(sensor, Own(es, sensor))
  }

  lemma OwnTrackLast(es: seq<Event>, k: int)
    requires es != []
    ensures var before, e := OwnTrack(es[..|es| - 1], k), es[|es| - 1];
            OwnTrack(es, k) ==
            if e.sensor != k then before
            else if before.None? || !Known(k) then None
            else Touch(before.value, e)
  {
    var front, e := es[..|es| - 1], es[|es| - 1];
    if e.sensor == k {
      assert Own(es, k)[..|Own(es, k)| - 1] == Own(front, k);
    } else {
      assert Own(es, k) == Own(front, k);
    }
  }

  ghost predicate OwnTracksKept(es: seq<Event>) {
    forall k :: OwnTrack(es, k).Some?
  }

  predicate OwnTracksAre(es: seq<Event>, ts: seq<Track>) {
    |ts| == 3
    && OwnTrack(es, 1) == Some(ts[0]) && OwnTrack(es, 2) == Some(ts[1]) && OwnTrack(es, 3) == Some(ts[2])
  }

  /** Every track depends on the samples of its own sensor alone. */
  lemma {:induction false} TracksAreSeparate(es: seq<Event>)
    ensures RunTracks(es).Some? <==> OwnTracksKept(es)
    ensures RunTracks(es).Some? ==> OwnTracksAre(es, RunTracks(es).value)
  {
    if es != [] {
      var front, e := es[..|es| - 1], es[|es| - 1];
      TracksAreSeparate(front);
      forall k
        ensures OwnTrack(es, k).Some? ==> OwnTrack(front, k).Some?
        ensures e.sensor != k ==> OwnTrack(es, k) == OwnTrack(front, k)
      {
        OwnTrackLast(es, k);
      }
      OwnTrackLast(es, e.sensor);
      if RunTracks(front).Some? {
        assert OwnTrack(front, e.sensor).Some?;
        assert RunTracks(es).Some? <==> OwnTrack(es, e.sensor).Some?;
      } else {
        var k :| OwnTrack(front, k).None?;
        assert OwnTrack(es, k).None?;
      }
    }
  }

  /** The same samples per sensor, interleaved in any way. */
  ghost predicate SameBySensor(es: seq<Event>, fs: seq<Event>) {
    forall k :: Own(es, k) == Own(fs, k)
  }

  lemma InterleavingKeepsTracks(es: seq<Event>, fs: seq<Event>)
    requires SameBySensor(es, fs)
    ensures RunTracks(es) == RunTracks(fs)
  {
    TracksAreSeparate(es);
    TracksAreSeparate(fs);
    forall k
      ensures OwnTrack(es, k) == OwnTrack(fs, k)
    {
      assert Own(es, k) == Own(fs, k);
    }
    assert OwnTracksKept(es) <==> OwnTracksKept(fs);
    if RunTracks(es).Some? {
      SameOwnSameTracks(es, fs, RunTracks(es).value, RunTracks(fs).value);
    }
  }

  lemma SameOwnSameTracks(es: seq<Event>, fs: seq<Event>, ts: seq<Track>, us: seq<Track>)
    requires OwnTracksAre(es, ts) && OwnTracksAre(fs, us)
    requires forall k :: OwnTrack(es, k) == OwnTrack(fs, k)
    ensures ts == us
  {
    assert Some(ts[0]) == Some(us[0]) && Some(ts[1]) == Some(us[1]) && Some(ts[2]) == Some(us[2]);
  }

  /** The handle with which sensor 3 came last, 0 when it has not come. */
  function LastHandle(es: seq<Event>): nat {
    if es == [] then 0
    else if es[|es| - 1].sensor == 3 then es[|es| - 1].handle
    else LastHandle(es[..|es| - 1])
  }

  /** The handle of sensor 3 at the sample that completed the third lifecycle. */
  function CompletingHandle(es: seq<Event>): nat {
    if es == [] then 0
    else if Completes(es[..|es| - 1]) then CompletingHandle(es[..|es| - 1])
    else LastHandle(es)
  }

  lemma {:induction false} TrackHoldsLastHandle(es: seq<Event>)
    ensures RunTracks(es).Some? ==> RunTracks(es).value[2].handle == LastHandle(es)
  {
    if es != [] {
      TrackHoldsLastHandle(es[..|es| - 1]);
    }
  }

  lemma TerminalMeansComplete(es: seq<Event>)
    ensures RunTracks(es).Some? ==> (AllTerminal(RunTracks(es).value) <==> Completes(es))
  {
    TracksMeanStream(es);
    if RunTracks(es).Some? {
      var ts := RunTracks(es).value;
      assert Summarises(ts[0], es, 1) && Summarises(ts[1], es, 2) && Summarises(ts[2], es, 3);
      assert AllTerminal(ts) <==> ts[0].terminal && ts[1].terminal && ts[2].terminal;
    }
  }

  /** What a stream leads to, with the handle that sensor 3 has at its completion. */
  function Verdict(tracks: Option<seq<Track>>, complete: bool, lookup: nat, handle: nat): Outcome {
    match tracks
    case None => Failed
    case Some(ts) =>
      if !complete then Running(ts, false, 0)
      else if lookup == 0 || lookup != handle then Failed
      else Running(ts, true, 1)
  }

  /** The look-up is made at most once, at the sample that completes the third lifecycle, and
      is compared with the handle that sensor 3 has there, whatever handles it has elsewhere. */
  lemma {:induction false} OutcomeIsVerdict(es: seq<Event>, lookup: nat)
    ensures ObserveAll(START, es, lookup) == Verdict(RunTracks(es), Completes(es), lookup, CompletingHandle(es))
  {
    if es != [] {
      var front := es[..|es| - 1];
      OutcomeIsVerdict(front, lookup);
      TerminalMeansComplete(front);
      TerminalMeansComplete(es);
      TrackHoldsLastHandle(es);
      CompletesStays(es);
    }
  }

  lemma CompletesStays(es: seq<Event>)
    requires es != []
    ensures Completes(es[..|es| - 1]) ==> Completes(es)
  {
    OccursLast(es, 1, Disposed);
    OccursLast(es, 2, NoWriters);
    OccursLast(es, 3, Alive);
  }

  /** Which streams are accepted, and which complete. */
  lemma AcceptedIff(es: seq<Event>, lookup: nat)
    ensures !ObserveAll(START, es, lookup).Failed? <==>
              WellFormed(es) && (Completes(es) ==> lookup != 0 && lookup == CompletingHandle(es))
    ensures ObserveAll(START, es, lookup).Running? ==>
              (ObserveAll(START, es, lookup).done <==> Completes(es))
              && ObserveAll(START, es, lookup).lookups == if Completes(es) then 1 else 0
  {
    OutcomeIsVerdict(es, lookup);
    TracksMeanStream(es);
  }

  predicate SameOutcome(es: seq<Event>, fs: seq<Event>, lookup: nat) {
    ObserveAll(START, es, lookup) == ObserveAll(START, fs, lookup)
  }

  /** Acceptance, completion, tracks and look-ups depend on how the samples of different
      sensors are interleaved in one way only: through the handle that sensor 3 has when the
      third lifecycle completes. */
  lemma InterleavingMattersIff(es: seq<Event>, fs: seq<Event>)
    requires SameBySensor(es, fs)
    ensures (forall lookup: nat :: SameOutcome(es, fs, lookup)) <==>
              !WellFormed(es) || !Completes(es) || CompletingHandle(es) == CompletingHandle(fs)
  {
    TracksMeanStream(es);
    var a, b := CompletingHandle(es), CompletingHandle(fs);
    forall lookup: nat
      ensures SameOutcome(es, fs, lookup) <==>
                !WellFormed(es) || !Completes(es) || a == b || (lookup != a && lookup != b) || lookup == 0
    {
      InterleavedVerdict(es, fs, lookup);
    }
    var either := if a != 0 then a else b;
    assert SameOutcome(es, fs, either) ==> !WellFormed(es) || !Completes(es) || a == b;
  }

  lemma InterleavedVerdict(es: seq<Event>, fs: seq<Event>, lookup: nat)
    requires SameBySensor(es, fs)
    ensures ObserveAll(START, es, lookup) == Verdict(RunTracks(es), Completes(es), lookup, CompletingHandle(es))
    ensures ObserveAll(START, fs, lookup) == Verdict(RunTracks(es), Completes(es), lookup, CompletingHandle(fs))
  {
    InterleavingKeepsTracks(es, fs);
    TerminalMeansComplete(es);
    TerminalMeansComplete(fs);
    OutcomeIsVerdict(es, lookup);
    OutcomeIsVerdict(fs, lookup);
  }

  /** All samples of sensor 3 carry the handle h. */
  predicate OneHandle(es: seq<Event>, h: nat) {
    forall i :: 0 <= i < |es| && es[i].sensor == 3 ==> es[i].handle == h
  }

  lemma {:induction false} OneHandleCompletes(es: seq<Event>, h: nat)
    requires OneHandle(es, h)
    ensures Occurs(es, 3, Alive) ==> LastHandle(es) == h
    ensures Completes(es) ==> CompletingHandle(es) == h
  {
    if es != [] {
      var front := es[..|es| - 1];
      assert OneHandle(front, h);
      OneHandleCompletes(front, h);
      OccursLast(es, 3, Alive);
    }
  }

  /** When sensor 3 keeps its handle, as a handle that names the instance does, interleaving
      does not matter at all. */
  lemma InterleavingKeepsOutcome(es: seq<Event>, fs: seq<Event>, lookup: nat, h: nat)
    requires SameBySensor(es, fs) && OneHandle(es, h) && OneHandle(fs, h)
    ensures ObserveAll(START, es, lookup) == ObserveAll(START, fs, lookup)
  {
    InterleavingKeepsTracks(es, fs);
    OutcomeIsVerdict(es, lookup);
    OutcomeIsVerdict(fs, lookup);
    TerminalMeansComplete(es);
    TerminalMeansComplete(fs);
    OneHandleCompletes(es, h);
    OneHandleCompletes(fs, h);
  }
}
