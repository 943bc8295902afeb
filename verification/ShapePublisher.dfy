/** The write loops of the shape publisher: which samples go out, in which order, between
    which coherent-set brackets and with which sizes. */
module ShapePublisher {
  import opened Arithmetic
  import opened ShapeKeys

  const INT_MAX := 0x7fff_ffff
  const INT_RANGE := 0x1_0000_0000

  /** `samples` is the effective sample count of a set, at least 1. */
  datatype Options = Options(color: string, topics: nat, instances: nat, samples: nat,
                             shapesize: int, modulo: int, coherent: bool, ordered: bool,
                             iterations: int, dispose: bool)
  {
    predicate Valid() {
      topics >= 1 && samples >= 1
      && -INT_MAX - 1 <= shapesize <= INT_MAX && -INT_MAX - 1 <= modulo <= INT_MAX
    }

    predicate Gated() {
      coherent || ordered
    }
  }

  /** What the outside answers: the k-th random pair, and whether the k-th write or
      retirement succeeds. */
  datatype World = World(x: nat -> nat, y: nat -> nat, writeOk: nat -> bool, retireOk: nat -> bool)

  datatype Event =
    | Begin
    | Write(topic: nat, color: string, x: nat, y: nat, size: int)
    | End
    | Retire(topic: nat, color: string, disposed: bool)

  // ---- Sizes ----

  function Wrap(z: int): (r: int)
    ensures -INT_MAX - 1 <= r <= INT_MAX
    ensures (z - r) % INT_RANGE == 0
    ensures -INT_MAX - 1 <= z <= INT_MAX ==> r == z
  {
    (z + INT_MAX + 1) % INT_RANGE - INT_MAX - 1
  }

  /** One step of the running counter. */
  function NextSize(modulo: int, size: int): int {
    var grown := Wrap(size + 1);
    if modulo > 0 && grown > modulo then 1 else grown
  }

  /** The k-th automatic size in closed form. A modulo of INT_MAX is never exceeded. */
  function AutoSize(modulo: int, k: nat): int {
    if 0 < modulo < INT_MAX then 1 + k % modulo else Wrap(1 + k)
  }

  lemma WrapStep(z: int)
    requires z >= 0
    ensures Wrap(Wrap(z) + 1) == Wrap(z + 1)
  {
    ModuloStep(z + INT_MAX + 1, INT_RANGE);
  }

  lemma AutoSizeStep(modulo: int, k: nat)
    requires modulo <= INT_MAX
    ensures AutoSize(modulo, k + 1) == NextSize(modulo, AutoSize(modulo, k))
    ensures AutoSize(modulo, 0) == 1
  {
    if 0 < modulo < INT_MAX {
      ModuloStep(k, modulo);
    } else {
      WrapStep(1 + k);
    }
  }

  /** Cycling through 1 to the modulo is what the counter does for every modulo but one. */
  lemma ModuloIsKept(modulo: int)
    requires 0 < modulo <= INT_MAX
    ensures (forall k: nat :: AutoSize(modulo, k) == 1 + k % modulo) <==> modulo != INT_MAX
  {
    if modulo == INT_MAX {
      assert AutoSize(modulo, INT_MAX) < 0;
    }
  }

  // ---- The samples of one iteration ----

  /** Samples written per topic and instance in one iteration. */
  function Cell(o: Options): nat {
    if o.Gated() then o.samples else 1
  }

  /** How many writes precede this one in the whole run. */
  function WriteIndex(o: Options, it: nat, topic: nat, inst: nat, s: nat): nat {
    ((it * o.topics + topic) * o.instances + inst) * Cell(o) + s
  }

  /** Sets count every sample, plain iterations share one size and one position. */
  function Draw(o: Options, it: nat, topic: nat, inst: nat, s: nat): nat {
    if o.Gated() then WriteIndex(o, it, topic, inst, s) else it
  }

  function Size(o: Options, k: nat): int {
    if o.shapesize == 0 then AutoSize(o.modulo, k) else o.shapesize
  }

  function Sample(o: Options, w: World, it: nat, topic: nat, inst: nat, s: nat): Event {
    var k := Draw(o, it, topic, inst, s);
    Write(topic, Key(o.color, inst), w.x(k) % 320, w.y(k) % 240, Size(o, k))
  }

  /** The samples of iteration `it` that precede the position (topic, inst, s). */
  function Samples(o: Options, w: World, it: nat, topic: nat, inst: nat, s: nat): seq<Event>
    decreases topic, inst, s
  {
    if s > 0 then Samples(o, w, it, topic, inst, s - 1) + [Sample(o, w, it, topic, inst, s - 1)]
    else if inst > 0 then Samples(o, w, it, topic, inst - 1, Cell(o))
    else if topic > 0 then Samples(o, w, it, topic - 1, o.instances, 0)
    else []
  }

  function Opening(o: Options): seq<Event> {
    if o.Gated() then [Begin] else []
  }

  function Closing(o: Options): seq<Event> {
    if o.Gated() then [End] else []
  }

  function Window(o: Options, w: World, it: nat): seq<Event> {
    Opening(o) + Samples(o, w, it, o.topics, 0, 0) + Closing(o)
  }

  /** Everything written in the first n iterations. */
  function Trace(o: Options, w: World, n: nat): seq<Event> {
    if n == 0 then [] else Trace(o, w, n - 1) + Window(o, w, n - 1)
  }

  /** Did every one of the calls numbered from `from` to before `to` succeed? */
  predicate AllOk(answers: nat -> bool, from: nat, to: nat) {
    forall k: nat :: from <= k < to ==> answers(k)
  }

  /** The number of the first write of an iteration. */
  function FirstWrite(o: Options, it: nat): nat {
    WriteIndex(o, it, 0, 0, 0)
  }

  /** What iteration `it` leaves behind when a write fails: the samples before the first one
      of its writes that did. */
  predicate StoppedAt(o: Options, w: World, it: nat, out: seq<Event>, topic: nat, inst: nat, s: nat) {
    && topic < o.topics && inst < o.instances && s < Cell(o)
    && AllOk(w.writeOk, FirstWrite(o, it), WriteIndex(o, it, topic, inst, s))
    && !w.writeOk(WriteIndex(o, it, topic, inst, s))
    && out == Opening(o) + Samples(o, w, it, topic, inst, s)
  }

  ghost predicate Stopped(o: Options, w: World, it: nat, out: seq<Event>) {
    exists topic, inst, s :: StoppedAt(o, w, it, out, topic, inst, s)
  }

  lemma NextCell(o: Options, it: nat, topic: nat, inst: nat)
    ensures WriteIndex(o, it, topic, inst, Cell(o)) == WriteIndex(o, it, topic, inst + 1, 0)
  {
    var q := (it * o.topics + topic) * o.instances + inst;
    assert (q + 1) * Cell(o) == q * Cell(o) + Cell(o);
  }

  lemma NextTopic(o: Options, it: nat, topic: nat)
    ensures WriteIndex(o, it, topic, o.instances, 0) == WriteIndex(o, it, topic + 1, 0, 0)
  {
    var q := it * o.topics + topic;
    assert (q + 1) * o.instances == q * o.instances + o.instances;
  }

  lemma NextIteration(o: Options, it: nat)
    ensures WriteIndex(o, it, o.topics, 0, 0) == WriteIndex(o, it + 1, 0, 0, 0)
  {
    assert (it + 1) * o.topics == it * o.topics + o.topics;
  }

  lemma FirstWriteOfAll(o: Options)
    ensures FirstWrite(o, 0) == 0
  {
  }

  lemma FirstWritesAscend(o: Options, it: nat, it': nat)
    requires it <= it'
    ensures FirstWrite(o, it) <= FirstWrite(o, it')
  {
    Scale(it, it', o.topics);
    Scale(it * o.topics, it' * o.topics, o.instances);
    Scale(it * o.topics * o.instances, it' * o.topics * o.instances, Cell(o));
  }

  /** Every write of an iteration comes before the first one of the next. */
  lemma WriteIsWithin(o: Options, it: nat, topic: nat, inst: nat, s: nat)
    requires topic < o.topics && inst < o.instances && s < Cell(o)
    ensures FirstWrite(o, it) <= WriteIndex(o, it, topic, inst, s) < FirstWrite(o, it + 1)
  {
    var a := it * o.topics + topic;
    RowMajorBelow(it, it + 1, topic, o.topics);
    RowMajorBelow(a, (it + 1) * o.topics, inst, o.instances);
    RowMajorBelow(a * o.instances + inst, (it + 1) * o.topics * o.instances, s, Cell(o));
    Scale(it * o.topics, a, o.instances);
    Scale(it * o.topics * o.instances, a * o.instances + inst, Cell(o));
  }

  /** The consecutive samples of one instance in a set, after what the set holds already. */
  method WriteInstance(o: Options, w: World, it: nat, topic: nat, inst: nat, out0: seq<Event>, size0: int)
    returns (out: seq<Event>, size: int, ok: bool)
    requires o.Valid() && o.Gated() && topic < o.topics && inst < o.instances
    requires out0 == [Begin] + Samples(o, w, it, topic, inst, 0)
    requires size0 == Size(o, WriteIndex(o, it, topic, inst, 0))
    requires AllOk(w.writeOk, FirstWrite(o, it), WriteIndex(o, it, topic, inst, 0))
    ensures ok ==> out == [Begin] + Samples(o, w, it, topic, inst, Cell(o))
    ensures ok ==> size == Size(o, WriteIndex(o, it, topic, inst, Cell(o)))
    ensures ok ==> AllOk(w.writeOk, FirstWrite(o, it), WriteIndex(o, it, topic, inst, Cell(o)))
    ensures !ok ==> Stopped(o, w, it, out)
  {
    out, size, ok := out0, size0, true;
    var color := Key(o.color, inst);
    var s := 0;
    while s < o.samples
      invariant 0 <= s <= o.samples && ok
      invariant out == [Begin] + Samples(o, w, it, topic, inst, s)
      invariant size == Size(o, WriteIndex(o, it, topic, inst, s))
      invariant AllOk(w.writeOk, FirstWrite(o, it), WriteIndex(o, it, topic, inst, s))
    {
      var k := WriteIndex(o, it, topic, inst, s);
      if !w.writeOk(k) {
        ok := false;
        assert StoppedAt(o, w, it, out, topic, inst, s);
        return;
      }
      out := out + [Write(topic, color, w.x(k) % 320, w.y(k) % 240, size)];
      if o.shapesize == 0 {
        AutoSizeStep(o.modulo, k);
        size := NextSize(o.modulo, size);
      }
      s := s + 1;
    }
  }

  /** One coherent set. The size that the running counter hands on is the closed form's. */
  method WriteSet(o: Options, w: World, it: nat, size0: int) returns (out: seq<Event>, size: int, ok: bool)
    requires o.Valid() && o.Gated() && size0 == Size(o, WriteIndex(o, it, 0, 0, 0))
    ensures ok ==> out == Window(o, w, it) && size == Size(o, FirstWrite(o, it + 1))
    ensures ok ==> AllOk(w.writeOk, FirstWrite(o, it), FirstWrite(o, it + 1))
    ensures !ok ==> Stopped(o, w, it, out)
  {
    out, size, ok := [Begin], size0, true;
    var topic := 0;
    while topic < o.topics
      invariant 0 <= topic <= o.topics && ok
      invariant out == [Begin] + Samples(o, w, it, topic, 0, 0)
      invariant size == Size(o, WriteIndex(o, it, topic, 0, 0))
      invariant AllOk(w.writeOk, FirstWrite(o, it), WriteIndex(o, it, topic, 0, 0))
    {
      var inst := 0;
      while inst < o.instances
        invariant 0 <= inst <= o.instances && ok
        invariant out == [Begin] + Samples(o, w, it, topic, inst, 0)
        invariant size == Size(o, WriteIndex(o, it, topic, inst, 0))
        invariant AllOk(w.writeOk, FirstWrite(o, it), WriteIndex(o, it, topic, inst, 0))
      {
        out, size, ok := WriteInstance(o, w, it, topic, inst, out, size);
        if !ok {
          return;
        }
        NextCell(o, it, topic, inst);
        inst := inst + 1;
      }
      NextTopic(o, it, topic);
      topic := topic + 1;
    }
    NextIteration(o, it);
    out := out + [End];
  }

  /** One plain iteration: one sample for each topic and instance, all of one size. */
  method WritePlain(o: Options, w: World, it: nat, size0: int) returns (out: seq<Event>, size: int, ok: bool)
    requires o.Valid() && !o.Gated() && size0 == Size(o, it)
    ensures ok ==> out == Window(o, w, it) && size == Size(o, it + 1)
    ensures ok ==> AllOk(w.writeOk, FirstWrite(o, it), FirstWrite(o, it + 1))
    ensures !ok ==> Stopped(o, w, it, out)
  {
    out, size, ok := [], size0, true;
    var x, y := w.x(it) % 320, w.y(it) % 240;
    var topic := 0;
    while topic < o.topics
      invariant 0 <= topic <= o.topics && ok
      invariant out == Samples(o, w, it, topic, 0, 0)
      invariant AllOk(w.writeOk, FirstWrite(o, it), WriteIndex(o, it, topic, 0, 0))
    {
      var inst := 0;
      while inst < o.instances
        invariant 0 <= inst <= o.instances && ok
        invariant out == Samples(o, w, it, topic, inst, 0)
        invariant AllOk(w.writeOk, FirstWrite(o, it), WriteIndex(o, it, topic, inst, 0))
      {
        if !w.writeOk(WriteIndex(o, it, topic, inst, 0)) {
          ok := false;
          assert StoppedAt(o, w, it, out, topic, inst, 0);
          return;
        }
        out := out + [Write(topic, Key(o.color, inst), x, y, size)];
        assert Samples(o, w, it, topic, inst + 1, 0) == Samples(o, w, it, topic, inst, 1);
        NextCell(o, it, topic, inst);
        inst := inst + 1;
      }
      NextTopic(o, it, topic);
      topic := topic + 1;
    }
    NextIteration(o, it);
    if o.shapesize == 0 {
      AutoSizeStep(o.modulo, it);
      size := NextSize(o.modulo, size);
    }
  }

  // ---- Retiring the keys ----

  /** The retirements that precede (topic, inst) in the final loop. */
  function Retirements(o: Options, topic: nat, inst: nat): seq<Event>
    decreases topic, inst
  {
    if inst > 0 then Retirements(o, topic, inst - 1) + [Retire(topic, Key(o.color, inst - 1), o.dispose)]
    else if topic > 0 then Retirements(o, topic - 1, o.instances)
    else []
  }

  function RetireIndex(o: Options, topic: nat, inst: nat): nat {
    topic * o.instances + inst
  }

  lemma NextRetiredTopic(o: Options, topic: nat)
    ensures RetireIndex(o, topic, o.instances) == RetireIndex(o, topic + 1, 0)
  {
    assert (topic + 1) * o.instances == topic * o.instances + o.instances;
  }

  /** What the final loop leaves behind when it stops at its first failure. */
  predicate RetireStoppedAt(o: Options, w: World, out: seq<Event>, topic: nat, inst: nat) {
    && topic < o.topics && inst < o.instances
    && AllOk(w.retireOk, 0, RetireIndex(o, topic, inst)) && !w.retireOk(RetireIndex(o, topic, inst))
    && out == Retirements(o, topic, inst)
  }

  method RetireAll(o: Options, w: World) returns (out: seq<Event>, ok: bool)
    ensures ok ==> out == Retirements(o, o.topics, 0) && AllOk(w.retireOk, 0, RetireIndex(o, o.topics, 0))
    ensures !ok ==> exists topic, inst :: RetireStoppedAt(o, w, out, topic, inst)
  {
    out, ok := [], true;
    var topic := 0;
    while topic < o.topics
      invariant 0 <= topic <= o.topics && ok
      invariant out == Retirements(o, topic, 0) && AllOk(w.retireOk, 0, RetireIndex(o, topic, 0))
    {
      var inst := 0;
      while inst < o.instances
        invariant 0 <= inst <= o.instances && ok
        invariant out == Retirements(o, topic, inst) && AllOk(w.retireOk, 0, RetireIndex(o, topic, inst))
      {
        if !w.retireOk(RetireIndex(o, topic, inst)) {
          ok := false;
          assert RetireStoppedAt(o, w, out, topic, inst);
          return;
        }
        out := out + [Retire(topic, Key(o.color, inst), o.dispose)];
        inst := inst + 1;
      }
      NextRetiredTopic(o, topic);
      topic := topic + 1;
    }
  }

  // ---- The outer loop ----

  /** What one round of the outer loop finds: an interrupt, the matched count of the first
      writer, and whether the match deadline has passed. */
  datatype Round = Round(interrupted: bool, matched: int, late: bool)

  datatype Exit = Finished | Interrupted | StillRunning | NotMatched | WriteFailed | RetireFailed

  /** How many of the first n rounds come before the first that finds a match. */
  function Leading(rounds: seq<Round>, n: nat): (r: nat)
    requires n <= |rounds|
    ensures r <= n
  {
    if n == 0 then 0
    else if Leading(rounds, n - 1) == n - 1 && rounds[n - 1].matched <= 0 then n
    else Leading(rounds, n - 1)
  }

  lemma {:induction false} LeadingIsFirstMatch(rounds: seq<Round>, n: nat)
    requires n <= |rounds|
    ensures forall i :: 0 <= i < Leading(rounds, n) ==> rounds[i].matched <= 0
    ensures Leading(rounds, n) < n ==> rounds[Leading(rounds, n)].matched > 0
  {
    if n > 0 {
      LeadingIsFirstMatch(rounds, n - 1);
    }
  }

  ghost predicate WriteFailedIn(o: Options, w: World, trace: seq<Event>, windows: nat) {
    exists out :: trace == Trace(o, w, windows) + out && Stopped(o, w, windows, out)
  }

  ghost predicate RetireFailedIn(o: Options, w: World, trace: seq<Event>, windows: nat) {
    exists out, topic, inst :: trace == Trace(o, w, windows) + out && RetireStoppedAt(o, w, out, topic, inst)
  }

  /** The size with which iteration `it` starts. */
  function StartSize(o: Options, it: nat): int {
    Size(o, if o.Gated() then WriteIndex(o, it, 0, 0, 0) else it)
  }

  method WriteIteration(o: Options, w: World, trace: seq<Event>, it: nat, size0: int)
    returns (trace': seq<Event>, size: int, ok: bool)
    requires o.Valid() && trace == Trace(o, w, it) && size0 == StartSize(o, it)
    ensures ok ==> trace' == Trace(o, w, it + 1) && size == StartSize(o, it + 1)
    ensures ok ==> AllOk(w.writeOk, FirstWrite(o, it), FirstWrite(o, it + 1))
    ensures !ok ==> WriteFailedIn(o, w, trace', it)
  {
    var out;
    if o.Gated() {
      out, size, ok := WriteSet(o, w, it, size0);
    } else {
      out, size, ok := WritePlain(o, w, it, size0);
    }
    trace' := trace + out;
  }

  method Finish(o: Options, w: World, trace: seq<Event>, windows: nat, exit0: Exit)
    returns (trace': seq<Event>, exit: Exit)
    requires trace == Trace(o, w, windows) && (exit0 == Finished || exit0 == Interrupted)
    ensures exit == exit0 || (exit == RetireFailed && o.iterations >= 0)
    ensures exit == exit0 && o.iterations >= 0 ==> AllOk(w.retireOk, 0, RetireIndex(o, o.topics, 0))
    ensures exit == exit0 ==>
              trace' == Trace(o, w, windows) + if o.iterations >= 0 then Retirements(o, o.topics, 0) else []
    ensures exit == RetireFailed ==> RetireFailedIn(o, w, trace', windows)
  {
    trace', exit := trace, exit0;
    if o.iterations >= 0 {
      var out, ok := RetireAll(o, w);
      trace' := trace' + out;
      if !ok {
        exit := RetireFailed;
        var topic, inst :| RetireStoppedAt(o, w, out, topic, inst);
        assert trace' == Trace(o, w, windows) + out;
      }
    }
  }

  /** How many windows the first n rounds write: a gated publisher lets the rounds before its
      first match pass. */
  function Windows(o: Options, rounds: seq<Round>, n: nat): nat
    requires n <= |rounds|
  {
    if o.Gated() then n - Leading(rounds, n) else n
  }

  /** Why the loop ends at this round, if it does so before writing anything: an interrupt,
      the configured number of windows, or a match that comes too late. */
  function StopsAt(o: Options, rounds: seq<Round>, n: nat): Exit
    requires n < |rounds|
  {
    if rounds[n].interrupted then Interrupted
    else if o.iterations >= 0 && Windows(o, rounds, n) >= o.iterations then Finished
    else if Leading(rounds, n + 1) == n + 1 && rounds[n].late then NotMatched
    else StillRunning
  }

  /** Does this round write a window? */
  predicate Writes(o: Options, rounds: seq<Round>, n: nat)
    requires n < |rounds|
  {
    StopsAt(o, rounds, n) == StillRunning && (o.Gated() ==> Leading(rounds, n + 1) <= n)
  }

  /** The loop stops at round n for this reason. A write can fail only in a round that
      writes, and thus under gating only after a match. */
  predicate StopsWith(o: Options, rounds: seq<Round>, n: nat, exit: Exit) {
    match exit
    case StillRunning => n == |rounds|
    case WriteFailed => n < |rounds| && Writes(o, rounds, n)
    case RetireFailed => false
    case _ => n < |rounds| && StopsAt(o, rounds, n) == exit
  }

  /** Some round up to this one has found a match. */
  predicate MatchedBy(rounds: seq<Round>, n: nat) {
    exists j :: 0 <= j <= n && j < |rounds| && rounds[j].matched > 0
  }

  /** How the loop has to leave, in the terms of its rounds alone: at the first interrupt; as
      finished with the configured windows written; as not matched at a round that is late
      with no match so far, which it never passes; as still running after all rounds. Sets
      wait for a match, plain iterations do not. Used to state results only. */
  predicate LeavesRightly(o: Options, rounds: seq<Round>, used: nat, exit: Exit, windows: nat) {
    && used <= |rounds|
    && (forall i :: 0 <= i < used ==> !rounds[i].interrupted && (rounds[i].late ==> MatchedBy(rounds, i)))
    && (exit == StillRunning <==> used == |rounds|)
    && (exit == Interrupted <==> used < |rounds| && rounds[used].interrupted)
    && (exit == Finished <==>
          used < |rounds| && !rounds[used].interrupted && o.iterations >= 0 && windows == o.iterations)
    && (exit == NotMatched <==>
          used < |rounds| && !rounds[used].interrupted && (o.iterations >= 0 ==> windows < o.iterations)
          && rounds[used].late && !MatchedBy(rounds, used))
    && (exit == WriteFailed && (o.coherent || o.ordered) ==> MatchedBy(rounds, used))
    && (!o.coherent && !o.ordered ==> windows == used)
    && (o.coherent || o.ordered ==> windows == MatchedRounds(rounds, used))
  }

  /** How many of the first n rounds come with or after the first match. */
  function MatchedRounds(rounds: seq<Round>, n: nat): nat {
    if n == 0 then 0 else MatchedRounds(rounds, n - 1) + if MatchedBy(rounds, n - 1) then 1 else 0
  }

  lemma {:induction false} LeadingMeans(rounds: seq<Round>, n: nat)
    requires n <= |rounds|
    ensures n > 0 ==> (Leading(rounds, n) < n <==> MatchedBy(rounds, n - 1))
    ensures MatchedRounds(rounds, n) == n - Leading(rounds, n)
  {
    if n > 0 {
      LeadingMeans(rounds, n - 1);
      if MatchedBy(rounds, n - 1) && Leading(rounds, n - 1) == n - 1 && n > 1 {
        assert !MatchedBy(rounds, n - 2);
      }
      assert rounds[n - 1].matched > 0 ==> MatchedBy(rounds, n - 1);
      assert n > 1 && MatchedBy(rounds, n - 2) ==> MatchedBy(rounds, n - 1);
    }
  }

  lemma ExitMeans(o: Options, rounds: seq<Round>, used: nat, exit: Exit)
    requires used <= |rounds| && StopsWith(o, rounds, used, exit)
    requires forall i :: 0 <= i < used ==> StopsAt(o, rounds, i) == StillRunning
    ensures LeavesRightly(o, rounds, used, exit, Windows(o, rounds, used))
  {
    forall i | 0 <= i < used
      ensures !rounds[i].interrupted && (rounds[i].late ==> MatchedBy(rounds, i))
    {
      assert StopsAt(o, rounds, i) == StillRunning;
      LeadingMeans(rounds, i + 1);
    }
    LeadingMeans(rounds, used);
    if o.iterations >= 0 {
      WindowsUpTo(o, rounds, used);
    }
    if used < |rounds| {
      LeadingMeans(rounds, used + 1);
    }
  }

  /** The outer loop goes through its rounds up to the first at which it has to stop. */
  method WriteLoop(o: Options, w: World, rounds: seq<Round>)
    returns (trace: seq<Event>, exit: Exit, windows: nat, used: nat)
    requires o.Valid()
    ensures used <= |rounds| && StopsWith(o, rounds, used, exit)
    ensures forall i :: 0 <= i < used ==> StopsAt(o, rounds, i) == StillRunning
    ensures windows == Windows(o, rounds, used) && LeavesRightly(o, rounds, used, exit, windows)
    ensures if exit == WriteFailed then WriteFailedIn(o, w, trace, windows) else trace == Trace(o, w, windows)
    ensures AllOk(w.writeOk, 0, FirstWrite(o, windows))
  {
    var size := if o.shapesize == 0 then 1 else o.shapesize;
    var matched := false;
    trace, exit, windows, used := [], StillRunning, 0, 0;
    AutoSizeStep(o.modulo, 0);
    FirstWriteOfAll(o);
    while used < |rounds|
      invariant 0 <= used <= |rounds| && exit == StillRunning
      invariant windows == Windows(o, rounds, used)
      invariant forall i :: 0 <= i < used ==> StopsAt(o, rounds, i) == StillRunning
      invariant matched <==> Leading(rounds, used) < used
      invariant trace == Trace(o, w, windows)
      invariant size == StartSize(o, windows)
      invariant AllOk(w.writeOk, 0, FirstWrite(o, windows))
    {
      var round := rounds[used];
      if round.interrupted || (o.iterations >= 0 && windows >= o.iterations) {
        exit := if round.interrupted then Interrupted else Finished;
        break;
      }
      matched := matched || round.matched > 0;
      if !matched && round.late {
        exit := NotMatched;
        break;
      }
      if !o.Gated() || matched {
        var ok;
        FirstWritesAscend(o, windows, windows + 1);
        trace, size, ok := WriteIteration(o, w, trace, windows, size);
        if !ok {
          exit := WriteFailed;
          break;
        }
        windows := windows + 1;
      }
      used := used + 1;
    }
    ExitMeans(o, rounds, used, exit);
  }

  /** The whole publisher: the loop and, in a finite run that it leaves, the retirements. */
  method Publish(o: Options, w: World, rounds: seq<Round>)
    returns (trace: seq<Event>, exit: Exit, windows: nat, used: nat)
    requires o.Valid()
    ensures used <= |rounds|
    ensures StopsWith(o, rounds, used, exit)
            || (exit == RetireFailed
                && (StopsWith(o, rounds, used, Finished) || StopsWith(o, rounds, used, Interrupted)))
    ensures forall i :: 0 <= i < used ==> StopsAt(o, rounds, i) == StillRunning
    ensures windows == Windows(o, rounds, used)
    ensures LeavesRightly(o, rounds, used, exit, windows)
            || (exit == RetireFailed && (LeavesRightly(o, rounds, used, Finished, windows)
                                         || LeavesRightly(o, rounds, used, Interrupted, windows)))
    ensures exit == StillRunning || exit == NotMatched ==> trace == Trace(o, w, windows)
    ensures exit == WriteFailed ==> WriteFailedIn(o, w, trace, windows)
    ensures exit == Finished || exit == Interrupted ==>
              trace == Trace(o, w, windows) + if o.iterations >= 0 then Retirements(o, o.topics, 0) else []
    ensures exit == RetireFailed ==> o.iterations >= 0 && RetireFailedIn(o, w, trace, windows)
    ensures AllOk(w.writeOk, 0, FirstWrite(o, windows))
    ensures (exit == Finished || exit == Interrupted) && o.iterations >= 0 ==>
              AllOk(w.retireOk, 0, RetireIndex(o, o.topics, 0))
  {
    trace, exit, windows, used := WriteLoop(o, w, rounds);
    if exit == Finished || exit == Interrupted {
      trace, exit := Finish(o, w, trace, windows, exit);
    }
  }

  // ---- What a run amounts to ----

  /** A finite run never writes more windows than configured, and it finishes exactly when it
      has written them all: a round further on is reached with every earlier one short. */
  lemma {:induction false} WindowsUpTo(o: Options, rounds: seq<Round>, n: nat)
    requires n <= |rounds| && o.iterations >= 0
    requires forall i :: 0 <= i < n ==> StopsAt(o, rounds, i) == StillRunning
    ensures Windows(o, rounds, n) <= o.iterations
  {
    if n > 0 {
      WindowsUpTo(o, rounds, n - 1);
      assert StopsAt(o, rounds, n - 1) == StillRunning;
    }
  }

  /** Nothing from outside cuts the run short: no interrupt, no match deadline that passes
      before the match, no failure. */
  ghost predicate Undisturbed(w: World, rounds: seq<Round>) {
    && (forall i :: 0 <= i < |rounds| ==>
          !rounds[i].interrupted && !(rounds[i].late && Leading(rounds, i + 1) == i + 1))
    && (forall k: nat :: w.writeOk(k) && w.retireOk(k))
  }

  lemma NothingFails(o: Options, w: World, rounds: seq<Round>, trace: seq<Event>, windows: nat)
    requires Undisturbed(w, rounds)
    ensures !WriteFailedIn(o, w, trace, windows) && !RetireFailedIn(o, w, trace, windows)
  {
  }

  /** A finite run that nothing cuts short writes exactly the configured number of windows and
      retires the keys if its rounds suffice for that, one more round being needed to notice;
      otherwise it is still running, with one window for each round from the first match on. */
  method PublishUndisturbed(o: Options, w: World, rounds: seq<Round>) returns (trace: seq<Event>, exit: Exit)
    requires o.Valid() && o.iterations >= 0 && Undisturbed(w, rounds)
    ensures exit == Finished <==> exists n :: 0 <= n < |rounds| && Windows(o, rounds, n) == o.iterations
    ensures exit == Finished ==> trace == Trace(o, w, o.iterations) + Retirements(o, o.topics, 0)
    ensures exit != Finished ==> exit == StillRunning && trace == Trace(o, w, Windows(o, rounds, |rounds|))
  {
    var windows, used;
    trace, exit, windows, used := Publish(o, w, rounds);
    NothingFails(o, w, rounds, trace, windows);
    WindowsUpTo(o, rounds, used);
    if exit == StillRunning {
      forall n | 0 <= n < |rounds|
        ensures Windows(o, rounds, n) != o.iterations
      {
        assert StopsAt(o, rounds, n) == StillRunning;
      }
    }
  }

  /** The loop is due to finish at round n. */
  predicate FinishesAt(o: Options, rounds: seq<Round>, n: nat) {
    && n < |rounds| && StopsAt(o, rounds, n) == Finished
    && forall i :: 0 <= i < n ==> StopsAt(o, rounds, i) == StillRunning
  }

  /** Every write and every retirement of a full finite run succeeds. */
  predicate AllCallsOk(o: Options, w: World)
    requires o.iterations >= 0
  {
    AllOk(w.writeOk, 0, FirstWrite(o, o.iterations)) && AllOk(w.retireOk, 0, RetireIndex(o, o.topics, 0))
  }

  /** A finite run finishes exactly when the loop is due to finish at some round and every
      one of its writes and retirements succeeds: a single failure ends it otherwise. */
  method PublishFinishes(o: Options, w: World, rounds: seq<Round>) returns (trace: seq<Event>, exit: Exit)
    requires o.Valid() && o.iterations >= 0
    ensures exit == Finished <==> (exists n: nat :: FinishesAt(o, rounds, n)) && AllCallsOk(o, w)
    ensures exit == Finished ==> trace == Trace(o, w, o.iterations) + Retirements(o, o.topics, 0)
  {
    var windows, used;
    trace, exit, windows, used := Publish(o, w, rounds);
    WindowsUpTo(o, rounds, used);
    if exit == Finished {
      assert FinishesAt(o, rounds, used);
    } else if AllCallsOk(o, w) {
      NothingFailsWhenAllOk(o, w, trace, windows);
      forall n: nat
        ensures !FinishesAt(o, rounds, n)
      {
        NoOtherFinish(o, rounds, used, exit, n);
      }
    }
  }

  lemma NoOtherFinish(o: Options, rounds: seq<Round>, used: nat, exit: Exit, n: nat)
    requires used <= |rounds| && forall i :: 0 <= i < used ==> StopsAt(o, rounds, i) == StillRunning
    requires StopsWith(o, rounds, used, exit) && exit != Finished && exit != WriteFailed
    ensures !FinishesAt(o, rounds, n)
  {
    var reason := if used < |rounds| then StopsAt(o, rounds, used) else exit;
    assert reason == exit;
  }

  lemma NothingFailsWhenAllOk(o: Options, w: World, trace: seq<Event>, windows: nat)
    requires o.iterations >= 0 && AllCallsOk(o, w)
    ensures windows < o.iterations ==> !WriteFailedIn(o, w, trace, windows)
    ensures !RetireFailedIn(o, w, trace, windows)
  {
    forall out, topic: nat, inst: nat, s: nat | windows < o.iterations
      ensures !StoppedAt(o, w, windows, out, topic, inst, s)
    {
      if topic < o.topics && inst < o.instances && s < Cell(o) {
        WriteIsWithin(o, windows, topic, inst, s);
        FirstWritesAscend(o, windows + 1, o.iterations);
      }
    }
    forall out, topic: nat, inst: nat
      ensures !RetireStoppedAt(o, w, out, topic, inst)
    {
      if topic < o.topics && inst < o.instances {
        RowMajorBelow(topic, o.topics, inst, o.instances);
      }
    }
  }

  /** Under gating nothing is written, not even a begin, before a round has seen a match. */
  lemma NothingBeforeMatch(o: Options, w: World, rounds: seq<Round>, used: nat, exit: Exit)
    requires o.Gated() && used <= |rounds| && StopsWith(o, rounds, used, exit)
    requires forall i :: 0 <= i < used ==> rounds[i].matched <= 0
    requires exit == WriteFailed ==> rounds[used].matched <= 0
    ensures exit != WriteFailed && Windows(o, rounds, used) == 0 && Trace(o, w, Windows(o, rounds, used)) == []
  {
    LeadingIsFirstMatch(rounds, used);
    if used < |rounds| {
      LeadingIsFirstMatch(rounds, used + 1);
    }
  }
}
