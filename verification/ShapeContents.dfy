/** What stands where in the trace of a shape publisher, event by event, in terms of its options
    and the random draws alone. */
module ShapeContents {
  import opened Arithmetic
  import opened ShapeKeys
  import opened ShapePublisher
  import opened ShapeTrace

  /** Coherent or ordered access makes sets of iterations. */
  predicate InSets(o: Options) {
    o.coherent || o.ordered
  }

  function PerInstance(o: Options): nat {
    if InSets(o) then o.samples else 1
  }

  /** Events of one iteration, its begin and end included. */
  function IterationSize(o: Options): nat {
    o.topics * o.instances * PerInstance(o) + if InSets(o) then 2 else 0
  }

  lemma WindowSizeIs(o: Options, w: World, it: nat)
    ensures |Window(o, w, it)| == IterationSize(o)
  {
    SamplesLength(o, w, it, o.topics, 0, 0);
  }

  ghost predicate AllOfSize(o: Options, w: World, size: nat) {
    forall it: nat :: |Window(o, w, it)| == size
  }

  lemma OneMore(n: nat, size: nat)
    ensures (n + 1) * size == n * size + size
  {
  }

  lemma {:induction false} TraceSizeIs(o: Options, w: World, n: nat, size: nat)
    requires AllOfSize(o, w, size)
    ensures |Trace(o, w, n)| == n * size
  {
    if n > 0 {
      TraceSizeIs(o, w, n - 1, size);
      OneMore(n - 1, size);
    }
  }

  /** Iterations of one size stand in the trace one behind the other. */
  lemma {:induction false} EventIsAt(o: Options, w: World, n: nat, it: nat, size: nat, i: nat)
    requires AllOfSize(o, w, size) && it < n && i < size
    ensures it * size + i < |Trace(o, w, n)| && Trace(o, w, n)[it * size + i] == Window(o, w, it)[i]
  {
    assert Trace(o, w, n) == Trace(o, w, n - 1) + Window(o, w, n - 1);
    TraceSizeIs(o, w, n - 1, size);
    if it < n - 1 {
      EventIsAt(o, w, n - 1, it, size, i);
    }
  }

  lemma EventStandsAt(o: Options, w: World, n: nat, it: nat, i: nat)
    requires it < n && i < IterationSize(o)
    ensures it * IterationSize(o) + i < |Trace(o, w, n)| && i < |Window(o, w, it)|
    ensures Trace(o, w, n)[it * IterationSize(o) + i] == Window(o, w, it)[i]
  {
    forall k: nat
      ensures |Window(o, w, k)| == IterationSize(o)
    {
      WindowSizeIs(o, w, k);
    }
    EventIsAt(o, w, n, it, IterationSize(o), i);
  }

  /** A coherent set begins with its begin and ends with its end. */
  lemma BracketsAt(o: Options, w: World, n: nat, it: nat)
    requires it < n && InSets(o)
    ensures var (from, last) := (it * IterationSize(o), IterationSize(o) - 1);
            from + last < |Trace(o, w, n)| && Trace(o, w, n)[from] == Begin && Trace(o, w, n)[from + last] == End
  {
    WindowSizeIs(o, w, it);
    EventStandsAt(o, w, n, it, 0);
    EventStandsAt(o, w, n, it, IterationSize(o) - 1);
  }

  /** The number of the draw that a sample uses: its own number in sets, that of its iteration
      otherwise. */
  function DrawNumber(o: Options, it: nat, topic: nat, inst: nat, s: nat): nat {
    if InSets(o) then ((it * o.topics + topic) * o.instances + inst) * o.samples + s else it
  }

  /** What the k-th draw makes of a sample: the key is the base colour with the instance number
      (see KeyContents), the position is that of the draw, the size is the configured one or,
      when that is 0, the number of the draw plus one, cycling through a positive modulo or
      else wrapping around as 32-bit integers do. */
  predicate Carries(o: Options, w: World, e: Event, topic: nat, inst: nat, k: nat) {
    && e.Write? && e.topic == topic && e.color == Key(o.color, inst)
    && e.x == w.x(k) % 320 && e.y == w.y(k) % 240
    && (o.shapesize != 0 ==> e.size == o.shapesize)
    && (o.shapesize == 0 && 0 < o.modulo < 0x7fff_ffff ==> e.size == 1 + k % o.modulo)
    && (o.shapesize == 0 && (o.modulo <= 0 || o.modulo >= 0x7fff_ffff) ==>
          e.size == (1 + k + 0x8000_0000) % 0x1_0000_0000 - 0x8000_0000)
  }

  /** What every sample carries, for all options. */
  lemma SampleCarries(o: Options, w: World, it: nat, topic: nat, inst: nat, s: nat)
    ensures Carries(o, w, Sample(o, w, it, topic, inst, s), topic, inst, DrawNumber(o, it, topic, inst, s))
  {
  }

  /** Where in its iteration a sample stands. */
  function Offset(o: Options, topic: nat, inst: nat, s: nat): nat {
    (if InSets(o) then 1 else 0) + (topic * o.instances + inst) * PerInstance(o) + s
  }

  lemma SampleInWindow(o: Options, w: World, it: nat, topic: nat, inst: nat, s: nat)
    requires topic < o.topics && inst < o.instances && s < PerInstance(o)
    ensures Offset(o, topic, inst, s) < |Window(o, w, it)|
    ensures Window(o, w, it)[Offset(o, topic, inst, s)] == Sample(o, w, it, topic, inst, s)
  {
    SampleIsAt(o, w, it, topic, inst, s, o.topics, 0, 0);
    assert Offset(o, topic, inst, s) == |Opening(o)| + Place(o, topic, inst, s);
  }

  /** Every sample of every iteration stands at its place in the trace. */
  lemma SampleStandsAt(o: Options, w: World, n: nat, it: nat, topic: nat, inst: nat, s: nat)
    requires it < n && topic < o.topics && inst < o.instances && s < PerInstance(o)
    ensures var at := it * IterationSize(o) + Offset(o, topic, inst, s);
            at < |Trace(o, w, n)| && Trace(o, w, n)[at] == Sample(o, w, it, topic, inst, s)
  {
    SampleInWindow(o, w, it, topic, inst, s);
    WindowSizeIs(o, w, it);
    EventStandsAt(o, w, n, it, Offset(o, topic, inst, s));
  }

  /** The final loop names its keys topic by topic and instance by instance. */
  lemma RetirementContents(o: Options, topic: nat, inst: nat)
    requires topic < o.topics && inst < o.instances
    ensures topic * o.instances + inst < |Retirements(o, o.topics, 0)| == o.topics * o.instances
    ensures Retirements(o, o.topics, 0)[topic * o.instances + inst]
            == Retire(topic, Key(o.color, inst), o.dispose)
  {
    RetirementIsAt(o, topic, inst, o.topics, 0);
    RetirementsLength(o, o.topics, 0);
  }
}
