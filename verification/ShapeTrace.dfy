/** What the traces of the shape publisher look like, and what a reader may rely on. */
module ShapeTrace {
  import opened Arithmetic
  import opened ShapeKeys
  import opened ShapePublisher

  /** Writes in one window. */
  function PerWindow(o: Options): nat {
    o.topics * o.instances * Cell(o)
  }

  function Place(o: Options, topic: nat, inst: nat, s: nat): nat {
    (topic * o.instances + inst) * Cell(o) + s
  }

  lemma {:induction false} SamplesLength(o: Options, w: World, it: nat, topic: nat, inst: nat, s: nat)
    ensures |Samples(o, w, it, topic, inst, s)| == Place(o, topic, inst, s)
    decreases topic, inst, s
  {
    if s > 0 {
      SamplesLength(o, w, it, topic, inst, s - 1);
    } else if inst > 0 {
      SamplesLength(o, w, it, topic, inst - 1, Cell(o));
      var q := topic * o.instances + inst - 1;
      assert (q + 1) * Cell(o) == q * Cell(o) + Cell(o);
    } else if topic > 0 {
      SamplesLength(o, w, it, topic - 1, o.instances, 0);
      assert topic * o.instances == (topic - 1) * o.instances + o.instances;
    }
  }

  predicate Before(topic: nat, inst: nat, s: nat, topic': nat, inst': nat, s': nat) {
    topic < topic' || (topic == topic' && (inst < inst' || (inst == inst' && s < s')))
  }

  /** Every sample sits where its coordinates say. */
  lemma {:induction false} SampleIsAt(o: Options, w: World, it: nat, topic: nat, inst: nat, s: nat,
                                      topic': nat, inst': nat, s': nat)
    requires inst < o.instances && s < Cell(o) && Before(topic, inst, s, topic', inst', s')
    ensures Place(o, topic, inst, s) < |Samples(o, w, it, topic', inst', s')|
    ensures Samples(o, w, it, topic', inst', s')[Place(o, topic, inst, s)] == Sample(o, w, it, topic, inst, s)
    decreases topic', inst', s'
  {
    if s' > 0 {
      SamplesLength(o, w, it, topic', inst', s' - 1);
      if (topic', inst', s' - 1) != (topic, inst, s) {
        SampleIsAt(o, w, it, topic, inst, s, topic', inst', s' - 1);
      }
    } else if inst' > 0 {
      SampleIsAt(o, w, it, topic, inst, s, topic', inst' - 1, Cell(o));
    } else {
      SampleIsAt(o, w, it, topic, inst, s, topic' - 1, o.instances, 0);
    }
  }

  /** The size that the documentation of the flags promises. */
  function PromisedSize(o: Options, it: nat, topic: nat, inst: nat, s: nat): int
    requires o.modulo > 0
  {
    if o.Gated() then 1 + (((it * o.topics + topic) * o.instances + inst) * o.samples + s) % o.modulo
    else 1 + it % o.modulo
  }

  /** With automatic sizes and any modulo short of INT_MAX, every sample of every window
      carries the size computed from its own coordinates. */
  lemma SizesFollowCoordinates(o: Options, w: World, it: nat, topic: nat, inst: nat, s: nat)
    requires o.shapesize == 0 && 0 < o.modulo < INT_MAX
    requires topic < o.topics && inst < o.instances && s < Cell(o)
    ensures var at := |Opening(o)| + Place(o, topic, inst, s);
            && at < |Window(o, w, it)|
            && Window(o, w, it)[at].Write?
            && Window(o, w, it)[at].topic == topic
            && Window(o, w, it)[at].color == Key(o.color, inst)
            && Window(o, w, it)[at].size == PromisedSize(o, it, topic, inst, s)
  {
    SampleIsAt(o, w, it, topic, inst, s, o.topics, 0, 0);
  }

  // ---- Brackets ----

  /** A recogniser of coherent sets: how many sets are closed and, inside one, how many
      writes it holds so far. */
  datatype Bracket = Outside(closed: nat) | Inside(closed: nat, writes: nat) | Broken

  function Feed(b: Bracket, e: Event, perSet: nat): Bracket {
    match (b, e)
    case (Outside(n), Begin) => Inside(n, 0)
    case (Inside(n, k), Write(_, _, _, _, _)) => Inside(n, k + 1)
    case (Inside(n, k), End) => if k == perSet then Outside(n + 1) else Broken
    case _ => Broken
  }

  function FeedAll(b: Bracket, es: seq<Event>, perSet: nat): Bracket {
    if es == [] then b else Feed(FeedAll(b, es[..|es| - 1], perSet), es[|es| - 1], perSet)
  }

  lemma {:induction false} FeedConcat(b: Bracket, es: seq<Event>, fs: seq<Event>, perSet: nat)
    ensures FeedAll(b, es + fs, perSet) == FeedAll(FeedAll(b, es, perSet), fs, perSet)
  {
    if fs == [] {
      assert es + fs == es;
    } else {
      var n := |fs| - 1;
      assert (es + fs)[..|es + fs| - 1] == es + fs[..n];
      FeedConcat(b, es, fs[..n], perSet);
    }
  }

  lemma {:induction false} FeedWrites(closed: nat, k: nat, es: seq<Event>, perSet: nat)
    requires forall i :: 0 <= i < |es| ==> es[i].Write?
    ensures FeedAll(Inside(closed, k), es, perSet) == Inside(closed, k + |es|)
  {
    if es != [] {
      FeedWrites(closed, k, es[..|es| - 1], perSet);
    }
  }

  lemma {:induction false} SamplesAreWrites(o: Options, w: World, it: nat, topic: nat, inst: nat, s: nat)
    ensures forall i :: 0 <= i < |Samples(o, w, it, topic, inst, s)| ==> Samples(o, w, it, topic, inst, s)[i].Write?
    decreases topic, inst, s
  {
    if s > 0 {
      SamplesAreWrites(o, w, it, topic, inst, s - 1);
    } else if inst > 0 {
      SamplesAreWrites(o, w, it, topic, inst - 1, Cell(o));
    } else if topic > 0 {
      SamplesAreWrites(o, w, it, topic - 1, o.instances, 0);
    }
  }

  /** Begin and End strictly alternate, every write lies in a set, and each closed set holds
      topics * instances * samples writes: a gated trace of n windows is n such sets. */
  lemma GatedTraceIsSets(o: Options, w: World, n: nat)
    requires o.Gated()
    ensures FeedAll(Outside(0), Trace(o, w, n), PerWindow(o)) == Outside(n)
  {
    forall it: nat, closed: nat
      ensures FeedAll(Outside(closed), Window(o, w, it), PerWindow(o)) == Outside(closed + 1)
    {
      WindowIsSet(o, w, it, closed);
    }
    SetsInARow(o, w, n, PerWindow(o));
  }

  lemma {:induction false} SetsInARow(o: Options, w: World, n: nat, per: nat)
    requires forall it: nat, closed: nat :: FeedAll(Outside(closed), Window(o, w, it), per) == Outside(closed + 1)
    ensures FeedAll(Outside(0), Trace(o, w, n), per) == Outside(n)
  {
    if n > 0 {
      SetsInARow(o, w, n - 1, per);
      FeedConcat(Outside(0), Trace(o, w, n - 1), Window(o, w, n - 1), per);
    }
  }

  lemma WindowIsSet(o: Options, w: World, it: nat, closed: nat)
    requires o.Gated()
    ensures FeedAll(Outside(closed), Window(o, w, it), PerWindow(o)) == Outside(closed + 1)
  {
    var samples := Samples(o, w, it, o.topics, 0, 0);
    SamplesLength(o, w, it, o.topics, 0, 0);
    SamplesAreWrites(o, w, it, o.topics, 0, 0);
    SetIsClosed(samples, closed);
  }

  lemma SetIsClosed(writes: seq<Event>, closed: nat)
    requires forall i :: 0 <= i < |writes| ==> writes[i].Write?
    ensures FeedAll(Outside(closed), [Begin] + writes + [End], |writes|) == Outside(closed + 1)
  {
    var per := |writes|;
    FeedConcat(Outside(closed), [Begin] + writes, [End], per);
    FeedConcat(Outside(closed), [Begin], writes, per);
    FeedOne(Outside(closed), Begin, per);
    FeedWrites(closed, 0, writes, per);
    FeedOne(Inside(closed, per), End, per);
  }

  lemma FeedOne(b: Bracket, e: Event, perSet: nat)
    ensures FeedAll(b, [e], perSet) == Feed(b, e, perSet)
  {
    assert [e][..0] == [];
    assert FeedAll(b, [], perSet) == b;
  }

  // ---- What a reader accepts ----

  predicate InBounds(e: Event) {
    e.Write? ==> 0 <= e.x < 320 && 0 <= e.y < 240 && e.size >= 1
  }

  predicate AllInBounds(es: seq<Event>) {
    forall i :: 0 <= i < |es| ==> InBounds(es[i])
  }

  /** How many sizes the first n iterations draw. */
  function Draws(o: Options, n: nat): nat {
    if o.Gated() then n * PerWindow(o) else n
  }

  predicate SizesStayPositive(o: Options, n: nat) {
    o.shapesize > 0 || (o.shapesize == 0 && (0 < o.modulo < INT_MAX || Draws(o, n) <= INT_MAX))
  }

  lemma DrawBound(o: Options, n: nat, it: nat, topic: nat, inst: nat, s: nat)
    requires it < n && topic < o.topics && inst < o.instances && s < Cell(o)
    ensures Draw(o, it, topic, inst, s) < Draws(o, n)
  {
    var a := it * o.topics + topic;
    RowMajorBelow(it, n, topic, o.topics);
    RowMajorBelow(a, n * o.topics, inst, o.instances);
    RowMajorBelow(a * o.instances + inst, n * o.topics * o.instances, s, Cell(o));
    assert n * o.topics * o.instances * Cell(o) == n * (o.topics * o.instances * Cell(o));
  }

  lemma {:induction false} SamplesInBounds(o: Options, w: World, n: nat, it: nat, topic: nat, inst: nat, s: nat)
    requires o.Valid() && SizesStayPositive(o, n) && it < n
    requires topic <= o.topics && inst <= o.instances && s <= Cell(o)
    requires (topic == o.topics ==> inst == 0 && s == 0) && (inst == o.instances ==> s == 0)
    ensures AllInBounds(Samples(o, w, it, topic, inst, s))
    decreases topic, inst, s
  {
    if s > 0 {
      SamplesInBounds(o, w, n, it, topic, inst, s - 1);
      DrawBound(o, n, it, topic, inst, s - 1);
    } else if inst > 0 {
      SamplesInBounds(o, w, n, it, topic, inst - 1, Cell(o));
    } else if topic > 0 {
      SamplesInBounds(o, w, n, it, topic - 1, o.instances, 0);
    }
  }

  lemma {:induction false} TraceInBounds(o: Options, w: World, n: nat, k: nat)
    requires o.Valid() && SizesStayPositive(o, n) && k <= n
    ensures AllInBounds(Trace(o, w, k))
  {
    if k > 0 {
      TraceInBounds(o, w, n, k - 1);
      SamplesInBounds(o, w, n, k - 1, o.topics, 0, 0);
    }
  }

  lemma {:induction false} WindowOfTrace(o: Options, w: World, n: nat, it: nat)
    requires it < n && AllInBounds(Trace(o, w, n))
    ensures AllInBounds(Window(o, w, it))
  {
    var before, last := Trace(o, w, n - 1), Window(o, w, n - 1);
    assert Trace(o, w, n) == before + last;
    if it < n - 1 {
      assert before == (before + last)[..|before|];
      WindowOfTrace(o, w, n - 1, it);
    } else {
      assert last == (before + last)[|before|..];
    }
  }

  lemma Coordinates(q: nat, m: nat) returns (i: nat, j: nat)
    requires m > 0
    ensures j < m && q == i * m + j
    ensures forall n: nat :: q < n * m ==> i < n
  {
    i, j := q / m, q % m;
    forall n: nat | q < n * m
      ensures i < n
    {
      if i >= n {
        Scale(n, i, m);
      }
    }
  }

  /** Every draw up to the last is some sample's. */
  lemma DrawIsReached(o: Options, n: nat, k: nat) returns (it: nat, topic: nat, inst: nat, s: nat)
    requires PerWindow(o) > 0 && k < Draws(o, n)
    ensures it < n && topic < o.topics && inst < o.instances && s < Cell(o)
    ensures Draw(o, it, topic, inst, s) == k
  {
    assert o.topics > 0 && o.instances > 0 && Cell(o) > 0;
    if o.Gated() {
      assert n * (o.topics * o.instances * Cell(o)) == n * o.topics * o.instances * Cell(o);
      var q, r;
      q, s := Coordinates(k, Cell(o));
      r, inst := Coordinates(q, o.instances);
      it, topic := Coordinates(r, o.topics);
      assert q < n * o.topics * o.instances;
      assert r < n * o.topics;
    } else {
      it, topic, inst, s := k, 0, 0, 0;
    }
  }

  /** Readers accept every sample of a run exactly when the configured size is positive, or
      automatic and either cycling or not yet past the largest 32-bit value. */
  lemma ReadersAcceptIff(o: Options, w: World, n: nat)
    requires o.Valid() && n > 0 && PerWindow(o) > 0
    ensures AllInBounds(Trace(o, w, n)) <==> SizesStayPositive(o, n)
  {
    if SizesStayPositive(o, n) {
      TraceInBounds(o, w, n, n);
    } else {
      var bad := if o.shapesize == 0 then INT_MAX else 0;
      assert Draws(o, n) > 0 by {
        Scale(1, n, PerWindow(o));
      }
      var it, topic, inst, s := DrawIsReached(o, n, bad);
      SampleIsAt(o, w, it, topic, inst, s, o.topics, 0, 0);
      var at := |Opening(o)| + Place(o, topic, inst, s);
      assert Window(o, w, it)[at] == Sample(o, w, it, topic, inst, s);
      assert !InBounds(Window(o, w, it)[at]);
      if AllInBounds(Trace(o, w, n)) {
        WindowOfTrace(o, w, n, it);
      }
    }
  }

  // ---- Retired keys ----

  lemma {:induction false} RetirementsLength(o: Options, topic: nat, inst: nat)
    ensures |Retirements(o, topic, inst)| == topic * o.instances + inst
    decreases topic, inst
  {
    if inst > 0 {
      RetirementsLength(o, topic, inst - 1);
    } else if topic > 0 {
      RetirementsLength(o, topic - 1, o.instances);
      assert topic * o.instances == (topic - 1) * o.instances + o.instances;
    }
  }

  lemma {:induction false} RetirementIsAt(o: Options, topic: nat, inst: nat, topic': nat, inst': nat)
    requires inst < o.instances && (topic < topic' || (topic == topic' && inst < inst'))
    ensures topic * o.instances + inst < |Retirements(o, topic', inst')|
    ensures Retirements(o, topic', inst')[topic * o.instances + inst] == Retire(topic, Key(o.color, inst), o.dispose)
    decreases topic', inst'
  {
    if inst' > 0 {
      RetirementsLength(o, topic', inst' - 1);
      if (topic', inst' - 1) != (topic, inst) {
        RetirementIsAt(o, topic, inst, topic', inst' - 1);
      }
    } else {
      RetirementIsAt(o, topic, inst, topic' - 1, o.instances);
    }
  }

  predicate RetiresKey(e: Event, topic: nat, color: string) {
    e.Retire? && e.topic == topic && e.color == color
  }

  predicate WritesKey(e: Event, topic: nat, color: string) {
    e.Write? && e.topic == topic && e.color == color
  }

  ghost predicate KeyIsRetired(o: Options, topic: nat, color: string) {
    exists i :: 0 <= i < |Retirements(o, o.topics, 0)| && RetiresKey(Retirements(o, o.topics, 0)[i], topic, color)
  }

  ghost predicate KeyIsWritten(o: Options, w: World, it: nat, topic: nat, color: string) {
    exists i :: 0 <= i < |Window(o, w, it)| && WritesKey(Window(o, w, it)[i], topic, color)
  }

  predicate KeyOf(o: Options, inst: nat, color: string) {
    inst < o.instances && Key(o.color, inst) == color
  }

  lemma {:induction false} RetiredFrom(o: Options, topic: nat, inst: nat, i: nat) returns (topic': nat, inst': nat)
    requires topic <= o.topics && inst <= o.instances && (topic == o.topics ==> inst == 0)
    requires i < |Retirements(o, topic, inst)|
    ensures topic' < o.topics && inst' < o.instances && i == topic' * o.instances + inst'
    ensures Retirements(o, topic, inst)[i] == Retire(topic', Key(o.color, inst'), o.dispose)
    decreases topic, inst
  {
    if inst > 0 {
      RetirementsLength(o, topic, inst - 1);
      if i == |Retirements(o, topic, inst - 1)| {
        topic', inst' := topic, inst - 1;
      } else {
        topic', inst' := RetiredFrom(o, topic, inst - 1, i);
      }
    } else {
      topic', inst' := RetiredFrom(o, topic - 1, o.instances, i);
    }
  }

  lemma {:induction false} WrittenFrom(o: Options, w: World, it: nat, topic: nat, inst: nat, s: nat, i: nat)
    returns (topic': nat, inst': nat)
    requires topic <= o.topics && inst <= o.instances
    requires topic == o.topics ==> inst == 0 && s == 0
    requires inst == o.instances ==> s == 0
    requires i < |Samples(o, w, it, topic, inst, s)|
    ensures topic' < o.topics && inst' < o.instances
    ensures WritesKey(Samples(o, w, it, topic, inst, s)[i], topic', Key(o.color, inst'))
    decreases topic, inst, s
  {
    if s > 0 {
      if i == |Samples(o, w, it, topic, inst, s - 1)| {
        topic', inst' := topic, inst;
      } else {
        topic', inst' := WrittenFrom(o, w, it, topic, inst, s - 1, i);
      }
    } else if inst > 0 {
      topic', inst' := WrittenFrom(o, w, it, topic, inst - 1, Cell(o), i);
    } else {
      topic', inst' := WrittenFrom(o, w, it, topic - 1, o.instances, 0, i);
    }
  }

  lemma RetiredKeys(o: Options, topic: nat, color: string)
    ensures KeyIsRetired(o, topic, color) <==> topic < o.topics && exists inst: nat :: KeyOf(o, inst, color)
  {
    if topic < o.topics && exists inst: nat :: KeyOf(o, inst, color) {
      var inst: nat :| KeyOf(o, inst, color);
      RetirementIsAt(o, topic, inst, o.topics, 0);
      assert RetiresKey(Retirements(o, o.topics, 0)[topic * o.instances + inst], topic, color);
    }
    if KeyIsRetired(o, topic, color) {
      var i :| 0 <= i < |Retirements(o, o.topics, 0)| && RetiresKey(Retirements(o, o.topics, 0)[i], topic, color);
      var topic', inst' := RetiredFrom(o, o.topics, 0, i);
      assert KeyOf(o, inst', color);
    }
  }

  lemma WrittenKeys(o: Options, w: World, it: nat, topic: nat, color: string)
    requires o.Valid()
    ensures KeyIsWritten(o, w, it, topic, color) <==> topic < o.topics && exists inst: nat :: KeyOf(o, inst, color)
  {
    if topic < o.topics && exists inst: nat :: KeyOf(o, inst, color) {
      var inst: nat :| KeyOf(o, inst, color);
      KeyIsInWindow(o, w, it, topic, inst);
    }
    if KeyIsWritten(o, w, it, topic, color) {
      var i :| 0 <= i < |Window(o, w, it)| && WritesKey(Window(o, w, it)[i], topic, color);
      var topic', inst' := WindowWrites(o, w, it, i);
      assert KeyOf(o, inst', color);
    }
  }

  lemma KeyIsInWindow(o: Options, w: World, it: nat, topic: nat, inst: nat)
    requires o.Valid() && topic < o.topics && inst < o.instances
    ensures KeyIsWritten(o, w, it, topic, Key(o.color, inst))
  {
    SampleIsAt(o, w, it, topic, inst, 0, o.topics, 0, 0);
    var at := |Opening(o)| + Place(o, topic, inst, 0);
    assert Window(o, w, it)[at] == Sample(o, w, it, topic, inst, 0);
    assert WritesKey(Window(o, w, it)[at], topic, Key(o.color, inst));
  }

  lemma WindowWrites(o: Options, w: World, it: nat, i: nat) returns (topic: nat, inst: nat)
    requires i < |Window(o, w, it)| && Window(o, w, it)[i].Write?
    ensures topic < o.topics && inst < o.instances
    ensures WritesKey(Window(o, w, it)[i], topic, Key(o.color, inst))
  {
    var lead := |Opening(o)|;
    assert Window(o, w, it)[i] == Samples(o, w, it, o.topics, 0, 0)[i - lead];
    topic, inst := WrittenFrom(o, w, it, o.topics, 0, 0, i - lead);
  }

  /** The final loop retires exactly the keys that every iteration writes, topic by topic. */
  lemma RetiredKeysAreWrittenKeys(o: Options, w: World, it: nat, topic: nat, color: string)
    requires o.Valid()
    ensures KeyIsRetired(o, topic, color) <==> KeyIsWritten(o, w, it, topic, color)
  {
    RetiredKeys(o, topic, color);
    WrittenKeys(o, w, it, topic, color);
  }

  ghost predicate RetiredOnce(o: Options) {
    var all := Retirements(o, o.topics, 0);
    forall i, j, topic, color | 0 <= i < |all| && 0 <= j < |all|
      && RetiresKey(all[i], topic, color) && RetiresKey(all[j], topic, color) :: i == j
  }

  /** No key is retired twice exactly when the keys of the instances are distinct, which
      the length limit on colours decides. */
  lemma KeysRetiredOnceIff(o: Options)
    requires o.topics > 0
    ensures RetiredOnce(o) <==> o.instances <= 1 || |o.color| + |Decimal(o.instances - 1)| <= COLOR_LIMIT
  {
    KeysDistinctIff(o.color, o.instances);
    var all := Retirements(o, o.topics, 0);
    if KeysDistinct(o.color, o.instances) {
      forall i, j, topic, color | 0 <= i < |all| && 0 <= j < |all|
          && RetiresKey(all[i], topic, color) && RetiresKey(all[j], topic, color)
        ensures i == j
      {
        SameKeySamePlace(o, i, j, topic, color);
      }
    } else {
      var a: nat, b: nat :| a < b < o.instances && Key(o.color, a) == Key(o.color, b);
      KeyRetiredTwice(o, a, b);
    }
  }

  lemma SameKeySamePlace(o: Options, i: nat, j: nat, topic: nat, color: string)
    requires KeysDistinct(o.color, o.instances)
    requires i < |Retirements(o, o.topics, 0)| && j < |Retirements(o, o.topics, 0)|
    requires RetiresKey(Retirements(o, o.topics, 0)[i], topic, color)
    requires RetiresKey(Retirements(o, o.topics, 0)[j], topic, color)
    ensures i == j
  {
    var t, a := RetiredFrom(o, o.topics, 0, i);
    var u, b := RetiredFrom(o, o.topics, 0, j);
    assert Key(o.color, a) == Key(o.color, b);
  }

  lemma FirstTopicAt(o: Options, inst: nat)
    requires o.topics > 0 && inst < o.instances
    ensures inst < |Retirements(o, o.topics, 0)|
    ensures Retirements(o, o.topics, 0)[inst] == Retire(0, Key(o.color, inst), o.dispose)
  {
    RetirementIsAt(o, 0, inst, o.topics, 0);
    assert 0 * o.instances + inst == inst;
  }

  lemma KeyRetiredTwice(o: Options, a: nat, b: nat)
    requires o.topics > 0 && a < b < o.instances && Key(o.color, a) == Key(o.color, b)
    ensures !RetiredOnce(o)
  {
    var all, color := Retirements(o, o.topics, 0), Key(o.color, a);
    FirstTopicAt(o, a);
    FirstTopicAt(o, b);
    assert RetiresKey(all[a], 0, color) && RetiresKey(all[b], 0, color);
  }
}
