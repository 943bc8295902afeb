/** From the publisher's write loops to the reader's content checks. */
module ShapeLink {
  import P = ShapePublisher
  import T = ShapeTrace
  import R = ShapeReader

  /** How instance handles identify colours is the middleware's affair. */
  ghost predicate HandlesIdentifyColors(handleOf: string -> nat) {
    forall a, b :: handleOf(a) == handleOf(b) ==> a == b
  }

  /** The samples of a trace as they are taken, in the order in which they were written. */
  function Received(es: seq<P.Event>, handleOf: string -> nat): seq<R.Sample> {
    if es == [] then []
    else
      var before, e := Received(es[..|es| - 1], handleOf), es[|es| - 1];
      if e.Write? then before + [R.Sample(handleOf(e.color), true, R.Alive, e.color, e.x, e.y, e.size)]
      else before
  }

  predicate AllInRange(ss: seq<R.Sample>) {
    forall i :: 0 <= i < |ss| ==> R.InRange(ss[i])
  }

  predicate Handled(ss: seq<R.Sample>, handleOf: string -> nat) {
    forall i :: 0 <= i < |ss| ==> ss[i].valid && ss[i].handle == handleOf(ss[i].color)
  }

  lemma LastInBounds(es: seq<P.Event>, e: P.Event, ss: seq<R.Sample>, s: R.Sample)
    ensures T.AllInBounds(es + [e]) <==> T.AllInBounds(es) && T.InBounds(e)
    ensures AllInRange(ss + [s]) <==> AllInRange(ss) && R.InRange(s)
  {
    assert forall i :: 0 <= i < |es| ==> (es + [e])[i] == es[i];
    assert (es + [e])[|es|] == e;
    assert forall i :: 0 <= i < |ss| ==> (ss + [s])[i] == ss[i];
    assert (ss + [s])[|ss|] == s;
  }

  lemma {:induction false} ReceivedSamples(es: seq<P.Event>, handleOf: string -> nat)
    ensures Handled(Received(es, handleOf), handleOf)
    ensures AllInRange(Received(es, handleOf)) <==> T.AllInBounds(es)
  {
    if es != [] {
      var n := |es| - 1;
      var e := es[n];
      ReceivedSamples(es[..n], handleOf);
      assert es == es[..n] + [e];
      var s := if e.Write? then R.Sample(handleOf(e.color), true, R.Alive, e.color, e.x, e.y, e.size)
               else R.Sample(0, false, R.Alive, "", 0, 0, 0);
      LastInBounds(es[..n], e, Received(es[..n], handleOf), s);
    }
  }

  /** The same events with any colours: those of the C port, cut at its limit, or those of
      the other ports, which are not. */
  predicate Recolored(es: seq<P.Event>, fs: seq<P.Event>) {
    |es| == |fs| && forall i :: 0 <= i < |es| ==> SameButColor(es[i], fs[i])
  }

  predicate SameButColor(e: P.Event, f: P.Event) {
    if e.Write? then f.Write? && (f.topic, f.x, f.y, f.size) == (e.topic, e.x, e.y, e.size) else !f.Write?
  }

  lemma RecoloredInBounds(es: seq<P.Event>, fs: seq<P.Event>)
    requires Recolored(es, fs)
    ensures T.AllInBounds(es) <==> T.AllInBounds(fs)
  {
    forall i | 0 <= i < |es|
      ensures T.InBounds(es[i]) <==> T.InBounds(fs[i])
    {
      assert SameButColor(es[i], fs[i]);
    }
  }

  /** Publisher to subscriber: everything that n iterations write, in whatever colours, passes
      the reader's colour and range checks exactly when the configured sizes stay positive. */
  lemma PublishedIsAcceptedIff(o: P.Options, w: P.World, n: nat, es: seq<P.Event>, handleOf: string -> nat)
    requires o.Valid() && n > 0 && T.PerWindow(o) > 0 && HandlesIdentifyColors(handleOf)
    requires Recolored(es, P.Trace(o, w, n))
    ensures R.Run(R.Java, map[], Received(es, handleOf)).ending == R.Drained <==> T.SizesStayPositive(o, n)
  {
    T.ReadersAcceptIff(o, w, n);
    RecoloredInBounds(es, P.Trace(o, w, n));
    ReceivedSamples(es, handleOf);
    R.JavaAcceptsIffStable(Received(es, handleOf));
  }
}
