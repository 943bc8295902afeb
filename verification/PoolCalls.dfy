/** What the single calls on the shared pool do, in the terms of their callers: which requests
    are let in, who owns what afterwards, and what a call does that nobody disturbs. */
module PoolCalls {
  import opened BlockStack
  import opened PoolProtocol

  // ---- Entering a call ----

  /** A request is refused exactly when it is too long or asks for too much alignment;
      otherwise its thread goes for the lock. */
  lemma RequestIsLetIn(c: Config, ss: seq<State>, acts: seq<Action>, es: seq<Event>, k: nat)
    requires Run(c, ss, acts, es) && k < |acts| && acts[k].RequestAlloc?
    ensures var (t, len, alignment) := (acts[k].t, acts[k].len, acts[k].alignment);
            && t < |ss[k].pcs|
            && (len > c.blockSize || alignment > c.poolAlign ==> es[k] == Rejected(t) && ss[k + 1] == ss[k])
            && (len <= c.blockSize && alignment <= c.poolAlign ==>
                  es[k] == Internal && ss[k + 1] == ss[k].(pcs := ss[k].pcs[t := AllocLock]))
  {
    assert StepOf(c, ss[k], acts[k], es[k], ss[k + 1]);
  }

  /** A release of NULL does nothing; any other one takes its block out of the hands of its
      thread, which goes for the lock. */
  lemma ReleaseIsLetIn(c: Config, ss: seq<State>, acts: seq<Action>, es: seq<Event>, k: nat)
    requires Run(c, ss, acts, es) && k < |acts| && acts[k].RequestFree?
    ensures var (t, b) := (acts[k].t, acts[k].ptr);
            && t < |ss[k].pcs| && es[k] == Internal
            && (b == NULL ==> ss[k + 1] == ss[k])
            && (b != NULL ==>
                  && 0 <= b < |ss[k].place| && ss[k].place[b] == Owned(t)
                  && ss[k + 1] == ss[k].(pcs := ss[k].pcs[t := FreeLock(b)], place := ss[k].place[b := Moving(t)]))
  {
    assert StepOf(c, ss[k], acts[k], es[k], ss[k + 1]);
  }

  /** What owners do besides: any word into the first word of the block, without the lock, or
      the block to another thread. */
  lemma OwnersAct(c: Config, ss: seq<State>, acts: seq<Action>, es: seq<Event>, k: nat)
    requires Run(c, ss, acts, es) && k < |acts| && (acts[k].OwnerWrite? || acts[k].HandOver?)
    ensures var b := acts[k].block;
            && 0 <= b < |ss[k].place| == |ss[k].next| && ss[k].place[b] == Owned(acts[k].t) && es[k] == Internal
            && (acts[k].OwnerWrite? ==> ss[k + 1] == ss[k].(next := ss[k].next[b := acts[k].word]))
            && (acts[k].HandOver? ==> ss[k + 1] == ss[k].(place := ss[k].place[b := Owned(acts[k].to)]))
  {
    RunKeepsInv(c, ss, acts, es, k);
    assert StepOf(c, ss[k], acts[k], es[k], ss[k + 1]);
  }

  // ---- Who owns what ----

  /** The thread to which an allocation returns a block owns it then, and a block given back
      is free. */
  lemma ReturnsAreRecorded(c: Config, ss: seq<State>, acts: seq<Action>, es: seq<Event>, k: nat)
    requires Run(c, ss, acts, es) && k < |es|
    ensures es[k].AllocReturns? && es[k].ptr != NULL ==>
              0 <= es[k].ptr < |ss[k + 1].place| && ss[k + 1].place[es[k].ptr] == Owned(es[k].t)
    ensures es[k].FreeReturns? ==>
              0 <= es[k].ptr < |ss[k + 1].place| && ss[k + 1].place[es[k].ptr] == Free
    ensures es[k].AllocReturns? || es[k].FreeReturns? ==>
              acts[k] == Advance(es[k].t) && es[k].t < |ss[k + 1].pcs| && ss[k + 1].pcs[es[k].t] == Idle
  {
    assert StepOf(c, ss[k], acts[k], es[k], ss[k + 1]);
  }

  /** Only its owner ends the ownership of a block: by releasing it or handing it over. */
  lemma OwnershipIsKept(c: Config, ss: seq<State>, acts: seq<Action>, es: seq<Event>, k: nat, b: int, t: nat)
    requires Run(c, ss, acts, es) && k < |acts|
    requires 0 <= b < |ss[k].place| && ss[k].place[b] == Owned(t)
    ensures |ss[k + 1].place| == |ss[k].place|
    ensures ss[k + 1].place[b] == Owned(t) || acts[k] == RequestFree(t, b)
            || (acts[k].HandOver? && acts[k].t == t && acts[k].block == b && ss[k + 1].place[b] == Owned(acts[k].to))
  {
    RunKeepsInv(c, ss, acts, es, k);
    RunKeepsInv(c, ss, acts, es, k + 1);
    RunKeepsSize(c, ss, acts, es, k);
    RunKeepsSize(c, ss, acts, es, k + 1);
    assert StepOf(c, ss[k], acts[k], es[k], ss[k + 1]);
    StepKeepsOwner(c, ss[k], acts[k], Replay(ResetList(c.count), es[..k]), b, t);
  }

  lemma StepKeepsOwner(c: Config, s: State, a: Action, l: seq<int>, b: int, t: nat)
    requires Inv(s, l) && Enabled(s, a) && 0 <= b < |s.place| && s.place[b] == Owned(t)
    ensures var s' := Step(c, s, a).0;
            b < |s'.place| && (s'.place[b] == Owned(t) || a == RequestFree(t, b)
                               || (a.HandOver? && a.t == t && a.block == b && s'.place[b] == Owned(a.to)))
  {
    if a.Advance? && s.pcs[a.t].AllocUnlock? {
      assert HolderPc(s) == s.pcs[a.t];
      assert l != [] ==> l[0] in l;
    }
  }

  // ---- A call that nobody disturbs ----

  /** One thread steps on alone: states, its events, and nothing of other threads between. */
  predicate Alone(c: Config, t: nat, a: Action, ss: seq<State>, es: seq<Event>) {
    && |ss| == |es| + 1 && |es| > 0
    && StepOf(c, ss[0], a, es[0], ss[1])
    && (forall i {:trigger es[i]} :: 1 <= i < |es| ==> StepOf(c, ss[i], Advance(t), es[i], ss[i + 1]))
    && (forall i {:trigger es[i]} :: 0 <= i < |es| - 1 ==> es[i] == Internal)
  }

  lemma Onward(c: Config, t: nat, a: Action, ss: seq<State>, es: seq<Event>)
    returns (ss': seq<State>, es': seq<Event>)
    requires Alone(c, t, a, ss, es) && es[|es| - 1] == Internal && Enabled(ss[|ss| - 1], Advance(t))
    ensures Alone(c, t, a, ss', es') && ss'[0] == ss[0]
    ensures (ss'[|ss'| - 1], es'[|es'| - 1]) == Step(c, ss[|ss| - 1], Advance(t))
  {
    var (s', e) := Step(c, ss[|ss| - 1], Advance(t));
    ss', es' := ss + [s'], es + [e];
    forall i | 1 <= i < |es'|
      ensures StepOf(c, ss'[i], Advance(t), es'[i], ss'[i + 1])
    {
      if i < |es| {
        assert es'[i] == es[i];
      }
    }
    forall i | 0 <= i < |es'| - 1
      ensures es'[i] == Internal
    {
      assert es'[i] == es[i];
    }
  }

  /** From any state with the lock free an idle thread that makes a legal request and steps on
      alone comes back with the top of the stack as its own, or with NULL and nothing changed
      when there is none. */
  lemma AllocAlone(c: Config, s: State, l: seq<int>, t: nat, len: nat, alignment: nat)
    returns (ss: seq<State>, es: seq<Event>)
    requires Inv(s, l) && s.lock == Nobody && t < |s.pcs| && s.pcs[t] == Idle
    requires len <= c.blockSize && alignment <= c.poolAlign
    ensures Alone(c, t, RequestAlloc(t, len, alignment), ss, es) && ss[0] == s
    ensures es[|es| - 1] == AllocReturns(t, First(l))
    ensures l == [] ==> ss[|ss| - 1] == s
    ensures l != [] ==>
              0 <= l[0] < |s.place| && ss[|ss| - 1] == s.(head := First(l[1..]), place := s.place[l[0] := Owned(t)])
  {
    var a := RequestAlloc(t, len, alignment);
    ss, es := [s, Step(c, s, a).0], [Step(c, s, a).1];
    ss, es := Onward(c, t, a, ss, es);
    ss, es := Onward(c, t, a, ss, es);
    assert ss[|ss| - 1] ==
      s.(lock := Thread(t), pcs := s.pcs[t := if l == [] then AllocUnlock(NULL) else AllocReadNext(l[0])]) by {
      BackTo(s.pcs, t, AllocLock);
      BackTo(s.pcs, t, AllocReadHead);
    }
    if l != [] {
      assert l[0] in l;
      ss, es := AllocPops(c, s, l, t, a, ss, es);
    }
    ss, es := Onward(c, t, a, ss, es);
    BackTo(s.pcs, t, if l == [] then AllocUnlock(NULL) else AllocUnlock(l[0]));
  }

  /** Writing the program counter of a thread twice leaves the second value. */
  lemma BackTo(pcs: seq<Pc>, t: nat, pc: Pc)
    requires t < |pcs|
    ensures forall pc' {:trigger pcs[t := pc][t := pc']} :: pcs[t := pc][t := pc'] == pcs[t := pc']
    ensures pcs[t := pcs[t]] == pcs
  {
  }

  lemma AllocPops(c: Config, s: State, l: seq<int>, t: nat, a: Action, ss: seq<State>, es: seq<Event>)
    returns (ss': seq<State>, es': seq<Event>)
    requires Inv(s, l) && l != [] && t < |s.pcs| && s.lock == Nobody && 0 <= l[0] < |s.place|
    requires Alone(c, t, a, ss, es) && es[|es| - 1] == Internal
    requires ss[|ss| - 1] == s.(lock := Thread(t), pcs := s.pcs[t := AllocReadNext(l[0])])
    ensures Alone(c, t, a, ss', es') && es'[|es'| - 1] == Internal && ss'[0] == ss[0]
    ensures ss'[|ss'| - 1] == s.(lock := Thread(t), pcs := s.pcs[t := AllocUnlock(l[0])], head := First(l[1..]))
  {
    ss', es' := Onward(c, t, a, ss, es);
    ss', es' := Onward(c, t, a, ss', es');
    BackTo(s.pcs, t, AllocReadNext(l[0]));
    BackTo(s.pcs, t, AllocWriteHead(l[0], First(l[1..])));
  }

  /** A release that nobody disturbs puts its block on top of the stack. */
  lemma FreeAlone(c: Config, s: State, l: seq<int>, t: nat, b: int) returns (ss: seq<State>, es: seq<Event>)
    requires Inv(s, l) && s.lock == Nobody && t < |s.pcs| && s.pcs[t] == Idle
    requires 0 <= b < |s.place| && s.place[b] == Owned(t)
    ensures Alone(c, t, RequestFree(t, b), ss, es) && ss[0] == s
    ensures es[|es| - 1] == FreeReturns(t, b)
    ensures ss[|ss| - 1] == s.(head := b, next := s.next[b := First(l)], place := s.place[b := Free])
  {
    var a := RequestFree(t, b);
    ss, es := [s, Step(c, s, a).0], [Step(c, s, a).1];
    ss, es := Onward(c, t, a, ss, es);
    ss, es := Onward(c, t, a, ss, es);
    BackTo(s.pcs, t, FreeLock(b));
    BackTo(s.pcs, t, FreeReadHead(b));
    assert ss[|ss| - 1] == s.(lock := Thread(t), pcs := s.pcs[t := FreeWriteNext(b, First(l))],
                              place := s.place[b := Moving(t)]);
    ss, es := FreePushes(c, s, l, t, b, a, ss, es);
    ss, es := Onward(c, t, a, ss, es);
    BackTo(s.pcs, t, FreeUnlock(b));
  }

  lemma FreePushes(c: Config, s: State, l: seq<int>, t: nat, b: int, a: Action, ss: seq<State>, es: seq<Event>)
    returns (ss': seq<State>, es': seq<Event>)
    requires t < |s.pcs| && 0 <= b < |s.place| == |s.next|
    requires Alone(c, t, a, ss, es) && es[|es| - 1] == Internal
    requires ss[|ss| - 1] == s.(lock := Thread(t), pcs := s.pcs[t := FreeWriteNext(b, First(l))],
                                place := s.place[b := Moving(t)])
    ensures Alone(c, t, a, ss', es') && es'[|es'| - 1] == Internal && ss'[0] == ss[0]
    ensures ss'[|ss'| - 1] == s.(lock := Thread(t), pcs := s.pcs[t := FreeUnlock(b)], head := b,
                                 next := s.next[b := First(l)], place := s.place[b := Moving(t)])
  {
    ss', es' := Onward(c, t, a, ss, es);
    ss', es' := Onward(c, t, a, ss', es');
    BackTo(s.pcs, t, FreeWriteNext(b, First(l)));
    BackTo(s.pcs, t, FreeWriteHead(b));
  }
}
