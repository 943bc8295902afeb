/** The static pool shared by any number of threads: each load, store, lock and
    unlock of an allocation or a release is a step of its own, and the owner of a
    block may overwrite any part of it, its first word included, at any time. */
module PoolProtocol {
  import opened BlockStack

  /** Where a thread stands. Every constructor but the first names the access that
      the thread performs next. */
  datatype Pc =
    | Idle
    | AllocLock
    | AllocReadHead
    | AllocReadNext(node: int)
    | AllocWriteHead(node: int, nxt: int)
    | AllocUnlock(node: int)
    | FreeLock(block: int)
    | FreeReadHead(block: int)
    | FreeWriteNext(block: int, head: int)
    | FreeWriteHead(block: int)
    | FreeUnlock(block: int)

  datatype Holder = Nobody | Thread(t: nat)

  /** `Moving` from the call of a release until its unlock. */
  datatype Place = Free | Owned(who: nat) | Moving(who: nat)

  /** `head`, `next` (the first word of every block), `lock` and `pcs` are the
      program's own state; `place` records what the callers are entitled to. */
  datatype State = State(head: int, next: seq<int>, lock: Holder, pcs: seq<Pc>, place: seq<Place>)

  datatype Action =
    | RequestAlloc(t: nat, len: nat, alignment: nat)
    | RequestFree(t: nat, ptr: int)
    | Advance(t: nat)
    | OwnerWrite(t: nat, block: int, word: int)
    | HandOver(t: nat, block: int, to: nat)

  datatype Config = Config(count: nat, threads: nat, blockSize: nat, poolAlign: nat)

  function Init(c: Config): State {
    State(First(ResetList(c.count)), seq(c.count, i => i - 1), Nobody,
          seq(c.threads, _ => Idle), seq(c.count, _ => Free))
  }

  predicate IsBlock(s: State, b: int) {
    0 <= b < |s.next| && b < |s.place|
  }

  predicate Accepted(c: Config, len: nat, alignment: nat) {
    len <= c.blockSize && alignment <= c.poolAlign
  }

  /** The lock can be taken only when free; every other access needs its target to exist. */
  predicate CanAdvance(s: State, pc: Pc) {
    match pc
    case Idle => false
    case AllocLock => s.lock == Nobody
    case AllocReadHead => true
    case AllocReadNext(n) => IsBlock(s, n)
    case AllocWriteHead(_, _) => true
    case AllocUnlock(n) => n == NULL || IsBlock(s, n)
    case FreeLock(_) => s.lock == Nobody
    case FreeReadHead(_) => true
    case FreeWriteNext(b, _) => IsBlock(s, b)
    case FreeWriteHead(_) => true
    case FreeUnlock(b) => IsBlock(s, b)
  }

  /** A caller releases, overwrites or hands over only a block that it owns. */
  predicate Enabled(s: State, a: Action) {
    a.t < |s.pcs| &&
    match a
    case RequestAlloc(t, _, _) => s.pcs[t] == Idle
    case RequestFree(t, p) => s.pcs[t] == Idle && (p == NULL || (IsBlock(s, p) && s.place[p] == Owned(t)))
    case Advance(t) => CanAdvance(s, s.pcs[t])
    case OwnerWrite(t, b, _) => IsBlock(s, b) && s.place[b] == Owned(t)
    case HandOver(t, b, u) => u < |s.pcs| && IsBlock(s, b) && s.place[b] == Owned(t)
  }

  function AdvanceThread(s: State, t: nat): (State, Event)
    requires t < |s.pcs| && CanAdvance(s, s.pcs[t])
  {
    match s.pcs[t]
    case AllocLock => (s.(lock := Thread(t), pcs := s.pcs[t := AllocReadHead]), Internal)
    case AllocReadHead =>
      (s.(pcs := s.pcs[t := if s.head != NULL then AllocReadNext(s.head) else AllocUnlock(NULL)]), Internal)
    case AllocReadNext(n) => (s.(pcs := s.pcs[t := AllocWriteHead(n, s.next[n])]), Internal)
    case AllocWriteHead(n, x) => (s.(head := x, pcs := s.pcs[t := AllocUnlock(n)]), Internal)
    case AllocUnlock(n) =>
      (s.(lock := Nobody, pcs := s.pcs[t := Idle],
          place := if n == NULL then s.place else s.place[n := Owned(t)]),
       AllocReturns(t, n))
    case FreeLock(b) => (s.(lock := Thread(t), pcs := s.pcs[t := FreeReadHead(b)]), Internal)
    case FreeReadHead(b) => (s.(pcs := s.pcs[t := FreeWriteNext(b, s.head)]), Internal)
    case FreeWriteNext(b, h) => (s.(next := s.next[b := h], pcs := s.pcs[t := FreeWriteHead(b)]), Internal)
    case FreeWriteHead(b) => (s.(head := b, pcs := s.pcs[t := FreeUnlock(b)]), Internal)
    case FreeUnlock(b) =>
      (s.(lock := Nobody, pcs := s.pcs[t := Idle], place := s.place[b := Free]), FreeReturns(t, b))
  }

  function Step(c: Config, s: State, a: Action): (State, Event)
    requires Enabled(s, a)
  {
    match a
    case RequestAlloc(t, len, alignment) =>
      if Accepted(c, len, alignment) then (s.(pcs := s.pcs[t := AllocLock]), Internal) else (s, Rejected(t))
    case RequestFree(t, p) =>
      if p == NULL then (s, Internal)
      else (s.(pcs := s.pcs[t := FreeLock(p)], place := s.place[p := Moving(t)]), Internal)
    case Advance(t) => AdvanceThread(s, t)
    case OwnerWrite(t, b, w) => (s.(next := s.next[b := w]), Internal)
    case HandOver(t, b, u) => (s.(place := s.place[b := Owned(u)]), Internal)
  }

  // ---- The invariant ----

  predicate HoldsLock(pc: Pc) {
    !pc.Idle? && !pc.AllocLock? && !pc.FreeLock?
  }

  /** The block a release is working on, NULL when there is none. */
  function Releasing(pc: Pc): int {
    match pc
    case FreeLock(b) => b
    case FreeReadHead(b) => b
    case FreeWriteNext(b, _) => b
    case FreeWriteHead(b) => b
    case FreeUnlock(b) => b
    case _ => NULL
  }

  /** How the pool looks in memory while the lock holder stands at `pc` and the
      free blocks, counting completed calls only, are `l`. */
  predicate Layout(s: State, l: seq<int>, pc: Pc) {
    match pc
    case AllocReadNext(n) => l != [] && n == l[0] && s.head == l[0] && Linked(s.next, l)
    case AllocWriteHead(n, x) => l != [] && n == l[0] && s.head == l[0] && x == First(l[1..]) && Linked(s.next, l)
    case AllocUnlock(n) =>
      n == First(l) && Linked(s.next, After(l, AllocReturns(0, n))) && s.head == First(After(l, AllocReturns(0, n)))
    case FreeWriteNext(_, h) => h == First(l) && s.head == First(l) && Linked(s.next, l)
    case FreeWriteHead(b) =>
      IsBlock(s, b) && s.next[b] == First(l) && s.head == First(l) && Linked(s.next, l)
    case FreeUnlock(b) => IsBlock(s, b) && s.next[b] == First(l) && s.head == b && Linked(s.next, l)
    case _ => s.head == First(l) && Linked(s.next, l)
  }

  function HolderPc(s: State): Pc {
    match s.lock
    case Nobody => Idle
    case Thread(t) => if t < |s.pcs| then s.pcs[t] else Idle
  }

  /** One holder, and it is the one the lock names. */
  predicate LockOk(s: State) {
    && (forall t {:trigger s.pcs[t]} :: 0 <= t < |s.pcs| ==> (HoldsLock(s.pcs[t]) <==> s.lock == Thread(t)))
    && (s.lock.Thread? ==> s.lock.t < |s.pcs|)
  }

  /** The free list holds exactly the blocks that nobody owns or is releasing. */
  ghost predicate ListOk(place: seq<Place>, l: seq<int>) {
    && NoDup(l)
    && (forall b :: b in l <==> 0 <= b < |place| && place[b] == Free)
  }

  predicate NamesBlock(pc: Pc) {
    pc.FreeLock? || pc.FreeReadHead? || pc.FreeWriteNext? || pc.FreeWriteHead? || pc.FreeUnlock?
  }

  /** A block is moving exactly when one thread's release is carrying it. */
  predicate MovesOk(pcs: seq<Pc>, place: seq<Place>) {
    && (forall b {:trigger place[b]} :: 0 <= b < |place| && place[b].Moving? ==>
          place[b].who < |pcs| && NamesBlock(pcs[place[b].who]) && Releasing(pcs[place[b].who]) == b)
    && (forall t {:trigger pcs[t]} :: 0 <= t < |pcs| && NamesBlock(pcs[t]) ==>
          0 <= Releasing(pcs[t]) < |place| && place[Releasing(pcs[t])] == Moving(t))
    && (forall b {:trigger place[b]} :: 0 <= b < |place| && place[b].Owned? ==> place[b].who < |pcs|)
  }

  ghost predicate Inv(s: State, l: seq<int>) {
    && |s.place| == |s.next|
    && LockOk(s)
    && ListOk(s.place, l)
    && MovesOk(s.pcs, s.place)
    && Layout(s, l, HolderPc(s))
  }

  lemma InitInv(c: Config)
    ensures Inv(Init(c), ResetList(c.count))
  {
    var s, l := Init(c), ResetList(c.count);
    forall i | 0 <= i < |l|
      ensures 0 <= l[i] < |s.next| && s.next[l[i]] == First(l[i + 1..])
    {
      assert l[i] in l;
      assert l[i] == c.count - 1 - i;
    }
  }

  lemma StepKeepsLockOk(c: Config, s: State, a: Action, l: seq<int>)
    requires Inv(s, l) && Enabled(s, a)
    ensures LockOk(Step(c, s, a).0)
  {
  }

  lemma StepKeepsMovesOk(c: Config, s: State, a: Action, l: seq<int>)
    requires Inv(s, l) && Enabled(s, a)
    ensures MovesOk(Step(c, s, a).0.pcs, Step(c, s, a).0.place)
  {
    match a
    case RequestAlloc(t, len, alignment) =>
      if Accepted(c, len, alignment) {
        MovesKept(s.pcs, s.place, t, AllocLock);
      }
    case RequestFree(t, p) =>
    case OwnerWrite(_, _, _) =>
    case HandOver(_, b, u) =>
    case Advance(t) => AdvanceKeepsMoves(s, t, l);
  }

  lemma AdvanceKeepsMoves(s: State, t: nat, l: seq<int>)
    requires Inv(s, l) && t < |s.pcs| && CanAdvance(s, s.pcs[t])
    ensures MovesOk(AdvanceThread(s, t).0.pcs, AdvanceThread(s, t).0.place)
  {
    if s.pcs[t].AllocUnlock? {
      assert HolderPc(s) == s.pcs[t];
      assert s.pcs[t].node != NULL ==> s.pcs[t].node in l;
      MovesAfterAlloc(s.pcs, s.place, t, s.pcs[t].node);
    } else if s.pcs[t].FreeUnlock? {
      MovesAfterFree(s.pcs, s.place, t);
    } else {
      MovesKept(s.pcs, s.place, t, AdvanceThread(s, t).0.pcs[t]);
    }
  }

  lemma MovesKept(pcs: seq<Pc>, place: seq<Place>, t: nat, pc: Pc)
    requires MovesOk(pcs, place) && t < |pcs|
    requires NamesBlock(pc) == NamesBlock(pcs[t]) && Releasing(pc) == Releasing(pcs[t])
    ensures MovesOk(pcs[t := pc], place)
  {
  }

  lemma MovesAfterAlloc(pcs: seq<Pc>, place: seq<Place>, t: nat, n: int)
    requires MovesOk(pcs, place) && t < |pcs| && !NamesBlock(pcs[t])
    requires n == NULL || (0 <= n < |place| && place[n] == Free)
    ensures MovesOk(pcs[t := Idle], if n == NULL then place else place[n := Owned(t)])
  {
  }

  lemma MovesAfterFree(pcs: seq<Pc>, place: seq<Place>, t: nat)
    requires MovesOk(pcs, place) && t < |pcs| && NamesBlock(pcs[t])
    ensures MovesOk(pcs[t := Idle], place[Releasing(pcs[t]) := Free])
  {
  }

  lemma StepIsLegal(c: Config, s: State, a: Action, l: seq<int>)
    requires Inv(s, l) && Enabled(s, a)
    ensures Legal(l, Step(c, s, a).1)
    ensures ListOk(Step(c, s, a).0.place, After(l, Step(c, s, a).1))
  {
    if a.Advance? && s.pcs[a.t].AllocUnlock? {
      assert HolderPc(s) == s.pcs[a.t];
      if l != [] {
        PoppedIsLegal(s.place, l, a.t);
      }
    } else if a.Advance? && s.pcs[a.t].FreeUnlock? {
      PushedIsLegal(s.place, l, a.t, s.pcs[a.t].block);
    }
  }

  lemma PoppedIsLegal(place: seq<Place>, l: seq<int>, t: nat)
    requires ListOk(place, l) && l != []
    ensures l[0] in l && ListOk(place[l[0] := Owned(t)], After(l, AllocReturns(t, l[0])))
  {
    TailMembers(l);
  }

  lemma PushedIsLegal(place: seq<Place>, l: seq<int>, t: nat, b: int)
    requires ListOk(place, l) && 0 <= b < |place| && place[b] != Free
    ensures Legal(l, FreeReturns(t, b))
    ensures ListOk(place[b := Free], After(l, FreeReturns(t, b)))
  {
  }

  lemma StepKeepsLayout(c: Config, s: State, a: Action, l: seq<int>)
    requires Inv(s, l) && Enabled(s, a)
    ensures Layout(Step(c, s, a).0, After(l, Step(c, s, a).1), HolderPc(Step(c, s, a).0))
  {
    match a
    case RequestAlloc(t, _, _) =>
    case RequestFree(t, _) =>
    case HandOver(_, _, _) =>
    case OwnerWrite(_, b, w) => LayoutSurvivesOwner(s, b, w, l);
    case Advance(t) => AdvanceKeepsLayout(s, t, l);
  }

  lemma LayoutFrame(s: State, l: seq<int>, pc: Pc, b: int, w: int)
    requires Layout(s, l, pc) && NoDup(l)
    requires IsBlock(s, b) && b !in l && b != Releasing(pc)
    ensures Layout(s.(next := s.next[b := w]), l, pc)
  {
    if pc.AllocUnlock? {
      if l != [] {
        TailMembers(l);
        LinkedFrame(s.next, l[1..], b, w);
      }
    } else {
      LinkedFrame(s.next, l, b, w);
    }
  }

  /** A write to a block that some caller owns never reaches the free list. */
  lemma LayoutSurvivesOwner(s: State, b: int, w: int, l: seq<int>)
    requires Inv(s, l) && IsBlock(s, b) && s.place[b].Owned?
    ensures Layout(s.(next := s.next[b := w]), l, HolderPc(s))
  {
    LayoutFrame(s, l, HolderPc(s), b, w);
  }

  lemma AllocKeepsLayout(s: State, t: nat, l: seq<int>)
    requires LockOk(s) && Layout(s, l, HolderPc(s)) && t < |s.pcs| && CanAdvance(s, s.pcs[t])
    requires !NamesBlock(s.pcs[t])
    ensures Layout(AdvanceThread(s, t).0, After(l, AdvanceThread(s, t).1), HolderPc(AdvanceThread(s, t).0))
  {
    if s.pcs[t].AllocWriteHead? {
      LinkedTail(s.next, l);
    }
  }

  lemma FreeKeepsLayout(s: State, t: nat, l: seq<int>)
    requires LockOk(s) && Layout(s, l, HolderPc(s)) && t < |s.pcs| && CanAdvance(s, s.pcs[t])
    requires NamesBlock(s.pcs[t]) && Releasing(s.pcs[t]) !in l
    ensures Layout(AdvanceThread(s, t).0, After(l, AdvanceThread(s, t).1), HolderPc(AdvanceThread(s, t).0))
  {
    match s.pcs[t]
    case FreeWriteNext(b, h) => LinkedFrame(s.next, l, b, h);
    case FreeUnlock(b) => LinkedCons(s.next, b, l);
    case _ =>
  }

  lemma AdvanceKeepsLayout(s: State, t: nat, l: seq<int>)
    requires Inv(s, l) && t < |s.pcs| && CanAdvance(s, s.pcs[t])
    ensures Layout(AdvanceThread(s, t).0, After(l, AdvanceThread(s, t).1), HolderPc(AdvanceThread(s, t).0))
  {
    if NamesBlock(s.pcs[t]) {
      FreeKeepsLayout(s, t, l);
    } else {
      AllocKeepsLayout(s, t, l);
    }
  }

  lemma InvHolds(s: State, l: seq<int>)
    requires |s.place| == |s.next| && LockOk(s) && ListOk(s.place, l) && MovesOk(s.pcs, s.place)
    requires Layout(s, l, HolderPc(s))
    ensures Inv(s, l)
  {
  }

  lemma StepKeepsSizes(c: Config, s: State, a: Action)
    requires Enabled(s, a) && |s.place| == |s.next|
    ensures |Step(c, s, a).0.place| == |Step(c, s, a).0.next|
  {
  }

  /** Every access by any thread keeps the invariant, and a completed call does to the
      free blocks exactly what the same call does to the stack. */
  lemma StepRefinesStack(c: Config, s: State, a: Action, l: seq<int>)
    requires Inv(s, l) && Enabled(s, a)
    ensures var (s', e) := Step(c, s, a); Legal(l, e) && Inv(s', After(l, e))
  {
    StepKeepsLockOk(c, s, a, l);
    StepKeepsMovesOk(c, s, a, l);
    StepIsLegal(c, s, a, l);
    StepKeepsLayout(c, s, a, l);
    StepKeepsSizes(c, s, a);
    InvHolds(Step(c, s, a).0, After(l, Step(c, s, a).1));
  }

  // ---- Runs ----

  predicate StepOf(c: Config, s: State, a: Action, e: Event, s': State) {
    Enabled(s, a) && Step(c, s, a) == (s', e)
  }

  /** A run from the freshly reset pool: states, the actions between them, and the
      calls that each action completes. */
  predicate Run(c: Config, ss: seq<State>, acts: seq<Action>, es: seq<Event>) {
    && |ss| == |acts| + 1 == |es| + 1
    && ss[0] == Init(c)
    && forall i {:trigger acts[i]} :: 0 <= i < |acts| ==> StepOf(c, ss[i], acts[i], es[i], ss[i + 1])
  }

  /** At every point of every run the free blocks are those of the sequential stack
      after the calls completed so far. */
  lemma {:induction false} RunKeepsInv(c: Config, ss: seq<State>, acts: seq<Action>, es: seq<Event>, k: nat)
    requires Run(c, ss, acts, es) && k < |ss|
    ensures Inv(ss[k], Replay(ResetList(c.count), es[..k]))
    ensures forall i :: 0 <= i < k ==> LegalAt(ResetList(c.count), es, i)
  {
    var l := ResetList(c.count);
    if k == 0 {
      InitInv(c);
    } else {
      RunKeepsInv(c, ss, acts, es, k - 1);
      assert StepOf(c, ss[k - 1], acts[k - 1], es[k - 1], ss[k]);
      StepRefinesStack(c, ss[k - 1], acts[k - 1], Replay(l, es[..k - 1]));
      ReplayStep(l, es, k - 1);
      assert LegalAt(l, es, k - 1);
    }
  }

  /** Every concurrent run is a run of the stack: in the order in which the lock is
      given up, each call returns what the stack returns. */
  lemma RunRefinesStack(c: Config, ss: seq<State>, acts: seq<Action>, es: seq<Event>)
    requires Run(c, ss, acts, es)
    ensures LegalHistory(ResetList(c.count), es)
  {
    RunKeepsInv(c, ss, acts, es, |es|);
  }

  // ---- What every reachable state looks like ----

  /** The block that a call holds in a local variable and that is neither in the list
      in memory nor the caller's yet. */
  function Carried(pc: Pc): int {
    match pc
    case AllocUnlock(n) => n
    case FreeUnlock(_) => NULL
    case _ => Releasing(pc)
  }

  function Carriers(s: State, b: int): set<nat> {
    set t: nat | t < |s.pcs| && Carried(s.pcs[t]) == b
  }

  predicate OwnedBlock(s: State, b: int) {
    0 <= b < |s.place| && s.place[b].Owned?
  }

  /** The list that a walk from the head finds in memory, mid-call states included. */
  function ListInMemory(s: State, l: seq<int>): seq<int> {
    match HolderPc(s)
    case AllocUnlock(n) => After(l, AllocReturns(0, n))
    case FreeUnlock(b) => [b] + l
    case _ => l
  }

  lemma InMemory(s: State, l: seq<int>)
    requires Inv(s, l)
    ensures Linked(s.next, ListInMemory(s, l)) && s.head == First(ListInMemory(s, l))
    ensures NoDup(ListInMemory(s, l))
  {
    if HolderPc(s).FreeUnlock? {
      LinkedCons(s.next, HolderPc(s).block, l);
    }
    LinkedIsAcyclic(s.next, ListInMemory(s, l));
  }

  lemma InMemoryMembers(s: State, l: seq<int>, b: int)
    requires Inv(s, l) && 0 <= b < |s.place|
    ensures b in ListInMemory(s, l) <==>
              (s.place[b] == Free && !(HolderPc(s).AllocUnlock? && HolderPc(s).node == b))
              || (HolderPc(s).FreeUnlock? && HolderPc(s).block == b)
  {
    if HolderPc(s).AllocUnlock? && l != [] {
      TailMembers(l);
    }
  }

  lemma CarriersOf(s: State, l: seq<int>, b: int)
    requires Inv(s, l) && 0 <= b < |s.place|
    ensures Carriers(s, b) == ExpectedCarriers(s, b)
  {
    if HolderPc(s).AllocUnlock? && HolderPc(s).node == b {
      assert l[0] in l;
    }
    CarriersAre(s, b);
  }

  function ExpectedCarriers(s: State, b: int): set<nat>
    requires LockOk(s) && MovesOk(s.pcs, s.place) && 0 <= b < |s.place|
  {
    if HolderPc(s).AllocUnlock? && HolderPc(s).node == b then {s.lock.t}
    else if s.place[b].Moving? && !s.pcs[s.place[b].who].FreeUnlock? then {s.place[b].who}
    else {}
  }

  lemma CarriersAre(s: State, b: int)
    requires LockOk(s) && MovesOk(s.pcs, s.place) && 0 <= b < |s.place|
    requires HolderPc(s).AllocUnlock? && HolderPc(s).node == b ==> s.place[b] == Free
    ensures Carriers(s, b) == ExpectedCarriers(s, b)
  {
    forall t: nat
      ensures t in Carriers(s, b) <==> t in ExpectedCarriers(s, b)
    {
      if t < |s.pcs| {
        CarriesWhat(s, t, b);
      }
    }
  }

  lemma CarriesWhat(s: State, t: nat, b: int)
    requires LockOk(s) && MovesOk(s.pcs, s.place) && t < |s.pcs| && 0 <= b < |s.place|
    ensures Carried(s.pcs[t]) == b <==>
              (HolderPc(s).AllocUnlock? && HolderPc(s).node == b && t == s.lock.t)
              || (s.place[b] == Moving(t) && !s.pcs[t].FreeUnlock?)
  {
    assert HoldsLock(s.pcs[t]) <==> s.lock == Thread(t);
  }

  function One(b: bool): nat {
    if b then 1 else 0
  }

  lemma OnePlace(s: State, l: seq<int>, b: int)
    requires Inv(s, l) && 0 <= b < |s.place|
    ensures One(b in ListInMemory(s, l)) + One(OwnedBlock(s, b)) + |Carriers(s, b)| == 1
  {
    InMemoryMembers(s, l, b);
    CarriersOf(s, l, b);
    if s.place[b].Moving? {
      var t := s.place[b].who;
      assert HoldsLock(s.pcs[t]) <==> s.lock == Thread(t);
    }
    if HolderPc(s).AllocUnlock? && HolderPc(s).node == b {
      assert b in l;
    }
  }

  /** In every reachable state, owner writes included, every block is in exactly one
      place: in the list that a walk from the head finds, with one owner, or in the
      hands of exactly one call. The list is the only one the head leads into, and it
      has no cycle. */
  lemma EveryBlockInOnePlace(c: Config, ss: seq<State>, acts: seq<Action>, es: seq<Event>, k: nat)
    requires Run(c, ss, acts, es) && k < |ss|
    ensures var s := ss[k]; var free := ListInMemory(s, Replay(ResetList(c.count), es[..k]));
            && Linked(s.next, free) && First(free) == s.head && NoDup(free)
            && (forall m :: Linked(s.next, m) && First(m) == s.head ==> m == free)
            && |s.place| == c.count
            && forall b :: 0 <= b < c.count ==> One(b in free) + One(OwnedBlock(s, b)) + |Carriers(s, b)| == 1
  {
    var s, l := ss[k], Replay(ResetList(c.count), es[..k]);
    RunKeepsInv(c, ss, acts, es, k);
    RunKeepsSize(c, ss, acts, es, k);
    InMemory(s, l);
    forall m | Linked(s.next, m) && First(m) == s.head
      ensures m == ListInMemory(s, l)
    {
      WalkIsUnique(s.next, m, ListInMemory(s, l));
    }
    forall b | 0 <= b < c.count
      ensures One(b in ListInMemory(s, l)) + One(OwnedBlock(s, b)) + |Carriers(s, b)| == 1
    {
      OnePlace(s, l, b);
    }
  }

  lemma {:induction false} RunKeepsSize(c: Config, ss: seq<State>, acts: seq<Action>, es: seq<Event>, k: nat)
    requires Run(c, ss, acts, es) && k < |ss|
    ensures |ss[k].place| == c.count && |ss[k].pcs| == c.threads
  {
    if k > 0 {
      RunKeepsSize(c, ss, acts, es, k - 1);
      assert StepOf(c, ss[k - 1], acts[k - 1], es[k - 1], ss[k]);
    }
  }

  // ---- Counting the blocks ----

  function Blocks(n: nat): (r: set<int>)
    ensures |r| == n && forall b :: b in r <==> 0 <= b < n
  {
    if n == 0 then {} else Blocks(n - 1) + {n - 1}
  }

  function Elements(l: seq<int>): set<int> {
    set b | b in l
  }

  lemma {:induction false} DistinctElements(l: seq<int>)
    requires NoDup(l)
    ensures |Elements(l)| == |l|
  {
    if l != [] {
      TailMembers(l);
      DistinctElements(l[1..]);
      assert Elements(l) == Elements(l[1..]) + {l[0]};
    }
  }

  function OwnedBlocks(s: State): set<int> {
    set b | 0 <= b < |s.place| && OwnedBlock(s, b)
  }

  function CarriedBlocks(s: State): set<int> {
    set b | 0 <= b < |s.place| && Carriers(s, b) != {}
  }

  /** free + owned + in transit = block count, at every point of every run. */
  lemma BlocksAreConserved(c: Config, ss: seq<State>, acts: seq<Action>, es: seq<Event>, k: nat)
    requires Run(c, ss, acts, es) && k < |ss|
    ensures |ListInMemory(ss[k], Replay(ResetList(c.count), es[..k]))|
            + |OwnedBlocks(ss[k])| + |CarriedBlocks(ss[k])| == c.count
  {
    var s, l := ss[k], Replay(ResetList(c.count), es[..k]);
    EveryBlockInOnePlace(c, ss, acts, es, k);
    RunKeepsInv(c, ss, acts, es, k);
    var free := ListInMemory(s, l);
    DistinctElements(free);
    forall b | b in free
      ensures 0 <= b < c.count
    {
      assert exists i :: 0 <= i < |free| && free[i] == b;
    }
    forall b | 0 <= b < c.count
      ensures One(b in Elements(free)) + One(b in OwnedBlocks(s)) + One(b in CarriedBlocks(s)) == 1
    {
      OnePlace(s, l, b);
    }
    ThreeWaySplit(c.count, Elements(free), OwnedBlocks(s), CarriedBlocks(s));
  }

  lemma ThreeWaySplit(n: nat, x: set<int>, y: set<int>, z: set<int>)
    requires forall b :: b in x || b in y || b in z ==> 0 <= b < n
    requires forall b :: 0 <= b < n ==> One(b in x) + One(b in y) + One(b in z) == 1
    ensures |x| + |y| + |z| == n
  {
    forall b
      ensures !(b in x && b in y) && !((b in x || b in y) && b in z)
      ensures b in x + y + z <==> b in Blocks(n)
    {
      assert 0 <= b < n ==> One(b in x) + One(b in y) + One(b in z) == 1;
    }
    assert x + y + z == Blocks(n);
    DisjointSizes(x, y);
    DisjointSizes(x + y, z);
  }

  lemma DisjointSizes(x: set<int>, y: set<int>)
    requires x !! y
    ensures |x + y| == |x| + |y|
  {
  }

  // ---- What callers see ----

  /** No two live allocations share a block: between two returns of the same block
      its owner has released it. */
  lemma LiveAllocationsAreDistinct(c: Config, ss: seq<State>, acts: seq<Action>, es: seq<Event>,
                                   i: nat, j: nat, p: int)
    requires Run(c, ss, acts, es) && i < j < |es|
    requires HandsOut(es[i], p) && HandsOut(es[j], p) && p != NULL
    ensures exists k :: i < k < j && TakesBack(es[k], p)
  {
    RunRefinesStack(c, ss, acts, es);
    NoBlockHandedOutTwice(ResetList(c.count), es, i, j, p);
  }

  /** A request of legal size and alignment comes back empty-handed exactly when, at the
      moment its thread read the head under the lock, no block was free. */
  lemma NullOnlyWhenExhausted(c: Config, ss: seq<State>, acts: seq<Action>, es: seq<Event>, k: nat)
    requires Run(c, ss, acts, es) && k < |acts|
    requires acts[k].Advance? && acts[k].t < |ss[k].pcs| && ss[k].pcs[acts[k].t] == AllocReadHead
    ensures |ss[k].place| == c.count && |ss[k + 1].pcs| == |ss[k].pcs|
    ensures ss[k + 1].pcs[acts[k].t] == AllocUnlock(NULL) <==>
              forall b :: 0 <= b < c.count ==> ss[k].place[b] != Free
  {
    var l := Replay(ResetList(c.count), es[..k]);
    RunKeepsInv(c, ss, acts, es, k);
    RunKeepsSize(c, ss, acts, es, k);
    assert StepOf(c, ss[k], acts[k], es[k], ss[k + 1]);
    assert HolderPc(ss[k]) == AllocReadHead;
    if l != [] {
      assert l[0] in l && ss[k].place[l[0]] == Free;
    }
  }

  /** No step ever reaches outside the pool, whatever the owners wrote into their
      blocks: a thread inside a call is stopped by nothing but a taken lock. */
  lemma NoAccessFaults(c: Config, ss: seq<State>, acts: seq<Action>, es: seq<Event>, k: nat, t: nat)
    requires Run(c, ss, acts, es) && k < |ss| && t < |ss[k].pcs| && ss[k].pcs[t] != Idle
    ensures CanAdvance(ss[k], ss[k].pcs[t]) || (!HoldsLock(ss[k].pcs[t]) && ss[k].lock != Nobody)
  {
    var s, l := ss[k], Replay(ResetList(c.count), es[..k]);
    RunKeepsInv(c, ss, acts, es, k);
    assert HoldsLock(s.pcs[t]) ==> HolderPc(s) == s.pcs[t];
    if l != [] {
      assert l[0] in l;
    }
  }

  /** While some call is in progress some thread can move: the mutex never strands them. */
  lemma SomeThreadCanAdvance(c: Config, ss: seq<State>, acts: seq<Action>, es: seq<Event>, k: nat, t: nat)
    requires Run(c, ss, acts, es) && k < |ss| && t < |ss[k].pcs| && ss[k].pcs[t] != Idle
    ensures exists u: nat :: u < |ss[k].pcs| && Enabled(ss[k], Advance(u))
  {
    NoAccessFaults(c, ss, acts, es, k, t);
    RunKeepsInv(c, ss, acts, es, k);
    if CanAdvance(ss[k], ss[k].pcs[t]) {
      assert Enabled(ss[k], Advance(t));
    } else {
      var u := ss[k].lock.t;
      assert HoldsLock(ss[k].pcs[u]);
      NoAccessFaults(c, ss, acts, es, k, u);
      assert Enabled(ss[k], Advance(u));
    }
  }
}
