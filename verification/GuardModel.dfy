/** The preloaded guard that turns heap calls into failures while armed, as functions on the
    state of the process: its bootstrap pool, which serves the calls to calloc that dlsym()
    makes before the real functions are known, the dispatch of each call, and the trip wire. */
module GuardModel {
  import opened Arithmetic

  const NULL := 0
  const SIZE_RANGE := 0x1_0000_0000_0000_0000

  // ---- Rounding ----

  /** The next multiple of 16, as the bit mask computes it for sizes that do not overflow. */
  function RoundUp(n: nat): nat {
    (n + 15) / 16 * 16
  }

  /** The result is the smallest multiple of 16 that is large enough. */
  lemma RoundUpIsMinimal(n: nat, m: nat)
    requires m >= n && m % 16 == 0
    ensures n <= RoundUp(n) <= m && RoundUp(n) % 16 == 0
  {
    RoundUpIsWhole(n);
    assert m == m / 16 * 16;
  }

  lemma RoundUpIsWhole(n: nat)
    ensures RoundUp(n) % 16 == 0 && n <= RoundUp(n) < n + 16
  {
    RemainderIs((n + 15) / 16, 16, 0);
  }

  datatype Request = Request(count: nat, size: nat)

  /** Addition in size_t. */
  function SizeSum(a: nat, b: nat): nat {
    if a + b < SIZE_RANGE then a + b else a + b - SIZE_RANGE
  }

  /** The size computation of the pool, in which size_t wraps around. */
  function Masked(n: nat): nat {
    SizeSum(n % SIZE_RANGE, 15) / 16 * 16
  }

  /** How many bytes of the pool a request takes. */
  function Padded(r: Request): nat {
    Masked(r.count * r.size)
  }

  lemma MaskedIs(n: nat)
    ensures Masked(n) % 16 == 0 && Masked(n) < SIZE_RANGE
    ensures n + 15 < SIZE_RANGE ==> Masked(n) == RoundUp(n)
    ensures Masked(n) >= n <==> n + 15 < SIZE_RANGE
  {
    var padded := SizeSum(n % SIZE_RANGE, 15);
    RemainderIs(padded / 16, 16, 0);
    assert padded < SIZE_RANGE && padded - 15 <= padded / 16 * 16 <= padded;
    if n < SIZE_RANGE {
      RemainderIs(0, SIZE_RANGE, n);
      RoundUpIsWhole(n);
    }
  }

  /** The pool sets aside enough for a request exactly when neither the product nor the
      rounding wraps around. */
  lemma PaddedHoldsRequestIff(r: Request)
    ensures Padded(r) >= r.count * r.size <==> r.count * r.size + 15 < SIZE_RANGE
    ensures r.count * r.size + 15 < SIZE_RANGE ==> Padded(r) == RoundUp(r.count * r.size)
    ensures Padded(r) % 16 == 0 && Padded(r) < SIZE_RANGE
  {
    MaskedIs(r.count * r.size);
  }

  // ---- The regions of the pool ----

  datatype Region = Region(start: nat, size: nat)

  /** A request that the pool answered, NULL included, and the bytes that it takes. */
  datatype Served = Served(request: Request, size: nat, ptr: nat)

  /** The regions that were handed out, in order. */
  function Granted(base: nat, served: seq<Served>): seq<Region> {
    if served == [] then []
    else
      var last := served[|served| - 1];
      Granted(base, served[..|served| - 1])
      + if last.ptr < base then [] else [Region(last.ptr - base, last.size)]
  }

  lemma GrantedStep(base: nat, served: seq<Served>, r: Request, size: nat, ptr: nat)
    ensures Granted(base, served + [Served(r, size, ptr)])
            == Granted(base, served) + if ptr < base then [] else [Region(ptr - base, size)]
  {
    assert (served + [Served(r, size, ptr)])[..|served|] == served;
  }

  /** Regions follow each other without gaps from 0 to n, in multiples of 16. */
  predicate Tiles(rs: seq<Region>, n: nat) {
    if rs == [] then n == 0
    else
      var last := rs[|rs| - 1];
      && last.start + last.size == n && last.size > 0
      && last.start % 16 == 0 && last.size % 16 == 0
      && Tiles(rs[..|rs| - 1], last.start)
  }

  lemma TilesAreWhole(rs: seq<Region>, n: nat)
    requires Tiles(rs, n)
    ensures n % 16 == 0
  {
    if rs != [] {
      AlignedSum(rs[|rs| - 1].start, rs[|rs| - 1].size);
    }
  }

  lemma TilesAppend(rs: seq<Region>, n: nat, size: nat)
    requires Tiles(rs, n) && size > 0 && size % 16 == 0
    ensures Tiles(rs + [Region(n, size)], n + size)
  {
    TilesAreWhole(rs, n);
    assert (rs + [Region(n, size)])[..|rs|] == rs;
  }

  lemma {:induction false} TilesEnd(rs: seq<Region>, n: nat, i: nat)
    requires Tiles(rs, n) && i < |rs|
    ensures rs[i].start + rs[i].size <= n && rs[i].size > 0 && rs[i].start % 16 == 0
  {
    var last := |rs| - 1;
    if i < last {
      TilesEnd(rs[..last], rs[last].start, i);
    }
  }

  /** Of any two regions the earlier ends before the later begins. */
  lemma {:induction false} TilesAscend(rs: seq<Region>, n: nat, i: nat, j: nat)
    requires Tiles(rs, n) && i < j < |rs|
    ensures rs[i].start + rs[i].size <= rs[j].start
  {
    var last := |rs| - 1;
    if j < last {
      TilesAscend(rs[..last], rs[last].start, i, j);
    } else {
      TilesEnd(rs[..last], rs[last].start, i);
    }
  }

  ghost predicate ServedInPool(base: nat, length: nat, served: seq<Served>) {
    forall i :: 0 <= i < |served| ==> served[i].ptr == NULL || base <= served[i].ptr < base + length
  }

  /** The whole state of the pool: what was answered covers the used part, without gaps, and each
      answer is NULL or an address in the pool. */
  ghost predicate PoolState(base: nat, length: nat, served: seq<Served>, used: nat) {
    && base > 0 && used <= length < SIZE_RANGE
    && Tiles(Granted(base, served), used)
    && ServedInPool(base, length, served)
  }

  lemma RefusalKeepsState(base: nat, length: nat, served: seq<Served>, used: nat, r: Request, size: nat)
    requires PoolState(base, length, served, used)
    ensures PoolState(base, length, served + [Served(r, size, NULL)], used)
  {
    GrantedStep(base, served, r, size, NULL);
    assert Granted(base, served + [Served(r, size, NULL)]) == Granted(base, served);
  }

  lemma GrantKeepsState(base: nat, length: nat, served: seq<Served>, used: nat, r: Request, size: nat)
    requires PoolState(base, length, served, used) && 0 < size && size % 16 == 0 && used + size <= length
    ensures PoolState(base, length, served + [Served(r, size, base + used)], used + size)
    ensures used % 16 == 0
  {
    TilesAreWhole(Granted(base, served), used);
    TilesAppend(Granted(base, served), used, size);
    GrantedStep(base, served, r, size, base + used);
  }

  // ---- Calls ----

  datatype Op =
    | Malloc(size: nat)
    | Calloc(request: Request)
    | Realloc(ptr: nat, size: nat)
    | Free(ptr: nat)
    | New(size: nat)
    | Delete(ptr: nat)

  /** A call into the allocator, whether the guard is armed when the call checks, the calls
      that dlsym() makes should this one have to look up the real functions, and those that
      the diagnostics make should it trip. */
  datatype Call = Call(op: Op, armed: bool, lookups: Lookups, diagnostics: seq<Call>)

  datatype Lookups = Lookups(malloc: seq<Call>, realloc: seq<Call>, free: seq<Call>, calloc: seq<Call>)

  datatype Fn = MallocFn | ReallocFn | FreeFn | CallocFn

  /** A choice among the four real functions. */
  datatype Functions = Functions(malloc: bool, realloc: bool, free: bool, calloc: bool)
  {
    predicate Has(f: Fn) {
      match f
      case MallocFn => malloc
      case ReallocFn => realloc
      case FreeFn => free
      case CallocFn => calloc
    }

    function Set(f: Fn, b: bool): Functions {
      match f
      case MallocFn => this.(malloc := b)
      case ReallocFn => this.(realloc := b)
      case FreeFn => this.(free := b)
      case CallocFn => this.(calloc := b)
    }

    function Or(other: Functions): Functions {
      Functions(malloc || other.malloc, realloc || other.realloc, free || other.free, calloc || other.calloc)
    }

    predicate All() {
      malloc && realloc && free && calloc
    }

    predicate Within(other: Functions) {
      forall f :: Has(f) ==> other.Has(f)
    }
  }

  const NONE := Functions(false, false, false, false)

  /** The real function that a call ends up in. */
  function Target(op: Op): Fn {
    match op
    case Malloc(_) => MallocFn
    case New(_) => MallocFn
    case Calloc(_) => CallocFn
    case Realloc(_, _) => ReallocFn
    case Free(_) => FreeFn
    case Delete(_) => FreeFn
  }

  /** `Passed` reached the real function. `Faulted` ends the process in another way than the
      trip wire: a call through a function that was not found, or a region whose end wraps
      around the address range. */
  datatype Outcome = Skipped | Pooled(ptr: nat) | Passed | Aborted | Faulted
  {
    predicate Ends() {
      Aborted? || Faulted?
    }
  }

  // ---- What a call does ----

  /** The process as one of its threads sees it: the pool, which real functions dlsym() can
      find and which are known, the trip flag of the thread and how often it entered trip,
      what the pool has answered, and what has reached the real free. */
  datatype Process = Process(base: nat, length: nat, used: nat, exported: Functions, resolving: bool,
                             known: Functions, inTrip: bool, trips: nat, served: seq<Served>, freed: seq<nat>)

  predicate InPool(s: Process, ptr: nat) {
    s.base <= ptr < s.base + s.length
  }

  predicate IsRelease(op: Op) {
    op.Free? || op.Delete?
  }

  /** Releases of NULL and of bootstrap memory are no-ops before any check. */
  predicate Ignored(s: Process, op: Op) {
    IsRelease(op) && (op.ptr == NULL || InPool(s, op.ptr))
  }

  function Released(op: Op): seq<nat> {
    if IsRelease(op) then [op.ptr] else []
  }

  function PoolAnswer(s: Process, r: Request): (Process, Outcome) {
    PoolAnswerOf(s, r, Padded(r))
  }

  function PoolAnswerOf(s: Process, r: Request, n: nat): (Process, Outcome) {
    if n == 0 || SizeSum(s.used, n) > s.length then
      (s.(served := s.served + [Served(r, n, NULL)]), Pooled(NULL))
    else if s.used + n >= SIZE_RANGE then (s, Faulted)
    else
      (s.(used := s.used + n, served := s.served + [Served(r, n, s.base + s.used)]), Pooled(s.base + s.used))
  }

  function DoCall(s: Process, c: Call): (Process, Outcome)
    decreases c, 2
  {
    if Ignored(s, c.op) then (s, Skipped)
    else if c.op.Calloc? then DoCalloc(s, c)
    else
      var (s', out) := DoEnsure(s, c.lookups);
      if out.Ends() then (s', out) else DoCheck(s', c)
  }

  /** calloc alone may be called, and then goes to the pool, while it is being looked up. */
  function DoCalloc(s: Process, c: Call): (Process, Outcome)
    requires c.op.Calloc?
    decreases c, 1
  {
    if s.known.calloc then DoCheck(s, c)
    else if s.resolving then PoolAnswer(s, c.op.request)
    else
      var (s', out) := DoEnsure(s, c.lookups);
      if out.Ends() then (s', out)
      else if !s'.known.calloc then PoolAnswer(s', c.op.request)
      else DoCheck(s', c)
  }

  /** The check, and the real function behind it. */
  function DoCheck(s: Process, c: Call): (Process, Outcome)
    decreases c, 0
  {
    if !s.inTrip && c.armed then DoTrip(s, c.diagnostics)
    else if !s.known.Has(Target(c.op)) then (s, Faulted)
    else (s.(freed := s.freed + Released(c.op)), Passed)
  }

  /** The diagnostics run with the flag up. */
  function DoTrip(s: Process, diagnostics: seq<Call>): (Process, Outcome)
    decreases diagnostics, 1
  {
    var (s', out) := DoCalls(s.(inTrip := true, trips := s.trips + 1), diagnostics);
    (s', if out.Ends() then out else Aborted)
  }

  function DoEnsure(s: Process, l: Lookups): (Process, Outcome)
    decreases l, 1
  {
    if s.known.All() || s.resolving then (s, Passed)
    else
      var (s', out) := DoLookUps(s.(resolving := true), l);
      if out.Ends() then (s', out) else (s'.(resolving := false), Passed)
  }

  function DoLookUps(s: Process, l: Lookups): (Process, Outcome)
    decreases l, 0, 1
  {
    var (s', out) := DoFirstLookUps(s, l);
    if out.Ends() then (s', out) else DoLastLookUps(s', l)
  }

  function DoFirstLookUps(s: Process, l: Lookups): (Process, Outcome)
    decreases l, 0, 0
  {
    var (s', out) := DoLookUp(s, MallocFn, l.malloc);
    if out.Ends() then (s', out) else DoLookUp(s', ReallocFn, l.realloc)
  }

  function DoLastLookUps(s: Process, l: Lookups): (Process, Outcome)
    decreases l, 0, 0
  {
    var (s', out) := DoLookUp(s, FreeFn, l.free);
    if out.Ends() then (s', out) else DoLookUp(s', CallocFn, l.calloc)
  }

  function DoLookUp(s: Process, f: Fn, nested: seq<Call>): (Process, Outcome)
    decreases nested, 1
  {
    if s.known.Has(f) then (s, Passed)
    else
      var (s', out) := DoCalls(s, nested);
      if out.Ends() then (s', out) else (s'.(known := s'.known.Set(f, s'.exported.Has(f))), Passed)
  }

  /** Calls one after the other, up to the first that ends the process. */
  function DoCalls(s: Process, calls: seq<Call>): (Process, Outcome)
    decreases calls, 0
  {
    if calls == [] then (s, Passed)
    else
      var (s', out) := DoCalls(s, calls[..|calls| - 1]);
      if out.Ends() then (s', out)
      else
        var (s'', last) := DoCall(s', calls[|calls| - 1]);
        (s'', if last.Ends() then last else Passed)
  }

  lemma {:induction false} EndIsFinal(s: Process, calls: seq<Call>, k: nat)
    requires k <= |calls| && DoCalls(s, calls[..k]).1.Ends()
    ensures DoCalls(s, calls) == DoCalls(s, calls[..k])
    decreases |calls|
  {
    if k < |calls| {
      assert calls[..|calls| - 1][..k] == calls[..k];
      EndIsFinal(s, calls[..|calls| - 1], k);
    } else {
      assert calls[..k] == calls;
    }
  }

  // ---- What every call keeps ----

  ghost predicate FreedOutside(base: nat, length: nat, freed: seq<nat>) {
    forall i :: 0 <= i < |freed| ==> freed[i] != NULL && !(base <= freed[i] < base + length)
  }

  /** Regions in order and in the pool, every answer NULL or in the pool, nothing from the
      pool in the real free, and trip entered once by a thread that reports, never by another. */
  ghost predicate Ok(s: Process) {
    && PoolState(s.base, s.length, s.served, s.used)
    && FreedOutside(s.base, s.length, s.freed)
    && s.trips == if s.inTrip then 1 else 0
  }

  /** How a process may change: its logs grow, functions stay known, the pool is left alone
      once calloc is known, and a flag that is up stays up. */
  predicate Evolves(s: Process, s': Process) {
    && s'.base == s.base && s'.length == s.length && s'.exported == s.exported
    && s.served <= s'.served && s.freed <= s'.freed
    && s.known.Within(s'.known)
    && (s.known.calloc ==> s'.served == s.served && s'.used == s.used)
    && (s.inTrip ==> s'.inTrip)
  }

  /** Nothing is looked up during a look-up, and a call that returns leaves the flags as
      they were. */
  predicate Returns(s: Process, r: (Process, Outcome)) {
    && (s.resolving ==> r.0.resolving && r.0.known == s.known)
    && (!r.1.Ends() ==> r.0.resolving == s.resolving && r.0.inTrip == s.inTrip)
    && (r.1.Aborted? ==> !s.inTrip && r.0.inTrip)
  }

  ghost predicate Good(s: Process, r: (Process, Outcome)) {
    Ok(r.0) && Evolves(s, r.0) && Returns(s, r)
  }

  lemma EvolvesOn(a: Process, b: Process, c: Process)
    requires Evolves(a, b) && Evolves(b, c)
    ensures Evolves(a, c)
  {
    assert a.known.Has(CallocFn) ==> b.known.Has(CallocFn);
  }

  lemma PoolAnswerIsGood(s: Process, r: Request)
    requires Ok(s) && !s.known.calloc
    ensures Good(s, PoolAnswer(s, r))
  {
    PaddedHoldsRequestIff(r);
    PoolAnswerOfIsGood(s, r, Padded(r));
  }

  lemma PoolAnswerOfIsGood(s: Process, r: Request, n: nat)
    requires Ok(s) && !s.known.calloc && n % 16 == 0 && n < SIZE_RANGE
    ensures Good(s, PoolAnswerOf(s, r, n))
  {
    AnswerIsOk(s, r, n);
    AnswerEvolves(s, r, n);
  }

  lemma AnswerEvolves(s: Process, r: Request, n: nat)
    requires !s.known.calloc
    ensures Evolves(s, PoolAnswerOf(s, r, n).0)
  {
    assert !s.known.Has(CallocFn);
  }

  lemma AnswerIsOk(s: Process, r: Request, n: nat)
    requires Ok(s) && n % 16 == 0 && n < SIZE_RANGE
    ensures Ok(PoolAnswerOf(s, r, n).0)
  {
    if n == 0 || SizeSum(s.used, n) > s.length {
      RefusalKeepsState(s.base, s.length, s.served, s.used, r, n);
    } else if s.used + n < SIZE_RANGE {
      GrantKeepsState(s.base, s.length, s.served, s.used, r, n);
    }
  }

  lemma {:induction false} CallIsGood(s: Process, c: Call)
    requires Ok(s)
    ensures Good(s, DoCall(s, c))
    decreases c, 2
  {
    if !Ignored(s, c.op) {
      if c.op.Calloc? {
        CallocIsGood(s, c);
      } else {
        EnsureIsGood(s, c.lookups);
        var (s', out) := DoEnsure(s, c.lookups);
        if !out.Ends() {
          CheckIsGood(s', c);
          EvolvesOn(s, s', DoCheck(s', c).0);
        }
      }
    }
  }

  lemma {:induction false} CallocIsGood(s: Process, c: Call)
    requires Ok(s) && c.op.Calloc?
    ensures Good(s, DoCalloc(s, c))
    decreases c, 1
  {
    if s.known.calloc {
      CheckIsGood(s, c);
    } else if s.resolving {
      PoolAnswerIsGood(s, c.op.request);
    } else {
      EnsureIsGood(s, c.lookups);
      var (s', out) := DoEnsure(s, c.lookups);
      if !out.Ends() {
        if s'.known.calloc {
          CheckIsGood(s', c);
        } else {
          PoolAnswerIsGood(s', c.op.request);
        }
        EvolvesOn(s, s', DoCalloc(s, c).0);
      }
    }
  }

  lemma {:induction false} CheckIsGood(s: Process, c: Call)
    requires Ok(s) && !Ignored(s, c.op)
    ensures Good(s, DoCheck(s, c))
    decreases c, 0
  {
    if !s.inTrip && c.armed {
      var raised := s.(inTrip := true, trips := s.trips + 1);
      CallsAreGood(raised, c.diagnostics);
      EvolvesOn(s, raised, DoTrip(s, c.diagnostics).0);
    }
  }

  lemma {:induction false} EnsureIsGood(s: Process, l: Lookups)
    requires Ok(s)
    ensures Good(s, DoEnsure(s, l))
    decreases l, 1
  {
    if !s.known.All() && !s.resolving {
      LookUpsAreGood(s.(resolving := true), l);
    }
  }

  /** Good, except that the known functions may become more. */
  ghost predicate Learns(s: Process, r: (Process, Outcome)) {
    && Ok(r.0) && Evolves(s, r.0) && r.0.resolving
    && (!r.1.Ends() ==> r.0.inTrip == s.inTrip)
    && (r.1.Aborted? ==> !s.inTrip && r.0.inTrip)
  }

  lemma {:induction false} LookUpsAreGood(s: Process, l: Lookups)
    requires Ok(s) && s.resolving
    ensures Learns(s, DoLookUps(s, l))
    decreases l, 0
  {
    LookUpIsGood(s, MallocFn, l.malloc);
    var (s1, out1) := DoLookUp(s, MallocFn, l.malloc);
    if !out1.Ends() {
      TwoLookUpsAreGood(s, s1, ReallocFn, l.realloc);
      var (s2, out2) := DoLookUp(s1, ReallocFn, l.realloc);
      if !out2.Ends() {
        TwoLookUpsAreGood(s, s2, FreeFn, l.free);
        var (s3, out3) := DoLookUp(s2, FreeFn, l.free);
        if !out3.Ends() {
          TwoLookUpsAreGood(s, s3, CallocFn, l.calloc);
        }
      }
    }
  }

  lemma {:induction false} TwoLookUpsAreGood(s: Process, s': Process, f: Fn, nested: seq<Call>)
    requires Learns(s, (s', Passed)) && s.resolving
    ensures Learns(s, DoLookUp(s', f, nested))
    decreases nested, 2
  {
    LookUpIsGood(s', f, nested);
    EvolvesOn(s, s', DoLookUp(s', f, nested).0);
  }

  lemma {:induction false} LookUpIsGood(s: Process, f: Fn, nested: seq<Call>)
    requires Ok(s) && s.resolving
    ensures Learns(s, DoLookUp(s, f, nested))
    decreases nested, 1
  {
    if !s.known.Has(f) {
      CallsAreGood(s, nested);
    }
  }

  lemma {:induction false} CallsAreGood(s: Process, calls: seq<Call>)
    requires Ok(s)
    ensures Good(s, DoCalls(s, calls))
    decreases calls, 0
  {
    if calls != [] {
      CallsAreGood(s, calls[..|calls| - 1]);
      var (s', out) := DoCalls(s, calls[..|calls| - 1]);
      if !out.Ends() {
        CallIsGood(s', calls[|calls| - 1]);
        EvolvesOn(s, s', DoCall(s', calls[|calls| - 1]).0);
      }
    }
  }
}
