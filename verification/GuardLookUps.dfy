/** How the bootstrap pool serves the look-ups of the real functions, and nothing else. */
module GuardLookUps {
  import opened GuardModel

  function WantedBy(op: Op): seq<Request> {
    if op.Calloc? then [op.request] else []
  }

  /** The requests of the calls to calloc. */
  function Wanted(calls: seq<Call>): seq<Request> {
    if calls == [] then [] else Wanted(calls[..|calls| - 1]) + WantedBy(calls[|calls| - 1].op)
  }

  function Requests(served: seq<Served>): seq<Request> {
    if served == [] then [] else Requests(served[..|served| - 1]) + [served[|served| - 1].request]
  }

  lemma RequestsNext(served: seq<Served>, x: Served)
    ensures Requests(served + [x]) == Requests(served) + [x.request]
  {
    assert (served + [x])[..|served|] == served;
  }

  lemma PoolLogs(s: Process, r: Request)
    ensures var (s', out) := PoolAnswer(s, r);
            if out.Faulted? then s' == s else out.Pooled? && Requests(s'.served) == Requests(s.served) + [r]
  {
    RequestsNext(s.served, Served(r, Padded(r), NULL));
    RequestsNext(s.served, Served(r, Padded(r), s.base + s.used));
  }

  /** While a look-up is going on and calloc is unknown, the pool answers every call to calloc,
      with a region of its own or with NULL, and no other call that returns reaches it. */
  lemma NestedCall(s: Process, c: Call)
    requires Ok(s) && s.resolving && !s.known.calloc
    ensures c.op.Calloc? ==> DoCall(s, c) == PoolAnswer(s, c.op.request)
    ensures !DoCall(s, c).1.Ends() ==>
              Requests(DoCall(s, c).0.served) == Requests(s.served) + WantedBy(c.op)
    ensures DoCall(s, c).1.Pooled? ==> c.op.Calloc?
  {
    if c.op.Calloc? {
      PoolLogs(s, c.op.request);
    } else {
      assert DoEnsure(s, c.lookups) == (s, Passed);
      CheckLeavesPool(s, c);
    }
  }

  /** The check does not call the pool itself; what the diagnostics ask of it only matters to
      a process that is about to end. */
  lemma CheckLeavesPool(s: Process, c: Call)
    ensures !DoCheck(s, c).1.Pooled?
    ensures !DoCheck(s, c).1.Ends() ==> DoCheck(s, c).0.served == s.served
  {
  }

  lemma {:induction false} NestedCalls(s: Process, calls: seq<Call>)
    requires Ok(s) && s.resolving && !s.known.calloc && !DoCalls(s, calls).1.Ends()
    ensures Requests(DoCalls(s, calls).0.served) == Requests(s.served) + Wanted(calls)
  {
    if calls != [] {
      var front, last := calls[..|calls| - 1], calls[|calls| - 1];
      NestedCalls(s, front);
      CallsAreGood(s, front);
      NestedCall(DoCalls(s, front).0, last);
    }
  }

  function Missing(known: bool, calls: seq<Call>): seq<Request> {
    if known then [] else Wanted(calls)
  }

  lemma LookUpServes(s: Process, f: Fn, nested: seq<Call>)
    requires Ok(s) && s.resolving && !s.known.calloc
    requires !DoLookUp(s, f, nested).1.Ends()
    ensures var s' := DoLookUp(s, f, nested).0;
            && Ok(s') && s'.resolving && s'.exported == s.exported
            && Requests(s'.served) == Requests(s.served) + Missing(s.known.Has(f), nested)
            && s'.known == s.known.Set(f, s.known.Has(f) || s.exported.Has(f))
  {
    LookUpIsGood(s, f, nested);
    if !s.known.Has(f) {
      CallsAreGood(s, nested);
      NestedCalls(s, nested);
    }
  }

  lemma FirstLookUpsServe(s: Process, l: Lookups)
    requires Ok(s) && s.resolving && !s.known.calloc && !DoFirstLookUps(s, l).1.Ends()
    ensures var s' := DoFirstLookUps(s, l).0;
            && Ok(s') && s'.resolving && s'.exported == s.exported
            && Requests(s'.served) == Requests(s.served) + Missing(s.known.malloc, l.malloc)
                                      + Missing(s.known.realloc, l.realloc)
            && s'.known == s.known.(malloc := s.known.malloc || s.exported.malloc,
                                    realloc := s.known.realloc || s.exported.realloc)
  {
    LookUpServes(s, MallocFn, l.malloc);
    LookUpServes(DoLookUp(s, MallocFn, l.malloc).0, ReallocFn, l.realloc);
  }

  lemma LastLookUpsServe(s: Process, l: Lookups)
    requires Ok(s) && s.resolving && !s.known.calloc && !DoLastLookUps(s, l).1.Ends()
    ensures var s' := DoLastLookUps(s, l).0;
            && Requests(s'.served) == Requests(s.served) + Missing(s.known.free, l.free) + Wanted(l.calloc)
            && s'.known == s.known.(free := s.known.free || s.exported.free, calloc := s.exported.calloc)
  {
    LookUpServes(s, FreeFn, l.free);
    LookUpServes(DoLookUp(s, FreeFn, l.free).0, CallocFn, l.calloc);
  }

  /** Resolving while calloc is unknown: every call to calloc that dlsym() makes is answered by
      the pool, in order, and afterwards everything that dlsym() can find is known. */
  lemma ResolvingIsServed(s: Process, l: Lookups)
    requires Ok(s) && !s.resolving && !s.known.calloc && !DoEnsure(s, l).1.Ends()
    ensures var (s', k) := (DoEnsure(s, l).0, s.known);
            && Requests(s'.served) == Requests(s.served) + Missing(k.malloc, l.malloc) + Missing(k.realloc, l.realloc)
                                      + Missing(k.free, l.free) + Wanted(l.calloc)
            && s'.known == k.Or(s.exported)
  {
    var s0 := s.(resolving := true);
    FirstLookUpsServe(s0, l);
    LastLookUpsServe(DoFirstLookUps(s0, l).0, l);
  }

  /** Once the real calloc is known, no call of any kind reaches the pool. */
  lemma PoolRetires(s: Process, c: Call)
    requires Ok(s) && s.known.calloc
    ensures !DoCall(s, c).1.Pooled?
    ensures DoCall(s, c).0.served == s.served && DoCall(s, c).0.used == s.used
  {
    CallIsGood(s, c);
    assert s.known.Has(CallocFn);
    if !Ignored(s, c.op) {
      CheckLeavesPool(if c.op.Calloc? then s else DoEnsure(s, c.lookups).0, c);
    }
  }
}
