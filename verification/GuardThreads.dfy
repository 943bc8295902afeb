/** Which calls the guard lets through to the real functions and which it ends the process at,
    for single calls and for whole threads, from the first call of the process on. */
module GuardThreads {
  import opened GuardModel
  import opened GuardLookUps

  // ---- The check ----

  /** A release that has nothing to do: of NULL, or of memory of a pool that lies here. Used
      by no definition of what calls do, only to say what they should. */
  predicate NothingToRelease(base: nat, length: nat, op: Op) {
    match op
    case Free(p) => p == 0 || base <= p < base + length
    case Delete(p) => p == 0 || base <= p < base + length
    case _ => false
  }

  /** The pointers that these calls should hand to the real free, in order. */
  function DueFrees(base: nat, length: nat, calls: seq<Call>): seq<nat> {
    if calls == [] then []
    else
      var op := calls[|calls| - 1].op;
      DueFrees(base, length, calls[..|calls| - 1])
      + if (op.Free? || op.Delete?) && !NothingToRelease(base, length, op) then [op.ptr] else []
  }

  /** None of the calls is made while armed with something to do. */
  predicate NoneCaught(s: Process, calls: seq<Call>) {
    forall i :: 0 <= i < |calls| ==> !calls[i].armed || NothingToRelease(s.base, s.length, calls[i].op)
  }

  lemma KnownCallIsCheck(s: Process, c: Call)
    requires s.known.All() && !Ignored(s, c.op)
    ensures DoCall(s, c) == DoCheck(s, c) && s.known.Has(Target(c.op))
  {
    assert DoEnsure(s, c.lookups) == (s, Passed);
  }

  /** Diagnostics never trip again, whatever they call and however deeply. */
  lemma {:induction false} ReportingPasses(s: Process, calls: seq<Call>)
    requires s.known.All() && s.inTrip
    ensures !DoCalls(s, calls).1.Ends()
    ensures DoCalls(s, calls).0 == s.(freed := DoCalls(s, calls).0.freed)
  {
    if calls != [] {
      var front, last := calls[..|calls| - 1], calls[|calls| - 1];
      ReportingPasses(s, front);
      var s' := DoCalls(s, front).0;
      if !Ignored(s', last.op) {
        KnownCallIsCheck(s', last);
      }
    }
  }

  /** With the real functions known a call ends the process exactly when it is made while
      armed, on a thread that is not reporting, and is not a release of NULL or of bootstrap
      memory; otherwise every other release reaches the real free, and nothing else changes. */
  lemma KnownCall(s: Process, c: Call)
    requires s.known.All()
    ensures var ((s', out), nothing) := (DoCall(s, c), NothingToRelease(s.base, s.length, c.op));
            && !out.Faulted? && (out.Ends() <==> !s.inTrip && c.armed && !nothing)
            && (!out.Ends() ==>
                  s' == s.(freed := s.freed + if (c.op.Free? || c.op.Delete?) && !nothing then [c.op.ptr] else []))
  {
    assert Ignored(s, c.op) <==> NothingToRelease(s.base, s.length, c.op);
    if !Ignored(s, c.op) {
      KnownCallIsCheck(s, c);
      if !s.inTrip && c.armed {
        ReportingPasses(s.(inTrip := true, trips := s.trips + 1), c.diagnostics);
      }
    }
  }

  /** The same for any sequence of calls. */
  lemma {:induction false} KnownCalls(s: Process, calls: seq<Call>)
    requires s.known.All() && !s.inTrip
    ensures DoCalls(s, calls).1.Ends() <==> !NoneCaught(s, calls)
    ensures !DoCalls(s, calls).1.Ends() ==>
              DoCalls(s, calls).0 == s.(freed := s.freed + DueFrees(s.base, s.length, calls))
  {
    if calls != [] {
      var front, last := calls[..|calls| - 1], calls[|calls| - 1];
      KnownCalls(s, front);
      assert forall i :: 0 <= i < |front| ==> front[i] == calls[i];
      if !DoCalls(s, front).1.Ends() {
        KnownCall(DoCalls(s, front).0, last);
      }
    }
  }

  /** A call that needs a function which dlsym() has not found, or not yet, ends the process,
      and no other that passes the check does: malloc and new go to malloc, realloc to realloc,
      free and delete, of other than NULL and bootstrap memory, to free. */
  lemma CallThroughMissing(s: Process, c: Call)
    requires s.resolving && (s.inTrip || !c.armed) && !c.op.Calloc?
    ensures DoCall(s, c).1.Faulted? <==>
              match c.op
              case Malloc(_) => !s.known.malloc
              case New(_) => !s.known.malloc
              case Realloc(_, _) => !s.known.realloc
              case Free(p) => !s.known.free && p != 0 && !(s.base <= p < s.base + s.length)
              case Delete(p) => !s.known.free && p != 0 && !(s.base <= p < s.base + s.length)
              case _ => false
  {
    assert DoEnsure(s, c.lookups) == (s, Passed);
  }

  // ---- First calls ----

  /** What dlsym() asks for: zeroed memory of sizes that stay inside the address range,
        and releases of bootstrap memory. */
  predicate Gentle(s: Process, calls: seq<Call>) {
    forall i :: 0 <= i < |calls| ==>
      Ignored(s, calls[i].op) || (calls[i].op.Calloc? && Padded(calls[i].op.request) + s.length < SIZE_RANGE)
  }

  predicate GentleLookups(s: Process, l: Lookups) {
    Gentle(s, l.malloc) && Gentle(s, l.realloc) && Gentle(s, l.free) && Gentle(s, l.calloc)
  }

  predicate FreshStart(s: Process) {
    s.known == NONE && !s.resolving && s.exported.All()
  }

  predicate OnlyPool(s: Process, s': Process) {
    s' == s.(used := s'.used, served := s'.served)
  }

  lemma {:induction false} GentleCallsPass(s: Process, calls: seq<Call>)
    requires Ok(s) && s.resolving && !s.known.calloc && Gentle(s, calls)
    ensures !DoCalls(s, calls).1.Ends() && OnlyPool(s, DoCalls(s, calls).0) && Ok(DoCalls(s, calls).0)
  {
    CallsAreGood(s, calls);
    if calls != [] {
      var front, last := calls[..|calls| - 1], calls[|calls| - 1];
      GentleCallsPass(s, front);
      var s' := DoCalls(s, front).0;
      assert Ignored(s, last.op) <==> Ignored(s', last.op);
      if !Ignored(s', last.op) {
        NestedCall(s', last);
      }
    }
  }

  lemma GentleLookUp(s: Process, f: Fn, nested: seq<Call>)
    requires Ok(s) && s.resolving && !s.known.calloc && !s.known.Has(f) && s.exported.All() && Gentle(s, nested)
    ensures !DoLookUp(s, f, nested).1.Ends() && Ok(DoLookUp(s, f, nested).0)
    ensures var s' := DoLookUp(s, f, nested).0;
            s' == s.(used := s'.used, served := s'.served, known := s.known.Set(f, true))
  {
    GentleCallsPass(s, nested);
    CallsAreGood(s, nested);
  }

  lemma FirstHalf(s: Process, l: Lookups)
    requires Ok(s) && s.resolving && s.known == NONE && s.exported.All() && GentleLookups(s, l)
    ensures var (s', out) := DoFirstLookUps(s, l);
            && !out.Ends() && Ok(s') && s' == s.(used := s'.used, served := s'.served, known := s'.known)
            && s'.known == Functions(true, true, false, false)
  {
    GentleLookUp(s, MallocFn, l.malloc);
    GentleLookUp(DoLookUp(s, MallocFn, l.malloc).0, ReallocFn, l.realloc);
  }

  lemma LastHalf(s: Process, l: Lookups)
    requires Ok(s) && s.resolving && s.known == Functions(true, true, false, false)
    requires s.exported.All() && GentleLookups(s, l)
    ensures var (s', out) := DoLastLookUps(s, l);
            && !out.Ends() && Ok(s') && s' == s.(used := s'.used, served := s'.served, known := s'.known)
            && s'.known.All()
  {
    GentleLookUp(s, FreeFn, l.free);
    GentleLookUp(DoLookUp(s, FreeFn, l.free).0, CallocFn, l.calloc);
  }

  /** The first look-ups of a process that dlsym() serves as it should: nothing but the pool
      and the functions changes, and all four functions are found. */
  lemma FirstEnsure(s: Process, l: Lookups)
    requires Ok(s) && FreshStart(s) && GentleLookups(s, l)
    ensures var (s', out) := DoEnsure(s, l);
            && !out.Ends() && s'.known.All() && Ok(s')
            && s' == s.(used := s'.used, served := s'.served, known := s'.known)
  {
    var s0 := s.(resolving := true);
    assert GentleLookups(s0, l);
    FirstHalf(s0, l);
    var s1 := DoFirstLookUps(s0, l).0;
    assert GentleLookups(s1, l);
    LastHalf(s1, l);
  }

  /** The first call of a process is checked like any later one. */
  lemma FirstCall(s: Process, c: Call)
    requires Ok(s) && FreshStart(s) && GentleLookups(s, c.lookups) && !Ignored(s, c.op)
    ensures var (s', out) := DoCall(s, c);
            && s'.known.All() && !out.Faulted? && !out.Pooled?
            && (out.Ends() <==> !s.inTrip && c.armed)
            && (!out.Ends() ==> s'.freed == s.freed + Released(c.op) && !s'.resolving)
  {
    FirstEnsure(s, c.lookups);
    var s' := DoEnsure(s, c.lookups).0;
    KnownCall(s', c);
    assert DoCall(s, c) == DoCheck(s', c) == DoCall(s', c);
    CallIsGood(s', c);
    assert forall f :: s'.known.Has(f) ==> DoCall(s', c).0.known.Has(f);
    assert DoCall(s', c).0.known.Has(MallocFn) && DoCall(s', c).0.known.Has(ReallocFn);
    assert DoCall(s', c).0.known.Has(FreeFn) && DoCall(s', c).0.known.Has(CallocFn);
  }

  // ---- Whole threads ----

  predicate Ordinary(s: Process, calls: seq<Call>) {
    forall i :: 0 <= i < |calls| ==> GentleLookups(s, calls[i].lookups)
  }

  predicate Startable(s: Process) {
    FreshStart(s) || (s.known.All() && !s.resolving)
  }

  /** What a single call does to a process that can start, literally. */
  lemma OneCall(s: Process, c: Call)
    requires Ok(s) && !s.inTrip && Startable(s) && GentleLookups(s, c.lookups)
    ensures var ((s', out), nothing) := (DoCall(s, c), NothingToRelease(s.base, s.length, c.op));
            && !out.Faulted? && (out.Aborted? <==> c.armed && !nothing)
            && (out.Skipped? <==> nothing)
            && (!out.Ends() ==> Startable(s') && !s'.inTrip && Ok(s') && s'.base == s.base && s'.length == s.length)
            && (!out.Ends() ==>
                  s'.freed == s.freed + if (c.op.Free? || c.op.Delete?) && !nothing then [c.op.ptr] else [])
            && (out.Aborted? ==> s'.freed == s.freed + DueFrees(s.base, s.length, c.diagnostics))
  {
    assert Ignored(s, c.op) <==> NothingToRelease(s.base, s.length, c.op);
    CallIsGood(s, c);
    if s.known.All() {
      KnownCall(s, c);
      if !Ignored(s, c.op) {
        KnownCallIsCheck(s, c);
        if c.armed {
          AbortedFrees(s, c);
        }
      }
    } else if !Ignored(s, c.op) {
      FirstCall(s, c);
      FirstEnsure(s, c.lookups);
      var s' := DoEnsure(s, c.lookups).0;
      assert DoCall(s, c) == DoCheck(s', c);
      if c.armed {
        AbortedFrees(s', c);
      }
    }
  }

  lemma AbortedFrees(s: Process, c: Call)
    requires s.known.All() && !s.inTrip && c.armed
    ensures DoCheck(s, c).0.freed == s.freed + DueFrees(s.base, s.length, c.diagnostics)
  {
    var raised := s.(inTrip := true, trips := s.trips + 1);
    ReportingFrees(raised, c.diagnostics);
    ReportingPasses(raised, c.diagnostics);
  }

  lemma {:induction false} ReportingFrees(s: Process, calls: seq<Call>)
    requires s.known.All() && s.inTrip
    ensures DoCalls(s, calls).0.freed == s.freed + DueFrees(s.base, s.length, calls)
  {
    if calls != [] {
      var front, last := calls[..|calls| - 1], calls[|calls| - 1];
      ReportingFrees(s, front);
      ReportingPasses(s, front);
      KnownCall(DoCalls(s, front).0, last);
    }
  }

  /** A thread that makes these calls, its first ones in the process included, enters trip
      and aborts exactly when one of them is made while armed and is not a release of NULL or
      of bootstrap memory; nothing else ends the process. */
  lemma {:induction false} ThreadAbortsIff(s: Process, calls: seq<Call>)
    requires Ok(s) && !s.inTrip && Startable(s) && Ordinary(s, calls)
    ensures var (s', out) := DoCalls(s, calls);
            && Ok(s') && s'.trips <= 1 && !out.Faulted?
            && (out.Aborted? <==> !NoneCaught(s, calls))
            && (!out.Ends() ==> Startable(s') && !s'.inTrip && s'.base == s.base && s'.length == s.length)
            && (!out.Ends() ==> s'.freed == s.freed + DueFrees(s.base, s.length, calls))
  {
    CallsAreGood(s, calls);
    if calls != [] {
      var front, last := calls[..|calls| - 1], calls[|calls| - 1];
      ThreadAbortsIff(s, front);
      var (s', out) := DoCalls(s, front);
      assert forall i :: 0 <= i < |front| ==> front[i] == calls[i];
      if !out.Ends() {
        assert GentleLookups(s', last.lookups) by {
          assert GentleLookups(s, calls[|calls| - 1].lookups);
        }
        OneCall(s', last);
      }
    }
  }

  lemma GentleStays(s: Process, s': Process, l: Lookups)
    requires s'.base == s.base && s'.length == s.length && GentleLookups(s, l)
    ensures GentleLookups(s', l)
  {
  }

  lemma CaughtCall(s: Process, front: seq<Call>, c: Call)
    requires Ok(s) && !s.inTrip && Startable(s) && Ordinary(s, front) && GentleLookups(s, c.lookups)
    requires NoneCaught(s, front) && c.armed && !NothingToRelease(s.base, s.length, c.op)
    ensures var (s', out) := DoCalls(s, front + [c]);
            && out.Ends()
            && s'.freed == s.freed + DueFrees(s.base, s.length, front) + DueFrees(s.base, s.length, c.diagnostics)
  {
    ThreadAbortsIff(s, front);
    var s' := DoCalls(s, front).0;
    GentleStays(s, s', c.lookups);
    OneCall(s', c);
    assert (front + [c])[..|front|] == front;
  }

  /** Up to the first call that is caught, the real free gets exactly the releases that have
      something to do, and then those that the diagnostics make. */
  lemma FreedBeforeAbort(s: Process, calls: seq<Call>, i: nat)
    requires Ok(s) && !s.inTrip && Startable(s) && Ordinary(s, calls)
    requires i < |calls| && NoneCaught(s, calls[..i])
    requires calls[i].armed && !NothingToRelease(s.base, s.length, calls[i].op)
    ensures DoCalls(s, calls).0.freed ==
            s.freed + DueFrees(s.base, s.length, calls[..i]) + DueFrees(s.base, s.length, calls[i].diagnostics)
  {
    assert calls[..i + 1] == calls[..i] + [calls[i]];
    CaughtCall(s, calls[..i], calls[i]);
    EndIsFinal(s, calls, i + 1);
  }
}
