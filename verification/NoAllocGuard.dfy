/** The code of the no-allocation guard: the pool of bytes, the functions that dlsym() has found
    and the trip flags, changed in place as the functions of GuardModel say. */
module NoAllocGuard {
  import opened GuardModel

  class Guard {
    const base: nat
    /** What dlsym() finds. */
    const exported: Functions
    const pool: array<int>
    var used: nat
    var resolving: bool
    /** Which real functions have been looked up. */
    var known: Functions
    /** One trip flag for each thread. */
    var inTrip: seq<bool>
    ghost var trips: seq<nat>
    ghost var served: seq<Served>
    ghost var freed: seq<nat>

    ghost predicate PoolOk()
      reads this`used, this`served
    {
      PoolState(base, pool.Length, served, used)
    }

    ghost predicate Valid()
      reads this
    {
      && PoolOk() && FreedOutside(base, pool.Length, freed)
      && |trips| == |inTrip|
      && (forall t :: 0 <= t < |trips| ==> trips[t] == if inTrip[t] then 1 else 0)
    }

    /** The process as thread t sees it. */
    ghost function View(t: nat): Process
      reads this
      requires t < |inTrip| && t < |trips|
    {
      Process(base, pool.Length, used, exported, resolving, known, inTrip[t], trips[t], served, freed)
    }

    twostate predicate OthersKept(t: nat)
      reads this
    {
      && |inTrip| == old(|inTrip|) && |trips| == old(|trips|)
      && (forall u :: 0 <= u < |inTrip| && u != t ==> inTrip[u] == old(inTrip[u]))
      && (forall u :: 0 <= u < |trips| && u != t ==> trips[u] == old(trips[u]))
    }

    constructor (base: nat, poolSize: nat, threads: nat, exported: Functions)
      requires base > 0 && poolSize < SIZE_RANGE
      ensures Valid() && served == [] && freed == [] && this.exported == exported
      ensures pool.Length == poolSize && |inTrip| == threads
      ensures !resolving && known == NONE
      ensures forall t :: 0 <= t < threads ==> !inTrip[t]
      ensures fresh(pool)
    {
      this.base, this.exported := base, exported;
      pool := new int[poolSize](_ => 0);
      inTrip, trips := seq(threads, _ => false), seq(threads, _ => 0);
      used, served, freed := 0, [], [];
      resolving, known := false, NONE;
    }

    // ---- The bootstrap pool ----

    /** A zeroed region behind all earlier ones, or NULL when it would not fit. Only a size
        that wraps around past the pool would make it write outside. */
    method BootstrapCalloc(r: Request) returns (p: nat, ok: bool)
      requires PoolOk()
      modifies this`used, this`served, pool
      ensures PoolOk()
      ensures ok <==> old(used) + Padded(r) < SIZE_RANGE
      ensures !ok ==> used == old(used) && served == old(served)
      ensures ok ==> served == old(served) + [Served(r, Padded(r), p)]
      ensures ok ==> (p == NULL <==> Padded(r) == 0 || old(used) + Padded(r) > pool.Length)
      ensures p == NULL ==> used == old(used) && pool[..] == old(pool[..])
      ensures p != NULL ==>
                && p == base + old(used) && (p - base) % 16 == 0 && used == old(used) + Padded(r) <= pool.Length
                && (forall i :: p - base <= i < used ==> pool[i] == 0)
                && (forall i :: 0 <= i < old(used) ==> pool[i] == old(pool[i]))
    {
      PaddedHoldsRequestIff(r);
      p, ok := TakeRegion(r, Masked(r.count * r.size));
    }

    method TakeRegion(r: Request, total: nat) returns (p: nat, ok: bool)
      requires PoolOk() && total % 16 == 0 && total < SIZE_RANGE
      modifies this`used, this`served, pool
      ensures PoolOk()
      ensures ok <==> old(used) + total < SIZE_RANGE
      ensures !ok ==> used == old(used) && served == old(served)
      ensures ok ==> served == old(served) + [Served(r, total, p)]
      ensures ok ==> (p == NULL <==> total == 0 || old(used) + total > pool.Length)
      ensures p == NULL ==> used == old(used) && pool[..] == old(pool[..])
      ensures p != NULL ==>
                && p == base + old(used) && (p - base) % 16 == 0 && used == old(used) + total <= pool.Length
                && (forall i :: p - base <= i < used ==> pool[i] == 0)
                && (forall i :: 0 <= i < old(used) ==> pool[i] == old(pool[i]))
    {
      p, ok := NULL, true;
      if total == 0 || SizeSum(used, total) > pool.Length {
        RefusalKeepsState(base, pool.Length, served, used, r, total);
        served := served + [Served(r, total, NULL)];
      } else if used + total >= SIZE_RANGE {
        ok := false;
      } else {
        p := HandOut(r, total);
      }
    }

    method HandOut(r: Request, total: nat) returns (p: nat)
      requires PoolOk() && 0 < total && total % 16 == 0 && used + total <= pool.Length
      modifies this`used, this`served, pool
      ensures PoolOk() && served == old(served) + [Served(r, total, p)]
      ensures p == base + old(used) && old(used) % 16 == 0 && used == old(used) + total
      ensures forall i :: old(used) <= i < used ==> pool[i] == 0
      ensures forall i :: 0 <= i < old(used) ==> pool[i] == old(pool[i])
    {
      p := base + used;
      Clear(used, total);
      GrantKeepsState(base, pool.Length, served, used, r, total);
      used, served := used + total, served + [Served(r, total, p)];
    }

    method Clear(start: nat, size: nat)
      requires start + size <= pool.Length
      modifies pool
      ensures forall i :: 0 <= i < pool.Length ==>
                pool[i] == if start <= i < start + size then 0 else old(pool[i])
    {
      var i := start;
      while i < start + size
        invariant start <= i <= start + size
        invariant forall j :: 0 <= j < pool.Length ==> pool[j] == if start <= j < i then 0 else old(pool[j])
      {
        pool[i] := 0;
        i := i + 1;
      }
    }

    /** No two bootstrap regions share a byte, and all lie in the used part of the pool. */
    lemma RegionsAreDisjoint(i: nat, j: nat)
      requires PoolOk() && i < j < |Granted(base, served)|
      ensures var rs := Granted(base, served);
              rs[i].start + rs[i].size <= rs[j].start && rs[j].start + rs[j].size <= used <= pool.Length
    {
      TilesAscend(Granted(base, served), used, i, j);
      TilesEnd(Granted(base, served), used, j);
    }

    // ---- Calls ----

    /** One call into the allocator on thread t. */
    method Guarded(t: nat, c: Call) returns (out: Outcome)
      requires Valid() && t < |inTrip|
      modifies this, pool
      ensures Valid() && OthersKept(t)
      ensures (View(t), out) == DoCall(old(View(t)), c)
      ensures out.Skipped? <==>
                (c.op.Free? || c.op.Delete?) && (c.op.ptr == 0 || base <= c.op.ptr < base + pool.Length)
      decreases c, 2
    {
      ghost var s := View(t);
      if (c.op.Free? || c.op.Delete?) && (c.op.ptr == NULL || base <= c.op.ptr < base + pool.Length) {
        return Skipped;
      }
      if c.op.Calloc? {
        out := CallocCall(t, c);
        return;
      }
      out := EnsureRealFns(t, c.lookups);
      if !out.Ends() {
        EnsureIsGood(s, c.lookups);
        out := CheckAndCall(t, c);
      }
    }

    /** calloc decides between the pool and the real function. */
    method CallocCall(t: nat, c: Call) returns (out: Outcome)
      requires Valid() && t < |inTrip| && c.op.Calloc?
      modifies this, pool
      ensures Valid() && OthersKept(t)
      ensures (View(t), out) == DoCalloc(old(View(t)), c)
      ensures old(known.calloc) ==> !out.Pooled?
      ensures !old(known.calloc) && old(resolving) ==> out.Pooled? || out.Faulted?
      ensures !out.Skipped?
      decreases c, 1
    {
      if !known.calloc {
        if resolving {
          out := FromPool(t, c.op.request);
          return;
        }
        out := EnsureRealFns(t, c.lookups);
        if out.Ends() {
          return;
        }
        if !known.calloc {
          out := FromPool(t, c.op.request);
          return;
        }
      }
      out := CheckAndCall(t, c);
    }

    method FromPool(t: nat, r: Request) returns (out: Outcome)
      requires Valid() && t < |inTrip|
      modifies this`used, this`served, pool
      ensures Valid() && OthersKept(t)
      ensures (View(t), out) == PoolAnswer(old(View(t)), r)
    {
      var p, ok := BootstrapCalloc(r);
      out := if ok then Pooled(p) else Faulted;
    }

    method CheckAndCall(t: nat, c: Call) returns (out: Outcome)
      requires Valid() && t < |inTrip| && !Ignored(View(t), c.op)
      modifies this, pool
      ensures Valid() && OthersKept(t)
      ensures (View(t), out) == DoCheck(old(View(t)), c)
      ensures out.Passed? || out.Ends()
      decreases c, 0
    {
      if !inTrip[t] && c.armed {
        out := Trip(t, c.diagnostics);
      } else if !known.Has(Target(c.op)) {
        out := Faulted;
      } else {
        freed := freed + Released(c.op);
        out := Passed;
      }
    }

    method Trip(t: nat, diagnostics: seq<Call>) returns (out: Outcome)
      requires Valid() && t < |inTrip| && !inTrip[t]
      modifies this, pool
      ensures Valid() && OthersKept(t)
      ensures (View(t), out) == DoTrip(old(View(t)), diagnostics)
      ensures out.Ends()
      decreases diagnostics, 1
    {
      inTrip, trips := inTrip[t := true], trips[t := trips[t] + 1];
      out := RunCalls(t, diagnostics);
      if !out.Ends() {
        out := Aborted;
      }
    }

    /** Looks up what is missing, calloc last. A call from within a look-up returns at once. */
    method EnsureRealFns(t: nat, l: Lookups) returns (out: Outcome)
      requires Valid() && t < |inTrip|
      modifies this, pool
      ensures Valid() && OthersKept(t)
      ensures (View(t), out) == DoEnsure(old(View(t)), l)
      decreases l, 1
    {
      if known.All() || resolving {
        return Passed;
      }
      resolving := true;
      ghost var s := View(t);
      out := FindReal(t, MallocFn, l.malloc);
      if out.Ends() {
        assert (View(t), out) == DoFirstLookUps(s, l);
        return;
      }
      out := FindReal(t, ReallocFn, l.realloc);
      ghost var s' := View(t);
      assert (s', out) == DoFirstLookUps(s, l);
      if out.Ends() {
        return;
      }
      out := FindReal(t, FreeFn, l.free);
      if out.Ends() {
        assert (View(t), out) == DoLastLookUps(s', l);
        return;
      }
      out := FindReal(t, CallocFn, l.calloc);
      assert (View(t), out) == DoLastLookUps(s', l);
      if !out.Ends() {
        resolving := false;
        out := Passed;
      }
    }

    /** One look-up by dlsym(), made only for a function that is not known yet. */
    method FindReal(t: nat, f: Fn, nested: seq<Call>) returns (out: Outcome)
      requires Valid() && t < |inTrip|
      modifies this, pool
      ensures Valid() && OthersKept(t)
      ensures (View(t), out) == DoLookUp(old(View(t)), f, nested)
      decreases nested, 1
    {
      out := Passed;
      if !known.Has(f) {
        out := RunCalls(t, nested);
        if !out.Ends() {
          known := known.Set(f, exported.Has(f));
        }
      }
    }

    /** Calls that a thread makes one after the other, until one ends the process. */
    method RunCalls(t: nat, calls: seq<Call>) returns (out: Outcome)
      requires Valid() && t < |inTrip|
      modifies this, pool
      ensures Valid() && OthersKept(t)
      ensures (View(t), out) == DoCalls(old(View(t)), calls)
      decreases calls, 0
    {
      var i := 0;
      out := Passed;
      while i < |calls|
        invariant 0 <= i <= |calls| && Valid() && OthersKept(t)
        invariant !out.Ends() && (View(t), Passed) == DoCalls(old(View(t)), calls[..i])
      {
        out := Guarded(t, calls[i]);
        assert calls[..i + 1][..i] == calls[..i];
        i := i + 1;
        if out.Ends() {
          EndIsFinal(old(View(t)), calls, i);
          return;
        }
      }
      assert calls[..i] == calls;
      out := Passed;
    }
  }
}
