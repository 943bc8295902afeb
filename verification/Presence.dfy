/** The phase machine that waits for a writer to go online, offline and online again. */
module Presence {

  datatype Phase = WaitingFirstOnline | WaitingOffline | WaitingSecondOnline | Done

  function Index(p: Phase): nat {
    match p
    case WaitingFirstOnline => 0
    case WaitingOffline => 1
    case WaitingSecondOnline => 2
    case Done => 3
  }

  predicate Online(aliveCount: int) {
    aliveCount > 0
  }

  /** The first k of online, offline, online occur in this order in the counts. */
  ghost predicate Seen(counts: seq<int>, k: nat) {
    match k
    case 0 => true
    case 1 => exists i :: 0 <= i < |counts| && counts[i] > 0
    case 2 => exists i, j :: 0 <= i < j < |counts| && counts[i] > 0 && counts[j] <= 0
    case _ => exists i, j, l :: 0 <= i < j < l < |counts| && counts[i] > 0 && counts[j] <= 0 && counts[l] > 0
  }

  /** The phase is the longest part of the cycle that has occurred. */
  ghost predicate Tracks(phase: Phase, counts: seq<int>) {
    && Seen(counts, Index(phase))
    && (phase != Done ==> !Seen(counts, Index(phase) + 1))
  }

  class Observer {
    var phase: Phase
    var step: int
    var cycleComplete: bool
    ghost var history: seq<int>

    /** Greedy matching is complete: the machine is done exactly when online, offline,
        online has occurred, with whatever repetitions in between. */
    ghost predicate Valid()
      reads this
    {
      && step == Index(phase)
      && (cycleComplete <==> phase == Done)
      && Tracks(phase, history)
    }

    constructor ()
      ensures Valid() && history == [] && step == 0
    {
      phase, step, cycleComplete, history := WaitingFirstOnline, 0, false, [];
    }

    method OnLivelinessChanged(aliveCount: int)
      requires Valid()
      modifies this
      ensures Valid() && history == old(history) + [aliveCount]
      ensures old(step) <= step <= old(step) + 1
      ensures cycleComplete <==> Seen(history, 3)
    {
      var online := Online(aliveCount);
      ghost var before := phase;
      match phase {
        case WaitingFirstOnline =>
          if online {
            phase := WaitingOffline;
            step := 1;
          }
        case WaitingOffline =>
          if !online {
            phase := WaitingSecondOnline;
            step := 2;
          }
        case WaitingSecondOnline =>
          if online {
            phase := Done;
            step := 3;
            cycleComplete := true;
          }
        case Done =>
      }
      GreedyStep(before, history, aliveCount);
      DoneMeansCycle(phase, history + [aliveCount]);
      history := history + [aliveCount];
    }

    method OnAll(counts: seq<int>)
      requires Valid() && history == []
      modifies this
      ensures Valid() && history == counts
      ensures cycleComplete <==> Seen(counts, 3)
    {
      var i := 0;
      DoneMeansCycle(phase, history);
      while i < |counts|
        invariant 0 <= i <= |counts| && Valid() && history == counts[..i]
        invariant cycleComplete <==> Seen(history, 3)
      {
        OnLivelinessChanged(counts[i]);
        i := i + 1;
      }
      assert counts[..i] == counts;
    }
  }

  function Next(phase: Phase, online: bool): Phase {
    match phase
    case WaitingFirstOnline => if online then WaitingOffline else phase
    case WaitingOffline => if online then phase else WaitingSecondOnline
    case WaitingSecondOnline => if online then Done else phase
    case Done => Done
  }

  lemma SeenGrows(counts: seq<int>, c: int, k: nat)
    requires k <= 3
    ensures Seen(counts, k) ==> Seen(counts + [c], k)
    ensures Seen(counts + [c], k) ==>
              Seen(counts, k) || (k > 0 && Seen(counts, k - 1) && Online(c) == (k != 2))
    ensures k > 0 && Seen(counts, k - 1) && Online(c) == (k != 2) ==> Seen(counts + [c], k)
  {
    var all := counts + [c];
    assert forall i :: 0 <= i < |counts| ==> all[i] == counts[i];
    assert all[|counts|] == c;
  }

  lemma GreedyStep(phase: Phase, counts: seq<int>, c: int)
    requires Tracks(phase, counts)
    ensures Tracks(Next(phase, Online(c)), counts + [c])
  {
    SeenGrows(counts, c, Index(phase));
    if phase != Done {
      SeenGrows(counts, c, Index(phase) + 1);
      if Index(phase) < 2 {
        SeenGrows(counts, c, Index(phase) + 2);
        Monotone(counts, Index(phase) + 1);
      }
    }
  }

  lemma Monotone(counts: seq<int>, k: nat)
    requires k < 3
    ensures Seen(counts, k + 1) ==> Seen(counts, k)
  {
  }

  lemma DoneMeansCycle(phase: Phase, counts: seq<int>)
    requires Tracks(phase, counts)
    ensures phase == Done <==> Seen(counts, 3)
  {
    Monotone(counts, 0);
    Monotone(counts, 1);
    Monotone(counts, 2);
  }
}
