/** The abstract allocator: a LIFO stack of free blocks, the histories of calls it
    admits, and what "the list threaded through the blocks" means.
    Blocks are numbered by their position in the pool; NULL is the null pointer. */
module BlockStack {

  const NULL: int := -1

  predicate NoDup(l: seq<int>) {
    forall i, j :: 0 <= i < j < |l| ==> l[i] != l[j]
  }

  /** The pointer that leads into a list. */
  function First(l: seq<int>): int {
    if l == [] then NULL else l[0]
  }

  /** `l` is threaded through the first words of its own blocks and ends in NULL. */
  predicate Linked(next: seq<int>, l: seq<int>) {
    forall i {:trigger l[i]} :: 0 <= i < |l| ==>
      0 <= l[i] < |next| && next[l[i]] == First(l[i + 1..])
  }

  lemma TailMembers(l: seq<int>)
    requires NoDup(l) && l != []
    ensures NoDup(l[1..])
    ensures forall x :: x in l[1..] <==> x in l && x != l[0]
  {
    assert l == [l[0]] + l[1..];
  }

  lemma LinkedTail(next: seq<int>, l: seq<int>)
    requires Linked(next, l) && l != []
    ensures Linked(next, l[1..])
  {
    forall i | 0 <= i < |l[1..]|
      ensures 0 <= l[1..][i] < |next| && next[l[1..][i]] == First(l[1..][i + 1..])
    {
      assert l[1..][i] == l[i + 1];
      assert l[1..][i + 1..] == l[i + 2..];
    }
  }

  lemma LinkedCons(next: seq<int>, b: int, l: seq<int>)
    requires Linked(next, l) && 0 <= b < |next| && next[b] == First(l)
    ensures Linked(next, [b] + l)
  {
    var m := [b] + l;
    forall i | 0 <= i < |m|
      ensures 0 <= m[i] < |next| && next[m[i]] == First(m[i + 1..])
    {
      if i == 0 {
        assert m[1..] == l;
      } else {
        assert m[i] == l[i - 1];
        assert m[i + 1..] == l[i..];
      }
    }
  }

  lemma LinkedFrame(next: seq<int>, l: seq<int>, b: int, w: int)
    requires Linked(next, l) && 0 <= b < |next| && b !in l
    ensures Linked(next[b := w], l)
  {
  }

  /** Walking from one pointer finds one list: the head determines the whole list. */
  lemma {:induction false} WalkIsUnique(next: seq<int>, l: seq<int>, m: seq<int>)
    requires Linked(next, l) && Linked(next, m) && First(l) == First(m)
    ensures l == m
  {
    if l != [] && m != [] {
      LinkedTail(next, l);
      LinkedTail(next, m);
      WalkIsUnique(next, l[1..], m[1..]);
      assert l == [l[0]] + l[1..];
      assert m == [m[0]] + m[1..];
    }
  }

  /** A list that reaches NULL never meets a block twice: it has no cycle. */
  lemma {:induction false} LinkedIsAcyclic(next: seq<int>, l: seq<int>)
    requires Linked(next, l)
    ensures NoDup(l)
  {
    forall i, j | 0 <= i < j < |l|
      ensures l[i] != l[j]
    {
      LinkedDrop(next, l, i);
      LinkedDrop(next, l, j);
      assert |l[i..]| != |l[j..]|;
      if l[i] == l[j] {
        WalkIsUnique(next, l[i..], l[j..]);
      }
    }
  }

  lemma {:induction false} LinkedDrop(next: seq<int>, l: seq<int>, k: nat)
    requires Linked(next, l) && k <= |l|
    ensures Linked(next, l[k..])
  {
    if k == 0 {
      assert l[0..] == l;
    } else {
      LinkedDrop(next, l, k - 1);
      LinkedTail(next, l[k - 1..]);
      assert l[k - 1..][1..] == l[k..];
    }
  }

  /** The blocks of a pool in the order in which a reset pushes them. */
  function ResetList(n: nat): (l: seq<int>)
    ensures |l| == n && NoDup(l) && forall i :: 0 <= i < n ==> l[i] == n - 1 - i
    ensures forall b :: b in l <==> 0 <= b < n
  {
    var l := seq(n, i requires 0 <= i < n => n - 1 - i);
    assert forall b {:trigger b in l} :: 0 <= b < n ==> l[n - 1 - b] == b;
    l
  }

  // ---- Histories of calls ----

  datatype Event =
    | Internal
    | Rejected(t: nat)
    | AllocReturns(t: nat, ptr: int)
    | FreeReturns(t: nat, ptr: int)

  /** May this call complete with this result when the free blocks are `l`? */
  predicate Legal(l: seq<int>, e: Event) {
    match e
    case Internal => true
    case Rejected(_) => true
    case AllocReturns(_, p) => p == First(l)
    case FreeReturns(_, p) => p >= 0 && p !in l
  }

  function After(l: seq<int>, e: Event): (r: seq<int>) {
    match e
    case Internal => l
    case Rejected(_) => l
    case AllocReturns(_, _) => if l == [] then l else l[1..]
    case FreeReturns(_, p) => [p] + l
  }

  /** Releasing a block and allocating next gives that block back, and the other way round. */
  lemma CallsUndoEachOther(l: seq<int>, t: nat, p: int)
    requires Legal(l, FreeReturns(t, p))
    ensures Legal(After(l, FreeReturns(t, p)), AllocReturns(t, p))
    ensures After(After(l, FreeReturns(t, p)), AllocReturns(t, p)) == l
    ensures l != [] ==> After(After(l, AllocReturns(t, l[0])), FreeReturns(t, l[0])) == l
  {
    assert ([p] + l)[1..] == l;
    assert l != [] ==> [l[0]] + l[1..] == l;
  }

  function Replay(l: seq<int>, es: seq<Event>): seq<int> {
    if es == [] then l else After(Replay(l, es[..|es| - 1]), es[|es| - 1])
  }

  ghost predicate LegalAt(l: seq<int>, es: seq<Event>, i: nat)
    requires i < |es|
  {
    Legal(Replay(l, es[..i]), es[i])
  }

  /** Every call in turn completes as it would on the stack. */
  ghost predicate LegalHistory(l: seq<int>, es: seq<Event>) {
    forall i :: 0 <= i < |es| ==> LegalAt(l, es, i)
  }

  lemma ReplayStep(l: seq<int>, es: seq<Event>, k: nat)
    requires k < |es|
    ensures Replay(l, es[..k + 1]) == After(Replay(l, es[..k]), es[k])
  {
    assert es[..k + 1][..k] == es[..k];
  }

  lemma AfterNoDup(l: seq<int>, e: Event)
    requires NoDup(l) && Legal(l, e)
    ensures NoDup(After(l, e))
  {
  }

  lemma {:induction false} ReplayNoDup(l: seq<int>, es: seq<Event>, k: nat)
    requires NoDup(l) && LegalHistory(l, es) && k <= |es|
    ensures NoDup(Replay(l, es[..k]))
  {
    if k > 0 {
      ReplayNoDup(l, es, k - 1);
      ReplayStep(l, es, k - 1);
      assert LegalAt(l, es, k - 1);
      AfterNoDup(Replay(l, es[..k - 1]), es[k - 1]);
    }
  }

  predicate HandsOut(e: Event, p: int) {
    e.AllocReturns? && e.ptr == p
  }

  predicate TakesBack(e: Event, p: int) {
    e.FreeReturns? && e.ptr == p
  }

  lemma {:induction false} StaysOut(l: seq<int>, es: seq<Event>, i: nat, j: nat, p: int)
    requires NoDup(l) && LegalHistory(l, es) && i < j <= |es|
    requires HandsOut(es[i], p) && p != NULL
    requires forall k :: i < k < j ==> !TakesBack(es[k], p)
    ensures p !in Replay(l, es[..j])
  {
    var before := Replay(l, es[..j - 1]);
    ReplayStep(l, es, j - 1);
    ReplayNoDup(l, es, j - 1);
    if j == i + 1 {
      assert LegalAt(l, es, i);
    } else {
      StaysOut(l, es, i, j - 1, p);
      assert !TakesBack(es[j - 1], p);
    }
  }

  /** No block is handed out twice without having been given back in between. */
  lemma NoBlockHandedOutTwice(l: seq<int>, es: seq<Event>, i: nat, j: nat, p: int)
    requires NoDup(l) && LegalHistory(l, es) && i < j < |es|
    requires HandsOut(es[i], p) && HandsOut(es[j], p) && p != NULL
    ensures exists k :: i < k < j && TakesBack(es[k], p)
  {
    assert LegalAt(l, es, j);
    if forall k :: i < k < j ==> !TakesBack(es[k], p) {
      StaysOut(l, es, i, j, p);
    }
  }
}
