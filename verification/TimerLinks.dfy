/**
 * The links of the timer list of generic/timer_factory.c. A timer that has expired and
 * waits for its call keeps its link in the list of waiting timers. The assertion in front
 * of the insertion looks at that link, which is null for the last waiting timer: a callback
 * may enable that one, and the handler then walks on from it into the main list.
 *
 * Timers that the handler arms again are not part of this module.
 */
module TimerLinks {
  import opened Common
  import opened TimerQueue

  function First(list: seq<nat>): Option<nat> {
    if list == [] then None else Some(list[0])
  }

  /** What follows index `i` of the list. */
  function After(list: seq<nat>, i: nat): Option<nat> {
    if i + 1 < |list| then Some(list[i + 1]) else None
  }

  /** Following the links from `head` visits the timers of the list and ends. */
  ghost predicate Chain(next: map<nat, Option<nat>>, head: Option<nat>, list: seq<nat>) {
    && head == First(list) && Distinct(list)
    && forall i | 0 <= i < |list| :: list[i] in next && next[list[i]] == After(list, i)
  }

  lemma ChainSuffix(next: map<nat, Option<nat>>, head: Option<nat>, list: seq<nat>, k: nat)
    requires Chain(next, head, list) && k <= |list|
    ensures Chain(next, First(list[k..]), list[k..])
  {
    var rest := list[k..];
    forall i | 0 <= i < |rest|
      ensures rest[i] in next && next[rest[i]] == After(rest, i)
    {
      assert rest[i] == list[k + i];
    }
    assert forall i, j | 0 <= i < j < |rest| :: rest[i] == list[k + i] && rest[j] == list[k + j];
  }

  function Inserted(list: seq<nat>, k: nat, id: nat): (longer: seq<nat>)
    requires k <= |list|
    ensures |longer| == |list| + 1 && longer[k] == id && longer[k..] == [id] + list[k..]
    ensures forall i | 0 <= i < k :: longer[i] == list[i]
    ensures forall i | k < i < |longer| :: longer[i] == list[i - 1]
  {
    list[..k] + [id] + list[k..]
  }

  lemma InsertedDistinct(list: seq<nat>, k: nat, id: nat)
    requires k <= |list| && id !in list && Distinct(list)
    ensures Distinct(Inserted(list, k, id))
  {
    var longer := Inserted(list, k, id);
    hide Inserted;
    forall i, j | 0 <= i < j < |longer|
      ensures longer[i] != longer[j]
    {
      var i', j' := if i <= k then i else i - 1, if j <= k then j else j - 1;
      assert i != k ==> longer[i] == list[i'];
      assert j != k ==> longer[j] == list[j'];
    }
  }

  /** A timer is linked between two others, or at an end. */
  lemma ChainInserted(
    next: map<nat, Option<nat>>, head: Option<nat>, list: seq<nat>, k: nat, id: nat,
    next': map<nat, Option<nat>>, head': Option<nat>)
    requires Chain(next, head, list) && id !in list && k <= |list|
    requires next' == if k == 0 then next[id := head] else next[id := After(list, k - 1)][list[k - 1] := Some(id)]
    requires head' == if k == 0 then Some(id) else head
    ensures Chain(next', head', Inserted(list, k, id)) && Chain(next', Some(id), [id] + list[k..])
  {
    var longer := Inserted(list, k, id);
    InsertedDistinct(list, k, id);
    hide Inserted;
    forall i | 0 <= i < |longer|
      ensures longer[i] in next' && next'[longer[i]] == After(longer, i)
    {
      if i < k {
        assert longer[i] == list[i] && (i + 1 < k ==> longer[i + 1] == list[i + 1]);
      } else if k < i {
        assert longer[i] == list[i - 1];
        assert k != 0 ==> list[k - 1] != list[i - 1];
      }
    }
    ChainSuffix(next', head', longer, k);
  }

  class Links {
    var next: map<nat, Option<nat>>
    var head: Option<nat>

    constructor ()
      ensures Chain(next, head, [])
    {
      next, head := map[], None;
    }

    /** `insertTimer` on the links; the comparison of the timestamps is that of the deadlines. */
    method InsertTimer(id: nat, timers: seq<Timer>, ghost list: seq<nat>) returns (ghost k: nat)
      requires Chain(next, head, list) && id !in list && id < |timers| && Known(list, timers)
      modifies this
      ensures k <= |list| && forall i | 0 <= i < k :: timers[list[i]].deadline < timers[id].deadline
      ensures k < |list| ==> timers[id].deadline <= timers[list[k]].deadline
      ensures Chain(next, head, Inserted(list, k, id)) && Chain(next, Some(id), [id] + list[k..])
    {
      var previous, current := None, head;
      k := 0;
      while current.Some? && timers[current.value].deadline < timers[id].deadline
        invariant k <= |list| && current == (if k < |list| then Some(list[k]) else None)
        invariant previous == if k == 0 then None else Some(list[k - 1])
        invariant forall i | 0 <= i < k :: timers[list[i]].deadline < timers[id].deadline
        decreases |list| - k
      {
        previous, current := current, next[current.value];
        k := k + 1;
      }
      ghost var links, first := next, head;
      next := next[id := current];
      match previous {
        case None => head := Some(id);
        case Some(timer) => next := next[timer := Some(id)];
      }
      ChainInserted(links, first, list, k, id, next, head);
    }

    /** The loop of the handler that calls the waiting timers. */
    method CallWaiting(first: Option<nat>, ghost order: seq<nat>) returns (called: seq<nat>)
      requires Chain(next, first, order)
      modifies this`next
      ensures called == order
      ensures next.Keys == old(next).Keys
      ensures forall x | x in next :: next[x] == if x in order then None else old(next)[x]
    {
      var current := first;
      called := [];
      ghost var n: nat := 0;
      while current.Some?
        invariant n <= |order| && called == order[..n]
        invariant current == if n < |order| then Some(order[n]) else None
        invariant next.Keys == old(next).Keys
        invariant forall x | x in next && x in called :: next[x] == None
        invariant forall x | x in next && x !in called :: next[x] == old(next)[x]
        decreases |order| - n
      {
        var timer := current.value;
        assert order[..n + 1] == called + [timer] && timer !in called;
        current := next[timer];
        next := next[timer := None];
        called := called + [timer];
        n := n + 1;
      }
      assert called == order;
    }

    /**
     * The callback of another timer enables the last waiting timer, and the handler goes on.
     * It calls every timer of the list with the same or a later deadline at once and drops
     * them from the list, so it is right exactly if the new deadline is the latest of all.
     */
    method EnableLastWaiting(id: nat, timers: seq<Timer>, ghost list: seq<nat>)
      returns (called: seq<nat>, ghost k: nat)
      requires Chain(next, head, list) && id !in list && id < |timers| && Known(list, timers)
      requires id in next && next[id] == None
      modifies this
      ensures k <= |list| && called == [id] + list[k..] && Chain(next, head, list[..k] + [id])
      ensures forall i | 0 <= i < k :: timers[list[i]].deadline < timers[id].deadline
      ensures called == [id] <==> forall i | 0 <= i < |list| :: timers[list[i]].deadline < timers[id].deadline
    {
      k := InsertTimer(id, timers, list);
      ghost var links := next;
      called := CallWaiting(Some(id), [id] + list[k..]);
      ChainCut(links, next, head, list, k, id);
    }
  }

  /** The walk from the inserted timer leaves the list up to it. */
  lemma ChainCut(
    next: map<nat, Option<nat>>, next': map<nat, Option<nat>>, head: Option<nat>, list: seq<nat>, k: nat, id: nat)
    requires k <= |list| && Chain(next, head, Inserted(list, k, id))
    requires next'.Keys == next.Keys
    requires forall x | x in next' :: next'[x] == if x in [id] + list[k..] then None else next[x]
    ensures Chain(next', head, list[..k] + [id])
  {
    var longer, cut := Inserted(list, k, id), list[..k] + [id];
    var rest := longer[k..];
    hide Inserted;
    forall i | 0 <= i < |cut|
      ensures cut[i] == longer[i] && cut[i] in next' && next'[cut[i]] == After(cut, i)
    {
      assert cut[i] == longer[i];
      if i < k {
        Apart(longer, k, i);
        assert cut[i + 1] == longer[i + 1];
      }
    }
  }

  lemma Apart(list: seq<nat>, k: nat, i: nat)
    requires Distinct(list) && i < k < |list|
    ensures list[i] !in list[k..]
  {
    assert forall j | 0 <= j < |list[k..]| :: list[k..][j] == list[k + j];
  }
}
