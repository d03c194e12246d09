/**
 * The listener lists of logStore.js and disasterBus.js: `push` to subscribe,
 * and an unsubscribe closure that filters the callback out by identity.
 */
module Listeners {
  /** A subscribed callback, compared by identity (`l !== fn`). */
  type ListenerId = nat

  /** `listeners.push(fn)`. */
  function Subscribe(ls: seq<ListenerId>, fn: ListenerId): (r: seq<ListenerId>)
    ensures |r| == |ls| + 1 && r[|ls|] == fn && r[..|ls|] == ls
  {
    ls + [fn]
  }

  /** `listeners.filter(l => l !== fn)`: every copy of `fn` goes, everything else stays in order. */
  function Remove(ls: seq<ListenerId>, fn: ListenerId): (r: seq<ListenerId>)
    ensures fn !in r
    ensures forall x :: x != fn ==> multiset(r)[x] == multiset(ls)[x]
    ensures |r| <= |ls|
    ensures fn !in ls ==> r == ls
  {
    if |ls| == 0 then []
    else
      assert ls == [ls[0]] + ls[1..];
      if ls[0] == fn then Remove(ls[1..], fn) else [ls[0]] + Remove(ls[1..], fn)
  }

  /** Filtering distributes over concatenation, so the survivors keep their relative order. */
  lemma {:induction false} RemoveConcat(a: seq<ListenerId>, b: seq<ListenerId>, fn: ListenerId)
    ensures Remove(a + b, fn) == Remove(a, fn) + Remove(b, fn)
    decreases |a|
  {
    if |a| == 0 {
      assert a + b == b;
    } else {
      assert (a + b)[0] == a[0];
      assert (a + b)[1..] == a[1..] + b;
      RemoveConcat(a[1..], b, fn);
      if a[0] != fn {
        assert Remove(a + b, fn) == [a[0]] + (Remove(a[1..], fn) + Remove(b, fn));
        assert Remove(a, fn) == [a[0]] + Remove(a[1..], fn);
      }
    }
  }

  /** Unsubscribing a listener that was not subscribed before restores the list exactly. */
  lemma SubscribeThenUnsubscribe(ls: seq<ListenerId>, fn: ListenerId)
    requires fn !in ls
    ensures Remove(Subscribe(ls, fn), fn) == ls
  {
    RemoveConcat(ls, [fn], fn);
    assert Remove([fn], fn) == Remove([], fn);
  }

  /** Removing one listener leaves every other listener's subscriptions in place. */
  lemma RemoveKeepsOthers(ls: seq<ListenerId>, fn: ListenerId, other: ListenerId)
    requires other != fn
    ensures other in Remove(ls, fn) <==> other in ls
  {
    assert multiset(Remove(ls, fn))[other] == multiset(ls)[other];
  }
}
