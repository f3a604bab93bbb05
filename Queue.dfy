/** The send queue of core/queue/queue.js: one module-level array, grown
    at the tail by `addToQueue` and cut at the front by `pullN`. */
module Queue {

  /** How many items `splice(0, n)` removes from an array of length `len`:
      a negative count removes none, a count past the end removes the
      rest. */
  function Taken(n: int, len: nat): (k: nat)
    ensures k <= len
    ensures n <= 0 ==> k == 0
    ensures 0 <= n <= len ==> k == n
    ensures n >= len ==> k == len
  {
    if n <= 0 then 0 else if n >= len then len else n
  }

  /** What `pullN(n)` returns, and what the queue `q` holds after it. */
  function Pull<T>(q: seq<T>, n: int): (r: (seq<T>, seq<T>))
    ensures r.0 + r.1 == q
    ensures |r.0| == Taken(n, |q|)
  {
    var k := Taken(n, |q|);
    assert q[..k] + q[k..] == q;
    (q[..k], q[k..])
  }

  /** The queue array. */
  class SendQueue<T> {
    var items: seq<T>

    /** `const queue = []`. */
    constructor ()
      ensures items == []
    {
      items := [];
    }

    /** `addToQueue(...messages)`: `queue.push(...messages)`. */
    method AddToQueue(messages: seq<T>)
      modifies this
      ensures items == old(items) + messages
    {
      items := items + messages;
    }

    /** `pullN(n)`: `queue.splice(0, n)`. */
    method PullN(n: int) returns (pulled: seq<T>)
      modifies this
      ensures (pulled, items) == Pull(old(items), n)
    {
      var k := Taken(n, |items|);
      pulled := items[..k];
      items := items[k..];
    }
  }

  /** `pullN(0)`, or a negative count, returns nothing and leaves the queue
      as it was. */
  lemma PullNothing<T>(q: seq<T>, n: int)
    requires n <= 0
    ensures Pull(q, n) == ([], q)
  {
    assert Pull(q, n).0 == [];
  }

  /** The front of the queue is returned: at most `n` items, and the length
      left is `max(0, |q| - n)`. */
  lemma PullFront<T>(q: seq<T>, n: int)
    ensures Pull(q, n).0 == q[..Taken(n, |q|)]
    ensures Pull(q, n).1 == q[Taken(n, |q|)..]
    ensures |Pull(q, n).1| == if n <= 0 then |q| else if n >= |q| then 0 else |q| - n
  {
    var r := Pull(q, n);
    var k := Taken(n, |q|);
    assert r.0 == (r.0 + r.1)[..k];
  }

  /** Items added later never overtake earlier ones: pulling from a queue
      that got more items at its tail returns what it would have returned
      before, as long as the earlier items suffice. */
  lemma PullFifo<T>(q: seq<T>, ms: seq<T>, n: int)
    requires n <= |q|
    ensures Pull(q + ms, n).0 == Pull(q, n).0
    ensures Pull(q + ms, n).1 == Pull(q, n).1 + ms
  {
    PullFront(q + ms, n);
    PullFront(q, n);
    var k := Taken(n, |q|);
    assert (q + ms)[..k] == q[..k];
    assert (q + ms)[k..] == q[k..] + ms;
  }

  /** Two pulls in a row return what one pull of both counts returns, and
      leave the same queue. */
  lemma PullTwice<T>(q: seq<T>, n: nat, m: nat)
    ensures var first := Pull(q, n);
            var second := Pull(first.1, m);
            first.0 + second.0 == Pull(q, n + m).0 && second.1 == Pull(q, n + m).1
  {
    var first := Pull(q, n);
    var second := Pull(first.1, m);
    PullFront(q, n);
    PullFront(first.1, m);
    PullFront(q, n + m);
    var k, k' := Taken(n, |q|), Taken(n + m, |q|);
    assert k' == k + Taken(m, |q| - k);
    assert q[k..][..k' - k] == q[k..k'];
    assert q[..k] + q[k..k'] == q[..k'];
    assert q[k..][k' - k..] == q[k'..];
  }

  /** The items come out in the order they were added: after adding `a`
      and then `b` to an empty queue, pulling `|a|` returns `a` and leaves
      `b`. */
  lemma AddedThenPulled<T>(a: seq<T>, b: seq<T>)
    ensures Pull([] + a + b, |a|) == (a, b)
  {
    assert [] + a + b == a + b;
    PullFifo(a, b, |a|);
    PullFront(a, |a|);
    assert a[..|a|] == a;
  }
}
