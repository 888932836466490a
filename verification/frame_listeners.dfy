/** The multi-subscriber frame notification `onVideoFrameChangedEvents`: a C#
    multicast delegate, i.e. an ordered invocation list of handlers. */
module FrameListeners {

  /** Opaque identity of a subscribed handler. */
  type ListenerId = nat

  /** `+=`: the handler joins the end of the invocation list. */
  function Subscribe(xs: seq<ListenerId>, x: ListenerId): (r: seq<ListenerId>)
    ensures |r| == |xs| + 1 && r[|xs|] == x
    ensures r[..|xs|] == xs
  {
    xs + [x]
  }

  /** Position of the last occurrence of `x`. */
  function LastIndex(xs: seq<ListenerId>, x: ListenerId): (k: nat)
    requires x in xs
    ensures k < |xs| && xs[k] == x
    ensures x !in xs[k + 1..]
  {
    if xs[|xs| - 1] == x then |xs| - 1 else LastIndex(xs[..|xs| - 1], x)
  }

  /** `-=`: `Delegate.Remove` deletes the LAST occurrence of the handler and
      leaves the list as it was when the handler is not subscribed. */
  function Unsubscribe(xs: seq<ListenerId>, x: ListenerId): (r: seq<ListenerId>)
    ensures x !in xs ==> r == xs
    ensures x in xs ==> r == xs[..LastIndex(xs, x)] + xs[LastIndex(xs, x) + 1..]
    decreases |xs|
  {
    if xs == [] then []
    else if xs[|xs| - 1] == x then xs[..|xs| - 1]
    else
      var init, last := xs[..|xs| - 1], xs[|xs| - 1];
      var rest := Unsubscribe(init, x);
      assert xs == init + [last];
      assert x in xs ==> x in init && LastIndex(xs, x) == LastIndex(init, x);
      assert x in xs ==> var k := LastIndex(init, x);
        xs[..k] == init[..k] && xs[k + 1..] == init[k + 1..] + [last];
      rest + [last]
  }

  /** Unsubscribing removes exactly one copy of the handler, if any, and
      keeps every other subscription. */
  lemma UnsubscribeRemovesOne(xs: seq<ListenerId>, x: ListenerId)
    ensures multiset(Unsubscribe(xs, x)) == multiset(xs) - multiset{x}
    ensures |Unsubscribe(xs, x)| == if x in xs then |xs| - 1 else |xs|
  {
    if x in xs {
      UnsubscribePresent(xs, x);
    } else {
      assert multiset(xs) - multiset{x} == multiset(xs) by {
        assert x !in multiset(xs);
      }
    }
  }

  lemma UnsubscribePresent(xs: seq<ListenerId>, x: ListenerId)
    requires x in xs
    ensures multiset(Unsubscribe(xs, x)) == multiset(xs) - multiset{x}
    ensures |Unsubscribe(xs, x)| == |xs| - 1
  {
    var k := LastIndex(xs, x);
    var before, after := xs[..k], xs[k + 1..];
    assert xs == before + [x] + after;
    assert Unsubscribe(xs, x) == before + after;
    RemoveMiddle(before, x, after);
  }

  lemma RemoveMiddle(before: seq<ListenerId>, x: ListenerId, after: seq<ListenerId>)
    ensures multiset(before + [x] + after) - multiset{x} == multiset(before + after)
  {

  }

  /** Subscribing and then unsubscribing the same handler restores the list,
      whether or not the handler was already subscribed. */
  lemma SubscribeUnsubscribe(xs: seq<ListenerId>, x: ListenerId)
    ensures Unsubscribe(Subscribe(xs, x), x) == xs
  {

  }
}
