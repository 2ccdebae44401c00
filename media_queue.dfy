/**
 * The backend's shared media queue (`dataQueue` in
 * tiktokConnection/tiktokConnector.go): one list holding the pending items
 * of every screen, read per screen in arrival order.
 */
module MediaQueue {

  /** One queued media item (Go's DataType); the volume is carried, never inspected. */
  datatype MediaItem = MediaItem(
    kind: string,
    mediaPath: string,
    maxDuration: string,
    volume: real,
    screen: string,
    actionId: string,
    skipOnNextAction: bool,
    showUserInfo: bool,
    displayText: string)

  /** The items addressed to screen `s`, in queue order. */
  function OnScreen(q: seq<MediaItem>, s: string): seq<MediaItem>
  {
    if q == [] then []
    else (if q[0].screen == s then [q[0]] else []) + OnScreen(q[1..], s)
  }

  /** The items addressed to any other screen, in queue order. */
  function OffScreen(q: seq<MediaItem>, s: string): seq<MediaItem>
  {
    if q == [] then []
    else (if q[0].screen == s then [] else [q[0]]) + OffScreen(q[1..], s)
  }

  lemma {:induction false} OnScreenAppend(a: seq<MediaItem>, b: seq<MediaItem>, s: string)
    ensures OnScreen(a + b, s) == OnScreen(a, s) + OnScreen(b, s)
    ensures OffScreen(a + b, s) == OffScreen(a, s) + OffScreen(b, s)
  {
    if a == [] {
      assert a + b == b;
    } else {
      assert (a + b)[0] == a[0] && (a + b)[1..] == a[1..] + b;
      OnScreenAppend(a[1..], b, s);
    }
  }

  /** Every item is addressed either to `s` or elsewhere: the two parts share out the queue. */
  lemma {:induction false} SplitByScreen(q: seq<MediaItem>, s: string)
    ensures multiset(OnScreen(q, s)) + multiset(OffScreen(q, s)) == multiset(q)
    ensures |OnScreen(q, s)| + |OffScreen(q, s)| == |q|
  {
    if q != [] {
      SplitByScreen(q[1..], s);
      assert q == [q[0]] + q[1..];
      assert multiset(q) == multiset{q[0]} + multiset(q[1..]);
      if q[0].screen == s {
        assert OnScreen(q, s) == [q[0]] + OnScreen(q[1..], s);
        assert OffScreen(q, s) == OffScreen(q[1..], s);
      } else {
        assert OnScreen(q, s) == OnScreen(q[1..], s);
        assert OffScreen(q, s) == [q[0]] + OffScreen(q[1..], s);
      }
    }
  }

  /** The screen's part holds only items for `s`, the other part none. */
  lemma {:induction false} ScreensOfParts(q: seq<MediaItem>, s: string)
    ensures forall k :: 0 <= k < |OnScreen(q, s)| ==> OnScreen(q, s)[k].screen == s
    ensures forall k :: 0 <= k < |OffScreen(q, s)| ==> OffScreen(q, s)[k].screen != s
  {
    if q != [] {
      ScreensOfParts(q[1..], s);
    }
  }

  /** Nothing is addressed to `s` exactly when no item of the queue names screen `s`. */
  lemma {:induction false} OnScreenEmpty(q: seq<MediaItem>, s: string)
    ensures OnScreen(q, s) == [] <==> forall i :: 0 <= i < |q| ==> q[i].screen != s
    ensures OnScreen(q, s) == [] ==> OffScreen(q, s) == q
  {
    if q != [] {
      OnScreenEmpty(q[1..], s);
      assert forall i :: 1 <= i < |q| ==> q[i] == q[1..][i - 1];
    }
  }

  /** Selecting screen `t` out of a queue of screen-`s` items keeps all or nothing. */
  lemma {:induction false} OnScreenOfOneScreen(q: seq<MediaItem>, s: string, t: string)
    requires forall k :: 0 <= k < |q| ==> q[k].screen == s
    ensures OnScreen(q, t) == if t == s then q else []
  {
    if q != [] {
      OnScreenOfOneScreen(q[1..], s, t);
      assert q == [q[0]] + q[1..];
    }
  }

  /** Taking the items of other screens than `s` does not disturb the subsequence of screen `t`. */
  lemma {:induction false} OnScreenOfOffScreen(q: seq<MediaItem>, s: string, t: string)
    ensures OnScreen(OffScreen(q, s), t) == if t == s then [] else OnScreen(q, t)
  {
    if q != [] {
      OnScreenOfOffScreen(q[1..], s, t);
      var head := if q[0].screen == s then [] else [q[0]];
      OnScreenAppend(head, OffScreen(q[1..], s), t);
    }
  }

  /**
   * The partition loop of the `/data/:screen` handler: one pass that sends
   * each item to the screen's list or to the list of the others.
   */
  method Partition(q: seq<MediaItem>, screen: string) returns (screenItems: seq<MediaItem>, otherItems: seq<MediaItem>)
    ensures screenItems == OnScreen(q, screen)
    ensures otherItems == OffScreen(q, screen)
  {
    screenItems, otherItems := [], [];
    var i := 0;
    while i < |q|
      invariant 0 <= i <= |q|
      invariant screenItems == OnScreen(q[..i], screen)
      invariant otherItems == OffScreen(q[..i], screen)
    {
      assert q[..i + 1] == q[..i] + [q[i]];
      OnScreenAppend(q[..i], [q[i]], screen);
      if q[i].screen == screen {
        screenItems := screenItems + [q[i]];
      } else {
        otherItems := otherItems + [q[i]];
      }
      i := i + 1;
    }
    assert q[..i] == q;
  }

  /** `x` is the earliest item of `q` addressed to screen `s`. */
  ghost predicate IsEarliestFor(q: seq<MediaItem>, s: string, x: MediaItem) {
    exists i :: 0 <= i < |q| && q[i] == x && x.screen == s
      && forall j :: 0 <= j < i ==> q[j].screen != s
  }

  /** The head of the screen's subsequence is the earliest queued item for that screen. */
  lemma {:induction false} FirstOnScreenIsEarliest(q: seq<MediaItem>, s: string)
    requires OnScreen(q, s) != []
    ensures IsEarliestFor(q, s, OnScreen(q, s)[0])
  {
    if q[0].screen != s {
      FirstOnScreenIsEarliest(q[1..], s);
      var i :| 0 <= i < |q[1..]| && q[1..][i] == OnScreen(q, s)[0] && OnScreen(q, s)[0].screen == s
        && forall j :: 0 <= j < i ==> q[1..][j].screen != s;
      assert q[i + 1] == OnScreen(q, s)[0];
      assert forall j :: 0 <= j < i + 1 ==> q[j].screen != s by {
        forall j | 0 <= j < i + 1 ensures q[j].screen != s {
          if j > 0 { assert q[j] == q[1..][j - 1]; }
        }
      }
    } else {
      assert q[0] == OnScreen(q, s)[0];
    }
  }

  /**
   * The queue after serving screen `s`: the other screens' items, then the
   * rest of screen `s`'s items (both in their original order).
   */
  function Dequeued(q: seq<MediaItem>, s: string): seq<MediaItem>
    requires OnScreen(q, s) != []
  {
    OffScreen(q, s) + OnScreen(q, s)[1..]
  }

  /** Serving a screen removes exactly its earliest item from the queue, and nothing else. */
  lemma DequeuedContents(q: seq<MediaItem>, s: string)
    requires OnScreen(q, s) != []
    ensures |Dequeued(q, s)| == |q| - 1
    ensures multiset(Dequeued(q, s)) + multiset{OnScreen(q, s)[0]} == multiset(q)
  {
    var on := OnScreen(q, s);
    SplitByScreen(q, s);
    assert on == [on[0]] + on[1..];
  }

  /** Serving screen `s` drops the head of `s`'s subsequence and leaves every other screen's subsequence as it was. */
  lemma DequeuedPerScreen(q: seq<MediaItem>, s: string, t: string)
    requires OnScreen(q, s) != []
    ensures OnScreen(Dequeued(q, s), t) == if t == s then OnScreen(q, s)[1..] else OnScreen(q, t)
  {
    var on := OnScreen(q, s);
    ScreensOfParts(q, s);
    OnScreenAppend(OffScreen(q, s), on[1..], t);
    OnScreenOfOffScreen(q, s, t);
    OnScreenOfOneScreen(on[1..], s, t);
  }

  /** No screen has more than `cap` items queued. */
  ghost predicate WithinCap(q: seq<MediaItem>, cap: int) {
    forall t :: |OnScreen(q, t)| <= cap
  }

  /** Serving a screen never pushes any screen over the cap. */
  lemma DequeuePreservesCap(q: seq<MediaItem>, s: string, cap: int)
    requires OnScreen(q, s) != [] && WithinCap(q, cap)
    ensures WithinCap(Dequeued(q, s), cap)
  {
    forall t ensures |OnScreen(Dequeued(q, s), t)| <= cap {
      DequeuedPerScreen(q, s, t);
    }
  }
}
