/**
 * What a gift event does to the media queue and which device commands it
 * sends (the GiftEvent case of `listen` in tiktokConnection/tiktokConnector.go).
 * The functions here give, for one event, the new queue and the commands
 * in the order they are sent; the lemmas say what that result satisfies.
 */
module GiftRouting {
  import opened Text
  import opened GoConfig
  import opened MediaQueue

  /** Ten seconds in nanoseconds, the unit of Go's time.Duration. */
  const HeartbeatWindow: int := 10_000_000_000

  /** Screen `screen` has polled, and not more than ten seconds before `now`. */
  predicate IsLive(active: map<string, int>, screen: string, now: int) {
    screen in active && !(now - active[screen] > HeartbeatWindow)
  }

  /** The queue item an action produces when triggered under action id `id`. */
  function ItemFor(id: string, a: ActionConfig): MediaItem {
    MediaItem(a.playMedia.kind, a.playMedia.mediaPath, a.playMedia.maxDuration, a.playMedia.volume,
              a.screen, id, a.skipOnNextAction, a.showUserInfo, a.displayText)
  }

  /** The queue and the commands sent so far. */
  datatype Routing = Routing(queue: seq<MediaItem>, sent: seq<string>)

  /** The bounded per-screen enqueue: add the action's item if its screen has room and it names a media file. */
  function Enqueue(q: seq<MediaItem>, cap: int, id: string, a: ActionConfig): seq<MediaItem> {
    if |OnScreen(q, a.screen)| < cap && a.playMedia.mediaPath != "" then q + [ItemFor(id, a)] else q
  }

  /** One action id of a matched gift: skipped unless its screen is live, otherwise send its commands and enqueue. */
  function RunAction(cfg: DataConfig, active: map<string, int>, now: int, id: string, st: Routing): Routing {
    var a := ActionOf(cfg, id);
    if !IsLive(active, a.screen, now) then st
    else Routing(Enqueue(st.queue, cfg.maxMediaQueLength, id, a), st.sent + a.commands)
  }

  function RunActions(cfg: DataConfig, active: map<string, int>, now: int, ids: seq<string>, st: Routing): Routing
    decreases |ids|
  {
    if ids == [] then st else RunActions(cfg, active, now, ids[1..], RunAction(cfg, active, now, ids[0], st))
  }

  /** A gift entry fires for gift `name` when it is enabled and its name equals `name` ignoring case. */
  predicate GiftMatches(g: EventConfig, name: string) {
    g.enabled && EqualFold(g.giftName, name)
  }

  /** Every gift entry in turn; the flag records whether any of them fired. */
  function RunGifts(cfg: DataConfig, active: map<string, int>, now: int, gifts: seq<EventConfig>, name: string,
                    st: Routing, found: bool): (Routing, bool)
    decreases |gifts|
  {
    if gifts == [] then (st, found)
    else if GiftMatches(gifts[0], name) then
      RunGifts(cfg, active, now, gifts[1..], name, RunActions(cfg, active, now, gifts[0].actionIds, st), true)
    else
      RunGifts(cfg, active, now, gifts[1..], name, st, found)
  }

  /** A coin range fires when it is enabled and the diamond count lies within its bounds, both included. */
  predicate InRange(c: EventConfig, diamonds: int) {
    c.enabled && c.minCoin <= diamonds && diamonds <= c.maxCoin
  }

  /** One action id of a matched coin range: the commands of a live action are sent; nothing is queued. */
  function CoinAction(cfg: DataConfig, active: map<string, int>, now: int, id: string, sent: seq<string>): seq<string> {
    var a := ActionOf(cfg, id);
    if IsLive(active, a.screen, now) then sent + a.commands else sent
  }

  function CoinActions(cfg: DataConfig, active: map<string, int>, now: int, ids: seq<string>, sent: seq<string>): seq<string>
    decreases |ids|
  {
    if ids == [] then sent else CoinActions(cfg, active, now, ids[1..], CoinAction(cfg, active, now, ids[0], sent))
  }

  function RunCoins(cfg: DataConfig, active: map<string, int>, now: int, coins: seq<EventConfig>, diamonds: int,
                    sent: seq<string>): seq<string>
    decreases |coins|
  {
    if coins == [] then sent
    else if InRange(coins[0], diamonds) then
      RunCoins(cfg, active, now, coins[1..], diamonds, CoinActions(cfg, active, now, coins[0].actionIds, sent))
    else
      RunCoins(cfg, active, now, coins[1..], diamonds, sent)
  }

  /**
   * A gift event named `name` worth `diamonds`, arriving at `now` with the
   * heartbeats `active`: gift entries first; the coin ranges only when no
   * gift entry fired.
   */
  function RouteGift(cfg: DataConfig, active: map<string, int>, now: int, name: string, diamonds: int,
                     q: seq<MediaItem>): Routing
  {
    var (st, found) := RunGifts(cfg, active, now, cfg.events.specifiedGift, name, Routing(q, []), false);
    if found then st
    else Routing(st.queue, RunCoins(cfg, active, now, cfg.events.coinCount, diamonds, st.sent))
  }

  // ---- What a routed gift does to the queue ----

  /** An item a gift event may add: built from a live action with a media file, listed under one of `ids`. */
  predicate AdmittedFor(cfg: DataConfig, active: map<string, int>, now: int, ids: seq<string>, item: MediaItem) {
    var a := ActionOf(cfg, item.actionId);
    && item.actionId in ids
    && item == ItemFor(item.actionId, a)
    && a.playMedia.mediaPath != ""
    && IsLive(active, a.screen, now)
  }

  function Max(a: int, b: int): int {
    if a < b then b else a
  }

  /** Processing action ids only appends, and only admitted items; no screen grows past the cap unless it already was. */
  lemma {:induction false} RunActionsAppends(cfg: DataConfig, active: map<string, int>, now: int, ids: seq<string>, st: Routing)
    ensures var r := RunActions(cfg, active, now, ids, st);
      && st.queue <= r.queue
      && (forall k :: |st.queue| <= k < |r.queue| ==> AdmittedFor(cfg, active, now, ids, r.queue[k]))
      && (forall t :: |OnScreen(r.queue, t)| <= Max(|OnScreen(st.queue, t)|, cfg.maxMediaQueLength))
  {
    if ids != [] {
      var st1 := RunAction(cfg, active, now, ids[0], st);
      var r := RunActions(cfg, active, now, ids, st);
      RunActionsAppends(cfg, active, now, ids[1..], st1);
      var a := ActionOf(cfg, ids[0]);
      if st1.queue != st.queue {
        OnScreenAppend(st.queue, [ItemFor(ids[0], a)], a.screen);
        forall t ensures |OnScreen(st1.queue, t)| <= Max(|OnScreen(st.queue, t)|, cfg.maxMediaQueLength) {
          OnScreenAppend(st.queue, [ItemFor(ids[0], a)], t);
        }
      }
      assert st.queue <= st1.queue;
      forall k | |st.queue| <= k < |r.queue| ensures AdmittedFor(cfg, active, now, ids, r.queue[k]) {
        if k < |st1.queue| {
          assert k == |st.queue| && r.queue[k] == ItemFor(ids[0], a);
        } else {
          assert AdmittedFor(cfg, active, now, ids[1..], r.queue[k]);
        }
      }
    }
  }

  /** Whether some enabled gift entry carries this gift's name. */
  predicate AnyGiftMatches(gifts: seq<EventConfig>, name: string) {
    exists j :: 0 <= j < |gifts| && GiftMatches(gifts[j], name)
  }

  /** An item some matching gift entry may add. */
  predicate AdmittedByGift(cfg: DataConfig, active: map<string, int>, now: int, gifts: seq<EventConfig>, name: string,
                           item: MediaItem) {
    exists j :: 0 <= j < |gifts| && GiftMatches(gifts[j], name) && AdmittedFor(cfg, active, now, gifts[j].actionIds, item)
  }

  lemma {:induction false} RunGiftsAppends(cfg: DataConfig, active: map<string, int>, now: int, gifts: seq<EventConfig>,
                                           name: string, st: Routing, found: bool)
    ensures var (r, f) := RunGifts(cfg, active, now, gifts, name, st, found);
      && st.queue <= r.queue
      && (forall k :: |st.queue| <= k < |r.queue| ==> AdmittedByGift(cfg, active, now, gifts, name, r.queue[k]))
      && (forall t :: |OnScreen(r.queue, t)| <= Max(|OnScreen(st.queue, t)|, cfg.maxMediaQueLength))
      && (f <==> found || AnyGiftMatches(gifts, name))
      && (!f ==> r == st)
  {
    if gifts != [] {
      var g := gifts[0];
      var st1 := if GiftMatches(g, name) then RunActions(cfg, active, now, g.actionIds, st) else st;
      var found1 := found || GiftMatches(g, name);
      var (r, f) := RunGifts(cfg, active, now, gifts, name, st, found);
      assert (r, f) == RunGifts(cfg, active, now, gifts[1..], name, st1, found1);
      RunGiftsAppends(cfg, active, now, gifts[1..], name, st1, found1);
      RunActionsAppends(cfg, active, now, g.actionIds, st);
      forall k | |st.queue| <= k < |r.queue| ensures AdmittedByGift(cfg, active, now, gifts, name, r.queue[k]) {
        if k < |st1.queue| {
          assert GiftMatches(gifts[0], name) && AdmittedFor(cfg, active, now, gifts[0].actionIds, r.queue[k]);
        } else {
          assert AdmittedByGift(cfg, active, now, gifts[1..], name, r.queue[k]);
          var j :| 0 <= j < |gifts[1..]| && GiftMatches(gifts[1..][j], name)
            && AdmittedFor(cfg, active, now, gifts[1..][j].actionIds, r.queue[k]);
          assert gifts[j + 1] == gifts[1..][j];
        }
      }
      if AnyGiftMatches(gifts[1..], name) {
        var j :| 0 <= j < |gifts[1..]| && GiftMatches(gifts[1..][j], name);
        assert gifts[j + 1] == gifts[1..][j];
      }
      if AnyGiftMatches(gifts, name) && !GiftMatches(g, name) {
        var j :| 0 <= j < |gifts| && GiftMatches(gifts[j], name);
        assert j > 0 && gifts[1..][j - 1] == gifts[j];
      }
    }
  }

  /** An event changes the queue only by appending items its gift entries may add. */
  lemma RouteGiftAppends(cfg: DataConfig, active: map<string, int>, now: int, name: string, diamonds: int, q: seq<MediaItem>)
    ensures var r := RouteGift(cfg, active, now, name, diamonds, q);
      && q <= r.queue
      && forall k :: |q| <= k < |r.queue| ==> AdmittedByGift(cfg, active, now, cfg.events.specifiedGift, name, r.queue[k])
  {
    RunGiftsAppends(cfg, active, now, cfg.events.specifiedGift, name, Routing(q, []), false);
  }

  /** A screen at or under `max_media_que_length` stays at or under it; one over it gains nothing. */
  lemma RouteGiftRespectsCap(cfg: DataConfig, active: map<string, int>, now: int, name: string, diamonds: int,
                             q: seq<MediaItem>, t: string)
    ensures var r := RouteGift(cfg, active, now, name, diamonds, q);
      && (|OnScreen(q, t)| <= cfg.maxMediaQueLength ==> |OnScreen(r.queue, t)| <= cfg.maxMediaQueLength)
      && (|OnScreen(q, t)| >= cfg.maxMediaQueLength ==> OnScreen(r.queue, t) == OnScreen(q, t))
  {
    var r := RouteGift(cfg, active, now, name, diamonds, q);
    RunGiftsAppends(cfg, active, now, cfg.events.specifiedGift, name, Routing(q, []), false);
    var extra := r.queue[|q|..];
    assert r.queue == q + extra;
    OnScreenAppend(q, extra, t);
    if |OnScreen(q, t)| >= cfg.maxMediaQueLength {
      assert |OnScreen(extra, t)| == 0;
    }
  }

  /** Hence the cap, once it holds for every screen, holds after every gift event. */
  lemma RouteGiftKeepsCap(cfg: DataConfig, active: map<string, int>, now: int, name: string, diamonds: int, q: seq<MediaItem>)
    requires WithinCap(q, cfg.maxMediaQueLength)
    ensures WithinCap(RouteGift(cfg, active, now, name, diamonds, q).queue, cfg.maxMediaQueLength)
  {
    forall t ensures |OnScreen(RouteGift(cfg, active, now, name, diamonds, q).queue, t)| <= cfg.maxMediaQueLength {
      RouteGiftRespectsCap(cfg, active, now, name, diamonds, q, t);
    }
  }

  /** The coin ranges are consulted only when no gift entry matched, and then the queue is left as it was. */
  lemma RouteGiftCoinFallback(cfg: DataConfig, active: map<string, int>, now: int, name: string, diamonds: int, q: seq<MediaItem>)
    ensures var r := RouteGift(cfg, active, now, name, diamonds, q);
      && (AnyGiftMatches(cfg.events.specifiedGift, name) ==>
            r == RunGifts(cfg, active, now, cfg.events.specifiedGift, name, Routing(q, []), false).0)
      && (!AnyGiftMatches(cfg.events.specifiedGift, name) ==>
            r == Routing(q, RunCoins(cfg, active, now, cfg.events.coinCount, diamonds, [])))
  {
    RunGiftsAppends(cfg, active, now, cfg.events.specifiedGift, name, Routing(q, []), false);
  }

  /** No command is sent for coin ranges that are disabled or do not contain the diamond count. */
  lemma {:induction false} CoinsOutsideRanges(cfg: DataConfig, active: map<string, int>, now: int, coins: seq<EventConfig>,
                                              diamonds: int, sent: seq<string>)
    requires forall j :: 0 <= j < |coins| ==> !InRange(coins[j], diamonds)
    ensures RunCoins(cfg, active, now, coins, diamonds, sent) == sent
  {
    if coins != [] {
      assert forall j :: 0 <= j < |coins[1..]| ==> coins[1..][j] == coins[j + 1];
      CoinsOutsideRanges(cfg, active, now, coins[1..], diamonds, sent);
    }
  }

  lemma EqualFoldMatches(g: EventConfig, n1: string, n2: string)
    requires EqualFold(n1, n2)
    ensures GiftMatches(g, n1) <==> GiftMatches(g, n2)
  {
    if GiftMatches(g, n1) {
      assert forall i :: 0 <= i < |n2| ==> FoldAscii(g.giftName[i]) == FoldAscii(n1[i]);
    }
  }

  lemma {:induction false} RunGiftsFoldsCase(cfg: DataConfig, active: map<string, int>, now: int, gifts: seq<EventConfig>,
                                             n1: string, n2: string, st: Routing, found: bool)
    requires EqualFold(n1, n2)
    ensures RunGifts(cfg, active, now, gifts, n1, st, found) == RunGifts(cfg, active, now, gifts, n2, st, found)
  {
    if gifts != [] {
      EqualFoldMatches(gifts[0], n1, n2);
      var st1 := if GiftMatches(gifts[0], n1) then RunActions(cfg, active, now, gifts[0].actionIds, st) else st;
      RunGiftsFoldsCase(cfg, active, now, gifts[1..], n1, n2, st1, found || GiftMatches(gifts[0], n1));
    }
  }

  /** Gift names are compared ignoring case: two spellings of one name route identically. */
  lemma RouteGiftIgnoresCase(cfg: DataConfig, active: map<string, int>, now: int, n1: string, n2: string, diamonds: int,
                             q: seq<MediaItem>)
    requires EqualFold(n1, n2)
    ensures RouteGift(cfg, active, now, n1, diamonds, q) == RouteGift(cfg, active, now, n2, diamonds, q)
  {
    RunGiftsFoldsCase(cfg, active, now, cfg.events.specifiedGift, n1, n2, Routing(q, []), false);
  }
  // ---- No live screen ----

  /** No screen has polled within the last ten seconds. */
  predicate NoLiveScreen(active: map<string, int>, now: int) {
    forall s :: s in active ==> now - active[s] > HeartbeatWindow
  }

  lemma {:induction false} RunActionsIdle(cfg: DataConfig, active: map<string, int>, now: int, ids: seq<string>, st: Routing)
    requires NoLiveScreen(active, now)
    ensures RunActions(cfg, active, now, ids, st) == st
    decreases |ids|
  {
    if ids != [] {
      assert !IsLive(active, ActionOf(cfg, ids[0]).screen, now);
      RunActionsIdle(cfg, active, now, ids[1..], st);
    }
  }

  lemma {:induction false} RunGiftsIdle(cfg: DataConfig, active: map<string, int>, now: int, gifts: seq<EventConfig>,
                                        name: string, st: Routing, found: bool)
    requires NoLiveScreen(active, now)
    ensures RunGifts(cfg, active, now, gifts, name, st, found).0 == st
    decreases |gifts|
  {
    if gifts != [] {
      RunActionsIdle(cfg, active, now, gifts[0].actionIds, st);
      RunGiftsIdle(cfg, active, now, gifts[1..], name, st, found || GiftMatches(gifts[0], name));
    }
  }

  lemma {:induction false} CoinActionsIdle(cfg: DataConfig, active: map<string, int>, now: int, ids: seq<string>, sent: seq<string>)
    requires NoLiveScreen(active, now)
    ensures CoinActions(cfg, active, now, ids, sent) == sent
    decreases |ids|
  {
    if ids != [] {
      assert !IsLive(active, ActionOf(cfg, ids[0]).screen, now);
      CoinActionsIdle(cfg, active, now, ids[1..], sent);
    }
  }

  lemma {:induction false} RunCoinsIdle(cfg: DataConfig, active: map<string, int>, now: int, coins: seq<EventConfig>,
                                        diamonds: int, sent: seq<string>)
    requires NoLiveScreen(active, now)
    ensures RunCoins(cfg, active, now, coins, diamonds, sent) == sent
    decreases |coins|
  {
    if coins != [] {
      CoinActionsIdle(cfg, active, now, coins[0].actionIds, sent);
      RunCoinsIdle(cfg, active, now, coins[1..], diamonds, sent);
    }
  }

  /** With no live screen a gift event sends no command and queues nothing, whatever it matches. */
  lemma RouteGiftWithoutLiveScreen(cfg: DataConfig, active: map<string, int>, now: int, name: string, diamonds: int,
                                   q: seq<MediaItem>)
    requires NoLiveScreen(active, now)
    ensures RouteGift(cfg, active, now, name, diamonds, q) == Routing(q, [])
  {
    RunGiftsIdle(cfg, active, now, cfg.events.specifiedGift, name, Routing(q, []), false);
    RunCoinsIdle(cfg, active, now, cfg.events.coinCount, diamonds, []);
  }

  // ---- Which commands are sent ----

  /** A command a gift or coin event may send: one of the commands of a listed action whose screen is live. */
  predicate SentFor(cfg: DataConfig, active: map<string, int>, now: int, ids: seq<string>, command: string) {
    exists id :: id in ids && IsLive(active, ActionOf(cfg, id).screen, now) && command in ActionOf(cfg, id).commands
  }

  /** A gift entry's actions only append commands, and only those of listed actions on live screens. */
  lemma {:induction false} RunActionsSendsLive(cfg: DataConfig, active: map<string, int>, now: int, ids: seq<string>, st: Routing)
    ensures var r := RunActions(cfg, active, now, ids, st);
      && st.sent <= r.sent
      && forall k :: |st.sent| <= k < |r.sent| ==> SentFor(cfg, active, now, ids, r.sent[k])
  {
    if ids != [] {
      var st1 := RunAction(cfg, active, now, ids[0], st);
      var r := RunActions(cfg, active, now, ids, st);
      RunActionsSendsLive(cfg, active, now, ids[1..], st1);
      var a := ActionOf(cfg, ids[0]);
      assert st.sent <= st1.sent;
      forall k | |st.sent| <= k < |r.sent| ensures SentFor(cfg, active, now, ids, r.sent[k]) {
        if k < |st1.sent| {
          assert IsLive(active, a.screen, now) && st1.sent == st.sent + a.commands;
          assert r.sent[k] == a.commands[k - |st.sent|];
          assert ids[0] in ids;
        } else {
          assert r == RunActions(cfg, active, now, ids[1..], st1);
          assert SentFor(cfg, active, now, ids[1..], r.sent[k]);
          var id :| id in ids[1..] && IsLive(active, ActionOf(cfg, id).screen, now) && r.sent[k] in ActionOf(cfg, id).commands;
          assert id in ids;
        }
      }
    }
  }

  /** A coin range's actions only append commands, and only those of listed actions on live screens. */
  lemma {:induction false} CoinActionsSendsLive(cfg: DataConfig, active: map<string, int>, now: int, ids: seq<string>, sent: seq<string>)
    ensures var r := CoinActions(cfg, active, now, ids, sent);
      && sent <= r
      && forall k :: |sent| <= k < |r| ==> SentFor(cfg, active, now, ids, r[k])
  {
    if ids != [] {
      var s1 := CoinAction(cfg, active, now, ids[0], sent);
      var r := CoinActions(cfg, active, now, ids, sent);
      CoinActionsSendsLive(cfg, active, now, ids[1..], s1);
      var a := ActionOf(cfg, ids[0]);
      assert sent <= s1;
      forall k | |sent| <= k < |r| ensures SentFor(cfg, active, now, ids, r[k]) {
        if k < |s1| {
          assert IsLive(active, a.screen, now) && s1 == sent + a.commands;
          assert r[k] == a.commands[k - |sent|];
          assert ids[0] in ids;
        } else {
          assert r == CoinActions(cfg, active, now, ids[1..], s1);
          assert SentFor(cfg, active, now, ids[1..], r[k]);
          var id :| id in ids[1..] && IsLive(active, ActionOf(cfg, id).screen, now) && r[k] in ActionOf(cfg, id).commands;
          assert id in ids;
        }
      }
    }
  }
}
