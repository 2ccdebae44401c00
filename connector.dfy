/**
 * The backend's mutable state and the handlers that change it
 * (tiktokConnection/tiktokConnector.go): the media queue served to the
 * overlay screens, the queue of comments to read aloud, and the last
 * heartbeat of every screen. Each handler runs as one atomic step; the
 * current time is a parameter, in nanoseconds.
 */
module Connector {
  import opened Wrappers
  import opened Text
  import opened GoConfig
  import opened MediaQueue
  import opened GiftRouting
  import opened Comments

  /** A gift as the event feed reports it. */
  datatype GiftEvent = GiftEvent(name: string, diamonds: int)

  /** Whether a chat message is admitted to the text-to-speech queue, as the chat handler decides it. */
  ghost predicate SpeaksComment(cfg: DataConfig, e: ChatEvent, queued: nat) {
    && cfg.events.textToSpeech.enabled
    && cfg.events.textToSpeech.kind == "fanClub"
    && IsFanUser(e.user)
    && queued < cfg.maxCommentQueLength
  }

  class Backend {
    var dataQueue: seq<MediaItem>
    var commentQueue: seq<seq<byte>>
    /** The last time each screen polled its data endpoint. */
    var activeScreens: map<string, int>

    /** The state after route setup: nothing queued, no screen seen yet. */
    constructor ()
      ensures dataQueue == [] && commentQueue == [] && activeScreens == map[]
    {
      dataQueue := [];
      commentQueue := [];
      activeScreens := map[];
    }

    /**
     * `GET /data/:screen`: record the heartbeat, then hand out the screen's
     * earliest queued item, or "No data in queue" and leave the queue alone.
     */
    method ServeData(screen: string, now: int) returns (r: Result<MediaItem>)
      modifies this
      ensures activeScreens == old(activeScreens)[screen := now]
      ensures commentQueue == old(commentQueue)
      ensures r.Success? <==> exists i :: 0 <= i < |old(dataQueue)| && old(dataQueue)[i].screen == screen
      ensures r.Success? ==>
        && OnScreen(old(dataQueue), screen) != []
        && IsEarliestFor(old(dataQueue), screen, r.value)
        && dataQueue == Dequeued(old(dataQueue), screen)
        && |dataQueue| == |old(dataQueue)| - 1
        && multiset(dataQueue) + multiset{r.value} == multiset(old(dataQueue))
      ensures r.Success? ==> forall t :: OnScreen(dataQueue, t) ==
                                       if t == screen then OnScreen(old(dataQueue), screen)[1..] else OnScreen(old(dataQueue), t)
      ensures r.Failure? ==> r.error == "No data in queue" && dataQueue == old(dataQueue)
    {
      activeScreens := activeScreens[screen := now];
      var screenDatas, otherDatas := Partition(dataQueue, screen);
      OnScreenEmpty(dataQueue, screen);
      if |screenDatas| > 0 {
        var temp := screenDatas[0];
        FirstOnScreenIsEarliest(dataQueue, screen);
        DequeuedContents(dataQueue, screen);
        forall t ensures OnScreen(Dequeued(dataQueue, screen), t) ==
          if t == screen then OnScreen(dataQueue, screen)[1..] else OnScreen(dataQueue, t)
        {
          DequeuedPerScreen(dataQueue, screen, t);
        }
        dataQueue := otherDatas + screenDatas[1..];
        r := Success(temp);
      } else {
        r := Failure("No data in queue");
      }
    }

    /**
     * A chat message: when text-to-speech is on in "fanClub" mode, the author
     * is a fan and the queue is below `max_comment_que_length`, queue the
     * message line cut to `max_chars_tts` bytes.
     */
    method OnChat(cfg: DataConfig, e: ChatEvent)
      requires SpeaksComment(cfg, e, |commentQueue|) ==> cfg.maxCharsTts >= 0
      modifies this`commentQueue
      ensures SpeaksComment(cfg, e, |old(commentQueue)|) ==>
        commentQueue == old(commentQueue) + [CommentLine(e.comment, e.user.value.username, cfg.maxCharsTts)]
      ensures !SpeaksComment(cfg, e, |old(commentQueue)|) ==> commentQueue == old(commentQueue)
      ensures |old(commentQueue)| <= cfg.maxCommentQueLength ==> |commentQueue| <= cfg.maxCommentQueLength
    {
      var tts := cfg.events.textToSpeech;
      if tts.enabled && tts.kind == "fanClub" {
        var fan := IsFan(e.user);
        if fan && |commentQueue| < cfg.maxCommentQueLength {
          var fullText := CommentLine(e.comment, e.user.value.username, cfg.maxCharsTts);
          commentQueue := commentQueue + [fullText];
        }
      }
    }

    /**
     * One turn of the speaking loop: take the oldest queued line, if any.
     * The empty result means nothing is spoken this turn.
     */
    method NextComment() returns (line: seq<byte>)
      modifies this`commentQueue
      ensures old(commentQueue) == [] ==> line == [] && commentQueue == []
      ensures old(commentQueue) != [] ==> line == old(commentQueue)[0] && commentQueue == old(commentQueue)[1..]
    {
      line := [];
      if |commentQueue| > 0 {
        line := commentQueue[0];
        commentQueue := commentQueue[1..];
      }
    }

    /**
     * A gift event: every enabled gift entry with the gift's name, in order,
     * runs its actions on live screens (commands, then the bounded enqueue);
     * when none matched, the coin ranges holding the diamond count run their
     * actions' commands. Returns the commands sent, in order.
     */
    method OnGift(cfg: DataConfig, e: GiftEvent, now: int) returns (sent: seq<string>)
      modifies this`dataQueue
      ensures var routed := RouteGift(cfg, activeScreens, now, e.name, e.diamonds, old(dataQueue));
        dataQueue == routed.queue && sent == routed.sent
      ensures old(dataQueue) <= dataQueue
      ensures WithinCap(old(dataQueue), cfg.maxMediaQueLength) ==> WithinCap(dataQueue, cfg.maxMediaQueLength)
    {
      ghost var final := RunGifts(cfg, activeScreens, now, cfg.events.specifiedGift, e.name, Routing(dataQueue, []), false);
      RouteGiftAppends(cfg, activeScreens, now, e.name, e.diamonds, dataQueue);
      if WithinCap(dataQueue, cfg.maxMediaQueLength) {
        RouteGiftKeepsCap(cfg, activeScreens, now, e.name, e.diamonds, dataQueue);
      }
      var found := false;
      sent := [];
      var gifts := cfg.events.specifiedGift;
      var i := 0;
      while i < |gifts|
        invariant 0 <= i <= |gifts|
        invariant RunGifts(cfg, activeScreens, now, gifts[i..], e.name, Routing(dataQueue, sent), found) == final
      {
        var gift := gifts[i];
        assert gifts[i..][0] == gift && gifts[i..][1..] == gifts[i + 1..];
        if gift.enabled && EqualFold(gift.giftName, e.name) {
          ghost var start := Routing(dataQueue, sent);
          var ids := gift.actionIds;
          var j := 0;
          while j < |ids|
            invariant 0 <= j <= |ids|
            invariant RunActions(cfg, activeScreens, now, ids[j..], Routing(dataQueue, sent))
                   == RunActions(cfg, activeScreens, now, ids, start)
          {
            var actionID := ids[j];
            assert ids[j..][0] == actionID && ids[j..][1..] == ids[j + 1..];
            var action := ActionOf(cfg, actionID);
            if IsLive(activeScreens, action.screen, now) {
              sent := sent + action.commands;
              var screenDatas, _ := Partition(dataQueue, action.screen);
              if |screenDatas| < cfg.maxMediaQueLength && action.playMedia.mediaPath != "" {
                dataQueue := dataQueue + [ItemFor(actionID, action)];
              }
            }
            j := j + 1;
          }
          assert ids[j..] == [];
          found := true;
        }
        i := i + 1;
      }
      assert gifts[i..] == [];
      if !found {
        var coins := cfg.events.coinCount;
        ghost var coinFinal := RunCoins(cfg, activeScreens, now, coins, e.diamonds, sent);
        var k := 0;
        while k < |coins|
          invariant 0 <= k <= |coins|
          invariant RunCoins(cfg, activeScreens, now, coins[k..], e.diamonds, sent) == coinFinal
        {
          var coinCount := coins[k];
          assert coins[k..][0] == coinCount && coins[k..][1..] == coins[k + 1..];
          if coinCount.enabled && e.diamonds >= coinCount.minCoin && e.diamonds <= coinCount.maxCoin {
            ghost var start := sent;
            var ids := coinCount.actionIds;
            var j := 0;
            while j < |ids|
              invariant 0 <= j <= |ids|
              invariant CoinActions(cfg, activeScreens, now, ids[j..], sent) == CoinActions(cfg, activeScreens, now, ids, start)
            {
              var actionID := ids[j];
              assert ids[j..][0] == actionID && ids[j..][1..] == ids[j + 1..];
              var action := ActionOf(cfg, actionID);
              if IsLive(activeScreens, action.screen, now) {
                sent := sent + action.commands;
              }
              j := j + 1;
            }
            assert ids[j..] == [];
          }
          k := k + 1;
        }
        assert coins[k..] == [];
      }
    }
  }
}
