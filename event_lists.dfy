/**
 * The gift and coin-range tabs of the dashboard (UI/src/app/config/page.tsx).
 * Both lists hold entry objects; the row handlers copy the array shallowly
 * and assign into the entry at the row's index, so the entry object itself
 * is changed in place and the new array holds the same entries.
 */
module EventLists {
  import opened Wrappers
  import opened Text
  import opened Decimal
  import opened Lists

  /** One gift or coin-range entry; absent numbers, and `NaN` from a failed parse, are `None`. */
  class EventEntry {
    var giftName: Option<string>
    var giftId: Option<int>
    var actionIds: seq<string>
    var enabled: bool
    var minCoin: Option<int>
    var maxCoin: Option<int>

    /** The entry "Monitor New Gift" appends. */
    constructor GiftDefault()
      ensures giftName == Some("rose") && giftId == Some(1) && actionIds == [] && enabled
      ensures minCoin == None && maxCoin == None
    {
      giftName := Some("rose");
      giftId := Some(1);
      actionIds := [];
      enabled := true;
      minCoin := None;
      maxCoin := None;
    }

    /** The entry "Add Range" appends. */
    constructor CoinDefault()
      ensures minCoin == Some(1) && maxCoin == Some(10) && actionIds == [] && enabled
      ensures giftName == None && giftId == None
    {
      giftName := None;
      giftId := None;
      actionIds := [];
      enabled := true;
      minCoin := Some(1);
      maxCoin := Some(10);
    }
  }

  // ---- Action-id lists typed as text ----

  /** Trim every piece and drop the ones left empty, keeping the order. */
  function Clean(pieces: seq<string>): seq<string>
  {
    if pieces == [] then []
    else (if Trim(pieces[0]) == "" then [] else [Trim(pieces[0])]) + Clean(pieces[1..])
  }

  /** `text.split(",").map(i => i.trim()).filter(i => i)`. */
  function ParseActionIds(text: string): seq<string> {
    Clean(Split(text, ','))
  }

  /** An id the parser can produce: non-empty, no surrounding spaces, no comma. */
  predicate IsActionId(id: string) {
    id != "" && Trimmed(id) && ',' !in id
  }

  lemma {:induction false} CleanShape(pieces: seq<string>)
    requires forall k :: 0 <= k < |pieces| ==> ',' !in pieces[k]
    ensures forall k :: 0 <= k < |Clean(pieces)| ==> IsActionId(Clean(pieces)[k])
  {
    if pieces != [] {
      CleanShape(pieces[1..]);
      TrimShape(pieces[0]);
      var w1, w2 :| AllSpace(w1) && AllSpace(w2) && pieces[0] == w1 + Trim(pieces[0]) + w2;
      assert forall c :: c in Trim(pieces[0]) ==> c in pieces[0];
    }
  }

  /** Every parsed id is non-empty, trimmed and free of commas. */
  lemma ParsedIdsAreIds(text: string)
    ensures forall k :: 0 <= k < |ParseActionIds(text)| ==> IsActionId(ParseActionIds(text)[k])
  {
    SplitPiecesAreSeparatorFree(text, ',');
    CleanShape(Split(text, ','));
  }

  lemma {:induction false} ParseJoinedAfter(w: string, ids: seq<string>, gap: string)
    requires AllSpace(w) && AllSpace(gap)
    requires forall k :: 0 <= k < |ids| ==> IsActionId(ids[k])
    ensures ParseActionIds(w + Join(ids, [','] + gap)) == ids
    decreases |ids|
  {
    var sep := [','] + gap;
    assert forall c :: c in w ==> IsJsSpace(c);
    if ids == [] {
      assert w + Join(ids, sep) == w;
      SplitWithoutSeparator(w, ',');
      TrimPadded(w, [], []);
      assert w + [] + [] == w;
      assert Trim(w) == "";
      assert Split(w, ',') == [w];
      assert [w][1..] == [];
      assert Clean([w]) == [];
    } else if |ids| == 1 {
      SplitWithoutSeparator(w + ids[0], ',');
      TrimPadded(w, ids[0], []);
      assert w + ids[0] + [] == w + ids[0];
      assert [w + ids[0]][1..] == [];
      assert w + Join(ids, sep) == w + ids[0];
      assert Clean([w + ids[0]]) == [ids[0]];
      assert [ids[0]] == ids;
    } else {
      var rest := Join(ids[1..], sep);
      assert w + Join(ids, sep) == (w + ids[0]) + [','] + (gap + rest);
      SplitAfterPiece(w + ids[0], ',', gap + rest);
      TrimPadded(w, ids[0], []);
      assert w + ids[0] + [] == w + ids[0];
      ParseJoinedAfter(gap, ids[1..], gap);
    }
  }

  /**
   * Parsing the text an id list is shown as gives the list back, whether it
   * is shown joined by "," (gifts) or by ", " (coin ranges).
   */
  lemma ParseShownIds(ids: seq<string>)
    requires forall k :: 0 <= k < |ids| ==> IsActionId(ids[k])
    ensures ParseActionIds(Join(ids, ",")) == ids
    ensures ParseActionIds(Join(ids, ", ")) == ids
  {
    assert "," == [','] + "";
    assert ", " == [','] + " ";
    assert AllSpace(" ") by { assert IsJsSpace(' '); }
    ParseJoinedAfter("", ids, "");
    ParseJoinedAfter("", ids, " ");
    assert "" + Join(ids, ",") == Join(ids, ",");
    assert "" + Join(ids, ", ") == Join(ids, ", ");
  }

  /** Parsing keeps the pieces' order: the ids of a concatenation are the ids of its halves. */
  lemma {:induction false} ParseAcrossComma(a: string, b: string)
    requires ',' !in a
    ensures ParseActionIds(a + "," + b) == Clean([a]) + ParseActionIds(b)
  {
    assert a + "," + b == a + [','] + b;
    SplitAfterPiece(a, ',', b);
    assert ([a] + Split(b, ','))[1..] == Split(b, ',');
  }

  // ---- The two lists ----

  /** The gift and coin-range lists of the config being edited. */
  class EventsEditor {
    var gifts: seq<EventEntry>
    var coins: seq<EventEntry>

    constructor (gifts0: seq<EventEntry>, coins0: seq<EventEntry>)
      ensures gifts == gifts0 && coins == coins0
    {
      gifts := gifts0;
      coins := coins0;
    }

    /** "Monitor New Gift": append a fresh default gift entry. */
    method AddGift() returns (entry: EventEntry)
      modifies this
      ensures fresh(entry) && gifts == old(gifts) + [entry] && coins == old(coins)
      ensures entry.giftName == Some("rose") && entry.giftId == Some(1) && entry.actionIds == [] && entry.enabled
      ensures entry.minCoin == None && entry.maxCoin == None
    {
      entry := new EventEntry.GiftDefault();
      gifts := gifts + [entry];
    }

    /** "Add Range": append a fresh default coin range. */
    method AddCoin() returns (entry: EventEntry)
      modifies this
      ensures fresh(entry) && coins == old(coins) + [entry] && gifts == old(gifts)
      ensures entry.minCoin == Some(1) && entry.maxCoin == Some(10) && entry.actionIds == [] && entry.enabled
      ensures entry.giftName == None && entry.giftId == None
    {
      entry := new EventEntry.CoinDefault();
      coins := coins + [entry];
    }

    /** Deleting gift row `idx`: that entry goes, the others stay in order. */
    method RemoveGift(idx: int)
      modifies this
      ensures gifts == DropIndex(old(gifts), idx) && coins == old(coins)
      ensures 0 <= idx < |old(gifts)| ==> gifts == old(gifts)[..idx] + old(gifts)[idx + 1..]
    {
      DropIndexRemovesOne(gifts, idx);
      gifts := DropIndex(gifts, idx);
    }

    /** Deleting coin row `idx`: that range goes, the others stay in order. */
    method RemoveCoin(idx: int)
      modifies this
      ensures coins == DropIndex(old(coins), idx) && gifts == old(gifts)
      ensures 0 <= idx < |old(coins)| ==> coins == old(coins)[..idx] + old(coins)[idx + 1..]
    {
      DropIndexRemovesOne(coins, idx);
      coins := DropIndex(coins, idx);
    }

    /** Typing a gift name into row `idx`: only that entry's name changes. */
    method SetGiftName(idx: nat, name: string)
      requires idx < |gifts|
      modifies this, gifts[idx]
      ensures gifts == old(gifts) && coins == old(coins)
      ensures gifts[idx].giftName == Some(name)
      ensures gifts[idx].actionIds == old(gifts[idx].actionIds) && gifts[idx].enabled == old(gifts[idx].enabled)
      ensures gifts[idx].giftId == old(gifts[idx].giftId)
      ensures gifts[idx].minCoin == old(gifts[idx].minCoin) && gifts[idx].maxCoin == old(gifts[idx].maxCoin)
    {
      var newGifts := gifts;
      newGifts[idx].giftName := Some(name);
      gifts := newGifts;
    }

    /** Typing the action ids of gift row `idx`. */
    method SetGiftActionIds(idx: nat, text: string)
      requires idx < |gifts|
      modifies this, gifts[idx]
      ensures gifts == old(gifts) && coins == old(coins)
      ensures gifts[idx].actionIds == ParseActionIds(text)
      ensures gifts[idx].giftName == old(gifts[idx].giftName) && gifts[idx].enabled == old(gifts[idx].enabled)
      ensures gifts[idx].giftId == old(gifts[idx].giftId)
      ensures gifts[idx].minCoin == old(gifts[idx].minCoin) && gifts[idx].maxCoin == old(gifts[idx].maxCoin)
    {
      var newGifts := gifts;
      newGifts[idx].actionIds := ParseActionIds(text);
      gifts := newGifts;
    }

    /** Ticking the checkbox of gift row `idx`. */
    method SetGiftEnabled(idx: nat, checked: bool)
      requires idx < |gifts|
      modifies this, gifts[idx]
      ensures gifts == old(gifts) && coins == old(coins)
      ensures gifts[idx].enabled == checked
      ensures gifts[idx].giftName == old(gifts[idx].giftName) && gifts[idx].actionIds == old(gifts[idx].actionIds)
      ensures gifts[idx].giftId == old(gifts[idx].giftId)
      ensures gifts[idx].minCoin == old(gifts[idx].minCoin) && gifts[idx].maxCoin == old(gifts[idx].maxCoin)
    {
      var newGifts := gifts;
      newGifts[idx].enabled := checked;
      gifts := newGifts;
    }

    /** Typing the lower bound of coin row `idx`; text that is not a number gives `NaN`. */
    method SetMinCoin(idx: nat, text: string)
      requires idx < |coins|
      modifies this, coins[idx]
      ensures gifts == old(gifts) && coins == old(coins)
      ensures coins[idx].minCoin == ParseInt(text)
      ensures coins[idx].maxCoin == old(coins[idx].maxCoin) && coins[idx].actionIds == old(coins[idx].actionIds)
      ensures coins[idx].enabled == old(coins[idx].enabled)
      ensures coins[idx].giftName == old(coins[idx].giftName) && coins[idx].giftId == old(coins[idx].giftId)
    {
      var newCoins := coins;
      newCoins[idx].minCoin := ParseInt(text);
      coins := newCoins;
    }

    /** Typing the upper bound of coin row `idx`. */
    method SetMaxCoin(idx: nat, text: string)
      requires idx < |coins|
      modifies this, coins[idx]
      ensures gifts == old(gifts) && coins == old(coins)
      ensures coins[idx].maxCoin == ParseInt(text)
      ensures coins[idx].minCoin == old(coins[idx].minCoin) && coins[idx].actionIds == old(coins[idx].actionIds)
      ensures coins[idx].enabled == old(coins[idx].enabled)
      ensures coins[idx].giftName == old(coins[idx].giftName) && coins[idx].giftId == old(coins[idx].giftId)
    {
      var newCoins := coins;
      newCoins[idx].maxCoin := ParseInt(text);
      coins := newCoins;
    }

    /** Typing the action ids of coin row `idx`. */
    method SetCoinActionIds(idx: nat, text: string)
      requires idx < |coins|
      modifies this, coins[idx]
      ensures gifts == old(gifts) && coins == old(coins)
      ensures coins[idx].actionIds == ParseActionIds(text)
      ensures coins[idx].minCoin == old(coins[idx].minCoin) && coins[idx].maxCoin == old(coins[idx].maxCoin)
      ensures coins[idx].enabled == old(coins[idx].enabled)
      ensures coins[idx].giftName == old(coins[idx].giftName) && coins[idx].giftId == old(coins[idx].giftId)
    {
      var newCoins := coins;
      newCoins[idx].actionIds := ParseActionIds(text);
      coins := newCoins;
    }

    /** Ticking the checkbox of coin row `idx`. */
    method SetCoinEnabled(idx: nat, checked: bool)
      requires idx < |coins|
      modifies this, coins[idx]
      ensures gifts == old(gifts) && coins == old(coins)
      ensures coins[idx].enabled == checked
      ensures coins[idx].minCoin == old(coins[idx].minCoin) && coins[idx].maxCoin == old(coins[idx].maxCoin)
      ensures coins[idx].actionIds == old(coins[idx].actionIds)
      ensures coins[idx].giftName == old(coins[idx].giftName) && coins[idx].giftId == old(coins[idx].giftId)
    {
      var newCoins := coins;
      newCoins[idx].enabled := checked;
      coins := newCoins;
    }
  }
}
