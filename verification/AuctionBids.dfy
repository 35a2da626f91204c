/** When a bid is taken, how prices move over a run, and what the other requests and the update do to
    an auction, told by the fields alone. */
module AuctionBids {
  import opened Wrappers
  import opened Auctions
  import opened AuctionFates

  /** A bid changes anything exactly if bidder, auction, price and purse are what the handler asks
      for: the price is not less than the standing bid, or it is the buyout, which may be less. Then
      the price leaves the purse, the bidder before has its bid back, and a buyout closes the auction. */
  lemma BidIff(w: World, p: PlayerId, house: nat, id: AuctionId, price: nat)
    ensures var r := PlaceBid(w, p, house, id, price);
            r != w <==>
            && 0 < p < |w.till.purses| && house < |w.houses| && id in w.houses[house].auctions && price > 0 && price <= w.till.purses[p]
            && var a := w.houses[house].auctions[id];
               a.owner != 0 && p != a.owner && (price >= a.bid || price == a.buyout)
    ensures var r := PlaceBid(w, p, house, id, price);
            r != w ==>
            && |r.houses| == |w.houses|
            && var (h, g) := (w.houses[house], r.houses[house]);
               var (a, closes) := (h.auctions[id], price == h.auctions[id].buyout && !h.auctions[id].deleted);
            && r.till == w.till.(purses := w.till.purses[p := w.till.purses[p] - price],
                                 mail := w.till.mail + if a.bidder != 0 then [Letter(id, a.bidder, None, a.bid)] else [])
            && r == w.(till := r.till, houses := w.houses[house := g]) && g == h.(auctions := g.auctions, removal := g.removal)
            && g.removal == h.removal + (if closes then [id] else [])
            && g.auctions == h.auctions[id := a.(bidder := p, bid := price, deleted := a.deleted || closes,
                                                 reason := if closes then Won else a.reason)]
  {
    if CanBid(w, p, house, id, price) {
      var a := w.houses[house].auctions[id];
      assert PlaceBid(w, p, house, id, price).till.purses[p] != w.till.purses[p];
      if a.buyout == price && !a.deleted {
        assert a.(bidder := p, bid := price).(deleted := true, reason := Won) == a.(bidder := p, bid := price, deleted := true, reason := Won);
      }
    }
  }

  /** What no request or update changes of an auction. */
  ghost predicate SameDeal(a: Auction, r: Auction) {
    r.owner == a.owner && r.item == a.item && r.buyout == a.buyout && r.deposit == a.deposit && r.expiry == a.expiry
  }

  /** An update touches no bid, and lists nothing new. */
  lemma {:induction false} PassSame(w: World, k: nat, now: nat, online: set<PlayerId>, expire: bool, house: nat, id: AuctionId)
    requires k <= |w.houses| && Inv(w) && house < |w.houses|
    ensures var r := Pass(w, k, now, online, expire);
            id in r.houses[house].auctions ==>
              && id in w.houses[house].auctions && r.houses[house].auctions[id].bid == w.houses[house].auctions[id].bid
              && SameDeal(w.houses[house].auctions[id], r.houses[house].auctions[id])
    decreases |w.houses| - k
  {
    hide Drain, Over, HouseInv;
    if k < |w.houses| {
      var h := w.houses[k];
      DrainedKeeps(h, w.maxId);
      ExpireKeeps(Drained(h), now, w.maxId);
      TaxSane(h, w.maxId);
      var till := Drain(h.tax, h.auctions, h.removal, w.till, online);
      var d := if expire then Expire(Drained(h), now, w.maxId) else Drained(h);
      PassSame(w.(till := till, houses := w.houses[k := d]), k + 1, now, online, expire, house, id);
    }
  }

  /** What one step does to the price of an auction that is still listed after it: it falls only
      when the auction is bought out below its standing bid. */
  lemma StepRises(w: World, ev: Event, house: nat, id: AuctionId)
    requires Inv(w) && house < |w.houses| == |Step(w, ev).houses| && id <= w.maxId && id in Step(w, ev).houses[house].auctions
    ensures id in w.houses[house].auctions
    ensures var (a, r) := (w.houses[house].auctions[id], Step(w, ev).houses[house].auctions[id]);
            && SameDeal(a, r)
            && (r.bid < a.bid ==> ev.Bid? && ev.house == house && ev.id == id && ev.price == a.buyout == r.bid)
  {
    match ev {
      case Sell(_, _, _, _, _, _, _) => hide Tick, PlaceBid, CancelAuction, HouseInv;
      case Bid(p, h, x, price) =>
        BidIff(w, p, h, x, price);
        hide Tick, SellItem, CancelAuction, PlaceBid, HouseInv;
      case Cancel(_, _) => hide Tick, SellItem, PlaceBid, HouseInv;
      case Update(now, online) =>
        hide SellItem, PlaceBid, CancelAuction, HouseInv, Pass;
        var count := (w.loopcount + 1) % 0x1_0000_0000;
        if count % 100 == 0 { PassSame(w.(loopcount := count), 0, now, online, count % 1200 == 0, house, id); }
    }
  }

  lemma StepHouses(w: World, ev: Event)
    requires Inv(w)
    ensures |Step(w, ev).houses| == |w.houses|
  {
    hide HouseInv, Pass;
    if ev.Update? {
      var count := (w.loopcount + 1) % 0x1_0000_0000;
      SameCount(w.(loopcount := count), ev.now, ev.online, count % 1200 == 0);
    }
  }

  lemma SameCount(w: World, now: nat, online: set<PlayerId>, expire: bool)
    requires Inv(w)
    ensures |Pass(w, 0, now, online, expire).houses| == |w.houses|
  {
  }

  /** Main theorem: while an auction is listed its terms stay, and its price never falls below the
      bid it had, unless it is bought out for less, and then not below the buyout. */
  lemma {:induction false} PricesRise(w: World, evs: seq<Event>, house: nat, id: AuctionId)
    requires Inv(w) && house < |w.houses| && id <= w.maxId
    ensures |Run(w, evs).houses| == |w.houses| && w.maxId <= Run(w, evs).maxId
    ensures id in Run(w, evs).houses[house].auctions ==> id in w.houses[house].auctions
    ensures id in Run(w, evs).houses[house].auctions ==>
            var (a, r) := (w.houses[house].auctions[id], Run(w, evs).houses[house].auctions[id]);
            && SameDeal(a, r)
            && (r.bid >= a.bid || r.bid >= a.buyout)
            && (r.bid < a.bid ==> exists ev :: ev in evs && ev.Bid? && ev.house == house && ev.id == id && ev.price == a.buyout)
    decreases |evs|
  {
    if evs != [] {
      var front, ev := evs[..|evs| - 1], evs[|evs| - 1];
      var before := Run(w, front);
      PricesRise(w, front, house, id);
      StepHouses(before, ev);
      StepKeeps(before, ev);
      hide Step, Inv;
      if id in Run(w, evs).houses[house].auctions {
        StepRises(before, ev, house, id);
        assert ev in evs && forall x :: x in front ==> x in evs;
      }
    }
  }

  // ---- The other requests and the update -------------------------------------------------

  /** A sale takes the deposit and lists the item under the next id, for the time and the prices
      asked and without a bidder; it is refused exactly if there is no such player or house or the
      purse is too small. */
  lemma SaleIff(w: World, p: PlayerId, house: nat, item: nat, bid: nat, buyout: nat, deposit: nat, expiry: nat)
    ensures var r := SellItem(w, p, house, item, bid, buyout, deposit, expiry);
            && (r != w <==> 0 < p < |w.till.purses| && house < |w.houses| && deposit <= w.till.purses[p])
            && (r != w ==>
                && |r.houses| == |w.houses| && r.till.purses == w.till.purses[p := w.till.purses[p] - deposit]
                && r.till.mail == w.till.mail && r.till.books == w.till.books && r.maxId == w.maxId + 1
                && r.houses[house].auctions == w.houses[house].auctions[r.maxId := Auction(p, 0, bid, buyout, deposit, expiry, item, false, Expired)]
                && forall k :: 0 <= k < |w.houses| && k != house ==> r.houses[k] == w.houses[k])
  {
  }

  /** A cancelled auction stays listed until the next pass, deleted; one that was deleted before keeps
      its reason. Nobody is asked who cancels. */
  lemma CancelIff(w: World, house: nat, id: AuctionId)
    ensures var r := CancelAuction(w, house, id);
            && (r != w <==> house < |w.houses| && id in w.houses[house].auctions && !w.houses[house].auctions[id].deleted)
            && (r != w ==>
                && |r.houses| == |w.houses| && r.till == w.till && r.houses[house].removal == w.houses[house].removal + [id]
                && r.houses[house].auctions
                   == w.houses[house].auctions[id := w.houses[house].auctions[id].(deleted := true, reason := Cancelled)])
  {
  }

  lemma {:induction false} PassOn(w: World, k: nat, now: nat, online: set<PlayerId>, expire: bool, j: nat, id: AuctionId)
    requires k <= j < |w.houses| && Inv(w) && id in w.houses[j].auctions
    ensures var (a, r) := (w.houses[j].auctions[id], Pass(w, k, now, online, expire).houses[j].auctions);
            if a.deleted then id !in r
            else id in r && r[id] == if expire && now >= a.expiry then a.(deleted := true, reason := if a.bidder == 0 then Expired else Won) else a
    decreases |w.houses| - k
  {
    hide Drain, Over;
    var h := w.houses[k];
    DrainedKeeps(h, w.maxId);
    ExpireKeeps(Drained(h), now, w.maxId);
    TaxSane(h, w.maxId);
    var till := Drain(h.tax, h.auctions, h.removal, w.till, online);
    var d := if expire then Expire(Drained(h), now, w.maxId) else Drained(h);
    var s := w.(till := till, houses := w.houses[k := d]);
    if j == k { DrainedOn(h, w.maxId, id, now, expire); }
    hide Expire, Drained, HouseInv;
    if j == k {
      PassLeaves(s, k + 1, now, online, expire, k);
    } else {
      PassOn(s, k + 1, now, online, expire, j, id);
    }
  }

  lemma DrainedOn(h: House, maxId: AuctionId, id: AuctionId, now: nat, expire: bool)
    requires HouseInv(h, maxId) && id in h.auctions
    ensures var (a, r) := (h.auctions[id], (if expire then Expire(Drained(h), now, maxId) else Drained(h)).auctions);
            if a.deleted then id !in r
            else id in r && r[id] == if expire && now >= a.expiry then a.(deleted := true, reason := if a.bidder == 0 then Expired else Won) else a
  {
    hide Over;
  }

  /** Every 100th update unlists the deleted auctions, and every 1200th then marks those whose time is
      over, as won if there is a bidder; all other auctions stay as they are. */
  lemma UpdateMeans(w: World, now: nat, online: set<PlayerId>, house: nat, id: AuctionId)
    requires Inv(w) && house < |w.houses| && id in w.houses[house].auctions
    ensures var (count, a, r) := ((w.loopcount + 1) % 0x1_0000_0000, w.houses[house].auctions[id], Step(w, Update(now, online)));
            && |r.houses| == |w.houses|
            && (count % 100 != 0 ==> r == w.(loopcount := count))
            && (count % 100 == 0 && a.deleted ==> id !in r.houses[house].auctions)
            && (count % 100 == 0 && !a.deleted ==>
                && id in r.houses[house].auctions
                && r.houses[house].auctions[id]
                   == if count % 1200 == 0 && now >= a.expiry then a.(deleted := true, reason := if a.bidder == 0 then Expired else Won) else a)
  {
    StepHouses(w, Update(now, online));
    var count := (w.loopcount + 1) % 0x1_0000_0000;
    var t := w.(loopcount := count);
    hide HouseInv, Pass;
    if count % 100 == 0 { PassOn(t, 0, now, online, count % 1200 == 0, house, id); }
  }
}
