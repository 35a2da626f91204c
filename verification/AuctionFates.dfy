/** What becomes of the items and of the money that comes back to nobody. */
module AuctionFates {
  import opened Wrappers
  import opened Auctions

  // ---- Items -----------------------------------------------------------------------------

  function Bit(b: bool): nat { if b then 1 else 0 }

  /** The letters of an auction that carry its item. */
  function ItemLetters(mail: seq<Letter>, id: AuctionId): nat {
    if mail == [] then 0
    else ItemLetters(mail[..|mail| - 1], id) + Bit(mail[|mail| - 1].auction == id && mail[|mail| - 1].item.Some?)
  }

  lemma SendItems(t: Till, l: Letter, id: AuctionId)
    ensures ItemLetters(Send(t, l).mail, id) == ItemLetters(t.mail, id) + Bit(l.auction == id && l.item.Some?)
  {
    assert (t.mail + [l])[..|t.mail|] == t.mail;
  }

  function ItemLetter(id: AuctionId, a: Auction): Letter { Letter(id, Recipient(a), Some(a.item), 0) }

  lemma SettleItems(tax: nat, id: AuctionId, a: Auction, t: Till, online: set<PlayerId>, x: AuctionId)
    requires tax <= 100
    ensures var r := Settle(tax, id, a, t, online);
            && ItemLetters(r.mail, x) == ItemLetters(t.mail, x) + Bit(x == id)
            && t.mail <= r.mail && ItemLetter(id, a) in r.mail
  {
    hide ItemLetters, Cut;
    CutBound(tax, a.bid);
    var item := ItemLetter(id, a);
    var charged := if Charged(tax, a, t, online) then Cut(tax, a.bid) else 0;
    var paid := if a.reason.Cancelled? && charged > 0 then t.(purses := t.purses[a.owner := t.purses[a.owner] - charged]) else t;
    SendItems(paid, item, x);
    assert item in Send(paid, item).mail;
    if a.reason.Won? {
      SendItems(Send(t, item), Letter(id, a.owner, None, Proceeds(a.bid - Cut(tax, a.bid) + a.deposit)), x);
    } else if a.reason.Cancelled? {
      SendItems(Send(paid, item), Letter(id, a.bidder, None, a.bid), x);
    }
  }

  lemma {:induction false} DrainItems(
    tax: nat, auctions: map<AuctionId, Auction>, list: seq<AuctionId>, t: Till, online: set<PlayerId>, x: AuctionId)
    requires tax <= 100 && (forall i :: 0 <= i < |list| ==> list[i] in auctions)
    requires forall i, j :: 0 <= i < j < |list| ==> list[i] != list[j]
    ensures var r := Drain(tax, auctions, list, t, online);
            && ItemLetters(r.mail, x) == ItemLetters(t.mail, x) + Bit(x in list)
            && t.mail <= r.mail && (x in list ==> ItemLetter(x, auctions[x]) in r.mail)
  {
    hide Settle, ItemLetters;
    if list != [] {
      var s := Settle(tax, list[0], auctions[list[0]], t, online);
      SettleItems(tax, list[0], auctions[list[0]], t, online, x);
      DrainItems(tax, auctions, list[1..], s, online, x);
      assert x in list <==> x == list[0] || x in list[1..];
    }
  }

  /** How many houses list an auction. */
  function Listed(houses: seq<House>, id: AuctionId): nat {
    if houses == [] then 0 else Bit(id in houses[0].auctions) + Listed(houses[1..], id)
  }

  lemma {:induction false} ListedUpdate(houses: seq<House>, k: nat, h: House, id: AuctionId)
    requires k < |houses|
    ensures Listed(houses[k := h], id) + Bit(id in houses[k].auctions) == Listed(houses, id) + Bit(id in h.auctions)
  {
    if k == 0 {
      assert houses[0 := h][1..] == houses[1..];
    } else {
      assert houses[k := h][1..] == houses[1..][k - 1 := h];
      ListedUpdate(houses[1..], k - 1, h, id);
    }
  }

  /** Every auction ever created is listed once or its item was mailed once. */
  ghost predicate ItemsOnce(w: World, id: AuctionId) {
    ItemLetters(w.till.mail, id) + Listed(w.houses, id) == Bit(0 < id <= w.maxId)
  }

  lemma {:induction false} PassItems(w: World, k: nat, now: nat, online: set<PlayerId>, expire: bool, id: AuctionId)
    requires k <= |w.houses| && Inv(w)
    ensures var r := Pass(w, k, now, online, expire);
            && ItemLetters(r.till.mail, id) + Listed(r.houses, id) == ItemLetters(w.till.mail, id) + Listed(w.houses, id)
            && w.till.mail <= r.till.mail && r.maxId == w.maxId
    decreases |w.houses| - k
  {
    hide ItemLetters, Listed, Drain, HouseInv, Over;
    if k < |w.houses| {
      var h := w.houses[k];
      DrainedKeeps(h, w.maxId);
      ExpireKeeps(Drained(h), now, w.maxId);
      TaxSane(h, w.maxId);
      QueueOnce(h, w.maxId);
      DrainItems(h.tax, h.auctions, h.removal, w.till, online, id);
      var till := Drain(h.tax, h.auctions, h.removal, w.till, online);
      var d := if expire then Expire(Drained(h), now, w.maxId) else Drained(h);
      ListedUpdate(w.houses, k, d, id);
      PassItems(w.(till := till, houses := w.houses[k := d]), k + 1, now, online, expire, id);
    }
  }

  lemma QueueOnce(h: House, maxId: AuctionId)
    requires HouseInv(h, maxId)
    ensures forall i, j :: 0 <= i < j < |h.removal| ==> h.removal[i] != h.removal[j]
    ensures forall id :: id in h.removal ==> id in h.auctions
  {
  }

  lemma BidItems(w: World, p: PlayerId, house: nat, bid: AuctionId, price: nat, id: AuctionId)
    requires CanBid(w, p, house, bid, price) && ItemsOnce(w, id)
    ensures ItemsOnce(PlaceBid(w, p, house, bid, price), id)
  {
    hide ItemLetters, Listed;
    ListedUpdate(w.houses, house, PlaceBid(w, p, house, bid, price).houses[house], id);
    var a := w.houses[house].auctions[bid];
    var paid := w.till.(purses := w.till.purses[p := w.till.purses[p] - price]);
    SendItems(paid, Letter(bid, a.bidder, None, a.bid), id);
  }

  lemma StepItems(w: World, ev: Event, id: AuctionId)
    requires Inv(w) && ItemsOnce(w, id)
    ensures ItemsOnce(Step(w, ev), id)
  {
    hide ItemLetters, Listed;
    var r := Step(w, ev);
    match ev {
      case Sell(p, house, item, bid, buyout, deposit, expiry) =>
        if 0 < p < |w.till.purses| && house < |w.houses| && w.till.purses[p] >= deposit {
          ListedUpdate(w.houses, house, r.houses[house], id);
        }
      case Bid(p, house, bid, price) =>
        if CanBid(w, p, house, bid, price) { BidItems(w, p, house, bid, price, id); }
      case Cancel(house, bid) =>
        if house < |w.houses| && bid in w.houses[house].auctions { ListedUpdate(w.houses, house, r.houses[house], id); }
      case Update(now, online) =>
        var count := (w.loopcount + 1) % 0x1_0000_0000;
        if count % 100 == 0 { PassItems(w.(loopcount := count), 0, now, online, count % 1200 == 0, id); }
    }
  }

  /** Main theorem: over every run each item is either still listed, once, or was mailed, once. */
  lemma {:induction false} ItemsInEveryRun(w: World, evs: seq<Event>, id: AuctionId)
    requires Inv(w) && ItemsOnce(w, id)
    ensures ItemsOnce(Run(w, evs), id)
    decreases |evs|
  {
    hide ItemsOnce;
    if evs != [] {
      ItemsInEveryRun(w, evs[..|evs| - 1], id);
      StepItems(Run(w, evs[..|evs| - 1]), evs[|evs| - 1], id);
    }
  }

  /** A pass mails each deleted auction's item to the winner, or back to the owner, and unlists it. */
  lemma {:induction false} PassDelivers(w: World, k: nat, now: nat, online: set<PlayerId>, expire: bool, j: nat, id: AuctionId)
    requires k <= j < |w.houses| && Inv(w) && id in w.houses[j].auctions && w.houses[j].auctions[id].deleted
    ensures var r := Pass(w, k, now, online, expire);
            ItemLetter(id, w.houses[j].auctions[id]) in r.till.mail && id !in r.houses[j].auctions
    decreases |w.houses| - k
  {
    hide ItemLetters, Drain, Over;
    var h := w.houses[k];
    DrainedKeeps(h, w.maxId);
    ExpireKeeps(Drained(h), now, w.maxId);
    TaxSane(h, w.maxId);
    var till := Drain(h.tax, h.auctions, h.removal, w.till, online);
    var d := if expire then Expire(Drained(h), now, w.maxId) else Drained(h);
    var s := w.(till := till, houses := w.houses[k := d]);
    if j == k {
      DrainItems(h.tax, h.auctions, h.removal, w.till, online, id);
      PassItems(s, k + 1, now, online, expire, id);
      PassLeaves(s, k + 1, now, online, expire, k);
    } else {
      PassDelivers(s, k + 1, now, online, expire, j, id);
    }
  }

  lemma {:induction false} PassLeaves(w: World, k: nat, now: nat, online: set<PlayerId>, expire: bool, j: nat)
    requires j < k <= |w.houses| && Inv(w)
    ensures Pass(w, k, now, online, expire).houses[j] == w.houses[j]
    decreases |w.houses| - k
  {
    hide Drain, Over;
    if k < |w.houses| {
      var h := w.houses[k];
      DrainedKeeps(h, w.maxId);
      ExpireKeeps(Drained(h), now, w.maxId);
      TaxSane(h, w.maxId);
      var till := Drain(h.tax, h.auctions, h.removal, w.till, online);
      var d := if expire then Expire(Drained(h), now, w.maxId) else Drained(h);
      PassLeaves(w.(till := till, houses := w.houses[k := d]), k + 1, now, online, expire, j);
    }
  }

  /** The last bid accepted on an auction: who made it and how much it was, or (0, 0). */
  ghost function LastBid(w: World, evs: seq<Event>, house: nat, id: AuctionId): (PlayerId, nat)
    requires Inv(w)
    decreases |evs|
  {
    if evs == [] then (0, 0)
    else
      var front, ev := evs[..|evs| - 1], evs[|evs| - 1];
      if ev.Bid? && ev.house == house && ev.id == id && CanBid(Run(w, front), ev.player, house, id, ev.price)
      then (ev.player, ev.price)
      else LastBid(w, front, house, id)
  }

  /** The highest bidder of an auction is the player whose bid was accepted last. */
  ghost predicate BidderIs(w: World, house: nat, id: AuctionId, last: (PlayerId, nat)) {
    house < |w.houses| && id in w.houses[house].auctions ==>
      var a := w.houses[house].auctions[id];
      a.bidder == last.0 && (last.0 != 0 ==> a.bid == last.1)
  }

  lemma {:induction false} PassBidders(w: World, k: nat, now: nat, online: set<PlayerId>, expire: bool, house: nat, id: AuctionId, last: (PlayerId, nat))
    requires k <= |w.houses| && Inv(w) && BidderIs(w, house, id, last)
    ensures BidderIs(Pass(w, k, now, online, expire), house, id, last)
    decreases |w.houses| - k
  {
    hide Drain, Over, HouseInv;
    if k < |w.houses| {
      var h := w.houses[k];
      DrainedKeeps(h, w.maxId);
      ExpireKeeps(Drained(h), now, w.maxId);
      TaxSane(h, w.maxId);
      var till := Drain(h.tax, h.auctions, h.removal, w.till, online);
      var d := if expire then Expire(Drained(h), now, w.maxId) else Drained(h);
      PassBidders(w.(till := till, houses := w.houses[k := d]), k + 1, now, online, expire, house, id, last);
    }
  }

  /** In every run the highest bidder of a listed auction, who gets the item if it is won, is the
      player whose bid was accepted last, at that price. */
  lemma {:induction false} WinnerBidLast(w: World, evs: seq<Event>, house: nat, id: AuctionId)
    requires Inv(w) && id > w.maxId
    ensures BidderIs(Run(w, evs), house, id, LastBid(w, evs, house, id))
    ensures id > Run(w, evs).maxId ==> LastBid(w, evs, house, id) == (0, 0)
    decreases |evs|
  {
    hide Drain, Over;
    if evs != [] {
      var front, ev := evs[..|evs| - 1], evs[|evs| - 1];
      var before := Run(w, front);
      WinnerBidLast(w, front, house, id);
      StepKeeps(before, ev);
      StepBidder(before, ev, house, id, LastBid(w, front, house, id));
    }
  }

  lemma StepBidder(w: World, ev: Event, house: nat, id: AuctionId, last: (PlayerId, nat))
    requires Inv(w) && BidderIs(w, house, id, last) && (id > w.maxId ==> last == (0, 0))
    ensures var hit := ev.Bid? && ev.house == house && ev.id == id && CanBid(w, ev.player, house, id, ev.price);
            BidderIs(Step(w, ev), house, id, if hit then (ev.player, ev.price) else last)
  {
    match ev {
      case Sell(_, _, _, _, _, _, _) => hide Tick, PlaceBid, CancelAuction, HouseInv;
      case Bid(_, _, _, _) => hide Tick, SellItem, CancelAuction, HouseInv;
      case Cancel(_, _) => hide Tick, SellItem, PlaceBid, HouseInv;
      case Update(now, online) =>
        hide SellItem, PlaceBid, CancelAuction, HouseInv, Pass;
        var count := (w.loopcount + 1) % 0x1_0000_0000;
        var t := w.(loopcount := count);
        if count % 100 == 0 { PassBidders(t, 0, now, online, count % 1200 == 0, house, id, last); }
    }
  }

  // ---- What each player has at stake -----------------------------------------------------

  function LettersTo(mail: seq<Letter>, q: PlayerId): nat {
    if mail == [] then 0
    else LettersTo(mail[..|mail| - 1], q) + if mail[|mail| - 1].to == q then mail[|mail| - 1].money else 0
  }

  lemma SendTo(t: Till, l: Letter, q: PlayerId)
    ensures LettersTo(Send(t, l).mail, q) == LettersTo(t.mail, q) + if l.to == q then l.money else 0
  {
    assert (t.mail + [l])[..|t.mail|] == t.mail;
  }

  function BidOf(a: Auction, q: PlayerId): nat { if a.bidder == q then a.bid else 0 }

  function BidsOf(auctions: map<AuctionId, Auction>, n: nat, q: PlayerId): nat {
    if n == 0 then 0 else BidsOf(auctions, n - 1, q) + if n - 1 in auctions then BidOf(auctions[n - 1], q) else 0
  }

  lemma {:induction false} BidsUpdate(auctions: map<AuctionId, Auction>, n: nat, id: AuctionId, a: Auction, q: PlayerId)
    ensures BidsOf(auctions[id := a], n, q) + (if id < n && id in auctions then BidOf(auctions[id], q) else 0)
         == BidsOf(auctions, n, q) + (if id < n then BidOf(a, q) else 0)
  {
    hide BidOf;
    if n > 0 { BidsUpdate(auctions, n - 1, id, a, q); }
  }

  function HousesBids(houses: seq<House>, n: nat, q: PlayerId): nat {
    if houses == [] then 0 else BidsOf(houses[0].auctions, n, q) + HousesBids(houses[1..], n, q)
  }

  lemma {:induction false} HousesBidsUpdate(houses: seq<House>, n: nat, k: nat, h: House, q: PlayerId)
    requires k < |houses|
    ensures HousesBids(houses[k := h], n, q) + BidsOf(houses[k].auctions, n, q) == HousesBids(houses, n, q) + BidsOf(h.auctions, n, q)
  {
    hide BidsOf;
    if k == 0 {
      assert houses[0 := h][1..] == houses[1..];
    } else {
      assert houses[k := h][1..] == houses[1..][k - 1 := h];
      HousesBidsUpdate(houses[1..], n, k - 1, h, q);
    }
  }

  /** A player's purse, the money in letters to it, and its standing bids. */
  function Stake(w: World, q: PlayerId): nat
    requires q < |w.till.purses|
  {
    w.till.purses[q] + LettersTo(w.till.mail, q) + HousesBids(w.houses, w.maxId + 1, q)
  }

  /** A bid moves money only among what its own bidder has: whoever is outbid has everything back. */
  lemma BidKeepsStakes(w: World, p: PlayerId, house: nat, id: AuctionId, price: nat, q: PlayerId)
    requires Inv(w) && CanBid(w, p, house, id, price) && 0 < q < |w.till.purses|
    ensures Stake(PlaceBid(w, p, house, id, price), q) == Stake(w, q)
  {
    hide LettersTo, BidsOf, HousesBids;
    var r, h := PlaceBid(w, p, house, id, price), w.houses[house];
    var a, now := h.auctions[id], r.houses[house].auctions[id];
    var paid := w.till.(purses := w.till.purses[p := w.till.purses[p] - price]);
    SendTo(paid, Letter(id, a.bidder, None, a.bid), q);
    assert r.houses[house].auctions == h.auctions[id := now];
    BidsUpdate(h.auctions, w.maxId + 1, id, now, q);
    HousesBidsUpdate(w.houses, w.maxId + 1, house, r.houses[house], q);
  }

  /** The house keeps the whole part of its percentage of the bid. */
  lemma CutIs(tax: nat, bid: nat)
    ensures Cut(tax, bid) == tax * bid / 100
    ensures 100 * Cut(tax, bid) <= tax * bid < 100 * Cut(tax, bid) + 100
  {
  }

  /** What the removal of an auction brings a player in purse and letters: the owner of a sale the
      bid and the deposit less the cut, or nothing if that is 2^31 or more, the bidder of a cancelled
      auction its bid, the owner of one the loss of the cut if it is online and can pay, and anybody
      else nothing. */
  lemma SettleStakes(tax: nat, id: AuctionId, a: Auction, t: Till, online: set<PlayerId>, q: PlayerId)
    requires tax <= 100 && 0 < q < |t.purses| && a.owner != a.bidder
    ensures var r := Settle(tax, id, a, t, online);
            var gain := r.purses[q] + LettersTo(r.mail, q) - t.purses[q] - LettersTo(t.mail, q);
            match a.reason
            case Expired => gain == 0
            case Won =>
              var amount := a.bid - tax * a.bid / 100 + a.deposit;
              gain == if q == a.owner && amount < 0x8000_0000 then amount else 0
            case Cancelled =>
              if q == a.owner then gain == if q in online && t.purses[q] >= tax * a.bid / 100 then -(tax * a.bid / 100) else 0
              else gain == if q == a.bidder then a.bid else 0
  {
    CutIs(tax, a.bid);
    hide LettersTo, Cut;
    CutBound(tax, a.bid);
    var cut := Cut(tax, a.bid);
    match a.reason {
      case Expired =>
        SendTo(t, Letter(id, a.owner, Some(a.item), 0), q);
      case Won =>
        var item := Letter(id, a.bidder, Some(a.item), 0);
        SendTo(t, item, q);
        SendTo(Send(t, item), Letter(id, a.owner, None, Proceeds(a.bid - cut + a.deposit)), q);
      case Cancelled =>
        var charged := if Charged(tax, a, t, online) then cut else 0;
        var paid := if charged > 0 then t.(purses := t.purses[a.owner := t.purses[a.owner] - charged]) else t;
        var item := Letter(id, a.owner, Some(a.item), 0);
        SendTo(paid, item, q);
        SendTo(Send(paid, item), Letter(id, a.bidder, None, a.bid), q);
    }
  }

  // ---- Money that is lost ----------------------------------------------------------------

  ghost predicate BooksGrow(b: Books, r: Books) {
    b.cuts <= r.cuts && b.forfeits <= r.forfeits && b.strayBids <= r.strayBids && b.truncated <= r.truncated
  }

  /** A bid on an auction that is already marked expired. */
  predicate Late(a: Auction) { a.deleted && a.reason.Expired? && a.bidder != 0 }

  /** What one removal books: a stray bid exactly for a late one, truncated proceeds exactly for a
      sale of 2^31 or more after the cut. */
  lemma SettleBooks(tax: nat, id: AuctionId, a: Auction, t: Till, online: set<PlayerId>)
    requires tax <= 100 && a.deleted && (a.bidder != 0 ==> a.bid > 0)
    ensures var r := Settle(tax, id, a, t, online);
            && BooksGrow(t.books, r.books)
            && (r.books.strayBids > t.books.strayBids <==> Late(a))
            && (r.books.truncated > t.books.truncated <==> a.reason.Won? && a.bid - tax * a.bid / 100 + a.deposit >= 0x8000_0000)
  {
    CutIs(tax, a.bid);
    hide Cut;
    CutBound(tax, a.bid);
  }

  lemma {:induction false} DrainBooks(tax: nat, auctions: map<AuctionId, Auction>, list: seq<AuctionId>, t: Till, online: set<PlayerId>)
    requires tax <= 100 && (forall i :: 0 <= i < |list| ==> list[i] in auctions && auctions[list[i]].deleted)
    requires forall i :: 0 <= i < |list| ==> (auctions[list[i]].bidder != 0 ==> auctions[list[i]].bid > 0)
    ensures var r := Drain(tax, auctions, list, t, online);
            && BooksGrow(t.books, r.books)
            && (r.books.strayBids > t.books.strayBids <==> exists i :: 0 <= i < |list| && Late(auctions[list[i]]))
  {
    hide Settle;
    if list != [] {
      var s := Settle(tax, list[0], auctions[list[0]], t, online);
      SettleBooks(tax, list[0], auctions[list[0]], t, online);
      DrainBooks(tax, auctions, list[1..], s, online);
      assert forall i :: 0 < i < |list| ==> list[i] == list[1..][i - 1];
      if i :| 0 <= i < |list| && Late(auctions[list[i]]) {
        assert i == 0 || Late(auctions[list[1..][i - 1]]);
      }
    }
  }

  ghost predicate DoomedHouse(h: House) { exists id :: id in h.auctions && Late(h.auctions[id]) }

  /** Some listed auction carries a bid that will be lost. */
  ghost predicate Doomed(w: World, k: nat) { exists j :: k <= j < |w.houses| && DoomedHouse(w.houses[j]) }

  lemma HouseBooks(h: House, t: Till, now: nat, online: set<PlayerId>, maxId: AuctionId)
    requires HouseInv(h, maxId)
    ensures h.tax <= 100 && forall i :: 0 <= i < |h.removal| ==> h.removal[i] in h.auctions
    ensures var r := Drain(h.tax, h.auctions, h.removal, t, online);
            && BooksGrow(t.books, r.books)
            && (r.books.strayBids > t.books.strayBids <==> DoomedHouse(h))
    ensures !DoomedHouse(Drained(h)) && !DoomedHouse(Expire(Drained(h), now, maxId))
  {
    hide Drain, Over;
    forall i | 0 <= i < |h.removal|
      ensures h.removal[i] in h.auctions && h.auctions[h.removal[i]].deleted
    {
      assert h.removal[i] in h.removal;
    }
    DrainBooks(h.tax, h.auctions, h.removal, t, online);
    if id :| id in h.auctions && Late(h.auctions[id]) {
      assert id in h.removal;
      var i :| 0 <= i < |h.removal| && h.removal[i] == id;
      assert Late(h.auctions[h.removal[i]]);
    }
  }

  lemma {:induction false} PassBooks(w: World, k: nat, now: nat, online: set<PlayerId>, expire: bool)
    requires k <= |w.houses| && Inv(w)
    ensures var r := Pass(w, k, now, online, expire);
            && BooksGrow(w.till.books, r.till.books) && !Doomed(r, k)
            && (r.till.books.strayBids > w.till.books.strayBids <==> Doomed(w, k))
    decreases |w.houses| - k
  {
    hide Drain, Over, HouseInv, DoomedHouse, Expire, Drained;
    if k < |w.houses| {
      var h := w.houses[k];
      DrainedKeeps(h, w.maxId);
      ExpireKeeps(Drained(h), now, w.maxId);
      HouseBooks(h, w.till, now, online, w.maxId);
      var till := Drain(h.tax, h.auctions, h.removal, w.till, online);
      var d := if expire then Expire(Drained(h), now, w.maxId) else Drained(h);
      var s := w.(till := till, houses := w.houses[k := d]);
      PassBooks(s, k + 1, now, online, expire);
      PassLeaves(s, k + 1, now, online, expire, k);
      DoomedFrom(w, s, k);
    }
  }

  lemma DoomedFrom(w: World, s: World, k: nat)
    requires k < |w.houses| == |s.houses| && forall j :: k < j < |w.houses| ==> s.houses[j] == w.houses[j]
    ensures Doomed(w, k) <==> DoomedHouse(w.houses[k]) || Doomed(s, k + 1)
  {
    hide DoomedHouse;
    if Doomed(w, k) {
      var j :| k <= j < |w.houses| && DoomedHouse(w.houses[j]);
      assert j > k ==> DoomedHouse(s.houses[j]);
    }
    if Doomed(s, k + 1) {
      var j :| k < j < |s.houses| && DoomedHouse(s.houses[j]);
      assert DoomedHouse(w.houses[j]);
    }
  }

  /** A bid is accepted on an auction that is already marked expired. */
  ghost predicate LateBid(w: World, ev: Event) {
    && ev.Bid? && CanBid(w, ev.player, ev.house, ev.id, ev.price)
    && var a := w.houses[ev.house].auctions[ev.id];
       a.deleted && a.reason.Expired?
  }

  /** There is a run with such a bid: an auction is put up, the update after its time marks it, and
      a bid comes before the next one. */
  lemma ALateBid()
    ensures exists w: World, evs: seq<Event> ::
              Inv(w) && w.houses == [House(5, map[], [])] && w.till.mail == [] && LateBids(w, evs) && Doomed(Run(w, evs), 0)
  {
    var w := SmallWorld(map[], [], 0, 1199);
    var a := Auction(1, 0, 10, 0, 0, 50, 7, false, Expired);
    var listed, marked := SmallWorld(map[1 := a], [], 1, 1199), SmallWorld(map[1 := Mark(a)], [1], 1, 1200);
    ItIsSold(a);
    MarkedAlone(listed, a);
    ItIsLate(a);
    hide Doomed, Run, LateBid, Inv, Tick, SellItem, PlaceBid;
    var sell, tick, bid := Sell(1, 0, 7, 10, 0, 0, 50), Update(60, {}), Bid(2, 0, 1, 10);
    ThreeSteps(w, sell, tick, bid, listed, marked);
    LostBidIffLate(w, [sell, tick, bid]);
  }

  /** A world with a house, a seller and a bidder. */
  function SmallWorld(auctions: map<AuctionId, Auction>, removal: seq<AuctionId>, maxId: AuctionId, loopcount: nat): World {
    World(Till([0, 0, 20], [], Books(0, 0, 0, 0)), [House(5, auctions, removal)], maxId, loopcount)
  }

  lemma ItIsSold(a: Auction)
    requires a == Auction(1, 0, 10, 0, 0, 50, 7, false, Expired)
    ensures var w := SmallWorld(map[], [], 0, 1199);
            Inv(w) && !Doomed(w, 0) && SellItem(w, 1, 0, 7, 10, 0, 0, 50) == SmallWorld(map[1 := a], [], 1, 1199)
    ensures Inv(SmallWorld(map[1 := a], [], 1, 1199))
  {
    var w := SmallWorld(map[], [], 0, 1199);
    assert HouseInv(w.houses[0], 0) && !DoomedHouse(w.houses[0]);
    assert HouseInv(House(5, map[1 := a], []), 1);
  }

  lemma ItIsLate(a: Auction)
    requires a == Auction(1, 0, 10, 0, 0, 50, 7, false, Expired)
    ensures LateBid(SmallWorld(map[1 := Mark(a)], [1], 1, 1200), Bid(2, 0, 1, 10))
  {
  }

  lemma ThreeSteps(w: World, x: Event, y: Event, z: Event, one: World, two: World)
    requires Inv(w) && Step(w, x) == one && Inv(one) && Step(one, y) == two && Inv(two) && LateBid(two, z)
    requires w.till.books.strayBids == two.till.books.strayBids && z.Bid?
    ensures LateBids(w, [x, y, z]) && Run(w, [x, y, z]).till.books.strayBids == w.till.books.strayBids
  {
    hide Step, LateBid;
    var evs := [x, y, z];
    assert evs[..2] == [x, y] && [x, y][..1] == [x] && [x][..0] == [];
    assert Run(w, []) == w && Run(w, [x]) == one && Run(w, [x, y]) == two;
    BidBooks(two, z);
  }

  lemma BidBooks(w: World, ev: Event)
    requires Inv(w) && ev.Bid?
    ensures Step(w, ev).till.books == w.till.books
  {
  }

  /** The update that marks the only auction there is. */
  lemma MarkedAlone(w: World, a: Auction)
    requires Inv(w) && w.houses == [House(5, map[1 := a], [])] && w.maxId == 1 && w.loopcount == 1199
    requires !a.deleted && a.expiry <= 60
    ensures Tick(w, 60, {}) == World(w.till, [House(5, map[1 := Mark(a)], [1])], 1, 1200)
    ensures Inv(Tick(w, 60, {}))
  {
    StepKeeps(w, Update(60, {}));
    var h, t := w.houses[0], w.(loopcount := 1200);
    var d := House(5, map[1 := Mark(a)], [1]);
    DrainedKeeps(h, 1);
    ExpireKeeps(Drained(h), 60, 1);
    assert Drained(h) == h by { assert Drained(h).auctions == h.auctions; }
    assert Over(h.auctions, 60, 2) == [1] by { assert Over(h.auctions, 60, 0) == [] && Over(h.auctions, 60, 1) == []; }
    assert Expire(h, 60, 1) == d by { assert Expire(h, 60, 1).auctions == d.auctions; }
    var r := t.(houses := t.houses[0 := d]);
    hide HouseInv, Over, Expire, Drained;
    assert Pass(t, 0, 60, {}, true) == Pass(r, 1, 60, {}, true);
    assert r.houses == [d];
  }

  lemma BidDooms(w: World, p: PlayerId, house: nat, id: AuctionId, price: nat)
    requires CanBid(w, p, house, id, price)
    ensures var (h, r) := (w.houses[house], PlaceBid(w, p, house, id, price).houses[house]);
            DoomedHouse(r) <==> DoomedHouse(h) || LateBid(w, Bid(p, house, id, price))
  {
    var (h, r) := (w.houses[house], PlaceBid(w, p, house, id, price).houses[house]);
    if x :| x in h.auctions && Late(h.auctions[x]) { assert Late(r.auctions[x]); }
    if LateBid(w, Bid(p, house, id, price)) { assert Late(r.auctions[id]); }
    if x :| x in r.auctions && Late(r.auctions[x]) { assert x == id || Late(h.auctions[x]); }
  }

  /** Exactly a late bid leads to a loss: at once it dooms the auction, later the bid is booked. */
  lemma StepStray(w: World, ev: Event)
    requires Inv(w)
    ensures var (r, b) := (Step(w, ev), w.till.books);
            && BooksGrow(b, r.till.books)
            && (r.till.books.strayBids > b.strayBids || Doomed(r, 0) <==> Doomed(w, 0) || LateBid(w, ev))
  {
    hide HouseInv, DoomedHouse;
    var r := Step(w, ev);
    match ev {
      case Sell(p, house, item, bid, buyout, deposit, expiry) =>
        if 0 < p < |w.till.purses| && house < |w.houses| && w.till.purses[p] >= deposit {
          AddDooms(w.houses[house], w.maxId, Auction(p, 0, bid, buyout, deposit, expiry, item, false, Expired));
          OneHouse(w, r, house);
        }
      case Bid(p, house, id, price) =>
        if CanBid(w, p, house, id, price) {
          BidDooms(w, p, house, id, price);
          OneHouse(w, r, house);
        }
      case Cancel(house, id) =>
        if house < |w.houses| && id in w.houses[house].auctions {
          CancelDooms(w.houses[house], id);
          OneHouse(w, r, house);
        }
      case Update(now, online) =>
        var count := (w.loopcount + 1) % 0x1_0000_0000;
        SameHouses(w, w.(loopcount := count));
        if count % 100 == 0 { PassBooks(w.(loopcount := count), 0, now, online, count % 1200 == 0); }
    }
  }

  lemma AddDooms(h: House, maxId: AuctionId, a: Auction)
    requires HouseInv(h, maxId) && !a.deleted
    ensures DoomedHouse(h.(auctions := h.auctions[maxId + 1 := a])) == DoomedHouse(h)
  {
    var r := h.(auctions := h.auctions[maxId + 1 := a]);
    if x :| x in h.auctions && Late(h.auctions[x]) { assert Late(r.auctions[x]); }
    if x :| x in r.auctions && Late(r.auctions[x]) { assert Late(h.auctions[x]); }
  }

  lemma CancelDooms(h: House, id: AuctionId)
    requires id in h.auctions
    ensures DoomedHouse(QueueDeletion(h, id, Cancelled)) == DoomedHouse(h)
  {
    var r := QueueDeletion(h, id, Cancelled);
    if x :| x in h.auctions && Late(h.auctions[x]) { assert Late(r.auctions[x]); }
    if x :| x in r.auctions && Late(r.auctions[x]) { assert Late(h.auctions[x]); }
  }

  lemma SameHouses(w: World, r: World)
    requires w.houses == r.houses
    ensures Doomed(w, 0) == Doomed(r, 0)
  {
  }

  /** Only one house differs. */
  lemma OneHouse(w: World, r: World, k: nat)
    requires k < |w.houses| == |r.houses| && r.houses == w.houses[k := r.houses[k]]
    ensures DoomedHouse(w.houses[k]) ==> Doomed(w, 0)
    ensures DoomedHouse(r.houses[k]) ==> Doomed(r, 0)
    ensures Doomed(w, 0) ==> DoomedHouse(w.houses[k]) || Doomed(r, 0)
    ensures Doomed(r, 0) ==> DoomedHouse(r.houses[k]) || Doomed(w, 0)
  {
    hide DoomedHouse;
    if Doomed(w, 0) {
      var j :| 0 <= j < |w.houses| && DoomedHouse(w.houses[j]);
      assert j == k || DoomedHouse(r.houses[j]);
    }
    if Doomed(r, 0) {
      var j :| 0 <= j < |r.houses| && DoomedHouse(r.houses[j]);
      assert j == k || DoomedHouse(w.houses[j]);
    }
  }

  /** Some bid of the run was late. */
  ghost predicate LateBids(w: World, evs: seq<Event>)
    requires Inv(w)
    decreases |evs|
  {
    evs != [] && (LateBids(w, evs[..|evs| - 1]) || LateBid(Run(w, evs[..|evs| - 1]), evs[|evs| - 1]))
  }

  /** From a start without late bids, a run loses a bid, or will lose it at the next pass, exactly
      if some bid of the run landed on an auction already marked expired. */
  lemma {:induction false} LostBidIffLate(w: World, evs: seq<Event>)
    requires Inv(w) && !Doomed(w, 0)
    ensures BooksGrow(w.till.books, Run(w, evs).till.books)
    ensures Run(w, evs).till.books.strayBids > w.till.books.strayBids || Doomed(Run(w, evs), 0) <==> LateBids(w, evs)
    decreases |evs|
  {
    hide Doomed, LateBid;
    if evs != [] {
      LostBidIffLate(w, evs[..|evs| - 1]);
      StepStray(Run(w, evs[..|evs| - 1]), evs[|evs| - 1]);
    }
  }

  /** With less than 2^31 in all no proceeds are too large to send. */
  lemma {:induction false} DrainSends(tax: nat, auctions: map<AuctionId, Auction>, list: seq<AuctionId>, t: Till, online: set<PlayerId>)
    requires tax <= 100 && (forall i :: 0 <= i < |list| ==> list[i] in auctions)
    requires forall i :: 0 <= i < |list| ==> (auctions[list[i]].reason.Won? ==> auctions[list[i]].bidder != 0)
    requires Wealth(t) + ListMoney(auctions, list) < 0x8000_0000
    ensures Drain(tax, auctions, list, t, online).books.truncated == t.books.truncated
  {
    if list != [] {
      var a := auctions[list[0]];
      var s := Settle(tax, list[0], a, t, online);
      SettleMoney(tax, list[0], a, t, online);
      CutBound(tax, a.bid);
      assert s.books.truncated == t.books.truncated by { hide Sum, MailMoney, Cut, Wealth; }
      hide Settle, Wealth;
      DrainSends(tax, auctions, list[1..], s, online);
    }
  }

  lemma HouseSends(h: House, t: Till, online: set<PlayerId>, maxId: AuctionId)
    requires HouseInv(h, maxId) && Wealth(t) + Escrow(h.auctions, maxId + 1) < 0x8000_0000
    ensures h.tax <= 100 && forall i :: 0 <= i < |h.removal| ==> h.removal[i] in h.auctions
    ensures Drain(h.tax, h.auctions, h.removal, t, online).books.truncated == t.books.truncated
  {
    hide Wealth, Drain, Escrow;
    forall i | 0 <= i < |h.removal| ensures h.removal[i] in h.auctions && h.auctions[h.removal[i]].deleted { assert h.removal[i] in h.removal; }
    EscrowWithout(h.auctions, h.removal, maxId + 1);
    DrainSends(h.tax, h.auctions, h.removal, t, online);
  }

  lemma {:induction false} OneOfHouses(houses: seq<House>, n: nat, k: nat)
    requires k < |houses|
    ensures Escrow(houses[k].auctions, n) <= HousesEscrow(houses, n)
  {
    hide Escrow;
    if k > 0 { OneOfHouses(houses[1..], n, k - 1); }
  }

  lemma {:induction false} PassSends(w: World, k: nat, now: nat, online: set<PlayerId>, expire: bool)
    requires k <= |w.houses| && Inv(w) && Total(w) < 0x8000_0000
    ensures Pass(w, k, now, online, expire).till.books.truncated == w.till.books.truncated
    decreases |w.houses| - k
  {
    hide Wealth, Drain, HouseInv, Expire, Drained, Escrow, HousesEscrow;
    if k < |w.houses| {
      var h := w.houses[k];
      DrainedKeeps(h, w.maxId);
      ExpireKeeps(Drained(h), now, w.maxId);
      OneOfHouses(w.houses, w.maxId + 1, k);
      HouseSends(h, w.till, online, w.maxId);
      HouseMoney(h, w.till, now, online, w.maxId);
      var till := Drain(h.tax, h.auctions, h.removal, w.till, online);
      var d := if expire then Expire(Drained(h), now, w.maxId) else Drained(h);
      HousesUpdate(w.houses, w.maxId + 1, k, d);
      PassSends(w.(till := till, houses := w.houses[k := d]), k + 1, now, online, expire);
    }
  }

  lemma {:induction false} RunSends(w: World, evs: seq<Event>)
    requires Inv(w) && Total(w) < 0x8000_0000
    ensures Run(w, evs).till.books.truncated == w.till.books.truncated
    decreases |evs|
  {
    hide Total, Inv;
    if evs != [] {
      var before, ev := Run(w, evs[..|evs| - 1]), evs[|evs| - 1];
      RunSends(w, evs[..|evs| - 1]);
      MoneyConserved(w, evs[..|evs| - 1]);
      StepSends(before, ev);
    }
  }

  lemma StepSends(w: World, ev: Event)
    requires Inv(w) && Total(w) < 0x8000_0000
    ensures Step(w, ev).till.books.truncated == w.till.books.truncated
  {
    hide Sum, MailMoney, HousesEscrow;
    if ev.Update? {
      var count := (w.loopcount + 1) % 0x1_0000_0000;
      if count % 100 == 0 { PassSends(w.(loopcount := count), 0, ev.now, ev.online, count % 1200 == 0); }
    }
  }

  /** The money that players have, or will have back. */
  function Visible(w: World): nat {
    Sum(w.till.purses) + MailMoney(w.till.mail) + HousesEscrow(w.houses, w.maxId + 1)
  }

  /** Money is never created, and without late bids it drops exactly by cuts, forfeited deposits
      and proceeds too large to send, of which there are none if there is less than 2^31 in all. */
  lemma MoneyDrop(w: World, evs: seq<Event>)
    requires Inv(w) && !Doomed(w, 0)
    ensures var (b, r) := (w.till.books, Run(w, evs).till.books);
            && Visible(Run(w, evs)) <= Visible(w)
            && (!LateBids(w, evs) ==>
                Visible(Run(w, evs)) == Visible(w) - (r.cuts - b.cuts) - (r.forfeits - b.forfeits) - (r.truncated - b.truncated))
            && (Total(w) < 0x8000_0000 ==> r.truncated == b.truncated)
  {
    hide Sum, MailMoney, HousesEscrow, Run, Doomed, LateBids, Inv;
    MoneyConserved(w, evs);
    LostBidIffLate(w, evs);
    if Total(w) < 0x8000_0000 { RunSends(w, evs); }
  }

  // ---- Paging ----------------------------------------------------------------------------

  /** Whether the k-th match, counted from 1, is on the page that starts at `start`. */
  predicate OnPage(k: nat, start: nat) { k < start + 50 && (start == 0 || k >= start) }

  /** How many of the first `n` auctions match. */
  function Matches(hits: seq<bool>, n: nat): nat
    requires n <= |hits|
  {
    if n == 0 then 0 else Matches(hits, n - 1) + Bit(hits[n - 1])
  }

  lemma {:induction false} MatchesCount(hits: seq<bool>, n: nat, matching: set<nat>)
    requires n <= |hits| && forall i :: i in matching <==> 0 <= i < n && hits[i]
    ensures Matches(hits, n) == |matching|
  {
    if n == 0 {
      assert matching == {};
    } else {
      MatchesCount(hits, n - 1, matching - {n - 1});
    }
  }

  function Page(hits: seq<bool>, start: nat, n: nat): seq<nat>
    requires n <= |hits|
  {
    if n == 0 then []
    else Page(hits, start, n - 1) + if hits[n - 1] && OnPage(Matches(hits, n), start) then [n - 1] else []
  }

  /** The paging loop of SendAuctionList over the auctions in the map's order; `hits` tells which
      are not deleted and pass the filters. */
  method SendAuctionList(hits: seq<bool>, start: nat) returns (sent: seq<nat>, count: nat)
    ensures sent == Page(hits, start, |hits|)
    ensures count == 1 + Matches(hits, |hits|)
  {
    sent := [];
    var counted, current := 0, 0;
    for i := 0 to |hits|
      invariant sent == Page(hits, start, i)
      invariant counted == Matches(hits, i)
      invariant current == if counted < start + 50 then counted else start + 49
    {
      if !hits[i] { continue; }
      counted := counted + 1;
      if counted >= start + 50 { continue; }
      current := current + 1;
      if start != 0 && current < start { continue; }
      sent := sent + [i];
    }
    count := 1 + counted;
  }

  /** Every match is on exactly one of the pages that start at multiples of 50. */
  lemma {:induction false} PagesPartition(hits: seq<bool>, page: nat, n: nat, i: nat)
    requires i < n <= |hits|
    ensures i in Page(hits, 50 * page, n) <==> hits[i] && page == Matches(hits, i + 1) / 50
  {
    if i < n - 1 {
      PagesPartition(hits, page, n - 1, i);
    } else {
      PageBelow(hits, 50 * page, n - 1);
      var k := Matches(hits, n);
      assert OnPage(k, 50 * page) <==> page == k / 50;
    }
  }

  /** A page is in the map's order. */
  lemma {:induction false} PageBelow(hits: seq<bool>, start: nat, n: nat)
    requires n <= |hits|
    ensures forall i :: i in Page(hits, start, n) ==> i < n
    ensures forall i, j :: 0 <= i < j < |Page(hits, start, n)| ==> Page(hits, start, n)[i] < Page(hits, start, n)[j]
  {
    if n > 0 {
      PageBelow(hits, start, n - 1);
      var before := Page(hits, start, n - 1);
      forall i | 0 <= i < |before| ensures before[i] < n - 1 { assert before[i] in before; }
    }
  }
}
