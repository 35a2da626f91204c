/** The auction houses: items and money in escrow, deletion deferred to the next pass. */
module Auctions {
  import opened Wrappers

  type AuctionId = nat

  /** A low guid; 0 is nobody. */
  type PlayerId = nat

  datatype Reason = Expired | Won | Cancelled

  datatype Auction = Auction(
    owner: PlayerId, bidder: PlayerId, bid: nat, buyout: nat, deposit: nat, expiry: nat, item: nat,
    deleted: bool, reason: Reason)

  /** `tax` is the percentage the house keeps of a sale. */
  datatype House = House(tax: nat, auctions: map<AuctionId, Auction>, removal: seq<AuctionId>)

  /** A letter of the auction `auction`, with an item or with money. */
  datatype Letter = Letter(auction: AuctionId, to: PlayerId, item: Option<nat>, money: nat)

  /** Where money goes that comes back to no player: cuts of sales and of cancelled auctions,
      deposits that are not returned, bids on expired auctions, and proceeds too large to send. */
  datatype Books = Books(cuts: nat, forfeits: nat, strayBids: nat, truncated: nat)

  /** What the removal of an auction changes outside its house. */
  datatype Till = Till(purses: seq<nat>, mail: seq<Letter>, books: Books)

  datatype World = World(till: Till, houses: seq<House>, maxId: AuctionId, loopcount: nat)

  // ---- Deletion --------------------------------------------------------------------------

  function QueueDeletion(h: House, id: AuctionId, reason: Reason): House
    requires id in h.auctions
  {
    var a := h.auctions[id];
    if a.deleted then h
    else h.(auctions := h.auctions[id := a.(deleted := true, reason := reason)], removal := h.removal + [id])
  }

  function Cut(tax: nat, bid: nat): nat { tax * bid / 100 }

  function Send(t: Till, l: Letter): Till { t.(mail := t.mail + [l]) }

  /** A sum that does not fit a signed 32-bit amount is not sent. */
  function Proceeds(amount: nat): nat { if amount >= 0x8000_0000 then 0 else amount }

  /** The player who gets the item. */
  function Recipient(a: Auction): PlayerId { if a.reason.Won? then a.bidder else a.owner }

  predicate Charged(tax: nat, a: Auction, t: Till, online: set<PlayerId>) {
    a.owner in online && a.owner < |t.purses| && t.purses[a.owner] >= Cut(tax, a.bid)
  }

  /** RemoveAuction, apart from the house's own maps. */
  function Settle(tax: nat, id: AuctionId, a: Auction, t: Till, online: set<PlayerId>): Till
    requires tax <= 100
  {
    var cut := Cut(tax, a.bid);
    CutBound(tax, a.bid);
    match a.reason
    case Expired =>
      var stray := if a.bidder != 0 then a.bid else 0;
      Send(t, Letter(id, a.owner, Some(a.item), 0))
        .(books := t.books.(forfeits := t.books.forfeits + a.deposit, strayBids := t.books.strayBids + stray))
    case Won =>
      var amount := a.bid - cut + a.deposit;
      Send(Send(t, Letter(id, a.bidder, Some(a.item), 0)), Letter(id, a.owner, None, Proceeds(amount)))
        .(books := t.books.(cuts := t.books.cuts + cut, truncated := t.books.truncated + amount - Proceeds(amount)))
    case Cancelled =>
      var charged := if Charged(tax, a, t, online) then cut else 0;
      var paid := if charged > 0 then t.(purses := t.purses[a.owner := t.purses[a.owner] - charged]) else t;
      var returned := Send(paid, Letter(id, a.owner, Some(a.item), 0));
      (if a.bidder != 0 then Send(returned, Letter(id, a.bidder, None, a.bid)) else returned)
        .(books := t.books.(cuts := t.books.cuts + charged, forfeits := t.books.forfeits + a.deposit))
  }

  lemma CutBound(tax: nat, bid: nat)
    requires tax <= 100
    ensures Cut(tax, bid) <= bid
  {
    assert tax * bid <= 100 * bid;
  }

  /** The auctions of a list are removed one after the other. */
  function Drain(tax: nat, auctions: map<AuctionId, Auction>, list: seq<AuctionId>, t: Till, online: set<PlayerId>): (r: Till)
    requires tax <= 100 && (forall i :: 0 <= i < |list| ==> list[i] in auctions)
  {
    if list == [] then t
    else Drain(tax, auctions, list[1..], Settle(tax, list[0], auctions[list[0]], t, online), online)
  }

  /** UpdateDeletionQueue, for the house. */
  function Drained(h: House): House {
    h.(auctions := map id | id in h.auctions && id !in h.removal :: h.auctions[id], removal := [])
  }

  /** The auctions below `n` whose time is over. */
  function Over(auctions: map<AuctionId, Auction>, now: nat, n: nat): seq<AuctionId> {
    if n == 0 then []
    else Over(auctions, now, n - 1) + if n - 1 in auctions && now >= auctions[n - 1].expiry then [n - 1] else []
  }

  function Mark(a: Auction): Auction { a.(deleted := true, reason := if a.bidder == 0 then Expired else Won) }

  /** UpdateAuctions: it does not look whether an auction is deleted already. */
  function Expire(h: House, now: nat, maxId: AuctionId): House {
    h.(auctions := map id | id in h.auctions :: if now >= h.auctions[id].expiry then Mark(h.auctions[id]) else h.auctions[id],
       removal := h.removal + Over(h.auctions, now, maxId + 1))
  }

  // ---- Requests --------------------------------------------------------------------------

  datatype Event =
    | Sell(player: PlayerId, house: nat, item: nat, bid: nat, buyout: nat, deposit: nat, expiry: nat)
    | Bid(player: PlayerId, house: nat, id: AuctionId, price: nat)
    | Cancel(house: nat, id: AuctionId)
    | Update(now: nat, online: set<PlayerId>)

  predicate CanBid(w: World, p: PlayerId, house: nat, id: AuctionId, price: nat) {
    && 0 < p < |w.till.purses| && house < |w.houses| && id in w.houses[house].auctions && price != 0
    && var a := w.houses[house].auctions[id];
       a.owner != 0 && a.owner != p && (a.bid <= price || price == a.buyout) && w.till.purses[p] >= price
  }

  /** HandleAuctionPlaceBid: whether the auction is deleted is not looked at. */
  function PlaceBid(w: World, p: PlayerId, house: nat, id: AuctionId, price: nat): World {
    if !CanBid(w, p, house, id, price) then w
    else
      var h := w.houses[house];
      var a := h.auctions[id];
      var paid := w.till.(purses := w.till.purses[p := w.till.purses[p] - price]);
      var till := if a.bidder != 0 then Send(paid, Letter(id, a.bidder, None, a.bid)) else paid;
      var bidden := h.(auctions := h.auctions[id := a.(bidder := p, bid := price)]);
      var r := if a.buyout == price then QueueDeletion(bidden, id, Won) else bidden;
      w.(till := till, houses := w.houses[house := r])
  }

  function SellItem(w: World, p: PlayerId, house: nat, item: nat, bid: nat, buyout: nat, deposit: nat, expiry: nat): World {
    if !(0 < p < |w.till.purses|) || house >= |w.houses| || w.till.purses[p] < deposit then w
    else
      var id := w.maxId + 1;
      var h := w.houses[house];
      w.(till := w.till.(purses := w.till.purses[p := w.till.purses[p] - deposit]), maxId := id,
         houses := w.houses[house := h.(auctions := h.auctions[id := Auction(p, 0, bid, buyout, deposit, expiry, item, false, Expired)])])
  }

  function CancelAuction(w: World, house: nat, id: AuctionId): World {
    if house >= |w.houses| || id !in w.houses[house].auctions then w
    else w.(houses := w.houses[house := QueueDeletion(w.houses[house], id, Cancelled)])
  }

  // ---- Invariants ------------------------------------------------------------------------

  /** The removal list holds each deleted auction once. */
  ghost predicate HouseInv(h: House, maxId: AuctionId) {
    && h.tax <= 100
    && (forall id :: id in h.auctions ==> 0 < id <= maxId)
    && (forall i, j :: 0 <= i < j < |h.removal| ==> h.removal[i] != h.removal[j])
    && (forall id :: id in h.removal <==> id in h.auctions && h.auctions[id].deleted)
    && (forall id :: id in h.auctions ==> (h.auctions[id].bidder != 0 ==> h.auctions[id].bid > 0))
    && (forall id :: id in h.auctions && h.auctions[id].deleted && h.auctions[id].reason.Won? ==> h.auctions[id].bidder != 0)
  }

  ghost predicate Inv(w: World) {
    forall i :: 0 <= i < |w.houses| ==> HouseInv(w.houses[i], w.maxId)
  }

  /** One house after the other: the queue is drained first. */
  ghost function Pass(w: World, k: nat, now: nat, online: set<PlayerId>, expire: bool): (r: World)
    requires k <= |w.houses| && Inv(w)
    ensures |r.houses| == |w.houses|
    decreases |w.houses| - k
  {
    if k == |w.houses| then w
    else
      var h := w.houses[k];
      DrainedKeeps(h, w.maxId);
      var till := Drain(h.tax, h.auctions, h.removal, w.till, online);
      var d := if expire then Expire(Drained(h), now, w.maxId) else Drained(h);
      ExpireKeeps(Drained(h), now, w.maxId);
      Pass(w.(till := till, houses := w.houses[k := d]), k + 1, now, online, expire)
  }

  ghost function Tick(w: World, now: nat, online: set<PlayerId>): World
    requires Inv(w)
  {
    var count := (w.loopcount + 1) % 0x1_0000_0000;
    var t := w.(loopcount := count);
    if count % 100 != 0 then t else Pass(t, 0, now, online, count % 1200 == 0)
  }

  lemma DrainedKeeps(h: House, maxId: AuctionId)
    requires HouseInv(h, maxId)
    ensures HouseInv(Drained(h), maxId)
    ensures forall id :: id in Drained(h).auctions ==> !Drained(h).auctions[id].deleted
  {
  }

  lemma {:induction false} OverOnce(auctions: map<AuctionId, Auction>, now: nat, n: nat)
    ensures forall id :: id in Over(auctions, now, n) <==> id < n && id in auctions && now >= auctions[id].expiry
    ensures forall i, j :: 0 <= i < j < |Over(auctions, now, n)| ==> Over(auctions, now, n)[i] != Over(auctions, now, n)[j]
  {
    if n > 0 { OverOnce(auctions, now, n - 1); }
  }

  /** Marking expired auctions keeps the list right exactly when none of them was deleted before,
      which is why the queue is drained first. */
  lemma ExpireKeeps(h: House, now: nat, maxId: AuctionId)
    requires HouseInv(h, maxId)
    ensures HouseInv(Expire(h, now, maxId), maxId)
      <==> forall id :: id in h.auctions && now >= h.auctions[id].expiry ==> !h.auctions[id].deleted
  {
    var over, r := Over(h.auctions, now, maxId + 1), Expire(h, now, maxId);
    OverOnce(h.auctions, now, maxId + 1);
    hide Over;
    if id :| id in h.auctions && now >= h.auctions[id].expiry && h.auctions[id].deleted {
      assert id in h.removal && id in over;
      var i :| 0 <= i < |h.removal| && h.removal[i] == id;
      var j :| 0 <= j < |over| && over[j] == id;
      assert r.removal[i] == r.removal[|h.removal| + j];
    } else {
      forall i, j | 0 <= i < j < |r.removal| ensures r.removal[i] != r.removal[j] {
        if i < |h.removal| <= j { assert h.removal[i] in h.removal && over[j - |h.removal|] in over; }
      }
    }
  }

  // ---- Runs ------------------------------------------------------------------------------

  ghost function Step(w: World, ev: Event): World
    requires Inv(w)
  {
    match ev
    case Sell(p, house, item, bid, buyout, deposit, expiry) => SellItem(w, p, house, item, bid, buyout, deposit, expiry)
    case Bid(p, house, id, price) => PlaceBid(w, p, house, id, price)
    case Cancel(house, id) => CancelAuction(w, house, id)
    case Update(now, online) => Tick(w, now, online)
  }

  lemma QueueKeeps(h: House, id: AuctionId, reason: Reason, maxId: AuctionId)
    requires HouseInv(h, maxId) && id in h.auctions && (reason.Won? ==> h.auctions[id].bidder != 0)
    ensures HouseInv(QueueDeletion(h, id, reason), maxId)
  {
  }

  lemma MoreIds(h: House, maxId: AuctionId, more: AuctionId)
    requires HouseInv(h, maxId) && maxId <= more
    ensures HouseInv(h, more)
  {
  }

  lemma {:induction false} PassKeeps(w: World, k: nat, now: nat, online: set<PlayerId>, expire: bool)
    requires k <= |w.houses| && Inv(w)
    ensures Inv(Pass(w, k, now, online, expire)) && Pass(w, k, now, online, expire).maxId == w.maxId
    decreases |w.houses| - k
  {
    if k < |w.houses| {
      var h := w.houses[k];
      DrainedKeeps(h, w.maxId);
      ExpireKeeps(Drained(h), now, w.maxId);
      var till := Drain(h.tax, h.auctions, h.removal, w.till, online);
      var d := if expire then Expire(Drained(h), now, w.maxId) else Drained(h);
      PassKeeps(w.(till := till, houses := w.houses[k := d]), k + 1, now, online, expire);
    }
  }

  lemma StepKeeps(w: World, ev: Event)
    requires Inv(w)
    ensures Inv(Step(w, ev)) && Step(w, ev).maxId >= w.maxId
  {
    hide HouseInv;
    match ev {
      case Sell(p, house, item, bid, buyout, deposit, expiry) =>
        forall i | 0 <= i < |w.houses| ensures HouseInv(w.houses[i], w.maxId + 1) { MoreIds(w.houses[i], w.maxId, w.maxId + 1); }
        if house < |w.houses| {
          AddKeeps(w.houses[house], w.maxId, Auction(p, 0, bid, buyout, deposit, expiry, item, false, Expired));
        }
      case Bid(p, house, id, price) =>
        if CanBid(w, p, house, id, price) { BidKeeps(w.houses[house], w.maxId, id, p, price); }
      case Cancel(house, id) =>
        if house < |w.houses| && id in w.houses[house].auctions { QueueKeeps(w.houses[house], id, Cancelled, w.maxId); }
      case Update(now, online) =>
        var count := (w.loopcount + 1) % 0x1_0000_0000;
        PassKeeps(w.(loopcount := count), 0, now, online, count % 1200 == 0);
    }
  }

  lemma AddKeeps(h: House, maxId: AuctionId, a: Auction)
    requires HouseInv(h, maxId) && !a.deleted && a.bidder == 0
    ensures HouseInv(h.(auctions := h.auctions[maxId + 1 := a]), maxId + 1)
  {
  }

  lemma BidKeeps(h: House, maxId: AuctionId, id: AuctionId, p: PlayerId, price: nat)
    requires HouseInv(h, maxId) && id in h.auctions && p != 0 && price > 0
    ensures var b := h.(auctions := h.auctions[id := h.auctions[id].(bidder := p, bid := price)]);
            HouseInv(b, maxId) && HouseInv(QueueDeletion(b, id, Won), maxId)
  {
  }

  /** Any state that satisfies the invariant may be the start, an empty world for one. */
  ghost function Run(w: World, evs: seq<Event>): (r: World)
    requires Inv(w)
    ensures Inv(r)
    decreases |evs|
  {
    if evs == [] then w
    else
      var before := Run(w, evs[..|evs| - 1]);
      StepKeeps(before, evs[|evs| - 1]);
      Step(before, evs[|evs| - 1])
  }

  // ---- Money -----------------------------------------------------------------------------

  function Sum(s: seq<nat>): nat { if s == [] then 0 else s[0] + Sum(s[1..]) }

  lemma {:induction false} SumUpdate(s: seq<nat>, i: nat, x: nat)
    requires i < |s|
    ensures Sum(s[i := x]) + s[i] == Sum(s) + x
  {
    if i == 0 {
      assert s[0 := x][1..] == s[1..];
    } else {
      assert s[i := x][1..] == s[1..][i - 1 := x];
      SumUpdate(s[1..], i - 1, x);
    }
  }

  function MailMoney(mail: seq<Letter>): nat {
    if mail == [] then 0 else MailMoney(mail[..|mail| - 1]) + mail[|mail| - 1].money
  }

  lemma SendMoney(t: Till, l: Letter)
    ensures MailMoney(Send(t, l).mail) == MailMoney(t.mail) + l.money
  {
    assert (t.mail + [l])[..|t.mail|] == t.mail;
  }

  /** What an auction holds for its players. */
  function Standing(a: Auction): nat { a.deposit + if a.bidder != 0 then a.bid else 0 }

  function Escrow(auctions: map<AuctionId, Auction>, n: nat): nat {
    if n == 0 then 0 else Escrow(auctions, n - 1) + if n - 1 in auctions then Standing(auctions[n - 1]) else 0
  }

  /** Purses, letters and everything booked. */
  function Wealth(t: Till): nat {
    Sum(t.purses) + MailMoney(t.mail) + t.books.cuts + t.books.forfeits + t.books.strayBids + t.books.truncated
  }

  function HousesEscrow(houses: seq<House>, n: nat): nat {
    if houses == [] then 0 else Escrow(houses[0].auctions, n) + HousesEscrow(houses[1..], n)
  }

  function Total(w: World): nat { Wealth(w.till) + HousesEscrow(w.houses, w.maxId + 1) }

  lemma SettleMoney(tax: nat, id: AuctionId, a: Auction, t: Till, online: set<PlayerId>)
    requires tax <= 100 && (a.reason.Won? ==> a.bidder != 0)
    ensures Wealth(Settle(tax, id, a, t, online)) == Wealth(t) + Standing(a)
  {
    hide Sum, MailMoney, Cut;
    CutBound(tax, a.bid);
    var cut := Cut(tax, a.bid);
    match a.reason {
      case Expired =>
        SendMoney(t, Letter(id, a.owner, Some(a.item), 0));
      case Won =>
        var item := Letter(id, a.bidder, Some(a.item), 0);
        SendMoney(t, item);
        SendMoney(Send(t, item), Letter(id, a.owner, None, Proceeds(a.bid - cut + a.deposit)));
      case Cancelled =>
        var item := Letter(id, a.owner, Some(a.item), 0);
        if Charged(tax, a, t, online) { SumUpdate(t.purses, a.owner, t.purses[a.owner] - cut); }
        SendMoney(t, item);
        SendMoney(Send(t, item), Letter(id, a.bidder, None, a.bid));
    }
  }

  function ListMoney(auctions: map<AuctionId, Auction>, list: seq<AuctionId>): nat {
    if list == [] then 0
    else ListMoney(auctions, list[1..]) + if list[0] in auctions then Standing(auctions[list[0]]) else 0
  }

  lemma {:induction false} DrainMoney(tax: nat, auctions: map<AuctionId, Auction>, list: seq<AuctionId>, t: Till, online: set<PlayerId>)
    requires tax <= 100 && (forall i :: 0 <= i < |list| ==> list[i] in auctions)
    requires forall i :: 0 <= i < |list| ==> (auctions[list[i]].reason.Won? ==> auctions[list[i]].bidder != 0)
    ensures Wealth(Drain(tax, auctions, list, t, online)) == Wealth(t) + ListMoney(auctions, list)
  {
    hide Settle, Wealth;
    if list != [] {
      SettleMoney(tax, list[0], auctions[list[0]], t, online);
      DrainMoney(tax, auctions, list[1..], Settle(tax, list[0], auctions[list[0]], t, online), online);
    }
  }

  lemma {:induction false} EscrowUpdate(auctions: map<AuctionId, Auction>, n: nat, id: AuctionId, a: Auction)
    ensures Escrow(auctions[id := a], n) + (if id < n && id in auctions then Standing(auctions[id]) else 0)
         == Escrow(auctions, n) + (if id < n then Standing(a) else 0)
  {
    hide Standing;
    if n > 0 { EscrowUpdate(auctions, n - 1, id, a); }
  }

  lemma {:induction false} EscrowSame(x: map<AuctionId, Auction>, y: map<AuctionId, Auction>, n: nat)
    requires forall id :: id < n ==> (id in x <==> id in y)
    requires forall id :: id < n && id in x ==> Standing(x[id]) == Standing(y[id])
    ensures Escrow(x, n) == Escrow(y, n)
  {
    if n > 0 { EscrowSame(x, y, n - 1); }
  }

  lemma {:induction false} ListMoneySame(x: map<AuctionId, Auction>, y: map<AuctionId, Auction>, list: seq<AuctionId>)
    requires forall i :: 0 <= i < |list| ==> list[i] in x && list[i] in y && x[list[i]] == y[list[i]]
    ensures ListMoney(x, list) == ListMoney(y, list)
  {
    if list != [] { ListMoneySame(x, y, list[1..]); }
  }

  lemma {:induction false} EscrowWithout(auctions: map<AuctionId, Auction>, list: seq<AuctionId>, n: nat)
    requires forall i :: 0 <= i < |list| ==> list[i] in auctions && list[i] < n
    requires forall i, j :: 0 <= i < j < |list| ==> list[i] != list[j]
    ensures Escrow(map id | id in auctions && id !in list :: auctions[id], n) + ListMoney(auctions, list) == Escrow(auctions, n)
    decreases |list|
  {
    hide Standing;
    var left := map id | id in auctions && id !in list :: auctions[id];
    if list == [] {
      EscrowSame(left, auctions, n);
    } else {
      var fewer := map id | id in auctions && id != list[0] :: auctions[id];
      assert auctions == fewer[list[0] := auctions[list[0]]];
      EscrowUpdate(fewer, n, list[0], auctions[list[0]]);
      EscrowWithout(fewer, list[1..], n);
      ListMoneySame(auctions, fewer, list[1..]);
      EscrowSame(left, map id | id in fewer && id !in list[1..] :: fewer[id], n);
    }
  }

  lemma {:induction false} HousesUpdate(houses: seq<House>, n: nat, k: nat, h: House)
    requires k < |houses|
    ensures HousesEscrow(houses[k := h], n) + Escrow(houses[k].auctions, n) == HousesEscrow(houses, n) + Escrow(h.auctions, n)
  {
    hide Escrow;
    if k == 0 {
      assert houses[0 := h][1..] == houses[1..];
    } else {
      assert houses[k := h][1..] == houses[1..][k - 1 := h];
      HousesUpdate(houses[1..], n, k - 1, h);
    }
  }

  /** An update of one house. */
  lemma HouseMoney(h: House, t: Till, now: nat, online: set<PlayerId>, maxId: AuctionId)
    requires HouseInv(h, maxId)
    ensures Wealth(Drain(h.tax, h.auctions, h.removal, t, online)) + Escrow(Drained(h).auctions, maxId + 1)
         == Wealth(t) + Escrow(h.auctions, maxId + 1)
    ensures Escrow(Expire(Drained(h), now, maxId).auctions, maxId + 1) == Escrow(Drained(h).auctions, maxId + 1)
  {
    hide Wealth, Drain, Escrow;
    forall i | 0 <= i < |h.removal| ensures h.removal[i] in h.auctions && h.auctions[h.removal[i]].deleted { assert h.removal[i] in h.removal; }
    DrainMoney(h.tax, h.auctions, h.removal, t, online);
    EscrowWithout(h.auctions, h.removal, maxId + 1);
    EscrowSame(Expire(Drained(h), now, maxId).auctions, Drained(h).auctions, maxId + 1);
  }

  lemma {:induction false} PassMoney(w: World, k: nat, now: nat, online: set<PlayerId>, expire: bool)
    requires k <= |w.houses| && Inv(w)
    ensures Total(Pass(w, k, now, online, expire)) == Total(w)
    decreases |w.houses| - k
  {
    hide Wealth, Drain, HouseInv, Expire, Drained, Escrow, HousesEscrow;
    if k < |w.houses| {
      var h := w.houses[k];
      DrainedKeeps(h, w.maxId);
      ExpireKeeps(Drained(h), now, w.maxId);
      HouseMoney(h, w.till, now, online, w.maxId);
      TaxSane(h, w.maxId);
      var till := Drain(h.tax, h.auctions, h.removal, w.till, online);
      var d := if expire then Expire(Drained(h), now, w.maxId) else Drained(h);
      HousesUpdate(w.houses, w.maxId + 1, k, d);
      PassMoney(w.(till := till, houses := w.houses[k := d]), k + 1, now, online, expire);
    }
  }

  lemma TaxSane(h: House, maxId: AuctionId)
    requires HouseInv(h, maxId)
    ensures h.tax <= 100 && forall i :: 0 <= i < |h.removal| ==> h.removal[i] in h.auctions
  {
    forall i | 0 <= i < |h.removal| ensures h.removal[i] in h.auctions { assert h.removal[i] in h.removal; }
  }

  lemma {:induction false} HousesGrow(houses: seq<House>, n: nat)
    requires forall i :: 0 <= i < |houses| ==> n !in houses[i].auctions
    ensures HousesEscrow(houses, n + 1) == HousesEscrow(houses, n)
  {
    if houses != [] { HousesGrow(houses[1..], n); }
  }

  lemma BidMoney(w: World, p: PlayerId, house: nat, id: AuctionId, price: nat)
    requires Inv(w) && CanBid(w, p, house, id, price)
    ensures Total(PlaceBid(w, p, house, id, price)) == Total(w)
  {
    hide Sum, MailMoney, Escrow, HousesEscrow;
    var r, h := PlaceBid(w, p, house, id, price), w.houses[house];
    var a := h.auctions[id];
    SumUpdate(w.till.purses, p, w.till.purses[p] - price);
    SendMoney(w.till, Letter(id, a.bidder, None, a.bid));
    var now := r.houses[house].auctions[id];
    assert r.houses[house].auctions == h.auctions[id := now];
    EscrowUpdate(h.auctions, w.maxId + 1, id, now);
    HousesUpdate(w.houses, w.maxId + 1, house, r.houses[house]);
  }

  lemma SellMoney(w: World, p: PlayerId, house: nat, item: nat, bid: nat, buyout: nat, deposit: nat, expiry: nat)
    requires Inv(w)
    ensures Total(SellItem(w, p, house, item, bid, buyout, deposit, expiry)) == Total(w)
  {
    hide Sum, MailMoney, Escrow, HousesEscrow;
    var n, r := w.maxId + 1, SellItem(w, p, house, item, bid, buyout, deposit, expiry);
    if r != w {
      SumUpdate(w.till.purses, p, w.till.purses[p] - deposit);
      var a := Auction(p, 0, bid, buyout, deposit, expiry, item, false, Expired);
      EscrowUpdate(w.houses[house].auctions, n + 1, n, a);
      HousesGrow(w.houses, n);
      HousesUpdate(w.houses, n + 1, house, r.houses[house]);
    }
  }

  lemma StepMoney(w: World, ev: Event)
    requires Inv(w)
    ensures Total(Step(w, ev)) == Total(w)
  {
    hide Sum, MailMoney, Escrow, HousesEscrow;
    var n := w.maxId + 1;
    match ev {
      case Sell(p, house, item, bid, buyout, deposit, expiry) =>
        SellMoney(w, p, house, item, bid, buyout, deposit, expiry);
      case Bid(p, house, id, price) =>
        if CanBid(w, p, house, id, price) { BidMoney(w, p, house, id, price); }
      case Cancel(house, id) =>
        if house < |w.houses| && id in w.houses[house].auctions {
          EscrowSame(Step(w, ev).houses[house].auctions, w.houses[house].auctions, n);
          HousesUpdate(w.houses, n, house, Step(w, ev).houses[house]);
        }
      case Update(now, online) =>
        var count := (w.loopcount + 1) % 0x1_0000_0000;
        if count % 100 == 0 { PassMoney(w.(loopcount := count), 0, now, online, count % 1200 == 0); }
    }
  }

  /** Main theorem: over every run purses, letters, standing bids, deposits and what the books say
      was kept add up to what they were. */
  lemma {:induction false} MoneyConserved(w: World, evs: seq<Event>)
    requires Inv(w)
    ensures Total(Run(w, evs)) == Total(w)
    decreases |evs|
  {
    hide Total;
    if evs != [] {
      MoneyConserved(w, evs[..|evs| - 1]);
      StepMoney(Run(w, evs[..|evs| - 1]), evs[|evs| - 1]);
    }
  }
}
