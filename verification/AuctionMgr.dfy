/** The auction houses and their manager, which work on their maps and lists in place. */
module AuctionObjects {
  import opened Wrappers
  import opened Auctions
  import opened AuctionBids
  import A = Auctions

  /** The players' purses and the mail system. */
  class Post {
    var purses: seq<nat>
    var mail: seq<Letter>
    ghost var books: Books

    ghost function View(): Till
      reads this
    {
      Till(purses, mail, books)
    }

    constructor (purses: seq<nat>)
      ensures View() == Till(purses, [], Books(0, 0, 0, 0))
    {
      this.purses, mail, books := purses, [], Books(0, 0, 0, 0);
    }

    method Deliver(l: Letter)
      modifies `mail
      ensures View() == Send(old(View()), l)
    {
      mail := mail + [l];
    }
  }

  class AuctionHouse {
    const tax: nat
    const post: Post
    var auctions: map<AuctionId, Auction>
    var removalList: seq<AuctionId>

    ghost function View(): House
      reads this
    {
      House(tax, auctions, removalList)
    }

    constructor (tax: nat, post: Post)
      requires tax <= 100
      ensures View() == House(tax, map[], []) && this.post == post && HouseInv(View(), 0)
    {
      this.tax, this.post := tax, post;
      auctions, removalList := map[], [];
    }

    method AddAuction(id: AuctionId, a: Auction)
      modifies `auctions
      ensures View() == old(View()).(auctions := old(auctions)[id := a])
    {
      auctions := auctions[id := a];
    }

    method QueueDeletion(id: AuctionId, reason: Reason)
      requires id in auctions
      modifies this
      ensures View() == A.QueueDeletion(old(View()), id, reason)
    {
      if auctions[id].deleted { return; }
      auctions := auctions[id := auctions[id].(deleted := true, reason := reason)];
      removalList := removalList + [id];
    }

    method RemoveAuction(id: AuctionId, online: set<PlayerId>)
      requires id in auctions && tax <= 100
      modifies `auctions, post
      ensures auctions == old(auctions) - {id}
      ensures post.View() == Settle(tax, id, old(auctions[id]), old(post.View()), online)
    {
      var a := auctions[id];
      var cut := Cut(tax, a.bid);
      CutBound(tax, a.bid);
      hide Cut;
      match a.reason {
        case Expired =>
          post.Deliver(Letter(id, a.owner, Some(a.item), 0));
          ghost var stray := if a.bidder != 0 then a.bid else 0;
          post.books := post.books.(forfeits := post.books.forfeits + a.deposit, strayBids := post.books.strayBids + stray);
        case Won =>
          post.Deliver(Letter(id, a.bidder, Some(a.item), 0));
          var amount := a.bid - cut + a.deposit;
          post.Deliver(Letter(id, a.owner, None, Proceeds(amount)));
          post.books := post.books.(cuts := post.books.cuts + cut, truncated := post.books.truncated + amount - Proceeds(amount));
        case Cancelled =>
          if cut != 0 && a.owner in online && a.owner < |post.purses| && post.purses[a.owner] >= cut {
            post.purses := post.purses[a.owner := post.purses[a.owner] - cut];
            post.books := post.books.(cuts := post.books.cuts + cut);
          }
          post.Deliver(Letter(id, a.owner, Some(a.item), 0));
          if a.bidder != 0 {
            post.Deliver(Letter(id, a.bidder, None, a.bid));
          }
          post.books := post.books.(forfeits := post.books.forfeits + a.deposit);
      }
      auctions := auctions - {id};
    }

    method UpdateDeletionQueue(online: set<PlayerId>, ghost maxId: AuctionId)
      requires HouseInv(View(), maxId)
      modifies this, post
      ensures View() == Drained(old(View()))
      ensures post.View() == Drain(tax, old(auctions), old(removalList), old(post.View()), online)
    {
      ghost var before, list := auctions, removalList;
      TaxSane(View(), maxId);
      QueueIsOnce(View(), maxId);
      hide HouseInv, Settle, Sum, MailMoney;
      for i := 0 to |removalList|
        invariant removalList == list
        invariant auctions == Without(before, list, i)
        invariant Drain(tax, before, list[i..], post.View(), online) == Drain(tax, before, list, old(post.View()), online)
      {
        assert list[i..][1..] == list[i + 1..];
        WithoutStep(before, list, i);
        hide Without;
        RemoveAuction(removalList[i], online);
      }
      removalList := [];
    }

    method UpdateAuctions(now: nat, maxId: AuctionId)
      requires forall id :: id in auctions ==> id <= maxId
      modifies this
      ensures View() == Expire(old(View()), now, maxId)
    {
      ghost var before, list := auctions, removalList;
      for id := 0 to maxId + 1
        invariant auctions == map x | x in before :: if x < id && now >= before[x].expiry then Mark(before[x]) else before[x]
        invariant removalList == list + Over(before, now, id)
      {
        if id in auctions && now >= auctions[id].expiry {
          var a := auctions[id];
          auctions := auctions[id := a.(deleted := true, reason := if a.bidder == 0 then Expired else Won)];
          removalList := removalList + [id];
        }
      }
    }
  }

  class AuctionMgr {
    const houses: seq<AuctionHouse>
    const post: Post
    var maxId: AuctionId
    var loopcount: nat

    ghost predicate Valid()
      reads this, houses, post
    {
      && (forall i, j :: 0 <= i < j < |houses| ==> houses[i] != houses[j])
      && (forall i :: 0 <= i < |houses| ==> houses[i].post == post)
      && Inv(View())
    }

    ghost function View(): (w: World)
      reads this, houses, post
      ensures |w.houses| == |houses| && forall i :: 0 <= i < |houses| ==> w.houses[i] == houses[i].View()
    {
      World(post.View(), seq(|houses|, i requires 0 <= i < |houses| reads this, houses => houses[i].View()), maxId, loopcount)
    }

    constructor (houses: seq<AuctionHouse>, post: Post)
      requires forall i, j :: 0 <= i < j < |houses| ==> houses[i] != houses[j]
      requires forall i :: 0 <= i < |houses| ==> houses[i].post == post && houses[i].auctions == map[] && houses[i].removalList == []
      requires forall i :: 0 <= i < |houses| ==> houses[i].tax <= 100
      ensures Valid() && View().till == post.View() && maxId == 0 && loopcount == 0
      ensures this.houses == houses && this.post == post
    {
      this.houses, this.post, maxId, loopcount := houses, post, 0, 0;
    }

    method PlaceBid(p: PlayerId, house: nat, id: AuctionId, price: nat)
      requires Valid()
      modifies houses, post
      ensures Valid() && View() == Step(old(View()), Bid(p, house, id, price))
      ensures if 0 < p < |old(post.purses)| && house < |houses| && id in old(houses[house].auctions) && 0 < price <= old(post.purses[p])
                 && var a := old(houses[house].auctions[id]);
                    a.owner != 0 && p != a.owner && (price >= a.bid || price == a.buyout)
              then post.purses == old(post.purses)[p := old(post.purses[p]) - price] && id in houses[house].auctions
                   && houses[house].auctions[id].bidder == p && houses[house].auctions[id].bid == price
              else View() == old(View())
    {
      BidIff(View(), p, house, id, price);
      StepKeeps(View(), Bid(p, house, id, price));
      assert Step(View(), Bid(p, house, id, price)) == A.PlaceBid(View(), p, house, id, price);
      hide Inv, HouseInv, Step, A.PlaceBid;
      if !(0 < p < |post.purses|) || house >= |houses| || price == 0 { return; }
      var ah := houses[house];
      if id !in ah.auctions { return; }
      var a := ah.auctions[id];
      if a.owner == 0 || a.owner == p { return; }
      if a.bid > price && price != a.buyout { return; }
      if post.purses[p] < price { return; }
      TakeBid(p, house, id, price);
    }

    /** The writes, once nothing speaks against the bid. */
    method TakeBid(p: PlayerId, house: nat, id: AuctionId, price: nat)
      requires Valid() && CanBid(View(), p, house, id, price)
      modifies houses[house], post
      ensures View() == A.PlaceBid(old(View()), p, house, id, price)
    {
      hide Inv, HouseInv;
      var ah := houses[house];
      var a := ah.auctions[id];
      post.purses := post.purses[p := post.purses[p] - price];
      if a.bidder != 0 {
        post.Deliver(Letter(id, a.bidder, None, a.bid));
      }
      ah.auctions := ah.auctions[id := a.(bidder := p, bid := price)];
      if a.buyout == price {
        ah.QueueDeletion(id, Won);
      }
      assert View().houses == old(View()).houses[house := ah.View()];
      assert View() == A.PlaceBid(old(View()), p, house, id, price);
      hide A.PlaceBid;
    }

    method CancelAuction(house: nat, id: AuctionId)
      requires Valid()
      modifies houses
      ensures Valid() && View() == Step(old(View()), Cancel(house, id))
    {
      StepKeeps(View(), Cancel(house, id));
      hide Inv;
      if house >= |houses| { return; }
      var ah := houses[house];
      if id !in ah.auctions { return; }
      ah.QueueDeletion(id, Cancelled);
      assert View().houses == old(View()).houses[house := ah.View()];
    }

    method SellItem(p: PlayerId, house: nat, item: nat, bid: nat, buyout: nat, deposit: nat, expiry: nat)
      requires Valid()
      modifies this, houses, post
      ensures Valid() && View() == Step(old(View()), Sell(p, house, item, bid, buyout, deposit, expiry))
    {
      StepKeeps(View(), Sell(p, house, item, bid, buyout, deposit, expiry));
      assert Step(View(), Sell(p, house, item, bid, buyout, deposit, expiry))
          == A.SellItem(View(), p, house, item, bid, buyout, deposit, expiry);
      hide Inv, HouseInv, Step;
      if !(0 < p < |post.purses|) || house >= |houses| { return; }
      var ah := houses[house];
      if post.purses[p] < deposit { return; }
      maxId := maxId + 1;
      post.purses := post.purses[p := post.purses[p] - deposit];
      ah.AddAuction(maxId, Auction(p, 0, bid, buyout, deposit, expiry, item, false, Expired));
      assert View().houses == old(View()).houses[house := ah.View()];
      assert View() == A.SellItem(old(View()), p, house, item, bid, buyout, deposit, expiry);
      hide A.SellItem;
    }

    method Update(now: nat, online: set<PlayerId>)
      requires Valid()
      modifies this, houses, post
      ensures Valid() && View() == Step(old(View()), A.Update(now, online))
    {
      hide Inv, Pass;
      StepKeeps(View(), A.Update(now, online));
      loopcount := (loopcount + 1) % 0x1_0000_0000;
      assert View().houses == old(View()).houses;
      SameInv(old(View()), View());
      if loopcount % 100 != 0 { return; }
      VisitHouses(now, online);
    }

    lemma SameInv(w: World, r: World)
      requires Inv(w) && r.houses == w.houses && r.maxId == w.maxId
      ensures Inv(r)
    {
    }

    method VisitHouses(now: nat, online: set<PlayerId>)
      requires Valid()
      modifies houses, post
      ensures Valid() && View() == Pass(old(View()), 0, now, online, loopcount % 1200 == 0)
    {
      hide Inv, Pass, Drain, Drained, Expire;
      ghost var expire := loopcount % 1200 == 0;
      for k := 0 to |houses|
        invariant Valid()
        invariant Pass(View(), k, now, online, expire) == Pass(old(View()), 0, now, online, expire)
      {
        VisitHouse(k, now, online, expire);
      }
      PassEnd(View(), now, online, expire);
    }

    /** One turn of the loop. */
    method VisitHouse(k: nat, now: nat, online: set<PlayerId>, ghost expire: bool)
      requires Valid() && k < |houses| && (loopcount % 1200 == 0 <==> expire)
      modifies houses[k], post
      ensures Valid() && Pass(View(), k + 1, now, online, expire) == Pass(old(View()), k, now, online, expire)
    {
      hide Drain, Drained, Expire, HouseInv, Pass;
      var h := houses[k];
      ghost var was := View();
      DrainedKeeps(h.View(), maxId);
      ExpireKeeps(Drained(h.View()), now, maxId);
      TaxSane(h.View(), maxId);
      h.UpdateDeletionQueue(online, maxId);
      if loopcount % 1200 == 0 {
        DrainedIds(h.View(), maxId);
        h.UpdateAuctions(now, maxId);
      }
      assert View().houses == was.houses[k := h.View()];
      PassUnfold(was, k, now, online, expire);
    }
  }

  /** What is left once the first `n` of a list are gone. */
  ghost function Without(auctions: map<AuctionId, Auction>, list: seq<AuctionId>, n: nat): map<AuctionId, Auction>
    requires n <= |list|
  {
    map id | id in auctions && id !in list[..n] :: auctions[id]
  }

  lemma WithoutStep(auctions: map<AuctionId, Auction>, list: seq<AuctionId>, n: nat)
    requires n < |list| && list[n] in auctions && forall i, j :: 0 <= i < j < |list| ==> list[i] != list[j]
    ensures list[n] in Without(auctions, list, n)
    ensures Without(auctions, list, n)[list[n]] == auctions[list[n]]
    ensures Without(auctions, list, n) - {list[n]} == Without(auctions, list, n + 1)
  {
    assert list[n] !in list[..n] && list[..n + 1] == list[..n] + [list[n]];
  }

  lemma QueueIsOnce(h: House, maxId: AuctionId)
    requires HouseInv(h, maxId)
    ensures forall i, j :: 0 <= i < j < |h.removal| ==> h.removal[i] != h.removal[j]
    ensures forall id :: id in h.removal ==> id in h.auctions
  {
  }

  lemma DrainedIds(h: House, maxId: AuctionId)
    requires HouseInv(h, maxId)
    ensures forall id :: id in h.auctions ==> id <= maxId
  {
  }

  lemma PassEnd(w: World, now: nat, online: set<PlayerId>, expire: bool)
    requires Inv(w)
    ensures Pass(w, |w.houses|, now, online, expire) == w
  {
  }

  lemma PassUnfold(w: World, k: nat, now: nat, online: set<PlayerId>, expire: bool)
    requires k < |w.houses| && Inv(w)
    ensures w.houses[k].tax <= 100 && forall i :: 0 <= i < |w.houses[k].removal| ==> w.houses[k].removal[i] in w.houses[k].auctions
    ensures var h := w.houses[k];
            var d := if expire then Expire(Drained(h), now, w.maxId) else Drained(h);
            var r := w.(till := Drain(h.tax, h.auctions, h.removal, w.till, online), houses := w.houses[k := d]);
            Inv(r) && Pass(w, k, now, online, expire) == Pass(r, k + 1, now, online, expire)
  {
    hide Drain, Drained, Expire, HouseInv;
    var h := w.houses[k];
    DrainedKeeps(h, w.maxId);
    ExpireKeeps(Drained(h), now, w.maxId);
    TaxSane(h, w.maxId);
  }
}
