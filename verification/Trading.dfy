/** Buying and selling: what the shop handlers do to gold and inventories when every query may fail. */
module Trading {
  import opened Bytes
  import opened Wrappers

  /** A user's rows: the gold, if there is a player_data row, and for each item of item_master the
      count, if there is an inventory row. */
  datatype Player = Player(gold: Option<nat>, items: seq<Option<nat>>)

  type Tables = map<nat, Player>

  /** The database as the one connection sees it: what is committed, and the working copy of a
      transaction left open. */
  datatype Conn = Conn(committed: Tables, open: Option<Tables>)

  /** Which queries of a sale succeed. */
  datatype Faults = Faults(select: bool, start: bool, update: bool, delete: bool, pay: bool, commit: bool,
                           selectGold: bool, rollback: bool)

  datatype Reply = Success(gold: nat) | Fail | ItemNotFound | InsufficientGold

  // ---- statements ------------------------------------------------------------------------------

  function Current(c: Conn): Tables {
    c.open.UnwrapOr(c.committed)
  }

  function Write(c: Conn, t: Tables): Conn {
    if c.open.Some? then c.(open := Some(t)) else c.(committed := t)
  }

  /** START TRANSACTION commits what an earlier transaction left open. */
  function Begin(c: Conn): Conn {
    Conn(Current(c), Some(Current(c)))
  }

  function Commit(c: Conn): Conn {
    Conn(Current(c), None)
  }

  function Rollback(c: Conn): Conn {
    Conn(c.committed, None)
  }

  /** UPDATE ... WHERE user and item: nothing happens where there is no row. */
  function SetCount(t: Tables, user: nat, item: nat, count: Option<nat>): Tables {
    if user in t && item < |t[user].items| then t[user := t[user].(items := t[user].items[item := count])] else t
  }

  function SetGold(t: Tables, user: nat, gold: nat): Tables {
    if user in t && t[user].gold.Some? then t[user := t[user].(gold := Some(gold))] else t
  }

  function Owned(t: Tables, user: nat, item: nat): Option<nat> {
    if user in t && item < |t[user].items| then t[user].items[item] else None
  }

  function Gold(t: Tables, user: nat): Option<nat> {
    if user in t then t[user].gold else None
  }

  /** DELETE ... WHERE item_count = 0. */
  function DropZero(t: Tables, user: nat, item: nat): Tables {
    if Owned(t, user, item) == Some(0) then SetCount(t, user, item, None) else t
  }

  function Pay(t: Tables, user: nat, amount: nat): Tables {
    match Gold(t, user) case Some(g) => SetGold(t, user, g + amount) case None => t
  }

  // ---- the handlers ----------------------------------------------------------------------------

  /** A product as the handlers compute it, in 32 bits. */
  function Product(price: nat, count: nat): nat {
    price * count % U32
  }

  function Bought(t: Tables, prices: seq<nat>, user: nat, item: nat, count: nat): Tables
    requires item < |prices| && Gold(t, user).Some? && Product(prices[item], count) <= Gold(t, user).value
  {
    SetCount(SetGold(t, user, Gold(t, user).value - Product(prices[item], count)),
             user, item, Some(Owned(t, user, item).UnwrapOr(0) + count))
  }

  /** HandleShopPurchase.  unsigned long has 32 bits: a larger number in the row is an exception. */
  function Purchase(c: Conn, prices: seq<nat>, user: nat, item: nat, count: nat, selectOk: bool, tradeOk: bool): (Conn, Reply) {
    if !selectOk then (c, Fail)
    else if item >= |prices| || Gold(Current(c), user).None? then (c, ItemNotFound)
    else
      var gold := Gold(Current(c), user).value;
      if gold >= U32 then (c, Fail)
      else if gold < Product(prices[item], count) then (c, InsufficientGold)
      else if !tradeOk then (c, Fail)
      else (Conn(Bought(Current(c), prices, user, item, count), None), Success(gold - Product(prices[item], count)))
  }

  function Sold(t: Tables, price: nat, user: nat, item: nat, count: nat): Tables
    requires Owned(t, user, item).Some? && count <= Owned(t, user, item).value
  {
    Pay(DropZero(SetCount(t, user, item, Some(Owned(t, user, item).value - count)), user, item), user, Product(price / 2, count))
  }

  function Abort(c: Conn, f: Faults): (Conn, Reply) {
    (if f.rollback then Rollback(c) else c, Fail)
  }

  /** The checks before the transaction of a sale. */
  predicate MaySell(t: Tables, prices: seq<nat>, user: nat, item: nat, count: nat) {
    && item < |prices| && Owned(t, user, item).Some?
    && Owned(t, user, item).value < U32 && count <= Owned(t, user, item).value
  }

  /** HandleShopSell, query by query. */
  function Sale(c: Conn, prices: seq<nat>, user: nat, item: nat, count: nat, f: Faults): (Conn, Reply) {
    var t := Current(c);
    if !f.select then (c, Fail)
    else if item >= |prices| || Owned(t, user, item).None? then (c, ItemNotFound)
    else if Owned(t, user, item).value >= U32 then (c, Fail)
    else if Owned(t, user, item).value < count then (c, ItemNotFound)
    else if !f.start then (c, Fail)
    else
      var c1 := Begin(c);
      if !f.update then Abort(c1, f)
      else
        var c2 := Write(c1, SetCount(t, user, item, Some(Owned(t, user, item).value - count)));
        if !f.delete then Abort(c2, f)
        else
          var c3 := Write(c2, DropZero(Current(c2), user, item));
          if !f.pay then Abort(c3, f)
          else
            var c4 := Write(c3, Pay(Current(c3), user, Product(prices[item] / 2, count)));
            if !f.commit then Abort(c4, f)
            else
              var c5 := Commit(c4);
              if f.selectGold && Gold(Current(c5), user).Some? && Gold(Current(c5), user).value < U32
              then (c5, Success(Gold(Current(c5), user).value))
              else Abort(c5, f)
  }

  class DatabaseThread {
    const prices: seq<nat>
    var conn: Conn
    var replies: seq<Reply>      // SendQueue

    constructor (prices: seq<nat>, tables: Tables)
      ensures this.prices == prices && conn == Conn(tables, None) && replies == []
    {
      this.prices, conn, replies := prices, Conn(tables, None), [];
    }

    method Send(reply: Reply)
      modifies this`replies
      ensures replies == old(replies) + [reply]
    {
      replies := replies + [reply];
    }

    method HandleShopPurchase(user: nat, item: nat, count: nat, selectOk: bool, tradeOk: bool)
      modifies this
      ensures var (c, reply) := Purchase(old(conn), prices, user, item, count, selectOk, tradeOk);
              conn == c && replies == old(replies) + [reply]
    {
      hide Product, SetCount, SetGold, Owned;
      if !selectOk { Send(Fail); return; }
      if item >= |prices| || Gold(Current(conn), user).None? { Send(ItemNotFound); return; }
      var itemPrice := prices[item];
      var currentGold := Gold(Current(conn), user).value;
      if currentGold >= U32 { Send(Fail); return; }
      var totalPrice := Product(itemPrice, count);
      if currentGold < totalPrice { Send(InsufficientGold); return; }
      if tradeOk {
        conn := Begin(conn);
        conn := Write(conn, SetGold(Current(conn), user, currentGold - totalPrice));
        var had := Owned(Current(conn), user, item).UnwrapOr(0);
        OtherColumn(conn.committed, user, item, currentGold - totalPrice);
        conn := Write(conn, SetCount(Current(conn), user, item, Some(had + count)));
        conn := Commit(conn);
        Send(Success(currentGold - totalPrice));
      } else {
        Send(Fail);
      }
    }

    /** The queries of a sale one by one, the first failure ending in a rollback. */
    method HandleShopSell(user: nat, item: nat, count: nat, f: Faults)
      modifies this
      ensures var (c, reply) := Sale(old(conn), prices, user, item, count, f);
              conn == c && replies == old(replies) + [reply]
    {
      hide Product, SetCount, SetGold, Owned, Gold, Pay, DropZero;
      if !f.select { Send(Fail); return; }
      if item >= |prices| || Owned(Current(conn), user, item).None? { Send(ItemNotFound); return; }
      var ownedCount := Owned(Current(conn), user, item).value;
      if ownedCount >= U32 { Send(Fail); return; }
      var sellPrice := Product(prices[item] / 2, count);
      if ownedCount < count { Send(ItemNotFound); return; }
      var success := true;
      if !f.start { Send(Fail); return; }
      conn := Begin(conn);
      if f.update {
        conn := Write(conn, SetCount(Current(conn), user, item, Some(ownedCount - count)));
      } else {
        success := false;
      }
      if success {
        if f.delete { conn := Write(conn, DropZero(Current(conn), user, item)); } else { success := false; }
      }
      if success {
        if f.pay { conn := Write(conn, Pay(Current(conn), user, sellPrice)); } else { success := false; }
      }
      if success && f.commit {
        conn := Commit(conn);
        if f.selectGold && Gold(Current(conn), user).Some? && Gold(Current(conn), user).value < U32 {
          Send(Success(Gold(Current(conn), user).value));
          return;
        }
      }
      if f.rollback { conn := Rollback(conn); }
      Send(Fail);
    }
  }

  lemma OtherColumn(t: Tables, user: nat, item: nat, gold: nat)
    ensures Owned(SetGold(t, user, gold), user, item) == Owned(t, user, item)
  {
  }

  // ---- a sale is all or nothing ----------------------------------------------------------------

  /** Every query of the transaction succeeds. */
  predicate AllOk(f: Faults) {
    f.update && f.delete && f.pay && f.commit
  }

  /** From a connection with no transaction open, under every pattern of failures: if the whole
      transaction succeeds the items are gone and paid for, otherwise nothing has changed - but when
      something failed and the rollback fails too, the transaction stays open, and only then. */
  lemma SaleAllOrNothing(c: Conn, prices: seq<nat>, user: nat, item: nat, count: nat, f: Faults)
    requires c.open.None?
    ensures var (r, reply) := Sale(c, prices, user, item, count, f);
            var ready := f.select && MaySell(c.committed, prices, user, item, count) && f.start;
            && (ready && AllOk(f) ==> r.committed == Sold(c.committed, prices[item], user, item, count))
            && (!(ready && AllOk(f)) ==> r.committed == c.committed)
            && (r.open.Some? <==> ready && !AllOk(f) && !f.rollback)
            && (reply.Success? ==> ready && AllOk(f) && r.open.None?)
  {
    hide SetCount, Pay, Product, DropZero;
  }

  /** The client is told of a failure although the items are sold and paid for, exactly when the query
      for the new gold fails afterwards (or finds no row, or a number over 32 bits). */
  lemma SoldButFailed(c: Conn, prices: seq<nat>, user: nat, item: nat, count: nat, f: Faults)
    requires c.open.None? && f.select && MaySell(c.committed, prices, user, item, count) && f.start && AllOk(f)
    ensures var (r, reply) := Sale(c, prices, user, item, count, f);
            reply.Fail? <==> !f.selectGold || Gold(r.committed, user).None? || Gold(r.committed, user).value >= U32
  {
    hide SetCount, Pay, Product, DropZero;
  }

  /** A transaction left open is made permanent by the next trade that starts one, whatever becomes of
      that trade; a trade that starts none changes nothing. */
  lemma OpenIsCommitted(c: Conn, prices: seq<nat>, user: nat, item: nat, count: nat, f: Faults, selectOk: bool, tradeOk: bool)
    requires c.open.Some?
    ensures var t, r := c.open.value, Sale(c, prices, user, item, count, f).0;
            if f.select && MaySell(t, prices, user, item, count) && f.start
            then r.committed == if AllOk(f) then Sold(t, prices[item], user, item, count) else t
            else r == c
    ensures var t, (r, reply) := c.open.value, Purchase(c, prices, user, item, count, selectOk, tradeOk);
            if reply.Success? then r == Conn(Bought(t, prices, user, item, count), None) else r == c
  {
    hide SetCount, SetGold, Pay, Product, DropZero;
  }

  /** So a sale that fails half-way and cannot be rolled back leaves the items gone and the gold unpaid. */
  lemma HalfSaleCommitted()
    ensures var t: Tables := map[1 := Player(Some(0), [Some(5)])];
            var f := Faults(true, true, true, true, false, true, true, false);    // paying and the rollback fail
            var g := Faults(true, true, false, true, true, true, true, true);     // a later sale that fails at once
            var (c1, _) := Sale(Conn(t, None), [10], 1, 0, 3, f);
            var (c2, _) := Sale(c1, [10], 1, 0, 1, g);
            c2 == Conn(map[1 := Player(Some(0), [Some(2)])], None)
  {
    var t: Tables := map[1 := Player(Some(0), [Some(5)])];
    var half: Tables := map[1 := Player(Some(0), [Some(2)])];
    assert Owned(t, 1, 0) == Some(5);
    assert t[1].(items := t[1].items[0 := Some(2)]) == Player(Some(0), [Some(2)]);
    assert SetCount(t, 1, 0, Some(2)) == half;
    assert DropZero(half, 1, 0) == half;
    var f := Faults(true, true, true, true, false, true, true, false);
    var c1 := Sale(Conn(t, None), [10], 1, 0, 3, f).0;
    assert c1 == Conn(t, Some(half));
  }

  // ---- no profit -------------------------------------------------------------------------------

  function Price(prices: seq<nat>, item: nat): nat {
    if item < |prices| then prices[item] else 0
  }

  /** An inventory at base prices. */
  function Value(items: seq<Option<nat>>, prices: seq<nat>): nat {
    if items == [] then 0
    else Value(items[..|items| - 1], prices) + items[|items| - 1].UnwrapOr(0) * Price(prices, |items| - 1)
  }

  function Wealth(t: Tables, prices: seq<nat>, user: nat): nat {
    if user in t then t[user].gold.UnwrapOr(0) + Value(t[user].items, prices) else 0
  }

  /** Every user's inventory has a place for each item of item_master. */
  predicate TablesOk(t: Tables, prices: seq<nat>) {
    forall u :: u in t ==> |t[u].items| == |prices|
  }

  ghost predicate ConnOk(c: Conn, prices: seq<nat>) {
    && TablesOk(c.committed, prices) && TablesOk(Current(c), prices)
    && forall u: nat :: Wealth(Current(c), prices, u) <= Wealth(c.committed, prices, u)
  }

  lemma {:induction false} ValueUpdate(items: seq<Option<nat>>, prices: seq<nat>, i: nat, count: Option<nat>)
    requires i < |items|
    ensures Value(items[i := count], prices) + items[i].UnwrapOr(0) * Price(prices, i)
         == Value(items, prices) + count.UnwrapOr(0) * Price(prices, i)
  {
    var n := |items| - 1;
    if i < n {
      ValueUpdate(items[..n], prices, i, count);
      assert items[i := count][..n] == items[..n][i := count];
    } else {
      assert items[i := count][..n] == items[..n];
    }
  }

  lemma StillThere(t: Tables, user: nat, gold: nat)
    requires user in t
    ensures user in SetGold(t, user, gold)
  {
  }

  lemma CountSet(t: Tables, user: nat, item: nat, count: nat)
    requires Owned(t, user, item).Some?
    ensures var r := SetCount(t, user, item, Some(count)); user in r && Owned(r, user, item) == Some(count)
  {
  }

  lemma CountWealth(t: Tables, prices: seq<nat>, user: nat, item: nat, count: Option<nat>, u: nat)
    requires TablesOk(t, prices) && item < |prices| && user in t
    ensures var r := SetCount(t, user, item, count);
            && TablesOk(r, prices)
            && (if u == user
                then Wealth(r, prices, u) + Owned(t, user, item).UnwrapOr(0) * prices[item]
                     == Wealth(t, prices, u) + count.UnwrapOr(0) * prices[item]
                else Wealth(r, prices, u) == Wealth(t, prices, u))
  {
    ValueUpdate(t[user].items, prices, item, count);
  }

  lemma GoldWealth(t: Tables, prices: seq<nat>, user: nat, gold: nat, u: nat)
    requires TablesOk(t, prices) && Gold(t, user).Some?
    ensures var r := SetGold(t, user, gold);
            && TablesOk(r, prices)
            && (if u == user then Wealth(r, prices, u) + Gold(t, user).value == Wealth(t, prices, u) + gold
                else Wealth(r, prices, u) == Wealth(t, prices, u))
  {
  }

  /** A purchase changes the buyer's wealth by what the product lost when it was cut to 32 bits. */
  lemma BoughtWealth(t: Tables, prices: seq<nat>, user: nat, item: nat, count: nat, u: nat)
    requires TablesOk(t, prices) && item < |prices| && Gold(t, user).Some?
    requires Product(prices[item], count) <= Gold(t, user).value
    ensures var r := Bought(t, prices, user, item, count);
            && TablesOk(r, prices)
            && Wealth(r, prices, u) == Wealth(t, prices, u)
                 + (if u == user then prices[item] * count - Product(prices[item], count) else 0)
  {
    hide SetCount, SetGold, Wealth, Product, Owned;
    var gold := Gold(t, user).value - Product(prices[item], count);
    var paid := SetGold(t, user, gold);
    GoldWealth(t, prices, user, gold, u);
    OtherColumn(t, user, item, gold);
    StillThere(t, user, gold);
    var had := Owned(t, user, item).UnwrapOr(0);
    CountWealth(paid, prices, user, item, Some(had + count), u);
    assert (had + count) * prices[item] == had * prices[item] + prices[item] * count;
  }

  lemma CutSmaller(a: nat, b: nat)
    ensures Product(a, b) <= a * b
    ensures Product(a, b) == a * b <==> a * b < U32
  {
  }

  /** Buying is at the base price - no wealth is made - exactly when the product stays below 2^32. */
  lemma BuyingIsFair(c: Conn, prices: seq<nat>, user: nat, item: nat, count: nat)
    requires c.open.None? && TablesOk(c.committed, prices)
    requires Purchase(c, prices, user, item, count, true, true).1.Success?
    ensures var r := Purchase(c, prices, user, item, count, true, true).0;
            && Wealth(r.committed, prices, user) >= Wealth(c.committed, prices, user)
            && (Wealth(r.committed, prices, user) == Wealth(c.committed, prices, user) <==> prices[item] * count < U32)
  {
    hide Wealth, Bought, Product;
    BoughtWealth(c.committed, prices, user, item, count, user);
    CutSmaller(prices[item], count);
  }

  lemma HalfPrice(price: nat, count: nat, owned: nat)
    requires count <= owned
    ensures (owned - count) * price + Product(price / 2, count) <= owned * price
  {
    CutSmaller(price / 2, count);
    assert (price / 2) * count <= price * count by { assert price / 2 <= price; }
    assert (owned - count) * price + price * count == owned * price;
  }

  /** The three writes of a sale never add to anyone's wealth, however far they get. */
  lemma SoldWealth(t: Tables, prices: seq<nat>, user: nat, item: nat, count: nat, u: nat)
    requires TablesOk(t, prices) && MaySell(t, prices, user, item, count)
    ensures var t1 := SetCount(t, user, item, Some(Owned(t, user, item).value - count));
            var t2 := DropZero(t1, user, item);
            var t3 := Pay(t2, user, Product(prices[item] / 2, count));
            && TablesOk(t1, prices) && Wealth(t1, prices, u) <= Wealth(t, prices, u)
            && TablesOk(t2, prices) && Wealth(t2, prices, u) <= Wealth(t, prices, u)
            && TablesOk(t3, prices) && Wealth(t3, prices, u) <= Wealth(t, prices, u)
  {
    hide SetCount, Product, SetGold, Wealth, Gold;
    var owned := Owned(t, user, item).value;
    var t1 := SetCount(t, user, item, Some(owned - count));
    CountWealth(t, prices, user, item, Some(owned - count), u);
    CountSet(t, user, item, owned - count);
    var t2 := DropZero(t1, user, item);
    CountWealth(t1, prices, user, item, None, u);
    HalfPrice(prices[item], count, owned);
    var amount := Product(prices[item] / 2, count);
    if Gold(t2, user).Some? { GoldWealth(t2, prices, user, Gold(t2, user).value + amount, u); }
    assert (owned - count) * prices[item] <= owned * prices[item];
  }

  // ---- whole runs ------------------------------------------------------------------------------

  datatype Request =
    | Buy(user: nat, item: nat, count: nat, selectOk: bool, tradeOk: bool)
    | Sell(user: nat, item: nat, count: nat, faults: Faults)

  function Handle(c: Conn, prices: seq<nat>, r: Request): Conn {
    match r
    case Buy(user, item, count, selectOk, tradeOk) => Purchase(c, prices, user, item, count, selectOk, tradeOk).0
    case Sell(user, item, count, f) => Sale(c, prices, user, item, count, f).0
  }

  function RunShop(c: Conn, prices: seq<nat>, requests: seq<Request>): Conn {
    if requests == [] then c
    else Handle(RunShop(c, prices, requests[..|requests| - 1]), prices, requests[|requests| - 1])
  }

  /** A purchase whose product fits 32 bits. */
  predicate NoCut(prices: seq<nat>, r: Request) {
    r.Buy? && r.item < |prices| ==> prices[r.item] * r.count < U32
  }

  lemma BuyKeeps(c: Conn, prices: seq<nat>, r: Request)
    requires ConnOk(c, prices) && r.Buy? && NoCut(prices, r)
    ensures ConnOk(Handle(c, prices, r), prices)
    ensures forall u: nat :: Wealth(Handle(c, prices, r).committed, prices, u) <= Wealth(c.committed, prices, u)
  {
    hide Wealth, Bought, TablesOk, Product;
    var t := Current(c);
    if r.item < |prices| && Gold(t, r.user).Some? && Product(prices[r.item], r.count) <= Gold(t, r.user).value {
      CutSmaller(prices[r.item], r.count);
      forall u: nat
        ensures TablesOk(Bought(t, prices, r.user, r.item, r.count), prices)
        ensures Wealth(Bought(t, prices, r.user, r.item, r.count), prices, u) <= Wealth(c.committed, prices, u)
      {
        assert Wealth(Current(c), prices, u) <= Wealth(c.committed, prices, u);
        BoughtWealth(t, prices, r.user, r.item, r.count, u);
      }
      var c' := Handle(c, prices, r);
      var bought := Bought(t, prices, r.user, r.item, r.count);
      BoughtWealth(t, prices, r.user, r.item, r.count, 0);
      assert c' == c || (c'.committed == bought && Current(c') == bought);
    } else {
      assert Handle(c, prices, r) == c;
    }
  }

  lemma SellKeeps(c: Conn, prices: seq<nat>, r: Request)
    requires ConnOk(c, prices) && r.Sell?
    ensures ConnOk(Handle(c, prices, r), prices)
    ensures forall u: nat :: Wealth(Handle(c, prices, r).committed, prices, u) <= Wealth(c.committed, prices, u)
  {
    hide Wealth, TablesOk, Product, SetCount, DropZero, Pay;
    forall u: nat ensures Wealth(Current(c), prices, u) <= Wealth(c.committed, prices, u) {}
    var t := Current(c);
    if MaySell(t, prices, r.user, r.item, r.count) {
      var t1 := SetCount(t, r.user, r.item, Some(Owned(t, r.user, r.item).value - r.count));
      var t2 := DropZero(t1, r.user, r.item);
      var t3 := Pay(t2, r.user, Product(prices[r.item] / 2, r.count));
      forall u: nat
        ensures TablesOk(t1, prices) && Wealth(t1, prices, u) <= Wealth(t, prices, u)
        ensures TablesOk(t2, prices) && Wealth(t2, prices, u) <= Wealth(t, prices, u)
        ensures TablesOk(t3, prices) && Wealth(t3, prices, u) <= Wealth(t, prices, u)
      {
        SoldWealth(t, prices, r.user, r.item, r.count, u);
      }
      var c' := Handle(c, prices, r);
      SoldWealth(t, prices, r.user, r.item, r.count, 0);
      if r.faults.select && r.faults.start {
        assert c'.committed == t || c'.committed == t3;
        assert Current(c') == c'.committed || (c'.committed == t && (Current(c') == t1 || Current(c') == t2 || Current(c') == t3));
      } else {
        assert c' == c;
      }
    } else {
      assert Handle(c, prices, r) == c;
    }
  }

  /** No profit: over any sequence of purchases and sales, with any pattern of failing queries, no
      user's gold and inventory at base prices together rise, if no product of a purchase reaches 2^32. */
  lemma {:induction false} NoProfit(c: Conn, prices: seq<nat>, requests: seq<Request>, user: nat)
    requires c.open.None? && TablesOk(c.committed, prices)
    requires forall k :: 0 <= k < |requests| ==> NoCut(prices, requests[k])
    ensures ConnOk(RunShop(c, prices, requests), prices)
    ensures Wealth(RunShop(c, prices, requests).committed, prices, user) <= Wealth(c.committed, prices, user)
  {
    hide Wealth, TablesOk, Purchase, Sale;
    if requests != [] {
      var front := requests[..|requests| - 1];
      NoProfit(c, prices, front, user);
      var last := requests[|requests| - 1];
      if last.Buy? { BuyKeeps(RunShop(c, prices, front), prices, last); }
      else { SellKeeps(RunShop(c, prices, front), prices, last); }
    }
  }

  lemma BoughtForNothing()
    ensures Handle(Conn(map[1 := Player(Some(0), [None])], None), [65536], Buy(1, 0, 65536, true, true))
         == Conn(map[1 := Player(Some(0), [Some(65536)])], None)
  {
    var none: seq<Option<nat>> := [None];
    assert none[0 := Some(65536)] == [Some(65536)];
  }

  lemma SoldForMuch()
    ensures var ok := Faults(true, true, true, true, true, true, true, true);
            Handle(Conn(map[1 := Player(Some(0), [Some(65536)])], None), [65536], Sell(1, 0, 65535, ok)).committed
            == map[1 := Player(Some(0x7FFF_8000), [Some(1)])]
  {
    var rich: Tables := map[1 := Player(Some(0), [Some(65536)])];
    var sold: Tables := map[1 := Player(Some(0), [Some(1)])];
    assert rich[1].items[0 := Some(1)] == [Some(1)];
    assert SetCount(rich, 1, 0, Some(1)) == sold;
    assert DropZero(sold, 1, 0) == sold;
  }

  /** The condition is needed: 65536 pieces at 65536 each cost nothing, and all but one of them sell for
      2^31 - 2^15, which the signed 32-bit column of gold still holds. */
  lemma CutMakesProfit()
    ensures var prices := [65536];
            var c := Conn(map[1 := Player(Some(0), [None])], None);
            var ok := Faults(true, true, true, true, true, true, true, true);
            RunShop(c, prices, [Buy(1, 0, 65536, true, true), Sell(1, 0, 65535, ok)]).committed
            == map[1 := Player(Some(0x7FFF_8000), [Some(1)])]
  {
    hide Handle;
    var prices := [65536];
    var c := Conn(map[1 := Player(Some(0), [None])], None);
    var ok := Faults(true, true, true, true, true, true, true, true);
    var buy, sell := Buy(1, 0, 65536, true, true), Sell(1, 0, 65535, ok);
    BoughtForNothing();
    SoldForMuch();
    assert [buy, sell][..1] == [buy] && [buy][..0] == [];
    assert RunShop(c, prices, [buy]) == Handle(c, prices, buy);
  }

  // ---- what a trade does, row by row ------------------------------------------------------------

  /** No row changed but the user's gold and the user's count of the item. */
  ghost predicate OthersKept(before: Tables, after: Tables, user: nat, item: nat) {
    && (forall u: nat :: u != user ==> Gold(after, u) == Gold(before, u))
    && forall u: nat, i: nat :: u != user || i != item ==> Owned(after, u, i) == Owned(before, u, i)
  }

  lemma GoldWritten(t: Tables, user: nat, item: nat, gold: nat)
    requires Gold(t, user).Some?
    ensures var r := SetGold(t, user, gold);
            && Gold(r, user) == Some(gold) && (forall i: nat :: Owned(r, user, i) == Owned(t, user, i))
            && OthersKept(t, r, user, item)
            && user in r && |r[user].items| == |t[user].items|
  {
  }

  lemma CountWritten(t: Tables, user: nat, item: nat, count: Option<nat>)
    requires user in t && item < |t[user].items|
    ensures var r := SetCount(t, user, item, count);
            && Owned(r, user, item) == count && (forall u: nat :: Gold(r, u) == Gold(t, u))
            && OthersKept(t, r, user, item)
            && user in r && |r[user].items| == |t[user].items|
  {
  }

  /** A purchase succeeds exactly if its queries do, the rows exist and the gold is enough; then the gold
      is less by the price and the count more by the number, and else nothing changes. */
  lemma PurchaseTrades(c: Conn, prices: seq<nat>, user: nat, item: nat, count: nat, selectOk: bool, tradeOk: bool)
    requires c.open.None? && TablesOk(c.committed, prices)
    ensures var t := c.committed;
            var (r, reply) := Purchase(c, prices, user, item, count, selectOk, tradeOk);
            && (reply.Success? <==>
                  && selectOk && tradeOk && item < |prices| && Gold(t, user).Some?
                  && Product(prices[item], count) <= Gold(t, user).value < U32)
            && (reply.Success? ==>
                  && r.open.None? && OthersKept(t, r.committed, user, item)
                  && Gold(r.committed, user) == Some(reply.gold)
                  && reply.gold + Product(prices[item], count) == Gold(t, user).value
                  && Owned(r.committed, user, item) == Some(Owned(t, user, item).UnwrapOr(0) + count))
            && (!reply.Success? ==> r == c)
  {
    hide SetGold, SetCount, Owned, Product;
    var t := c.committed;
    var (r, reply) := Purchase(c, prices, user, item, count, selectOk, tradeOk);
    if reply.Success? {
      GoldWritten(t, user, item, reply.gold);
      CountWritten(SetGold(t, user, reply.gold), user, item, Some(Owned(t, user, item).UnwrapOr(0) + count));
    }
  }

  /** A sale whose queries all succeed takes the items, with their row if none is left, and pays half the
      price for each. */
  lemma SaleTrades(c: Conn, prices: seq<nat>, user: nat, item: nat, count: nat, f: Faults)
    requires c.open.None? && f.select && f.start && AllOk(f) && MaySell(c.committed, prices, user, item, count)
    ensures var t, r := c.committed, Sale(c, prices, user, item, count, f).0;
            var left := Owned(t, user, item).value - count;
            && r.open.None? && OthersKept(t, r.committed, user, item)
            && Owned(r.committed, user, item) == (if left == 0 then None else Some(left))
            && Gold(r.committed, user) == match Gold(t, user) {
                 case Some(g) => Some(g + Product(prices[item] / 2, count))
                 case None => None }
  {
    hide SetGold, SetCount, Product, Owned;
    var t := c.committed;
    var left := Owned(t, user, item).value - count;
    OwnedHasPlace(t, user, item);
    SaleAllOrNothing(c, prices, user, item, count, f);
    var t1 := SetCount(t, user, item, Some(left));
    CountWritten(t, user, item, Some(left));
    CountWritten(t1, user, item, None);
    var t2 := DropZero(t1, user, item);
    if Gold(t2, user).Some? { GoldWritten(t2, user, item, Gold(t2, user).value + Product(prices[item] / 2, count)); }
  }

  /** What a purchase is answered, with or without a transaction left open before. */
  lemma PurchaseReplies(c: Conn, prices: seq<nat>, user: nat, item: nat, count: nat, selectOk: bool, tradeOk: bool)
    ensures var t := Current(c);
            var reply := Purchase(c, prices, user, item, count, selectOk, tradeOk).1;
            var found := selectOk && item < |prices| && Gold(t, user).Some?;
            var short := found && Gold(t, user).value < Product(prices[item], count);
            && (reply.ItemNotFound? <==> selectOk && !found)
            && (reply.InsufficientGold? <==> short && Gold(t, user).value < U32)
            && (reply.Success? <==> found && !short && Gold(t, user).value < U32 && tradeOk)
            && (reply.Success? ==> reply.gold + Product(prices[item], count) == Gold(t, user).value)
  {
    hide Product;
  }

  /** What a sale is answered, with or without a transaction left open before: success with the gold that
      is in the row then, which is the gold before and the proceeds. */
  lemma SaleReplies(c: Conn, prices: seq<nat>, user: nat, item: nat, count: nat, f: Faults)
    ensures var t, (r, reply) := Current(c), Sale(c, prices, user, item, count, f);
            var found := f.select && item < |prices| && Owned(t, user, item).Some?;
            var short := found && Owned(t, user, item).value < count;
            && (reply.ItemNotFound? <==> (f.select && !found) || (short && Owned(t, user, item).value < U32))
            && !reply.InsufficientGold?
            && (reply.Success? <==>
                  && f.select && MaySell(t, prices, user, item, count) && f.start && AllOk(f) && f.selectGold
                  && Gold(t, user).Some? && Gold(t, user).value + Product(prices[item] / 2, count) < U32)
            && (reply.Success? ==>
                  && Gold(r.committed, user) == Some(reply.gold)
                  && reply.gold == Gold(t, user).value + Product(prices[item] / 2, count))
  {
    hide SetCount, SetGold, Pay, Product, DropZero, Owned, Gold;
    var t := Current(c);
    if f.select && MaySell(t, prices, user, item, count) && f.start && AllOk(f) {
      var closed := Conn(t, None);
      assert Sale(c, prices, user, item, count, f) == Sale(closed, prices, user, item, count, f);
      SaleTrades(closed, prices, user, item, count, f);
      SaleAllOrNothing(closed, prices, user, item, count, f);
    }
  }

  /** A sale whose payment and rollback fail leaves open what has the items taken and no gold paid, for
      the next trade to commit. */
  lemma HalfSaleStaysOpen(c: Conn, prices: seq<nat>, user: nat, item: nat, count: nat, f: Faults)
    requires c.open.None? && f.select && f.start && MaySell(c.committed, prices, user, item, count)
    requires f.update && f.delete && !f.pay && !f.rollback
    ensures var t, r := c.committed, Sale(c, prices, user, item, count, f).0;
            var left := Owned(t, user, item).value - count;
            && r.committed == t && r.open.Some? && OthersKept(t, r.open.value, user, item)
            && Owned(r.open.value, user, item) == (if left == 0 then None else Some(left))
            && Gold(r.open.value, user) == Gold(t, user)
  {
    hide SetCount, Product, Owned, SetGold;
    var t := c.committed;
    var left := Owned(t, user, item).value - count;
    OwnedHasPlace(t, user, item);
    CountWritten(t, user, item, Some(left));
    CountWritten(SetCount(t, user, item, Some(left)), user, item, None);
  }

  lemma OwnedHasPlace(t: Tables, user: nat, item: nat)
    requires Owned(t, user, item).Some?
    ensures user in t && item < |t[user].items|
  {
  }

  /** Buying and selling the same number back restores the inventory and costs half the price, rounded
      up, for each piece. */
  lemma BuyThenSell(c: Conn, prices: seq<nat>, user: nat, item: nat, count: nat, f: Faults)
    requires c.open.None? && TablesOk(c.committed, prices) && item < |prices| && prices[item] * count < U32
    requires Owned(c.committed, user, item).UnwrapOr(0) + count < U32 && Owned(c.committed, user, item) != Some(0)
    requires f.select && f.start && AllOk(f)
    requires Purchase(c, prices, user, item, count, true, true).1.Success?
    ensures var c1 := Purchase(c, prices, user, item, count, true, true).0;
            var t, t2 := c.committed, Sale(c1, prices, user, item, count, f).0.committed;
            && OthersKept(t, t2, user, item) && Owned(t2, user, item) == Owned(t, user, item)
            && Gold(t2, user).Some? && Gold(t2, user).value + (prices[item] - prices[item] / 2) * count == Gold(t, user).value
  {
    hide Purchase, Sale, Owned, Gold, Product;
    var c1 := Purchase(c, prices, user, item, count, true, true).0;
    PurchaseTrades(c, prices, user, item, count, true, true);
    SaleTrades(c1, prices, user, item, count, f);
    Uncut(prices[item], count);
  }

  lemma Uncut(price: nat, count: nat)
    requires price * count < U32
    ensures Product(price, count) == price * count && Product(price / 2, count) == price / 2 * count
    ensures price * count - price / 2 * count == (price - price / 2) * count
  {
    Split(price / 2, price - price / 2, count);
  }

  lemma Split(a: nat, b: nat, count: nat)
    ensures (a + b) * count == a * count + b * count
    ensures 0 <= a * count && 0 <= b * count
  {
  }
}
