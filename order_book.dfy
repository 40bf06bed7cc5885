/**
 * Order-book construction (`getQuestionOrderBook` in
 * src/controllers/questionController.ts): each pending peer-to-peer order is turned
 * into an order entry and routed to the buy or sell ladder of its side, and the
 * ladders are sorted best price first.
 */
module OrderBook {
  import opened Common
  import opened Text
  import opened Sorting

  /** The orderer's name fields, selected with each order. */
  datatype OrderUser = OrderUser(id: string, firstName: Option<string>, lastName: Option<string>)

  /** A fetched order (PENDING, with remaining quantity above zero). */
  datatype P2POrder = P2POrder(
    id: string,
    userId: string,
    user: OrderUser,
    tokenType: Side,
    orderType: OrderType,
    pricePerToken: real,
    remainingQuantity: int,
    createdAt: int,
    expiresAt: Option<int>)

  /** One entry of a ladder. */
  datatype OrderData = OrderData(
    id: string,
    userId: string,
    userName: string,
    quantity: int,
    pricePerToken: real,
    totalAmount: real,
    createdAt: int,
    expiresAt: Option<int>)

  datatype Ladder = Ladder(buys: seq<OrderData>, sells: seq<OrderData>)

  datatype Book = Book(yesOrders: Ladder, noOrders: Ladder)

  // ---------------------------------------------------------------------------
  // Entries

  /** `` `${first || ''} ${last || ''}`.trim() ``: the orderer's display name. */
  function DisplayName(user: OrderUser): (name: string)
    ensures name == "" || (!IsWhitespace(name[0]) && !IsWhitespace(name[|name| - 1]))
    ensures |name| <= |OrEmpty(user.firstName)| + 1 + |OrEmpty(user.lastName)|
  {
    Trim(OrEmpty(user.firstName) + " " + OrEmpty(user.lastName))
  }

  /** With neither name part present (or both empty), the display name is empty. */
  lemma DisplayNameOfAnonymous(user: OrderUser)
    requires !TruthyString(user.firstName) && !TruthyString(user.lastName)
    ensures DisplayName(user) == ""
  {
    assert OrEmpty(user.firstName) + " " + OrEmpty(user.lastName) == " ";
    TrimAllWhitespace(" ");
  }

  /** Names without surrounding blanks are joined by one space. */
  lemma DisplayNameOfFullName(user: OrderUser, first: string, last: string)
    requires user.firstName == Some(first) && user.lastName == Some(last)
    requires first != "" && !IsWhitespace(first[0])
    requires last != "" && !IsWhitespace(last[|last| - 1])
    ensures DisplayName(user) == first + " " + last
  {
    var s := first + " " + last;
    assert s[0] == first[0] && s[|s| - 1] == last[|last| - 1];
    TrimOfTrimmed(s);
  }

  /** The entry shown for an order: its remaining quantity, and the amount it is worth. */
  function ToOrderData(o: P2POrder): (d: OrderData)
    ensures d.id == o.id && d.userId == o.userId
    ensures d.userName == DisplayName(o.user)
    ensures d.quantity == o.remainingQuantity && d.pricePerToken == o.pricePerToken
    ensures d.totalAmount == o.pricePerToken * (o.remainingQuantity as real)
    ensures d.createdAt == o.createdAt && d.expiresAt == o.expiresAt
  {
    OrderData(
      o.id,
      o.userId,
      DisplayName(o.user),
      o.remainingQuantity,
      o.pricePerToken,
      o.pricePerToken * (o.remainingQuantity as real),
      o.createdAt,
      o.expiresAt)
  }

  // ---------------------------------------------------------------------------
  // Routing: the reference definition

  /**
   * The entries of the orders of one side and type, in fetch order. The test is the
   * controller's (questionController.ts:450-462): a YES order is YES, anything else NO;
   * a BUY is a buy, anything else a sell.
   */
  function Routed(orders: seq<P2POrder>, side: Side, kind: OrderType): (r: seq<OrderData>)
    ensures |r| <= |orders|
  {
    if orders == [] then []
    else
      var init, o := orders[..|orders| - 1], orders[|orders| - 1];
      Routed(init, side, kind)
        + (if o.tokenType == side && o.orderType == kind then [ToOrderData(o)] else [])
  }

  /** The entries of all orders, in fetch order. */
  function AllEntries(orders: seq<P2POrder>): (r: seq<OrderData>)
    ensures |r| == |orders|
  {
    if orders == [] then []
    else AllEntries(orders[..|orders| - 1]) + [ToOrderData(orders[|orders| - 1])]
  }

  /** Every order lands in exactly one of the four ladders: together they are all entries. */
  lemma {:induction false} RoutingPartitions(orders: seq<P2POrder>)
    ensures multiset(Routed(orders, YES, BUY)) + multiset(Routed(orders, YES, SELL))
            + multiset(Routed(orders, NO, BUY)) + multiset(Routed(orders, NO, SELL))
            == multiset(AllEntries(orders))
  {
    if orders != [] {
      var init, o := orders[..|orders| - 1], orders[|orders| - 1];
      var e := multiset{ToOrderData(o)};
      RoutingPartitions(init);
      assert multiset(AllEntries(orders)) == multiset(AllEntries(init)) + e;
      RoutedStepMultiset(orders, YES, BUY);
      RoutedStepMultiset(orders, YES, SELL);
      RoutedStepMultiset(orders, NO, BUY);
      RoutedStepMultiset(orders, NO, SELL);
      BumpsSumToOne(o);
    }
  }

  /** The four ladders hold as many entries as there are orders. */
  lemma RoutingCountsAll(orders: seq<P2POrder>)
    ensures |Routed(orders, YES, BUY)| + |Routed(orders, YES, SELL)|
            + |Routed(orders, NO, BUY)| + |Routed(orders, NO, SELL)| == |orders|
  {
    RoutingPartitions(orders);
    assert |multiset(AllEntries(orders))| == |orders|;
  }

  /** What one order adds to the ladder of this side and type, as a multiset. */
  function Bump(o: P2POrder, side: Side, kind: OrderType): multiset<OrderData>
  {
    if o.tokenType == side && o.orderType == kind then multiset{ToOrderData(o)} else multiset{}
  }

  /** An order is of exactly one side and type, so exactly one ladder receives its entry. */
  lemma BumpsSumToOne(o: P2POrder)
    ensures Bump(o, YES, BUY) + Bump(o, YES, SELL) + Bump(o, NO, BUY) + Bump(o, NO, SELL)
            == multiset{ToOrderData(o)}
  {
    var e := multiset{ToOrderData(o)};
    var empty: multiset<OrderData> := multiset{};
    match (o.tokenType, o.orderType)
    case (YES, BUY) =>
      assert Bump(o, YES, BUY) == e;
      assert Bump(o, YES, SELL) == Bump(o, NO, BUY) == Bump(o, NO, SELL) == empty;
    case (YES, SELL) =>
      assert Bump(o, YES, SELL) == e;
      assert Bump(o, YES, BUY) == Bump(o, NO, BUY) == Bump(o, NO, SELL) == empty;
    case (NO, BUY) =>
      assert Bump(o, NO, BUY) == e;
      assert Bump(o, YES, BUY) == Bump(o, YES, SELL) == Bump(o, NO, SELL) == empty;
    case (NO, SELL) =>
      assert Bump(o, NO, SELL) == e;
      assert Bump(o, YES, BUY) == Bump(o, YES, SELL) == Bump(o, NO, BUY) == empty;
  }

  /** The last order adds its entry to its own ladder's multiset and nothing to the others. */
  lemma RoutedStepMultiset(orders: seq<P2POrder>, side: Side, kind: OrderType)
    requires orders != []
    ensures multiset(Routed(orders, side, kind))
            == multiset(Routed(orders[..|orders| - 1], side, kind)) + Bump(orders[|orders| - 1], side, kind)
  {
  }

  /** One more order of the fetch extends its own ladder by its entry and leaves the others. */
  lemma RoutedPrefixStep(orders: seq<P2POrder>, k: nat, side: Side, kind: OrderType)
    requires k < |orders|
    ensures Routed(orders[..k + 1], side, kind)
            == Routed(orders[..k], side, kind)
               + (if orders[k].tokenType == side && orders[k].orderType == kind
                  then [ToOrderData(orders[k])] else [])
  {
    assert orders[..k + 1][..k] == orders[..k];
  }

  /** Whether `after` is `before` with `o`'s entry pushed when `o` is of this side and type. */
  ghost predicate PushedIfRouted(before: seq<OrderData>, after: seq<OrderData>, o: P2POrder,
                                 side: Side, kind: OrderType)
  {
    if o.tokenType == side && o.orderType == kind then after == before + [ToOrderData(o)]
    else after == before
  }

  /** One iteration of the routing loop keeps the four lists equal to the routed prefixes. */
  lemma LaddersStep(orders: seq<P2POrder>, k: nat,
                    yb: seq<OrderData>, ys: seq<OrderData>, nb: seq<OrderData>, ns: seq<OrderData>,
                    yb': seq<OrderData>, ys': seq<OrderData>, nb': seq<OrderData>, ns': seq<OrderData>)
    requires k < |orders|
    requires yb == Routed(orders[..k], YES, BUY) && ys == Routed(orders[..k], YES, SELL)
    requires nb == Routed(orders[..k], NO, BUY) && ns == Routed(orders[..k], NO, SELL)
    requires PushedIfRouted(yb, yb', orders[k], YES, BUY)
    requires PushedIfRouted(ys, ys', orders[k], YES, SELL)
    requires PushedIfRouted(nb, nb', orders[k], NO, BUY)
    requires PushedIfRouted(ns, ns', orders[k], NO, SELL)
    ensures yb' == Routed(orders[..k + 1], YES, BUY) && ys' == Routed(orders[..k + 1], YES, SELL)
    ensures nb' == Routed(orders[..k + 1], NO, BUY) && ns' == Routed(orders[..k + 1], NO, SELL)
  {
    RoutedPrefixStep(orders, k, YES, BUY);
    RoutedPrefixStep(orders, k, YES, SELL);
    RoutedPrefixStep(orders, k, NO, BUY);
    RoutedPrefixStep(orders, k, NO, SELL);
  }

  /** A ladder holds only entries of orders of its side and type. */
  lemma {:induction false} RoutedComesFrom(orders: seq<P2POrder>, side: Side, kind: OrderType, d: OrderData)
    requires d in Routed(orders, side, kind)
    ensures exists k :: 0 <= k < |orders| && orders[k].tokenType == side
                        && orders[k].orderType == kind && ToOrderData(orders[k]) == d
  {
    var init := orders[..|orders| - 1];
    if d in Routed(init, side, kind) {
      RoutedComesFrom(init, side, kind, d);
      var k :| 0 <= k < |init| && init[k].tokenType == side
               && init[k].orderType == kind && ToOrderData(init[k]) == d;
      assert orders[k] == init[k];
    } else {
      assert orders[|orders| - 1].tokenType == side;
    }
  }

  /** Every order of a side and type has its entry in that ladder. */
  lemma {:induction false} RoutedContains(orders: seq<P2POrder>, k: nat)
    requires k < |orders|
    ensures ToOrderData(orders[k]) in Routed(orders, orders[k].tokenType, orders[k].orderType)
  {
    var init := orders[..|orders| - 1];
    if k < |orders| - 1 {
      RoutedContains(init, k);
      assert init[k] == orders[k];
    }
  }

  // ---------------------------------------------------------------------------
  // Sorting

  /** Best bid first: prices never go up along the buys. */
  ghost predicate PriceDescending(s: seq<OrderData>)
  {
    forall i, j :: 0 <= i < j < |s| ==> s[i].pricePerToken >= s[j].pricePerToken
  }

  /** Best ask first: prices never go down along the sells. */
  ghost predicate PriceAscending(s: seq<OrderData>)
  {
    forall i, j :: 0 <= i < j < |s| ==> s[i].pricePerToken <= s[j].pricePerToken
  }

  /** Of two asks, the cheaper one comes first in a sorted sell ladder. */
  lemma CheaperAskFirst(sells: seq<OrderData>, cheap: OrderData, dear: OrderData)
    requires cheap.pricePerToken < dear.pricePerToken
    requires PriceAscending(sells) && multiset(sells) == multiset{dear, cheap}
    ensures sells == [cheap, dear]
  {
    assert |sells| == |multiset(sells)| == 2;
    assert sells == [sells[0], sells[1]];
    assert sells[0] in multiset(sells) && sells[1] in multiset(sells);
  }

  /** The key of `(a, b) => b.pricePerToken - a.pricePerToken`. */
  function BidKey(d: OrderData): real
  {
    -d.pricePerToken
  }

  /** The key of `(a, b) => a.pricePerToken - b.pricePerToken`. */
  function AskKey(d: OrderData): real
  {
    d.pricePerToken
  }

  /** Ordering by `BidKey` puts the higher price first. */
  lemma BidKeyBestFirst(d: OrderData, e: OrderData)
    ensures BidKey(d) <= BidKey(e) <==> d.pricePerToken >= e.pricePerToken
  {
  }

  /** Ordering by `AskKey` puts the lower price first. */
  lemma AskKeyBestFirst(d: OrderData, e: OrderData)
    ensures AskKey(d) <= AskKey(e) <==> d.pricePerToken <= e.pricePerToken
  {
  }

  /** Copies a routed list into an array and sorts it in place by `key`. */
  method SortedCopy(s: seq<OrderData>, key: OrderData -> real) returns (r: seq<OrderData>)
    ensures SortedBy(r, key)
    ensures multiset(r) == multiset(s)
    ensures SameTies(r, s, key)
  {
    var a := new OrderData[|s|](i requires 0 <= i < |s| => s[i]);
    assert a[..] == s;
    SortByKey(a, key);
    r := a[..];
  }

  /** Sorts one side's ladder: buys by price descending, sells by price ascending. */
  method SortLadder(buys: seq<OrderData>, sells: seq<OrderData>) returns (l: Ladder)
    ensures PriceDescending(l.buys) && multiset(l.buys) == multiset(buys)
    ensures PriceAscending(l.sells) && multiset(l.sells) == multiset(sells)
    ensures SameTies(l.buys, buys, BidKey) && SameTies(l.sells, sells, AskKey)
  {
    var b := SortedCopy(buys, BidKey);
    var s := SortedCopy(sells, AskKey);
    assert forall i, j :: 0 <= i < j < |b| ==> BidKey(b[i]) <= BidKey(b[j]);
    assert forall i, j :: 0 <= i < j < |s| ==> AskKey(s[i]) <= AskKey(s[j]);
    l := Ladder(b, s);
  }

  /**
   * The sorted ladder is determined by its input: two ladders that are both ordered best
   * price first and both keep the input order among equal prices are the same ladder.
   */
  lemma LadderIsDetermined(l: Ladder, m: Ladder, buys: seq<OrderData>, sells: seq<OrderData>)
    requires PriceDescending(l.buys) && SameTies(l.buys, buys, BidKey)
    requires PriceDescending(m.buys) && SameTies(m.buys, buys, BidKey)
    requires PriceAscending(l.sells) && SameTies(l.sells, sells, AskKey)
    requires PriceAscending(m.sells) && SameTies(m.sells, sells, AskKey)
    ensures l == m
  {
    assert SortedBy(l.buys, BidKey) && SortedBy(m.buys, BidKey);
    assert SortedBy(l.sells, AskKey) && SortedBy(m.sells, AskKey);
    StableSortUnique(l.buys, m.buys, BidKey);
    StableSortUnique(l.sells, m.sells, AskKey);
  }

  // ---------------------------------------------------------------------------
  // The whole operation

  /**
   * The order book for the orders the store returned: the `forEach` that pushes each
   * entry into one of four lists, then the four in-place sorts.
   */
  method GetQuestionOrderBook(orders: seq<P2POrder>) returns (book: Book)
    ensures multiset(book.yesOrders.buys) == multiset(Routed(orders, YES, BUY))
    ensures multiset(book.yesOrders.sells) == multiset(Routed(orders, YES, SELL))
    ensures multiset(book.noOrders.buys) == multiset(Routed(orders, NO, BUY))
    ensures multiset(book.noOrders.sells) == multiset(Routed(orders, NO, SELL))
    ensures PriceDescending(book.yesOrders.buys) && PriceAscending(book.yesOrders.sells)
    ensures PriceDescending(book.noOrders.buys) && PriceAscending(book.noOrders.sells)
    ensures SameTies(book.yesOrders.buys, Routed(orders, YES, BUY), BidKey)
    ensures SameTies(book.yesOrders.sells, Routed(orders, YES, SELL), AskKey)
    ensures SameTies(book.noOrders.buys, Routed(orders, NO, BUY), BidKey)
    ensures SameTies(book.noOrders.sells, Routed(orders, NO, SELL), AskKey)
  {
    var yesBuys, yesSells, noBuys, noSells := [], [], [], [];
    for k := 0 to |orders|
      invariant yesBuys == Routed(orders[..k], YES, BUY)
      invariant yesSells == Routed(orders[..k], YES, SELL)
      invariant noBuys == Routed(orders[..k], NO, BUY)
      invariant noSells == Routed(orders[..k], NO, SELL)
    {
      var order := orders[k];
      var orderData := ToOrderData(order);
      ghost var yb, ys, nb, ns := yesBuys, yesSells, noBuys, noSells;
      if order.tokenType == YES {
        if order.orderType == BUY {
          yesBuys := yesBuys + [orderData];
        } else {
          yesSells := yesSells + [orderData];
        }
      } else {
        if order.orderType == BUY {
          noBuys := noBuys + [orderData];
        } else {
          noSells := noSells + [orderData];
        }
      }
      LaddersStep(orders, k, yb, ys, nb, ns, yesBuys, yesSells, noBuys, noSells);
    }
    assert orders[..|orders|] == orders;
    var yesLadder := SortLadder(yesBuys, yesSells);
    var noLadder := SortLadder(noBuys, noSells);
    book := Book(yesLadder, noLadder);
  }
}
