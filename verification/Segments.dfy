/**
 * customer-segments.service.ts `matchCustomers`, which pushes bounds into the query and looks up
 * locations only when asked, against the one definition in customer-segment-matcher.util.ts.
 */
module Segments {
  import opened Common
  import opened Text

  type CustomerId = nat

  datatype Customer = Customer(id: CustomerId, ordersCount: int, totalSpent: int, lastOrderAt: Option<int>)

  datatype Location = Location(city: string, country: string)

  /** The shipping address's two fields; a missing one reads as empty. */
  datatype Order = Order(customer: Option<CustomerId>, placedAt: int, city: string, country: string)

  datatype Criteria = Criteria(
    minOrders: Option<int>, maxOrders: Option<int>,
    minTotalSpent: Option<int>, maxTotalSpent: Option<int>,
    lastOrderAfter: Option<int>, lastOrderBefore: Option<int>,
    locationCity: string, locationCountry: string)

  // ---- The definition ---------------------------------------------------------------------------

  predicate Matches(h: Host, c: Customer, location: Option<Location>, criteria: Criteria) {
    if criteria.minOrders.Some? && c.ordersCount < criteria.minOrders.value then false
    else if criteria.maxOrders.Some? && c.ordersCount > criteria.maxOrders.value then false
    else if criteria.minTotalSpent.Some? && c.totalSpent < criteria.minTotalSpent.value then false
    else if criteria.maxTotalSpent.Some? && c.totalSpent > criteria.maxTotalSpent.value then false
    else if criteria.lastOrderAfter.Some? && (c.lastOrderAt.None? || c.lastOrderAt.value < criteria.lastOrderAfter.value) then false
    else if criteria.lastOrderBefore.Some? && (c.lastOrderAt.None? || c.lastOrderAt.value > criteria.lastOrderBefore.value) then false
    else if criteria.locationCity != "" && (location.None? || h.lower(location.value.city) != h.lower(criteria.locationCity)) then false
    else if criteria.locationCountry != "" && (location.None? || h.lower(location.value.country) != h.lower(criteria.locationCountry)) then false
    else true
  }

  predicate Complete(o: Order) { o.city != "" && o.country != "" }

  /** The orders are read newest first. */
  predicate NewestFirst(orders: seq<Order>) { forall i, j | 0 <= i < j < |orders| :: orders[i].placedAt >= orders[j].placedAt }

  function LocationOf(orders: seq<Order>, id: CustomerId): Option<Location> {
    if orders == [] then None
    else
      var first := orders[0];
      if first.customer == Some(id) && Complete(first) then Some(Location(first.city, first.country)) else LocationOf(orders[1..], id)
  }

  /** What the reduction finds is the address of a newest order that has both parts, if there is one. */
  lemma {:induction false} LocationIsNewestComplete(orders: seq<Order>, id: CustomerId)
    requires NewestFirst(orders)
    ensures match LocationOf(orders, id)
            case Some(l) => exists o | o in orders && o.customer == Some(id) && o.city != "" && o.country != "" ::
              && l == Location(o.city, o.country)
              && forall other | other in orders && other.customer == Some(id) && other.city != "" && other.country != "" :: other.placedAt <= o.placedAt
            case None => forall o | o in orders && o.customer == Some(id) :: o.city == "" || o.country == ""
  {
    if orders != [] {
      var first, rest := orders[0], orders[1..];
      assert orders == [first] + rest;
      if first.customer == Some(id) && Complete(first) {
        forall other | other in orders ensures other.placedAt <= first.placedAt {
          var j :| 0 <= j < |orders| && orders[j] == other;
        }
        assert first in orders;
      } else {
        LocationIsNewestComplete(rest, id);
        assert forall o | o in rest :: o in orders;
      }
    }
  }

  function OrderLocation(o: Order): Option<Location> { if Complete(o) then Some(Location(o.city, o.country)) else None }

  /**
   * It is the most recent order's address, as the code's comments say, exactly when that order
   * has a complete address or no order has: otherwise an older order speaks for the customer.
   */
  lemma MostRecentOrderExactly(orders: seq<Order>, id: CustomerId, k: nat)
    requires k < |orders| && orders[k].customer == Some(id) && forall i | 0 <= i < k :: orders[i].customer != Some(id)
    ensures LocationOf(orders, id) == OrderLocation(orders[k]) <==>
            || (orders[k].city != "" && orders[k].country != "")
            || forall o | o in orders && o.customer == Some(id) :: o.city == "" || o.country == ""
  {
    if k > 0 {
      assert orders == [orders[0]] + orders[1..];
      MostRecentOrderExactly(orders[1..], id, k - 1);
    } else {
      NoneComplete(orders, id);
    }
  }

  lemma {:induction false} NoneComplete(orders: seq<Order>, id: CustomerId)
    ensures LocationOf(orders, id).None? <==> forall o | o in orders && o.customer == Some(id) :: !Complete(o)
  {
    if orders != [] {
      assert orders == [orders[0]] + orders[1..];
      NoneComplete(orders[1..], id);
    }
  }

  /** The members by the definition: every customer, each with its location. */
  function Members(h: Host, customers: seq<Customer>, orders: seq<Order>, criteria: Criteria): seq<Customer> {
    if customers == [] then []
    else
      var last := customers[|customers| - 1];
      Members(h, customers[..|customers| - 1], orders, criteria) + if Matches(h, last, LocationOf(orders, last.id), criteria) then [last] else []
  }

  // ---- The query ---------------------------------------------------------------------------------------

  /** A bounded column: absent bounds do not constrain, and a null column satisfies no bound. */
  predicate Between(column: Option<int>, gte: Option<int>, lte: Option<int>) {
    && (gte.Some? ==> column.Some? && column.value >= gte.value)
    && (lte.Some? ==> column.Some? && column.value <= lte.value)
  }

  predicate Selected(c: Customer, criteria: Criteria) {
    && ((criteria.minOrders.Some? || criteria.maxOrders.Some?) ==> Between(Some(c.ordersCount), criteria.minOrders, criteria.maxOrders))
    && ((criteria.minTotalSpent.Some? || criteria.maxTotalSpent.Some?) ==> Between(Some(c.totalSpent), criteria.minTotalSpent, criteria.maxTotalSpent))
    && ((criteria.lastOrderAfter.Some? || criteria.lastOrderBefore.Some?) ==> Between(c.lastOrderAt, criteria.lastOrderAfter, criteria.lastOrderBefore))
  }

  function Candidates(customers: seq<Customer>, criteria: Criteria): seq<Customer> {
    if customers == [] then []
    else Candidates(customers[..|customers| - 1], criteria) + if Selected(customers[|customers| - 1], criteria) then [customers[|customers| - 1]] else []
  }

  function OrdersOf(orders: seq<Order>, ids: set<CustomerId>): seq<Order> {
    if orders == [] then []
    else (if orders[0].customer.Some? && orders[0].customer.value in ids then [orders[0]] else []) + OrdersOf(orders[1..], ids)
  }

  lemma {:induction false} OrdersOfLocate(orders: seq<Order>, ids: set<CustomerId>, id: CustomerId)
    requires id in ids
    ensures LocationOf(OrdersOf(orders, ids), id) == LocationOf(orders, id)
  {
    if orders != [] {
      OrdersOfLocate(orders[1..], ids, id);
      assert ([orders[0]] + OrdersOf(orders[1..], ids))[1..] == OrdersOf(orders[1..], ids);
      assert [] + OrdersOf(orders[1..], ids) == OrdersOf(orders[1..], ids);
    }
  }

  method LatestOrderLocationsByCustomer(orders: seq<Order>, ids: set<CustomerId>) returns (locations: map<CustomerId, Location>)
    ensures forall id | id in ids :: LocationOf(orders, id) == if id in locations then Some(locations[id]) else None
  {
    locations := map[];
    if ids == {} { return; }
    var found := OrdersOf(orders, ids);
    for i := 0 to |found|
      invariant forall id :: LocationOf(found[..i], id) == if id in locations then Some(locations[id]) else None
    {
      var order := found[i];
      forall id: CustomerId { LocationOneMore(found, i, id); }
      if order.customer.None? || order.customer.value in locations { continue; }
      if order.city != "" && order.country != "" {
        locations := locations[order.customer.value := Location(order.city, order.country)];
      }
    }
    assert found[..|found|] == found;
    forall id | id in ids { OrdersOfLocate(orders, ids, id); }
  }

  lemma {:induction false} LocationOneMore(orders: seq<Order>, i: nat, id: CustomerId)
    requires i < |orders|
    ensures LocationOf(orders[..i + 1], id) ==
            if LocationOf(orders[..i], id).Some? then LocationOf(orders[..i], id)
            else if orders[i].customer == Some(id) then OrderLocation(orders[i]) else None
  {
    if i > 0 {
      LocationOneMore(orders[1..], i - 1, id);
      assert orders[..i + 1][1..] == orders[1..][..i] && orders[..i][1..] == orders[1..][..i - 1];
    } else {
      assert orders[..1][1..] == [] && orders[..0] == [];
    }
  }

  // ---- The fast form is the definition --------------------------------------------------------------------

  predicate WantsLocation(criteria: Criteria) { criteria.locationCity != "" || criteria.locationCountry != "" }

  /** Nobody the query leaves out could have matched, and without location criteria it decides alone. */
  lemma QueryDecides(h: Host, c: Customer, location: Option<Location>, criteria: Criteria)
    ensures Matches(h, c, location, criteria) ==> Selected(c, criteria)
    ensures !WantsLocation(criteria) ==> (Matches(h, c, location, criteria) <==> Selected(c, criteria))
  {}

  lemma {:induction false} CandidatesDecide(h: Host, customers: seq<Customer>, orders: seq<Order>, criteria: Criteria)
    ensures Members(h, Candidates(customers, criteria), orders, criteria) == Members(h, customers, orders, criteria)
    ensures !WantsLocation(criteria) ==> Candidates(customers, criteria) == Members(h, customers, orders, criteria)
  {
    hide Matches, Selected;
    if customers != [] {
      var init, last := customers[..|customers| - 1], customers[|customers| - 1];
      CandidatesDecide(h, init, orders, criteria);
      QueryDecides(h, last, LocationOf(orders, last.id), criteria);
      assert Candidates(init, criteria) + [] == Candidates(init, criteria);
      if Selected(last, criteria) {
        assert (Candidates(init, criteria) + [last])[..|Candidates(init, criteria)|] == Candidates(init, criteria);
      }
    }
  }

  /** `orders` are the store's, newest first; `customers` the store's, in the database's order. */
  method MatchCustomers(h: Host, customers: seq<Customer>, orders: seq<Order>, criteria: Criteria) returns (members: seq<Customer>)
    ensures members == Members(h, customers, orders, criteria)
  {
    var candidates := Candidates(customers, criteria);
    CandidatesDecide(h, customers, orders, criteria);
    if criteria.locationCity == "" && criteria.locationCountry == "" { return candidates; }
    var ids := set c | c in candidates :: c.id;
    var locations := LatestOrderLocationsByCustomer(orders, ids);
    hide Matches;
    members := [];
    for i := 0 to |candidates|
      invariant members == Members(h, candidates[..i], orders, criteria)
    {
      var c := candidates[i];
      assert candidates[..i + 1][..i] == candidates[..i];
      assert c in candidates && c.id in ids;
      var location := if c.id in locations then Some(locations[c.id]) else None;
      if Matches(h, c, location, criteria) { members := members + [c]; }
    }
    assert candidates[..|candidates|] == candidates;
  }

  lemma {:induction false} MembersMatch(h: Host, customers: seq<Customer>, orders: seq<Order>, criteria: Criteria, c: Customer)
    ensures c in Members(h, customers, orders, criteria) <==> c in customers && Matches(h, c, LocationOf(orders, c.id), criteria)
  {
    hide Matches;
    if customers != [] {
      var n := |customers| - 1;
      MembersMatch(h, customers[..n], orders, criteria, c);
      assert customers == customers[..n] + [customers[n]];
    }
  }

  /**
   * A customer is a member exactly if it is in the store, its order count, spending and last order
   * are within every bound given, bounds included, and its location is the one asked for, whatever
   * the case. A customer without a last order or a location fails every criterion on it.
   */
  lemma MembersExactly(h: Host, customers: seq<Customer>, orders: seq<Order>, criteria: Criteria, c: Customer)
    ensures var location := LocationOf(orders, c.id);
            c in Members(h, customers, orders, criteria) <==>
              && c in customers
              && (criteria.minOrders.Some? ==> criteria.minOrders.value <= c.ordersCount)
              && (criteria.maxOrders.Some? ==> c.ordersCount <= criteria.maxOrders.value)
              && (criteria.minTotalSpent.Some? ==> criteria.minTotalSpent.value <= c.totalSpent)
              && (criteria.maxTotalSpent.Some? ==> c.totalSpent <= criteria.maxTotalSpent.value)
              && (criteria.lastOrderAfter.Some? ==> c.lastOrderAt.Some? && criteria.lastOrderAfter.value <= c.lastOrderAt.value)
              && (criteria.lastOrderBefore.Some? ==> c.lastOrderAt.Some? && c.lastOrderAt.value <= criteria.lastOrderBefore.value)
              && (criteria.locationCity != "" ==> location.Some? && h.lower(location.value.city) == h.lower(criteria.locationCity))
              && (criteria.locationCountry != "" ==> location.Some? && h.lower(location.value.country) == h.lower(criteria.locationCountry))
  {
    MembersMatch(h, customers, orders, criteria, c);
  }
}
