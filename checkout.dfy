/**
 * The checkout page: the pricing rule, the redirect guard, and the simulated
 * payment that turns the cart into an order placed at the head of the order list.
 */
module Checkout {
  import opened Types
  import opened Json
  import opened Storage
  import opened AuthProvider
  import opened CartProvider

  // ----- Pricing -----

  /** Free shipping strictly above 100; at exactly 100 the flat 9.99 still applies. */
  function Shipping(subtotal: real): (r: real)
    ensures r == 0.0 <==> subtotal > 100.0
    ensures r != 0.0 ==> r == 9.99
  {
    if subtotal > 100.0 then 0.0 else 9.99
  }

  /** Ten percent of the subtotal. */
  function Tax(subtotal: real): (r: real)
    ensures r * 10.0 == subtotal
  {
    subtotal * 0.1
  }

  function Total(subtotal: real): (r: real)
    ensures r - Tax(subtotal) - Shipping(subtotal) == subtotal
    ensures subtotal > 100.0 ==> r == subtotal * 1.1
    ensures subtotal <= 100.0 ==> r == subtotal * 1.1 + 9.99
  {
    subtotal + Shipping(subtotal) + Tax(subtotal)
  }

  lemma PricingExamples()
    ensures Shipping(150.0) == 0.0 && Tax(150.0) == 15.0 && Total(150.0) == 165.0
    ensures Shipping(50.0) == 9.99 && Tax(50.0) == 5.0 && Total(50.0) == 64.99
    ensures Shipping(100.0) == 9.99
  {
  }

  /** Crossing the free-shipping threshold lowers the total: it is not monotone in the subtotal. */
  lemma TotalDropsAtThreshold()
    ensures Total(100.0) > Total(100.01)
  {
  }

  // ----- The redirect guard effect -----

  datatype Route = AuthPage | ProductsPage

  /** Where the guard sends the visitor, if anywhere: nothing happens until auth has hydrated. */
  function RedirectTarget(hydrated: bool, user: Option<User>, itemCount: nat): (r: Option<Route>)
    ensures r.None? <==> !hydrated || (user.Some? && itemCount > 0)
    ensures r == Some(AuthPage) <==> hydrated && user.None?
    ensures r == Some(ProductsPage) <==> hydrated && user.Some? && itemCount == 0
  {
    if !hydrated then None
    else if user.None? then Some(AuthPage)
    else if itemCount == 0 then Some(ProductsPage)
    else None
  }

  // ----- Placing the order -----

  /**
   * A scheduled completion: the items and total captured by the delayed
   * callback at the moment the form was submitted.
   */
  datatype PendingOrder = PendingOrder(items: seq<CartItem>, total: real)

  class CheckoutState {
    var isProcessing: bool
    var timers: seq<PendingOrder>
    const cart: CartState

    /**
     * The processing flag is up exactly while a completion is scheduled, and
     * at most one is: the submit button is disabled while processing.
     */
    ghost predicate Valid()
      reads this
    {
      (isProcessing <==> timers != []) && |timers| <= 1
    }

    constructor (cart: CartState)
      ensures this.cart == cart
      ensures Valid() && !isProcessing && timers == []
    {
      this.cart := cart;
      isProcessing := false;
      timers := [];
    }

    /**
     * Form submission: without a user or with an empty cart nothing happens;
     * otherwise the flag goes up and the completion is scheduled. The form can
     * only be submitted while not processing, since the button carries
     * `disabled={isProcessing}`.
     */
    method HandleCheckout()
      requires Valid() && !isProcessing
      modifies this
      ensures Valid()
      ensures cart.auth.user.None? || cart.items == [] ==>
        !isProcessing && timers == []
      ensures cart.auth.user.Some? && cart.items != [] ==>
        isProcessing && timers == [PendingOrder(cart.items, Total(Subtotal(cart.items)))]
    {
      if cart.auth.user.None? || |cart.items| == 0 {
        return;
      }
      isProcessing := true;
      timers := timers + [PendingOrder(cart.items, Total(Subtotal(cart.items)))];
    }

    /**
     * The delayed callback: the order is built from what was captured, put at
     * the head of the stored order list, the cart is cleared and the flag drops.
     * `orderId` and `date` stand for the clock-derived id and timestamp.
     */
    method CompletePayment(orderId: string, date: string) returns (order: Order)
      requires Valid() && timers != []
      modifies this, cart, cart.store
      ensures Valid()
      ensures order == Order(orderId, old(timers[0].items), old(timers[0].total), date, "completed")
      ensures timers == [] && !isProcessing
      ensures cart.items == [] && cart.hydrated == old(cart.hydrated)
      ensures cart.store.entries ==
        if cart.store.inBrowser
        then old(cart.store.entries)[ORDERS_KEY := Serialize(JOrders([order] + OrdersView(true, old(cart.store.entries))))] - {CART_KEY}
        else old(cart.store.entries)
      ensures cart.store.inBrowser ==>
        OrdersView(true, cart.store.entries) == [order] + OrdersView(true, old(cart.store.entries))
      ensures CartView(cart.store.inBrowser, cart.store.entries) == []
    {
      var pending := timers[0];
      order := Order(orderId, pending.items, pending.total, date, "completed");
      cart.store.SaveOrder(order);
      ghost var saved := cart.store.entries;
      cart.ClearCart();
      if cart.store.inBrowser {
        SaveOrderPrepends(old(cart.store.entries), order);
        ViewsAreSeparate(true, saved, CART_KEY, None);
      }
      isProcessing := false;
      timers := timers[1..];
    }
  }

  /**
   * A whole session in a browser with an empty store: log in, add one product,
   * check out and let the payment complete. The stored order list then holds
   * exactly that order, and the cart is empty in memory and in the store.
   */
  method CheckoutSession(user: User, product: Product, orderId: string, date: string)
    returns (orders: seq<Order>, cartAfter: seq<CartItem>, storedCart: seq<CartItem>)
    ensures orders == [Order(orderId, [CartItem(product, 1)], Total(product.price), date, "completed")]
    ensures cartAfter == [] && storedCart == []
  {
    var store := new BrowserStorage(true, map[]);
    var auth := new AuthState(store);
    var cart := new CartState(auth, store);
    cart.Hydrate();
    auth.Hydrate();
    cart.ClearOnLogout();
    assert cart.items == [] && auth.user == None;
    auth.Login(user);
    cart.AddToCart(product);
    assert cart.items == [CartItem(product, 1)];
    assert Subtotal(cart.items) == Subtotal([]) + LineTotal(CartItem(product, 1));
    cart.PersistOnChange();
    assert ORDERS_KEY !in store.entries;
    var checkout := new CheckoutState(cart);
    checkout.HandleCheckout();
    assert checkout.timers == [PendingOrder([CartItem(product, 1)], Total(product.price))];
    var order := checkout.CompletePayment(orderId, date);
    orders := store.GetOrders();
    cartAfter := cart.items;
    storedCart := store.GetCart();
  }
}
