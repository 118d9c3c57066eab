/**
 * The persistence adapter over the browser's string-keyed store: three keys,
 * each holding one JSON document, read tolerantly and written whole.
 */
module Storage {
  import opened Types
  import opened Json

  const CART_KEY: string := "ecommerce_cart"
  const ORDERS_KEY: string := "ecommerce_orders"
  const USER_KEY: string := "ecommerce_user"

  /** `localStorage.getItem`: `None` is the `null` it returns for a missing key. */
  function Lookup(entries: map<string, Text>, key: string): (r: Option<Text>)
    ensures r.Some? <==> key in entries
    ensures r.Some? ==> r.value == entries[key]
  {
    if key in entries then Some(entries[key]) else None
  }

  /**
   * Tolerant parse: a missing or empty value, and a value the parser rejects,
   * give the caller's fallback; nothing is thrown. `cast` stands for the
   * unchecked `as T` on the parsed document.
   */
  function SafeParse<T>(value: Option<Text>, fallback: T, cast: Json -> Option<T>): (r: T)
    ensures value.None? ==> r == fallback
    ensures value.Some? && IsEmptyText(value.value) ==> r == fallback
    ensures value.Some? && Parse(value.value).None? ==> r == fallback
    ensures value.Some? && value.value.Serialized? && cast(value.value.doc).Some? ==>
              r == cast(value.value.doc).value
  {
    if value.None? || IsEmptyText(value.value) then fallback
    else
      match Parse(value.value)
      case None => fallback
      case Some(doc) =>
        match cast(doc)
        case Some(x) => x
        case None => fallback
  }

  function AsCart(doc: Json): Option<seq<CartItem>> {
    if doc.JCart? then Some(doc.items) else None
  }

  function AsOrders(doc: Json): Option<seq<Order>> {
    if doc.JOrders? then Some(doc.orders) else None
  }

  /** A stored `null` is a valid "no user" document. */
  function AsUser(doc: Json): Option<Option<User>> {
    match doc
    case JNull => Some(None)
    case JUser(u) => Some(Some(u))
    case _ => None
  }

  /** What `getCart` returns in a store holding `entries`. */
  function CartView(inBrowser: bool, entries: map<string, Text>): (r: seq<CartItem>)
    ensures !inBrowser ==> r == []
    ensures CART_KEY !in entries ==> r == []
    ensures r != [] ==> CART_KEY in entries && entries[CART_KEY] == Serialized(JCart(r))
  {
    if !inBrowser then [] else SafeParse(Lookup(entries, CART_KEY), [], AsCart)
  }

  /** What `getOrders` returns in a store holding `entries`. */
  function OrdersView(inBrowser: bool, entries: map<string, Text>): (r: seq<Order>)
    ensures !inBrowser ==> r == []
    ensures ORDERS_KEY !in entries ==> r == []
    ensures r != [] ==> ORDERS_KEY in entries && entries[ORDERS_KEY] == Serialized(JOrders(r))
  {
    if !inBrowser then [] else SafeParse(Lookup(entries, ORDERS_KEY), [], AsOrders)
  }

  /** What `getUser` returns in a store holding `entries`. */
  function UserView(inBrowser: bool, entries: map<string, Text>): (r: Option<User>)
    ensures !inBrowser ==> r == None
    ensures USER_KEY !in entries ==> r == None
    ensures r.Some? ==> USER_KEY in entries && entries[USER_KEY] == Serialized(JUser(r.value))
  {
    if !inBrowser then None else SafeParse(Lookup(entries, USER_KEY), None, AsUser)
  }

  /** The store itself; `inBrowser` is the answer `isBrowser()` gives in this execution context. */
  class BrowserStorage {
    const inBrowser: bool
    var entries: map<string, Text>

    constructor (inBrowser: bool, entries: map<string, Text>)
      ensures this.inBrowser == inBrowser && this.entries == entries
    {
      this.inBrowser := inBrowser;
      this.entries := entries;
    }

    method GetCart() returns (cart: seq<CartItem>)
      ensures cart == CartView(inBrowser, entries)
    {
      if !inBrowser { return []; }
      cart := SafeParse(Lookup(entries, CART_KEY), [], AsCart);
    }

    method SaveCart(cart: seq<CartItem>)
      modifies this
      ensures entries == if inBrowser then old(entries)[CART_KEY := Serialize(JCart(cart))] else old(entries)
    {
      if !inBrowser { return; }
      entries := entries[CART_KEY := Serialize(JCart(cart))];
    }

    method ClearCart()
      modifies this
      ensures entries == if inBrowser then old(entries) - {CART_KEY} else old(entries)
    {
      if !inBrowser { return; }
      entries := entries - {CART_KEY};
    }

    method GetOrders() returns (orders: seq<Order>)
      ensures orders == OrdersView(inBrowser, entries)
    {
      if !inBrowser { return []; }
      orders := SafeParse(Lookup(entries, ORDERS_KEY), [], AsOrders);
    }

    /** Reads the list (with its fallback), puts the new order in front and writes the list back. */
    method SaveOrder(order: Order)
      modifies this
      ensures entries ==
        if inBrowser then old(entries)[ORDERS_KEY := Serialize(JOrders([order] + OrdersView(inBrowser, old(entries))))]
        else old(entries)
    {
      if !inBrowser { return; }
      var orders := GetOrders();
      orders := [order] + orders;
      entries := entries[ORDERS_KEY := Serialize(JOrders(orders))];
    }

    method GetUser() returns (user: Option<User>)
      ensures user == UserView(inBrowser, entries)
    {
      if !inBrowser { return None; }
      user := SafeParse(Lookup(entries, USER_KEY), None, AsUser);
    }

    method SaveUser(user: User)
      modifies this
      ensures entries == if inBrowser then old(entries)[USER_KEY := Serialize(JUser(user))] else old(entries)
    {
      if !inBrowser { return; }
      entries := entries[USER_KEY := Serialize(JUser(user))];
    }

    method ClearUser()
      modifies this
      ensures entries == if inBrowser then old(entries) - {USER_KEY} else old(entries)
    {
      if !inBrowser { return; }
      entries := entries - {USER_KEY};
    }
  }

  // ----- Properties of the three views -----

  /** A corrupt or empty stored value reads as the empty/absent default. */
  lemma CorruptReadsAsDefault(inBrowser: bool, entries: map<string, Text>, key: string)
    requires key in {CART_KEY, ORDERS_KEY, USER_KEY}
    requires key in entries && entries[key].Unparsable?
    ensures key == CART_KEY ==> CartView(inBrowser, entries) == []
    ensures key == ORDERS_KEY ==> OrdersView(inBrowser, entries) == []
    ensures key == USER_KEY ==> UserView(inBrowser, entries) == None
  {
  }

  /** `saveCart(c)` followed by `getCart()` gives back `c`. */
  lemma SaveCartRoundTrip(entries: map<string, Text>, cart: seq<CartItem>)
    ensures CartView(true, entries[CART_KEY := Serialize(JCart(cart))]) == cart
  {
  }

  lemma SaveUserRoundTrip(entries: map<string, Text>, user: User)
    ensures UserView(true, entries[USER_KEY := Serialize(JUser(user))]) == Some(user)
  {
  }

  lemma ClearedReadsAsDefault(inBrowser: bool, entries: map<string, Text>)
    ensures CartView(inBrowser, entries - {CART_KEY}) == []
    ensures UserView(inBrowser, entries - {USER_KEY}) == None
  {
  }

  /** After `saveOrder(o)` the order list is `[o]` followed by the previous list, newest first. */
  lemma SaveOrderPrepends(entries: map<string, Text>, order: Order)
    ensures OrdersView(true, entries[ORDERS_KEY := Serialize(JOrders([order] + OrdersView(true, entries)))]) ==
            [order] + OrdersView(true, entries)
  {
  }

  /** Each view depends only on its own key, so a writer of one key leaves the other two views alone. */
  lemma ViewsAreSeparate(inBrowser: bool, entries: map<string, Text>, key: string, t: Option<Text>)
    requires key in {CART_KEY, ORDERS_KEY, USER_KEY}
    ensures var e' := if t.Some? then entries[key := t.value] else entries - {key};
      && (key != CART_KEY ==> CartView(inBrowser, e') == CartView(inBrowser, entries))
      && (key != ORDERS_KEY ==> OrdersView(inBrowser, e') == OrdersView(inBrowser, entries))
      && (key != USER_KEY ==> UserView(inBrowser, e') == UserView(inBrowser, entries))
  {
    var e' := if t.Some? then entries[key := t.value] else entries - {key};
    if key != CART_KEY { assert Lookup(e', CART_KEY) == Lookup(entries, CART_KEY); }
    if key != ORDERS_KEY { assert Lookup(e', ORDERS_KEY) == Lookup(entries, ORDERS_KEY); }
    if key != USER_KEY { assert Lookup(e', USER_KEY) == Lookup(entries, USER_KEY); }
  }
}
