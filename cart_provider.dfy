/**
 * The cart state container: an ordered list of line items keyed by product id,
 * written back to the store by an effect whenever the list changes, and
 * cleared when the authentication container reports that nobody is logged in.
 */
module CartProvider {
  import opened Types
  import opened Json
  import opened Storage
  import opened Seqs
  import opened AuthProvider

  // ----- The per-step updates, as pure functions of the previous list -----

  /** `prev.find(item => item.id === id)` finds something. */
  predicate HasId(items: seq<CartItem>, id: int) {
    exists i :: 0 <= i < |items| && items[i].Id() == id
  }

  /** At most one line per product id. */
  predicate UniqueIds(items: seq<CartItem>) {
    forall i, j :: 0 <= i < j < |items| ==> items[i].Id() != items[j].Id()
  }

  /** `prev.map(item => item.id === id ? {...item, quantity: item.quantity + 1} : item)` */
  function IncrementQuantity(items: seq<CartItem>, id: int): (r: seq<CartItem>)
    ensures |r| == |items|
    ensures forall i :: 0 <= i < |r| ==>
      r[i].product == items[i].product && r[i].quantity == items[i].quantity + (if items[i].Id() == id then 1 else 0)
  {
    seq(|items|, i requires 0 <= i < |items| =>
      if items[i].Id() == id then items[i].(quantity := items[i].quantity + 1) else items[i])
  }

  /** The list `addToCart` produces for a logged-in user. */
  function AddItem(items: seq<CartItem>, product: Product): (r: seq<CartItem>)
    ensures |r| == if HasId(items, product.id) then |items| else |items| + 1
    ensures forall i :: 0 <= i < |items| ==> r[i].product == items[i].product
    ensures !HasId(items, product.id) ==> r[|items|] == CartItem(product, 1)
  {
    if HasId(items, product.id) then IncrementQuantity(items, product.id)
    else items + [CartItem(product, 1)]
  }

  /** `prev.map(item => item.id === id ? {...item, quantity} : item)`: no lower bound on `quantity`. */
  function SetQuantity(items: seq<CartItem>, id: int, quantity: int): (r: seq<CartItem>)
    ensures |r| == |items|
    ensures forall i :: 0 <= i < |r| ==> r[i].Id() == items[i].Id()
  {
    seq(|items|, i requires 0 <= i < |items| =>
      if items[i].Id() == id then items[i].(quantity := quantity) else items[i])
  }

  /** `prev.filter(item => item.id !== id)` */
  function RemoveId(items: seq<CartItem>, id: int): (r: seq<CartItem>)
    ensures |r| == |items| - LinesWith(items, id)
  {
    if items == [] then []
    else (if items[0].Id() == id then [] else [items[0]]) + RemoveId(items[1..], id)
  }

  // ----- The derived totals: left folds, as `reduce` computes them -----

  function ItemsCount(items: seq<CartItem>): (n: int)
    ensures items == [] ==> n == 0
  {
    if items == [] then 0 else ItemsCount(items[..|items| - 1]) + items[|items| - 1].quantity
  }

  /** `item.price * item.quantity` */
  function LineTotal(item: CartItem): real {
    item.Price() * item.quantity as real
  }

  function Subtotal(items: seq<CartItem>): (total: real)
    ensures items == [] ==> total == 0.0
  {
    if items == [] then 0.0
    else Subtotal(items[..|items| - 1]) + LineTotal(items[|items| - 1])
  }

  /** Sum of the quantities of the lines carrying `id`. */
  function QuantityOf(items: seq<CartItem>, id: int): int {
    if items == [] then 0
    else (if items[0].Id() == id then items[0].quantity else 0) + QuantityOf(items[1..], id)
  }

  /** Sum of price × quantity over the lines carrying `id`. */
  function LineTotalOf(items: seq<CartItem>, id: int): real {
    if items == [] then 0.0
    else (if items[0].Id() == id then LineTotal(items[0]) else 0.0) + LineTotalOf(items[1..], id)
  }

  /** Number of lines carrying `id`. */
  function LinesWith(items: seq<CartItem>, id: int): nat {
    if items == [] then 0
    else (if items[0].Id() == id then 1 else 0) + LinesWith(items[1..], id)
  }

  /** Sum of the prices of the lines carrying `id`. */
  function PriceOf(items: seq<CartItem>, id: int): real {
    if items == [] then 0.0
    else (if items[0].Id() == id then items[0].Price() else 0.0) + PriceOf(items[1..], id)
  }

  // ----- The container -----

  class CartState {
    var items: seq<CartItem>
    var hydrated: bool
    const auth: AuthState
    const store: BrowserStorage

    constructor (auth: AuthState, store: BrowserStorage)
      ensures this.auth == auth && this.store == store
      ensures items == [] && !hydrated
    {
      this.auth := auth;
      this.store := store;
      items := [];
      hydrated := false;
    }

    /** The mount effect: load the persisted cart and mark the container hydrated. */
    method Hydrate()
      modifies this
      ensures items == CartView(store.inBrowser, store.entries)
      ensures hydrated
    {
      items := store.GetCart();
      hydrated := true;
    }

    /** The save-on-change effect: once hydrated, the whole list is written back. */
    method PersistOnChange()
      modifies store
      ensures store.entries ==
        if hydrated && store.inBrowser then old(store.entries)[CART_KEY := Serialize(JCart(items))]
        else old(store.entries)
      ensures hydrated && store.inBrowser ==> CartView(store.inBrowser, store.entries) == items
    {
      if !hydrated { return; }
      store.SaveCart(items);
      SaveCartRoundTrip(old(store.entries), items);
    }

    /** The effect on the auth state: after auth hydration, nobody logged in means an emptied cart. */
    method ClearOnLogout()
      modifies this, store
      ensures hydrated == old(hydrated)
      ensures auth.hydrated && auth.user.None? ==>
        && items == []
        && store.entries == (if store.inBrowser then old(store.entries) - {CART_KEY} else old(store.entries))
        && CartView(store.inBrowser, store.entries) == []
      ensures !(auth.hydrated && auth.user.None?) ==>
        items == old(items) && store.entries == old(store.entries)
    {
      if !auth.hydrated { return; }
      if auth.user.None? {
        ClearCart();
      }
    }

    /** Without a logged-in user nothing changes (the source only shows a notice). */
    method AddToCart(product: Product)
      modifies this
      ensures hydrated == old(hydrated)
      ensures items == if auth.user.None? then old(items) else AddItem(old(items), product)
    {
      if auth.user.None? { return; }
      items := AddItem(items, product);
    }

    method UpdateQuantity(id: int, quantity: int)
      modifies this
      ensures hydrated == old(hydrated)
      ensures items == SetQuantity(old(items), id, quantity)
    {
      items := SetQuantity(items, id, quantity);
    }

    method RemoveItem(id: int)
      modifies this
      ensures hydrated == old(hydrated)
      ensures items == RemoveId(old(items), id)
    {
      items := RemoveId(items, id);
    }

    method ClearCart()
      modifies this, store
      ensures hydrated == old(hydrated)
      ensures items == []
      ensures store.entries == if store.inBrowser then old(store.entries) - {CART_KEY} else old(store.entries)
      ensures CartView(store.inBrowser, store.entries) == []
    {
      items := [];
      store.ClearCart();
      ClearedReadsAsDefault(store.inBrowser, old(store.entries));
    }
  }

  /** `useCart`: outside a `CartProvider` there is no context value, and that is a fatal misuse. */
  function UseCart(context: Option<CartState>): (r: Result<CartState>)
    ensures r.Ok? <==> context.Some?
    ensures r.Ok? ==> r.value == context.value
    ensures r.Err? ==> r.message == "useCart must be used within a CartProvider"
  {
    match context
    case Some(cart) => Ok(cart)
    case None => Err("useCart must be used within a CartProvider")
  }

  // ----- addToCart -----

  /** An id already present: that line's quantity goes up by one; length, order and the other lines stay. */
  lemma AddExisting(items: seq<CartItem>, product: Product)
    requires HasId(items, product.id)
    ensures var r := AddItem(items, product);
      && |r| == |items|
      && forall i :: 0 <= i < |items| ==>
           if items[i].Id() == product.id then r[i] == items[i].(quantity := items[i].quantity + 1)
           else r[i] == items[i]
  {
  }

  /** A new id: `{...product, quantity: 1}` is appended after the unchanged previous lines. */
  lemma AddNew(items: seq<CartItem>, product: Product)
    requires !HasId(items, product.id)
    ensures AddItem(items, product) == items + [CartItem(product, 1)]
  {
  }

  lemma AddPreservesUnique(items: seq<CartItem>, product: Product)
    requires UniqueIds(items)
    ensures UniqueIds(AddItem(items, product))
  {
    if !HasId(items, product.id) {
      var r := AddItem(items, product);
      forall i, j | 0 <= i < j < |r| ensures r[i].Id() != r[j].Id() {
        if j == |items| {
          assert r[i] == items[i];
        }
      }
    }
  }

  /** After adding, the product is in the cart. */
  lemma AddMakesPresent(items: seq<CartItem>, product: Product)
    ensures HasId(AddItem(items, product), product.id)
  {
    var r := AddItem(items, product);
    if HasId(items, product.id) {
      var i :| 0 <= i < |items| && items[i].Id() == product.id;
      assert r[i].Id() == product.id;
    } else {
      assert r[|items|].Id() == product.id;
    }
  }

  // ----- updateQuantity and removeItem -----

  /** The matching line gets exactly `quantity`; length, order and other lines stay. */
  lemma SetQuantityEffect(items: seq<CartItem>, id: int, quantity: int)
    ensures var r := SetQuantity(items, id, quantity);
      && |r| == |items|
      && forall i :: 0 <= i < |items| ==>
           r[i].product == items[i].product
           && r[i].quantity == (if items[i].Id() == id then quantity else items[i].quantity)
  {
  }

  lemma SetQuantityPreservesUnique(items: seq<CartItem>, id: int, quantity: int)
    requires UniqueIds(items)
    ensures UniqueIds(SetQuantity(items, id, quantity))
  {
  }

  /** Membership after `removeItem`: exactly the lines with another id. */
  lemma {:induction false} RemoveIdMembers(items: seq<CartItem>, id: int)
    ensures forall x :: x in RemoveId(items, id) <==> x in items && x.Id() != id
  {
    if items != [] {
      RemoveIdMembers(items[1..], id);
      assert items == [items[0]] + items[1..];
    }
  }

  lemma RemoveIdLeavesNone(items: seq<CartItem>, id: int)
    ensures !HasId(RemoveId(items, id), id)
  {
    RemoveIdMembers(items, id);
    var r := RemoveId(items, id);
    forall i | 0 <= i < |r| ensures r[i].Id() != id {
      assert r[i] in r;
    }
  }

  /** The remaining lines keep their relative order. */
  lemma {:induction false} RemoveIdIsSubsequence(items: seq<CartItem>, id: int)
    ensures IsSubsequence(RemoveId(items, id), items)
  {
    if items != [] {
      RemoveIdIsSubsequence(items[1..], id);
      var rest := RemoveId(items[1..], id);
      var r := RemoveId(items, id);
      if items[0].Id() != id {
        assert r == [items[0]] + rest;
        assert r[0] == items[0] && r[1..] == rest;
      } else {
        assert r == rest;
      }
    }
  }

  /** Removing an id that is not in the cart changes nothing. */
  lemma {:induction false} RemoveAbsentIsNoOp(items: seq<CartItem>, id: int)
    requires !HasId(items, id)
    ensures RemoveId(items, id) == items
  {
    if items != [] {
      assert items[0].Id() != id;
      assert !HasId(items[1..], id) by {
        forall i | 0 <= i < |items[1..]| ensures items[1..][i].Id() != id {
          assert items[1..][i] == items[i + 1];
        }
      }
      RemoveAbsentIsNoOp(items[1..], id);
      assert items == [items[0]] + items[1..];
    }
  }

  lemma {:induction false} RemovePreservesUnique(items: seq<CartItem>, id: int)
    requires UniqueIds(items)
    ensures UniqueIds(RemoveId(items, id))
  {
    if items != [] {
      var tail := items[1..];
      assert UniqueIds(tail) by {
        forall i, j | 0 <= i < j < |tail| ensures tail[i].Id() != tail[j].Id() {
          assert tail[i] == items[i + 1] && tail[j] == items[j + 1];
        }
      }
      RemovePreservesUnique(tail, id);
      var rest := RemoveId(tail, id);
      if items[0].Id() != id {
        RemoveIdMembers(tail, id);
        var r := [items[0]] + rest;
        forall i, j | 0 <= i < j < |r| ensures r[i].Id() != r[j].Id() {
          if i == 0 {
            assert r[j] in rest;
            assert r[j] in tail;
            var k :| 0 <= k < |tail| && tail[k] == r[j];
            assert items[k + 1] == r[j];
          } else {
            assert r[i] == rest[i - 1] && r[j] == rest[j - 1];
          }
        }
      }
    }
  }

  // ----- The folds against their from-scratch values -----

  lemma {:induction false} ItemsCountAppend(a: seq<CartItem>, b: seq<CartItem>)
    ensures ItemsCount(a + b) == ItemsCount(a) + ItemsCount(b)
    decreases |b|
  {
    if b != [] {
      var b' := b[..|b| - 1];
      assert (a + b)[..|a + b| - 1] == a + b';
      ItemsCountAppend(a, b');
    } else {
      assert a + b == a;
    }
  }

  lemma {:induction false} SubtotalAppend(a: seq<CartItem>, b: seq<CartItem>)
    ensures Subtotal(a + b) == Subtotal(a) + Subtotal(b)
    decreases |b|
  {
    if b != [] {
      var b' := b[..|b| - 1];
      assert (a + b)[..|a + b| - 1] == a + b';
      SubtotalAppend(a, b');
    } else {
      assert a + b == a;
    }
  }

  /** The left fold unrolled at the front, the shape the per-id lemmas recurse on. */
  lemma FoldsAtFront(items: seq<CartItem>)
    requires items != []
    ensures ItemsCount(items) == items[0].quantity + ItemsCount(items[1..])
    ensures Subtotal(items) == LineTotal(items[0]) + Subtotal(items[1..])
  {
    assert items == [items[0]] + items[1..];
    ItemsCountAppend([items[0]], items[1..]);
    SubtotalAppend([items[0]], items[1..]);
  }

  /** `itemsCount` drops by exactly the removed lines' quantities. */
  lemma {:induction false} RemoveIdCount(items: seq<CartItem>, id: int)
    ensures ItemsCount(RemoveId(items, id)) == ItemsCount(items) - QuantityOf(items, id)
  {
    if items != [] {
      var head := if items[0].Id() == id then [] else [items[0]];
      var rest := RemoveId(items[1..], id);
      RemoveIdCount(items[1..], id);
      FoldsAtFront(items);
      ItemsCountAppend(head, rest);
      assert ItemsCount(head) == (if items[0].Id() == id then 0 else items[0].quantity) by {
        if head != [] { FoldsAtFront(head); }
      }
    }
  }

  /** `subtotal` drops by exactly the removed lines' price × quantity. */
  lemma {:induction false} RemoveIdSubtotal(items: seq<CartItem>, id: int)
    ensures Subtotal(RemoveId(items, id)) == Subtotal(items) - LineTotalOf(items, id)
  {
    if items != [] {
      var head := if items[0].Id() == id then [] else [items[0]];
      var rest := RemoveId(items[1..], id);
      RemoveIdSubtotal(items[1..], id);
      FoldsAtFront(items);
      SubtotalAppend(head, rest);
      assert Subtotal(head) == (if items[0].Id() == id then 0.0 else LineTotal(items[0])) by {
        if head != [] { FoldsAtFront(head); }
      }
    }
  }

  /** Incrementing adds one per matching line to `itemsCount`. */
  lemma {:induction false} IncrementCount(items: seq<CartItem>, id: int)
    ensures ItemsCount(IncrementQuantity(items, id)) == ItemsCount(items) + LinesWith(items, id)
  {
    if items != [] {
      var r := IncrementQuantity(items, id);
      assert r[1..] == IncrementQuantity(items[1..], id);
      assert r[0].quantity == items[0].quantity + (if items[0].Id() == id then 1 else 0);
      IncrementCount(items[1..], id);
      FoldsAtFront(items);
      FoldsAtFront(r);
    }
  }

  lemma IncrementedLineTotal(item: CartItem)
    ensures LineTotal(item.(quantity := item.quantity + 1)) == LineTotal(item) + item.Price()
  {
    var p, q := item.Price(), item.quantity as real;
    assert (item.quantity + 1) as real == q + 1.0;
    assert p * (q + 1.0) == p * q + p;
  }

  /** Incrementing adds the matching lines' prices to `subtotal`. */
  lemma {:induction false} IncrementSubtotal(items: seq<CartItem>, id: int)
    ensures Subtotal(IncrementQuantity(items, id)) == Subtotal(items) + PriceOf(items, id)
  {
    if items != [] {
      var r := IncrementQuantity(items, id);
      assert r[1..] == IncrementQuantity(items[1..], id);
      if items[0].Id() == id {
        IncrementedLineTotal(items[0]);
      } else {
        assert r[0] == items[0];
      }
      IncrementSubtotal(items[1..], id);
      FoldsAtFront(items);
      FoldsAtFront(r);
    }
  }

  /** The matching lines' quantities are replaced by `quantity` in `itemsCount`. */
  lemma {:induction false} SetQuantityCount(items: seq<CartItem>, id: int, quantity: int)
    ensures ItemsCount(SetQuantity(items, id, quantity)) ==
            ItemsCount(items) - QuantityOf(items, id) + quantity * LinesWith(items, id)
  {
    if items != [] {
      var r, rest := SetQuantity(items, id, quantity), SetQuantity(items[1..], id, quantity);
      var hit := items[0].Id() == id;
      var k := LinesWith(items[1..], id);
      assert r[1..] == rest;
      assert ItemsCount(r) == r[0].quantity + ItemsCount(rest) by { FoldsAtFront(r); }
      assert ItemsCount(items) == items[0].quantity + ItemsCount(items[1..]) by { FoldsAtFront(items); }
      SetQuantityCount(items[1..], id, quantity);
      if hit {
        assert LinesWith(items, id) == 1 + k;
        MulSucc(quantity, k);
      }
    }
  }

  lemma MulSucc(q: int, k: int)
    ensures q * (1 + k) == q + q * k
  {
  }

  /** With unique ids, an id present in the cart sits on exactly one line. */
  lemma {:induction false} UniqueLinesWith(items: seq<CartItem>, id: int)
    requires UniqueIds(items)
    ensures LinesWith(items, id) == if HasId(items, id) then 1 else 0
  {
    if items != [] {
      var tail := items[1..];
      assert UniqueIds(tail) by {
        forall i, j | 0 <= i < j < |tail| ensures tail[i].Id() != tail[j].Id() {
          assert tail[i] == items[i + 1] && tail[j] == items[j + 1];
        }
      }
      UniqueLinesWith(tail, id);
      if items[0].Id() == id {
        assert !HasId(tail, id) by {
          forall k | 0 <= k < |tail| ensures tail[k].Id() != id {
            assert tail[k] == items[k + 1];
          }
        }
      } else {
        assert HasId(items, id) == HasId(tail, id) by {
          if HasId(items, id) {
            var k :| 0 <= k < |items| && items[k].Id() == id;
            assert tail[k - 1] == items[k];
          }
          if HasId(tail, id) {
            var k :| 0 <= k < |tail| && tail[k].Id() == id;
            assert items[k + 1] == tail[k];
          }
        }
      }
    }
  }

  /** On a cart with unique ids, `addToCart` always raises `itemsCount` by one. */
  lemma AddItemCount(items: seq<CartItem>, product: Product)
    requires UniqueIds(items)
    ensures ItemsCount(AddItem(items, product)) == ItemsCount(items) + 1
  {
    if HasId(items, product.id) {
      IncrementCount(items, product.id);
      UniqueLinesWith(items, product.id);
    } else {
      ItemsCountAppend(items, [CartItem(product, 1)]);
      assert ItemsCount([CartItem(product, 1)]) == ItemsCount([]) + 1;
    }
  }

  /** A new product adds its price to `subtotal`. */
  lemma AddNewSubtotal(items: seq<CartItem>, product: Product)
    requires !HasId(items, product.id)
    ensures Subtotal(AddItem(items, product)) == Subtotal(items) + product.price
  {
    SubtotalAppend(items, [CartItem(product, 1)]);
    assert Subtotal([CartItem(product, 1)]) == Subtotal([]) + LineTotal(CartItem(product, 1));
  }

  /** Adding P1, P2, P1 (P1 and P2 distinct ids) gives two lines, P1's with quantity 2. */
  lemma AddSequenceExample(p1: Product, p2: Product)
    requires p1.id != p2.id
    ensures var c := AddItem(AddItem(AddItem([], p1), p2), p1);
      c == [CartItem(p1, 2), CartItem(p2, 1)] && ItemsCount(c) == 3
  {
    var c1 := AddItem([], p1);
    AddNew([], p1);
    assert c1 == [CartItem(p1, 1)];
    var c2 := AddItem(c1, p2);
    assert c1[0].Id() == p1.id;
    AddNew(c1, p2);
    assert c2 == [CartItem(p1, 1), CartItem(p2, 1)];
    var c3 := AddItem(c2, p1);
    assert c2[0].Id() == p1.id && c2[1].Id() == p2.id;
    assert c3 == IncrementQuantity(c2, p1.id);
    assert c3[0] == CartItem(p1, 2) && c3[1] == CartItem(p2, 1);
    assert c3 == [CartItem(p1, 2), CartItem(p2, 1)];
    FoldsAtFront(c3);
    FoldsAtFront(c3[1..]);
  }
}
