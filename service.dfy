/** ShoppingCartService as an object: the state it reaches through its
    repositories is held in fields that its methods update in place, and each
    method is proved to leave exactly the state, and return exactly the
    result, that the matching operation of CartStore describes. */
module ShoppingCartService {
  import opened Cart
  import opened CartStore

  class ShoppingCartService {
    /** The user directory (UserService). */
    var users: set<UserId>
    /** The catalog and its stock (ProductService). */
    var products: map<ProductId, Product>
    /** The cart repository, keyed by owner. */
    var carts: map<UserId, Cart>
    /** The next key the database generates. */
    var nextId: nat

    function State(): Store
      reads this
    {
      CartStore.Store(users, products, carts, nextId)
    }

    /** The cart invariants, and every key in use below the next one. */
    ghost predicate Valid()
      reads this
    {
      CartStore.Valid(State()) && KeysBelow(State())
    }

    /** A service over a user directory and a catalog, with no carts yet. */
    constructor (us: set<UserId>, ps: map<ProductId, Product>)
      ensures State() == CartStore.Store(us, ps, map[], 0)
      ensures Valid()
    {
      users, products, carts, nextId := us, ps, map[], 0;
    }

    /** findOrCreateCart. */
    method FindOrCreateCart(uid: UserId) returns (r: Result<Cart>)
      modifies this
      ensures State() == FindOrCreate(old(State()), uid).store
      ensures r == FindOrCreate(old(State()), uid).result
      ensures old(Valid()) ==> Valid()
    {
      ghost var s0' := State();
      assert Valid() ==> CartStore.Valid(FindOrCreate(s0', uid).store) && KeysBelow(FindOrCreate(s0', uid).store) by {
        if Valid() {
          FindOrCreateSpec(s0', uid); FindOrCreateKeys(s0', uid);
        }
      }
      if uid !in users {
        return Err(UserNotFound);
      }
      if uid in carts {
        return Ok(carts[uid]);
      }
      var c := Cart(nextId, [], 0, 0);
      carts := carts[uid := c];
      nextId := nextId + 1;
      return Ok(c);
    }

    /** getCartByUserId. */
    method GetCartByUserId(uid: UserId) returns (r: Result<CartView>)
      modifies this
      ensures State() == GetCart(old(State()), uid).store
      ensures r == GetCart(old(State()), uid).result
      ensures old(Valid()) ==> Valid()
    {
      var found := FindOrCreateCart(uid);
      if found.Err? {
        return Err(found.error);
      }
      return Ok(ToView(uid, found.value));
    }

    /** addProductToCart. */
    method AddProductToCart(uid: UserId, pid: ProductId, q: int) returns (r: Result<CartView>)
      modifies this
      ensures State() == Add(old(State()), uid, pid, q).store
      ensures r == Add(old(State()), uid, pid, q).result
      ensures old(Valid()) ==> Valid()
    {
      ghost var s0 := State();
      var found := FindOrCreateCart(uid);
      if found.Err? {
        return Err(found.error);
      }
      var cart := found.value;
      ghost var s1 := State();
      assert old(Valid()) ==> CartStore.Valid(s1) && KeysBelow(s1);
      assert uid in s1.users && uid in s1.carts && s1.carts[uid] == cart;
      assert Add(s0, uid, pid, q) == AddToCart(s1, uid, cart, pid, q);
      if pid !in products {
        return Err(ProductNotFound);
      }
      var product := products[pid];
      if product.stock < q {
        return Err(NotEnoughStock);
      }
      var lines := cart.lines;
      var next := nextId;
      match FindLine(lines, pid) {
        case Some(i) =>
          lines := lines[i := lines[i].(quantity := lines[i].quantity + q, price := product.price)];
        case None =>
          lines := lines + [Line(nextId, pid, q, product.price)];
          next := nextId + 1;
      }
      assert lines == Added(cart.lines, pid, q, product.price, nextId);
      products := products[pid := product.(stock := product.stock - q)];
      cart := cart.(lines := lines, totalPrice := Total(lines));
      carts := carts[uid := cart];
      nextId := next;
      assert State() == AddToCart(s1, uid, s1.carts[uid], pid, q).store;
      assert old(Valid()) ==> Valid() by {
        if old(Valid()) {
          AddToCartPreserves(s1, uid, pid, q);
          AddToCartKeys(s1, uid, pid, q);
        }
      }
      return Ok(ToView(uid, cart));
    }

    /** updateShoppingCartProductQuantity. */
    method UpdateShoppingCartProductQuantity(uid: UserId, pid: ProductId, q: int) returns (r: Result<CartView>)
      modifies this
      ensures State() == Update(old(State()), uid, pid, q).store
      ensures r == Update(old(State()), uid, pid, q).result
      ensures old(Valid()) ==> Valid()
    {
      ghost var s0 := State();
      var found := FindOrCreateCart(uid);
      if found.Err? {
        return Err(found.error);
      }
      var cart := found.value;
      ghost var s1 := State();
      assert old(Valid()) ==> CartStore.Valid(s1) && KeysBelow(s1);
      assert uid in s1.users && uid in s1.carts && s1.carts[uid] == cart;
      assert Update(s0, uid, pid, q) == UpdateInCart(s1, uid, cart, pid, q);
      var at := FindLine(cart.lines, pid);
      if at.None? {
        return Err(LineNotFound);
      }
      if pid !in products {
        return Err(ProductNotFound);
      }
      var product := products[pid];
      var i := at.value;
      if q <= 0 {
        r := RemoveProductCartShopping(uid, pid);
        return;
      }
      var delta := q - cart.lines[i].quantity;
      if delta > 0 && product.stock < delta {
        return Err(NotEnoughStock);
      }
      if delta > 0 {
        products := products[pid := product.(stock := product.stock - delta)];
      } else {
        products := products[pid := product.(stock := product.stock + Abs(delta))];
      }
      var lines := cart.lines[i := cart.lines[i].(quantity := q)];
      carts := carts[uid := cart.(lines := lines, totalPrice := Total(lines))];
      assert UpdateInCart(s1, uid, cart, pid, q) == GetCart(State(), uid);
      assert State() == UpdateInCart(s1, uid, cart, pid, q).store;
      assert old(Valid()) ==> Valid() by {
        if old(Valid()) {
          UpdateInCartOk(s1, uid, pid, q, i);
          UpdateInCartKeys(s1, uid, pid, q);
        }
      }
      r := GetCartByUserId(uid);
    }

    /** removeProductCartShopping. */
    method RemoveProductCartShopping(uid: UserId, pid: ProductId) returns (r: Result<CartView>)
      modifies this
      ensures State() == Remove(old(State()), uid, pid).store
      ensures r == Remove(old(State()), uid, pid).result
      ensures old(Valid()) ==> Valid()
    {
      ghost var s0 := State();
      var found := FindOrCreateCart(uid);
      if found.Err? {
        return Err(found.error);
      }
      var cart := found.value;
      ghost var s1 := State();
      assert old(Valid()) ==> CartStore.Valid(s1) && KeysBelow(s1);
      assert uid in s1.users && uid in s1.carts && s1.carts[uid] == cart;
      assert Remove(s0, uid, pid) == RemoveFromCart(s1, uid, cart, pid);
      var at := FindLine(cart.lines, pid);
      if at.None? {
        return Err(NotInCart);
      }
      if pid !in products {
        return Err(ProductNotFound);
      }
      var product := products[pid];
      products := products[pid := product.(stock := product.stock + cart.lines[at.value].quantity)];
      var lines := Without(cart.lines, pid);
      carts := carts[uid := cart.(lines := lines, totalPrice := Total(lines))];
      assert RemoveFromCart(s1, uid, cart, pid) == GetCart(State(), uid);
      assert State() == RemoveFromCart(s1, uid, cart, pid).store;
      assert old(Valid()) ==> Valid() by {
        if old(Valid()) {
          RemoveFromCartPreserves(s1, uid, pid);
          RemoveFromCartKeys(s1, uid, pid);
        }
      }
      r := GetCartByUserId(uid);
    }

    /** clearCart: every line's units go back to its product, one line at a
        time, then the cart is emptied. */
    method ClearCart(uid: UserId) returns (r: Result<CartView>)
      modifies this
      ensures State() == Clear(old(State()), uid).store
      ensures r == Clear(old(State()), uid).result
      ensures old(Valid()) ==> Valid()
    {
      var found := FindOrCreateCart(uid);
      if found.Err? {
        return Err(found.error);
      }
      var cart := found.value;
      if |cart.lines| == 0 {
        return Err(AlreadyEmpty);
      }
      ghost var s1 := State();
      assert old(Valid()) ==> CartStore.Valid(s1) && KeysBelow(s1);
      assert uid in s1.users && uid in s1.carts && s1.carts[uid] == cart;
      RestoreLines(cart.lines);
      carts := carts[uid := cart.(lines := [], totalPrice := 0)];
      assert State() == ClearLoaded(s1, uid, cart).store;
      assert old(Valid()) ==> Valid() by {
        if old(Valid()) {
          ClearLoadedPreserves(s1, uid);
        }
      }
      r := GetCartByUserId(uid);
    }

    /** clearCart's loop: each line's units go back to its product, in the
        lines' order, skipping products no longer in the catalog. */
    method RestoreLines(lines: seq<Line>)
      modifies this
      ensures products == RestoreStock(old(products), lines)
      ensures users == old(users) && carts == old(carts) && nextId == old(nextId)
    {
      var i := 0;
      while i < |lines|
        invariant 0 <= i <= |lines|
        invariant products == RestoreStock(old(products), lines[..i])
        invariant users == old(users) && carts == old(carts) && nextId == old(nextId)
      {
        var l := lines[i];
        if l.product in products {
          products := products[l.product := products[l.product].(stock := products[l.product].stock + l.quantity)];
        }
        assert lines[..i + 1][..i] == lines[..i];
        i := i + 1;
      }
      assert lines[..i] == lines;
    }
  }
}
