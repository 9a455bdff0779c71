/** The state the shopping-cart service reads and writes (the user directory,
    the product stock ledger and the cart repository), each service operation
    as a function from one state to the next, and what those operations keep:
    the cart invariants and the conservation of stock. */
module CartStore {
  import opened Cart

  /** Users that exist, the products of the catalog, and the cart saved for
      each user. `nextId` stands for the keys the database generates. */
  datatype Store = Store(users: set<UserId>, products: map<ProductId, Product>,
                         carts: map<UserId, Cart>, nextId: nat)

  /** The state after an operation, and what it returned or threw. A failed
      operation can still have changed the state: the cart that
      findOrCreateCart creates is saved before anything else is checked. */
  datatype Outcome<T> = Outcome(store: Store, result: Result<T>)

  function Abs(x: int): nat {
    if x < 0 then -x else x
  }

  // ------------------------------------------------------------ operations

  /** findOrCreateCart: the user must exist; a user without a cart gets a new,
      saved, empty one. */
  function FindOrCreate(s: Store, uid: UserId): Outcome<Cart> {
    if uid !in s.users then Outcome(s, Err(UserNotFound))
    else if uid in s.carts then Outcome(s, Ok(s.carts[uid]))
    else
      var c := Cart(s.nextId, [], 0, 0);
      Outcome(s.(carts := s.carts[uid := c], nextId := s.nextId + 1), Ok(c))
  }

  /** getCartByUserId. */
  function GetCart(s: Store, uid: UserId): Outcome<CartView> {
    var o := FindOrCreate(s, uid);
    if o.result.Err? then Outcome(o.store, Err(o.result.error))
    else Outcome(o.store, Ok(ToView(uid, o.result.value)))
  }

  /** addProductToCart. */
  function Add(s: Store, uid: UserId, pid: ProductId, q: int): Outcome<CartView> {
    var o := FindOrCreate(s, uid);
    if o.result.Err? then Outcome(o.store, Err(o.result.error))
    else AddToCart(o.store, uid, o.result.value, pid, q)
  }

  /** addProductToCart once the user's cart is loaded. */
  function AddToCart(s: Store, uid: UserId, cart: Cart, pid: ProductId, q: int): Outcome<CartView> {
    if pid !in s.products then Outcome(s, Err(ProductNotFound))
    else
      var product := s.products[pid];
      if product.stock < q then Outcome(s, Err(NotEnoughStock))
      else
        var lines := Added(cart.lines, pid, q, product.price, s.nextId);
        var next := if FindLine(cart.lines, pid).Some? then s.nextId else s.nextId + 1;
        var c := cart.(lines := lines, totalPrice := Total(lines));
        var t := s.(products := s.products[pid := product.(stock := product.stock - q)],
                    carts := s.carts[uid := c], nextId := next);
        Outcome(t, Ok(ToView(uid, c)))
  }

  /** updateShoppingCartProductQuantity. */
  function Update(s: Store, uid: UserId, pid: ProductId, q: int): Outcome<CartView> {
    var o := FindOrCreate(s, uid);
    if o.result.Err? then Outcome(o.store, Err(o.result.error))
    else UpdateInCart(o.store, uid, o.result.value, pid, q)
  }

  /** updateShoppingCartProductQuantity once the user's cart is loaded. */
  function UpdateInCart(s: Store, uid: UserId, cart: Cart, pid: ProductId, q: int): Outcome<CartView> {
    match FindLine(cart.lines, pid)
    case None => Outcome(s, Err(LineNotFound))
    case Some(i) =>
      if pid !in s.products then Outcome(s, Err(ProductNotFound))
      else if q <= 0 then Remove(s, uid, pid)
      else
        var product := s.products[pid];
        var delta := q - cart.lines[i].quantity;
        if delta > 0 && product.stock < delta then
          Outcome(s, Err(NotEnoughStock))
        else
          var stock := if delta > 0 then product.stock - delta else product.stock + Abs(delta);
          var lines := cart.lines[i := cart.lines[i].(quantity := q)];
          var t := s.(products := s.products[pid := product.(stock := stock)],
                      carts := s.carts[uid := cart.(lines := lines, totalPrice := Total(lines))]);
          GetCart(t, uid)
  }

  /** removeProductCartShopping. */
  function Remove(s: Store, uid: UserId, pid: ProductId): Outcome<CartView> {
    var o := FindOrCreate(s, uid);
    if o.result.Err? then Outcome(o.store, Err(o.result.error))
    else RemoveFromCart(o.store, uid, o.result.value, pid)
  }

  /** removeProductCartShopping once the user's cart is loaded. */
  function RemoveFromCart(s: Store, uid: UserId, cart: Cart, pid: ProductId): Outcome<CartView> {
    match FindLine(cart.lines, pid)
    case None => Outcome(s, Err(NotInCart))
    case Some(i) =>
      if pid !in s.products then Outcome(s, Err(ProductNotFound))
      else
        var product := s.products[pid];
        var lines := Without(cart.lines, pid);
        var t := s.(products := s.products[pid := product.(stock := product.stock + cart.lines[i].quantity)],
                    carts := s.carts[uid := cart.(lines := lines, totalPrice := Total(lines))]);
        GetCart(t, uid)
  }

  /** clearCart. */
  function Clear(s: Store, uid: UserId): Outcome<CartView> {
    var o := FindOrCreate(s, uid);
    if o.result.Err? then Outcome(o.store, Err(o.result.error))
    else ClearLoaded(o.store, uid, o.result.value)
  }

  /** clearCart once the user's cart is loaded. */
  function ClearLoaded(s: Store, uid: UserId, cart: Cart): Outcome<CartView> {
    if |cart.lines| == 0 then Outcome(s, Err(AlreadyEmpty))
    else
      var t := s.(products := RestoreStock(s.products, cart.lines),
                  carts := s.carts[uid := cart.(lines := [], totalPrice := 0)]);
      GetCart(t, uid)
  }

  /** One step of clearCart's loop: a line's units go back to its product,
      unless the product is no longer in the catalog. */
  function Restock(ps: map<ProductId, Product>, l: Line): map<ProductId, Product> {
    if l.product in ps then ps[l.product := ps[l.product].(stock := ps[l.product].stock + l.quantity)]
    else ps
  }

  /** clearCart's loop over the lines, in their order. */
  function RestoreStock(ps: map<ProductId, Product>, lines: seq<Line>): map<ProductId, Product> {
    if lines == [] then ps
    else Restock(RestoreStock(ps, lines[..|lines| - 1]), lines[|lines| - 1])
  }

  // ------------------------------------------------------------ invariants

  /** One line per product and a total equal to Σ price × quantity. A line
      may reference a product the catalog no longer holds: update and remove
      then fail with NotFound, and clear skips its stock. */
  predicate CartOk(c: Cart) {
    && Unique(c.lines)
    && c.totalPrice == Total(c.lines)
  }

  /** Every cart belongs to an existing user and is well formed. */
  predicate Valid(s: Store) {
    forall u :: u in s.carts ==> u in s.users && CartOk(s.carts[u])
  }

  predicate AllPositive(s: Store) {
    forall u :: u in s.carts ==> Positive(s.carts[u].lines)
  }

  predicate StockNonNegative(s: Store) {
    forall p :: p in s.products ==> s.products[p].stock >= 0
  }

  /** The units of product p held by all carts together. */
  ghost function Held(carts: map<UserId, Cart>, p: ProductId): int
    decreases |carts|
  {
    if carts == map[] then 0
    else
      var u :| u in carts;
      assert |carts - {u}| < |carts| by {
        assert carts.Keys == (carts - {u}).Keys + {u};
      }
      Quantity(carts[u].lines, p) + Held(carts - {u}, p)
  }

  /** What the stock ledger owes product p: its stock plus what the carts hold. */
  ghost function Ledger(s: Store, p: ProductId): int
    requires p in s.products
  {
    s.products[p].stock + Held(s.carts, p)
  }

  /** Stock plus the units in all carts is the same before and after, for
      every product of the catalog. */
  ghost predicate Conserved(s: Store, t: Store) {
    && s.products.Keys == t.products.Keys
    && forall p :: p in s.products ==> p in t.products && Ledger(t, p) == Ledger(s, p)
  }

  /** The same users, the same products at the same prices. */
  predicate SameCatalog(s: Store, t: Store) {
    && s.users == t.users
    && s.products.Keys == t.products.Keys
    && forall p :: p in s.products ==> t.products[p].price == s.products[p].price
  }

  /** No cart other than uid's appears, disappears or changes. */
  ghost predicate OthersUnchanged(s: Store, t: Store, uid: UserId) {
    forall u :: u != uid ==> (u in t.carts <==> u in s.carts) && (u in s.carts ==> t.carts[u] == s.carts[u])
  }

  /** What every operation keeps: a valid store, conserved stock, the same
      catalog, and every other user's cart as it was. */
  ghost predicate Keeps(s: Store, t: Store, uid: UserId) {
    Valid(t) && Conserved(s, t) && SameCatalog(s, t) && OthersUnchanged(s, t, uid)
  }

  lemma KeepsTrans(s: Store, t: Store, r: Store, uid: UserId)
    requires Keeps(s, t, uid) && Keeps(t, r, uid)
    ensures Keeps(s, r, uid)
  {
  }

  // ------------------------------------------------------- the sum of carts

  lemma {:induction false} HeldPick(m: map<UserId, Cart>, u: UserId, p: ProductId)
    requires u in m
    ensures Held(m, p) == Quantity(m[u].lines, p) + Held(m - {u}, p)
    decreases |m|
  {
    var v :| v in m && Held(m, p) == Quantity(m[v].lines, p) + Held(m - {v}, p);
    if v != u {
      assert m.Keys == (m - {v}).Keys + {v};
      assert m.Keys == (m - {u}).Keys + {u};
      HeldPick(m - {v}, u, p);
      HeldPick(m - {u}, v, p);
      assert m - {v} - {u} == m - {u} - {v};
    }
  }

  /** Putting cart c under key u: all carts together hold what they held
      without u's old cart, plus what c holds. */
  lemma HeldReplace(m: map<UserId, Cart>, u: UserId, c: Cart, p: ProductId)
    ensures Held(m[u := c], p) == Held(m - {u}, p) + Quantity(c.lines, p)
    ensures u in m ==> Held(m, p) == Held(m - {u}, p) + Quantity(m[u].lines, p)
    ensures u !in m ==> Held(m - {u}, p) == Held(m, p)
  {
    HeldPick(m[u := c], u, p);
    assert m[u := c] - {u} == m - {u};
    if u in m {
      HeldPick(m, u, p);
    } else {
      assert m - {u} == m;
    }
  }

  /** Replacing uid's cart and the stock map so that, product by product,
      stock plus the cart's units stay the same keeps the store valid and the
      stock conserved. */
  lemma ReplaceCart(s: Store, uid: UserId, c: Cart, ps: map<ProductId, Product>, next: nat)
    requires Valid(s) && uid in s.carts
    requires ps.Keys == s.products.Keys
    requires forall p :: p in ps ==> ps[p].price == s.products[p].price
    requires CartOk(c)
    requires forall p :: p in ps ==>
      ps[p].stock + Quantity(c.lines, p) == s.products[p].stock + Quantity(s.carts[uid].lines, p)
    ensures var t := s.(products := ps, carts := s.carts[uid := c], nextId := next);
      && Keeps(s, t, uid)
      && (AllPositive(s) && Positive(c.lines) ==> AllPositive(t))
      && ((forall p :: p in ps ==> ps[p].stock >= 0) ==> StockNonNegative(t))
  {
    var t := s.(products := ps, carts := s.carts[uid := c], nextId := next);
    forall p | p in s.products ensures p in t.products && Ledger(t, p) == Ledger(s, p) {
      HeldReplace(s.carts, uid, c, p);
    }
  }

  /** t differs from s only in product pid, which is now `product`, and in
      uid's cart, which is now c. */
  ghost predicate Edits(s: Store, t: Store, uid: UserId, pid: ProductId, product: Product, c: Cart) {
    && t.users == s.users
    && t.products.Keys == s.products.Keys
    && pid in t.products && t.products[pid] == product
    && (forall p :: p in s.products && p != pid ==> t.products[p] == s.products[p])
    && uid in t.carts && t.carts[uid] == c
    && OthersUnchanged(s, t, uid)
  }

  /** ReplaceCart for the three edits of one product's line: only that
      product's stock moves, and by exactly what its line loses or gains. */
  lemma ReplaceLines(s: Store, t: Store, uid: UserId, pid: ProductId, lines: seq<Line>, stock: int)
    requires Valid(s) && uid in s.carts && pid in s.products
    requires Edits(s, t, uid, pid, s.products[pid].(stock := stock),
                   s.carts[uid].(lines := lines, totalPrice := Total(lines)))
    requires Unique(lines)
    requires forall r :: r != pid ==> Quantity(lines, r) == Quantity(s.carts[uid].lines, r)
    requires stock + Quantity(lines, pid) == s.products[pid].stock + Quantity(s.carts[uid].lines, pid)
    ensures Keeps(s, t, uid)
    ensures AllPositive(s) && Positive(lines) ==> AllPositive(t)
    ensures StockNonNegative(s) && stock >= 0 ==> StockNonNegative(t)
  {
    var c := s.carts[uid].(lines := lines, totalPrice := Total(lines));
    var ps := s.products[pid := s.products[pid].(stock := stock)];
    assert t.products == ps;
    assert t.carts == s.carts[uid := c];
    assert t == s.(products := ps, carts := s.carts[uid := c], nextId := t.nextId);
    ReplaceCart(s, uid, c, ps, t.nextId);
  }

  // -------------------------------------------------------- find or create

  /** A missing user is NotFound and nothing changes; an existing cart is
      returned unchanged; otherwise a new cart with no lines, total 0 and
      shipping 0 is created under the key nextId, which is fresh while
      KeysBelow holds (NextKeyFresh), and saved. Either way the
      store stays valid and no stock moves. */
  lemma FindOrCreateSpec(s: Store, uid: UserId)
    requires Valid(s)
    ensures var o := FindOrCreate(s, uid);
      && (uid !in s.users ==> o == Outcome(s, Err(UserNotFound)))
      && (uid in s.users && uid in s.carts ==> o == Outcome(s, Ok(s.carts[uid])))
      && (uid in s.users && uid !in s.carts ==>
            o.result.Ok? && o.result.value.lines == [] && o.result.value.totalPrice == 0
            && o.result.value.shippingCost == 0 && o.result.value.id == s.nextId)
      && (o.result.Ok? ==> uid in o.store.users && uid in o.store.carts && o.store.carts[uid] == o.result.value)
      && o.store.products == s.products
      && Keeps(s, o.store, uid)
      && (AllPositive(s) ==> AllPositive(o.store))
  {
    var o := FindOrCreate(s, uid);
    if uid in s.users && uid !in s.carts {
      forall p | p in s.products ensures Ledger(o.store, p) == Ledger(s, p) {
        HeldReplace(s.carts, uid, o.result.value, p);
      }
    }
  }

  /** Every operation checks the user first: an unknown user is NotFound,
      whatever else is wrong, and nothing is written. */
  lemma UnknownUser(s: Store, uid: UserId, pid: ProductId, q: int)
    requires uid !in s.users
    ensures GetCart(s, uid) == Outcome(s, Err(UserNotFound))
    ensures Add(s, uid, pid, q) == Outcome(s, Err(UserNotFound))
    ensures Update(s, uid, pid, q) == Outcome(s, Err(UserNotFound))
    ensures Remove(s, uid, pid) == Outcome(s, Err(UserNotFound))
    ensures Clear(s, uid) == Outcome(s, Err(UserNotFound))
  {
  }

  /** Reading a cart twice in a row gives the same view and, after the first
      read, changes nothing. */
  lemma GetCartIdempotent(s: Store, uid: UserId)
    ensures var o := GetCart(s, uid);
      GetCart(o.store, uid) == o
  {
  }

  // ------------------------------------------------------------------- add

  /** Add on a loaded cart: NotFound for an unknown product and BadRequest
      when the stock is short, with nothing written; otherwise exactly q
      units leave the product's stock, which stays at or above zero. */
  lemma AddToCartOutcome(s: Store, uid: UserId, pid: ProductId, q: int)
    requires uid in s.carts
    ensures var o := AddToCart(s, uid, s.carts[uid], pid, q);
      && (pid !in s.products ==> o == Outcome(s, Err(ProductNotFound)))
      && (pid in s.products && s.products[pid].stock < q ==> o == Outcome(s, Err(NotEnoughStock)))
      && (pid in s.products && q <= s.products[pid].stock ==>
            && o.result.Ok?
            && o.store.products == s.products[pid := s.products[pid].(stock := s.products[pid].stock - q)]
            && o.store.products[pid].stock >= 0
            && uid in o.store.carts
            && o.store.carts[uid].totalPrice == Total(o.store.carts[uid].lines)
            && o.result.value == ToView(uid, o.store.carts[uid]))
  {
  }

  /** Adding a product that already has line i: that line grows by q and
      takes the product's current price; no line is added and the others
      stay as they were. */
  lemma AddToExisting(s: Store, uid: UserId, pid: ProductId, q: int, i: nat)
    requires uid in s.carts && Unique(s.carts[uid].lines)
    requires i < |s.carts[uid].lines| && s.carts[uid].lines[i].product == pid
    requires pid in s.products && q <= s.products[pid].stock
    ensures var before, o := s.carts[uid].lines, AddToCart(s, uid, s.carts[uid], pid, q);
      var after := o.store.carts[uid].lines;
      && |after| == |before|
      && after[i] == before[i].(quantity := before[i].quantity + q, price := s.products[pid].price)
      && (forall j :: 0 <= j < |after| && j != i ==> after[j] == before[j])
      && o.store.carts[uid].totalPrice == Total(before) - Cost(before[i]) + Cost(after[i])
      && o.store.nextId == s.nextId
  {
    var before := s.carts[uid].lines;
    assert FindLine(before, pid) == Some(i);
    TotalUpdate(before, i, before[i].(quantity := before[i].quantity + q, price := s.products[pid].price));
  }

  /** Adding a product with no line appends exactly one new line, under the
      key nextId (fresh while KeysBelow holds, NextKeyFresh), and leaves the
      others as they were. */
  lemma AddToNew(s: Store, uid: UserId, pid: ProductId, q: int)
    requires uid in s.carts
    requires forall k :: 0 <= k < |s.carts[uid].lines| ==> s.carts[uid].lines[k].product != pid
    requires pid in s.products && q <= s.products[pid].stock
    ensures var before, o := s.carts[uid].lines, AddToCart(s, uid, s.carts[uid], pid, q);
      && o.store.carts[uid].lines == before + [Line(s.nextId, pid, q, s.products[pid].price)]
      && o.store.carts[uid].totalPrice == Total(before) + s.products[pid].price * q
      && o.store.nextId == s.nextId + 1
  {
    var l := Line(s.nextId, pid, q, s.products[pid].price);
    TotalConcat(s.carts[uid].lines, [l]);
    assert [l][..0] == [];
  }

  /** The store a successful add leaves. */
  lemma AddToCartStore(s: Store, uid: UserId, pid: ProductId, q: int)
    requires uid in s.users && uid in s.carts && pid in s.products && q <= s.products[pid].stock
    ensures var cart, product := s.carts[uid], s.products[pid];
      var lines := Added(cart.lines, pid, q, product.price, s.nextId);
      Edits(s, AddToCart(s, uid, cart, pid, q).store, uid, pid,
            product.(stock := product.stock - q), cart.(lines := lines, totalPrice := Total(lines)))
  {
  }

  lemma AddToCartPreserves(s: Store, uid: UserId, pid: ProductId, q: int)
    requires Valid(s) && uid in s.carts
    ensures var o := AddToCart(s, uid, s.carts[uid], pid, q);
      && Keeps(s, o.store, uid)
      && (StockNonNegative(s) ==> StockNonNegative(o.store))
      && (AllPositive(s) && q > 0 ==> AllPositive(o.store))
  {
    if pid in s.products && s.products[pid].stock >= q {
      var cart, product := s.carts[uid], s.products[pid];
      var lines := Added(cart.lines, pid, q, product.price, s.nextId);
      AddToCartStore(s, uid, pid, q);
      AddedLines(cart.lines, pid, q, product.price, s.nextId);
      if q > 0 && AllPositive(s) {
        PositiveAdded(cart.lines, pid, q, product.price, s.nextId);
      }
      ReplaceLines(s, AddToCart(s, uid, cart, pid, q).store, uid, pid, lines, product.stock - q);
    }
  }

  /** Add keeps the store valid, conserves stock, touches only uid's cart,
      never drives stock below zero, and keeps quantities positive when q is. */
  lemma AddPreserves(s: Store, uid: UserId, pid: ProductId, q: int)
    requires Valid(s)
    ensures var o := Add(s, uid, pid, q);
      && Keeps(s, o.store, uid)
      && (StockNonNegative(s) ==> StockNonNegative(o.store))
      && (AllPositive(s) && q > 0 ==> AllPositive(o.store))
  {
    FindOrCreateSpec(s, uid);
    var o1 := FindOrCreate(s, uid);
    if o1.result.Ok? {
      AddToCartPreserves(o1.store, uid, pid, q);
      KeepsTrans(s, o1.store, Add(s, uid, pid, q).store, uid);
    }
  }

  // ---------------------------------------------------------------- update

  /** Update on a loaded cart fails with NotFound, writing nothing, when the
      product has no line (this is checked first) or is gone from the catalog,
      and with BadRequest, writing nothing, when it would take more than the
      stock holds. With a quantity of zero or less it is remove. */
  lemma UpdateInCartErrors(s: Store, uid: UserId, pid: ProductId, q: int)
    requires uid in s.carts
    ensures var cart, o := s.carts[uid], UpdateInCart(s, uid, s.carts[uid], pid, q);
      && (FindLine(cart.lines, pid).None? ==> o == Outcome(s, Err(LineNotFound)))
      && (FindLine(cart.lines, pid).Some? && pid !in s.products ==> o == Outcome(s, Err(ProductNotFound)))
      && (FindLine(cart.lines, pid).Some? && pid in s.products && q <= 0 ==> o == Remove(s, uid, pid))
      && (FindLine(cart.lines, pid).Some? && pid in s.products && q > 0 ==>
            var delta := q - cart.lines[FindLine(cart.lines, pid).value].quantity;
            (0 < delta && s.products[pid].stock < delta ==> o == Outcome(s, Err(NotEnoughStock))))
  {
  }

  /** A successful update to a positive quantity: the line holds q at its old
      price, the others are untouched, and the product's stock moves by
      exactly the difference, so stock plus the line's quantity is unchanged. */
  lemma UpdateInCartSuccess(s: Store, uid: UserId, pid: ProductId, q: int, i: nat)
    requires uid in s.users && uid in s.carts
    requires FindLine(s.carts[uid].lines, pid) == Some(i) && pid in s.products && q > 0
    requires q - s.carts[uid].lines[i].quantity <= 0 || q - s.carts[uid].lines[i].quantity <= s.products[pid].stock
    ensures var before, o := s.carts[uid].lines, UpdateInCart(s, uid, s.carts[uid], pid, q);
      var delta := q - before[i].quantity;
      && o.result.Ok?
      && o.store.products == s.products[pid := s.products[pid].(stock := s.products[pid].stock - delta)]
      && o.store.products[pid].stock + q == s.products[pid].stock + before[i].quantity
      && o.store.carts[uid].lines == before[i := before[i].(quantity := q)]
      && o.store.carts[uid].totalPrice == Total(before) - Cost(before[i]) + before[i].price * q
      && o.result.value == ToView(uid, o.store.carts[uid])
  {
    var before := s.carts[uid].lines;
    TotalUpdate(before, i, before[i].(quantity := q));
  }

  /** Update with a quantity of zero or less is remove: the same state, and
      the same result except for the message when the product has no line. */
  lemma UpdateNonPositiveIsRemove(s: Store, uid: UserId, pid: ProductId, q: int)
    requires q <= 0
    ensures Update(s, uid, pid, q).store == Remove(s, uid, pid).store
    ensures Remove(s, uid, pid).result != Err(NotInCart) ==> Update(s, uid, pid, q) == Remove(s, uid, pid)
    ensures Remove(s, uid, pid).result == Err(NotInCart) ==> Update(s, uid, pid, q).result == Err(LineNotFound)
  {
  }

  /** The store a successful update to a positive quantity leaves. */
  lemma UpdateInCartStore(s: Store, uid: UserId, pid: ProductId, q: int, i: nat)
    requires uid in s.users && uid in s.carts
    requires FindLine(s.carts[uid].lines, pid) == Some(i) && pid in s.products && q > 0
    requires q - s.carts[uid].lines[i].quantity <= 0 || q - s.carts[uid].lines[i].quantity <= s.products[pid].stock
    ensures var cart, product := s.carts[uid], s.products[pid];
      var delta := q - cart.lines[i].quantity;
      var lines := cart.lines[i := cart.lines[i].(quantity := q)];
      var stock := if delta > 0 then product.stock - delta else product.stock + Abs(delta);
      Edits(s, UpdateInCart(s, uid, cart, pid, q).store, uid, pid,
            product.(stock := stock), cart.(lines := lines, totalPrice := Total(lines)))
  {
  }

  lemma UpdateInCartOk(s: Store, uid: UserId, pid: ProductId, q: int, i: nat)
    requires Valid(s) && uid in s.carts
    requires FindLine(s.carts[uid].lines, pid) == Some(i) && pid in s.products && q > 0
    requires q - s.carts[uid].lines[i].quantity <= 0 || q - s.carts[uid].lines[i].quantity <= s.products[pid].stock
    ensures var o := UpdateInCart(s, uid, s.carts[uid], pid, q);
      && Keeps(s, o.store, uid)
      && (AllPositive(s) ==> AllPositive(o.store))
      && (StockNonNegative(s) ==> StockNonNegative(o.store))
  {
    var cart, product := s.carts[uid], s.products[pid];
    var delta := q - cart.lines[i].quantity;
    var lines := cart.lines[i := cart.lines[i].(quantity := q)];
    var stock := if delta > 0 then product.stock - delta else product.stock + Abs(delta);
    UpdatedLines(cart.lines, i, q);
    assert StockNonNegative(s) ==> stock >= 0;
    UpdateInCartStore(s, uid, pid, q, i);
    ReplaceLines(s, UpdateInCart(s, uid, cart, pid, q).store, uid, pid, lines, stock);
  }

  lemma UpdateInCartPreserves(s: Store, uid: UserId, pid: ProductId, q: int)
    requires Valid(s) && uid in s.carts
    ensures var o := UpdateInCart(s, uid, s.carts[uid], pid, q);
      && Keeps(s, o.store, uid)
      && (AllPositive(s) ==> AllPositive(o.store))
      && (AllPositive(s) && StockNonNegative(s) ==> StockNonNegative(o.store))
  {
    var cart := s.carts[uid];
    var o := UpdateInCart(s, uid, cart, pid, q);
    if FindLine(cart.lines, pid).None? || pid !in s.products {
      assert o.store == s;
    } else if q <= 0 {
      assert o == Remove(s, uid, pid);
      RemovePreserves(s, uid, pid);
    } else {
      var i := FindLine(cart.lines, pid).value;
      var delta := q - cart.lines[i].quantity;
      if delta > 0 && s.products[pid].stock < delta {
        assert o.store == s;
      } else {
        UpdateInCartOk(s, uid, pid, q, i);
      }
    }
  }

  /** Update keeps the store valid, conserves stock in every case, touches
      only uid's cart, never leaves a quantity of zero or less, and never
      drives stock below zero. */
  lemma UpdatePreserves(s: Store, uid: UserId, pid: ProductId, q: int)
    requires Valid(s)
    ensures var o := Update(s, uid, pid, q);
      && Keeps(s, o.store, uid)
      && (AllPositive(s) ==> AllPositive(o.store))
      && (AllPositive(s) && StockNonNegative(s) ==> StockNonNegative(o.store))
  {
    FindOrCreateSpec(s, uid);
    var o1 := FindOrCreate(s, uid);
    if o1.result.Ok? {
      UpdateInCartPreserves(o1.store, uid, pid, q);
      KeepsTrans(s, o1.store, Update(s, uid, pid, q).store, uid);
    }
  }

  // ---------------------------------------------------------------- remove

  /** Remove on a loaded cart: NotFound, writing nothing, when the product has
      no line or is gone from the catalog; otherwise the line's whole quantity
      goes back to stock and exactly that line is dropped, the others kept in
      their order. */
  lemma RemoveFromCartOutcome(s: Store, uid: UserId, pid: ProductId)
    requires uid in s.users && uid in s.carts && Unique(s.carts[uid].lines)
    ensures var cart, o := s.carts[uid], RemoveFromCart(s, uid, s.carts[uid], pid);
      && (FindLine(cart.lines, pid).None? ==> o == Outcome(s, Err(NotInCart)))
      && (FindLine(cart.lines, pid).Some? && pid !in s.products ==> o == Outcome(s, Err(ProductNotFound)))
      && (FindLine(cart.lines, pid).Some? && pid in s.products ==>
            var i := FindLine(cart.lines, pid).value;
            && o.result.Ok?
            && o.store.products == s.products[pid := s.products[pid].(stock := s.products[pid].stock + cart.lines[i].quantity)]
            && o.store.carts[uid].lines == cart.lines[..i] + cart.lines[i + 1..]
            && o.store.carts[uid].totalPrice == Total(cart.lines) - Cost(cart.lines[i])
            && o.result.value == ToView(uid, o.store.carts[uid]))
  {
    var cart := s.carts[uid];
    if FindLine(cart.lines, pid).Some? && pid in s.products {
      var i := FindLine(cart.lines, pid).value;
      var product := s.products[pid];
      var lines := Without(cart.lines, pid);
      var c := cart.(lines := lines, totalPrice := Total(lines));
      var ps := s.products[pid := product.(stock := product.stock + cart.lines[i].quantity)];
      var t := s.(products := ps, carts := s.carts[uid := c]);
      assert RemoveFromCart(s, uid, cart, pid) == GetCart(t, uid);
      assert uid in t.users && uid in t.carts && t.carts[uid] == c;
      assert GetCart(t, uid) == Outcome(t, Ok(ToView(uid, c)));
      WithoutUnique(cart.lines, i);
    }
  }

  /** The store a successful remove leaves. */
  lemma RemoveFromCartStore(s: Store, uid: UserId, pid: ProductId, i: nat)
    requires uid in s.users && uid in s.carts
    requires FindLine(s.carts[uid].lines, pid) == Some(i) && pid in s.products
    ensures var cart, product := s.carts[uid], s.products[pid];
      var lines := Without(cart.lines, pid);
      Edits(s, RemoveFromCart(s, uid, cart, pid).store, uid, pid,
            product.(stock := product.stock + cart.lines[i].quantity),
            cart.(lines := lines, totalPrice := Total(lines)))
  {
  }

  lemma RemoveFromCartPreserves(s: Store, uid: UserId, pid: ProductId)
    requires Valid(s) && uid in s.carts
    ensures var o := RemoveFromCart(s, uid, s.carts[uid], pid);
      && Keeps(s, o.store, uid)
      && (AllPositive(s) ==> AllPositive(o.store))
      && (AllPositive(s) && StockNonNegative(s) ==> StockNonNegative(o.store))
  {
    var cart := s.carts[uid];
    if FindLine(cart.lines, pid).Some? && pid in s.products {
      var i := FindLine(cart.lines, pid).value;
      var product := s.products[pid];
      RemovedLines(cart.lines, i);
      assert AllPositive(s) ==> cart.lines[i].quantity > 0;
      RemoveFromCartStore(s, uid, pid, i);
      ReplaceLines(s, RemoveFromCart(s, uid, cart, pid).store, uid, pid, Without(cart.lines, pid),
                   product.stock + cart.lines[i].quantity);
    }
  }

  /** Remove keeps the store valid, conserves stock, touches only uid's cart,
      and with positive quantities never drives stock below zero. */
  lemma RemovePreserves(s: Store, uid: UserId, pid: ProductId)
    requires Valid(s)
    ensures var o := Remove(s, uid, pid);
      && Keeps(s, o.store, uid)
      && (AllPositive(s) ==> AllPositive(o.store))
      && (AllPositive(s) && StockNonNegative(s) ==> StockNonNegative(o.store))
  {
    FindOrCreateSpec(s, uid);
    var o1 := FindOrCreate(s, uid);
    if o1.result.Ok? {
      RemoveFromCartPreserves(o1.store, uid, pid);
      KeepsTrans(s, o1.store, Remove(s, uid, pid).store, uid);
    }
  }

  // ----------------------------------------------------------------- clear

  /** clearCart's loop gives every catalog product back exactly the units
      the lines held of it, and keeps prices and the catalog's keys. */
  lemma {:induction false} RestoreStockEffect(ps: map<ProductId, Product>, lines: seq<Line>)
    ensures RestoreStock(ps, lines).Keys == ps.Keys
    ensures forall p :: p in ps ==>
      RestoreStock(ps, lines)[p] == ps[p].(stock := ps[p].stock + Quantity(lines, p))
  {
    if lines != [] {
      RestoreStockEffect(ps, lines[..|lines| - 1]);
    }
  }

  /** Clear on a loaded cart: BadRequest, writing nothing, on an empty cart;
      otherwise no lines, total 0, and every product's stock raised by what
      the cart held of it. */
  lemma ClearLoadedOutcome(s: Store, uid: UserId)
    requires uid in s.users && uid in s.carts
    ensures var cart, o := s.carts[uid], ClearLoaded(s, uid, s.carts[uid]);
      && (cart.lines == [] ==> o == Outcome(s, Err(AlreadyEmpty)))
      && (cart.lines != [] ==>
            && o.result.Ok?
            && o.store.carts[uid].lines == [] && o.store.carts[uid].totalPrice == 0
            && o.store.products.Keys == s.products.Keys
            && (forall p :: p in s.products ==>
                  o.store.products[p].stock == s.products[p].stock + Quantity(cart.lines, p))
            && o.result.value == ToView(uid, o.store.carts[uid]))
  {
    RestoreStockEffect(s.products, s.carts[uid].lines);
  }

  lemma ClearLoadedPreserves(s: Store, uid: UserId)
    requires Valid(s) && uid in s.carts
    ensures var o := ClearLoaded(s, uid, s.carts[uid]);
      && Keeps(s, o.store, uid)
      && (AllPositive(s) ==> AllPositive(o.store))
      && (AllPositive(s) && StockNonNegative(s) ==> StockNonNegative(o.store))
  {
    var cart := s.carts[uid];
    if cart.lines != [] {
      var ps := RestoreStock(s.products, cart.lines);
      var c := cart.(lines := [], totalPrice := 0);
      assert ClearLoaded(s, uid, cart).store == s.(products := ps, carts := s.carts[uid := c], nextId := s.nextId);
      RestoreStockEffect(s.products, cart.lines);
      if AllPositive(s) {
        forall p | p in ps ensures ps[p].stock >= s.products[p].stock {
          QuantityNonNegative(cart.lines, p);
        }
      }
      ReplaceCart(s, uid, c, ps, s.nextId);
    }
  }

  /** Clear keeps the store valid, conserves stock, touches only uid's cart,
      and with positive quantities never drives stock below zero. */
  lemma ClearPreserves(s: Store, uid: UserId)
    requires Valid(s)
    ensures var o := Clear(s, uid);
      && Keeps(s, o.store, uid)
      && (AllPositive(s) ==> AllPositive(o.store))
      && (AllPositive(s) && StockNonNegative(s) ==> StockNonNegative(o.store))
  {
    FindOrCreateSpec(s, uid);
    var o1 := FindOrCreate(s, uid);
    if o1.result.Ok? {
      ClearLoadedPreserves(o1.store, uid);
      KeepsTrans(s, o1.store, Clear(s, uid).store, uid);
    }
  }

  // ------------------------------------------------------------------ keys

  /** Every key in use, of a cart or of one of its lines, is below nextId. */
  predicate KeysBelow(s: Store) {
    forall u :: u in s.carts ==> s.carts[u].id < s.nextId && IdsBelow(s.carts[u].lines, s.nextId)
  }

  /** While KeysBelow holds, nextId is the key of no cart and of no line: the
      cart findOrCreateCart creates and the line add appends take fresh keys. */
  lemma NextKeyFresh(s: Store)
    requires KeysBelow(s)
    ensures forall u :: u in s.carts ==>
      s.carts[u].id != s.nextId && forall l :: l in s.carts[u].lines ==> l.id != s.nextId
  {
  }

  lemma FindOrCreateKeys(s: Store, uid: UserId)
    requires KeysBelow(s)
    ensures KeysBelow(FindOrCreate(s, uid).store)
  {
  }

  lemma AddToCartKeys(s: Store, uid: UserId, pid: ProductId, q: int)
    requires KeysBelow(s) && uid in s.carts
    ensures KeysBelow(AddToCart(s, uid, s.carts[uid], pid, q).store)
  {
    if pid in s.products && q <= s.products[pid].stock {
      var cart := s.carts[uid];
      IdsAdded(cart.lines, pid, q, s.products[pid].price, s.nextId);
    }
  }

  /** Add keeps every key below the next one. */
  lemma AddKeys(s: Store, uid: UserId, pid: ProductId, q: int)
    requires KeysBelow(s)
    ensures KeysBelow(Add(s, uid, pid, q).store)
  {
    FindOrCreateKeys(s, uid);
    var o := FindOrCreate(s, uid);
    if o.result.Ok? {
      AddToCartKeys(o.store, uid, pid, q);
    }
  }

  lemma RemoveFromCartKeys(s: Store, uid: UserId, pid: ProductId)
    requires KeysBelow(s) && uid in s.users && uid in s.carts
    ensures KeysBelow(RemoveFromCart(s, uid, s.carts[uid], pid).store)
  {
    IdsWithout(s.carts[uid].lines, pid, s.nextId);
  }

  /** Remove keeps every key below the next one. */
  lemma RemoveKeys(s: Store, uid: UserId, pid: ProductId)
    requires KeysBelow(s)
    ensures KeysBelow(Remove(s, uid, pid).store)
  {
    FindOrCreateKeys(s, uid);
    var o := FindOrCreate(s, uid);
    if o.result.Ok? {
      RemoveFromCartKeys(o.store, uid, pid);
    }
  }

  lemma UpdateInCartKeys(s: Store, uid: UserId, pid: ProductId, q: int)
    requires KeysBelow(s) && uid in s.users && uid in s.carts
    ensures KeysBelow(UpdateInCart(s, uid, s.carts[uid], pid, q).store)
  {
    var cart := s.carts[uid];
    if FindLine(cart.lines, pid).Some? && pid in s.products {
      if q <= 0 {
        RemoveKeys(s, uid, pid);
      } else {
        IdsUpdated(cart.lines, FindLine(cart.lines, pid).value, q, s.nextId);
      }
    }
  }

  /** Update keeps every key below the next one. */
  lemma UpdateKeys(s: Store, uid: UserId, pid: ProductId, q: int)
    requires KeysBelow(s)
    ensures KeysBelow(Update(s, uid, pid, q).store)
  {
    FindOrCreateKeys(s, uid);
    var o := FindOrCreate(s, uid);
    if o.result.Ok? {
      UpdateInCartKeys(o.store, uid, pid, q);
    }
  }

  /** Clear keeps every key below the next one. */
  lemma ClearKeys(s: Store, uid: UserId)
    requires KeysBelow(s)
    ensures KeysBelow(Clear(s, uid).store)
  {
    FindOrCreateKeys(s, uid);
  }

  // ------------------------------------------- a quantity add does not check

  /** Add does not reject a quantity of zero or less. Such an add leaves a
      line with negative units, and removing that line later takes the
      units back out of stock, below zero: the store in this example starts
      valid with stock 0, and after an add of -3 for b, an add of 3 for a and
      the removal of b's line, the product's stock is -3. */
  lemma NonPositiveAddThenRemove()
    ensures var s := Store({"a", "b"}, map["p" := Product(1, 0)],
                           map["a" := Cart(0, [], 0, 0), "b" := Cart(1, [], 0, 0)], 2);
      var t := Remove(Add(Add(s, "b", "p", -3).store, "a", "p", 3).store, "b", "p").store;
      && Valid(s) && StockNonNegative(s) && AllPositive(s) && KeysBelow(s)
      && Valid(t) && "p" in t.products && t.products["p"].stock == -3
  {
    var users := {"a", "b"};
    var a0, b0 := Cart(0, [], 0, 0), Cart(1, [], 0, 0);
    var s := Store(users, map["p" := Product(1, 0)], map["a" := a0, "b" := b0], 2);
    var lb, la := Line(2, "p", -3, 1), Line(3, "p", 3, 1);
    var b1 := b0.(lines := [lb], totalPrice := -3);
    var t1 := Store(users, map["p" := Product(1, 3)], map["a" := a0, "b" := b1], 3);
    AddStep(s, "b", "p", -3, lb, t1);
    var a2 := a0.(lines := [la], totalPrice := 3);
    var t2 := Store(users, map["p" := Product(1, 0)], map["a" := a2, "b" := b1], 4);
    AddStep(t1, "a", "p", 3, la, t2);
    var t := Store(users, map["p" := Product(1, -3)], map["a" := a2, "b" := b0.(lines := [], totalPrice := 0)], 4);
    assert FindLine(b1.lines, "p") == Some(0);
    assert Without(b1.lines, "p") == [];
    assert Remove(t2, "b", "p").store == t;
  }

  /** One add of a product to an empty cart in the example above. */
  lemma AddStep(s: Store, uid: UserId, pid: ProductId, q: int, l: Line, t: Store)
    requires uid in s.users && uid in s.carts && s.carts[uid].lines == [] && pid in s.products
    requires q <= s.products[pid].stock && l == Line(s.nextId, pid, q, s.products[pid].price)
    requires t == s.(products := s.products[pid := s.products[pid].(stock := s.products[pid].stock - q)],
                     carts := s.carts[uid := s.carts[uid].(lines := [l], totalPrice := Cost(l))],
                     nextId := s.nextId + 1)
    ensures Add(s, uid, pid, q).store == t
  {
    assert Total([l]) == Cost(l) by {
      assert [l][..0] == [];
    }
    AddNewStore(s, uid, pid, q);
    assert [] + [l] == [l];
  }

  // ------------------------------------------------------------ round trip

  /** The store Add leaves when the product has no line yet. */
  lemma AddNewStore(s: Store, uid: UserId, pid: ProductId, q: int)
    requires uid in s.users && uid in s.carts
    requires forall k :: 0 <= k < |s.carts[uid].lines| ==> s.carts[uid].lines[k].product != pid
    requires pid in s.products && q <= s.products[pid].stock
    ensures var cart, product := s.carts[uid], s.products[pid];
      var lines := cart.lines + [Line(s.nextId, pid, q, product.price)];
      Add(s, uid, pid, q).store ==
        s.(products := s.products[pid := product.(stock := product.stock - q)],
           carts := s.carts[uid := cart.(lines := lines, totalPrice := Total(lines))],
           nextId := s.nextId + 1)
  {
    assert FindLine(s.carts[uid].lines, pid).None?;
  }

  /** The store Remove leaves when the product's line is line i and
      filtering the product out leaves `rest`. */
  lemma RemoveLineStore(t: Store, uid: UserId, pid: ProductId, i: nat, rest: seq<Line>)
    requires uid in t.users && uid in t.carts && pid in t.products
    requires FindLine(t.carts[uid].lines, pid) == Some(i)
    requires Without(t.carts[uid].lines, pid) == rest
    ensures var product, cart := t.products[pid], t.carts[uid];
      Remove(t, uid, pid).store ==
        t.(products := t.products[pid := product.(stock := product.stock + cart.lines[i].quantity)],
           carts := t.carts[uid := cart.(lines := rest, totalPrice := Total(rest))])
  {
    assert FindOrCreate(t, uid) == Outcome(t, Ok(t.carts[uid]));
  }

  /** Adding a product the cart does not hold and then removing it gives back
      the original stock and cart; only a generated key has been used up. */
  lemma AddThenRemove(s: Store, uid: UserId, pid: ProductId, q: int)
    requires uid in s.users && uid in s.carts
    requires s.carts[uid].totalPrice == Total(s.carts[uid].lines)
    requires forall k :: 0 <= k < |s.carts[uid].lines| ==> s.carts[uid].lines[k].product != pid
    requires pid in s.products && q <= s.products[pid].stock
    ensures Remove(Add(s, uid, pid, q).store, uid, pid).store == s.(nextId := s.nextId + 1)
  {
    var cart, product := s.carts[uid], s.products[pid];
    var l := Line(s.nextId, pid, q, product.price);
    AddNewStore(s, uid, pid, q);
    var t := Add(s, uid, pid, q).store;
    WithoutLast(cart.lines, l);
    RemoveLineStore(t, uid, pid, |cart.lines|, cart.lines);
    var back := t.products[pid].(stock := t.products[pid].stock + t.carts[uid].lines[|cart.lines|].quantity);
    assert back == product;
    assert t.carts[uid].(lines := cart.lines, totalPrice := Total(cart.lines)) == cart;
    assert t.products[pid := product] == s.products;
    assert t.carts[uid := cart] == s.carts;
  }
}
