/** The cart aggregate: its lines, the derived total, the per-product
    quantities a cart holds, and the flattened view returned to callers. */
module Cart {

  type UserId = string
  type ProductId = string
  /** A generated key of a cart or of a cart line. */
  type Id = nat

  datatype Option<T> = None | Some(value: T)

  /** A product of the catalog as the cart sees it: its price (in cents,
      standing for the source's double-precision price) and its stock. */
  datatype Product = Product(price: int, stock: int)

  /** One cart line: the product it references, how many units, and the unit
      price copied from the product at the last add. */
  datatype Line = Line(id: Id, product: ProductId, quantity: int, price: int)

  /** A persisted cart. Its owner is the key under which it is stored. */
  datatype Cart = Cart(id: Id, lines: seq<Line>, totalPrice: int, shippingCost: int)

  /** The two exception classes the service throws. */
  datatype Exception = NotFoundException | BadRequestException

  /** Each error the service raises, with its exception class and message. */
  datatype Error = UserNotFound | ProductNotFound | LineNotFound | NotInCart | NotEnoughStock | AlreadyEmpty
  {
    function Kind(): Exception {
      match this
      case NotEnoughStock | AlreadyEmpty => BadRequestException
      case _ => NotFoundException
    }

    function Message(): string {
      match this
      case UserNotFound => "User not found"
      case ProductNotFound => "Product not found"
      case LineNotFound => "Product Not Found"
      case NotInCart => "Product not found in cart"
      case NotEnoughStock => "Not enough stock available"
      case AlreadyEmpty => "Cart is already empty"
    }
  }

  datatype Result<T> = Ok(value: T) | Err(error: Error)

  function Cost(l: Line): int {
    l.price * l.quantity
  }

  /** The sum of price × quantity over the lines, folded from the left
      starting at 0, as the source's reduce does. */
  function Total(lines: seq<Line>): int {
    if lines == [] then 0 else Total(lines[..|lines| - 1]) + Cost(lines[|lines| - 1])
  }

  /** The units of product p that one line holds. */
  function QuantityOf(l: Line, p: ProductId): int {
    if l.product == p then l.quantity else 0
  }

  /** The units of product p held by all of the lines. */
  function Quantity(lines: seq<Line>, p: ProductId): int {
    if lines == [] then 0 else Quantity(lines[..|lines| - 1], p) + QuantityOf(lines[|lines| - 1], p)
  }

  /** At most one line per product. */
  predicate Unique(lines: seq<Line>) {
    forall i, j :: 0 <= i < j < |lines| ==> lines[i].product != lines[j].product
  }

  /** No line with a quantity of zero or less. */
  predicate Positive(lines: seq<Line>) {
    forall i :: 0 <= i < |lines| ==> lines[i].quantity > 0
  }

  /** Every line's key is below n. */
  predicate IdsBelow(lines: seq<Line>, n: nat) {
    forall l :: l in lines ==> l.id < n
  }

  /** The first line that references product p, as Array.prototype.find
      returns it. */
  function FindLine(lines: seq<Line>, p: ProductId): (r: Option<nat>)
    ensures r.None? <==> forall i :: 0 <= i < |lines| ==> lines[i].product != p
    ensures r.Some? ==> r.value < |lines| && lines[r.value].product == p
    ensures r.Some? ==> forall j :: 0 <= j < r.value ==> lines[j].product != p
  {
    if lines == [] then None
    else if lines[0].product == p then Some(0)
    else match FindLine(lines[1..], p)
      case None => None
      case Some(i) => Some(i + 1)
  }

  /** The lines whose product is not p, in their order (the source's filter). */
  function Without(lines: seq<Line>, p: ProductId): seq<Line> {
    if lines == [] then []
    else (if lines[0].product == p then [] else [lines[0]]) + Without(lines[1..], p)
  }

  /** The lines after adding quantity q of product p at unit price `price`:
      an existing line for p grows by q and takes the new price; otherwise a
      new line with key `freshId` is appended. */
  function Added(lines: seq<Line>, p: ProductId, q: int, price: int, freshId: Id): seq<Line> {
    match FindLine(lines, p)
    case Some(i) => lines[i := lines[i].(quantity := lines[i].quantity + q, price := price)]
    case None => lines + [Line(freshId, p, q, price)]
  }

  // ---------------------------------------------------------------- totals

  lemma {:induction false} TotalConcat(a: seq<Line>, b: seq<Line>)
    ensures Total(a + b) == Total(a) + Total(b)
    decreases |b|
  {
    if b == [] {
      assert a + b == a;
    } else {
      var b' := b[..|b| - 1];
      assert (a + b)[..|a + b| - 1] == a + b';
      TotalConcat(a, b');
    }
  }

  /** Replacing one line changes the total by exactly the difference of the
      two lines' costs. */
  lemma TotalUpdate(s: seq<Line>, i: nat, l: Line)
    requires i < |s|
    ensures Total(s[i := l]) == Total(s) - Cost(s[i]) + Cost(l)
  {
    Split(s, i);
    assert s[i := l] == s[..i] + [l] + s[i + 1..];
    TotalConcat(s[..i] + [s[i]], s[i + 1..]);
    TotalConcat(s[..i], [s[i]]);
    TotalConcat(s[..i] + [l], s[i + 1..]);
    TotalConcat(s[..i], [l]);
    assert [s[i]][..0] == [] && [l][..0] == [];
  }

  // ------------------------------------------------------------ quantities

  lemma {:induction false} QuantityConcat(a: seq<Line>, b: seq<Line>, p: ProductId)
    ensures Quantity(a + b, p) == Quantity(a, p) + Quantity(b, p)
    decreases |b|
  {
    if b == [] {
      assert a + b == a;
    } else {
      var b' := b[..|b| - 1];
      assert (a + b)[..|a + b| - 1] == a + b';
      QuantityConcat(a, b', p);
    }
  }

  lemma QuantitySingle(l: Line, p: ProductId)
    ensures Quantity([l], p) == QuantityOf(l, p)
  {
    assert [l][..0] == [];
  }

  /** Replacing one line changes the units of p by what the two lines hold of p. */
  lemma QuantityUpdate(s: seq<Line>, i: nat, l: Line, p: ProductId)
    requires i < |s|
    ensures Quantity(s[i := l], p) == Quantity(s, p) - QuantityOf(s[i], p) + QuantityOf(l, p)
  {
    Split(s, i);
    assert s[i := l] == s[..i] + [l] + s[i + 1..];
    QuantityConcat(s[..i] + [s[i]], s[i + 1..], p);
    QuantityConcat(s[..i], [s[i]], p);
    QuantityConcat(s[..i] + [l], s[i + 1..], p);
    QuantityConcat(s[..i], [l], p);
    QuantitySingle(s[i], p);
    QuantitySingle(l, p);
  }

  /** Without p the lines hold no unit of p, and every other product's units
      are untouched. */
  lemma {:induction false} QuantityWithout(s: seq<Line>, q: ProductId, p: ProductId)
    ensures Quantity(Without(s, q), p) == if p == q then 0 else Quantity(s, p)
  {
    if s != [] {
      var head := if s[0].product == q then [] else [s[0]];
      assert s == [s[0]] + s[1..];
      QuantityConcat([s[0]], s[1..], p);
      QuantityConcat(head, Without(s[1..], q), p);
      QuantitySingle(s[0], p);
      QuantityWithout(s[1..], q, p);
    }
  }

  /** With at most one line per product, the cart holds of p exactly the
      quantity of p's line. */
  lemma QuantityUnique(s: seq<Line>, i: nat)
    requires Unique(s) && i < |s|
    ensures Quantity(s, s[i].product) == s[i].quantity
  {
    var p := s[i].product;
    Split(s, i);
    QuantityConcat(s[..i] + [s[i]], s[i + 1..], p);
    QuantityConcat(s[..i], [s[i]], p);
    QuantitySingle(s[i], p);
    QuantityAbsent(s[..i], p);
    QuantityAbsent(s[i + 1..], p);
  }

  lemma QuantityAbsent(s: seq<Line>, p: ProductId)
    requires forall k :: 0 <= k < |s| ==> s[k].product != p
    ensures Quantity(s, p) == 0
  {
    if s != [] {
      QuantityAbsent(s[..|s| - 1], p);
    }
  }

  /** Lines with positive quantities hold no negative amount of any product. */
  lemma {:induction false} QuantityNonNegative(s: seq<Line>, p: ProductId)
    requires Positive(s)
    ensures Quantity(s, p) >= 0
  {
    if s != [] {
      QuantityNonNegative(s[..|s| - 1], p);
    }
  }

  /** Adding q units of p adds q to what the lines hold of p and nothing to
      any other product. */
  lemma QuantityAdded(s: seq<Line>, p: ProductId, q: int, price: int, freshId: Id, r: ProductId)
    ensures Quantity(Added(s, p, q, price, freshId), r) == Quantity(s, r) + (if r == p then q else 0)
  {
    match FindLine(s, p)
    case Some(i) =>
      QuantityUpdate(s, i, s[i].(quantity := s[i].quantity + q, price := price), r);
    case None =>
      QuantityConcat(s, [Line(freshId, p, q, price)], r);
      QuantitySingle(Line(freshId, p, q, price), r);
  }

  lemma PositiveAdded(s: seq<Line>, p: ProductId, q: int, price: int, freshId: Id)
    requires Positive(s) && q > 0
    ensures Positive(Added(s, p, q, price, freshId))
  {
  }

  lemma PositiveWithout(s: seq<Line>, p: ProductId)
    requires Positive(s)
    ensures Positive(Without(s, p))
  {
    var r := Without(s, p);
    WithoutMembers(s, p);
    forall k | 0 <= k < |r| ensures r[k].quantity > 0 {
      assert r[k] in s;
    }
  }

  // ------------------------------------------------------ one line per product

  lemma UniqueAdded(s: seq<Line>, p: ProductId, q: int, price: int, freshId: Id)
    requires Unique(s)
    ensures Unique(Added(s, p, q, price, freshId))
  {
  }

  /** Filtering keeps exactly the lines of other products. */
  lemma {:induction false} WithoutMembers(s: seq<Line>, p: ProductId)
    ensures forall l :: l in Without(s, p) <==> l in s && l.product != p
  {
    if s != [] {
      WithoutMembers(s[1..], p);
      assert s == [s[0]] + s[1..];
    }
  }

  lemma {:induction false} UniqueWithout(s: seq<Line>, p: ProductId)
    requires Unique(s)
    ensures Unique(Without(s, p))
  {
    if s != [] {
      var rest := Without(s[1..], p);
      assert Unique(s[1..]);
      WithoutMembers(s[1..], p);
      UniqueWithout(s[1..], p);
      if s[0].product != p {
        forall j | 0 <= j < |rest| ensures rest[j].product != s[0].product {
          assert rest[j] in s[1..];
        }
        assert Without(s, p) == [s[0]] + rest;
      }
    }
  }

  lemma {:induction false} WithoutAbsent(s: seq<Line>, p: ProductId)
    requires forall k :: 0 <= k < |s| ==> s[k].product != p
    ensures Without(s, p) == s
  {
    if s != [] {
      WithoutAbsent(s[1..], p);
      assert s == [s[0]] + s[1..];
    }
  }

  /** Filtering distributes over concatenation: it keeps the other lines in
      their order. */
  lemma {:induction false} WithoutConcat(a: seq<Line>, b: seq<Line>, p: ProductId)
    ensures Without(a + b, p) == Without(a, p) + Without(b, p)
  {
    if a != [] {
      assert (a + b)[0] == a[0] && (a + b)[1..] == a[1..] + b;
      WithoutConcat(a[1..], b, p);
    } else {
      assert a + b == b;
    }
  }

  /** Dropping line i of a cart with one line per product: the product's
      units go to zero, every other product keeps its units, and the
      remaining lines are lines of the cart, one per product, still positive
      when they were. */
  lemma RemovedLines(s: seq<Line>, i: nat)
    requires Unique(s) && i < |s|
    ensures var p, w := s[i].product, Without(s, s[i].product);
      && Unique(w)
      && Quantity(s, p) == s[i].quantity && Quantity(w, p) == 0
      && (forall r :: r != p ==> Quantity(w, r) == Quantity(s, r))
      && (forall k :: 0 <= k < |w| ==> w[k] in s)
      && (Positive(s) ==> Positive(w))
  {
    var p, w := s[i].product, Without(s, s[i].product);
    UniqueWithout(s, p);
    QuantityUnique(s, i);
    forall r ensures Quantity(w, r) == if r == p then 0 else Quantity(s, r) {
      QuantityWithout(s, p, r);
    }
    WithoutMembers(s, p);
    if Positive(s) {
      PositiveWithout(s, p);
    }
  }

  /** Adding to the lines: p's units grow by q, every other product keeps
      its units, and the lines stay one per product. */
  lemma AddedLines(s: seq<Line>, p: ProductId, q: int, price: int, freshId: Id)
    requires Unique(s)
    ensures var a := Added(s, p, q, price, freshId);
      && Unique(a)
      && Quantity(a, p) == Quantity(s, p) + q
      && (forall r :: r != p ==> Quantity(a, r) == Quantity(s, r))
  {
    QuantityAdded(s, p, q, price, freshId, p);
    forall r | r != p ensures Quantity(Added(s, p, q, price, freshId), r) == Quantity(s, r) {
      QuantityAdded(s, p, q, price, freshId, r);
    }
  }

  /** An add keeps every line key below the next key: a grown line keeps
      its key, and an appended line takes freshId, after which the next key
      is freshId + 1. */
  lemma IdsAdded(s: seq<Line>, p: ProductId, q: int, price: int, freshId: Id)
    requires IdsBelow(s, freshId)
    ensures IdsBelow(Added(s, p, q, price, freshId), if FindLine(s, p).Some? then freshId else freshId + 1)
  {
    match FindLine(s, p)
    case Some(i) =>
      forall l | l in Added(s, p, q, price, freshId) ensures l.id < freshId {
        var k :| 0 <= k < |s| && Added(s, p, q, price, freshId)[k] == l;
        assert s[k] in s;
      }
    case None =>
  }

  /** Filtering keeps every line key below the bound. */
  lemma IdsWithout(s: seq<Line>, p: ProductId, n: nat)
    requires IdsBelow(s, n)
    ensures IdsBelow(Without(s, p), n)
  {
    WithoutMembers(s, p);
  }

  /** Setting a line's quantity keeps every line key below the bound. */
  lemma IdsUpdated(s: seq<Line>, i: nat, q: int, n: nat)
    requires IdsBelow(s, n) && i < |s|
    ensures IdsBelow(s[i := s[i].(quantity := q)], n)
  {
    forall l | l in s[i := s[i].(quantity := q)] ensures l.id < n {
      var k :| 0 <= k < |s| && s[i := s[i].(quantity := q)][k] == l;
      assert s[k] in s;
    }
  }

  /** Setting line i's quantity to q: its product's units become q, every
      other product keeps its units. */
  lemma UpdatedLines(s: seq<Line>, i: nat, q: int)
    requires Unique(s) && i < |s|
    ensures var u := s[i := s[i].(quantity := q)];
      && Unique(u)
      && Quantity(u, s[i].product) == Quantity(s, s[i].product) - s[i].quantity + q
      && (forall r :: r != s[i].product ==> Quantity(u, r) == Quantity(s, r))
      && (Positive(s) && q > 0 ==> Positive(u) && s[i].quantity > 0)
  {
    var l := s[i].(quantity := q);
    QuantityUpdate(s, i, l, s[i].product);
    forall r | r != s[i].product ensures Quantity(s[i := l], r) == Quantity(s, r) {
      QuantityUpdate(s, i, l, r);
    }
  }

  /** A line appended for a product the others do not hold is the one found
      for that product, and filtering that product out drops just it. */
  lemma {:induction false} WithoutLast(s: seq<Line>, l: Line)
    requires forall k :: 0 <= k < |s| ==> s[k].product != l.product
    ensures FindLine(s + [l], l.product) == Some(|s|)
    ensures Without(s + [l], l.product) == s
  {
    if s == [] {
      assert s + [l] == [l];
    } else {
      assert (s + [l])[0] == s[0] && (s + [l])[1..] == s[1..] + [l];
      WithoutLast(s[1..], l);
      assert s == [s[0]] + s[1..];
    }
  }

  /** With one line per product, removing p drops exactly p's line i: the
      lines before and after it stay, in order, and the total loses its cost. */
  lemma WithoutUnique(s: seq<Line>, i: nat)
    requires Unique(s) && i < |s|
    ensures Without(s, s[i].product) == s[..i] + s[i + 1..]
    ensures Total(Without(s, s[i].product)) == Total(s) - Cost(s[i])
  {
    var p, pre, post := s[i].product, s[..i], s[i + 1..];
    Split(s, i);
    forall k | 0 <= k < |pre| ensures pre[k].product != p {
      assert pre[k] == s[k];
    }
    forall k | 0 <= k < |post| ensures post[k].product != p {
      assert post[k] == s[i + 1 + k];
    }
    WithoutAbsent(pre, p);
    WithoutAbsent(post, p);
    WithoutConcat(pre + [s[i]], post, p);
    WithoutConcat(pre, [s[i]], p);
    assert Without([s[i]], p) == [];
    assert pre + [] == pre;
    TotalSplit(pre, s[i], post);
    TotalConcat(pre, post);
  }

  /** A sequence is the part before index i, the element at i, and the part
      after it. */
  lemma Split<A>(s: seq<A>, i: nat)
    requires i < |s|
    ensures s == (s[..i] + [s[i]]) + s[i + 1..]
  {
    assert s[i..] == [s[i]] + s[i + 1..];
    assert s == s[..i] + s[i..];
  }

  lemma TotalSplit(pre: seq<Line>, l: Line, post: seq<Line>)
    ensures Total((pre + [l]) + post) == Total(pre) + Cost(l) + Total(post)
  {
    TotalConcat(pre + [l], post);
    TotalConcat(pre, [l]);
    assert [l][..0] == [];
  }

  // ------------------------------------------------------------- the view

  datatype LineView = LineView(id: Id, cartId: Id, productId: ProductId, quantity: int, price: int)

  /** The flattened cart the service returns. */
  datatype CartView = CartView(id: Id, uid: UserId, cartProducts: seq<LineView>, totalPrice: int, shippingCost: int)

  function ToView(uid: UserId, c: Cart): CartView {
    CartView(c.id, uid, LineViews(c.id, c.lines), c.totalPrice, c.shippingCost)
  }

  /** The source's map over the lines: each line with its cart's id. */
  function LineViews(cartId: Id, lines: seq<Line>): seq<LineView> {
    if lines == [] then []
    else [LineView(lines[0].id, cartId, lines[0].product, lines[0].quantity, lines[0].price)]
         + LineViews(cartId, lines[1..])
  }

  /** The cart a view describes. */
  function FromView(v: CartView): Cart {
    Cart(v.id, LinesOf(v.cartProducts), v.totalPrice, v.shippingCost)
  }

  function LinesOf(views: seq<LineView>): seq<Line> {
    if views == [] then []
    else [Line(views[0].id, views[0].productId, views[0].quantity, views[0].price)] + LinesOf(views[1..])
  }

  lemma {:induction false} LinesRoundTrip(cartId: Id, lines: seq<Line>)
    ensures LinesOf(LineViews(cartId, lines)) == lines
    ensures forall lv :: lv in LineViews(cartId, lines) ==> lv.cartId == cartId
  {
    if lines != [] {
      LinesRoundTrip(cartId, lines[1..]);
      assert LineViews(cartId, lines)[1..] == LineViews(cartId, lines[1..]);
      assert lines == [lines[0]] + lines[1..];
    }
  }

  /** The view loses nothing of the cart, names its owner, and tags every
      line with the cart's id. */
  lemma ViewRoundTrip(uid: UserId, c: Cart)
    ensures FromView(ToView(uid, c)) == c
    ensures ToView(uid, c).uid == uid
    ensures forall lv :: lv in ToView(uid, c).cartProducts ==> lv.cartId == c.id
  {
    LinesRoundTrip(c.id, c.lines);
  }
}
