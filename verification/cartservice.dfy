/**
 * The cart engine (service/cart_service_impl.go). `AddItemCart` folds a
 * requested line into the caller's cart, checking the product and its
 * stock and recomputing the cached total; `GetCart` shows the cart with its
 * lines split into available and unavailable ones. Both create an empty
 * cart for a customer who has none.
 *
 * Both are modelled as written. The merge keeps the matched line AND adds
 * a merged copy of it (there is no `continue` after the match), and
 * `GetCart` returns before it partitions anything (its emptiness check is
 * inverted). The intended behaviours are defined beside them
 * (`NewLinesIntended`, `CartView`) with their properties proved.
 */
module CartServiceImpl {
  import opened Wrappers
  import opened Entity
  import opened Model
  import opened Repository

  // ---------------------------------------------------------------------
  // Merging a requested line into the lines of a cart

  /** The sum of the quantities of `lines`. */
  function SumQty(lines: seq<CartProduct>): int {
    if lines == [] then 0 else SumQty(lines[..|lines| - 1]) + lines[|lines| - 1].qty
  }

  lemma {:induction false} SumQtyAppend(a: seq<CartProduct>, b: seq<CartProduct>)
    ensures SumQty(a + b) == SumQty(a) + SumQty(b)
    decreases |b|
  {
    if b != [] {
      var b' := b[..|b| - 1];
      assert (a + b)[..|a + b| - 1] == a + b';
      SumQtyAppend(a, b');
    } else {
      assert a + b == a;
    }
  }

  /** The cost of `lines` at `price` a unit, added up line by line as the
      merge loop adds it. */
  function PriceSum(lines: seq<CartProduct>, price: int): int {
    if lines == [] then 0 else PriceSum(lines[..|lines| - 1], price) + price * lines[|lines| - 1].qty
  }

  lemma {:induction false} PriceSumAppend(a: seq<CartProduct>, b: seq<CartProduct>, price: int)
    ensures PriceSum(a + b, price) == PriceSum(a, price) + PriceSum(b, price)
    decreases |b|
  {
    if b != [] {
      var b' := b[..|b| - 1];
      assert (a + b)[..|a + b| - 1] == a + b';
      PriceSumAppend(a, b', price);
    } else {
      assert a + b == a;
    }
  }

  /** Adding up line costs is pricing the total quantity. */
  lemma {:induction false} PriceSumQty(lines: seq<CartProduct>, price: int)
    ensures PriceSum(lines, price) == price * SumQty(lines)
    decreases |lines|
  {
    if lines != [] {
      PriceSumQty(lines[..|lines| - 1], price);
      var s, q := SumQty(lines[..|lines| - 1]), lines[|lines| - 1].qty;
      assert price * (s + q) == price * s + price * q;
    }
  }

  /** Some line of `lines` is for product `pid`. */
  predicate Holds(lines: seq<CartProduct>, pid: string) {
    exists i :: 0 <= i < |lines| && lines[i].productId == pid
  }

  /** Some line for product `pid` would exceed the stock once `qty` more
      are added. */
  predicate Overflows(lines: seq<CartProduct>, pid: string, qty: int, stock: int) {
    exists i :: 0 <= i < |lines| && lines[i].productId == pid && lines[i].qty + qty > stock
  }

  /** What one turn of the merge loop appends for the existing line `l`:
      a merged line when it matches, then `l` itself; both with the
      request's notes. */
  function StepAsWritten(l: CartProduct, pid: string, qty: int, notes: string): seq<CartProduct> {
    (if l.productId == pid then [CartProduct(l.productId, l.qty + qty, notes)] else []) + [l.(notes := notes)]
  }

  /** The lines the merge loop builds from `lines`, turn by turn. */
  function MergeAsWritten(lines: seq<CartProduct>, pid: string, qty: int, notes: string): seq<CartProduct> {
    if lines == [] then []
    else MergeAsWritten(lines[..|lines| - 1], pid, qty, notes) + StepAsWritten(lines[|lines| - 1], pid, qty, notes)
  }

  /** The new lines of a non-empty cart as the code builds them: the merge,
      and the requested line at the end when the product was not there. */
  function NewLinesAsWritten(lines: seq<CartProduct>, pid: string, qty: int, notes: string): seq<CartProduct> {
    MergeAsWritten(lines, pid, qty, notes) + (if Holds(lines, pid) then [] else [CartProduct(pid, qty, notes)])
  }

  /** The requested line adds its quantity when the product is new. */
  lemma NewLinesAsWrittenSum(lines: seq<CartProduct>, pid: string, qty: int, notes: string, price: int)
    ensures PriceSum(NewLinesAsWritten(lines, pid, qty, notes), price) ==
      PriceSum(MergeAsWritten(lines, pid, qty, notes), price) + (if Holds(lines, pid) then 0 else price * qty)
  {
    var m := MergeAsWritten(lines, pid, qty, notes);
    if Holds(lines, pid) {
      assert m + [] == m;
    } else {
      assert (m + [CartProduct(pid, qty, notes)])[..|m|] == m;
    }
  }

  /** The merge works line by line: merging two parts one after the other
      gives the two merges one after the other. */
  lemma {:induction false} MergeAsWrittenAppend(a: seq<CartProduct>, b: seq<CartProduct>, pid: string, qty: int, notes: string)
    ensures MergeAsWritten(a + b, pid, qty, notes) == MergeAsWritten(a, pid, qty, notes) + MergeAsWritten(b, pid, qty, notes)
    decreases |b|
  {
    if b == [] {
      assert a + b == a;
    } else {
      var b' := b[..|b| - 1];
      assert (a + b)[..|a + b| - 1] == a + b';
      assert (a + b)[|a + b| - 1] == b[|b| - 1];
      MergeAsWrittenAppend(a, b', pid, qty, notes);
    }
  }

  /** Every old line is kept with its quantity and only its notes changed,
      and a matching line is preceded by its merged copy. */
  lemma MergeAsWrittenOne(l: CartProduct, pid: string, qty: int, notes: string)
    ensures l.productId != pid ==> MergeAsWritten([l], pid, qty, notes) == [l.(notes := notes)]
    ensures l.productId == pid ==>
      MergeAsWritten([l], pid, qty, notes) == [CartProduct(pid, l.qty + qty, notes), l.(notes := notes)]
  {
    assert [l][..0] == [];
  }

  /** With the product absent, the old lines come out unchanged but for
      their notes, and the requested line is appended. */
  lemma {:induction false} NewLinesAsWrittenAbsent(lines: seq<CartProduct>, pid: string, qty: int, notes: string)
    requires !Holds(lines, pid)
    ensures |NewLinesAsWritten(lines, pid, qty, notes)| == |lines| + 1
    ensures forall i :: 0 <= i < |lines| ==> NewLinesAsWritten(lines, pid, qty, notes)[i] == lines[i].(notes := notes)
    ensures NewLinesAsWritten(lines, pid, qty, notes)[|lines|] == CartProduct(pid, qty, notes)
    decreases |lines|
  {
    if lines != [] {
      var init := lines[..|lines| - 1];
      assert !Holds(init, pid) by {
        forall i | 0 <= i < |init| ensures init[i].productId != pid {
          assert init[i] == lines[i];
        }
      }
      NewLinesAsWrittenAbsent(init, pid, qty, notes);
      assert lines[|lines| - 1].productId != pid;
    }
  }

  /** One line under the intended merge: the matching line takes the added
      quantity; every line takes the request's notes. */
  function Merged(l: CartProduct, pid: string, qty: int, notes: string): CartProduct {
    if l.productId == pid then CartProduct(pid, l.qty + qty, notes) else l.(notes := notes)
  }

  /** The intended merge: a matching line is replaced by its merged copy
      instead of being kept beside it. */
  function MergeIntended(lines: seq<CartProduct>, pid: string, qty: int, notes: string): seq<CartProduct> {
    seq(|lines|, i requires 0 <= i < |lines| => Merged(lines[i], pid, qty, notes))
  }

  function NewLinesIntended(lines: seq<CartProduct>, pid: string, qty: int, notes: string): seq<CartProduct> {
    MergeIntended(lines, pid, qty, notes) + (if Holds(lines, pid) then [] else [CartProduct(pid, qty, notes)])
  }

  /** Adding `q1` and then `q2` of a product is the same as adding
      `q1 + q2` at once, under the intended merge. */
  lemma NewLinesIntendedTwice(lines: seq<CartProduct>, pid: string, q1: int, n1: string, q2: int, n2: string)
    ensures NewLinesIntended(NewLinesIntended(lines, pid, q1, n1), pid, q2, n2) == NewLinesIntended(lines, pid, q1 + q2, n2)
  {
    var once := NewLinesIntended(lines, pid, q1, n1);
    assert Holds(once, pid) by {
      if Holds(lines, pid) {
        var i :| 0 <= i < |lines| && lines[i].productId == pid;
        assert once[i] == Merged(lines[i], pid, q1, n1);
      } else {
        assert once[|lines|].productId == pid;
      }
    }
    var twice := NewLinesIntended(once, pid, q2, n2);
    var direct := NewLinesIntended(lines, pid, q1 + q2, n2);
    assert |twice| == |direct|;
    forall i | 0 <= i < |twice| ensures twice[i] == direct[i] {
      if i < |lines| {
        assert once[i] == Merged(lines[i], pid, q1, n1);
      } else {
        assert !Holds(lines, pid);
      }
    }
  }

  /** The counterexample to the code as written: two requests for the same
      product leave two lines for it, and the second line is counted
      again in the total. Adding 3 and then 4 units priced 100 gives lines
      of 7 and 3 units and a total of 1000 instead of one line of 7 and 700. */
  lemma AddTwiceAsWritten(pid: string, notes: string)
    ensures NewLinesAsWritten([CartProduct(pid, 3, notes)], pid, 4, notes) == [CartProduct(pid, 7, notes), CartProduct(pid, 3, notes)]
    ensures 100 * SumQty(NewLinesAsWritten([CartProduct(pid, 3, notes)], pid, 4, notes)) == 1000
    ensures NewLinesIntended([CartProduct(pid, 3, notes)], pid, 4, notes) == [CartProduct(pid, 7, notes)]
    ensures 100 * SumQty(NewLinesIntended([CartProduct(pid, 3, notes)], pid, 4, notes)) == 700
  {
    var one := [CartProduct(pid, 3, notes)];
    assert Holds(one, pid) by { assert one[0].productId == pid; }
    MergeAsWrittenOne(one[0], pid, 4, notes);
    var two := [CartProduct(pid, 7, notes), CartProduct(pid, 3, notes)];
    assert NewLinesAsWritten(one, pid, 4, notes) == two;
    assert two[..1] == [CartProduct(pid, 7, notes)];
    assert [CartProduct(pid, 7, notes)][..0] == [];
    assert SumQty(two[..1]) == 7;
    assert SumQty(two) == 10;
    var merged := NewLinesIntended(one, pid, 4, notes);
    assert merged == [CartProduct(pid, 7, notes)];
    assert merged[..0] == [];
  }

  // ---------------------------------------------------------------------
  // AddItemCart

  /** The decision of `AddItemCart` once the cart exists: the product
      checks in their order, then the new lines and total, or the error. */
  function AddItem(cart: Cart, found: Option<Product>, req: AddItemCartRequest): (r: Result<Cart, Error>)
    ensures found.None? || found.value.deleted ==> r == Err(ProductNotFound)
    ensures found.Some? && !found.value.deleted && !found.value.isActive ==> r == Err(ProductInactive)
    ensures found.Some? && !found.value.deleted && found.value.isActive && found.value.qty < req.qty ==> r == Err(InsufficientQty)
    ensures found.Some? && !found.value.deleted && found.value.isActive && found.value.qty >= req.qty &&
            cart.products != [] && Overflows(cart.products, found.value.id, req.qty, found.value.qty) ==>
      r == Err(InsufficientQty)
    // a request that passes every check is added
    ensures r.Ok? <==>
      found.Some? && !found.value.deleted && found.value.isActive && found.value.qty >= req.qty &&
      (cart.products == [] || !Overflows(cart.products, found.value.id, req.qty, found.value.qty))
    ensures r.Ok? ==> r.value.id == cart.id && r.value.customerId == cart.customerId
    ensures r.Ok? ==> r.value.total == found.value.price * SumQty(r.value.products)
    ensures r.Ok? && cart.products == [] ==>
      r.value.products == [CartProduct(found.value.id, req.qty, req.notes)] && r.value.total == found.value.price * req.qty
    ensures r.Ok? && cart.products != [] ==>
      r.value.products == NewLinesAsWritten(cart.products, found.value.id, req.qty, req.notes)
  {
    if found.None? || found.value.deleted then Err(ProductNotFound)
    else
      var p := found.value;
      if !p.isActive then Err(ProductInactive)
      else if p.qty < req.qty then Err(InsufficientQty)
      else if cart.products == [] then
        Ok(cart.(products := [CartProduct(p.id, req.qty, req.notes)], total := p.price * req.qty))
      else if Overflows(cart.products, p.id, req.qty, p.qty) then Err(InsufficientQty)
      else
        var lines := NewLinesAsWritten(cart.products, p.id, req.qty, req.notes);
        PriceSumQty(lines, p.price);
        Ok(cart.(products := lines, total := PriceSum(lines, p.price)))
  }

  /** The intended decision: the same checks, with the intended merge. Its
      total grows by exactly the price of the requested quantity. */
  function AddItemIntended(cart: Cart, found: Option<Product>, req: AddItemCartRequest): (r: Result<Cart, Error>)
    ensures r.Ok? <==>
      found.Some? && !found.value.deleted && found.value.isActive && found.value.qty >= req.qty &&
      !Overflows(cart.products, found.value.id, req.qty, found.value.qty)
    ensures r.Ok? ==> r.value.id == cart.id && r.value.customerId == cart.customerId
    ensures r.Ok? ==> r.value.total == found.value.price * SumQty(r.value.products)
    // with at most one line per product, the cart grows by exactly the requested quantity
    ensures r.Ok? && Count(cart.products, found.value.id) <= 1 ==>
      SumQty(r.value.products) == SumQty(cart.products) + req.qty
  {
    if found.None? || found.value.deleted then Err(ProductNotFound)
    else
      var p := found.value;
      if !p.isActive then Err(ProductInactive)
      else if p.qty < req.qty then Err(InsufficientQty)
      else if Overflows(cart.products, p.id, req.qty, p.qty) then Err(InsufficientQty)
      else
        var lines := NewLinesIntended(cart.products, p.id, req.qty, req.notes);
        PriceSumQty(lines, p.price);
        assert Count(cart.products, p.id) <= 1 ==> SumQty(lines) == SumQty(cart.products) + req.qty by {
          if Count(cart.products, p.id) <= 1 {
            NewLinesIntendedSum(cart.products, p.id, req.qty, req.notes);
          }
        }
        Ok(cart.(products := lines, total := PriceSum(lines, p.price)))
  }

  /** Under the intended merge, in a cart with at most one line for the
      product (which is all the intended merge ever builds), the quantity
      in the cart grows by exactly the requested quantity. */
  lemma {:induction false} NewLinesIntendedSum(lines: seq<CartProduct>, pid: string, qty: int, notes: string)
    requires Count(lines, pid) <= 1
    ensures SumQty(NewLinesIntended(lines, pid, qty, notes)) == SumQty(lines) + qty
  {
    MergeIntendedSum(lines, pid, qty, notes);
    HoldsCount(lines, pid);
    SumQtyAppend(MergeIntended(lines, pid, qty, notes), if Holds(lines, pid) then [] else [CartProduct(pid, qty, notes)]);
    if !Holds(lines, pid) {
      assert SumQty([CartProduct(pid, qty, notes)]) == qty by {
        assert [CartProduct(pid, qty, notes)][..0] == [];
      }
    }
  }

  /** The number of lines of `lines` for product `pid`. */
  function Count(lines: seq<CartProduct>, pid: string): nat {
    if lines == [] then 0 else Count(lines[..|lines| - 1], pid) + (if lines[|lines| - 1].productId == pid then 1 else 0)
  }

  lemma {:induction false} MergeIntendedSum(lines: seq<CartProduct>, pid: string, qty: int, notes: string)
    ensures SumQty(MergeIntended(lines, pid, qty, notes)) == SumQty(lines) + Count(lines, pid) * qty
    decreases |lines|
  {
    if lines != [] {
      var init := lines[..|lines| - 1];
      var last := lines[|lines| - 1];
      MergeIntendedSum(init, pid, qty, notes);
      var m := MergeIntended(lines, pid, qty, notes);
      var mi := MergeIntended(init, pid, qty, notes);
      assert m[..|m| - 1] == mi by {
        forall k | 0 <= k < |mi| ensures m[k] == mi[k] {
          assert init[k] == lines[k];
        }
      }
      assert m[|m| - 1] == Merged(last, pid, qty, notes);
    }
  }

  lemma {:induction false} HoldsCount(lines: seq<CartProduct>, pid: string)
    ensures Holds(lines, pid) <==> Count(lines, pid) > 0
    decreases |lines|
  {
    if lines != [] {
      var init := lines[..|lines| - 1];
      HoldsCount(init, pid);
      HoldsSnoc(lines, |lines| - 1, pid);
      assert lines[..|lines| - 1] == init;
      assert lines[..|lines|] == lines;
    }
  }

  /** Holds over one more line. */
  lemma HoldsSnoc(lines: seq<CartProduct>, i: int, pid: string)
    requires 0 <= i < |lines|
    ensures Holds(lines[..i + 1], pid) <==> Holds(lines[..i], pid) || lines[i].productId == pid
  {
    if Holds(lines[..i + 1], pid) {
      var k :| 0 <= k < i + 1 && lines[..i + 1][k].productId == pid;
      if k < i { assert lines[..i][k] == lines[k]; }
    }
    if Holds(lines[..i], pid) {
      var k :| 0 <= k < i && lines[..i][k].productId == pid;
      assert lines[..i + 1][k] == lines[k];
    }
    if lines[i].productId == pid {
      assert lines[..i + 1][i] == lines[i];
    }
  }

  /** Overflows over one more line. */
  lemma OverflowsSnoc(lines: seq<CartProduct>, i: int, pid: string, qty: int, stock: int)
    requires 0 <= i < |lines|
    ensures Overflows(lines[..i + 1], pid, qty, stock) <==>
      (Overflows(lines[..i], pid, qty, stock) || (lines[i].productId == pid && lines[i].qty + qty > stock))
  {
    if Overflows(lines[..i + 1], pid, qty, stock) {
      var k :| 0 <= k < i + 1 && lines[..i + 1][k].productId == pid && lines[..i + 1][k].qty + qty > stock;
      if k < i { assert lines[..i][k] == lines[k]; }
    }
    if Overflows(lines[..i], pid, qty, stock) {
      var k :| 0 <= k < i && lines[..i][k].productId == pid && lines[..i][k].qty + qty > stock;
      assert lines[..i + 1][k] == lines[k];
    }
    if lines[i].productId == pid && lines[i].qty + qty > stock {
      assert lines[..i + 1][i] == lines[i];
    }
  }

  /** The merge over one more line, and the cost that line adds. */
  lemma MergeAsWrittenSnoc(lines: seq<CartProduct>, i: int, pid: string, qty: int, notes: string, price: int)
    requires 0 <= i < |lines|
    ensures MergeAsWritten(lines[..i + 1], pid, qty, notes) ==
      MergeAsWritten(lines[..i], pid, qty, notes) + StepAsWritten(lines[i], pid, qty, notes)
    ensures PriceSum(MergeAsWritten(lines[..i + 1], pid, qty, notes), price) ==
      PriceSum(MergeAsWritten(lines[..i], pid, qty, notes), price)
      + (if lines[i].productId == pid then price * (lines[i].qty + qty) else 0) + price * lines[i].qty
  {
    assert lines[..i + 1][..i] == lines[..i];
    assert lines[..i + 1][i] == lines[i];
    var l := lines[i];
    var step := StepAsWritten(l, pid, qty, notes);
    PriceSumAppend(MergeAsWritten(lines[..i], pid, qty, notes), step, price);
    if l.productId == pid {
      var m, k := CartProduct(pid, l.qty + qty, notes), l.(notes := notes);
      assert step == [m, k];
      assert step[..1] == [m];
      assert [m][..0] == [];
      assert PriceSum([m], price) == price * m.qty;
      assert PriceSum(step, price) == price * m.qty + price * k.qty;
    } else {
      assert step == [l.(notes := notes)];
      assert step[..0] == [];
    }
  }

  // ---------------------------------------------------------------------
  // GetCart

  /** How a cart line stands against the catalogue: its product is
      missing, or it is unavailable for a reason, or it is available. */
  datatype Availability = Missing | Unavailable(product: Product, note: string) | Available(product: Product)

  /** The checks of the partition loop, in their order: deleted, inactive,
      short of stock. */
  function Check(line: CartProduct, products: map<string, Product>): (a: Availability)
    ensures a.Missing? <==> line.productId !in products
    ensures a.Available? <==> (line.productId in products && !products[line.productId].deleted &&
      products[line.productId].isActive && products[line.productId].qty >= line.qty)
    ensures !a.Missing? ==> a.product == products[line.productId]
    ensures a.Unavailable? && a.product.deleted ==> a.note == "Data Product " + line.productId + " not Found"
    ensures a.Unavailable? && !a.product.deleted && !a.product.isActive ==> a.note == "Product is " + line.productId + " not active"
    ensures a.Unavailable? && !a.product.deleted && a.product.isActive ==> a.note == "Insufficient product quantity."
  {
    if line.productId !in products then Missing
    else
      var p := products[line.productId];
      if p.deleted then Unavailable(p, "Data Product " + line.productId + " not Found")
      else if !p.isActive then Unavailable(p, "Product is " + line.productId + " not active")
      else if p.qty < line.qty then Unavailable(p, "Insufficient product quantity.")
      else Available(p)
  }

  /** A cart line as shown, priced at the product's current price. */
  function Item(line: CartProduct, p: Product, categories: map<string, Category>, note: string): CartItem {
    CartItem(line.productId, p.name, line.qty, p.price, line.qty * p.price, CategoryNameIn(categories, p), line.notes, note)
  }

  /** The two partitions and the total of the available ones. */
  datatype Partitioned = Partitioned(available: seq<CartItem>, unavailable: seq<CartItem>, total: int)

  /** The sum of the line totals of `items`. */
  function SumPriceTotal(items: seq<CartItem>): int {
    if items == [] then 0 else SumPriceTotal(items[..|items| - 1]) + items[|items| - 1].priceTotal
  }

  /** One turn of the partition loop. */
  function PartitionStep(before: Option<Partitioned>, line: CartProduct,
                         products: map<string, Product>, categories: map<string, Category>): Option<Partitioned> {
    if before.None? then None
    else
      var pt := before.value;
      match Check(line, products)
      case Missing => None
      case Unavailable(p, note) =>
        Some(pt.(unavailable := pt.unavailable + [Item(line, p, categories, note)]))
      case Available(p) =>
        Some(pt.(available := pt.available + [Item(line, p, categories, "")], total := pt.total + p.price * line.qty))
  }

  /** The partition loop over `lines`, turn by turn. None when a line's
      product is missing: the unavailable branch then reads the name of a
      nil product, and the request panics. */
  function PartitionSpec(lines: seq<CartProduct>, products: map<string, Product>, categories: map<string, Category>)
    : Option<Partitioned>
  {
    if lines == [] then Some(Partitioned([], [], 0))
    else PartitionStep(PartitionSpec(lines[..|lines| - 1], products, categories), lines[|lines| - 1], products, categories)
  }

  /** The partition fails exactly when some line's product is missing;
      otherwise every line lands in exactly one partition, the available
      ones with no system note and the unavailable ones with a reason, and
      the total is the sum of the available line totals. */
  lemma {:induction false} PartitionShape(lines: seq<CartProduct>, products: map<string, Product>, categories: map<string, Category>)
    ensures var r := PartitionSpec(lines, products, categories);
      && (r.None? <==> exists i :: 0 <= i < |lines| && lines[i].productId !in products)
      && (r.Some? ==> |r.value.available| + |r.value.unavailable| == |lines|)
      && (r.Some? ==> r.value.total == SumPriceTotal(r.value.available))
      && (r.Some? ==> forall k :: 0 <= k < |r.value.available| ==> r.value.available[k].systemNotes == "")
      && (r.Some? ==> forall k :: 0 <= k < |r.value.unavailable| ==> r.value.unavailable[k].systemNotes != "")
    decreases |lines|
  {
    if lines != [] {
      var init := lines[..|lines| - 1];
      var line := lines[|lines| - 1];
      PartitionShape(init, products, categories);
      assert forall i :: 0 <= i < |init| ==> init[i] == lines[i];
      var before := PartitionSpec(init, products, categories);
      if before.Some? {
        var pt := before.value;
        match Check(line, products)
        case Missing =>
        case Unavailable(p, note) =>
        case Available(p) =>
          var item := Item(line, p, categories, "");
          assert (pt.available + [item])[..|pt.available|] == pt.available;
      }
    }
  }

  /** Two partitions side by side: the first one's items before the
      second one's, and the totals added. */
  function Joined(pa: Partitioned, pb: Partitioned): Partitioned {
    Partitioned(pa.available + pb.available, pa.unavailable + pb.unavailable, pa.total + pb.total)
  }

  /** One more turn of the loop on a joined partition is the join with
      one more turn on the second half. */
  lemma StepJoined(pa: Partitioned, pb: Partitioned, line: CartProduct,
                   products: map<string, Product>, categories: map<string, Category>)
    requires PartitionStep(Some(pb), line, products, categories).Some?
    ensures PartitionStep(Some(Joined(pa, pb)), line, products, categories)
         == Some(Joined(pa, PartitionStep(Some(pb), line, products, categories).value))
  {
    match Check(line, products)
    case Missing =>
    case Unavailable(p, note) =>
      assert pa.unavailable + (pb.unavailable + [Item(line, p, categories, note)]) ==
             (pa.unavailable + pb.unavailable) + [Item(line, p, categories, note)];
    case Available(p) =>
      assert pa.available + (pb.available + [Item(line, p, categories, "")]) ==
             (pa.available + pb.available) + [Item(line, p, categories, "")];
  }

  /** The loop over `lines` then `line` is one more turn after `lines`. */
  lemma PartitionSnoc(lines: seq<CartProduct>, line: CartProduct,
                      products: map<string, Product>, categories: map<string, Category>)
    ensures PartitionSpec(lines + [line], products, categories)
         == PartitionStep(PartitionSpec(lines, products, categories), line, products, categories)
  {
    assert (lines + [line])[..|lines|] == lines;
  }

  /** Partitioning is compositional: the lines of `a + b` partition into
      the partitions of `a` followed by those of `b`, totals added. */
  lemma {:induction false} PartitionAppend(a: seq<CartProduct>, b: seq<CartProduct>,
                                           products: map<string, Product>, categories: map<string, Category>)
    requires PartitionSpec(a, products, categories).Some? && PartitionSpec(b, products, categories).Some?
    ensures PartitionSpec(a + b, products, categories)
         == Some(Joined(PartitionSpec(a, products, categories).value, PartitionSpec(b, products, categories).value))
    decreases |b|
  {
    if b == [] {
      assert a + b == a;
      var pa := PartitionSpec(a, products, categories).value;
      assert pa.available + [] == pa.available && pa.unavailable + [] == pa.unavailable;
    } else {
      var b', line := b[..|b| - 1], b[|b| - 1];
      assert b == b' + [line];
      assert a + b == (a + b') + [line];
      PartitionSnoc(b', line, products, categories);
      PartitionSnoc(a + b', line, products, categories);
      assert PartitionSpec(b', products, categories).Some?;
      PartitionAppend(a, b', products, categories);
      StepJoined(PartitionSpec(a, products, categories).value, PartitionSpec(b', products, categories).value,
                 line, products, categories);
    }
  }

  /** The response the partition is meant to give: the two partitions and
      their total; None when a product is missing (a panic). */
  function CartView(cart: Cart, products: map<string, Product>, categories: map<string, Category>): (r: Option<GetCartResponse>)
    ensures r.None? <==> exists i :: 0 <= i < |cart.products| && cart.products[i].productId !in products
    ensures r.Some? ==> r.value.id == cart.id && r.value.customerId == cart.customerId
    ensures r.Some? ==> r.value.total == SumPriceTotal(r.value.available)
    ensures r.Some? ==> |r.value.available| + |r.value.unavailable| == |cart.products|
  {
    PartitionShape(cart.products, products, categories);
    match PartitionSpec(cart.products, products, categories)
    case None => None
    case Some(pt) => Some(GetCartResponse(cart.id, pt.available, pt.unavailable, pt.total, cart.customerId))
  }

  /** The response `GetCart` gives as written: a cart with lines returns at
      the inverted check with nothing in it; a cart without lines reaches
      the loop, which has nothing to do. */
  function CartViewAsWritten(cart: Cart, products: map<string, Product>, categories: map<string, Category>): Option<GetCartResponse> {
    if |cart.products| > 0 then Some(GetCartResponse(cart.id, [], [], 0, cart.customerId))
    else CartView(cart, products, categories)
  }

  /** As written, `GetCart` never shows a line and always reports total 0. */
  lemma CartViewAsWrittenIsEmpty(cart: Cart, products: map<string, Product>, categories: map<string, Category>)
    ensures CartViewAsWritten(cart, products, categories) == Some(GetCartResponse(cart.id, [], [], 0, cart.customerId))
  {
  }

  /** The counterexample: one available line of 2 units priced 50 is shown,
      with total 100, by the intended view, and hidden, with total 0, by
      the code as written. */
  lemma GetCartHidesAvailableLine(cart: Cart, p: Product, categories: map<string, Category>)
    requires cart.products == [CartProduct(p.id, 2, "")]
    requires !p.deleted && p.isActive && p.qty >= 2 && p.price == 50
    ensures CartView(cart, map[p.id := p], categories).Some?
    ensures CartView(cart, map[p.id := p], categories).value.total == 100
    ensures CartViewAsWritten(cart, map[p.id := p], categories).value.total == 0
  {
    var line := cart.products[0];
    assert cart.products[..0] == [];
    assert Check(line, map[p.id := p]) == Available(p);
    var item := Item(line, p, categories, "");
    assert PartitionSpec(cart.products[..0], map[p.id := p], categories) == Some(Partitioned([], [], 0));
    assert PartitionStep(Some(Partitioned([], [], 0)), line, map[p.id := p], categories)
        == Some(Partitioned([] + [item], [], 0 + p.price * line.qty));
    assert [] + [item] == [item];
  }

  class CartService {
    const carts: CartRepository
    const products: ProductRepository

    constructor (carts: CartRepository, products: ProductRepository)
      ensures this.carts == carts && this.products == products
    {
      this.carts := carts;
      this.products := products;
    }

    /** The merge loop of `AddItemCart` over the lines of a non-empty cart:
        fails on the first matching line that would exceed the stock,
        otherwise gives the new lines and their total at the product's
        price. */
    method MergeLines(lines: seq<CartProduct>, p: Product, req: AddItemCartRequest)
      returns (ok: bool, newLines: seq<CartProduct>, total: int)
      ensures !ok <==> Overflows(lines, p.id, req.qty, p.qty)
      ensures ok ==> newLines == NewLinesAsWritten(lines, p.id, req.qty, req.notes)
      ensures ok ==> total == PriceSum(newLines, p.price)
    {
      var tempTotal := 0;
      var isExist := false;
      var acc: seq<CartProduct> := [];
      var i := 0;
      while i < |lines|
        invariant 0 <= i <= |lines|
        invariant acc == MergeAsWritten(lines[..i], p.id, req.qty, req.notes)
        invariant tempTotal == PriceSum(acc, p.price)
        invariant isExist <==> Holds(lines[..i], p.id)
        invariant !Overflows(lines[..i], p.id, req.qty, p.qty)
      {
        var line := lines[i];
        ghost var step := StepAsWritten(line, p.id, req.qty, req.notes);
        ghost var before := acc;
        MergeAsWrittenSnoc(lines, i, p.id, req.qty, req.notes, p.price);
        HoldsSnoc(lines, i, p.id);
        OverflowsSnoc(lines, i, p.id, req.qty, p.qty);
        if p.id == line.productId {
          if line.qty + req.qty > p.qty {
            assert lines[i].productId == p.id && lines[i].qty + req.qty > p.qty;
            return false, [], 0;
          }
          acc := acc + [CartProduct(line.productId, line.qty + req.qty, req.notes)];
          tempTotal := tempTotal + p.price * (line.qty + req.qty);
          isExist := true;
        }
        acc := acc + [CartProduct(line.productId, line.qty, req.notes)];
        tempTotal := tempTotal + p.price * line.qty;
        assert acc == before + step;
        i := i + 1;
      }
      assert lines[..i] == lines;
      NewLinesAsWrittenSum(lines, p.id, req.qty, req.notes, p.price);
      if !isExist {
        acc := acc + [CartProduct(p.id, req.qty, req.notes)];
        tempTotal := tempTotal + p.price * req.qty;
      }
      return true, acc, tempTotal;
    }

    /** `AddItemCart`: the caller's cart (created empty and stored first
        when there is none, and kept even if a later check fails) is
        replaced by the outcome of `AddItem`, or left as it was. */
    method AddItemCart(ctx: Option<UserContext>, req: AddItemCartRequest, newCartId: string) returns (err: Option<Error>)
      requires carts.Valid() && products.Valid()
      modifies carts
      ensures carts.Valid()
      ensures ctx.None? ==> err == Some(InvalidSession) && carts.carts == old(carts.carts)
      ensures ctx.Some? ==>
        var uid := ctx.value.userID;
        var cart := if uid in old(carts.carts) then old(carts.carts)[uid] else Cart(newCartId, [], 0, uid);
        var found := if req.productId in products.rows then Some(products.rows[req.productId]) else None;
        var outcome := AddItem(cart, found, req);
        && (outcome.Err? ==> err == Some(outcome.error) && carts.carts == old(carts.carts)[uid := cart])
        && (outcome.Ok? ==> err == None && carts.carts == old(carts.carts)[uid := outcome.value])
    {
      if ctx.None? {
        return Some(InvalidSession);
      }
      var uid := ctx.value.userID;
      var existing := carts.Get(uid);
      var cart: Cart;
      if existing.None? {
        cart := Cart(newCartId, [], 0, uid);
        carts.Create(cart);
      } else {
        cart := existing.value;
      }
      var found := products.Get(req.productId);
      if found.None? || found.value.deleted {
        return Some(ProductNotFound);
      }
      var p := found.value;
      if !p.isActive {
        return Some(ProductInactive);
      } else if p.qty < req.qty {
        return Some(InsufficientQty);
      }
      if |cart.products| == 0 {
        cart := cart.(products := [CartProduct(p.id, req.qty, req.notes)], total := p.price * req.qty);
      } else {
        var ok, lines, total := MergeLines(cart.products, p, req);
        if !ok {
          return Some(InsufficientQty);
        }
        cart := cart.(products := lines, total := total);
      }
      carts.Update(cart);
      err := None;
    }

    /** The partition loop of `GetCart`: each line of the cart goes to the
        available or the unavailable partition, and the available ones are
        added up. None when a line's product is missing (a panic). */
    method Partition(lines: seq<CartProduct>) returns (r: Option<Partitioned>)
      ensures r == PartitionSpec(lines, products.rows, products.categories.rows)
    {
      var available: seq<CartItem> := [];
      var unavailable: seq<CartItem> := [];
      var tempTotal := 0;
      var i := 0;
      while i < |lines|
        invariant 0 <= i <= |lines|
        invariant PartitionSpec(lines[..i], products.rows, products.categories.rows) == Some(Partitioned(available, unavailable, tempTotal))
      {
        assert lines[..i + 1][..i] == lines[..i];
        var line := lines[i];
        var found := products.Get(line.productId);
        if found.None? {
          PartitionShape(lines, products.rows, products.categories.rows);
          assert lines[i].productId !in products.rows;
          return None;
        }
        var p := found.value;
        var systemNotes := "";
        var isAvailable := true;
        if p.deleted {
          systemNotes := "Data Product " + line.productId + " not Found";
          isAvailable := false;
        } else if !p.isActive {
          systemNotes := "Product is " + line.productId + " not active";
          isAvailable := false;
        } else if p.qty < line.qty {
          systemNotes := "Insufficient product quantity.";
          isAvailable := false;
        }
        var name := products.CategoryName(p);
        if isAvailable {
          available := available + [CartItem(line.productId, p.name, line.qty, p.price, line.qty * p.price, name, line.notes, "")];
          tempTotal := tempTotal + p.price * line.qty;
        } else {
          unavailable := unavailable + [CartItem(line.productId, p.name, line.qty, p.price, line.qty * p.price, name, line.notes, systemNotes)];
        }
        i := i + 1;
      }
      assert lines[..i] == lines;
      r := Some(Partitioned(available, unavailable, tempTotal));
    }

    /** `GetCart` as written: the caller's cart (created empty and stored
        when there is none) is shown as `CartViewAsWritten` shows it, that
        is with no lines and total 0. */
    method GetCart(ctx: Option<UserContext>, newCartId: string) returns (r: Result<GetCartResponse, Error>)
      requires carts.Valid()
      modifies carts
      ensures carts.Valid()
      ensures ctx.None? ==> r == Err(InvalidSession) && carts.carts == old(carts.carts)
      ensures ctx.Some? ==>
        var uid := ctx.value.userID;
        var cart := if uid in old(carts.carts) then old(carts.carts)[uid] else Cart(newCartId, [], 0, uid);
        && carts.carts == old(carts.carts)[uid := cart]
        && r == Ok(GetCartResponse(cart.id, [], [], 0, uid))
        && CartViewAsWritten(cart, products.rows, products.categories.rows) == Some(r.value)
    {
      if ctx.None? {
        return Err(InvalidSession);
      }
      var uid := ctx.value.userID;
      var existing := carts.Get(uid);
      var cart: Cart;
      if existing.None? {
        cart := Cart(newCartId, [], 0, uid);
        carts.Create(cart);
      } else {
        cart := existing.value;
      }
      if |cart.products| > 0 {
        return Ok(GetCartResponse(cart.id, [], [], 0, cart.customerId));
      }
      var shown := Partition(cart.products);
      match shown {
        case None =>
          assert false;
        case Some(pt) =>
          r := Ok(GetCartResponse(cart.id, pt.available, pt.unavailable, pt.total, cart.customerId));
      }
    }

    /** The intended `GetCart` view of a cart: the partition of its lines. */
    method ViewCart(cart: Cart) returns (r: Option<GetCartResponse>)
      ensures r == CartView(cart, products.rows, products.categories.rows)
    {
      var shown := Partition(cart.products);
      r := match shown
        case None => None
        case Some(pt) => Some(GetCartResponse(cart.id, pt.available, pt.unavailable, pt.total, cart.customerId));
    }
  }
}
