/**
 * The product page: the product is looked up by the id in the address, a
 * size must be picked before anything goes into the cart, the quantity
 * stepper never goes below one, and adding puts the product into the cart
 * once per unit of quantity.
 */
module ProductDetail {
  import opened Wrappers
  import opened Types

  /** `products.find(p => p.id === id)`: the first product with that id.
      The route parameter may be missing, and then nothing matches. */
  function FindProduct(products: seq<Product>, id: Option<string>): (r: Option<Product>)
    ensures r.None? <==> id.None? || forall k :: 0 <= k < |products| ==> products[k].id != id.value
    ensures r.Some? ==> exists k :: 0 <= k < |products| && products[k] == r.value && r.value.id == id.value
                                    && forall m :: 0 <= m < k ==> products[m].id != id.value
    decreases |products|
  {
    if id.None? || |products| == 0 then None
    else if products[0].id == id.value then Some(products[0])
    else
      var r := FindProduct(products[1..], id);
      assert forall k :: 1 <= k < |products| ==> products[k] == products[1..][k - 1];
      if r.Some? then
        var k :| 0 <= k < |products[1..]| && products[1..][k] == r.value && r.value.id == id.value
                  && forall m :: 0 <= m < k ==> products[1..][m].id != id.value;
        assert products[k + 1] == r.value;
        assert forall m :: 0 <= m < k + 1 ==> products[m].id != id.value by {
          forall m | 0 <= m < k + 1 ensures products[m].id != id.value {
            if m > 0 { assert products[m] == products[1..][m - 1]; }
          }
        }
        r
      else r
  }

  /** The page's own state: the picked size (empty for none), the quantity,
      whether the size error is raised, and whether the "added" notice is up. */
  datatype DetailState = DetailState(selectedSize: string, quantity: int, showError: bool, isAdded: bool)

  /** No size, one unit, no error, no notice. */
  const Initial := DetailState("", 1, false, false)

  /** One call of the cart's `addToCart`: a product in a size and colour. */
  datatype AddCall = AddCall(product: Product, size: string, color: string)

  /** The page renders nothing for an id that matches no product, and
      otherwise starts from the initial state. */
  function Open(products: seq<Product>, id: Option<string>): (r: Option<(Product, DetailState)>)
    ensures r.None? <==> FindProduct(products, id).None?
    ensures r.Some? ==> r.value.0.id == id.value && r.value.1 == Initial
  {
    match FindProduct(products, id)
    case None => None
    case Some(p) => Some((p, Initial))
  }

  /** The size error is on screen while it is raised and no size is picked. */
  predicate ShowsSizeError(s: DetailState) {
    s.showError && s.selectedSize == ""
  }

  /** A size button: the size is picked and the error dropped. */
  function SelectSize(s: DetailState, size: string): (r: DetailState)
    ensures r.selectedSize == size && !r.showError && !ShowsSizeError(r)
    ensures r.quantity == s.quantity && r.isAdded == s.isAdded
  {
    s.(selectedSize := size, showError := false)
  }

  /** The minus button: one less, but never below one. */
  function Decrement(s: DetailState): (r: DetailState)
    ensures r.quantity >= 1
    ensures s.quantity > 1 ==> r.quantity == s.quantity - 1
    ensures s.quantity <= 1 ==> r.quantity == 1
    ensures r == s.(quantity := r.quantity)
  {
    s.(quantity := if s.quantity - 1 > 1 then s.quantity - 1 else 1)
  }

  /** The plus button: one more. */
  function Increment(s: DetailState): (r: DetailState)
    ensures r.quantity == s.quantity + 1
    ensures r == s.(quantity := r.quantity)
  {
    s.(quantity := s.quantity + 1)
  }

  /** `n` copies of one call. */
  function Repeat(c: AddCall, n: int): (r: seq<AddCall>)
    ensures |r| == if n > 0 then n else 0
    ensures forall k :: 0 <= k < |r| ==> r[k] == c
    decreases if n > 0 then n else 0
  {
    if n <= 0 then [] else Repeat(c, n - 1) + [c]
  }

  /** `handleAddToCart`: without a size nothing is added and the error is
      raised; with one, the product goes into the cart once per unit of
      quantity in that size with no colour, the error is dropped and the
      notice shown. */
  function AddToCart(s: DetailState, product: Product): (r: (DetailState, seq<AddCall>))
    ensures s.selectedSize == "" ==> r.1 == [] && r.0 == s.(showError := true) && ShowsSizeError(r.0)
    ensures s.selectedSize != "" ==>
              && |r.1| == (if s.quantity > 0 then s.quantity else 0)
              && (forall k :: 0 <= k < |r.1| ==> r.1[k] == AddCall(product, s.selectedSize, ""))
              && r.0 == s.(showError := false, isAdded := true)
  {
    if s.selectedSize == "" then (s.(showError := true), [])
    else (s.(showError := false, isAdded := true), Repeat(AddCall(product, s.selectedSize, ""), s.quantity))
  }

  /** The loop of `handleAddToCart`, one `addToCart` call per pass. */
  method AddToCartLoop(s: DetailState, product: Product) returns (r: DetailState, calls: seq<AddCall>)
    ensures (r, calls) == AddToCart(s, product)
  {
    if s.selectedSize == "" {
      return s.(showError := true), [];
    }
    calls := [];
    var i := 0;
    while i < s.quantity
      invariant 0 <= i <= (if s.quantity > 0 then s.quantity else 0)
      invariant calls == Repeat(AddCall(product, s.selectedSize, ""), i)
    {
      calls := calls + [AddCall(product, s.selectedSize, "")];
      i := i + 1;
    }
    assert i == (if s.quantity > 0 then s.quantity else 0);
    assert calls == Repeat(AddCall(product, s.selectedSize, ""), s.quantity);
    r := s.(showError := false, isAdded := true);
  }

  /** The notice closes, by its button or its timer. */
  function DismissNotice(s: DetailState): (r: DetailState)
    ensures !r.isAdded && r == s.(isAdded := false)
  {
    s.(isAdded := false)
  }

  /** What the visitor can do on the page. */
  datatype Action = PickSize(size: string) | Minus | Plus | Add | Dismiss

  function Step(s: DetailState, product: Product, a: Action): (r: (DetailState, seq<AddCall>))
    ensures s.quantity >= 1 ==> r.0.quantity >= 1
  {
    match a
    case PickSize(size) => (SelectSize(s, size), [])
    case Minus => (Decrement(s), [])
    case Plus => (Increment(s), [])
    case Add => AddToCart(s, product)
    case Dismiss => (DismissNotice(s), [])
  }

  /** The state after a run of actions from the initial state, with every
      call made to the cart along the way. */
  function Run(product: Product, actions: seq<Action>): (r: (DetailState, seq<AddCall>))
    decreases |actions|
  {
    if |actions| == 0 then (Initial, [])
    else
      var (s, calls) := Run(product, actions[..|actions| - 1]);
      var (t, more) := Step(s, product, actions[|actions| - 1]);
      (t, calls + more)
  }

  /** Whatever the visitor does, the quantity is at least one. */
  lemma {:induction false} QuantityStaysPositive(product: Product, actions: seq<Action>)
    ensures Run(product, actions).0.quantity >= 1
    decreases |actions|
  {
    if |actions| > 0 {
      QuantityStaysPositive(product, actions[..|actions| - 1]);
    }
  }

  /** A call the page may make: this product, a picked size, no colour. */
  predicate PickedCall(product: Product, c: AddCall) {
    c.product == product && c.size != "" && c.color == ""
  }

  /** Every call made to the cart carries the product, a size that was
      picked, and no colour. */
  lemma {:induction false} CallsCarryPickedSize(product: Product, actions: seq<Action>)
    ensures forall k :: 0 <= k < |Run(product, actions).1| ==> PickedCall(product, Run(product, actions).1[k])
    decreases |actions|
  {
    if |actions| > 0 {
      var init := actions[..|actions| - 1];
      CallsCarryPickedSize(product, init);
      var calls := Run(product, init).1;
      var more := Step(Run(product, init).0, product, actions[|actions| - 1]).1;
      assert forall k :: 0 <= k < |more| ==> PickedCall(product, more[k]);
      assert Run(product, actions).1 == calls + more;
      forall k | 0 <= k < |calls + more|
        ensures PickedCall(product, (calls + more)[k])
      {
        if k < |calls| {
          assert (calls + more)[k] == calls[k];
        } else {
          assert (calls + more)[k] == more[k - |calls|];
        }
      }
    }
  }

  /** Pressing add after picking a size always puts at least one unit in
      the cart; pressing it before never does. */
  lemma AddAfterRun(product: Product, actions: seq<Action>)
    ensures var s := Run(product, actions).0;
            var r := AddToCart(s, product);
            (s.selectedSize != "" ==> |r.1| == s.quantity >= 1) && (s.selectedSize == "" ==> r.1 == [])
  {
    QuantityStaysPositive(product, actions);
  }
}
