/** The product page: an image carousel that wraps around at both ends
    and a quantity stepper clamped between 1 and the stock. */
module ProductView {

  import opened Wrappers
  import opened Catalog

  /** The "previous" arrow on `n` images: `prev === 0 ? n - 1 : prev - 1`. */
  function PrevIndex(i: int, n: int): int {
    if i == 0 then n - 1 else i - 1
  }

  /** The "next" arrow on `n` images: `prev === n - 1 ? 0 : prev + 1`. */
  function NextIndex(i: int, n: int): int {
    if i == n - 1 then 0 else i + 1
  }

  /** Both arrows keep an index that is in range in range. */
  lemma ArrowsStayInRange(i: int, n: int)
    requires 0 <= i < n
    ensures 0 <= PrevIndex(i, n) < n
    ensures 0 <= NextIndex(i, n) < n
  {
  }

  /** Each arrow undoes the other. */
  lemma ArrowsAreInverse(i: int, n: int)
    requires 0 <= i < n
    ensures PrevIndex(NextIndex(i, n), n) == i
    ensures NextIndex(PrevIndex(i, n), n) == i
  {
  }

  /** Pressing "next" `k` times. */
  function Advance(i: int, n: int, k: nat): int
    decreases k
  {
    if k == 0 then i else NextIndex(Advance(i, n, k - 1), n)
  }

  /** Pressing "next" `a` times and then `b` times is pressing it `a + b`
      times. */
  lemma {:induction false} AdvanceAdd(i: int, n: int, a: nat, b: nat)
    ensures Advance(i, n, a + b) == Advance(Advance(i, n, a), n, b)
    decreases b
  {
    if b > 0 {
      AdvanceAdd(i, n, a, b - 1);
    }
  }

  /** Short of the last image, `k` presses move `k` places forward. */
  lemma {:induction false} AdvanceForward(i: int, n: int, k: nat)
    requires 0 <= i && i + k < n
    ensures Advance(i, n, k) == i + k
    decreases k
  {
    if k > 0 {
      AdvanceForward(i, n, k - 1);
    }
  }

  /** `n` presses of "next" come back to where they started. */
  lemma FullTurn(i: int, n: int)
    requires 0 <= i < n
    ensures Advance(i, n, n) == i
  {
    AdvanceForward(i, n, n - 1 - i);
    AdvanceAdd(i, n, n - 1 - i, 1);
    AdvanceAdd(i, n, n - i, i);
    AdvanceForward(0, n, i);
  }

  /** `k` presses of "next" move `k` places round the carousel: forward
      while that stays in range, and a further `n` presses change nothing. */
  lemma AdvanceWraps(i: int, n: int, k: nat)
    requires 0 <= i < n
    ensures i + k < n ==> Advance(i, n, k) == i + k
    ensures Advance(i, n, k + n) == Advance(i, n, k)
  {
    if i + k < n {
      AdvanceForward(i, n, k);
    }
    AdvanceAdd(i, n, n, k);
    FullTurn(i, n);
  }

  /** The index survives a product change, so it may exceed a shorter
      image list; "next" then only moves it further out and never wraps. */
  lemma {:induction false} StaleIndexDrifts(i: int, n: int, k: nat)
    requires n <= i
    ensures Advance(i, n, k) == i + k
    decreases k
  {
    if k > 0 {
      StaleIndexDrifts(i, n, k - 1);
    }
  }

  /** `product.stock || 10`: the stock, unless it is 0 or missing. */
  function StockCap(stock: Option<nat>): (cap: nat)
    ensures cap >= 1
    ensures stock.Some? && stock.value != 0 ==> cap == stock.value
    ensures stock.None? || stock.value == 0 ==> cap == 10
  {
    if stock.Some? && stock.value != 0 then stock.value else 10
  }

  /** The "-" button: `Math.max(1, prev - 1)`. */
  function Decrement(q: int): int {
    if q - 1 >= 1 then q - 1 else 1
  }

  /** The "+" button: `Math.min(cap, prev + 1)`. */
  function Increment(q: int, cap: int): int {
    if q + 1 <= cap then q + 1 else cap
  }

  /** Whatever the quantity was, "-" leaves it at least 1 and "+" leaves
      it at most the cap; from within [1, cap] both stay within it and
      move by at most one. */
  lemma StepperClamps(q: int, cap: int)
    requires cap >= 1
    ensures Decrement(q) >= 1 && Increment(q, cap) <= cap
    ensures 1 <= q <= cap ==> 1 <= Decrement(q) <= cap && 1 <= Increment(q, cap) <= cap
    ensures 1 <= q <= cap ==> q - 1 <= Decrement(q) <= q <= Increment(q, cap) <= q + 1
    ensures q > 1 ==> Decrement(q) == q - 1
    ensures q < cap ==> Increment(q, cap) == q + 1
  {
  }

  /** What `getProductById` produced. */
  datatype ProductFetch = Responded(success: bool, data: Option<Product>) | Threw

  /** The product page's state. */
  class ProductPage {
    var product: Option<Product>
    var isLoading: bool
    var currentImageIndex: int
    var quantity: int

    constructor()
      ensures product == None && isLoading && currentImageIndex == 0 && quantity == 1
    {
      product := None;
      isLoading := true;
      currentImageIndex := 0;
      quantity := 1;
    }

    /** The number of images of the loaded product. */
    function ImageCount(): nat
      reads this
      requires product.Some?
    {
      |product.value.images|
    }

    /** The loading effect for route `id`. Neither the image index nor the
        quantity is touched. */
    method LoadProduct(id: Option<string>, fetch: ProductFetch)
      modifies this
      ensures currentImageIndex == old(currentImageIndex) && quantity == old(quantity)
      ensures !Truthy(id) ==> product == old(product) && isLoading == old(isLoading)
      ensures Truthy(id) ==> !isLoading
      ensures Truthy(id) ==> product == (if fetch.Responded? && fetch.success && fetch.data.Some?
                                         then fetch.data else old(product))
    {
      if !Truthy(id) {
        return;
      }
      isLoading := true;
      if fetch.Responded? && fetch.success && fetch.data.Some? {
        product := fetch.data;
      }
      isLoading := false;
    }

    /** The left arrow, on screen only with more than one image. */
    method Previous()
      requires product.Some? && ImageCount() > 1
      modifies this
      ensures product == old(product) && quantity == old(quantity) && isLoading == old(isLoading)
      ensures currentImageIndex == PrevIndex(old(currentImageIndex), ImageCount())
      ensures old(0 <= currentImageIndex < ImageCount()) ==> 0 <= currentImageIndex < ImageCount()
    {
      currentImageIndex := PrevIndex(currentImageIndex, |product.value.images|);
    }

    /** The right arrow, on screen only with more than one image. */
    method Next()
      requires product.Some? && ImageCount() > 1
      modifies this
      ensures product == old(product) && quantity == old(quantity) && isLoading == old(isLoading)
      ensures currentImageIndex == NextIndex(old(currentImageIndex), ImageCount())
      ensures old(0 <= currentImageIndex < ImageCount()) ==> 0 <= currentImageIndex < ImageCount()
    {
      currentImageIndex := NextIndex(currentImageIndex, |product.value.images|);
    }

    /** The thumbnail at `index`; thumbnails show only with more than one
        image. */
    method SelectImage(index: nat)
      requires product.Some? && ImageCount() > 1 && index < ImageCount()
      modifies this
      ensures product == old(product) && quantity == old(quantity) && isLoading == old(isLoading)
      ensures currentImageIndex == index
    {
      currentImageIndex := index;
    }

    /** The "-" button. */
    method DecreaseQuantity()
      requires product.Some?
      modifies this
      ensures product == old(product) && currentImageIndex == old(currentImageIndex) && isLoading == old(isLoading)
      ensures quantity == Decrement(old(quantity)) && quantity >= 1
    {
      quantity := Decrement(quantity);
    }

    /** The "+" button. */
    method IncreaseQuantity()
      requires product.Some?
      modifies this
      ensures product == old(product) && currentImageIndex == old(currentImageIndex) && isLoading == old(isLoading)
      ensures quantity == Increment(old(quantity), StockCap(product.value.stock))
      ensures quantity <= StockCap(product.value.stock)
    {
      quantity := Increment(quantity, StockCap(product.value.stock));
    }
  }
}
