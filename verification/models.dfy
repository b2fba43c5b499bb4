/** The value types of the service and the integer widths its stores impose. */
module Models {

  datatype Option<+T> = None | Some(value: T)

  /** models.Product: what the API, the cache, the event log and the index carry. */
  datatype Product = Product(id: int, name: string, price: int, stock: int)

  /** models.CheckoutRequest. */
  datatype CheckoutRequest = CheckoutRequest(productId: int, quantity: int)

  /** worker.TaskSendInvoice: the message a finished checkout sends to "checkout-events". */
  datatype Invoice = Invoice(user: int, email: string, product: int, quantity: int, total: int)

  const INT32_MIN := -0x8000_0000
  const INT32_MAX := 0x7fff_ffff
  const INT64_MIN := -0x8000_0000_0000_0000
  const INT64_MAX := 0x7fff_ffff_ffff_ffff

  /** The range of an SQL INT column or parameter. */
  predicate Fits32(n: int) {
    INT32_MIN <= n <= INT32_MAX
  }

  /** The range of a Go int on the service's 64-bit platform. */
  predicate Fits64(n: int) {
    INT64_MIN <= n <= INT64_MAX
  }

  /** The value a 64-bit Go int takes when an exact result n does not fit: two's complement wrap-around. */
  function Wrap64(n: int): (r: int)
    ensures Fits64(r)
    ensures Fits64(n) ==> r == n
  {
    (n - INT64_MIN) % 0x1_0000_0000_0000_0000 + INT64_MIN
  }

  /** Go's conversion int32(n). */
  function Narrow32(n: int): (r: int)
    ensures Fits32(r)
    ensures Fits32(n) <==> r == n
  {
    (n - INT32_MIN) % 0x1_0000_0000 + INT32_MIN
  }

  /** The struct tags of models.Product as the validator applies them: `required` refuses the zero
      value, so a validated stock is at least one although its other tag says gte=0. */
  predicate ValidProduct(p: Product) {
    && p.name != "" && |p.name| >= 3
    && p.price != 0 && p.price > 0
    && p.stock != 0 && p.stock >= 0
  }

  /** The struct tags of models.CheckoutRequest. */
  predicate ValidCheckout(r: CheckoutRequest) {
    && r.productId != 0
    && r.quantity != 0 && r.quantity > 0
  }

  lemma MulMonotone(a: int, b: int, c: int)
    requires a <= b && 0 <= c
    ensures a * c <= b * c
  {
  }

  /** The product of two 32-bit numbers is exact in a 64-bit int. */
  lemma ProductFits64(a: int, b: int)
    requires Fits32(a) && Fits32(b)
    ensures Fits64(a * b)
  {
    var m := if b < 0 then -b else b;
    MulMonotone(a, INT32_MAX, m);
    MulMonotone(INT32_MIN, a, m);
    assert a * b == if b < 0 then -(a * m) else a * m;
  }
}
