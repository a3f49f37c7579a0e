/** Batch CVC injection (`TransformOrders` in pkg/transformer/transformer.go):
    after the secret guard, every order without a CVC gets the deterministic
    CVC of its PAN and expiry, in place. Reading and writing the order files
    is left out; the orders are the array the loop walks. */
module Transformer {
  import opened Common
  import opened Decimal
  import opened Models
  import opened Generator

  /** The derivation the loop asks for: the PAN, the month as `%02d` and the
      year as `%d`. */
  function OrderCvc(o: Order, secret: string, hmac: Hmac): (r: Result<string>)
    ensures r.Ok? <==> secret != ""
    ensures r.Ok? ==> AllDigits(r.value) && (|r.value| == 3 || |r.value| == 4)
  {
    DeterministicCvc(o.Pan, FormatInt(o.ExpiryMonth, 2), FormatInt(o.ExpiryYear, 0), secret, hmac)
  }

  /** One order after the loop body. */
  function InjectCvc(o: Order, secret: string, hmac: Hmac): (r: Order)
    requires secret != ""
    ensures r.(Cvc := o.Cvc) == o
    ensures r.Cvc != ""
    ensures o.Cvc != "" ==> r == o
    ensures o.Cvc == "" ==> r.Cvc == OrderCvc(o, secret, hmac).value
  {
    if o.Cvc != "" then o else o.(Cvc := OrderCvc(o, secret, hmac).value)
  }

  /** All orders after the loop: same number, same order, and only CVCs
      change; every CVC is non-empty afterwards, an existing one is kept,
      and a filled one is three or four digits. */
  function InjectAll(orders: seq<Order>, secret: string, hmac: Hmac): (r: seq<Order>)
    requires secret != ""
    ensures |r| == |orders|
    ensures forall i :: 0 <= i < |r| ==> r[i].(Cvc := orders[i].Cvc) == orders[i]
    ensures forall i :: 0 <= i < |r| ==> r[i].Cvc != ""
    ensures forall i :: 0 <= i < |r| && orders[i].Cvc != "" ==> r[i] == orders[i]
    ensures forall i :: 0 <= i < |r| && orders[i].Cvc == "" ==>
              AllDigits(r[i].Cvc) && (|r[i].Cvc| == 3 || |r[i].Cvc| == 4)
  {
    seq(|orders|, i requires 0 <= i < |orders| => InjectCvc(orders[i], secret, hmac))
  }

  /** The loop body for index `i`: an order without a CVC gets the
      derived one through the pointer `&orders[i]`; the derivation error
      cannot occur once the secret is non-empty. */
  method InjectAt(orders: array<Order>, i: nat, secret: string, hmac: Hmac)
    requires i < orders.Length && secret != ""
    modifies orders
    ensures orders[..] == old(orders[..])[i := InjectCvc(old(orders[i]), secret, hmac)]
  {
    var order := orders[i];
    if order.Cvc != "" {
      return;
    }
    var cvc := GenerateDeterministicCvc(order.Pan, FormatInt(order.ExpiryMonth, 2),
                                        FormatInt(order.ExpiryYear, 0), secret, hmac);
    if cvc.Err? {
      assert false;
    }
    orders[i] := order.(Cvc := cvc.value);
  }

  /** `TransformOrders` without the file I/O: an empty secret fails before
      any order is touched; otherwise each order is updated in place, in
      index order. */
  method TransformOrders(orders: array<Order>, secret: string, hmac: Hmac) returns (r: Outcome)
    modifies orders
    ensures secret == "" ==> r == Fail(MissingSecret) && orders[..] == old(orders[..])
    ensures secret != "" ==> r == Pass && orders[..] == InjectAll(old(orders[..]), secret, hmac)
  {
    if secret == "" {
      return Fail(MissingSecret);
    }
    var i := 0;
    while i < orders.Length
      invariant 0 <= i <= orders.Length
      invariant forall j :: 0 <= j < i ==> orders[j] == InjectCvc(old(orders[j]), secret, hmac)
      invariant forall j :: i <= j < orders.Length ==> orders[j] == old(orders[j])
    {
      InjectAt(orders, i, secret, hmac);
      i := i + 1;
    }
    return Pass;
  }

  /** Running the injection again, with any secret and any HMAC, changes
      nothing: every order already has a CVC. */
  lemma {:induction false} InjectAllIdempotent(orders: seq<Order>, secret: string, hmac: Hmac,
                                               secret2: string, hmac2: Hmac)
    requires secret != "" && secret2 != ""
    ensures InjectAll(InjectAll(orders, secret, hmac), secret2, hmac2) == InjectAll(orders, secret, hmac)
  {
  }

  /** Two orders for the same card and expiry that both lacked a CVC get the
      same one, wherever they sit in the batch. */
  lemma SameCardSameCvc(orders: seq<Order>, secret: string, hmac: Hmac, i: nat, j: nat)
    requires secret != "" && i < |orders| && j < |orders|
    requires orders[i].Cvc == "" && orders[j].Cvc == ""
    requires orders[i].Pan == orders[j].Pan
    requires orders[i].ExpiryMonth == orders[j].ExpiryMonth
    requires orders[i].ExpiryYear == orders[j].ExpiryYear
    ensures InjectAll(orders, secret, hmac)[i].Cvc == InjectAll(orders, secret, hmac)[j].Cvc
  {
  }
}
