/** The money arithmetic shared by the document and the page: line totals,
    the subtotal as `items.reduce((acc, item) => acc + item.price * item.quantity, 0)`,
    the tax and discount amounts, and the compound total. */
module Totals {
  import opened Optional
  import opened Invoices

  /** `item.price * item.quantity` */
  function LineTotal(item: Item): real
  {
    item.price * item.quantity
  }

  /** The sum of the line totals, as a reference definition. */
  function Sum(items: seq<Item>): real
  {
    if |items| == 0 then 0.0 else LineTotal(items[0]) + Sum(items[1..])
  }

  /** The left fold `reduce` performs, from accumulator `acc`. */
  function Reduce(acc: real, items: seq<Item>): real
    decreases |items|
  {
    if |items| == 0 then acc else Reduce(acc + LineTotal(items[0]), items[1..])
  }

  /** The fold adds the reference sum to its starting accumulator. */
  lemma {:induction false} ReduceIsSum(acc: real, items: seq<Item>)
    ensures Reduce(acc, items) == acc + Sum(items)
    decreases |items|
  {
    if |items| > 0 {
      ReduceIsSum(acc + LineTotal(items[0]), items[1..]);
    }
  }

  /** The subtotal: the fold started at 0. It is the sum of the line totals,
      and 0 for an empty list. */
  function Subtotal(items: seq<Item>): (r: real)
    ensures r == Sum(items)
    ensures |items| == 0 ==> r == 0.0
  {
    ReduceIsSum(0.0, items);
    Reduce(0.0, items)
  }

  /** The sum over a concatenation is the sum of the sums. */
  lemma {:induction false} SumConcat(a: seq<Item>, b: seq<Item>)
    ensures Sum(a + b) == Sum(a) + Sum(b)
  {
    if |a| == 0 {
      assert a + b == b;
    } else {
      assert (a + b)[0] == a[0];
      assert (a + b)[1..] == a[1..] + b;
      SumConcat(a[1..], b);
    }
  }

  /** An item between two runs adds its line total to theirs. */
  lemma SumAround(before: seq<Item>, x: Item, after: seq<Item>)
    ensures Sum(before + [x] + after) == Sum(before + after) + LineTotal(x)
  {
    assert Sum([x]) == LineTotal(x) by {
      assert [x][1..] == [];
    }
    SumConcat(before + [x], after);
    SumConcat(before, [x]);
    SumConcat(before, after);
  }

  /** Replacing one item changes the sum by the difference of the two line totals. */
  lemma {:induction false} SumReplace(items: seq<Item>, i: nat, x: Item)
    requires i < |items|
    ensures Sum(items[i := x]) == Sum(items) - LineTotal(items[i]) + LineTotal(x)
  {
    if i == 0 {
      assert items[i := x][1..] == items[1..];
    } else {
      assert items[i := x][1..] == items[1..][i - 1 := x];
      SumReplace(items[1..], i - 1, x);
    }
  }

  /** The total on both the page and the document:
      `subtotal * (1 + (tax || 0) / 100) * (1 - (discount || 0) / 100) + (shipping || 0)`. */
  function Total(inv: InvoiceData): real
  {
    Subtotal(inv.items) * (1.0 + OrZero(inv.tax) / 100.0) * (1.0 - OrZero(inv.discount) / 100.0)
      + OrZero(inv.shipping)
  }

  /** An absent tax, discount or shipping contributes to the total exactly like
      one that is present with value 0. */
  lemma AbsentIsLikeZero(inv: InvoiceData)
    ensures inv.tax == None ==> Total(inv) == Total(inv.(tax := Some(0.0)))
    ensures inv.discount == None ==> Total(inv) == Total(inv.(discount := Some(0.0)))
    ensures inv.shipping == None ==> Total(inv) == Total(inv.(shipping := Some(0.0)))
  {
  }

  /** The total is the subtotal plus tax, minus the discount, minus the discount
      taken again off the tax (the compounding of tax-then-discount), plus
      shipping; every amount is computed from the pre-tax subtotal. */
  lemma TotalDecomposition(inv: InvoiceData)
    ensures var sub := Subtotal(inv.items);
            var taxAmount := sub * (OrZero(inv.tax) / 100.0);
            var discountAmount := sub * (OrZero(inv.discount) / 100.0);
            Total(inv) == sub + taxAmount - discountAmount
                          - taxAmount * (OrZero(inv.discount) / 100.0) + OrZero(inv.shipping)
  {
    var sub := Subtotal(inv.items);
    var t := OrZero(inv.tax) / 100.0;
    var d := OrZero(inv.discount) / 100.0;
    assert sub * (1.0 + t) * (1.0 - d) == sub + sub * t - sub * d - (sub * t) * d;
  }
}
