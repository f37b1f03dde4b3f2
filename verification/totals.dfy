/**
  The numbers the pages derive from enriched cart lines: the money total
  (Cart and Checkout) and the item count shown on the header badge. The
  source computes both with `Array.prototype.reduce`, a left fold; the
  reference definitions below are plain sums.
 */
module CartTotals {
  import opened Queries

  /** Sum of a sequence of integers, peeling off the last element. */
  function SumOf(xs: seq<int>): int {
    if xs == [] then 0 else SumOf(xs[..|xs| - 1]) + xs[|xs| - 1]
  }

  /** `xs.reduce((sum, x) => sum + x, acc)`. */
  function FoldSum(acc: int, xs: seq<int>): int
    decreases |xs|
  {
    if xs == [] then acc else FoldSum(acc + xs[0], xs[1..])
  }

  /** Folding from the left gives the plain sum, whatever the start value. */
  lemma {:induction false} FoldSumIsSum(acc: int, xs: seq<int>)
    ensures FoldSum(acc, xs) == acc + SumOf(xs)
    decreases |xs|
  {
    if xs != [] {
      FoldSumIsSum(acc + xs[0], xs[1..]);
      SumOfFront(xs);
    }
  }

  /** Summing from the front agrees with summing from the back. */
  lemma {:induction false} SumOfFront(xs: seq<int>)
    requires xs != []
    ensures SumOf(xs) == xs[0] + SumOf(xs[1..])
    decreases |xs|
  {
    if |xs| > 1 {
      SumOfFront(xs[..|xs| - 1]);
      assert xs[..|xs| - 1][1..] == xs[1..][..|xs[1..]| - 1];
    }
  }

  /** A line's displayed amount, price × quantity in cents. */
  function LineAmount(line: EnrichedLine): int {
    line.price * line.quantity
  }

  /** The per-line amounts the checkout summary lists, in cart order. */
  function LineAmounts(lines: seq<EnrichedLine>): (amounts: seq<int>)
    ensures |amounts| == |lines|
    ensures forall i :: 0 <= i < |lines| ==> amounts[i] == lines[i].price * lines[i].quantity
  {
    seq(|lines|, i requires 0 <= i < |lines| => LineAmount(lines[i]))
  }

  /** The quantities of the lines, in cart order. */
  function Quantities(lines: seq<EnrichedLine>): (qs: seq<int>)
    ensures |qs| == |lines|
    ensures forall i :: 0 <= i < |lines| ==> qs[i] == lines[i].quantity
  {
    seq(|lines|, i requires 0 <= i < |lines| => lines[i].quantity)
  }

  /** The cart total, folded as the pages fold it; equal to the sum of the
      per-line amounts, and never negative when no price or quantity is. */
  function CartTotal(lines: seq<EnrichedLine>): (total: int)
    ensures total == SumOf(LineAmounts(lines))
    ensures (forall i :: 0 <= i < |lines| ==> lines[i].price >= 0 && lines[i].quantity >= 0) ==> total >= 0
  {
    FoldSumIsSum(0, LineAmounts(lines));
    NonNegativeSum(LineAmounts(lines));
    FoldSum(0, LineAmounts(lines))
  }

  /** The number of items in the cart: the sum of the line quantities. */
  function ItemTotal(lines: seq<EnrichedLine>): (count: int)
    ensures count == SumOf(Quantities(lines))
  {
    FoldSumIsSum(0, Quantities(lines));
    FoldSum(0, Quantities(lines))
  }

  lemma {:induction false} NonNegativeSum(xs: seq<int>)
    ensures (forall i :: 0 <= i < |xs| ==> xs[i] >= 0) ==> SumOf(xs) >= 0
    decreases |xs|
  {
    if xs != [] {
      NonNegativeSum(xs[..|xs| - 1]);
    }
  }

  /** With every quantity at least 1, the item count is at least the number
      of lines, so it is positive exactly when the cart has a line. */
  lemma {:induction false} ItemTotalAtLeastLines(lines: seq<EnrichedLine>)
    requires forall i :: 0 <= i < |lines| ==> lines[i].quantity >= 1
    ensures ItemTotal(lines) >= |lines|
    ensures ItemTotal(lines) > 0 <==> |lines| > 0
    decreases |lines|
  {
    if lines != [] {
      var front := lines[..|lines| - 1];
      ItemTotalAtLeastLines(front);
      assert Quantities(lines)[..|lines| - 1] == Quantities(front);
    }
  }

  /** Prices are live: changing the price of one line from `p` to `p'` moves
      the total by exactly (p' − p) × quantity. */
  lemma {:induction false} RepricedTotal(lines: seq<EnrichedLine>, i: nat, newPrice: int)
    requires i < |lines|
    ensures CartTotal(lines[i := lines[i].(price := newPrice)])
         == CartTotal(lines) + (newPrice - lines[i].price) * lines[i].quantity
    decreases |lines|
  {
    var lines' := lines[i := lines[i].(price := newPrice)];
    var n := |lines| - 1;
    assert LineAmounts(lines)[..n] == LineAmounts(lines[..n]);
    assert LineAmounts(lines')[..n] == LineAmounts(lines'[..n]);
    if i < n {
      RepricedTotal(lines[..n], i, newPrice);
      assert lines'[..n] == lines[..n][i := lines[i].(price := newPrice)];
    } else {
      assert lines'[..n] == lines[..n];
    }
  }
}
