/** Dividing a total over workers: chunkSize of internal/wallet/shard.go and the closure of
    Load.Shard in internal/scenario/schema.go are the same formula. */
module Division {
  import opened Prelude

  /** Go's division truncates toward zero and its remainder takes the dividend's sign. */
  function GoDiv(a: int, b: int): int
    requires b > 0
  {
    if a >= 0 then a / b else -(-a / b)
  }

  function GoMod(a: int, b: int): int
    requires b > 0
  {
    a - b * GoDiv(a, b)
  }

  function Divide(total: int, index: nat, count: int): int
    requires count > 0
  {
    var share := GoDiv(total, count);
    if index < GoMod(total, count) then share + 1 else share
  }

  /** The sum of the shares before `index`. */
  function StartOf(total: nat, index: nat, count: int): (start: nat)
    requires count > 0
  {
    MulNonNegative(index, total / count);
    index * (total / count) + Min(index, total % count)
  }

  lemma MulNonNegative(a: nat, b: nat)
    ensures a * b >= 0
  {
  }

  lemma StartStep(total: nat, index: nat, count: int)
    requires count > 0
    ensures StartOf(total, index + 1, count) == StartOf(total, index, count) + Divide(total, index, count)
  {
    assert (index + 1) * (total / count) == index * (total / count) + total / count;
    assert GoMod(total, count) == total % count;
  }

  lemma StartEnd(total: nat, count: int)
    requires count > 0
    ensures StartOf(total, count, count) == total
  {
  }

  lemma {:induction false} StartMonotone(total: nat, i: nat, j: nat, count: int)
    requires count > 0 && i <= j
    ensures StartOf(total, i, count) <= StartOf(total, j, count)
    decreases j
  {
    if i < j {
      StartMonotone(total, i, j - 1, count);
      StartStep(total, j - 1, count);
      DivideBounds(total, j - 1, count);
    }
  }

  lemma DivideBounds(total: nat, index: nat, count: int)
    requires count > 0
    ensures total / count <= Divide(total, index, count) <= total / count + 1
    ensures 0 <= Divide(total, index, count)
  {
  }

  /** Shares are as even as possible and earlier ones are never smaller. */
  lemma DivideIsEven(total: nat, i: nat, j: nat, count: int)
    requires count > 0 && i <= j
    ensures Divide(total, j, count) <= Divide(total, i, count) <= Divide(total, j, count) + 1
  {
  }

  /** A worker gets something exactly when the total reaches it. */
  lemma DividePositive(total: nat, index: nat, count: int)
    requires index < count
    ensures Divide(total, index, count) > 0 <==> index < total
  {
    if total < count {
      QuotientIs(total, count, 0, total);
    } else {
      DivAtLeastOne(total, count);
    }
  }

  lemma DivAtLeastOne(a: nat, b: nat)
    requires 0 < b <= a
    ensures a / b >= 1
  {
    QuotientBound(1, a, b);
  }

  /** A larger total never gives any worker less. */
  lemma DivideMonotone(a: nat, b: nat, index: nat, count: int)
    requires count > 0 && a <= b
    ensures Divide(a, index, count) <= Divide(b, index, count)
  {
    if a / count == b / count {
    } else {
      DivMonotone(a, b, count);
    }
  }

  lemma DivMonotone(a: nat, b: nat, count: int)
    requires count > 0 && a <= b
    ensures a / count <= b / count
  {
    QuotientBound(a / count, b, count);
  }

  lemma QuotientBound(q: nat, b: nat, count: int)
    requires count > 0 && q * count <= b
    ensures q <= b / count
  {
    var p := b / count;
    assert b < (p + 1) * count;
    if p < q {
      MulMonotone(p + 1, q, count);
    }
  }

  lemma MulMonotone(a: nat, b: nat, c: nat)
    requires a <= b
    ensures a * c <= b * c
  {
  }

  /** One more unit goes to the worker after the last one that took up the remainder. */
  lemma NextUnit(total: nat, count: int)
    requires count > 0
    ensures Divide(total + 1, total % count, count) == Divide(total, total % count, count) + 1
  {
    var q, r := total / count, total % count;
    if r + 1 < count {
      QuotientIs(total + 1, count, q, r + 1);
    } else {
      QuotientIs(total + 1, count, q + 1, 0);
    }
  }

  lemma QuotientIs(a: nat, count: int, q: nat, r: nat)
    requires r < count && a == q * count + r
    ensures a / count == q && a % count == r
  {
    QuotientBound(q, a, count);
    if q < a / count {
      MulMonotone(q + 1, a / count, count);
    }
  }

  function Shares(total: int, count: int): seq<int>
    requires count > 0
  {
    seq(count, i requires i >= 0 => Divide(total, i, count))
  }

  lemma {:induction false} SumOfFirst(total: nat, count: int, k: nat)
    requires k <= count && count > 0
    ensures Sum(Shares(total, count)[..k]) == StartOf(total, k, count)
  {
    var s := Shares(total, count);
    if k > 0 {
      SumOfFirst(total, count, k - 1);
      assert s[..k] == s[..k - 1] + [Divide(total, k - 1, count)];
      SumSnoc(s[..k - 1], Divide(total, k - 1, count));
      StartStep(total, k - 1, count);
    }
  }

  lemma {:induction false} SumOfSame(x: int, n: nat)
    ensures Sum(seq(n, _ => x)) == n * x
  {
    var s := seq(n, _ => x);
    if n > 0 {
      SumOfSame(x, n - 1);
      assert s[1..] == seq(n - 1, _ => x);
      assert n * x == x + (n - 1) * x;
    }
  }

  /** The shares sum back to the total exactly when the total is not negative or divides evenly:
      Go's remainder of a negative total is negative, so no worker takes it up. */
  lemma SharesConserve(total: int, count: int)
    requires count > 0
    ensures Sum(Shares(total, count)) == total <==> total >= 0 || GoMod(total, count) == 0
  {
    var s := Shares(total, count);
    if total >= 0 {
      SumOfFirst(total, count, count);
      StartEnd(total, count);
      assert s[..count] == s;
    } else {
      NegativeRemainder(total, count);
      assert s == seq(count, _ => GoDiv(total, count));
      SumOfSame(GoDiv(total, count), count);
    }
  }

  lemma NegativeRemainder(total: int, count: int)
    requires count > 0 && total < 0
    ensures GoMod(total, count) <= 0
  {
  }
}
