/** The stock ledger of one notebook, as values: the quantities of its batches
    ("lotes") in the order the repository returns them, the total stock, and the
    greedy decrement pass that `atualizarEstoque` performs over them. */
module Ledger {

  /** Total stock: the sum of the batch quantities. */
  function Sum(lotes: seq<int>): int {
    if lotes == [] then 0 else lotes[0] + Sum(lotes[1..])
  }

  /** No batch holds a negative quantity. */
  predicate AllNonNegative(lotes: seq<int>) {
    forall i :: 0 <= i < |lotes| ==> 0 <= lotes[i]
  }

  /** The state after a pass: the batch quantities and what is still owed. */
  datatype Pass = Pass(lotes: seq<int>, restante: int)

  /** The decrement pass from batch `i` on, with `restante` still owed: stop as
      soon as nothing is owed; drain a batch that holds no more than what is
      owed and go on, otherwise take the rest of the request from it (after
      which nothing is owed). Batches before `i` are left as they are. */
  function Decrement(lotes: seq<int>, i: nat, restante: int): (p: Pass)
    requires i <= |lotes|
    ensures |p.lotes| == |lotes|
    decreases |lotes| - i
  {
    if i == |lotes| || restante <= 0 then Pass(lotes, restante)
    else if lotes[i] <= restante then Decrement(lotes[i := 0], i + 1, restante - lotes[i])
    else Decrement(lotes[i := lotes[i] - restante], i + 1, 0)
  }

  lemma {:induction false} SumNonNegative(lotes: seq<int>)
    requires AllNonNegative(lotes)
    ensures Sum(lotes) >= 0
  {
    if lotes != [] {
      SumNonNegative(lotes[1..]);
    }
  }

  /** Setting one batch to `v` changes the total by `v` minus its old quantity. */
  lemma {:induction false} SumUpdate(lotes: seq<int>, k: nat, v: int)
    requires k < |lotes|
    ensures Sum(lotes[k := v]) == Sum(lotes) - lotes[k] + v
  {
    if k == 0 {
      assert lotes[k := v][1..] == lotes[1..];
    } else {
      assert lotes[k := v][1..] == lotes[1..][k - 1 := v];
      SumUpdate(lotes[1..], k - 1, v);
    }
  }

  /** The stock from batch `i` on is that batch plus the stock after it. */
  lemma SumFrom(lotes: seq<int>, i: nat)
    requires i < |lotes|
    ensures Sum(lotes[i..]) == lotes[i] + Sum(lotes[i + 1..])
  {
  }

  /** No batch goes negative, and no batch gains stock. */
  lemma {:induction false} DecrementBounds(lotes: seq<int>, i: nat, restante: int)
    requires i <= |lotes| && AllNonNegative(lotes)
    ensures forall k :: 0 <= k < |lotes| ==> 0 <= Decrement(lotes, i, restante).lotes[k] <= lotes[k]
    decreases |lotes| - i
  {
    if i < |lotes| && restante > 0 {
      if lotes[i] <= restante {
        DecrementBounds(lotes[i := 0], i + 1, restante - lotes[i]);
      } else {
        DecrementBounds(lotes[i := lotes[i] - restante], i + 1, 0);
      }
    }
  }

  /** Conservation: what is still owed plus what was taken out of the batches is
      what was owed when the pass started. */
  lemma {:induction false} DecrementConserves(lotes: seq<int>, i: nat, restante: int)
    requires i <= |lotes|
    ensures Sum(Decrement(lotes, i, restante).lotes) + (restante - Decrement(lotes, i, restante).restante)
            == Sum(lotes)
    decreases |lotes| - i
  {
    if i < |lotes| && restante > 0 {
      if lotes[i] <= restante {
        SumUpdate(lotes, i, 0);
        DecrementConserves(lotes[i := 0], i + 1, restante - lotes[i]);
      } else {
        SumUpdate(lotes, i, lotes[i] - restante);
        DecrementConserves(lotes[i := lotes[i] - restante], i + 1, 0);
      }
    }
  }

  /** What is still owed after the pass: what was owed when it was not positive
      (and then nothing changes), otherwise 0 when the stock from batch `i` on
      covers it and the shortfall when it does not. */
  lemma {:induction false} DecrementRestante(lotes: seq<int>, i: nat, restante: int)
    requires i <= |lotes| && AllNonNegative(lotes)
    ensures restante <= 0 ==> Decrement(lotes, i, restante) == Pass(lotes, restante)
    ensures restante > 0 ==> Decrement(lotes, i, restante).restante
                             == if restante <= Sum(lotes[i..]) then 0 else restante - Sum(lotes[i..])
    decreases |lotes| - i
  {
    if i < |lotes| && restante > 0 {
      SumFrom(lotes, i);
      SumNonNegative(lotes[i + 1..]);
      if lotes[i] <= restante {
        assert lotes[i := 0][i + 1..] == lotes[i + 1..];
        DecrementRestante(lotes[i := 0], i + 1, restante - lotes[i]);
      } else {
        DecrementRestante(lotes[i := lotes[i] - restante], i + 1, 0);
      }
    }
  }

  /** Only the batches from `i` on are touched, and only a prefix of those:
      once a batch is left holding stock, every later batch is as it was. */
  lemma {:induction false} DecrementPrefix(lotes: seq<int>, i: nat, restante: int)
    requires i <= |lotes|
    ensures forall k :: 0 <= k < i ==> Decrement(lotes, i, restante).lotes[k] == lotes[k]
    ensures forall a, b :: i <= a < b < |lotes| && Decrement(lotes, i, restante).lotes[a] > 0
                           ==> Decrement(lotes, i, restante).lotes[b] == lotes[b]
    decreases |lotes| - i
  {
    if i < |lotes| && restante > 0 {
      if lotes[i] <= restante {
        DecrementPrefix(lotes[i := 0], i + 1, restante - lotes[i]);
      } else {
        DecrementPrefix(lotes[i := lotes[i] - restante], i + 1, 0);
        assert Decrement(lotes[i := lotes[i] - restante], i + 1, 0).lotes == lotes[i := lotes[i] - restante];
      }
    }
  }

  /** Owing more than the stock from batch `i` on drains every one of those
      batches to zero. */
  lemma {:induction false} DecrementShortfall(lotes: seq<int>, i: nat, restante: int)
    requires i <= |lotes| && AllNonNegative(lotes)
    requires restante > Sum(lotes[i..])
    ensures forall k :: i <= k < |lotes| ==> Decrement(lotes, i, restante).lotes[k] == 0
    decreases |lotes| - i
  {
    if i < |lotes| {
      SumFrom(lotes, i);
      SumNonNegative(lotes[i + 1..]);
      assert lotes[i := 0][i + 1..] == lotes[i + 1..];
      DecrementShortfall(lotes[i := 0], i + 1, restante - lotes[i]);
      DecrementPrefix(lotes[i := 0], i + 1, restante - lotes[i]);
    }
  }

  /** Everything the whole pass promises, gathered for the in-place decrement. */
  lemma DecrementOutcome(lotes: seq<int>, quantidade: int)
    requires AllNonNegative(lotes)
    ensures var p := Decrement(lotes, 0, quantidade);
      && (forall k :: 0 <= k < |lotes| ==> 0 <= p.lotes[k] <= lotes[k])
      && (p.restante > 0 <==> quantidade > Sum(lotes))
      && (p.restante > 0 ==> forall k :: 0 <= k < |lotes| ==> p.lotes[k] == 0)
      && (p.restante <= 0 && quantidade >= 0 ==> Sum(p.lotes) == Sum(lotes) - quantidade)
      && (quantidade <= 0 ==> p.lotes == lotes)
      && (forall a, b :: 0 <= a < b < |lotes| && p.lotes[a] > 0 ==> p.lotes[b] == lotes[b])
  {
    assert lotes[0..] == lotes;
    SumNonNegative(lotes);
    DecrementBounds(lotes, 0, quantidade);
    DecrementConserves(lotes, 0, quantidade);
    DecrementRestante(lotes, 0, quantidade);
    DecrementPrefix(lotes, 0, quantidade);
    if quantidade > Sum(lotes) {
      DecrementShortfall(lotes, 0, quantidade);
    }
  }

  /** Batches [5, 3], request 6: the first is drained, the second keeps 2. */
  lemma PartialScenario()
    ensures Decrement([5, 3], 0, 6) == Pass([0, 2], 0)
  {
  }

  /** Batches [5, 3], request 10: both are drained and 2 is still owed. */
  lemma ShortfallScenario()
    ensures Decrement([5, 3], 0, 10) == Pass([0, 0], 2)
  {
  }
}
