/** The two stock operations of the batch service: reading a notebook's total
    stock and removing a requested quantity from its batches in place. The
    repository lookups are inputs: whether the notebook exists, and the
    quantities of the batches the lookup by notebook returns, in its order. */
module LoteService {
  import opened Int32
  import opened Ledger

  /** The exceptions the service throws. */
  datatype Error =
    | NotebookNotFound   // the notebook id is unknown
    | NoLotes            // the notebook has no batches
    | InsufficientStock  // the batches could not cover the request

  /** What a service call returns or throws; `Result<()>` for a `void` method. */
  datatype Result<T> = Ok(value: T) | Err(error: Error)

  /** Batch quantities a Java `int` field can hold and the ledger keeps non-negative. */
  predicate ValidQuantities(lotes: seq<int>) {
    forall i :: 0 <= i < |lotes| ==> 0 <= lotes[i] <= INT_MAX
  }

  /** `verificarEstoque` as written: rejects an unknown notebook, otherwise sums
      the batch quantities in `int` arithmetic, which wraps past `INT_MAX`. */
  function VerificarEstoque(notebookExists: bool, lotes: seq<int>): (r: Result<int>)
    ensures !notebookExists <==> r == Err(NotebookNotFound)
    ensures notebookExists ==> r.Ok? && IsInt32(r.value) && (r.value - Sum(lotes)) % MODULUS == 0
    ensures notebookExists && IsInt32(Sum(lotes)) ==> r == Ok(Sum(lotes))
    ensures notebookExists && lotes == [] ==> r == Ok(0)
  {
    if !notebookExists then Err(NotebookNotFound) else Ok(Wrap32(Sum(lotes)))
  }

  /** The total stock the service evidently means to report: the exact sum. */
  function VerificarEstoqueExato(notebookExists: bool, lotes: seq<int>): (r: Result<int>)
    requires ValidQuantities(lotes)
    ensures !notebookExists <==> r == Err(NotebookNotFound)
    ensures notebookExists ==> r.Ok? && r.value >= 0
    ensures notebookExists && lotes == [] ==> r == Ok(0)
  {
    SumNonNegative(lotes);
    if !notebookExists then Err(NotebookNotFound) else Ok(Sum(lotes))
  }

  /** Two batches of `INT_MAX` and 1 units: the stock reported as written is
      negative. */
  lemma VerificarEstoqueOverflows()
    ensures ValidQuantities([INT_MAX, 1])
    ensures VerificarEstoque(true, [INT_MAX, 1]) == Ok(INT_MIN)
    ensures VerificarEstoqueExato(true, [INT_MAX, 1]) == Ok(INT_MAX + 1)
  {
    assert [INT_MAX, 1][1..] == [1];
    assert [1][1..] == [];
    assert Sum([1]) == 1;
    assert Sum([INT_MAX, 1]) == INT_MAX + 1;
  }

  /** The exact total agrees with the as-written one wherever that one does not
      wrap, and a covered decrement lowers it by exactly the request. */
  lemma {:induction false} VerificarEstoqueExatoAfterDecrement(lotes: seq<int>, quantidade: int)
    requires ValidQuantities(lotes)
    requires 0 <= quantidade <= Sum(lotes)
    ensures ValidQuantities(Decrement(lotes, 0, quantidade).lotes)
    ensures VerificarEstoqueExato(true, Decrement(lotes, 0, quantidade).lotes)
            == Ok(Sum(lotes) - quantidade)
    ensures IsInt32(Sum(lotes)) ==>
              VerificarEstoque(true, Decrement(lotes, 0, quantidade).lotes) == Ok(Sum(lotes) - quantidade)
  {
    DecrementOutcome(lotes, quantidade);
  }

  /** The batches of one notebook. `lotes[i]` is the `quantidade` of the i-th
      batch the lookup by notebook returns, and an array write is the in-place
      update of that batch entity. */
  class LoteLedger {
    const lotes: array<int>

    ghost predicate Valid()
      reads this, lotes
    {
      ValidQuantities(lotes[..])
    }

    constructor (quantidades: seq<int>)
      requires ValidQuantities(quantidades)
      ensures Valid() && fresh(lotes) && lotes[..] == quantidades
    {
      lotes := new int[|quantidades|](i requires 0 <= i < |quantidades| => quantidades[i]);
    }

    /** `atualizarEstoque`: removes `quantidade` units from the batches in
        order. It fails when there is no batch at all, and fails after the pass
        when the batches could not cover the request; the array then holds the
        batches' state at the moment the exception is raised. */
    method AtualizarEstoque(quantidade: int) returns (r: Result<()>)
      requires Valid() && IsInt32(quantidade)
      modifies lotes
      ensures Valid()
      ensures lotes.Length == 0 ==> r == Err(NoLotes)
      ensures lotes.Length > 0 ==> lotes[..] == Decrement(old(lotes[..]), 0, quantidade).lotes
      ensures r == Ok(()) <==> lotes.Length > 0 && quantidade <= Sum(old(lotes[..]))
      ensures r.Err? && lotes.Length > 0 ==>
                r == Err(InsufficientStock) && forall i :: 0 <= i < lotes.Length ==> lotes[i] == 0
      ensures r == Ok(()) && quantidade >= 0 ==> Sum(lotes[..]) == Sum(old(lotes[..])) - quantidade
      ensures quantidade <= 0 ==> lotes[..] == old(lotes[..])
      ensures forall i :: 0 <= i < lotes.Length ==> lotes[i] <= old(lotes[i])
      ensures forall i, j :: 0 <= i < j < lotes.Length && lotes[i] > 0 ==> lotes[j] == old(lotes[j])
    {
      if lotes.Length == 0 {
        return Err(NoLotes);
      }
      ghost var s0 := lotes[..];
      var restante := quantidade;
      var i := 0;
      while i < lotes.Length
        invariant 0 <= i <= lotes.Length
        invariant restante == quantidade || 0 <= restante <= quantidade
        invariant forall k :: i <= k < lotes.Length ==> lotes[k] == s0[k]
        invariant Decrement(lotes[..], i, restante) == Decrement(s0, 0, quantidade)
      {
        var quantidadeLote := lotes[i];
        if restante <= 0 {
          break;
        }
        if quantidadeLote <= restante {
          restante := restante - quantidadeLote;
          lotes[i] := 0;
        } else {
          lotes[i] := quantidadeLote - restante;
          restante := 0;
        }
        i := i + 1;
      }
      DecrementOutcome(s0, quantidade);
      ghost var p := Decrement(s0, 0, quantidade);
      assert lotes[..] == p.lotes && restante == p.restante;
      forall a, b | 0 <= a < b < lotes.Length && lotes[a] > 0
        ensures lotes[b] == s0[b]
      {
        assert lotes[a] == p.lotes[a] && lotes[b] == p.lotes[b];
      }
      if restante > 0 {
        return Err(InsufficientStock);
      }
      return Ok(());
    }
  }
}
