/** The shape shared by the two sheet parsers of ExcelDataParserJson.py:
    a loop over rows 0..nrows-1 that threads some state through a row body
    and stops at the first row that raises. */
module RowScan {
  import opened Wrappers
  import opened Grid

  /** The loop over rows 0..n-1 from `init`, with `step` as its body. */
  function Fold<S>(init: S, step: (nat, S) -> Result<S, ParseError>, n: nat): Result<S, ParseError> {
    if n == 0 then Ok(init)
    else match Fold(init, step, n - 1)
      case Err(e) => Err(e)
      case Ok(st) => step(n - 1, st)
  }

  /** Once a row raises, every longer loop raises the same error. */
  lemma {:induction false} FoldErr<S>(init: S, step: (nat, S) -> Result<S, ParseError>, m: nat, n: nat)
    requires m <= n
    requires Fold(init, step, m).Err?
    ensures Fold(init, step, n) == Fold(init, step, m)
    decreases n - m
  {
    if m < n {
      FoldErr(init, step, m, n - 1);
    }
  }

  /** A property of (rows done, outcome so far) that holds before the first
      row, that each row keeps and that an error keeps, holds after the
      last row. */
  lemma {:induction false} FoldInduct<S>(init: S, step: (nat, S) -> Result<S, ParseError>, n: nat,
                                         p: (nat, Result<S, ParseError>) -> bool)
    requires p(0, Ok(init))
    requires forall row: nat, st: S :: p(row, Ok(st)) ==> p(row + 1, step(row, st))
    requires forall row: nat, e: ParseError :: p(row, Err(e)) ==> p(row + 1, Err(e))
    ensures p(n, Fold(init, step, n))
  {
    if n > 0 {
      FoldInduct(init, step, n - 1, p);
      match Fold(init, step, n - 1)
      case Ok(st) => assert p(n - 1, Ok(st));
      case Err(e) => assert p(n - 1, Err(e));
    }
  }
}
