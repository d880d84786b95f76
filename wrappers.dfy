/** Option and Result, and the Python exceptions the pipeline can raise. */
module Wrappers {

  datatype Option<+T> = None | Some(value: T)

  /** The exceptions that escape the pipeline's functions uncaught. */
  datatype Exception =
    | IndexError                    // `df.index[0]` of an empty frame, `findall(...)[0]` with no match
    | KeyError(key: string)         // a missing DataFrame column or a missing rate in the API answer
    | ValueError(message: string)   // `int(...)`, `pd.concat([])`, `pd.to_datetime` on a bad key
    | IllegalMonthError(month: int) // `calendar.monthrange` with a month outside 1..12
    | AttributeError(name: string)  // `.text` of the `None` that `soup.find` returns

  datatype Result<+R> = Success(value: R) | Failure(error: Exception) {
    predicate IsFailure() {
      Failure?
    }

    function PropagateFailure<U>(): Result<U>
      requires Failure?
    {
      Failure(error)
    }

    function Extract(): R
      requires Success?
    {
      value
    }
  }

  /** `Series.apply(f)` with an `f` that may raise: `f` is applied to the
      elements in order and the first exception ends the whole step. */
  function ApplyEach<K, T>(keys: seq<K>, f: K -> Result<T>): (r: Result<seq<T>>)
    ensures r.Success? ==> |r.value| == |keys| && forall i :: 0 <= i < |keys| ==> f(keys[i]) == Success(r.value[i])
    ensures r.Failure? ==> exists i :: 0 <= i < |keys| && f(keys[i]) == Failure(r.error) && forall j :: 0 <= j < i ==> f(keys[j]).Success?
  {
    if |keys| == 0 then Success([])
    else
      var first :- f(keys[0]);
      var rest := ApplyEach(keys[1..], f);
      if rest.Failure? then
        var i :| 0 <= i < |keys| - 1 && f(keys[1..][i]) == Failure(rest.error) && forall j :: 0 <= j < i ==> f(keys[1..][j]).Success?;
        assert f(keys[i + 1]) == Failure(rest.error);
        assert forall j :: 1 <= j < i + 1 ==> f(keys[j]).Success? by {
          forall j | 1 <= j < i + 1 ensures f(keys[j]).Success? { assert keys[j] == keys[1..][j - 1]; }
        }
        Failure(rest.error)
      else
        Success([first] + rest.value)
  }
}
