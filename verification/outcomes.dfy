/** Optional values, the error kinds the wound pipeline raises, and a
    failure-compatible Result over them (usable with `:-`). */
module Outcomes {

  datatype Option<+T> = None | Some(value: T)

  /** One constructor per exception the modelled code can raise. */
  datatype Error =
    | MalformedImagePath(path: string)    // ValueError from the image-path pattern check
    | MissingFile(path: string)           // FileNotFoundError in the constructor
    | UnsupportedExtension(ext: string)   // ValueError from save_all's extension check
    | MalformedCsvPath(path: string)      // ValueError from the ledger-path pattern check
    | HeaderMismatch(path: string)        // ValueError: ledger header differs from the schema
    | IsADirectory(path: string)          // opening a directory as the ledger
    | ChannelCountMismatch                // unpacking cv2.split into three planes fails
    | SizeMismatch                        // cv2.bitwise_and / numpy `|` on differently sized buffers
    | ColorOutOfRange                     // ValueError from RGB.CUSTOM
    | EngineFailure(reason: string)       // anything raised inside an external engine

  datatype Result<+T> = Ok(value: T) | Err(error: Error) {

    predicate IsFailure() {
      Err?
    }

    function PropagateFailure<U>(): Result<U>
      requires Err?
    {
      Err(error)
    }

    function Extract(): T
      requires Ok?
    {
      value
    }
  }

  /** Applies `f` to each element in order; the first error ends it, and it
      is the error of the first element `f` fails on. */
  function MapAll<A, B>(f: A -> Result<B>, xs: seq<A>): (r: Result<seq<B>>)
    ensures r.Ok? <==> forall i | 0 <= i < |xs| :: f(xs[i]).Ok?
    ensures r.Ok? ==> |r.value| == |xs| && forall i | 0 <= i < |xs| :: f(xs[i]) == Ok(r.value[i])
    ensures r.Err? ==> exists i | 0 <= i < |xs| :: f(xs[i]) == Err(r.error) && forall j | 0 <= j < i :: f(xs[j]).Ok?
  {
    if |xs| == 0 then Ok([])
    else if f(xs[0]).Err? then Err(f(xs[0]).error)
    else
      var rest := MapAll(f, xs[1..]);
      assert forall i | 1 <= i < |xs| :: xs[i] == xs[1..][i - 1];
      if rest.Err? then
        assert exists i | 0 <= i < |xs| :: f(xs[i]) == Err(rest.error) && forall j | 0 <= j < i :: f(xs[j]).Ok? by {
          var k :| 0 <= k < |xs| - 1 && f(xs[1..][k]) == Err(rest.error) && forall j | 0 <= j < k :: f(xs[1..][j]).Ok?;
          assert f(xs[k + 1]) == Err(rest.error);
          forall j | 0 <= j < k + 1
            ensures f(xs[j]).Ok?
          {
            if j > 0 {
              assert f(xs[1..][j - 1]).Ok?;
            }
          }
        }
        Err(rest.error)
      else
        Ok([f(xs[0]).value] + rest.value)
  }
}
