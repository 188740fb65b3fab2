/** The post-deadline classification loop of `Nucleus.query` in
    train_memory.py. After the shared deadline every future is inspected once,
    in uid order, and its result slot and success flag are filled in place.

    The RPC machinery (receptors, signing, the sleep, logging) is not
    modelled: each future is reduced to its state at the moment it is
    inspected, and the response decoder is a parameter that either returns a
    tensor or raises. */
module Dispatch {
  import opened PyErrors
  import opened Proto

  /** The state of one forward call's future when it is inspected. */
  datatype FutureState<P> =
    | NotDone                                 // still running: it is cancelled
    | Done(returnCode: int, tensors: seq<P>)  // completed with a response message
    | Raised                                  // `result()` raises an RPC fault (which has `details`)

  /** Slot `i` of a completed query is a success exactly when its future was
      done, returned the success code, and its first tensor decoded. */
  predicate SlotSucceeds<P, R>(f: FutureState<P>, decode: P -> Option<R>) {
    f.Done? && f.returnCode == SUCCESS_CODE && |f.tensors| > 0 && decode(f.tensors[0]).Some?
  }

  /** A slot whose handling lets an exception escape `query`: a success code
      with no tensor, or a tensor the decoder refuses. The handler reads
      `e.details`, which those exceptions do not have, so the handler itself
      raises AttributeError. */
  predicate SlotEscapes<P, R>(f: FutureState<P>, decode: P -> Option<R>) {
    f.Done? && f.returnCode == SUCCESS_CODE && (|f.tensors| == 0 || decode(f.tensors[0]).None?)
  }

  /** query's classification loop. `results` starts as `nill` in every slot,
      `successes` as False; each future is inspected in order and writes only
      its own slot. A future not done is cancelled and its slot keeps the
      defaults; a done future with a code other than 1, or one whose
      `result()` raises an RPC fault, keeps the defaults too; a done future
      with code 1 stores its decoded tensor and marks success. */
  method Query<P, R>(futures: seq<FutureState<P>>, nill: R, decode: P -> Option<R>)
    returns (r: Result<(seq<R>, seq<bool>)>, cancelled: seq<bool>)
    ensures r.Raise? <==> exists i :: 0 <= i < |futures| && SlotEscapes(futures[i], decode)
    ensures r.Raise? ==> r.error == AttributeError
    ensures r.Ok? ==> |r.value.0| == |futures| && |r.value.1| == |futures| && |cancelled| == |futures|
    ensures r.Ok? ==> forall i :: 0 <= i < |futures| ==>
              (r.value.1[i] <==> SlotSucceeds(futures[i], decode))
    ensures r.Ok? ==> forall i :: 0 <= i < |futures| ==>
              r.value.0[i] == (if SlotSucceeds(futures[i], decode) then decode(futures[i].tensors[0]).value else nill)
    ensures r.Ok? ==> forall i :: 0 <= i < |futures| ==> (cancelled[i] <==> futures[i].NotDone?)
  {
    var results := new R[|futures|](_ => nill);
    var successes := new bool[|futures|](_ => false);
    var cancels := new bool[|futures|](_ => false);
    var index := 0;
    while index < |futures|
      invariant 0 <= index <= |futures|
      invariant forall i :: 0 <= i < index ==> !SlotEscapes(futures[i], decode)
      invariant forall i :: 0 <= i < index ==> (successes[i] <==> SlotSucceeds(futures[i], decode))
      invariant forall i :: 0 <= i < index ==>
                  results[i] == (if SlotSucceeds(futures[i], decode) then decode(futures[i].tensors[0]).value else nill)
      invariant forall i :: 0 <= i < index ==> (cancels[i] <==> futures[i].NotDone?)
      invariant forall i :: index <= i < |futures| ==> results[i] == nill && !successes[i] && !cancels[i]
    {
      match futures[index] {
        case NotDone =>
          cancels[index] := true;
        case Raised =>
        case Done(code, tensors) =>
          if code == SUCCESS_CODE {
            if |tensors| == 0 {
              r, cancelled := Raise(AttributeError), cancels[..];
              return;
            }
            var decoded := decode(tensors[0]);
            if decoded.None? {
              r, cancelled := Raise(AttributeError), cancels[..];
              return;
            }
            results[index] := decoded.value;
            successes[index] := true;
          }
      }
      index := index + 1;
    }
    r, cancelled := Ok((results[..], successes[..])), cancels[..];
  }
}
