/** Arbitrary sequences of `_ClientList` mutations: the cursor invariant
    holds after every one of them. */
module ClientListTrace {
  import opened Results
  import opened ClientLists

  /** One mutating call on a client list, with its arguments. */
  datatype Op<W> =
    | AddOp(w: W, offset: int, position: Option<string>)
    | RemoveOp(w: W)
    | RotateUpOp(maintain: bool)
    | RotateDownOp(maintain: bool)
    | ShuffleUpOp(maintain: bool)
    | ShuffleDownOp(maintain: bool)
    | FocusOp(w: W)
    | SwapOp(c1: W, c2: W, focus: int)
    | JoinOp(other: seq<W>, offset: int)
    | SetIndexOp(x: int)
    | SetItemOp(i: int, value: W)

  /** The calls that cannot raise: all but `focus`, `swap` and `__setitem__`. */
  predicate CannotRaise<W>(op: Op<W>) {
    !op.FocusOp? && !op.SwapOp? && !op.SetItemOp?
  }

  /** Performs one call; a raising call yields its error. */
  function Apply<W(==)>(c: ClientList<W>, op: Op<W>): (r: Result<ClientList<W>>)
    requires Valid(c)
    ensures r.Ok? ==> Valid(r.value)
    ensures CannotRaise(op) ==> r.Ok?
    ensures r.Err? && !op.SetItemOp? ==> r.error == NotFound
    ensures r.Err? && op.SetItemOp? ==> r.error == OutOfRange
  {
    match op
    case AddOp(w, offset, position) => Ok(AddClient(c, w, offset, position))
    case RemoveOp(w) => Ok(Remove(c, w).0)
    case RotateUpOp(m) => Ok(RotateUp(c, m))
    case RotateDownOp(m) => Ok(RotateDown(c, m))
    case ShuffleUpOp(m) => Ok(ShuffleUp(c, m))
    case ShuffleDownOp(m) => Ok(ShuffleDown(c, m))
    case FocusOp(w) => Focus(c, w)
    case SwapOp(c1, c2, focus) => Swap(c, c1, c2, focus)
    case JoinOp(other, offset) => Ok(Join(c, ClientList(other, 0), offset))
    case SetIndexOp(x) => Ok(SetIndex(c, x))
    case SetItemOp(i, value) => SetItem(c, i, value)
  }

  /** Performs the calls in order, stopping at the first that raises. The
      cursor stays valid throughout, and a trace of calls that cannot raise
      runs to the end. */
  function Replay<W(==)>(c: ClientList<W>, ops: seq<Op<W>>): (r: Result<ClientList<W>>)
    requires Valid(c)
    ensures r.Ok? ==> Valid(r.value)
    ensures (forall k :: 0 <= k < |ops| ==> CannotRaise(ops[k])) ==> r.Ok?
    decreases |ops|
  {
    if |ops| == 0 then Ok(c)
    else
      match Apply(c, ops[0])
      case Err(e) => Err(e)
      case Ok(next) => Replay(next, ops[1..])
  }
}
