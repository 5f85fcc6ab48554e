/** Properties of `_SimpleLayoutBase`'s focus cycling and cloning. */
module LayoutLaws {
  import opened Results
  import opened Seqs
  import CL = ClientLists
  import opened Layouts

  /** With unique windows, `next` targets `clients[(cur + 1) % n]`. */
  lemma NextTargetIsSuccessorModN<W>(c: CL.ClientList<W>)
    requires CL.Valid(c) && NoDup(c.clients) && 0 < |c.clients|
    ensures NextTarget(c) == Some(c.clients[(c.cur + 1) % |c.clients|])
  {
    SuccessorModulo(c.cur, |c.clients|);
    IndexOfNoDup(c.clients, c.cur);
  }

  /** With unique windows, `previous` targets `clients[(cur - 1) % n]`. */
  lemma PreviousTargetIsPredecessorModN<W>(c: CL.ClientList<W>)
    requires CL.Valid(c) && NoDup(c.clients) && 0 < |c.clients|
    ensures PreviousTarget(c) == Some(c.clients[(c.cur - 1) % |c.clients|])
  {
    PredecessorModulo(c.cur, |c.clients|);
    IndexOfNoDup(c.clients, c.cur);
  }

  /** One step forward from a position wraps from the last to the first. */
  lemma SuccessorModulo(x: int, n: int)
    requires 0 <= x < n
    ensures (x + 1) % n == if x + 1 < n then x + 1 else 0
  {
  }

  /** One step back from a position wraps from the first to the last. */
  lemma PredecessorModulo(x: int, n: int)
    requires 0 <= x < n
    ensures (x - 1) % n == if 0 < x then x - 1 else n - 1
  {
    if x == 0 {
      assert -1 == (-1) * n + (n - 1);
    }
  }

  /** Focusing the window `next` picked and then asking for `previous`
      leads back to the window that was current. */
  lemma NextThenPrevious<W>(c: CL.ClientList<W>)
    requires CL.Valid(c) && NoDup(c.clients) && 0 < |c.clients|
    ensures CL.Focus(c, NextTarget(c).value).Ok?
    ensures PreviousTarget(CL.Focus(c, NextTarget(c).value).value) == CL.Current(c)
  {
    var n := |c.clients|;
    var v := NextTarget(c).value;
    IndexOfNoDup(c.clients, c.cur);
    var f := CL.Focus(c, v).value;
    var j := if c.cur + 1 < n then c.cur + 1 else 0;
    assert v == c.clients[j];
    IndexOfNoDup(c.clients, j);
    assert f.cur == j;
    IndexOfNoDup(f.clients, f.cur);
  }

  /** Focusing the window `previous` picked and then asking for `next`
      leads back to the window that was current. */
  lemma PreviousThenNext<W>(c: CL.ClientList<W>)
    requires CL.Valid(c) && NoDup(c.clients) && 0 < |c.clients|
    ensures CL.Focus(c, PreviousTarget(c).value).Ok?
    ensures NextTarget(CL.Focus(c, PreviousTarget(c).value).value) == CL.Current(c)
  {
    var n := |c.clients|;
    var v := PreviousTarget(c).value;
    IndexOfNoDup(c.clients, c.cur);
    var f := CL.Focus(c, v).value;
    var j := if 0 < c.cur then c.cur - 1 else n - 1;
    assert v == c.clients[j];
    IndexOfNoDup(c.clients, j);
    assert f.cur == j;
    IndexOfNoDup(f.clients, f.cur);
  }

  /** A clone depends only on the template's name and the group: whatever
      the template's list held is not shared with, nor seen by, the clone. */
  lemma CloneSharesNoClients<W, G>(l1: SimpleLayout<W, G>, l2: SimpleLayout<W, G>, group: G)
    requires l1.base.name == l2.base.name
    ensures CloneSimple(l1, group) == CloneSimple(l2, group)
  {
  }

  /** Re-cloning a clone just re-attaches it. */
  lemma CloneOfClone<W, G>(l: SimpleLayout<W, G>, g1: G, g2: G)
    ensures CloneSimple(CloneSimple(l, g1), g2) == CloneSimple(l, g2)
  {
  }

  /** On an empty layout `next` and `previous` touch nothing, so they do not
      fail even before the layout is attached. */
  lemma EmptyLayoutCyclesQuietly<W, G>(name: string)
    ensures Next(New<W, G>(name)) == Ok([])
    ensures Previous(New<W, G>(name)) == Ok([])
  {
  }
}
