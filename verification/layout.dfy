/** `Layout` (libqtile/layout/base.py:41-221) and `_SimpleLayoutBase`
    (base.py:472-537). The owning group is an opaque value `G`; the calls a
    layout makes on it are returned as `GroupCall`s instead of performed. */
module Layouts {
  import opened Results
  import opened Seqs
  import CL = ClientLists

  /** What every layout carries: its configured name and, once cloned for a
      group, that group. */
  datatype Layout<G> = Layout(name: string, group: Option<G>)

  /** A call a layout makes on its owning group. `warp` is None where the
      source leaves `group.focus`'s second argument at its default. */
  datatype GroupCall<W> =
    | FocusWindow(window: W, warp: Option<bool>)
    | LayoutAll

  /** The `group` property: fails while the layout is unattached. */
  function Group<G>(l: Layout<G>): (r: Result<G>)
    ensures r.Err? <==> l.group.None?
    ensures r.Err? ==> r.error == NotAttached
    ensures r.Ok? ==> l.group == Some(r.value)
  {
    match l.group
    case None => Err(NotAttached)
    case Some(g) => Ok(g)
  }

  /** `Layout.clone`: a copy of the template attached to `group`. */
  function Clone<G>(l: Layout<G>, group: G): (r: Layout<G>)
    ensures r.name == l.name
    ensures Group(r) == Ok(group)
  {
    l.(group := Some(group))
  }

  /** `Layout.swap`: rearranging is unsupported unless a layout overrides it. */
  function Swap<W, G>(l: Layout<G>, c1: W, c2: W): (r: Result<()>)
    ensures r.Err? && r.error == Unsupported(l.name)
  {
    Err(Unsupported(l.name))
  }

  /** A layout that keeps its windows in a single client list. */
  datatype SimpleLayout<W, G> = SimpleLayout(base: Layout<G>, clients: CL.ClientList<W>)

  predicate Valid<W, G>(l: SimpleLayout<W, G>) {
    CL.Valid(l.clients)
  }

  /** `_SimpleLayoutBase.__init__`: an unattached template with no clients. */
  function New<W, G>(name: string): (r: SimpleLayout<W, G>)
    ensures Valid(r) && r.base.name == name
    ensures Group(r.base).Err? && |r.clients.clients| == 0
  {
    SimpleLayout(Layout(name, None), CL.Empty())
  }

  /** `_SimpleLayoutBase.clone`: attached to `group`, with a fresh, empty
      client list whatever the template held. */
  function CloneSimple<W, G>(l: SimpleLayout<W, G>, group: G): (r: SimpleLayout<W, G>)
    ensures Valid(r)
    ensures r.base.name == l.base.name && Group(r.base) == Ok(group)
    ensures |r.clients.clients| == 0
  {
    SimpleLayout(Clone(l.base, group), CL.Empty())
  }

  /** `_SimpleLayoutBase.focus`: sets the current client; a non-member raises. */
  function Focus<W(==), G>(l: SimpleLayout<W, G>, w: W): (r: Result<SimpleLayout<W, G>>)
    ensures r.Err? <==> w !in l.clients.clients
    ensures r.Err? ==> r.error == NotFound
    ensures r.Ok? ==> Valid(r.value) && r.value.base == l.base
    ensures r.Ok? ==> r.value.clients.clients == l.clients.clients
    ensures r.Ok? ==> CL.Current(r.value.clients) == Some(w)
    ensures r.Ok? ==> forall j :: 0 <= j < r.value.clients.cur ==> l.clients.clients[j] != w
  {
    match CL.Focus(l.clients, w)
    case Err(e) => Err(e)
    case Ok(c) => Ok(l.(clients := c))
  }

  /** `_SimpleLayoutBase.add_client`, forwarded to the client list. */
  function AddClient<W(==), G>(l: SimpleLayout<W, G>, w: W, offset: int, position: Option<string>)
    : (r: SimpleLayout<W, G>)
    ensures Valid(r) && r.base == l.base
    ensures r.clients == CL.AddClient(l.clients, w, offset, position)
    ensures CL.Current(r.clients) == Some(w)
    ensures |r.clients.clients| == |l.clients.clients| + 1
  {
    l.(clients := CL.AddClient(l.clients, w, offset, position))
  }

  /** `_SimpleLayoutBase.remove`, forwarded to the client list. */
  function Remove<W(==), G>(l: SimpleLayout<W, G>, w: W): (r: (SimpleLayout<W, G>, Option<W>))
    requires Valid(l)
    ensures Valid(r.0) && r.0.base == l.base
    ensures (r.0.clients, r.1) == CL.Remove(l.clients, w)
    ensures w !in l.clients.clients ==> r == (l, None)
    ensures w in l.clients.clients ==> |r.0.clients.clients| == |l.clients.clients| - 1
    ensures r.1.None? <==> w !in l.clients.clients || |r.0.clients.clients| == 0
  {
    var (c, next) := CL.Remove(l.clients, w);
    (l.(clients := c), next)
  }

  /** The window `next` focuses: `focus_next(current) or focus_first()`,
      i.e. the successor of the current client, wrapping to the first.
      Windows are objects, so a found window is never falsy. */
  function NextTarget<W(==)>(c: CL.ClientList<W>): (r: Option<W>)
    requires CL.Valid(c)
    ensures r.None? <==> |c.clients| == 0
    ensures r.Some? ==>
      var i := IndexOf(c.clients, c.clients[c.cur]);
      && (i + 1 < |c.clients| ==> r.value == c.clients[i + 1])
      && (i + 1 == |c.clients| ==> r.value == c.clients[0])
  {
    match CL.Current(c)
    case None => None
    case Some(w) =>
      match CL.FocusNext(c, w).value
      case Some(v) => Some(v)
      case None => CL.FocusFirst(c)
  }

  /** The window `previous` focuses: `focus_previous(current) or
      focus_last()`, the predecessor wrapping to the last. */
  function PreviousTarget<W(==)>(c: CL.ClientList<W>): (r: Option<W>)
    requires CL.Valid(c)
    ensures r.None? <==> |c.clients| == 0
    ensures r.Some? ==>
      var i := IndexOf(c.clients, c.clients[c.cur]);
      && (0 < i ==> r.value == c.clients[i - 1])
      && (i == 0 ==> r.value == c.clients[|c.clients| - 1])
  {
    match CL.Current(c)
    case None => None
    case Some(w) =>
      match CL.FocusPrevious(c, w).value
      case Some(v) => Some(v)
      case None => CL.FocusLast(c)
  }

  /** `_SimpleLayoutBase.next`: nothing at all on an empty layout (not even
      the group lookup); otherwise asks the group to focus the cyclic
      successor with pointer warping, which fails while unattached. */
  function Next<W(==), G>(l: SimpleLayout<W, G>): (r: Result<seq<GroupCall<W>>>)
    requires Valid(l)
    ensures |l.clients.clients| == 0 ==> r == Ok([])
    ensures 0 < |l.clients.clients| && l.base.group.None? ==> r == Err(NotAttached)
    ensures 0 < |l.clients.clients| && l.base.group.Some? ==>
      r == Ok([FocusWindow(NextTarget(l.clients).value, Some(true))])
  {
    if CL.Current(l.clients).None? then Ok([])
    else
      var target := NextTarget(l.clients).value;
      match Group(l.base)
      case Err(e) => Err(e)
      case Ok(_) => Ok([FocusWindow(target, Some(true))])
  }

  /** `_SimpleLayoutBase.previous`, the mirror image of `Next`. */
  function Previous<W(==), G>(l: SimpleLayout<W, G>): (r: Result<seq<GroupCall<W>>>)
    requires Valid(l)
    ensures |l.clients.clients| == 0 ==> r == Ok([])
    ensures 0 < |l.clients.clients| && l.base.group.None? ==> r == Err(NotAttached)
    ensures 0 < |l.clients.clients| && l.base.group.Some? ==>
      r == Ok([FocusWindow(PreviousTarget(l.clients).value, Some(true))])
  {
    if CL.Current(l.clients).None? then Ok([])
    else
      var target := PreviousTarget(l.clients).value;
      match Group(l.base)
      case Err(e) => Err(e)
      case Ok(_) => Ok([FocusWindow(target, Some(true))])
  }

  /** `_SimpleLayoutBase.swap`: swaps in the client list with focus 1, then
      asks the group to re-layout and to focus `w1`. A non-member raises
      before anything changes; an unattached layout raises only after the
      list has been swapped, so the returned layout carries the swap. */
  function SwapSimple<W(==), G>(l: SimpleLayout<W, G>, w1: W, w2: W)
    : (r: (SimpleLayout<W, G>, Result<seq<GroupCall<W>>>))
    requires Valid(l)
    ensures Valid(r.0) && r.0.base == l.base
    ensures r.1.Err? && r.1.error == NotFound <==> w1 !in l.clients.clients || w2 !in l.clients.clients
    ensures r.1.Err? && r.1.error == NotFound ==> r.0 == l
    ensures w1 in l.clients.clients && w2 in l.clients.clients ==>
      && r.0.clients == CL.Swap(l.clients, w1, w2, 1).value
      && (l.base.group.None? ==> r.1 == Err(NotAttached))
      && (l.base.group.Some? ==> r.1 == Ok([LayoutAll, FocusWindow(w1, None)]))
  {
    match CL.Swap(l.clients, w1, w2, 1)
    case Err(e) => (l, Err(e))
    case Ok(c) =>
      var swapped := l.(clients := c);
      match Group(l.base)
      case Err(e) => (swapped, Err(e))
      case Ok(_) => (swapped, Ok([LayoutAll, FocusWindow(w1, None)]))
  }
}
