/** `_ClientList` (libqtile/layout/base.py:224-469): an ordered sequence of
    window handles and a cursor to the current one. Windows are opaque and
    compared by equality only. Each operation returns the new state. */
module ClientLists {
  import opened Results
  import opened Seqs

  datatype ClientList<W> = ClientList(clients: seq<W>, cur: int)

  /** The cursor is 0 on an empty list and a valid position otherwise. */
  predicate Valid<W>(c: ClientList<W>) {
    if |c.clients| == 0 then c.cur == 0 else 0 <= c.cur < |c.clients|
  }

  /** `_ClientList()`: no clients, cursor 0. */
  function Empty<W>(): (c: ClientList<W>)
    ensures Valid(c) && |c.clients| == 0
  {
    ClientList([], 0)
  }

  function Abs(x: int): int {
    if x < 0 then -x else x
  }

  function Max(a: int, b: int): int {
    if a < b then b else a
  }

  /** The `current_index` setter: `abs(x % len)`, or 0 when empty. Python's
      `%` takes the sign of the divisor, like Dafny's for a positive one. */
  function SetIndex<W>(c: ClientList<W>, x: int): (r: ClientList<W>)
    ensures r.clients == c.clients && Valid(r)
    ensures 0 <= x < |c.clients| ==> r.cur == x
    ensures 0 < |c.clients| && x == -1 ==> r.cur == |c.clients| - 1
    ensures 0 < |c.clients| && x == |c.clients| ==> r.cur == 0
  {
    if |c.clients| > 0 then c.(cur := Abs(x % |c.clients|)) else c.(cur := 0)
  }

  /** The `current_client` getter. */
  function Current<W>(c: ClientList<W>): (r: Option<W>)
    requires Valid(c)
    ensures r.None? <==> |c.clients| == 0
    ensures r.Some? ==> r.value == c.clients[c.cur]
  {
    if |c.clients| == 0 then None else Some(c.clients[c.cur])
  }

  /** `index`: the first position of `w`, or NotFound. */
  function Index<W(==)>(c: ClientList<W>, w: W): (r: Result<nat>)
    ensures r.Err? <==> w !in c.clients
    ensures r.Err? ==> r.error == NotFound
    ensures r.Ok? ==> r.value < |c.clients| && c.clients[r.value] == w
    ensures r.Ok? ==> forall j :: 0 <= j < r.value ==> c.clients[j] != w
  {
    if w in c.clients then Ok(IndexOf(c.clients, w)) else Err(NotFound)
  }

  /** `focus` / the `current_client` setter: the cursor moves to the first
      occurrence of `w`; a non-member raises. */
  function Focus<W(==)>(c: ClientList<W>, w: W): (r: Result<ClientList<W>>)
    ensures r.Err? <==> w !in c.clients
    ensures r.Err? ==> r.error == NotFound
    ensures r.Ok? ==> r.value.clients == c.clients && Valid(r.value)
    ensures r.Ok? ==> Current(r.value) == Some(w)
    ensures r.Ok? ==> forall j :: 0 <= j < r.value.cur ==> c.clients[j] != w
  {
    if w in c.clients then Ok(c.(cur := IndexOf(c.clients, w))) else Err(NotFound)
  }

  /** `focus_first`: `self[0]`. */
  function FocusFirst<W>(c: ClientList<W>): (r: Option<W>)
    ensures r.None? <==> |c.clients| == 0
    ensures r.Some? ==> r.value == c.clients[0]
  {
    At(c.clients, 0)
  }

  /** `focus_last`: `self[-1]`. */
  function FocusLast<W>(c: ClientList<W>): (r: Option<W>)
    ensures r.None? <==> |c.clients| == 0
    ensures r.Some? ==> r.value == c.clients[|c.clients| - 1]
  {
    At(c.clients, -1)
  }

  /** `focus_next`: the client after `w`, None after the last one (no
      wrap-around). `index` raising for a non-member is not caught. */
  function FocusNext<W(==)>(c: ClientList<W>, w: W): (r: Result<Option<W>>)
    ensures r.Err? <==> w !in c.clients
    ensures r.Err? ==> r.error == NotFound
    ensures w in c.clients ==>
      var i := IndexOf(c.clients, w);
      && (r == Ok(None) <==> i == |c.clients| - 1)
      && (i + 1 < |c.clients| ==> r == Ok(Some(c.clients[i + 1])))
  {
    if w in c.clients then Ok(At(c.clients, IndexOf(c.clients, w) + 1)) else Err(NotFound)
  }

  /** `focus_previous`: the client before `w`, None before the first one. */
  function FocusPrevious<W(==)>(c: ClientList<W>, w: W): (r: Result<Option<W>>)
    ensures r.Err? <==> w !in c.clients
    ensures r.Err? ==> r.error == NotFound
    ensures w in c.clients ==>
      var i := IndexOf(c.clients, w);
      && (r == Ok(None) <==> i == 0)
      && (0 < i ==> r == Ok(Some(c.clients[i - 1])))
  {
    if w !in c.clients then Err(NotFound)
    else
      var idx := IndexOf(c.clients, w);
      if idx > 0 then Ok(At(c.clients, idx - 1)) else Ok(None)
  }

  /** Where `offset_to_current` puts new clients: `max(0, cur + offset)`,
      or the end when that is not a position of the list. */
  function InsertionPoint<W>(c: ClientList<W>, offset: int): (p: nat)
    ensures p <= |c.clients|
    ensures c.cur + offset <= 0 ==> p == 0
    ensures 0 <= c.cur + offset <= |c.clients| ==> p == c.cur + offset
    ensures |c.clients| <= c.cur + offset ==> p == |c.clients|
  {
    var pos := Max(0, c.cur + offset);
    if pos < |c.clients| then pos else |c.clients|
  }

  /** The index `add_client` inserts at for a given `client_position`:
      "after_current" and "before_current" re-enter with offset 1 and 0,
      "top" is the head, and any other string appends. */
  function AddPosition<W>(c: ClientList<W>, offset: int, position: Option<string>): (p: nat)
    ensures p <= |c.clients|
    ensures position.None? ==> p == InsertionPoint(c, offset)
    ensures position == Some("after_current") ==> p == InsertionPoint(c, 1)
    ensures position == Some("before_current") ==> p == InsertionPoint(c, 0)
    ensures position == Some("top") ==> p == 0
    ensures position.Some? && position.value !in {"after_current", "before_current", "top"}
      ==> p == |c.clients|
  {
    match position
    case None => InsertionPoint(c, offset)
    case Some(name) =>
      if name == "after_current" then InsertionPoint(c, 1)
      else if name == "before_current" then InsertionPoint(c, 0)
      else if name == "top" then 0
      else |c.clients|
  }

  /** `add_client`: inserts `w` and makes it current. The cursor is set by
      `index`, so it lands on the first occurrence of `w`: the new copy when
      it went in at or before any old one, and the old first occurrence
      otherwise. */
  function AddClient<W(==)>(c: ClientList<W>, w: W, offset: int, position: Option<string>)
    : (r: ClientList<W>)
    ensures Valid(r)
    ensures |r.clients| == |c.clients| + 1
    ensures var p := AddPosition(c, offset, position);
      && r.clients[p] == w
      && DeleteAt(r.clients, p) == c.clients
      && (w !in c.clients ==> r.cur == p)
    ensures Current(r) == Some(w)
    ensures forall j :: 0 <= j < r.cur ==> r.clients[j] != w
  {
    var p := AddPosition(c, offset, position);
    var s := InsertAt(c.clients, p, [w]);
    assert s[p] == w;
    assert DeleteAt(s, p) == c.clients;
    assert w !in c.clients ==> IndexOf(s, w) == p by {
      if w !in c.clients {
        assert forall j :: 0 <= j < p ==> s[j] == c.clients[j];
      }
    }
    ClientList(s, IndexOf(s, w))
  }

  /** `remove`: a non-member changes nothing and yields None. Otherwise the
      first occurrence is deleted, the cursor steps back when the deleted
      position was at or before it (not below 0, and 0 once empty), and the
      client now under the cursor is returned as the next focus. */
  function Remove<W(==)>(c: ClientList<W>, w: W): (r: (ClientList<W>, Option<W>))
    requires Valid(c)
    ensures Valid(r.0)
    ensures w !in c.clients ==> r == (c, None)
    ensures w in c.clients ==>
      var i := IndexOf(c.clients, w);
      && r.1 == Current(r.0)
      && r.0.clients == DeleteAt(c.clients, i)
      && (0 < |r.0.clients| ==> r.0.cur == if i <= c.cur then Max(0, c.cur - 1) else c.cur)
      && (i != c.cur ==> r.1 == Current(c))
      && (i == c.cur && 0 < i ==> r.1 == Some(c.clients[i - 1]))
      && (i == c.cur && i == 0 ==> r.1 == At(c.clients, 1))
  {
    if w !in c.clients then (c, None)
    else
      var idx := IndexOf(c.clients, w);
      var s := DeleteAt(c.clients, idx);
      var cur :=
        if |s| == 0 then 0
        else if idx <= c.cur then Max(0, c.cur - 1)
        else c.cur;
      (ClientList(s, cur), At(s, cur))
  }

  /** `rotate_up`: the first client moves to the end. With `maintain` the
      cursor steps back through the wrapping setter, so the same client
      stays current. Lists of length 0 or 1 are left alone. */
  function RotateUp<W>(c: ClientList<W>, maintain: bool): (r: ClientList<W>)
    requires Valid(c)
    ensures Valid(r)
    ensures |c.clients| <= 1 ==> r == c
    ensures |r.clients| == |c.clients|
    ensures 1 < |c.clients| ==>
      && r.clients[|c.clients| - 1] == c.clients[0]
      && forall i :: 0 <= i < |c.clients| - 1 ==> r.clients[i] == c.clients[i + 1]
    ensures maintain ==> Current(r) == Current(c)
    ensures maintain && 1 < |c.clients| ==>
      r.cur == if c.cur == 0 then |c.clients| - 1 else c.cur - 1
    ensures !maintain ==> r.cur == c.cur
  {
    if |c.clients| > 1 then
      var s := c.clients[1..] + [c.clients[0]];
      assert c.clients == [c.clients[0]] + c.clients[1..];
      var rotated := c.(clients := s);
      if maintain then SetIndex(rotated, rotated.cur - 1) else rotated
    else c
  }

  /** `rotate_down`: the last client moves to the front; with `maintain`
      the cursor steps forward so the same client stays current. */
  function RotateDown<W>(c: ClientList<W>, maintain: bool): (r: ClientList<W>)
    requires Valid(c)
    ensures Valid(r)
    ensures |c.clients| <= 1 ==> r == c
    ensures |r.clients| == |c.clients|
    ensures 1 < |c.clients| ==>
      && r.clients[0] == c.clients[|c.clients| - 1]
      && forall i :: 0 <= i < |c.clients| - 1 ==> r.clients[i + 1] == c.clients[i]
    ensures maintain ==> Current(r) == Current(c)
    ensures maintain && 1 < |c.clients| ==>
      r.cur == if c.cur == |c.clients| - 1 then 0 else c.cur + 1
    ensures !maintain ==> r.cur == c.cur
  {
    var n := |c.clients|;
    if n > 1 then
      var s := [c.clients[n - 1]] + c.clients[..n - 1];
      assert forall i :: 0 <= i < n - 1 ==> s[i + 1] == c.clients[i];
      var rotated := c.(clients := s);
      if maintain then SetIndex(rotated, rotated.cur + 1) else rotated
    else c
  }

  /** `__setitem__`: overwrites the client at an integer subscript, where a
      negative subscript counts from the end. The cursor index is left
      alone; a subscript outside the list raises IndexError. */
  function SetItem<W>(c: ClientList<W>, i: int, value: W): (r: Result<ClientList<W>>)
    requires Valid(c)
    ensures r.Err? <==> !(-|c.clients| <= i < |c.clients|)
    ensures r.Err? ==> r.error == OutOfRange
    ensures r.Ok? ==>
      && Valid(r.value)
      && r.value.cur == c.cur
      && |r.value.clients| == |c.clients|
      && At(r.value.clients, i) == Some(value)
    ensures r.Ok? ==>
      var j := if i < 0 then |c.clients| + i else i;
      forall k :: 0 <= k < |c.clients| && k != j ==> r.value.clients[k] == c.clients[k]
  {
    var n := |c.clients|;
    if 0 <= i < n then Ok(c.(clients := c.clients[i := value]))
    else if -n <= i < 0 then Ok(c.(clients := c.clients[n + i := value]))
    else Err(OutOfRange)
  }

  /** `swap`: exchanges the first occurrences of `c1` and `c2`. With focus
      1 the cursor goes to `c1`'s old position, 2 to `c2`'s old position,
      and otherwise stays. A non-member raises before anything changes. */
  function Swap<W(==)>(c: ClientList<W>, c1: W, c2: W, focus: int): (r: Result<ClientList<W>>)
    requires Valid(c)
    ensures r.Err? <==> c1 !in c.clients || c2 !in c.clients
    ensures r.Err? ==> r.error == NotFound
    ensures r.Ok? ==>
      var i1 := IndexOf(c.clients, c1);
      var i2 := IndexOf(c.clients, c2);
      && Valid(r.value)
      && |r.value.clients| == |c.clients|
      && r.value.clients[i1] == c2
      && r.value.clients[i2] == c1
      && (forall k :: 0 <= k < |c.clients| && k != i1 && k != i2 ==>
            r.value.clients[k] == c.clients[k])
      && (focus == 1 ==> r.value.cur == i1)
      && (focus == 2 ==> r.value.cur == i2)
      && (focus != 1 && focus != 2 ==> r.value.cur == c.cur)
  {
    if c1 !in c.clients || c2 !in c.clients then Err(NotFound)
    else
      var i1 := IndexOf(c.clients, c1);
      var i2 := IndexOf(c.clients, c2);
      var swapped := c.(clients := SwapAt(c.clients, i1, i2));
      if focus == 1 then Ok(SetIndex(swapped, i1))
      else if focus == 2 then Ok(SetIndex(swapped, i2))
      else Ok(swapped)
  }

  /** `shuffle_up`: the current client trades places with its predecessor;
      with `maintain` the cursor follows it. No-op at the head. */
  function ShuffleUp<W>(c: ClientList<W>, maintain: bool): (r: ClientList<W>)
    requires Valid(c)
    ensures Valid(r)
    ensures c.cur == 0 ==> r == c
    ensures |r.clients| == |c.clients|
    ensures 0 < c.cur ==>
      && r.clients[c.cur - 1] == c.clients[c.cur]
      && r.clients[c.cur] == c.clients[c.cur - 1]
      && (forall k :: 0 <= k < |c.clients| && k != c.cur && k != c.cur - 1 ==>
            r.clients[k] == c.clients[k])
      && (maintain ==> r.cur == c.cur - 1)
    ensures maintain ==> Current(r) == Current(c)
    ensures !maintain ==> r.cur == c.cur
  {
    var idx := c.cur;
    if idx > 0 then
      var s := SwapAt(c.clients, idx, idx - 1);
      assert s[idx - 1] == c.clients[idx];
      var swapped := c.(clients := s);
      if maintain then
        var r := SetIndex(swapped, idx - 1);
        assert r.cur == idx - 1;
        r
      else swapped
    else c
  }

  /** `shuffle_down`: the current client trades places with its successor;
      with `maintain` the cursor follows it. No-op at the tail. */
  function ShuffleDown<W>(c: ClientList<W>, maintain: bool): (r: ClientList<W>)
    requires Valid(c)
    ensures Valid(r)
    ensures c.cur + 1 >= |c.clients| ==> r == c
    ensures |r.clients| == |c.clients|
    ensures c.cur + 1 < |c.clients| ==>
      && r.clients[c.cur + 1] == c.clients[c.cur]
      && r.clients[c.cur] == c.clients[c.cur + 1]
      && (forall k :: 0 <= k < |c.clients| && k != c.cur && k != c.cur + 1 ==>
            r.clients[k] == c.clients[k])
      && (maintain ==> r.cur == c.cur + 1)
    ensures maintain ==> Current(r) == Current(c)
    ensures !maintain ==> r.cur == c.cur
  {
    var idx := c.cur;
    if idx + 1 < |c.clients| then
      var s := SwapAt(c.clients, idx, idx + 1);
      assert s[idx + 1] == c.clients[idx];
      var swapped := c.(clients := s);
      if maintain then
        var r := SetIndex(swapped, idx + 1);
        assert r.cur == idx + 1;
        r
      else swapped
    else c
  }

  /** `join`: splices all of `other`'s clients, in order, in one block at the
      insertion point for `offset`. The cursor index is not touched, and
      `other` is only read. */
  function Join<W>(c: ClientList<W>, other: ClientList<W>, offset: int): (r: ClientList<W>)
    requires Valid(c)
    ensures Valid(r)
    ensures r.cur == c.cur
    ensures |r.clients| == |c.clients| + |other.clients|
    ensures var p := InsertionPoint(c, offset);
      && r.clients[..p] == c.clients[..p]
      && r.clients[p..p + |other.clients|] == other.clients
      && r.clients[p + |other.clients|..] == c.clients[p..]
  {
    var p := InsertionPoint(c, offset);
    if p < |c.clients| then
      c.(clients := c.clients[..p] + other.clients + c.clients[p..])
    else
      assert c.clients[p..] == [];
      c.(clients := c.clients + other.clients)
  }
}
