/** Properties that relate several `_ClientList` operations: round trips,
    inverse traversals and the no-duplicates invariant. */
module ClientListLaws {
  import opened Results
  import opened Seqs
  import opened ClientLists

  /** `rotate_up` then `rotate_down` restores the list and the cursor. */
  lemma RotateUpThenDown<W>(c: ClientList<W>, maintain: bool)
    requires Valid(c)
    ensures RotateDown(RotateUp(c, maintain), maintain) == c
  {
    var n := |c.clients|;
    if n > 1 {
      var u := RotateUp(c, maintain);
      var s := u.clients;
      assert s == c.clients[1..] + [c.clients[0]];
      assert [s[n - 1]] + s[..n - 1] == c.clients;
      if maintain {
        assert u.cur == if c.cur == 0 then n - 1 else c.cur - 1;
      }
    }
  }

  /** `rotate_down` then `rotate_up` restores the list and the cursor. */
  lemma RotateDownThenUp<W>(c: ClientList<W>, maintain: bool)
    requires Valid(c)
    ensures RotateUp(RotateDown(c, maintain), maintain) == c
  {
    var n := |c.clients|;
    if n > 1 {
      var d := RotateDown(c, maintain);
      var s := d.clients;
      assert s == [c.clients[n - 1]] + c.clients[..n - 1];
      assert s[1..] + [s[0]] == c.clients;
      if maintain {
        assert d.cur == if c.cur == n - 1 then 0 else c.cur + 1;
      }
    }
  }

  /** `shuffle_up` then `shuffle_down` (both following the client) undoes the move. */
  lemma ShuffleUpThenDown<W>(c: ClientList<W>)
    requires Valid(c) && 0 < c.cur
    ensures ShuffleDown(ShuffleUp(c, true), true) == c
  {
    var u := ShuffleUp(c, true);
    var d := ShuffleDown(u, true);
    assert d.clients == c.clients by {
      assert forall k :: 0 <= k < |c.clients| ==> d.clients[k] == c.clients[k];
    }
  }

  /** `shuffle_down` then `shuffle_up` (both following the client) undoes the move. */
  lemma ShuffleDownThenUp<W>(c: ClientList<W>)
    requires Valid(c) && c.cur + 1 < |c.clients|
    ensures ShuffleUp(ShuffleDown(c, true), true) == c
  {
    var d := ShuffleDown(c, true);
    var u := ShuffleUp(d, true);
    assert u.clients == c.clients by {
      assert forall k :: 0 <= k < |c.clients| ==> u.clients[k] == c.clients[k];
    }
  }

  /** The positions `swap` uses are found by `index`, so with focus 1 the
      cursor lands on the position `c1` left, which now holds `c2`. */
  lemma SwapFocusOneShowsSecond<W>(c: ClientList<W>, c1: W, c2: W)
    requires Valid(c) && c1 in c.clients && c2 in c.clients
    ensures Swap(c, c1, c2, 1).Ok?
    ensures Current(Swap(c, c1, c2, 1).value) == Some(c2)
    ensures Current(Swap(c, c1, c2, 2).value) == Some(c1)
  {
  }

  /** Swapping the same pair twice restores the list when windows are unique. */
  lemma SwapTwice<W>(c: ClientList<W>, c1: W, c2: W, focus: int)
    requires Valid(c) && NoDup(c.clients) && c1 in c.clients && c2 in c.clients
    ensures Swap(c, c1, c2, focus).Ok?
    ensures Swap(Swap(c, c1, c2, focus).value, c1, c2, focus).Ok?
    ensures Swap(Swap(c, c1, c2, focus).value, c1, c2, focus).value.clients == c.clients
  {
    var s := c.clients;
    var i1 := IndexOf(s, c1);
    var i2 := IndexOf(s, c2);
    var once := Swap(c, c1, c2, focus).value;
    SwapKeepsNoDup(c, c1, c2, focus);
    IndexOfNoDup(once.clients, i2);
    IndexOfNoDup(once.clients, i1);
    var twice := Swap(once, c1, c2, focus).value;
    assert forall k :: 0 <= k < |s| ==> twice.clients[k] == s[k];
  }

  /** Forward and backward traversal are inverse away from the ends. */
  lemma NextThenPrevious<W>(c: ClientList<W>, w: W, v: W)
    requires NoDup(c.clients)
    requires FocusNext(c, w) == Ok(Some(v))
    ensures FocusPrevious(c, v) == Ok(Some(w))
  {
    var i := IndexOf(c.clients, w);
    assert c.clients[i + 1] == v;
    IndexOfNoDup(c.clients, i + 1);
  }

  lemma PreviousThenNext<W>(c: ClientList<W>, w: W, v: W)
    requires NoDup(c.clients)
    requires FocusPrevious(c, w) == Ok(Some(v))
    ensures FocusNext(c, v) == Ok(Some(w))
  {
    var i := IndexOf(c.clients, w);
    assert c.clients[i - 1] == v;
    IndexOfNoDup(c.clients, i - 1);
  }

  /** The ends are exactly where traversal reports None. */
  lemma TraversalEnds<W>(c: ClientList<W>)
    requires |c.clients| > 0
    ensures FocusPrevious(c, FocusFirst(c).value) == Ok(None)
    ensures NoDup(c.clients) ==> FocusNext(c, FocusLast(c).value) == Ok(None)
  {
    if NoDup(c.clients) {
      IndexOfNoDup(c.clients, |c.clients| - 1);
    }
  }

  /** Re-adding a member puts the cursor on whichever copy comes first: the
      new one when it is inserted at or before the old first occurrence,
      the old one otherwise. */
  lemma AddExistingCursor<W>(c: ClientList<W>, w: W, offset: int, position: Option<string>)
    requires w in c.clients
    ensures var p := AddPosition(c, offset, position);
      var i := IndexOf(c.clients, w);
      AddClient(c, w, offset, position).cur == if p <= i then p else i
  {
    var p := AddPosition(c, offset, position);
    var i := IndexOf(c.clients, w);
    var r := AddClient(c, w, offset, position);
    var s := r.clients;
    assert s[p] == w && s[r.cur] == w;
    assert forall j :: 0 <= j < p ==> s[j] == DeleteAt(s, p)[j];
    if p > i {
      assert s[i] == c.clients[i];
    }
  }

  /** Writing back the client that a subscript held undoes `__setitem__`. */
  lemma SetItemRestore<W>(c: ClientList<W>, i: int, value: W)
    requires Valid(c) && -|c.clients| <= i < |c.clients|
    ensures SetItem(c, i, value).Ok?
    ensures SetItem(SetItem(c, i, value).value, i, At(c.clients, i).value) == Ok(c)
  {
    var n := |c.clients|;
    var j := if i < 0 then n + i else i;
    var r := SetItem(SetItem(c, i, value).value, i, At(c.clients, i).value);
    assert r.value.clients == c.clients[j := value][j := c.clients[j]];
    assert r.value.clients == c.clients;
  }

  /** Adding a fresh window and removing it again gives back the clients. */
  lemma AddThenRemove<W>(c: ClientList<W>, w: W, offset: int, position: Option<string>)
    requires Valid(c) && w !in c.clients
    ensures Remove(AddClient(c, w, offset, position), w).0.clients == c.clients
  {
    var a := AddClient(c, w, offset, position);
    assert IndexOf(a.clients, w) == AddPosition(c, offset, position);
  }

  /** Removing a member and adding it back restores the length and the
      multiset of clients, though not necessarily the position. */
  lemma RemoveThenAdd<W>(c: ClientList<W>, w: W, offset: int, position: Option<string>)
    requires Valid(c) && w in c.clients
    ensures var a := AddClient(Remove(c, w).0, w, offset, position);
      |a.clients| == |c.clients| && multiset(a.clients) == multiset(c.clients)
  {
    var r := Remove(c, w).0;
    RemoveMultiset(c, w);
    AddClientMultiset(r, w, offset, position);
    assert w in multiset(c.clients);
  }

  /** `join` of a one-client list places it where `add_client` would. */
  lemma JoinSingleIsAdd<W>(c: ClientList<W>, w: W, offset: int)
    requires Valid(c)
    ensures Join(c, ClientList([w], 0), offset).clients == AddClient(c, w, offset, None).clients
  {
    JoinIsInsertAt(c, ClientList([w], 0), offset);
  }

  /** `add_client` adds exactly one copy of the window. */
  lemma AddClientMultiset<W>(c: ClientList<W>, w: W, offset: int, position: Option<string>)
    ensures multiset(AddClient(c, w, offset, position).clients) == multiset(c.clients) + multiset{w}
  {
    InsertAtMultiset(c.clients, AddPosition(c, offset, position), [w]);
  }

  /** `remove` takes away exactly one copy of the window, if there is one. */
  lemma RemoveMultiset<W>(c: ClientList<W>, w: W)
    requires Valid(c)
    ensures multiset(Remove(c, w).0.clients) == multiset(c.clients) - multiset{w}
  {
    if w in c.clients {
      DeleteAtMultiset(c.clients, IndexOf(c.clients, w));
    }
  }

  /** Rotation only rearranges the clients. */
  lemma RotateUpMultiset<W>(c: ClientList<W>, maintain: bool)
    requires Valid(c)
    ensures multiset(RotateUp(c, maintain).clients) == multiset(c.clients)
  {
    var s := c.clients;
    if |s| > 1 {
      var r := RotateUp(c, maintain).clients;
      assert r == s[1..] + [s[0]];
      assert s == [s[0]] + s[1..];
      ConcatCommutesMultiset([s[0]], s[1..]);
    }
  }

  lemma RotateDownMultiset<W>(c: ClientList<W>, maintain: bool)
    requires Valid(c)
    ensures multiset(RotateDown(c, maintain).clients) == multiset(c.clients)
  {
    var s := c.clients;
    var n := |s|;
    if n > 1 {
      var r := RotateDown(c, maintain).clients;
      assert r == [s[n - 1]] + s[..n - 1];
      assert s == s[..n - 1] + [s[n - 1]];
      ConcatCommutesMultiset(s[..n - 1], [s[n - 1]]);
    }
  }

  /** Shuffling only rearranges the clients. */
  lemma ShuffleUpMultiset<W>(c: ClientList<W>, maintain: bool)
    requires Valid(c)
    ensures multiset(ShuffleUp(c, maintain).clients) == multiset(c.clients)
  {
    if 0 < c.cur {
      SwapAtMultiset(c.clients, c.cur, c.cur - 1);
    }
  }

  lemma ShuffleDownMultiset<W>(c: ClientList<W>, maintain: bool)
    requires Valid(c)
    ensures multiset(ShuffleDown(c, maintain).clients) == multiset(c.clients)
  {
    if c.cur + 1 < |c.clients| {
      SwapAtMultiset(c.clients, c.cur, c.cur + 1);
    }
  }

  /** Swapping only rearranges the clients. */
  lemma SwapMultiset<W>(c: ClientList<W>, c1: W, c2: W, focus: int)
    requires Valid(c) && c1 in c.clients && c2 in c.clients
    ensures Swap(c, c1, c2, focus).Ok?
    ensures multiset(Swap(c, c1, c2, focus).value.clients) == multiset(c.clients)
  {
    SwapAtMultiset(c.clients, IndexOf(c.clients, c1), IndexOf(c.clients, c2));
  }

  /** Both branches of `join` splice the other list in at the insertion point. */
  lemma JoinIsInsertAt<W>(c: ClientList<W>, other: ClientList<W>, offset: int)
    requires Valid(c)
    ensures Join(c, other, offset).clients
      == InsertAt(c.clients, InsertionPoint(c, offset), other.clients)
  {
    var p := InsertionPoint(c, offset);
    if p == |c.clients| {
      assert c.clients[..p] == c.clients && c.clients[p..] == [];
    }
  }

  /** `join` adds exactly the other list's clients. */
  lemma JoinMultiset<W>(c: ClientList<W>, other: ClientList<W>, offset: int)
    requires Valid(c)
    ensures multiset(Join(c, other, offset).clients) == multiset(c.clients) + multiset(other.clients)
  {
    JoinIsInsertAt(c, other, offset);
    InsertAtMultiset(c.clients, InsertionPoint(c, offset), other.clients);
  }

  /** Adding a window that is not yet a member keeps windows unique. */
  lemma AddKeepsNoDup<W>(c: ClientList<W>, w: W, offset: int, position: Option<string>)
    requires NoDup(c.clients) && w !in c.clients
    ensures NoDup(AddClient(c, w, offset, position).clients)
  {
    InsertAtNoDup(c.clients, AddPosition(c, offset, position), [w]);
  }

  /** Removing keeps windows unique, and the removed window is then gone. */
  lemma RemoveKeepsNoDup<W>(c: ClientList<W>, w: W)
    requires Valid(c) && NoDup(c.clients)
    ensures NoDup(Remove(c, w).0.clients) && w !in Remove(c, w).0.clients
  {
    if w in c.clients {
      DeleteAtNoDup(c.clients, IndexOf(c.clients, w));
    }
  }

  /** Rotation, shuffling and swapping only rearrange, so windows stay unique. */
  lemma RotateKeepsNoDup<W>(c: ClientList<W>, maintain: bool)
    requires Valid(c) && NoDup(c.clients)
    ensures NoDup(RotateUp(c, maintain).clients) && NoDup(RotateDown(c, maintain).clients)
  {
    RotateUpMultiset(c, maintain);
    RotateDownMultiset(c, maintain);
    PermutationNoDup(c.clients, RotateUp(c, maintain).clients);
    PermutationNoDup(c.clients, RotateDown(c, maintain).clients);
  }

  lemma ShuffleKeepsNoDup<W>(c: ClientList<W>, maintain: bool)
    requires Valid(c) && NoDup(c.clients)
    ensures NoDup(ShuffleUp(c, maintain).clients) && NoDup(ShuffleDown(c, maintain).clients)
  {
    ShuffleUpMultiset(c, maintain);
    ShuffleDownMultiset(c, maintain);
    PermutationNoDup(c.clients, ShuffleUp(c, maintain).clients);
    PermutationNoDup(c.clients, ShuffleDown(c, maintain).clients);
  }

  lemma SwapKeepsNoDup<W>(c: ClientList<W>, c1: W, c2: W, focus: int)
    requires Valid(c) && NoDup(c.clients) && c1 in c.clients && c2 in c.clients
    ensures Swap(c, c1, c2, focus).Ok? && NoDup(Swap(c, c1, c2, focus).value.clients)
  {
    SwapMultiset(c, c1, c2, focus);
    PermutationNoDup(c.clients, Swap(c, c1, c2, focus).value.clients);
  }

  /** Joining a list that shares no window keeps windows unique. */
  lemma JoinKeepsNoDup<W>(c: ClientList<W>, other: ClientList<W>, offset: int)
    requires Valid(c) && NoDup(c.clients) && NoDup(other.clients)
    requires Disjoint(c.clients, other.clients)
    ensures NoDup(Join(c, other, offset).clients)
  {
    JoinIsInsertAt(c, other, offset);
    InsertAtNoDup(c.clients, InsertionPoint(c, offset), other.clients);
  }

  /** The setter keeps the cursor congruent to the requested index modulo
      the length: it wraps rather than clamps. */
  lemma SetIndexWraps<W>(c: ClientList<W>, x: int)
    requires |c.clients| > 0
    ensures exists k: int :: x == k * |c.clients| + SetIndex(c, x).cur
  {
    var n := |c.clients|;
    assert x == (x / n) * n + x % n;
    assert SetIndex(c, x).cur == x % n;
  }

  /** The setter's floored `abs(x % n)` wraps a negative index to the end:
      -1 on three clients is 2. */
  lemma SetIndexOfMinusOne<W>(a: W, b: W, d: W)
    ensures SetIndex(ClientList([a, b, d], 0), -1).cur == 2
  {
  }
}
