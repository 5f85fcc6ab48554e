/** Concrete walk-throughs of the documented behaviour, on windows named by
    single letters. */
module Scenarios {
  import opened Results
  import opened ClientLists

  /** [A, B, C] with B current; adding D after the current client gives
      [A, B, D, C] with D current. */
  lemma AddAfterCurrentExample()
    ensures AddClient(ClientList("ABC", 1), 'D', 0, Some("after_current")) == ClientList("ABDC", 2)
  {
    assert "ABC"[..2] + "D" + "ABC"[2..] == "ABDC";
  }

  /** "bottom", like any string that is not one of the other three
      keywords, appends. */
  lemma BottomExample()
    ensures AddClient(ClientList("ABC", 1), 'D', 0, Some("bottom")) == ClientList("ABCD", 3)
  {
    assert "bottom" != "after_current" && "bottom" != "before_current" && "bottom" != "top";
    assert "ABC"[..3] + "D" + "ABC"[3..] == "ABCD";
  }

  lemma UnknownPositionExample()
    ensures AddClient(ClientList("ABC", 1), 'D', 0, Some("middle")) == ClientList("ABCD", 3)
  {
    assert "middle" != "after_current" && "middle" != "before_current" && "middle" != "top";
    assert "ABC"[..3] + "D" + "ABC"[3..] == "ABCD";
  }

  /** "top" puts the client at the head. */
  lemma TopExample()
    ensures AddClient(ClientList("ABC", 1), 'D', 0, Some("top")) == ClientList("DABC", 0)
  {
    assert "top" != "after_current" && "top" != "before_current";
    assert "ABC"[..0] + "D" + "ABC"[0..] == "DABC";
  }

  /** Re-adding A at the top of [B, A] makes the new copy current, since it
      now comes first. */
  lemma TopReAddExample()
    ensures AddClient(ClientList("BA", 0), 'A', 0, Some("top")) == ClientList("ABA", 0)
  {
    assert "top" != "after_current" && "top" != "before_current";
    assert "BA"[..0] + "A" + "BA"[0..] == "ABA";
  }

  /** Removing the current first client keeps the cursor at 0, now on B. */
  lemma RemoveFirstExample()
    ensures Remove(ClientList("ABC", 0), 'A') == (ClientList("BC", 0), Some('B'))
  {
    assert "ABC"[..0] + "ABC"[1..] == "BC";
  }

  /** Removing the only client empties the list and yields no focus. */
  lemma RemoveOnlyExample()
    ensures Remove(ClientList("A", 0), 'A') == (ClientList("", 0), None)
  {
    assert "A"[..0] + "A"[1..] == "";
  }

  /** [A, B, C] with C current, rotated up keeping C: [B, C, A], cursor 1. */
  lemma RotateUpExample()
    ensures RotateUp(ClientList("ABC", 2), true) == ClientList("BCA", 1)
  {
    assert "ABC"[1..] + ['A'] == "BCA";
  }

  /** Swapping A and C with focus 1 leaves the cursor at 0, which now holds C. */
  lemma SwapExample()
    ensures Swap(ClientList("ABC", 1), 'A', 'C', 1) == Ok(ClientList("CBA", 0))
  {
    assert "ABC"[0 := 'C'][2 := 'A'] == "CBA";
  }
}
