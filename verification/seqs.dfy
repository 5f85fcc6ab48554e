/** The Python list primitives the client list is built from, over `seq`. */
module Seqs {
  import opened Results

  /** Every window occurs at most once. */
  predicate NoDup<W(==)>(s: seq<W>) {
    forall i, j :: 0 <= i < j < |s| ==> s[i] != s[j]
  }

  /** Python's `list.index`: the position of the FIRST occurrence of `w`. */
  function IndexOf<W(==)>(s: seq<W>, w: W): (i: nat)
    requires w in s
    ensures i < |s| && s[i] == w
    ensures forall j :: 0 <= j < i ==> s[j] != w
  {
    if s[0] == w then 0 else 1 + IndexOf(s[1..], w)
  }

  /** Without duplicates, the first occurrence of `s[i]` is `i` itself. */
  lemma IndexOfNoDup<W>(s: seq<W>, i: nat)
    requires NoDup(s) && i < |s|
    ensures IndexOf(s, s[i]) == i
  {
  }

  /** Python's integer subscript caught for IndexError: negative indices
      count from the end, anything else out of range is None. */
  function At<W>(s: seq<W>, i: int): (r: Option<W>)
    ensures r.Some? <==> -|s| <= i < |s|
    ensures 0 <= i < |s| ==> r == Some(s[i])
    ensures -|s| <= i < 0 ==> r == Some(s[|s| + i])
  {
    if 0 <= i < |s| then Some(s[i])
    else if -|s| <= i < 0 then Some(s[|s| + i])
    else None
  }

  /** `s[:p] + block + s[p:]`. */
  function InsertAt<W>(s: seq<W>, p: nat, block: seq<W>): seq<W>
    requires p <= |s|
  {
    s[..p] + block + s[p..]
  }

  /** `del s[i]`. */
  function DeleteAt<W>(s: seq<W>, i: nat): seq<W>
    requires i < |s|
  {
    s[..i] + s[i + 1..]
  }

  /** `s[i], s[j] = s[j], s[i]`: the right side is read first, then `s[i]`
      and `s[j]` are assigned in that order. */
  function SwapAt<W>(s: seq<W>, i: nat, j: nat): seq<W>
    requires i < |s| && j < |s|
  {
    s[i := s[j]][j := s[i]]
  }

  /** Inserting a block and deleting one element change the multiset as expected. */
  lemma InsertAtMultiset<W>(s: seq<W>, p: nat, block: seq<W>)
    requires p <= |s|
    ensures multiset(InsertAt(s, p, block)) == multiset(s) + multiset(block)
  {
    assert s == s[..p] + s[p..];
  }

  lemma DeleteAtMultiset<W>(s: seq<W>, i: nat)
    requires i < |s|
    ensures multiset(DeleteAt(s, i)) == multiset(s) - multiset{s[i]}
  {
    assert s == s[..i] + [s[i]] + s[i + 1..];
  }

  lemma ConcatCommutesMultiset<W>(a: seq<W>, b: seq<W>)
    ensures multiset(a + b) == multiset(b + a)
  {
  }

  lemma SwapAtMultiset<W>(s: seq<W>, i: nat, j: nat)
    requires i < |s| && j < |s|
    ensures multiset(SwapAt(s, i, j)) == multiset(s)
  {
  }

  /** No duplicates is exactly "every multiplicity is at most one". */
  lemma {:induction false} NoDupMultiplicity<W>(s: seq<W>)
    ensures NoDup(s) <==> forall x :: multiset(s)[x] <= 1
  {
    if s == [] {
    } else {
      var t := s[1..];
      assert s == [s[0]] + t;
      NoDupMultiplicity(t);
      assert multiset(s) == multiset{s[0]} + multiset(t);
      if NoDup(s) {
        assert NoDup(t) by {
          forall i, j | 0 <= i < j < |t| ensures t[i] != t[j] {
            assert t[i] == s[i + 1] && t[j] == s[j + 1];
          }
        }
        assert forall k :: 0 <= k < |t| ==> t[k] == s[k + 1];
        assert multiset(t)[s[0]] == 0;
      } else {
        var i, j :| 0 <= i < j < |s| && s[i] == s[j];
        if i == 0 {
          assert s[j] == t[j - 1];
          assert multiset(t)[s[0]] >= 1;
          assert multiset(s)[s[0]] >= 2;
        } else {
          assert t[i - 1] == t[j - 1];
          assert !NoDup(t);
          var x :| multiset(t)[x] > 1;
          assert multiset(s)[x] > 1;
        }
      }
    }
  }

  /** Rearranging a sequence keeps it free of duplicates. */
  lemma PermutationNoDup<W>(s: seq<W>, t: seq<W>)
    requires multiset(s) == multiset(t)
    ensures NoDup(s) <==> NoDup(t)
  {
    NoDupMultiplicity(s);
    NoDupMultiplicity(t);
  }

  /** No window occurs in both sequences. */
  predicate Disjoint<W(==)>(s: seq<W>, t: seq<W>) {
    forall w :: w in t ==> w !in s
  }

  /** Splicing a duplicate-free block that shares nothing with `s` keeps `s`
      free of duplicates. */
  lemma InsertAtNoDup<W>(s: seq<W>, p: nat, block: seq<W>)
    requires p <= |s|
    requires NoDup(s) && NoDup(block) && Disjoint(s, block)
    ensures NoDup(InsertAt(s, p, block))
  {
    var r := InsertAt(s, p, block);
    var m := |block|;
    forall i, j | 0 <= i < j < |r|
      ensures r[i] != r[j]
    {
      if i < p {
        assert r[i] == s[i];
        if j < p { assert r[j] == s[j]; }
        else if j < p + m {
          assert r[j] == block[j - p] && block[j - p] in block;
        } else { assert r[j] == s[j - m]; }
      } else if i < p + m {
        assert r[i] == block[i - p] && block[i - p] in block;
        if j < p + m { assert r[j] == block[j - p]; }
        else { assert r[j] == s[j - m] && s[j - m] in s; }
      } else {
        assert r[i] == s[i - m] && r[j] == s[j - m];
      }
    }
  }

  /** Deleting from a duplicate-free sequence keeps it so and removes the
      element for good. */
  lemma DeleteAtNoDup<W>(s: seq<W>, i: nat)
    requires i < |s| && NoDup(s)
    ensures NoDup(DeleteAt(s, i)) && s[i] !in DeleteAt(s, i)
  {
    var r := DeleteAt(s, i);
    assert forall k :: 0 <= k < i ==> r[k] == s[k];
    assert forall k :: i <= k < |r| ==> r[k] == s[k + 1];
  }
}
