# qtile layout core: window order and focus cycling

This project is a Dafny model of the ordering and focus engine under qtile's
tiling layouts (`libqtile/layout/base.py`). It has three parts.

- **`_ClientList`** is an ordered list of window handles plus a cursor,
  `_current_idx`. It is modelled as `ClientLists.ClientList<W>(clients, cur)`.
  Every operation is a pure function that returns the new state. The
  invariant `Valid` says the cursor is 0 on an empty list and a valid
  position otherwise. Each operation is proved to keep it.
- **`_SimpleLayoutBase`** is a layout backed by one client list. It is
  modelled as `Layouts.SimpleLayout`. Its own logic is the wrap-around
  cycling of `next`/`previous`, `clone` and `swap`. The calls it makes on the
  owning group (`focus`, `layout_all`) are returned as `GroupCall` values.
  They are not performed.
- **`Layout`** is the attachment state. It holds the layout's name and an
  `Option` of the owning group. The `group` accessor fails with
  `NotAttached` until `clone` sets the group. The default `swap` fails with
  `Unsupported`.

Windows are an opaque type parameter compared by equality. Exceptions become
`Results.Result` values:

- `NotFound` is the `ValueError` from `list.index`.
- `NotAttached` is the `RuntimeError` for a layout with no group yet.
- `Unsupported` is the `CommandError` from `Layout.swap`.
- `OutOfRange` is the `IndexError` from assigning through a subscript outside the list.

Python's `list.index` returns the first occurrence, and `Seqs.IndexOf`
follows it. Claims that depend on window identity, such as traversal being
invertible or swapping twice restoring the list, assume `NoDup`: no window
occurs twice.

The model follows what the code does at these points:

- **Cursor setter.** It computes `abs(x % n)` with Python's floored `%`. For
  a non-empty list the `%` is never negative, so the `abs` has no effect and
  the result is `x mod n`: an out-of-range index wraps around. Index -1 on
  three clients becomes 2 (`SetIndexOfMinusOne`), and the result always
  differs from the requested index by a multiple of the length
  (`SetIndexWraps`).
- **`add_client` placement.** `client_position` is a free string. Any value
  other than `"after_current"`, `"before_current"` or `"top"` appends, not
  only `"bottom"`. `"after_current"` and `"before_current"` ignore the
  `offset_to_current` that was passed in.
- **`add_client` cursor.** The new client becomes current through `index`.
  If the window was already a member, the cursor goes to whichever copy
  comes first. That is the new copy when it was inserted at or before the
  old first occurrence, and the old first occurrence otherwise
  (`AddExistingCursor`, `TopReAddExample`).
- **`_ClientList.swap`.** Its docstring says focus 1 focuses `c1`. The code
  moves the cursor to `c1`'s old index, which now holds `c2`
  (`SwapFocusOneShowsSecond`). `_SimpleLayoutBase.swap` then asks the group to
  focus `window1`.
- **`_SimpleLayoutBase.swap` on an unattached layout.** The list is swapped
  before `self.group` raises, so the swap persists after the error.
  `SwapSimple` returns the swapped layout together with the error.

## Model

| member | source | states |
|---|---|---|
| Seqs.At | libqtile/layout/base.py:441-447 | an integer subscript is present exactly for indices from `-n` to `n - 1`: a non-negative index selects that position, a negative one counts from the end, and anything else is None, as the caught IndexError gives |
| Seqs.IndexOf | libqtile/layout/base.py:429-430 | `list.index` finds the first position holding the window: that position holds it and no earlier one does |
| ClientLists.Empty | libqtile/layout/base.py:238-240 | a new client list is empty with cursor 0 and satisfies the cursor invariant |
| ClientLists.SetIndex | libqtile/layout/base.py:246-251 | the setter keeps the clients, always leaves a valid cursor (0 when empty), keeps an in-range index, and wraps -1 to the last index and `n` to 0 |
| ClientLists.Current | libqtile/layout/base.py:253-257 | the current client is absent exactly when the list is empty and is otherwise the client at the cursor |
| ClientLists.Index | libqtile/layout/base.py:429-430 | `index` fails with NotFound exactly for non-members; otherwise it gives the first position holding the window |
| ClientLists.Focus | libqtile/layout/base.py:259-268 | setting the current client fails exactly for non-members; otherwise the list is unchanged and that window is current at its first occurrence |
| ClientLists.FocusFirst | libqtile/layout/base.py:270-274 | the first client, or None exactly when the list is empty |
| ClientLists.FocusLast | libqtile/layout/base.py:285-289 | `self[-1]` is the last client, or None exactly when the list is empty |
| ClientLists.FocusNext | libqtile/layout/base.py:276-283 | a non-member fails with NotFound, the uncaught error from `index`; otherwise the result is None exactly at the last position and is the following client elsewhere, with no wrap-around |
| ClientLists.FocusPrevious | libqtile/layout/base.py:291-298 | a non-member fails with NotFound, the uncaught error from `index`; otherwise the result is None exactly at the first position and is the preceding client elsewhere |
| ClientLists.InsertionPoint | libqtile/layout/base.py:323-327 | the insertion index is `cur + offset`, clamped below to 0 and above to the end of the list |
| ClientLists.AddPosition | libqtile/layout/base.py:313-327 | with no position the given offset's clamped insertion point is used; "after_current" and "before_current" use offsets 1 and 0 whatever offset was given, "top" inserts at 0, and any other string appends |
| ClientLists.AddClient | libqtile/layout/base.py:300-340 | the length grows by one and the new client sits at the chosen index; deleting it gives back the old list, so the old order is kept; the client is current, and the cursor is at its first occurrence, which for a fresh client is the new index |
| ClientLists.Remove | libqtile/layout/base.py:342-355 | a non-member changes nothing and yields None; a member's first occurrence is deleted; the cursor steps back by one when the deleted position was at or before it (not below 0, and 0 once empty), otherwise it keeps its index; the result is the new current client; removing a non-current client keeps the same client current; removing the current one moves focus to its predecessor, or to the next client when it was first |
| ClientLists.RotateUp | libqtile/layout/base.py:357-366 | no-op for length 1 or less; otherwise the first client moves to the end and the others shift up one; with maintain_index the cursor becomes `(cur - 1) mod n`, so the same client stays current, otherwise the index is unchanged |
| ClientLists.RotateDown | libqtile/layout/base.py:368-377 | no-op for length 1 or less; otherwise the last client moves to the front and the others shift down one; with maintain_index the cursor becomes `(cur + 1) mod n`, so the same client stays current, otherwise the index is unchanged |
| ClientLists.SetItem | libqtile/layout/base.py:449-450 | assigning through a subscript fails with OutOfRange exactly outside `-n` to `n - 1`; otherwise only that position changes, to the new client (negative subscripts counting from the end), and the length and cursor index are kept |
| ClientLists.Swap | libqtile/layout/base.py:379-392 | fails exactly when either window is not a member; otherwise only the first positions of c1 and c2 are exchanged; focus 1 puts the cursor at c1's old index, focus 2 at c2's old index, and any other value leaves it |
| ClientLists.ShuffleUp | libqtile/layout/base.py:394-404 | no-op at index 0; otherwise the current client and its predecessor trade places and nothing else moves; with maintain_index the cursor follows the client and the same client stays current, otherwise the index is unchanged |
| ClientLists.ShuffleDown | libqtile/layout/base.py:406-416 | no-op at the last index; otherwise the current client and its successor trade places and nothing else moves; with maintain_index the cursor follows the client and the same client stays current, otherwise the index is unchanged |
| ClientLists.Join | libqtile/layout/base.py:418-427 | the other list's clients appear in order as one contiguous block at the insertion point, with the rest of the list before and after it; the cursor index is unchanged and valid; the lengths add up |
| ClientListLaws.RotateUpThenDown | libqtile/layout/base.py:357-377 | rotate_down undoes rotate_up, restoring both the list and the cursor |
| ClientListLaws.RotateDownThenUp | libqtile/layout/base.py:357-377 | rotate_up undoes rotate_down, restoring both the list and the cursor |
| ClientListLaws.ShuffleUpThenDown | libqtile/layout/base.py:394-416 | away from the first index, where shuffle_up does nothing, shuffle_down undoes shuffle_up when the cursor follows the client |
| ClientListLaws.ShuffleDownThenUp | libqtile/layout/base.py:394-416 | away from the last index, where shuffle_down does nothing, shuffle_up undoes shuffle_down when the cursor follows the client |
| ClientListLaws.SwapFocusOneShowsSecond | libqtile/layout/base.py:379-392 | after a swap with focus 1 the current client is c2, and with focus 2 it is c1 |
| ClientListLaws.SwapTwice | libqtile/layout/base.py:379-392 | with unique windows, swapping the same pair twice restores the list |
| ClientListLaws.NextThenPrevious | libqtile/layout/base.py:276-298 | with unique windows, the predecessor of w's successor is w |
| ClientListLaws.PreviousThenNext | libqtile/layout/base.py:276-298 | with unique windows, the successor of w's predecessor is w |
| ClientListLaws.TraversalEnds | libqtile/layout/base.py:270-298 | the first client has no predecessor and, with unique windows, the last has no successor |
| ClientListLaws.AddExistingCursor | libqtile/layout/base.py:313-328 | re-adding a member leaves the cursor on the earlier of the new copy's index and the old first occurrence, as `index` finds it |
| ClientListLaws.SetItemRestore | libqtile/layout/base.py:441-450 | writing back the client a valid subscript held undoes the assignment exactly |
| ClientListLaws.AddThenRemove | libqtile/layout/base.py:300-355 | adding a fresh client and then removing it gives back the original clients |
| ClientListLaws.RemoveThenAdd | libqtile/layout/base.py:300-355 | removing a member and adding it back restores the length and the multiset, but not necessarily the position |
| ClientListLaws.JoinSingleIsAdd | libqtile/layout/base.py:418-427 | joining a one-client list inserts at the same place add_client does with the same offset |
| ClientListLaws.AddClientMultiset | libqtile/layout/base.py:300-340 | add_client adds exactly one copy of the window and drops nothing |
| ClientListLaws.RemoveMultiset | libqtile/layout/base.py:342-355 | remove takes away exactly one copy of the window when it is a member and nothing otherwise |
| ClientListLaws.RotateUpMultiset | libqtile/layout/base.py:357-366 | rotate_up only rearranges: the multiset of clients is kept |
| ClientListLaws.RotateDownMultiset | libqtile/layout/base.py:368-377 | rotate_down only rearranges: the multiset of clients is kept |
| ClientListLaws.ShuffleUpMultiset | libqtile/layout/base.py:394-404 | shuffle_up only rearranges: the multiset of clients is kept |
| ClientListLaws.ShuffleDownMultiset | libqtile/layout/base.py:406-416 | shuffle_down only rearranges: the multiset of clients is kept |
| ClientListLaws.SwapMultiset | libqtile/layout/base.py:379-392 | swapping two members succeeds and only rearranges: the multiset of clients is kept |
| ClientListLaws.JoinIsInsertAt | libqtile/layout/base.py:418-427 | both branches of join, splicing before the end and appending at the end, insert the other list at the clamped insertion point |
| ClientListLaws.JoinMultiset | libqtile/layout/base.py:418-427 | join adds exactly the other list's clients and drops nothing |
| ClientListLaws.AddKeepsNoDup | libqtile/layout/base.py:300-340 | adding a window that is not yet a member keeps windows unique |
| ClientListLaws.RemoveKeepsNoDup | libqtile/layout/base.py:342-355 | with unique windows, remove keeps them unique and the removed window is no longer a member |
| ClientListLaws.RotateKeepsNoDup | libqtile/layout/base.py:357-377 | rotation keeps windows unique |
| ClientListLaws.ShuffleKeepsNoDup | libqtile/layout/base.py:394-416 | shuffling keeps windows unique |
| ClientListLaws.SwapKeepsNoDup | libqtile/layout/base.py:379-392 | swapping keeps windows unique |
| ClientListLaws.JoinKeepsNoDup | libqtile/layout/base.py:418-427 | joining a list with no window in common keeps windows unique |
| ClientListLaws.SetIndexWraps | libqtile/layout/base.py:246-251 | the setter's result differs from the requested index by a multiple of the length: it wraps rather than clamps |
| ClientListLaws.SetIndexOfMinusOne | libqtile/layout/base.py:246-251 | index -1 on three clients becomes 2: a negative index wraps to the end |
| ClientListTrace.Apply | libqtile/layout/base.py:246-450 | any single modelled mutating call keeps the cursor invariant; only focus, swap and `__setitem__` can fail, focus and swap with NotFound and `__setitem__` with OutOfRange |
| ClientListTrace.Replay | libqtile/layout/base.py:246-450 | every sequence of modelled mutating calls (add, remove, rotations, shuffles, focus, swap, join, the cursor setter and `__setitem__`) keeps the cursor invariant, and a sequence with no focus, swap or `__setitem__` never fails |
| Layouts.Group | libqtile/layout/base.py:66-76 | the group accessor fails with NotAttached exactly while no group is attached, and otherwise returns the attached group |
| Layouts.Clone | libqtile/layout/base.py:78-91 | a clone keeps the name and is attached to the given group |
| Layouts.Swap | libqtile/layout/base.py:113-115 | the base layout always refuses to swap, naming itself in the error |
| Layouts.New | libqtile/layout/base.py:481-483 | a new simple layout is unattached, has no clients and satisfies the invariant |
| Layouts.CloneSimple | libqtile/layout/base.py:485-488 | a clone of a simple layout is attached to the group, keeps the name, and starts with an empty client list |
| Layouts.Focus | libqtile/layout/base.py:490-491 | focusing fails with NotFound exactly for non-members; otherwise the window becomes current at its first occurrence and nothing is reordered |
| Layouts.AddClient | libqtile/layout/base.py:522-525 | adding forwards to the client list, so placement and cursor are those of the client list's add_client; the attachment is unchanged, the client becomes current, and the layout holds one more client |
| Layouts.Remove | libqtile/layout/base.py:527-528 | removing forwards to the client list, so the deleted position and the next focus are the client list's; the attachment is unchanged, a non-member changes nothing, a member leaves one client fewer, and there is no next focus exactly when the window was not a member or the layout is now empty |
| Layouts.NextTarget | libqtile/layout/base.py:516-520 | `focus_next(current) or focus_first()` is absent exactly on an empty list; otherwise it is the successor of the current client's first occurrence, wrapping to the first client |
| Layouts.PreviousTarget | libqtile/layout/base.py:505-509 | `focus_previous(current) or focus_last()` is absent exactly on an empty list; otherwise it is the predecessor, wrapping to the last client |
| Layouts.Next | libqtile/layout/base.py:516-520 | an empty layout does nothing, even unattached; otherwise an unattached layout fails and an attached one asks the group to focus the cyclic successor with warping |
| Layouts.Previous | libqtile/layout/base.py:505-509 | an empty layout does nothing; otherwise an unattached layout fails and an attached one asks the group to focus the cyclic predecessor with warping |
| Layouts.SwapSimple | libqtile/layout/base.py:511-514 | a non-member fails with NotFound and changes nothing; otherwise the list is swapped with focus 1, then an unattached layout fails, and an attached one asks the group to re-layout and to focus window1 |
| LayoutLaws.NextTargetIsSuccessorModN | libqtile/layout/base.py:516-520 | with unique windows, next targets `clients[(cur + 1) % n]` |
| LayoutLaws.PreviousTargetIsPredecessorModN | libqtile/layout/base.py:505-509 | with unique windows, previous targets `clients[(cur - 1) % n]` |
| LayoutLaws.NextThenPrevious | libqtile/layout/base.py:505-520 | with unique windows, focusing next's target and then asking for previous returns to the window that was current |
| LayoutLaws.PreviousThenNext | libqtile/layout/base.py:505-520 | with unique windows, focusing previous's target and then asking for next returns to the window that was current |
| LayoutLaws.CloneSharesNoClients | libqtile/layout/base.py:485-488 | a clone depends only on the template's name and the group, never on the template's clients |
| LayoutLaws.CloneOfClone | libqtile/layout/base.py:78-91 | cloning a clone is the same as cloning the template for the last group |
| LayoutLaws.EmptyLayoutCyclesQuietly | libqtile/layout/base.py:505-520 | next and previous on a new, unattached, empty layout succeed and request nothing |
| Scenarios.AddAfterCurrentExample | libqtile/layout/base.py:313-315 | [A,B,C] with B current, plus D after the current client, gives [A,B,D,C] with D current |
| Scenarios.BottomExample | libqtile/layout/base.py:320-321 | "bottom" appends D and makes it current |
| Scenarios.UnknownPositionExample | libqtile/layout/base.py:320-321 | an unrecognised position string also appends |
| Scenarios.TopExample | libqtile/layout/base.py:318-319 | "top" puts D at the head with cursor 0 |
| Scenarios.TopReAddExample | libqtile/layout/base.py:318-328 | re-adding A at the top of [B, A] gives [A, B, A] with the cursor on the new copy at 0 |
| Scenarios.RemoveFirstExample | libqtile/layout/base.py:342-355 | removing the current first client of [A,B,C] leaves [B,C] with cursor 0 and B as the next focus |
| Scenarios.RemoveOnlyExample | libqtile/layout/base.py:342-355 | removing the only client leaves an empty list, cursor 0, and no next focus |
| Scenarios.RotateUpExample | libqtile/layout/base.py:357-366 | [A,B,C] with C current, rotated up with maintain_index, gives [B,C,A] with cursor 1 |
| Scenarios.SwapExample | libqtile/layout/base.py:379-392 | swapping A and C in [A,B,C] with focus 1 gives [C,B,A] with cursor 0, which holds C |

## Left out

- Geometry and visibility are not modelled: `configure`, `layout`, `show`, `hide`, `finalize` and the `focus`/`blur` hooks (base.py:59-64, 107-121, 148-157). They are abstract or do nothing, and they concern placement on screen.
- Introspection is not modelled: `info`, `__str__` and `_ClientList.info` (base.py:123-126, 458-469, 533-537) format window names. `Layout.info` tests `self.group`, which raises on an unattached layout, so its `else None` branch cannot be reached.
- Command plumbing (`CommandObject`, `expose_command`, `_items`, `_select`; base.py:93-105) and `Configurable` defaults and name resolution (base.py:46-57) are framework wiring. The layout's name is a plain field.
- `copy.copy` in `Layout.clone` is not modelled as aliasing. A clone is a new value, so no state can be shared between clones.
- `__getitem__` with a slice, `__iter__`, `__contains__`, `__len__` and `get_windows` (base.py:432-440, 452-456, 530-531) only read the list and have no members of their own. The operations read `clients` directly. `append_head` and `append` (base.py:330-340) are modelled as the inserts at 0 and at the end inside `ClientLists.AddClient`.
- `__setitem__` (`ClientLists.SetItem`) can put a window into the list a second time, so the uniqueness lemmas (`…KeepsNoDup`) have no counterpart for it; only the cursor invariant is kept.
- `_SimpleLayoutBase.focus_first`, `focus_last`, `focus_next` and `focus_previous` (base.py:493-503) forward verbatim to the client list functions of the same names. They have no members of their own.
- The group's `focus` and `layout_all` are returned as `GroupCall` values and not executed. Their effect on the group is not part of this model.
- Layouts.NextTarget: assumes every window is truthy, since Python's `or` would skip a falsy window. Layouts.PreviousTarget makes the same assumption.
- Aliasing of the window list is not modelled. Every operation returns a new value. In Python, `get_windows` (base.py:530-531) hands out the live `clients` list. Most operations then mutate that list in place, and so does `join` when it appends (base.py:427). `join`'s splice branch (base.py:425) instead rebinds `clients` to a new list. So a list obtained earlier stays current after some joins and goes stale after others. The model describes only the layout's own view of its clients.
