# Persistent lists over shared buffers, in Dafny

This project models `lst`, a Go library of persistent lists. Every operation
returns a new list header. Earlier headers keep reading the same elements,
while several headers share one backing array. A shared frontier counter
(`firstEmpty`, a Go `*int`) records the first unclaimed slot of an array. A
header may append in place only when its slice ends exactly at that
frontier. Otherwise it must copy, or start a new group.

The model has two list representations and the combinators built on them.

- **Segmented list** (`list.go`, module `SegmentedList`, file
  `segmented_list.dfy`).
  - A list is a sequence of groups, stored oldest first, so the logical
    order is the reverse of the storage order.
  - Each group is a slice of a backing array, a bookkeeping offset and a
    frontier counter.
  - Prefix sums (`accumulatedLen`) locate an index by bisection.
  - `Cons`, `Tail`, `Init` and `concatenate` are methods that update shared
    arrays and counters.
  - Their contracts give the new list's abstract value (`Abs`, the logical
    head-first sequence).
  - Their contracts also give non-interference: every live header reads the
    same slots as before, stated over a ghost set `live` of all headers
    handed out.
- **Flat list** (`src/lst/list.go`, module `FlatList`, file `flat_list.dfy`).
  - An older variant: one slice plus a shared `firstEmpty` counter and a
    `firstUsed` offset.
  - Storage is reversed, so `get(l, i)` reads `elements[Len - 1 - i]`.
- **Combinators** (`functions.go`, module `ListFunctions`; and
  `src/lst/listfuncs.go`, module `FlatListFunctions`).
  - They are stated on the abstract sequence, and built the way the source
    builds them: `Foldr`, `Foldl`, recursion on head and tail, or loops
    that fill a Go map (modelled by the class `Table`).
  - `src/lst/listfuncs.go` defines most combinators exactly as
    `functions.go` does. These are modelled once, in `ListFunctions`:
    - `Map`, `Filter`, `Elem` (`Element`), `ElemIndex`, `Zip`, `ZipWith`;
    - `TakeWhile`, `DropWhile`, `Span`, `Flatten`;
    - `And`, `Or`, `All`, `Any`, `Group`, `Partition`, `Delete`,
      `Difference`.
  - Only `Unique`, `Union` and `Intersect` differ, and they have their own
    members.

Shared machinery:

- `Buffers` models Go backing arrays (`Buffer`: the written prefix and a
  fixed capacity), `*int` counters (`Counter`), slice headers (`Slice`) and
  `append`.
  - `append` writes in place when the capacity allows.
  - Otherwise it copies into a fresh array of unspecified capacity.
- `Seqs` holds reversal and concatenation of runs.
- `Folds` holds the right and left folds on which every combinator rests.

Where the specification and the code disagree, the model follows the code.

- `Get` outside `[0, Len)` and `Concatenate` with no arguments are
  preconditions, because Go panics there. The specification describes them
  as signalled errors.
- `Tail` and `Init` of the empty list are excluded by a precondition
  (`Len(l) >= 1`) in both representations.
  - The flat `Tail` and `Init` panic on a slice bound
    (`src/lst/list.go:81`, `:93`).
  - The segmented `Init` panics at `accumulatedLen[1]` (`list.go:232`).
  - The segmented `Tail` returns a header with no groups
    (`list.go:180-196`), on which every later `Len` panics (`list.go:117`).
- On reallocation, the segmented `Cons` keeps the group's offset and its
  shared counter (`list.go:261-266`). The specification describes a reset
  to offset 0 with a fresh counter. The model keeps the code's behaviour and
  proves that the sharing invariant still holds.
- The example in the comment on `Union` (`functions.go:476-477`) keeps
  l2's repeated 7. The code, and the comment's own prose, remove repeats of
  l2 through `Unique`, and the model follows the code.
- The Go test for `Foldr`/`Foldl` (`list_test.go:203-235`) fixes their
  meaning, and `Folds.FoldR`/`Folds.FoldL` state it. The segmented list's
  own `Foldr`/`Foldl` are not part of this model.

## Model

| member | source | states |
|---|---|---|
| `Buffers.Append` | list.go:261-266 | Go `append`: the result shows the old window followed by xs. It writes in place when start+len+|xs| fits the capacity, and otherwise uses a fresh array, leaving the old one untouched |
| `Buffers.Counter.Add` | list.go:265 | `*firstEmpty++` (and `+= len(group)`) advances the shared counter by the amount |
| `Buffers.Counter.Set` | src/lst/list.go:120 | `*firstEmpty = Len(l) + 1` replaces the shared counter's value |
| `Buffers.Overwrite` | list.go:264 | writing xs at slot p keeps the slots before p (and after p+|xs|) and puts xs at p |
| `Folds.FoldRAppend` | list_test.go:203-218 | `Foldr` over a join is `Foldr` over the first part, seeded with `Foldr` over the second, matching f(x0, f(x1, … f(xn-1, init))) |
| `Folds.FoldLAppend` | list_test.go:220-235 | `Foldl` over a join continues from `Foldl` over the first part (left to right) |
| `SegmentedList.LenIsLength` | list.go:114-118 | every prefix sum is the total length of the groups before it, and `Len` (last prefix plus last group length) is the length of the list's value |
| `SegmentedList.FindSlice` | list.go:129-140 | bisection returns the group k whose prefix sum is at most i and below the next one, with that prefix sum |
| `SegmentedList.LocateIndex` | list.go:120-140 | for 0 <= i < Len, the group `findSlice` returns holds storage position i at offset i minus its prefix sum |
| `SegmentedList.AbsAt` | list.go:120-127 | logical index i is storage index Len-1-i |
| `SegmentedList.Get` | list.go:120-127 | `Get(l, i)` is element i of the list's value |
| `SegmentedList.Head` | list.go:160-163 | `Head` is element 0 |
| `SegmentedList.Last` | list.go:199-202 | `Last` is the final element |
| `SegmentedList.SoundReadable` | list.go:32-43 | when the sharing invariant holds for every live group, every group of a live list reads only written slots of its array |
| `SegmentedList.GuardAtFrontier` | list.go:282-285 | with amount 1, `canAppendMoreToGroup` holds exactly when the group's slice ends at the written end of its array and at the frontier |
| `SegmentedList.AppendToGroup` | list.go:261-266 | appending to a group advances its counter by |xs| and extends its view by xs, in place or on a fresh array. The set stays sound, and when the group was at the frontier no live group reads anything new |
| `SegmentedList.New` | list.go:48-57 | one empty group on a fresh zero-capacity array with a fresh counter of 0; sound with every live list |
| `SegmentedList.NewFromList` | list.go:59-76 | the copy has the same groups, length and value |
| `SegmentedList.NewFromReversedSlice` | list.go:78-85 | one group holding the slice as stored, so the value is the slice reversed |
| `SegmentedList.NewFromSlice` | list.go:87-100 | the value is the slice itself and the length is its length |
| `SegmentedList.StorageOf` | list.go:29-46 | a list's storage is the concatenation of its groups' views, oldest first |
| `SegmentedList.TailHeader` | list.go:166-197 | `Tail`'s header copy is well formed (last group shortened or dropped) |
| `SegmentedList.TailHeaderSound` | list.go:166-197 | the tail's groups keep every live list sound, and a tidy list's tail is tidy |
| `SegmentedList.TailHeaderAbs` | list.go:172-196 | the tail reads the list's value without its head, unless the last group is empty |
| `SegmentedList.Tail` | list.go:165-197 | `Tail` writes no array, the result is sound, and it reads the value without the head (always, on tidy lists) |
| `SegmentedList.ShrinkFirstGroup` | list.go:213-221 | `Init` on a first group of length > 1: slice from 1, offset + 1, every later prefix sum - 1, length - 1 |
| `SegmentedList.DropFirstGroup` | list.go:223-242 | `Init` dropping the first group: the other groups, with prefix sums rebased to 0 |
| `SegmentedList.ShrinkFirstGroupStorage` | list.go:213-221 | shrinking the first group drops the first storage element |
| `SegmentedList.DropFirstGroupStorage` | list.go:223-242 | dropping the first group drops its elements from storage |
| `SegmentedList.InitHeaderSound` | list.go:205-243 | `Init`'s header keeps every live list sound, and tidiness is kept |
| `SegmentedList.InitHeaderAbs` | list.go:210-242 | `Init` reads the value without its last element, unless the first group is empty |
| `SegmentedList.ShrinkFirst` | list.go:213-221 | the loop that rewrites the prefix sums builds exactly the shrunk header |
| `SegmentedList.DropFirst` | list.go:223-242 | the copy loops build exactly the header without the first group |
| `SegmentedList.Init` | list.go:204-243 | `Init` writes no array, the result is sound, and it reads the value without its last element (always, on tidy lists) |
| `SegmentedList.GrowLastGroup` | list.go:259-266 | `Cons`'s in-place branch: the last group grows by the appended elements, and its counter advances. At the frontier, no live group changes |
| `SegmentedList.PushGroup` | list.go:268-278 | pushing a group adds it last, with prefix sum = previous prefix + previous group length |
| `SegmentedList.PushGroupSound` | list.go:268-278 | a pushed group that keeps the set sound extends storage by its view |
| `SegmentedList.ConsNewGroup` | list.go:268-278 | `Cons`'s other branch: a fresh one-element group on a fresh array and counter, and the old groups are unchanged |
| `SegmentedList.ConsReplacingEmptyGroup` | list.go:268-278 | corrected branch: an empty last group is replaced by the new one-element group rather than kept |
| `SegmentedList.ConsAsWritten` | list.go:258-280 | `Cons` as written: value [x] + l, non-interference, and the counter advances only when the guard holds |
| `SegmentedList.ConsKeepsEmptyGroupWitness` | list.go:268-278 | concrete run: `Init` of [3, 2] built by `Cons` onto a claimed empty list still reads [3, 2] |
| `SegmentedList.EmptyGroupInside` | list.go:268-278 | two `Cons` as written onto a claimed empty list give [3, 2] behind an empty oldest group |
| `SegmentedList.ClaimedEmptyList` | list.go:48-57 | an empty list whose frontier another list's `Cons` has claimed |
| `SegmentedList.Cons` | list.go:245-280 | corrected `Cons`: value [x] + l, every live list reads as before, the set stays sound and tidy lists stay tidy |
| `SegmentedList.SpliceGroup` | list.go:298-313 | one step of `concatenate`'s loop: merge into the last group when the guard holds, otherwise push the group. With amount 1, no live list changes |
| `SegmentedList.SpliceOverwriteWitness` | list.go:299-304 | concrete run: with amount = group length the guard admits a write over a slot another list reads |
| `SegmentedList.SpliceStep` | list.go:298-313 | one loop iteration keeps the splice invariant for the next group |
| `SegmentedList.SpliceGroups` | list.go:297-315 | the loop's result has length Len(l1)+Len(l2), and corrected, reads l2's storage then l1's with no live list changed |
| `SegmentedList.SplicedStart` | list.go:297 | the loop invariant holds on the copy of l2 |
| `SegmentedList.SplicedAll` | list.go:315 | the loop invariant after the last group gives the result's properties |
| `SegmentedList.ConcatenatePair` | list.go:287-316 | corrected `concatenate`: value l1 ++ l2, every live list reads as before, the set stays sound |
| `SegmentedList.SpliceNonEmpty` | list.go:297-316 | corrected loop on two non-empty lists: value l1 ++ l2 |
| `SegmentedList.ConcatenatePairAsWritten` | list.go:287-316 | `concatenate` as written: sound and of length Len(l1)+Len(l2); reads unchanged when an operand is empty |
| `SegmentedList.ConcatenateContents` | list.go:327-334 | `Concatenate` folds from the last list back, giving the lists' values in argument order |
| `SegmentedList.ConcatenateEmptyOperand` | list.go:327-334 | an empty operand passes the others through unchanged |
| `FlatList.Get` | src/lst/list.go:65-68 | `get(l, i)` reads storage index Len-1-i, which is element i of the value |
| `FlatList.Head` | src/lst/list.go:75-77 | `Head` is element 0 |
| `FlatList.Last` | src/lst/list.go:87-89 | `Last` is the final element |
| `FlatList.NewFromList` | src/lst/list.go:29-35 | same value, same counter and `firstUsed` |
| `FlatList.TailAbs` | src/lst/list.go:79-85 | `Tail` shares the array and reads the value without its head |
| `FlatList.InitAbs` | src/lst/list.go:91-97 | `Init` shares the array and reads the value without its last element |
| `FlatList.TailSound` | src/lst/list.go:79-85 | `Tail` keeps every live list sound |
| `FlatList.InitSound` | src/lst/list.go:91-97 | `Init` (with `firstUsed` + 1) keeps every live list sound |
| `FlatList.New` | src/lst/list.go:19-27 | an empty slice of a fresh 64-slot array with counter 0, sound with every live list |
| `FlatList.NewFromSliceAsWritten` | src/lst/list.go:37-44 | a copy of the slice, not reversed, so the value is the slice reversed; counter 0 |
| `FlatList.NewFromSlice` | src/lst/list.go:37-44 | corrected: counter at the slice's length; the value is the slice reversed and the set stays sound |
| `FlatList.ConsAsWritten` | src/lst/list.go:99-128 | `Cons` as written: value [v] + l, with the counter and array effects of each of its three paths |
| `FlatList.NewFromSliceOverwriteWitness` | src/lst/list.go:37-44 | concrete run: `Cons(9, Tail(NewFromSlice([1,2])))` turns the original's [2, 1] into [9, 1] |
| `FlatList.ReallocResetOverwriteWitness` | src/lst/list.go:116-122 | concrete run: the reset lowers a shared counter, and a later `Cons` turns [4, 3, 2, 1] into [5, 3, 2, 1] |
| `FlatList.Cons` | src/lst/list.go:99-128 | corrected `Cons`: value [v] + l, every live list reads as before, the set stays sound |
| `FlatList.ConsCopy` | src/lst/list.go:108-111 | copy path: fresh array and counter holding [v] + l |
| `FlatList.ConsRealloc` | src/lst/list.go:116-121 | full-capacity path: the old array is untouched and the result has its own array and counter |
| `FlatList.ConsInPlace` | src/lst/list.go:122-126 | in-place path: writes only the frontier slot, advances the counter, and no live list changes |
| `FlatList.AppendAtFrontier` | src/lst/list.go:123-126 | writing at the frontier extends the written prefix by v and the counter by 1 |
| `FlatList.FrontierWritten` | src/lst/list.go:101-107 | after the frontier write, lists on that array stay sound and those ending before it read as before |
| `FlatList.ConsHeadTail` | src/lst/list.go:99-128 | a cons has length + 1, head v, and its tail reads l |
| `FlatList.ConcatPair` | src/lst/list.go:130-138 | `concat`: value l1 ++ l2, every live list reads as before, the set stays sound; built on the corrected `Cons` |
| `FlatList.ConcatStep` | src/lst/list.go:143-145 | one iteration of `Concat`'s loop puts a list's value in front of the running result; built on the corrected `Cons` |
| `FlatList.Concat` | src/lst/list.go:140-147 | `Concat`: the lists' values in argument order, no live list changed; built on the corrected `Cons` |
| `FlatList.Foldr` | src/lst/list.go:149-155 | the storage-order loop is the right fold of the value |
| `FlatList.Foldl` | src/lst/list.go:157-163 | the index loop is the left fold of the value |
| `FlatList.Reverse` | src/lst/list.go:169-175 | the `Cons` loop yields the reversed value and the set stays sound |
| `ListFunctions.ReverseAt` | functions.go:3-8 | `Reverse` keeps the length, puts element Len-1-k at k, and undoes itself |
| `ListFunctions.Empty` | functions.go:10-13 | `Empty` holds exactly for the empty list |
| `ListFunctions.Foldr1Unfold` | functions.go:18-21 | `Foldr1` of one element is it; otherwise the head combined with `Foldr1` of the rest |
| `ListFunctions.Foldl1Unfold` | functions.go:23-26 | `Foldl1` of one element is it; otherwise `Foldl1` of all but the last combined with the last |
| `ListFunctions.MapAt` | functions.go:28-44 | `Map` keeps the length and puts f(l[k]) at k |
| `ListFunctions.FilterAppend` | functions.go:46-64 | `Filter` of a join is the join of the filters (order kept) |
| `ListFunctions.FilterMembers` | functions.go:57-64 | `Filter` keeps exactly the elements satisfying f, and is no longer than l |
| `ListFunctions.PartitionFilters` | functions.go:375-400 | `Partition` is (`Filter` f, `Filter` not f) |
| `ListFunctions.Element` | functions.go:104-113 | `Element` holds exactly when x occurs in l |
| `ListFunctions.NotElement` | functions.go:115-118 | `NotElement` holds exactly when x does not occur |
| `ListFunctions.ElemIndex` | functions.go:120-134 | found exactly when x occurs, then at its first occurrence; otherwise the index is Len(l)-1 |
| `ListFunctions.IndicesSound` | functions.go:143-153 | every position `indices` reports holds y |
| `ListFunctions.IndicesAscending` | functions.go:143-153 | the positions come in ascending order |
| `ListFunctions.IndicesComplete` | functions.go:143-153 | every position holding y is reported |
| `ListFunctions.ElemIndices` | functions.go:136-141 | exactly the indices at which x occurs, ascending |
| `ListFunctions.Zip` | functions.go:155-171 | length min(Len l1, Len l2); element k is [l1[k], l2[k]] |
| `ListFunctions.ZipWith` | functions.go:173-190 | length min(Len l1, Len l2); element k is f(l1[k], l2[k]) |
| `ListFunctions.SpanAt` | functions.go:192-256 | when f holds before i and fails at i, `TakeWhile` is l[..i] and `DropWhile` is l[i..] |
| `ListFunctions.SpanSplits` | functions.go:239-256 | the two halves of `Span` join back to l, the first all satisfy f, and the second starts with an element failing f |
| `ListFunctions.FlattenConcat` | functions.go:258-270 | `Flatten` is the sublists' elements in order |
| `ListFunctions.AndAll` | functions.go:275-290 | `And` holds exactly when every element is true |
| `ListFunctions.OrSome` | functions.go:292-305 | `Or` holds exactly when some element is true |
| `ListFunctions.AllEvery` | functions.go:307-325 | `All` holds exactly when every element satisfies f (true on []) |
| `ListFunctions.AnySome` | functions.go:327-346 | `Any` holds exactly when some element satisfies f (false on []) |
| `ListFunctions.GroupFold` | functions.go:355-370 | the right fold's (groups, current) pair holds runs that join back to what was folded |
| `ListFunctions.GroupRuns` | functions.go:348-373 | `Group` gives non-empty constant runs, neighbours different, joining back to l; [[]] on [] |
| `ListFunctions.Table.Put` | functions.go:423 | `table[x] = true` adds x to the keys |
| `ListFunctions.FirstOccurrencesSpec` | functions.go:402-413 | keeping first occurrences leaves no duplicates and every value of l |
| `ListFunctions.FirstOccurrencesCons` | functions.go:415-427 | first occurrences unfolded from the front, as `unique` walks |
| `ListFunctions.UniqueFrom` | functions.go:415-427 | `unique` returns the first occurrences of values not yet in the table, and records all of l's values |
| `ListFunctions.Unique` | functions.go:402-413 | `Unique` is the first occurrences of l, in order |
| `ListFunctions.DeleteFirst` | functions.go:432-444 | `Delete` removes exactly the first occurrence of x |
| `ListFunctions.TableOf` | functions.go:454-459 | the iterator loop records exactly the values of the list |
| `ListFunctions.Difference` | functions.go:446-466 | base's elements not in subtract, in order with repeats |
| `ListFunctions.Union` | functions.go:468-480 | l1 then the first occurrences of l2's values not in l1 |
| `ListFunctions.UnionSpec` | functions.go:468-480 | the union starts with l1, holds exactly the values of l1 and l2, and adds each new value once |
| `ListFunctions.Intersect` | functions.go:482-502 | l1's elements that occur in l2, in l1's order with l1's repeats |
| `ListFunctions.Equal` | functions.go:504-518 | `Equal` holds exactly when the lists have the same length and elements |
| `FlatListFunctions.Unique` | src/lst/listfuncs.go:200-211 | the `Foldl` with a table and the final `Reverse` give the first occurrences of l in order |
| `FlatListFunctions.Union` | src/lst/listfuncs.go:236-238 | l1 then l2's elements not in l1, with l2's repeats; the values are those of l1 and l2 |
| `FlatListFunctions.Intersect` | src/lst/listfuncs.go:240-252 | l2's elements that occur in l1, in l2's order with its repeats |

## Left out

- Combinators are stated on the value a list reads (its head-first sequence), not on list headers.
  - The headers they build come from `New`, `Cons` and `Concatenate`, whose effect on shared arrays is modelled in the list modules.
  - Passing the ghost `live` set through every combinator would add nothing to that.
- `SegmentedList.ConcatenateContents`: the variadic `Concatenate` on the segmented list is modelled on the lists' values.
  - Chaining `ConcatenatePair` through its loop would need the pair's result arrays to be stated as old or fresh.
  - The flat `Concat` is modelled on headers.
- `String` (`list.go:150-158`, `src/lst/list.go:50-63`): text rendering through `fmt.Sprintf`.
- `set` (`list.go:142-148`, `src/lst/list.go:70-73`): a test helper that writes through shared storage on purpose.
- `IntSum`, `IntProd`, `FloatSum`, `FloatProd`.
  - The float versions are floating point, and they panic on the `float64` assertion of the int seed.
  - The int versions would need Go's wrapping `int`.
- `Each`, `MakeIterator`, `MakeReverseIterator` and `utils.go`'s `Flip` are side effects or plumbing.
  - The iterator loops in `Difference`/`Intersect` are modelled as index loops.
  - Their nil-sentinel early stop on a nil element is not modelled.
- sort.go does not compile against `list.go` (it copies `[][]Elem` into `[]Elem`), so it is not part of this model.
- Go `append`'s growth policy is not modelled: a reallocated array has some capacity of at least the new length.
- Garbage collection and `interface{}` type assertions are not modelled: elements are a generic `T`, with `T(==)` where Go compares them.
- Concurrency: the counters are not atomic, and nothing here is concurrent.
- `FlatList.Cons` is split into `ConsCopy`, `ConsRealloc` and `ConsInPlace`, one per branch of the guard. Each branch is proved on its own.
- `SegmentedList.ConcatenatePairAsWritten`: its contract does not include the value l1 ++ l2 on the merging path. Its promise of non-interference fails, as `SpliceOverwriteWitness` exhibits.
- `FlatList.ConcatPair`, `FlatList.ConcatStep`, `FlatList.Concat`: they are built on the corrected `FlatList.Cons`, so their non-interference holds for the corrected program only. As written, `concat` calls the `Cons` of findings 3 and 4 (`src/lst/list.go:136`) and inherits its overwrites: concatenating [9] onto `Tail(NewFromSlice([1, 2]))` turns the original list's [2, 1] into [9, 1].
- `FlatList.ConsAsWritten`: its contract does not include non-interference, which fails, as the two flat witnesses exhibit.
- `SegmentedList.Tail`, `SegmentedList.Init`: their value equation is stated for lists without empty end groups ("tidy"). A list that has such a group is finding 2.

## Findings

| source | as written | input that shows it | evidently intended | confidence | as-written member | corrected member |
|---|---|---|---|---|---|---|
| list.go:299-304 | the loop passes `len(group)` as the guard's amount, so the guard admits `offset + len < *firstEmpty` when the group is longer than 1 | a capacity-8 array holding 6 elements; a list shows slots 0-4 and another shows 0-5 (frontier 6); splicing a 2-element group onto the first writes slots 5-6, and the second list's [.., 5] becomes [.., 7] | merge only when the last group ends at the frontier (amount 1) | high (proved; not executed) | `SegmentedList.SpliceOverwriteWitness` | `SegmentedList.ConcatenatePair` |
| list.go:268-278 | `Cons` onto an empty list whose frontier is claimed keeps the empty group and pushes a new one, and `Init` then drops that empty group instead of an element | E := New(); Cons(1, E); l := Cons(3, Cons(2, E)); Init(l) reads [3, 2] instead of [3] | an empty list's refused group is replaced by the new one | high (proved; not executed) | `SegmentedList.ConsKeepsEmptyGroupWitness` | `SegmentedList.Cons` |
| src/lst/list.go:37-44 | `NewFromSlice` starts the counter at 0 while the slice already shows all slots, so a shorter header on it passes the guard and appends over a slot the list reads | l := NewFromSlice([1, 2]); Cons(9, Tail(l)); l reads [9, 1] instead of [2, 1] | counter at len(slice) | high (proved; not executed) | `FlatList.NewFromSliceOverwriteWitness` | `FlatList.NewFromSlice` |
| src/lst/list.go:116-122 | on reallocation `Cons` assigns Len+1 to the counter it shares with the old array, which can lower it below slots other lists read | with the corrected `NewFromSlice`, l := NewFromSlice([1, 2, 3, 4]) (counter 4, capacity 4); Cons(6, Init(Init(l))) sees a full slice and sets the shared counter to 3; Cons(5, Tail(l)) writes slot 3; l reads [5, 3, 2, 1] instead of [4, 3, 2, 1] | a fresh counter for the new array, leaving the shared one alone | high (proved; not executed) | `FlatList.ReallocResetOverwriteWitness` | `FlatList.Cons` |
