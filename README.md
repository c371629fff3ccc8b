# VMCI handle array in Dafny

VMCI (the host/guest communication interface of the VMware kernel modules) tracks its endpoint handles in a small dynamic
array. The array lives in one kernel memory block. A header of counters (`capacity`, `maxCapacity`, `size`) comes first,
followed by `capacity` handle slots. An append to a full array below the ceiling `maxCapacity` reallocates the block. The
capacity doubles, clipped to the ceiling, and the caller's pointer is moved to the new block. Removal overwrites the
removed slot with the last entry, so it does not keep the order of the entries. A failed allocation or a reached ceiling
leaves the array exactly as it was.

The project has three files:

- `vmci_defs.dfy` (module `VmciDefs`): `uint32`, `Handle` (a context id and a resource id, compared by equality),
  `InvalidHandle` (both ids `0xFFFFFFFF`) and the two append results `Success` and `ErrorNoMem`. The values come from
  `vmci_defs.h`, which is not part of this model. The numeric values of the status codes are not modelled.
- `handle_array.dfy` (module `VmciHandleArray`) has two parts:
  - Pure specification functions: the counter invariant `HeaderInvariant`, `InitialCapacity`, `GrownCapacity`,
    `FirstIndexOf`, `SwapRemove` and `EntryRemoved`, with lemmas about them.
  - The class `HandleArray`. Its fields are the three counters and `entries: array<Handle>`. `Valid()` ties
    `entries.Length` to `capacity` and requires `HeaderInvariant`. The ghost `Contents()` is `entries[..size]`. Every
    method of the class is proved against the specification functions.
- `scenario.dfy` (module `HandleArrayScenarios`): callers that use only the contracts. They cover filling to the
  ceiling, growth, a failed growth, swap removal, `RemoveTail`, and copy independence.

How the model maps the C code:

- The allocator is an input `allocOk: bool`, so every failure path is covered by the proofs.
- Growth assigns a fresh, larger array to `entries`. The object itself stands for the caller's `*arrayPtr`.
- `Destroy` clears the ghost flag `live`. After that `Valid()` is false, so no operation can be called again.
- All counters are bounded by `VMCI_HANDLE_ARRAY_MAX_CAPACITY` through `HeaderInvariant`, so the model's unbounded
  `nat`s never leave the `uint32` range the source uses.

## Model

| member | source | states |
|---|---|---|
| `VmciHandleArray.HeaderInvariant` | source/vmci-only/shared/vmci_handle_array.h:48-54 | The counter invariant: `size <= capacity <= maxCapacity <= VMCI_HANDLE_ARRAY_MAX_CAPACITY`, and no zero-slot buffer below a positive ceiling. Hence a full array below its ceiling has at least one slot, so a growth step adds one. |
| `VmciHandleArray.InitialCapacity` | source/vmci-only/shared/vmci_handle_array.h:86-92 | Create refuses exactly when `maxCapacity == 0` or the request exceeds it. Otherwise the capacity is the request, or `MIN(6, maxCapacity)` for a request of 0. Either way it lies in `[1, maxCapacity]` and satisfies the header invariant. |
| `VmciHandleArray.GrownCapacity` | source/vmci-only/shared/vmci_handle_array.h:161-172 | One growth step, `capacity + MIN(maxCapacity - capacity, capacity)`, equals `MIN(2 * capacity, maxCapacity)`. It never passes the ceiling and adds at least one slot when `1 <= capacity < maxCapacity`. |
| `VmciHandleArray.FirstIndexOf` | source/vmci-only/shared/vmci_handle_array.h:207-208 | The scan's match index: the first index holding `h`, or `|s|` exactly when `h` is absent. |
| `VmciHandleArray.SwapRemove` | source/vmci-only/shared/vmci_handle_array.h:209-212 | The contents after the last entry is copied into slot `i` and the last slot is dropped: one entry shorter. |
| `VmciHandleArray.EntryRemoved` | source/vmci-only/shared/vmci_handle_array.h:207-215 | The contents RemoveEntry leaves: the first entry equal to `h` swap-removed, or no change when `h` is absent. The result is one shorter exactly when `h` was present. |
| `VmciHandleArray.SwapRemoveTakesOne` | source/vmci-only/shared/vmci_handle_array.h:209-212 | Swap-with-last keeps every other slot below the new length, moves the old last entry into slot `i`, and removes exactly one copy of `s[i]` from the multiset of entries. |
| `VmciHandleArray.EntryRemovedMembership` | source/vmci-only/shared/vmci_handle_array.h:203-217 | Removing a present handle shortens the contents by one and removes one copy of it. Every other handle stays present. Removing an absent handle changes nothing. |
| `VmciHandleArray.RemoveUndoesAppend` | source/vmci-only/shared/vmci_handle_array.h:178-179 | RemoveEntry of a handle just appended, and absent before, restores the previous contents. |
| `VmciHandleArray.HandleArray.Create` | source/vmci-only/shared/vmci_handle_array.h:78-107 | No array when the arguments are refused or the allocation fails. Otherwise a fresh, valid, empty array with the given ceiling and the capacity from `InitialCapacity`, so `1 <= capacity <= maxCapacity`. Requires the ceiling assertion of line 84. |
| `VmciHandleArray.HandleArray.Destroy` | source/vmci-only/shared/vmci_handle_array.h:124-130 | The array is released: it is no longer valid, so no operation can use it again. |
| `VmciHandleArray.HandleArray.AppendEntry` | source/vmci-only/shared/vmci_handle_array.h:147-182 | Succeeds exactly when there is a free slot, or the ceiling is not reached and the allocation succeeds. It always fails at the ceiling. On success `Contents == old(Contents) + [h]`, in place when a slot was free; otherwise in a fresh buffer of `GrownCapacity` slots. On failure nothing changes: counters, buffer and entries stay as they were. The invariant and `maxCapacity` are kept in every case. |
| `VmciHandleArray.HandleArray.RemoveEntry` | source/vmci-only/shared/vmci_handle_array.h:199-218 | Returns `h` if present, otherwise the invalid handle. `Contents` becomes `EntryRemoved(old(Contents), h)`. The whole buffer equals the old one with slot `FirstIndexOf` taking the last entry and the last slot cleared; nothing changes on a miss. |
| `VmciHandleArray.HandleArray.RemoveTail` | source/vmci-only/shared/vmci_handle_array.h:235-248 | On an empty array: the invalid handle and no change. Otherwise: returns the last entry, `Contents` loses its last element, and that slot is cleared to the invalid handle. |
| `VmciHandleArray.HandleArray.GetEntry` | source/vmci-only/shared/vmci_handle_array.h:265-275 | The live entry at `index` when `index < size`, otherwise the invalid handle. It reads the array and changes nothing. |
| `VmciHandleArray.HandleArray.GetSize` | source/vmci-only/shared/vmci_handle_array.h:292-297 | The number of live entries, which is at most `capacity` and `maxCapacity`. |
| `VmciHandleArray.HandleArray.HasEntry` | source/vmci-only/shared/vmci_handle_array.h:314-328 | True exactly when some live entry equals `h`. It changes nothing. |
| `VmciHandleArray.HandleArray.GetCopy` | source/vmci-only/shared/vmci_handle_array.h:346-365 | No copy exactly when the allocation fails. Otherwise a fresh, valid array in a fresh buffer with the same contents in the same order and `capacity == size`. The source is not modified. The ceiling is set to `size` (see Findings). |
| `VmciHandleArray.HandleArray.GetCopyAsWritten` | source/vmci-only/shared/vmci_handle_array.h:346-365 | The copy with its header as the source writes it: `capacity == size`, and `maxCapacity` equal to whatever word the allocator left there. The copy is valid exactly when that header keeps the invariant. The entries are the same contents at the logical level; the byte-level truncation of the `memcpy` is ignored (see Left out). |
| `VmciHandleArray.HandleArray.GetHandles` | source/vmci-only/shared/vmci_handle_array.h:383-393 | Null exactly when the array is empty. Otherwise the live buffer itself (an alias, not a copy), whose first `size` slots are the contents. |
| `VmciHandleArray.EmptyCopyCannotGrow` | source/vmci-only/shared/vmci_handle_array.h:156-179 | For every nonzero value of the unset ceiling word, an empty copy breaks the invariant, and the growth step of lines 161-172 adds no slot before the store at line 178. |
| `VmciHandleArray.CopyAsWrittenCounterexamples` | source/vmci-only/shared/vmci_handle_array.h:156-179 | Two headers the source's copy can have that break the invariant. With `(1, 0, 1)`, capacity exceeds the ceiling. With `(0, 5, 0)`, the growth step adds no slot, so the append stores past the buffer. |
| `HandleArrayScenarios.CopyRefusesAppend` | source/vmci-only/shared/vmci_handle_array.h:156-158 | For every valid array and every allocator answer, an append to its corrected copy fails with `ErrorNoMem`, because the copy's ceiling equals its size. The original is untouched. |

## Left out

- The kernel allocator (`VMCI_AllocKernelMem`, `VMCI_FreeKernelMem`, the `NONPAGED | ATOMIC` flags) is a foreign call. Each
  allocation is the input `allocOk`. A free is the old buffer becoming unreachable, or `live` becoming false in
  `Destroy`.
- Byte-level block sizes and `memcpy` extents are not modelled, only the logical contents. The source itself is
  inconsistent on these, with the four-`uint32` header (16 bytes) at lines 48-54:
  - `Destroy` frees `sizeof capacity + sizeof size + capacity * sizeof(VMCIHandle)` bytes, 8 bytes fewer than `Create`
    allocated.
  - `GetCopy` allocates only 8 header bytes.
  - `GetCopy`'s `memcpy` starts at `size`, so it writes 4 bytes past the copy's block. It also leaves the last 4 bytes
    of the last entry uncopied.
  - These are not stated as Findings because the model has no byte layout.
- Slots of a grown buffer past the copied entries are uninitialised in the source. Dafny fills them with a default
  handle. No contract says anything about them.
- `GetHandles` returns the buffer, so a later growth leaves the caller holding a retired buffer. Dafny's heap has no
  use-after-free, so that hazard is not modelled.
- Stale array pointers after growth are not modelled. The object stands for `*arrayPtr`, so every Dafny reference to
  it sees the grown buffer. In the source, any other copy of the old `VMCIHandleArray *` dangles once line 173 frees the
  old block.
- There is no locking in the source, and the model is sequential.
- `ASSERT`s on null pointers (lines 153, 206, 269, 295, 320, 351, 386) have no counterpart: Dafny references are
  non-null here.
- The other headers next to the core (`vsockSocketWrapper.h`, `includeCheck.h`, `vmciKernelAPI3.h`) hold only
  constants, platform macros and compile-time checks, with no behaviour to model.

## Findings

| source | as written | input that shows it | evidently intended | confidence | as-written member | corrected member |
|---|---|---|---|---|---|---|
| source/vmci-only/shared/vmci_handle_array.h:358-362 | `GetCopy` sets the copy's `capacity` and `size` but never its `maxCapacity`, which keeps whatever the allocator left in that word | Copy `[h]` with the unset word 0: the header `(1, 0, 1)` has `capacity > maxCapacity`. Copy the empty array with the unset word 5: the next append takes the growth branch, adds `MIN(5, 0) = 0` slots and stores at index 0 of a zero-slot buffer. | The copy is right-sized with a defined ceiling, `maxCapacity == size`, so the invariant holds and a full copy refuses appends | medium, not executed | `VmciHandleArray.HandleArray.GetCopyAsWritten`, `VmciHandleArray.CopyAsWrittenCounterexamples`, `VmciHandleArray.EmptyCopyCannotGrow` | `VmciHandleArray.HandleArray.GetCopy`, `HandleArrayScenarios.CopyRefusesAppend` |
