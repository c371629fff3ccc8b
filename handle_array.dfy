/**
 * The VMCI handle array: a dynamic array of handles whose capacity doubles
 * on demand up to a fixed ceiling, with swap-with-last removal.
 *
 * The pure functions below say what each operation does to the logical
 * contents (the live entries `entries[0..size)`); the class `HandleArray`
 * is the array itself, updated in place, and its methods are proved against
 * those functions.
 */
module VmciHandleArray {
  import opened VmciDefs

  datatype Option<T> = None | Some(value: T)

  /** `VMCI_HANDLE_ARRAY_DEFAULT_CAPACITY`: six handles make a 64-byte block. */
  const DefaultCapacity: nat := 6

  /** `VMCI_HANDLE_ARRAY_HEADER_SIZE`: the four `uint32` counters before `entries`. */
  const HeaderSize: nat := 16

  /** `sizeof(VMCIHandle)`: two `uint32` identifiers. */
  const HandleSize: nat := 8

  /** `VMCI_HANDLE_ARRAY_MAX_CAPACITY`: the largest ceiling whose block size fits a `uint32`. */
  const MaxCapacityLimit: nat := (0xFFFF_FFFF - HeaderSize - 1) / HandleSize

  /** `MIN` of the source's basic definitions. */
  function Min(a: nat, b: nat): (m: nat)
    ensures m <= a && m <= b && (m == a || m == b)
  {
    if a < b then a else b
  }

  // ---------------------------------------------------------------------
  // Specification of the counters
  // ---------------------------------------------------------------------

  /**
   * The invariant the three counters keep: `size <= capacity <= maxCapacity`,
   * the ceiling within `VMCI_HANDLE_ARRAY_MAX_CAPACITY` (so no counter can
   * wrap around), and no empty buffer below a positive ceiling (so that the
   * growth step of AppendEntry always adds a slot).
   */
  predicate HeaderInvariant(capacity: nat, maxCapacity: nat, size: nat)
    ensures HeaderInvariant(capacity, maxCapacity, size) && size == capacity < maxCapacity ==>
              1 <= capacity
  {
    size <= capacity <= maxCapacity <= MaxCapacityLimit &&
    (capacity == 0 ==> maxCapacity == 0)
  }

  /**
   * The capacity Create allocates for the requested `capacity`, or None when
   * Create refuses the arguments.
   */
  function InitialCapacity(capacity: nat, maxCapacity: nat): (r: Option<nat>)
    ensures r.None? <==> maxCapacity == 0 || capacity > maxCapacity
    ensures r.Some? ==> 1 <= r.value <= maxCapacity
    ensures r.Some? && capacity != 0 ==> r.value == capacity
    ensures r.Some? && capacity == 0 ==> r.value == Min(DefaultCapacity, maxCapacity)
    ensures r.Some? && maxCapacity <= MaxCapacityLimit ==> HeaderInvariant(r.value, maxCapacity, 0)
  {
    if maxCapacity == 0 || capacity > maxCapacity then None
    else if capacity == 0 then Some(Min(DefaultCapacity, maxCapacity))
    else Some(capacity)
  }

  /**
   * The capacity after one growth step: the capacity plus
   * `MIN(maxCapacity - capacity, capacity)`. It is doubling clipped to the
   * ceiling, never passes the ceiling, and adds at least one slot to a
   * non-empty buffer below the ceiling.
   */
  function GrownCapacity(capacity: nat, maxCapacity: nat): (r: nat)
    requires capacity <= maxCapacity
    ensures capacity <= r <= maxCapacity
    ensures r == Min(2 * capacity, maxCapacity)
    ensures 1 <= capacity < maxCapacity ==> capacity < r
  {
    capacity + Min(maxCapacity - capacity, capacity)
  }

  // ---------------------------------------------------------------------
  // Specification of the contents
  // ---------------------------------------------------------------------

  /** The index of the first entry of `s` equal to `h`, or `|s|` when there is none. */
  function FirstIndexOf(s: seq<Handle>, h: Handle): (i: nat)
    ensures i <= |s|
    ensures i < |s| <==> h in s
    ensures i < |s| ==> s[i] == h
    ensures forall j :: 0 <= j < i ==> s[j] != h
  {
    if s == [] then 0
    else if s[0] == h then 0
    else 1 + FirstIndexOf(s[1..], h)
  }

  /** The contents after the last entry is moved into slot `i` and the last slot dropped. */
  function SwapRemove(s: seq<Handle>, i: nat): (r: seq<Handle>)
    requires i < |s|
    ensures |r| == |s| - 1
  {
    s[i := s[|s| - 1]][..|s| - 1]
  }

  /** The contents after RemoveEntry(h): the first `h` swap-removed, or no change. */
  function EntryRemoved(s: seq<Handle>, h: Handle): (r: seq<Handle>)
    ensures |r| == if h in s then |s| - 1 else |s|
  {
    var i := FirstIndexOf(s, h);
    if i < |s| then SwapRemove(s, i) else s
  }

  /**
   * Swap-with-last removal takes out exactly the one entry at `i`: every
   * other slot below the new length keeps its entry, slot `i` receives the
   * old last entry, and the result is the old contents less one copy of
   * `s[i]`.
   */
  lemma SwapRemoveTakesOne(s: seq<Handle>, i: nat)
    requires i < |s|
    ensures forall j :: 0 <= j < |s| - 1 && j != i ==> SwapRemove(s, i)[j] == s[j]
    ensures i < |s| - 1 ==> SwapRemove(s, i)[i] == s[|s| - 1]
    ensures multiset(SwapRemove(s, i)) == multiset(s) - multiset{s[i]}
  {
    var n := |s|;
    var r := SwapRemove(s, i);
    if i == n - 1 {
      assert r == s[..n - 1];
      assert s == s[..n - 1] + [s[n - 1]];
    } else {
      assert r == s[..i] + [s[n - 1]] + s[i + 1..n - 1];
      assert s == s[..i] + [s[i]] + s[i + 1..n - 1] + [s[n - 1]];
    }
  }

  /**
   * RemoveEntry on a present handle removes exactly one copy of it and
   * leaves every other handle present; on an absent handle it changes
   * nothing.
   */
  lemma EntryRemovedMembership(s: seq<Handle>, h: Handle)
    ensures h in s ==> |EntryRemoved(s, h)| == |s| - 1
    ensures h in s ==> multiset(EntryRemoved(s, h)) == multiset(s) - multiset{h}
    ensures h !in s ==> EntryRemoved(s, h) == s
    ensures forall x :: x != h ==> (x in EntryRemoved(s, h) <==> x in s)
  {
    var i := FirstIndexOf(s, h);
    if i < |s| {
      SwapRemoveTakesOne(s, i);
      forall x | x != h
        ensures x in EntryRemoved(s, h) <==> x in s
      {
        assert x in multiset(EntryRemoved(s, h)) <==> x in multiset(s);
      }
    }
  }

  /** Removing a handle that was just appended, and was not present before, undoes the append. */
  lemma RemoveUndoesAppend(s: seq<Handle>, h: Handle)
    requires h !in s
    ensures EntryRemoved(s + [h], h) == s
  {
  }

  // ---------------------------------------------------------------------
  // The handle array
  // ---------------------------------------------------------------------

  /**
   * `VMCIHandleArray` together with the caller's pointer to it. The three
   * counters are the header; `entries` is the buffer of `capacity` slots.
   * A growing append replaces `entries` by a fresh, larger array, which is
   * what repointing `*arrayPtr` at a new block does in the source.
   */
  class HandleArray {
    var capacity: nat
    var maxCapacity: nat
    var size: nat
    var entries: array<Handle>
    /** False once Destroy has released the array. */
    ghost var live: bool

    ghost predicate Valid()
      reads this
    {
      live && entries.Length == capacity && HeaderInvariant(capacity, maxCapacity, size)
    }

    /** The live entries, slots `[0, size)`. */
    ghost function Contents(): seq<Handle>
      reads this, entries
      requires Valid()
    {
      entries[..size]
    }

    /** A freshly allocated block: the counters as given, no entries yet. */
    constructor (capacity: nat, maxCapacity: nat)
      ensures this.capacity == capacity && this.maxCapacity == maxCapacity && size == 0
      ensures fresh(entries) && entries.Length == capacity && live
    {
      this.capacity := capacity;
      this.maxCapacity := maxCapacity;
      size := 0;
      entries := new Handle[capacity];
      live := true;
    }

    /**
     * `VMCIHandleArray_Create`: no array when the ceiling is 0, the request
     * exceeds the ceiling, or the allocation fails; otherwise an empty array
     * of the capacity InitialCapacity picks.
     */
    static method Create(capacity: uint32, maxCapacity: uint32, allocOk: bool) returns (a: HandleArray?)
      requires maxCapacity as nat <= MaxCapacityLimit
      ensures a == null <==> InitialCapacity(capacity as nat, maxCapacity as nat).None? || !allocOk
      ensures a != null ==> fresh(a) && fresh(a.entries) && a.Valid()
      ensures a != null ==> a.Contents() == [] && a.size == 0
      ensures a != null ==> a.maxCapacity == maxCapacity as nat
      ensures a != null ==> a.capacity == InitialCapacity(capacity as nat, maxCapacity as nat).value
      ensures a != null ==> 1 <= a.capacity <= a.maxCapacity
    {
      if maxCapacity == 0 || capacity > maxCapacity {
        return null;
      }
      var initial: nat := capacity as nat;
      if initial == 0 {
        initial := Min(DefaultCapacity, maxCapacity as nat);
      }
      if !allocOk {
        return null;
      }
      a := new HandleArray(initial, maxCapacity as nat);
    }

    /** `VMCIHandleArray_Destroy`: the array is released and may not be used again. */
    method Destroy()
      requires Valid()
      modifies this
      ensures !live && !Valid()
    {
      live := false;
    }

    /**
     * `VMCIHandleArray_AppendEntry`. It fails with ErrorNoMem, changing
     * nothing, when the buffer is full and either the ceiling is reached or
     * the allocation for growth fails. Otherwise it stores `h` at index
     * `size` and increments `size`, first growing a full buffer to
     * GrownCapacity and copying the live entries across.
     */
    method AppendEntry(h: Handle, allocOk: bool) returns (status: Status)
      requires Valid()
      modifies this, entries
      ensures Valid() && maxCapacity == old(maxCapacity)
      ensures status == Success <==>
                old(size) < old(capacity) || (old(size) < old(maxCapacity) && allocOk)
      ensures old(size) == old(maxCapacity) ==> status == ErrorNoMem
      ensures status == Success ==> size == old(size) + 1 && Contents() == old(Contents()) + [h]
      ensures status == Success && old(size) < old(capacity) ==>
                entries == old(entries) && capacity == old(capacity) &&
                entries[..] == old(entries[..])[old(size) := h]
      ensures status == Success && old(size) == old(capacity) ==>
                fresh(entries) && capacity == GrownCapacity(old(capacity), old(maxCapacity))
      ensures status == ErrorNoMem ==>
                entries == old(entries) && capacity == old(capacity) && size == old(size) &&
                entries[..] == old(entries[..])
    {
      if size >= capacity {
        if size >= maxCapacity {
          return ErrorNoMem;
        }
        var capacityBump := Min(maxCapacity - capacity, capacity);
        if !allocOk {
          return ErrorNoMem;
        }
        var grown := new Handle[capacity + capacityBump];
        forall i | 0 <= i < capacity {
          grown[i] := entries[i];
        }
        entries := grown;
        capacity := capacity + capacityBump;
      }
      entries[size] := h;
      size := size + 1;
      return Success;
    }

    /**
     * `VMCIHandleArray_RemoveEntry`: the first entry equal to `h` is
     * overwritten by the last entry, the last slot is cleared to the invalid
     * handle and `size` drops by one; the result is `h`. Without a match the
     * result is the invalid handle and nothing changes.
     */
    method RemoveEntry(h: Handle) returns (removed: Handle)
      requires Valid()
      modifies this`size, entries
      ensures Valid()
      ensures removed == if h in old(Contents()) then h else InvalidHandle
      ensures Contents() == EntryRemoved(old(Contents()), h)
      ensures h !in old(Contents()) ==> size == old(size) && entries[..] == old(entries[..])
      ensures h in old(Contents()) ==>
                var i := FirstIndexOf(old(Contents()), h);
                size == old(size) - 1 &&
                entries[..] == old(entries[..])[i := old(entries[size - 1])][old(size) - 1 := InvalidHandle]
    {
      removed := InvalidHandle;
      ghost var found := false;
      var i := 0;
      while i < size
        invariant 0 <= i <= size == old(size)
        invariant entries[..] == old(entries[..])
        invariant forall j :: 0 <= j < i ==> entries[j] != h
        invariant !found
      {
        if entries[i] == h {
          removed := entries[i];
          entries[i] := entries[size - 1];
          entries[size - 1] := InvalidHandle;
          size := size - 1;
          found := true;
          break;
        }
        i := i + 1;
      }
      ghost var s := old(entries[..size]);
      if found {
        assert i < |s| && s[i] == h;
        assert FirstIndexOf(s, h) == i;
        assert entries[..size] == SwapRemove(s, i);
      }
    }

    /**
     * `VMCIHandleArray_RemoveTail`: the last live entry is returned, its slot
     * cleared to the invalid handle and `size` decremented; an empty array
     * yields the invalid handle and is left unchanged.
     */
    method RemoveTail() returns (removed: Handle)
      requires Valid()
      modifies this`size, entries
      ensures Valid()
      ensures old(size) == 0 ==>
                removed == InvalidHandle && size == 0 && entries[..] == old(entries[..])
      ensures old(size) > 0 ==>
                removed == old(Contents())[old(size) - 1] && size == old(size) - 1 &&
                Contents() == old(Contents())[..old(size) - 1] &&
                entries[..] == old(entries[..])[size := InvalidHandle]
    {
      if size == 0 {
        return InvalidHandle;
      }
      removed := entries[size - 1];
      entries[size - 1] := InvalidHandle;
      size := size - 1;
    }

    /** `VMCIHandleArray_GetEntry`: the live entry at `index`, or the invalid handle past the end. */
    function GetEntry(index: nat): (r: Handle)
      reads this, entries
      requires Valid()
      ensures index < |Contents()| ==> r == Contents()[index]
      ensures index >= |Contents()| ==> r == InvalidHandle
    {
      if index >= size then InvalidHandle else entries[index]
    }

    /** `VMCIHandleArray_GetSize`: the number of live entries. */
    function GetSize(): (n: nat)
      reads this, entries
      requires Valid()
      ensures n == |Contents()|
      ensures n <= capacity <= maxCapacity
    {
      size
    }

    /** `VMCIHandleArray_HasEntry`: whether some live entry equals `h`, by a linear scan. */
    method HasEntry(h: Handle) returns (found: bool)
      requires Valid()
      ensures found <==> h in Contents()
    {
      var i := 0;
      while i < size
        invariant i <= size
        invariant forall j :: 0 <= j < i ==> entries[j] != h
      {
        if entries[i] == h {
          return true;
        }
        i := i + 1;
      }
      return false;
    }

    /**
     * `VMCIHandleArray_GetCopy`: no copy when the allocation fails; otherwise
     * a new, independent array with the same live entries in the same order
     * and exactly `size` slots. The copy's ceiling is its size, so it cannot
     * grow (the source leaves that counter unset, see GetCopyAsWritten).
     */
    method GetCopy(allocOk: bool) returns (copy: HandleArray?)
      requires Valid()
      ensures copy == null <==> !allocOk
      ensures copy != null ==> fresh(copy) && fresh(copy.entries) && copy.Valid()
      ensures copy != null ==> copy.Contents() == Contents()
      ensures copy != null ==> copy.capacity == size && copy.maxCapacity == size
    {
      if !allocOk {
        return null;
      }
      copy := new HandleArray(size, size);
      forall i | 0 <= i < size {
        copy.entries[i] := entries[i];
      }
      copy.size := size;
    }

    /**
     * `VMCIHandleArray_GetCopy` with the copy's header as the source writes
     * it: `maxCapacity` is never assigned, so it holds whatever the allocator
     * left in that word, given here as `unsetMaxCapacity`. The copy keeps
     * the array invariant only for some values of that word. The entries
     * are copied at the logical level, so this ignores the byte extent of
     * the source's `memcpy`, which misses the last 4 bytes of the last entry.
     */
    method GetCopyAsWritten(allocOk: bool, unsetMaxCapacity: uint32) returns (copy: HandleArray?)
      requires Valid()
      ensures copy == null <==> !allocOk
      ensures copy != null ==> fresh(copy) && fresh(copy.entries) && copy.live
      ensures copy != null ==> copy.entries.Length == copy.capacity
      ensures copy != null ==>
                copy.capacity == size && copy.size == size && copy.maxCapacity == unsetMaxCapacity as nat
      ensures copy != null ==> copy.entries[..copy.size] == Contents()
      ensures copy != null ==> (copy.Valid() <==> HeaderInvariant(size, unsetMaxCapacity as nat, size))
    {
      if !allocOk {
        return null;
      }
      copy := new HandleArray(size, unsetMaxCapacity as nat);
      forall i | 0 <= i < size {
        copy.entries[i] := entries[i];
      }
      copy.size := size;
    }

    /**
     * `VMCIHandleArray_GetHandles`: no view of an empty array; otherwise the
     * live buffer itself (not a copy), whose first `size` slots are the
     * contents.
     */
    function GetHandles(): (view: array?<Handle>)
      reads this, entries
      requires Valid()
      ensures view == null <==> |Contents()| == 0
      ensures view != null ==> view == entries && view[..|Contents()|] == Contents()
    {
      if size != 0 then entries else null
    }
  }

  // ---------------------------------------------------------------------
  // The copy's unset ceiling
  // ---------------------------------------------------------------------

  /**
   * An empty copy whose unset ceiling word is any nonzero value breaks the
   * invariant, and the growth step of AppendEntry adds no slot to it, so the
   * store that follows lands past the zero-slot buffer.
   */
  lemma EmptyCopyCannotGrow(unset: nat)
    requires unset > 0
    ensures !HeaderInvariant(0, unset, 0) && GrownCapacity(0, unset) == 0
  {
  }

  /**
   * Two concrete copies the source can produce: a one-entry copy whose unset
   * word is 0 has `capacity > maxCapacity`; an empty copy whose unset word
   * is 5 takes the growth branch of AppendEntry, which adds no slot, so the
   * store at index 0 lands past the buffer.
   */
  lemma CopyAsWrittenCounterexamples()
    ensures !HeaderInvariant(1, 0, 1)
    ensures !HeaderInvariant(0, 5, 0)
    ensures GrownCapacity(0, 5) == 0
  {
  }
}
