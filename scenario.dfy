/**
 * Callers of the handle array, written against the contracts alone: what a
 * client may conclude about fills, growth, the ceiling, swap removal and
 * copies without looking at the implementation.
 */
module HandleArrayScenarios {
  import opened VmciDefs
  import opened VmciHandleArray

  /** Create(0, 6) gets the default capacity, which six appends fill. */
  method FillSix(h1: Handle, h2: Handle, h3: Handle, h4: Handle, h5: Handle, h6: Handle)
    returns (a: HandleArray)
    ensures fresh(a) && fresh(a.entries) && a.Valid() && a.maxCapacity == 6
    ensures a.Contents() == [h1, h2, h3, h4, h5, h6]
  {
    var created := HandleArray.Create(0, 6, true);
    assert created != null && created.capacity == 6;
    a := created;
    var s := a.AppendEntry(h1, true);
    assert a.Contents() == [h1];
    s := a.AppendEntry(h2, true);
    assert a.Contents() == [h1, h2];
    s := a.AppendEntry(h3, true);
    assert a.Contents() == [h1, h2, h3];
    s := a.AppendEntry(h4, true);
    assert a.Contents() == [h1, h2, h3, h4];
    s := a.AppendEntry(h5, true);
    assert a.Contents() == [h1, h2, h3, h4, h5];
    s := a.AppendEntry(h6, true);
  }

  /**
   * On the full array a seventh append hits the ceiling; removing the third
   * handle moves the last one into its slot; RemoveTail then returns the new
   * last entry.
   */
  method FillRemoveScenario(h1: Handle, h2: Handle, h3: Handle, h4: Handle,
                            h5: Handle, h6: Handle, h7: Handle)
    requires h1 != h3 && h2 != h3
  {
    var a := FillSix(h1, h2, h3, h4, h5, h6);
    var s := a.AppendEntry(h7, true);
    assert s == ErrorNoMem && a.GetSize() == 6;
    ghost var full := [h1, h2, h3, h4, h5, h6];
    assert full[0] != h3 && full[1] != h3 && full[2] == h3;
    assert FirstIndexOf(full, h3) == 2;
    var r := a.RemoveEntry(h3);
    assert r == h3 && a.GetSize() == 5;
    assert a.Contents() == [h1, h2, h6, h4, h5];
    assert a.GetEntry(2) == h6;
    r := a.RemoveTail();
    assert r == h5 && a.GetSize() == 4;
    a.Destroy();
  }

  /**
   * Create(1, 3) starts with one slot. A failed growth allocation leaves the
   * array as it was; the second append then doubles the buffer to two slots.
   */
  method GrowToTwo(h1: Handle, h2: Handle) returns (a: HandleArray)
    ensures fresh(a) && fresh(a.entries) && a.Valid()
    ensures a.capacity == 2 && a.maxCapacity == 3 && a.Contents() == [h1, h2]
  {
    var created := HandleArray.Create(1, 3, true);
    assert created != null && created.capacity == 1;
    a := created;
    var s := a.AppendEntry(h1, true);
    assert s == Success && a.capacity == 1 && a.Contents() == [h1];
    s := a.AppendEntry(h2, false);
    assert s == ErrorNoMem && a.capacity == 1 && a.Contents() == [h1];
    s := a.AppendEntry(h2, true);
    assert s == Success && a.capacity == 2;
  }

  /** The next growth of that array is clipped to the ceiling of three. */
  method GrowToCeiling(h1: Handle, h2: Handle, h3: Handle) returns (a: HandleArray)
    ensures fresh(a) && fresh(a.entries) && a.Valid()
    ensures a.capacity == a.maxCapacity == 3 && a.Contents() == [h1, h2, h3]
  {
    a := GrowToTwo(h1, h2);
    var s := a.AppendEntry(h3, true);
    assert s == Success && a.capacity == 3;
  }

  /** At the ceiling every append fails and leaves the contents alone. */
  method CeilingScenario(h1: Handle, h2: Handle, h3: Handle, h4: Handle)
  {
    var a := GrowToCeiling(h1, h2, h3);
    var s := a.AppendEntry(h4, true);
    assert s == ErrorNoMem && a.Contents() == [h1, h2, h3];
  }

  /** A copy is a snapshot: draining it leaves the original untouched. */
  method CopyScenario(h1: Handle, h2: Handle, h3: Handle)
  {
    var a := HandleArray.Create(0, 8, true);
    var s := a.AppendEntry(h1, true);
    s := a.AppendEntry(h2, true);
    s := a.AppendEntry(h3, true);
    var c := a.GetCopy(true);
    assert c.GetSize() == 3 && c.Contents() == [h1, h2, h3];
    var r := c.RemoveTail();
    assert r == h3 && c.GetSize() == 2;
    assert a.Contents() == [h1, h2, h3];
    var v := a.GetHandles();
    assert v != null && v[..3] == [h1, h2, h3];
    var none := a.GetCopy(false);
    assert none == null;
  }

  /**
   * A copy is right-sized with its ceiling at its size, so for every valid
   * array an append to its copy is refused whatever the allocator answers,
   * and the original keeps its contents.
   */
  method CopyRefusesAppend(a: HandleArray, h: Handle, allocOk: bool) returns (status: Status)
    requires a.Valid()
    ensures status == ErrorNoMem
  {
    var c := a.GetCopy(true);
    status := c.AppendEntry(h, allocOk);
    assert c.Contents() == a.Contents();
    assert a.Valid();
  }
}
