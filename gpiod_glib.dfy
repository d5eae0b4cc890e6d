/**
 * The GLib bindings of libgpiod: GpiodChip and GpiodLine, GObjects that wrap
 * a libgpiod chip and line handle. A line holds a counted reference to the
 * chip it came from; a chip closes its handle when its last reference goes.
 * Both live in one module because each class refers to the other.
 */
module GpiodGlib {
  import opened Wrappers
  import opened Hardware

  // ---------------------------------------------------------------------
  // Line lookup as a function of the chip handle

  /** g_gpiod_chip_get_line without the object: the handle gpiod_chip_get_line
      finds at the offset, or the lookup error. */
  function LineAt(h: ChipHandle, offset: nat): (r: Result<LineHandle, Error>)
    ensures r.Success? <==> offset < h.NumLines() && h.lines[offset].Some?
    ensures r.Success? ==> r.value.offset == offset && h.lines[offset] == Some(r.value.info)
    ensures r.Failure? ==> r.error == LookupError(offset)
  {
    if offset < |h.lines| && h.lines[offset].Some? then Success(LineHandle(offset, h.lines[offset].value))
    else Failure(LookupError(offset))
  }

  /** The first n iterations of g_gpiod_chip_get_all_lines: the handles for
      offsets 0 .. n - 1 in order, or the first lookup error. */
  function LinesBelow(h: ChipHandle, n: nat): (r: Result<seq<LineHandle>, Error>)
    ensures r.Success? ==> |r.value| == n
    ensures r.Failure? ==> r.error.LookupError? && r.error.offset < n && LineAt(h, r.error.offset).Failure?
  {
    if n == 0 then Success([])
    else
      match LinesBelow(h, n - 1)
      case Failure(e) => Failure(e)
      case Success(ls) =>
        match LineAt(h, n - 1)
        case Failure(e) => Failure(e)
        case Success(l) => Success(ls + [l])
  }

  /** What g_gpiod_chip_get_all_lines computes for a chip: one handle per
      line, or the error of an offset below num_lines that does not resolve. */
  function AllLines(h: ChipHandle): (r: Result<seq<LineHandle>, Error>)
    ensures r.Success? ==> |r.value| == h.NumLines()
    ensures r.Failure? ==> r.error.LookupError? && r.error.offset < h.NumLines() && h.lines[r.error.offset].None?
  {
    LinesBelow(h, h.NumLines())
  }

  /** Enumeration succeeds exactly when every offset resolves, and then the
      i-th handle is the one looked up at offset i. */
  lemma {:induction false} LinesBelowSuccess(h: ChipHandle, n: nat)
    ensures LinesBelow(h, n).Success? <==> forall i :: 0 <= i < n ==> LineAt(h, i).Success?
    ensures LinesBelow(h, n).Success? ==>
      forall i :: 0 <= i < n ==> LinesBelow(h, n).value[i] == LineAt(h, i).value
  {
    if n > 0 {
      LinesBelowSuccess(h, n - 1);
    }
  }

  /** Once the lookup at offset j fails after offsets 0 .. j - 1 resolved,
      every longer enumeration reports that offset's error and nothing else. */
  lemma {:induction false} LinesBelowFailure(h: ChipHandle, j: nat, n: nat)
    requires j < n
    requires LineAt(h, j).Failure?
    requires forall i :: 0 <= i < j ==> LineAt(h, i).Success?
    ensures LinesBelow(h, n) == Failure(LookupError(j))
  {
    if n == j + 1 {
      LinesBelowSuccess(h, j);
    } else {
      LinesBelowFailure(h, j, n - 1);
    }
  }

  /** All-or-nothing: either every line of the chip, in offset order, or
      the error of the lowest offset that does not resolve. */
  lemma AllLinesAllOrNothing(h: ChipHandle)
    ensures AllLines(h).Success? <==> forall i :: 0 <= i < h.NumLines() ==> h.lines[i].Some?
    ensures AllLines(h).Success? ==>
      |AllLines(h).value| == h.NumLines() &&
      forall i :: 0 <= i < h.NumLines() ==> AllLines(h).value[i] == LineHandle(i, h.lines[i].value)
    ensures forall j :: (0 <= j < h.NumLines() && h.lines[j].None? &&
      (forall i :: 0 <= i < j ==> h.lines[i].Some?)) ==> AllLines(h) == Failure(LookupError(j))
  {
    LinesBelowSuccess(h, h.NumLines());
    assert forall i :: 0 <= i < h.NumLines() ==> (LineAt(h, i).Success? <==> h.lines[i].Some?);
    forall j | 0 <= j < h.NumLines() && h.lines[j].None? && (forall i :: 0 <= i < j ==> h.lines[i].Some?)
      ensures AllLines(h) == Failure(LookupError(j))
    {
      LinesBelowFailure(h, j, h.NumLines());
    }
  }

  // ---------------------------------------------------------------------
  // Direction and active state

  /** GpiodLineDir (gpiod-glib.h): INPUT = 1, OUTPUT = 2. */
  datatype LineDir = DirectionInput | DirectionOutput
  {
    function Value(): int
    {
      match this
      case DirectionInput => 1
      case DirectionOutput => 2
    }
  }

  /** GpiodLineActive (gpiod-glib.h): ACTIVE_HIGH = 1, ACTIVE_LOW = 2. */
  datatype LineActive = ActiveHigh | ActiveLow
  {
    function Value(): int
    {
      match this
      case ActiveHigh => 1
      case ActiveLow => 2
    }
  }

  /** libgpiod's own codes (gpiod.h is not part of this model; only their
      distinctness matters here). */
  const GpiodDirectionInput: int := 1
  const GpiodDirectionOutput: int := 2
  const GpiodActiveStateHigh: int := 1
  const GpiodActiveStateLow: int := 2

  /** The switch of g_gpiod_line_direction; None is g_assert_not_reached. */
  function MapDirection(raw: int): (r: Option<LineDir>)
    ensures r == Some(DirectionInput) <==> raw == GpiodDirectionInput
    ensures r == Some(DirectionOutput) <==> raw == GpiodDirectionOutput
  {
    if raw == GpiodDirectionInput then Some(DirectionInput)
    else if raw == GpiodDirectionOutput then Some(DirectionOutput)
    else None
  }

  /** The switch of g_gpiod_line_active_state; None is g_assert_not_reached. */
  function MapActiveState(raw: int): (r: Option<LineActive>)
    ensures r == Some(ActiveHigh) <==> raw == GpiodActiveStateHigh
    ensures r == Some(ActiveLow) <==> raw == GpiodActiveStateLow
  {
    if raw == GpiodActiveStateHigh then Some(ActiveHigh)
    else if raw == GpiodActiveStateLow then Some(ActiveLow)
    else None
  }

  /** The libgpiod code a GLib direction stands for. */
  function GpiodDirection(d: LineDir): int
  {
    match d
    case DirectionInput => GpiodDirectionInput
    case DirectionOutput => GpiodDirectionOutput
  }

  /** The libgpiod code a GLib active state stands for. */
  function GpiodActiveState(a: LineActive): int
  {
    match a
    case ActiveHigh => GpiodActiveStateHigh
    case ActiveLow => GpiodActiveStateLow
  }

  /** The mappings are bijections between the two libgpiod codes and the two
      enum members, and the enum members carry distinct values. */
  lemma MappingsRoundTrip(raw: int, d: LineDir, a: LineActive)
    ensures MapDirection(GpiodDirection(d)) == Some(d)
    ensures MapDirection(raw) == Some(d) ==> raw == GpiodDirection(d)
    ensures MapActiveState(GpiodActiveState(a)) == Some(a)
    ensures MapActiveState(raw) == Some(a) ==> raw == GpiodActiveState(a)
    ensures DirectionInput.Value() != DirectionOutput.Value() && ActiveHigh.Value() != ActiveLow.Value()
  {
  }

  // ---------------------------------------------------------------------
  // The objects

  /** Distinct objects. */
  ghost predicate DistinctLines(lines: seq<Line>)
  {
    forall j, k :: 0 <= j < k < |lines| ==> lines[j] != lines[k]
  }

  /** The lines wrap the handles hs, in order, all owned by owner. */
  ghost predicate Wraps(lines: seq<Line>, owner: Chip, hs: seq<LineHandle>)
  {
    |lines| == |hs| && forall j :: 0 <= j < |lines| ==> lines[j].handle == hs[j] && lines[j].owner == owner
  }

  /** Each line is referenced only by the list holding it. */
  ghost predicate SolelyHeld(lines: seq<Line>)
    reads lines
  {
    forall j :: 0 <= j < |lines| ==> lines[j].refs == 1
  }

  /** GpiodChip. */
  class Chip {
    const handle: ChipHandle
    var refs: nat
    /** how many times gpiod_chip_close ran on the handle */
    var closeCount: nat

    /** The handle is closed exactly once: when, and only when, the count is zero. */
    ghost predicate Valid()
      reads this
    {
      closeCount == (if refs == 0 then 1 else 0)
    }

    /** g_gpiod_chip_new_from_handle */
    constructor FromHandle(handle: ChipHandle)
      ensures Valid() && this.handle == handle && refs == 1
    {
      this.handle := handle;
      refs := 1;
      closeCount := 0;
    }

    /** g_gpiod_chip_new: NULL and an error exactly when the open lookup fails. */
    static method New(m: Machine, devname: string) returns (r: Result<Chip, Error>)
      ensures r.Failure? <==> devname !in m.chips
      ensures r.Failure? ==> r.error == OpenError(devname)
      ensures r.Success? ==> fresh(r.value) && r.value.Valid() && r.value.handle == m.chips[devname] && r.value.refs == 1
    {
      if devname !in m.chips {
        return Failure(OpenError(devname));
      }
      var chip := new Chip.FromHandle(m.chips[devname]);
      return Success(chip);
    }

    /** g_gpiod_chip_list_get: the chips the iterator yields, in its order. */
    static method ListGet(m: Machine) returns (r: Result<seq<Chip>, Error>)
      ensures r.Failure? <==> m.iteration.None?
      ensures r.Failure? ==> r.error == IteratorError
      ensures r.Success? ==> |r.value| == |m.iteration.value|
      ensures r.Success? ==> forall i :: 0 <= i < |r.value| ==>
        fresh(r.value[i]) && r.value[i].Valid() && r.value[i].handle == m.iteration.value[i] && r.value[i].refs == 1
      ensures r.Success? ==> forall i, j :: 0 <= i < j < |r.value| ==> r.value[i] != r.value[j]
    {
      if m.iteration.None? {
        return Failure(IteratorError);
      }
      var handles := m.iteration.value;
      var chips: seq<Chip> := [];
      var i := 0;
      while i < |handles|
        invariant 0 <= i <= |handles| && |chips| == i
        invariant forall k :: 0 <= k < i ==>
          fresh(chips[k]) && chips[k].Valid() && chips[k].handle == handles[k] && chips[k].refs == 1
        invariant forall k, j :: 0 <= k < j < i ==> chips[k] != chips[j]
      {
        var chip := new Chip.FromHandle(handles[i]);
        chips := chips + [chip];
        i := i + 1;
      }
      return Success(chips);
    }

    /** g_object_ref */
    method Ref()
      requires Valid() && refs > 0
      modifies this
      ensures Valid() && refs == old(refs) + 1
    {
      refs := refs + 1;
    }

    /** g_object_unref; the last reference runs the finalizer. */
    method Unref()
      requires Valid() && refs > 0
      modifies this
      ensures Valid() && refs == old(refs) - 1
      ensures closeCount == old(closeCount) + (if refs == 0 then 1 else 0)
    {
      refs := refs - 1;
      if refs == 0 {
        Finalize();
      }
    }

    /** g_gpiod_chip_finalize: closes the handle. */
    method Finalize()
      requires refs == 0 && closeCount == 0
      modifies this
      ensures refs == 0 && closeCount == 1
    {
      closeCount := closeCount + 1;
    }

    /** g_gpiod_chip_get_line: a new line owned by this chip, or the lookup error. */
    method GetLine(offset: nat) returns (r: Result<Line, Error>)
      requires Valid() && refs > 0
      modifies this
      ensures Valid()
      ensures r.Success? <==> LineAt(handle, offset).Success?
      ensures r.Failure? ==> r.error == LineAt(handle, offset).error && refs == old(refs)
      ensures r.Success? ==>
        fresh(r.value) && r.value.handle == LineAt(handle, offset).value && r.value.owner == this &&
        r.value.refs == 1 && refs == old(refs) + 1
    {
      var h := LineAt(handle, offset);
      if h.Failure? {
        return Failure(h.error);
      }
      var line := new Line(h.value, this);
      return Success(line);
    }

    /** g_gpiod_chip_get_all_lines: every line in offset order, or the first
        lookup error with every line built so far released. */
    method GetAllLines() returns (r: Result<seq<Line>, Error>)
      requires Valid() && refs > 0
      modifies this
      ensures Valid()
      ensures r.Success? <==> AllLines(handle).Success?
      ensures r.Failure? ==> r.error == AllLines(handle).error && refs == old(refs)
      ensures r.Success? ==>
        Wraps(r.value, this, AllLines(handle).value) && SolelyHeld(r.value) && DistinctLines(r.value) &&
        (forall i :: 0 <= i < |r.value| ==> fresh(r.value[i])) && refs == old(refs) + |r.value|
    {
      var n := handle.NumLines();
      var lines: seq<Line> := [];
      var i := 0;
      while i < n
        invariant 0 <= i <= n && Valid() && refs == old(refs) + i
        invariant LinesBelow(handle, i).Success? && Wraps(lines, this, LinesBelow(handle, i).value)
        invariant SolelyHeld(lines) && DistinctLines(lines)
        invariant forall k :: 0 <= k < i ==> fresh(lines[k])
      {
        var line := GetLine(i);
        if line.Failure? {
          LinesBelowSuccess(handle, i);
          LinesBelowFailure(handle, i, n);
          ReleaseLines(lines);
          return Failure(line.error);
        }
        lines := lines + [line.value];
        i := i + 1;
      }
      return Success(lines);
    }

    /** g_list_free_full(lines, g_object_unref) on lines of this chip: each
        line dies and gives back its reference to the chip. */
    method ReleaseLines(lines: seq<Line>)
      requires Valid() && refs > |lines|
      requires DistinctLines(lines) && SolelyHeld(lines)
      requires forall j :: 0 <= j < |lines| ==> lines[j].owner == this
      modifies this, lines
      ensures Valid() && refs == old(refs) - |lines|
      ensures forall j :: 0 <= j < |lines| ==> lines[j].refs == 0
    {
      var i := 0;
      while i < |lines|
        invariant 0 <= i <= |lines| && Valid() && refs == old(refs) - i
        invariant forall j :: 0 <= j < i ==> lines[j].refs == 0
        invariant forall j :: i <= j < |lines| ==> lines[j].refs == 1
      {
        lines[i].Unref();
        i := i + 1;
      }
    }
  }

  /** GpiodLine. */
  class Line {
    const handle: LineHandle
    const owner: Chip
    var refs: nat

    /** g_gpiod_line_new: stores the handle and the owner and takes a reference to the owner. */
    constructor (handle: LineHandle, owner: Chip)
      requires owner.Valid() && owner.refs > 0
      modifies owner
      ensures this.handle == handle && this.owner == owner && refs == 1
      ensures owner.Valid() && owner.refs == old(owner.refs) + 1
    {
      this.handle := handle;
      this.owner := owner;
      refs := 1;
      new;
      owner.Ref();
    }

    /** g_gpiod_line_offset */
    function Offset(): nat { handle.offset }

    /** g_gpiod_line_name */
    function Name(): string { handle.info.name }

    /** g_gpiod_line_consumer */
    function Consumer(): string { handle.info.consumer }

    /** g_gpiod_line_direction */
    function Direction(): (d: Option<LineDir>)
      ensures d.Some? ==> GpiodDirection(d.value) == handle.info.direction
      ensures d.None? <==> handle.info.direction != GpiodDirectionInput && handle.info.direction != GpiodDirectionOutput
    {
      MapDirection(handle.info.direction)
    }

    /** g_gpiod_line_active_state */
    function ActiveState(): (a: Option<LineActive>)
      ensures a.Some? ==> GpiodActiveState(a.value) == handle.info.activeState
      ensures a.None? <==> handle.info.activeState != GpiodActiveStateHigh && handle.info.activeState != GpiodActiveStateLow
    {
      MapActiveState(handle.info.activeState)
    }

    /** g_gpiod_line_get_chip: the owner, with one more reference the caller must drop. */
    method GetChip() returns (chip: Chip)
      requires owner.Valid() && owner.refs > 0
      modifies owner
      ensures chip == owner && owner.Valid() && owner.refs == old(owner.refs) + 1
    {
      owner.Ref();
      chip := owner;
    }

    /** g_object_unref; the last reference runs the finalizer. */
    method Unref()
      requires refs > 0 && owner.Valid() && (refs == 1 ==> owner.refs > 0)
      modifies this, owner
      ensures refs == old(refs) - 1 && owner.Valid()
      ensures owner.refs == old(owner.refs) - (if refs == 0 then 1 else 0)
    {
      refs := refs - 1;
      if refs == 0 {
        Finalize();
      }
    }

    /** g_gpiod_line_finalize: drops the reference to the owner. */
    method Finalize()
      requires owner.Valid() && owner.refs > 0
      modifies owner
      ensures owner.Valid() && owner.refs == old(owner.refs) - 1
    {
      owner.Unref();
    }
  }
}
