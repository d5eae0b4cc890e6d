/**
 * GpioDBusChipCtrl: the D-Bus face of one chip. Construction exports one
 * Chip object at "<manager path>/<chip name>" and takes a reference to the
 * manager; the finalizer unexports that path from that manager and drops
 * both the manager and the chip it took over from the caller.
 */
module ChipController {
  import opened Hardware
  import opened GpiodGlib
  import opened ObjectManager
  import opened ObjectPaths

  /** The Chip interface's properties as the constructor fills them from the chip's handle. */
  function ChipProperties(h: ChipHandle): (o: DBusObject)
    ensures o.ChipObject? && o.name == h.name && o.chipLabel == h.chipLabel && o.numLines == |h.lines|
  {
    ChipObject(h.name, h.chipLabel, h.NumLines())
  }

  class ChipCtrl {
    const chip: Chip
    const manager: ObjectManagerServer
    const objPath: string
    var refs: nat

    /** gpiodbus_chipctrl_new: the caller's chip reference passes to the controller. */
    constructor (chip: Chip, manager: ObjectManagerServer)
      modifies manager
      ensures this.chip == chip && this.manager == manager && refs == 1
      ensures objPath == ObjectPath(manager.objectPath, chip.handle.name)
      ensures manager.exported == old(manager.exported)[objPath := ChipProperties(chip.handle)]
      ensures manager.refs == old(manager.refs) + 1
    {
      this.chip := chip;
      this.manager := manager;
      objPath := ObjectPath(manager.objectPath, chip.handle.name);
      refs := 1;
      new;
      manager.Export(objPath, ChipProperties(chip.handle));
      manager.Ref();
    }

    /** g_object_unref; the last reference runs the finalizer. */
    method Unref()
      requires refs > 0 && manager.refs > 0 && chip.Valid() && chip.refs > 0
      modifies this, manager, chip
      ensures refs == old(refs) - 1 && chip.Valid()
      ensures refs == 0 ==>
        manager.exported == old(manager.exported) - {objPath} && manager.refs == old(manager.refs) - 1 &&
        chip.refs == old(chip.refs) - 1 && chip.closeCount == old(chip.closeCount) + (if chip.refs == 0 then 1 else 0)
      ensures refs > 0 ==> unchanged(manager, chip)
    {
      refs := refs - 1;
      if refs == 0 {
        Finalize();
      }
    }

    /** gpiodbus_chipctrl_finalize */
    method Finalize()
      requires manager.refs > 0 && chip.Valid() && chip.refs > 0
      modifies manager, chip
      ensures manager.exported == old(manager.exported) - {objPath} && manager.refs == old(manager.refs) - 1
      ensures chip.Valid() && chip.refs == old(chip.refs) - 1
      ensures chip.closeCount == old(chip.closeCount) + (if chip.refs == 0 then 1 else 0)
    {
      var _ := manager.Unexport(objPath);
      manager.Unref();
      chip.Unref();
    }
  }

  /** A controller built and then released: the manager's exported objects and
      reference count are as before, and a chip the caller held only once is closed. */
  method ChipCtrlLifecycle(chip: Chip, manager: ObjectManagerServer)
    requires chip.Valid() && chip.refs == 1
    requires ObjectPath(manager.objectPath, chip.handle.name) !in manager.exported
    modifies chip, manager
    ensures manager.exported == old(manager.exported) && manager.refs == old(manager.refs)
    ensures chip.refs == 0 && chip.closeCount == 1
  {
    var ctrl := new ChipCtrl(chip, manager);
    assert ctrl.objPath !in old(manager.exported);
    ctrl.Unref();
  }
}
