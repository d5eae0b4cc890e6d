/**
 * GpioDBusLineCtrl: the D-Bus face of one line. Construction exports one
 * Line object at "<manager path>/<chip name>/<offset>" and takes a reference
 * to the manager; the finalizer unexports that path from that manager and
 * drops the manager and the line it took over from the caller.
 */
module LineController {
  import opened GpiodGlib
  import opened ObjectManager
  import opened ObjectPaths

  /** The Line interface's properties as the constructor fills them. */
  function LineProperties(line: Line): (o: DBusObject)
    ensures o.LineObject? && o.offset == line.handle.offset
    ensures o.name == line.handle.info.name && o.consumer == line.handle.info.consumer
  {
    LineObject(line.Offset(), line.Name(), line.Consumer())
  }

  class LineCtrl {
    const line: Line
    const manager: ObjectManagerServer
    const objPath: string
    var refs: nat

    /** gpiodbus_linectrl_new: the reference g_gpiod_line_get_chip takes is
        dropped before the constructor returns, so the chip's count is as before. */
    constructor (line: Line, manager: ObjectManagerServer)
      requires line.owner.Valid() && line.owner.refs > 0
      modifies manager, line.owner
      ensures this.line == line && this.manager == manager && refs == 1
      ensures objPath == LinePath(manager.objectPath, line.owner.handle.name, line.Offset())
      ensures manager.exported == old(manager.exported)[objPath := LineProperties(line)]
      ensures manager.refs == old(manager.refs) + 1
      ensures line.owner.Valid() && line.owner.refs == old(line.owner.refs)
    {
      var chip := line.GetChip();
      this.line := line;
      this.manager := manager;
      objPath := LinePath(manager.objectPath, chip.handle.name, line.Offset());
      refs := 1;
      new;
      chip.Unref();
      manager.Export(objPath, LineProperties(line));
      manager.Ref();
    }

    /** g_object_unref; the last reference runs the finalizer. */
    method Unref()
      requires refs > 0 && manager.refs > 0 && line.refs > 0 && line.owner.Valid() && line.owner.refs > 0
      modifies this, manager, line, line.owner
      ensures refs == old(refs) - 1 && line.owner.Valid()
      ensures refs == 0 ==>
        manager.exported == old(manager.exported) - {objPath} && manager.refs == old(manager.refs) - 1 &&
        line.refs == old(line.refs) - 1 &&
        line.owner.refs == old(line.owner.refs) + 1 - (if line.refs == 0 then 1 else 0)
      ensures refs > 0 ==> unchanged(manager, line, line.owner)
    {
      refs := refs - 1;
      if refs == 0 {
        Finalize();
      }
    }

    /** gpiodbus_linectrl_finalize. As written it calls g_gpiod_line_get_chip
        and never drops that reference: the chip's count ends one higher than
        the references actually held. */
    method Finalize()
      requires manager.refs > 0 && line.refs > 0 && line.owner.Valid() && line.owner.refs > 0
      modifies manager, line, line.owner
      ensures manager.exported == old(manager.exported) - {objPath} && manager.refs == old(manager.refs) - 1
      ensures line.refs == old(line.refs) - 1 && line.owner.Valid()
      ensures line.owner.refs == old(line.owner.refs) + 1 - (if line.refs == 0 then 1 else 0)
    {
      var chip := line.GetChip();
      var _ := manager.Unexport(objPath);
      manager.Unref();
      line.Unref();
    }

    /** The finalizer with the reference g_gpiod_line_get_chip takes given
        back: the chip loses exactly the reference the dead line held. */
    method FinalizeBalanced()
      requires manager.refs > 0 && line.refs > 0 && line.owner.Valid() && line.owner.refs > 0
      modifies manager, line, line.owner
      ensures manager.exported == old(manager.exported) - {objPath} && manager.refs == old(manager.refs) - 1
      ensures line.refs == old(line.refs) - 1 && line.owner.Valid()
      ensures line.owner.refs == old(line.owner.refs) - (if line.refs == 0 then 1 else 0)
    {
      var chip := line.GetChip();
      var _ := manager.Unexport(objPath);
      manager.Unref();
      chip.Unref();
      line.Unref();
    }

    /** g_object_unref running the balanced finalizer. */
    method UnrefBalanced()
      requires refs > 0 && manager.refs > 0 && line.refs > 0 && line.owner.Valid() && line.owner.refs > 0
      modifies this, manager, line, line.owner
      ensures refs == old(refs) - 1 && line.owner.Valid()
      ensures refs == 0 ==>
        manager.exported == old(manager.exported) - {objPath} && manager.refs == old(manager.refs) - 1 &&
        line.refs == old(line.refs) - 1 &&
        line.owner.refs == old(line.owner.refs) - (if line.refs == 0 then 1 else 0)
      ensures refs > 0 ==> unchanged(manager, line, line.owner)
    {
      refs := refs - 1;
      if refs == 0 {
        FinalizeBalanced();
      }
    }
  }

  /** A controller built over the only reference to a line and then released:
      the manager is as before, the line is dead, and its chip still counts
      the reference the finalizer leaked although no line holds it any more. */
  method LineCtrlLifecycle(line: Line, manager: ObjectManagerServer)
    requires line.refs == 1 && line.owner.Valid() && line.owner.refs > 0
    requires LinePath(manager.objectPath, line.owner.handle.name, line.Offset()) !in manager.exported
    modifies line, line.owner, manager
    ensures manager.exported == old(manager.exported) && manager.refs == old(manager.refs)
    ensures line.refs == 0 && line.owner.refs == old(line.owner.refs) && line.owner.closeCount == 0
  {
    var ctrl := new LineCtrl(line, manager);
    assert ctrl.objPath !in old(manager.exported);
    ctrl.Unref();
  }

  /** The same life with the balanced finalizer: the chip ends with one
      reference fewer, and a chip only the line held is closed. */
  method LineCtrlLifecycleBalanced(line: Line, manager: ObjectManagerServer)
    requires line.refs == 1 && line.owner.Valid() && line.owner.refs > 0
    requires LinePath(manager.objectPath, line.owner.handle.name, line.Offset()) !in manager.exported
    modifies line, line.owner, manager
    ensures manager.exported == old(manager.exported) && manager.refs == old(manager.refs)
    ensures line.refs == 0 && line.owner.refs == old(line.owner.refs) - 1
    ensures old(line.owner.refs) == 1 ==> line.owner.closeCount == 1
  {
    var ctrl := new LineCtrl(line, manager);
    assert ctrl.objPath !in old(manager.exported);
    ctrl.UnrefBalanced();
  }
}
