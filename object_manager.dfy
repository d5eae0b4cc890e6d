/**
 * GIO's GDBusObjectManagerServer as the controllers use it: the objects
 * exported under it, keyed by object path, and its GObject reference count.
 * The bus connection it publishes on is not part of this model.
 */
module ObjectManager {

  /** The properties of an exported object: the org.gpiod Chip and Line interfaces. */
  datatype DBusObject =
    | ChipObject(name: string, chipLabel: string, numLines: nat)
    | LineObject(offset: nat, name: string, consumer: string)

  class ObjectManagerServer {
    const objectPath: string
    var exported: map<string, DBusObject>
    var refs: nat

    /** g_dbus_object_manager_server_new: nothing exported, one reference. */
    constructor (objectPath: string)
      ensures this.objectPath == objectPath && exported == map[] && refs == 1
    {
      this.objectPath := objectPath;
      exported := map[];
      refs := 1;
    }

    /** g_dbus_object_manager_server_export: an object already at that path is replaced. */
    method Export(path: string, obj: DBusObject)
      modifies this
      ensures exported == old(exported)[path := obj] && refs == old(refs)
    {
      exported := exported[path := obj];
    }

    /** g_dbus_object_manager_server_unexport: reports whether anything was exported at the path. */
    method Unexport(path: string) returns (found: bool)
      modifies this
      ensures found == (path in old(exported))
      ensures exported == old(exported) - {path} && refs == old(refs)
    {
      found := path in exported;
      exported := exported - {path};
    }

    /** g_object_ref */
    method Ref()
      modifies this
      ensures refs == old(refs) + 1 && exported == old(exported)
    {
      refs := refs + 1;
    }

    /** g_object_unref; a manager whose count reaches zero is dead. */
    method Unref()
      requires refs > 0
      modifies this
      ensures refs == old(refs) - 1 && exported == old(exported)
    {
      refs := refs - 1;
    }
  }
}
