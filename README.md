# libgpiod D-Bus daemon and GLib bindings: a Dafny model

This project models the core of libgpiod's D-Bus daemon and of the GLib
bindings it is built on.

- **The daemon (`GpioDBusDaemon`).** It keeps a table from udev device name
  to a chip record. A record holds a chip controller and a per-chip object
  manager. The udev "add" and "remove" uevents and the startup enumeration
  change the table.
- **The controllers (`GpioDBusChipCtrl`, `GpioDBusLineCtrl`).** Each one
  exports one object on a `GDBusObjectManagerServer` when it is built and
  unexports it in its finalizer.
- **The bindings (`GpiodChip`, `GpiodLine`).** These are reference-counted
  wrappers around libgpiod chip and line handles.

Modules, one concern each:

| module | file | models |
|---|---|---|
| `Wrappers` | wrappers.dfy | `Option` and `Result`, for NULL-or-object and GError returns |
| `Hardware` | hardware.dfy | What libgpiod and udev report, as a value (`Machine`): the chips `gpiod_chip_open_lookup` finds, the outcome of each `gpiod_chip_get_line`, the chip iterator, and the GError kinds |
| `ObjectPaths` | object_paths.dfy | The `"%s/%s"` and `"%s/%s/%u"` object paths, including the decimal printing of `%u` |
| `ObjectManager` | object_manager.dfy | `GDBusObjectManagerServer`: path → exported object, plus a reference count |
| `GpiodGlib` | gpiod_glib.dfy | bindings/glib/chip.c and bindings/glib/line.c: the `Chip` and `Line` classes, line enumeration and the enum mappings |
| `ChipController` | chip_controller.dfy | dbus/chip.c |
| `LineController` | line_controller.dfy | dbus/line.c |
| `RegistrySpec` | registry_spec.dfy | The daemon's table as a value: what each uevent does to it, what the root manager then exports, and lemmas about whole runs of events and about startup |
| `Daemon` | daemon.dfy | dbus/daemon.c: the `GpioDaemon` class over `map<string, ChipRecord>` |

How GObject state and libgpiod calls are represented:

- **Reference counts.** A GObject's count is a `refs` field. `Unref` runs the
  finalizer when the count reaches zero.
- **Fields set once.** `handle`, `owner`, `obj_path` and `manager` are
  `const` fields.
- **Closing a chip.** `gpiod_chip_close` is counted in `Chip.closeCount`.
  `Chip.Valid()` says the handle is closed once, exactly when the count is
  zero.
- **libgpiod and udev calls.** Every call reads the `Machine` value it is
  given. A udev uevent is an action string plus a device name and whether the
  device has a device file.
- **Failed assertions.** A `g_assert_true` that fails returns `Aborted`. The
  process ends there, so no contract says anything about the state after
  `Aborted`.

Each daemon method that handles an event is proved against the
`RegistrySpec` function for the same C function: `AddChip`, `RemoveChip`,
`OnUevent`, `HandleChipDev`, `Replay` or `Enumerate`. The methods that free
records (`ChipDataFree`, `FreeRecords`, `DestroyTable`, `Finalize`) are
proved against `Released` and the root manager's exports and count instead.
`Valid()` ties the object state to `RegistrySpec` in two ways:

- the root manager exports exactly `Published(Registry())`;
- every record holds one reference on its chip controller, on its per-chip
  manager and on its open chip, and its per-chip manager exports nothing.

Two things the code does that are easy to miss:

- **Lines are never exported.** `gpiodbus_daemon_export_chip_object`
  fetches all lines only to check that they resolve, then frees them again
  (dbus/daemon.c:112-135). It exports the chip object and nothing else, the
  record's line list is never filled in, and the per-chip manager exports
  nothing.
- **Finalizing a line controller leaks a chip reference.** The line
  finalizer takes a chip reference and never drops it (see Findings).

## Model

| member | source | states |
|---|---|---|
| GpiodGlib.LineAt | bindings/glib/chip.c:116-131 | The lookup succeeds exactly when the offset is below num_lines and libgpiod resolves it. The handle then carries that offset and that line's properties. Otherwise the error names the offset. |
| GpiodGlib.LinesBelow | bindings/glib/chip.c:147-156 | A successful walk over the first n offsets yields exactly n line handles. |
| GpiodGlib.LinesBelowSuccess | bindings/glib/chip.c:147-156 | The walk over offsets below n succeeds if and only if every lookup below n succeeds. Its i-th handle is then the one looked up at offset i. |
| GpiodGlib.LinesBelowFailure | bindings/glib/chip.c:148-153 | Offsets 0 .. j-1 resolve and offset j does not. Then every walk past j fails with offset j's lookup error and returns no list. |
| GpiodGlib.AllLinesAllOrNothing | bindings/glib/chip.c:136-159 | Either all num_lines lines come back, the i-th for offset i, or the lookup error of the lowest offset that fails. Success happens exactly when every offset resolves. |
| GpiodGlib.AllLines | bindings/glib/chip.c:136-159 | A success has one handle per line. A failure is the lookup error of an offset below num_lines that does not resolve. |
| GpiodGlib.Chip.GetAllLines | bindings/glib/chip.c:136-159 | Succeeds exactly when AllLines does. On success the lines wrap those handles in order, are new, distinct, held once and owned by this chip, and the chip gains one reference per line. On failure it returns that error, the partial list is released and the chip's count is unchanged. |
| GpiodGlib.Chip.ReleaseLines | bindings/glib/chip.c:151 | `g_list_free_full(lines, g_object_unref)`: each line dies and gives back its reference to the chip. |
| GpiodGlib.Chip.GetLine | bindings/glib/chip.c:116-134 | Fails with the lookup error exactly when the offset does not resolve, and the chip's count is then unchanged. Otherwise it returns a new line wrapping the handle at that offset, owned by this chip, which gains one reference. |
| GpiodGlib.Chip.New | bindings/glib/chip.c:53-68 | Fails with an open error exactly when the open lookup fails. Otherwise it returns a new open chip wrapping the machine's handle for that name, with one reference. |
| GpiodGlib.Chip.FromHandle | bindings/glib/chip.c:43-51 | The new chip wraps the handle, has one reference and is not closed. |
| GpiodGlib.Chip.ListGet | bindings/glib/chip.c:91-114 | Fails with the iterator error exactly when the iterator cannot be created. Otherwise it returns one new, distinct, open chip per handle the iterator yields, in iteration order. |
| GpiodGlib.Chip.Unref | bindings/glib/chip.c:29-34 | The count drops by one. The handle is closed exactly when the count reaches zero, and only once. |
| GpiodGlib.Chip.Finalize | bindings/glib/chip.c:29-34 | Closes the handle of a dead chip exactly once. |
| GpiodGlib.Line.constructor | bindings/glib/line.c:42-53 | The line stores the handle and the owner, has one reference, and the owner gains one reference. |
| GpiodGlib.Line.GetChip | bindings/glib/line.c:131-137 | Returns the stored owner, which gains one reference. |
| GpiodGlib.Line.Unref | bindings/glib/line.c:28-33 | The count drops by one. The owner loses one reference exactly when the line dies. |
| GpiodGlib.Line.Finalize | bindings/glib/line.c:28-33 | The owner loses one reference. |
| GpiodGlib.Line.Direction | bindings/glib/line.c:76-91 | The gpiod-glib direction whose libgpiod code is the line's direction. It is the unreachable case exactly when the code is neither the input nor the output code. |
| GpiodGlib.Line.ActiveState | bindings/glib/line.c:93-108 | The gpiod-glib active state whose libgpiod code is the line's active state. It is the unreachable case exactly when the code is neither the high nor the low code. |
| GpiodGlib.MapDirection | bindings/glib/line.c:76-91 | INPUT if and only if the code is libgpiod's input code, and OUTPUT if and only if it is the output code. Any other code is the unreachable case (None). |
| GpiodGlib.MapActiveState | bindings/glib/line.c:93-108 | ACTIVE_HIGH if and only if the code is libgpiod's high code, and ACTIVE_LOW if and only if it is the low code. Any other code is the unreachable case. |
| GpiodGlib.MappingsRoundTrip | bindings/glib/gpiod-glib.h:53-63 | Both switches are bijections between the two libgpiod codes and the two enum members, whose values (1 and 2) are distinct. |
| ObjectPaths.ObjectPath | dbus/chip.c:60-61 | `"%s/%s"`: the base, then a slash, then the name, and nothing else. |
| ObjectPaths.ChildOfObjectPath | dbus/chip.c:60-61 | `"%s/%s"` of a base and a name lies directly under the base, and the rest of the path after the base and a slash is the name. |
| ObjectPaths.ObjectPathInjective | dbus/chip.c:60-61 | Under one base, distinct names give distinct chip paths. |
| ObjectPaths.Decimal | dbus/line.c:63-65 | `%u` prints a non-empty string of decimal digits with no leading zero. |
| ObjectPaths.DecimalRoundTrip | dbus/line.c:63-65 | Reading back the digits `%u` prints gives the number printed. |
| ObjectPaths.DecimalInjective | dbus/line.c:63-65 | Distinct offsets print differently. |
| ObjectPaths.LinePath | dbus/line.c:63-65 | `"%s/%s/%u"` extends its chip's `"%s/%s"` path by a slash and at least one more character. |
| ObjectPaths.LinePathUnderChipPath | dbus/line.c:63-65 | A line's path is its chip's path, a slash and the printed offset, and the offset is read back from the last component. |
| ObjectPaths.LinePathInjective | dbus/line.c:63-65 | Two lines of one chip share a path only if their offsets are equal. |
| ChipController.ChipProperties | dbus/chip.c:68-70 | The exported Chip object's Name, Label and NumLines are the chip's name, label and line count. |
| ChipController.ChipCtrl.constructor | dbus/chip.c:42-80 | Takes over the chip. objPath is the manager's path, a slash and the chip name. Exactly one object is exported, at objPath, carrying the chip's name, label and line count. The manager gains one reference. |
| ChipController.ChipCtrl.Finalize | dbus/chip.c:82-94 | Unexports exactly objPath from the same manager, which loses one reference. It drops the chip it took over, closing it when that was the last reference. |
| ChipController.ChipCtrl.Unref | dbus/chip.c:82-94 | The last reference runs the finalizer. Any other unref changes neither the manager nor the chip. |
| ChipController.ChipCtrlLifecycle | dbus/chip.c:42-94 | Building and then releasing a controller leaves the manager's exported objects and count as they were, and closes a chip held once. |
| LineController.LineProperties | dbus/line.c:73-75 | The exported Line object's Offset, Name and Consumer are the line's offset, name and consumer. |
| LineController.LineCtrl.constructor | dbus/line.c:42-85 | objPath is `"%s/%s/%u"` of the manager path, the chip name and the offset. Exactly one object is exported, at objPath, carrying the line's offset, name and consumer. The manager gains one reference. The chip's count is unchanged, because the `g_gpiod_line_get_chip` reference is dropped again. |
| LineController.LineCtrl.Finalize | dbus/line.c:87-103 | As written. It unexports exactly objPath from the same manager, which loses one reference, and it drops the line. The chip ends with one more reference than before, less the one the line held if the line died. |
| LineController.LineCtrl.Unref | dbus/line.c:87-103 | The last reference runs the finalizer as written. Any other unref changes nothing else. |
| LineController.LineCtrlLifecycle | dbus/line.c:42-103 | As written, building and releasing a controller over the only reference to a line restores the manager and kills the line. The chip's count stays as it was although no line holds it, so a chip the line alone held is never closed. |
| LineController.LineCtrl.FinalizeBalanced | dbus/line.c:87-103 | The finalizer with the `g_gpiod_line_get_chip` reference dropped again. The chip loses exactly the reference the dead line held. |
| LineController.LineCtrl.UnrefBalanced | dbus/line.c:87-103 | The last reference runs the balanced finalizer. |
| LineController.LineCtrlLifecycleBalanced | dbus/line.c:42-103 | With the balanced finalizer, the chip ends with one reference fewer, and a chip the line alone held is closed. |
| RegistrySpec.AddChip | dbus/daemon.c:94-140 | Aborts exactly when the chip opens, all its lines resolve and the name is already registered. Otherwise it adds exactly that name, only when the chip onboards, with the chip's handle, and keeps every other entry. |
| RegistrySpec.RemoveChip | dbus/daemon.c:142-150 | Aborts exactly when the name is absent. Otherwise it removes exactly that key and keeps every other entry. |
| RegistrySpec.OnUevent | dbus/daemon.c:163-182 | A device without a device file changes nothing. "add" is AddChip and "remove" is RemoveChip. Any other action changes nothing. |
| RegistrySpec.HandleChipDev | dbus/daemon.c:184-196 | A device without a device file changes nothing. Any other device is AddChip. |
| RegistrySpec.PublishedContents | dbus/chip.c:57-73 | The root manager exports each registered chip at "/org/gpiod/<name>" with that chip's properties, and every exported path belongs to a registered name. |
| RegistrySpec.PublishedAt | dbus/chip.c:57-73 | A path is exported if and only if it is the path of a registered name. |
| RegistrySpec.PublishedInsert | dbus/chip.c:72-73 | Registering a new name exports exactly one more object, at its path. |
| RegistrySpec.PublishedRemove | dbus/chip.c:89-90 | Dropping a name unexports exactly the object at its path. |
| RegistrySpec.PublishesExactly | dbus/chip.c:57-73 | The pointwise invariant that `Valid` keeps holds if and only if the exported map equals `Published` of the registry. |
| RegistrySpec.PublishesInsert | dbus/chip.c:72-73 | The invariant survives exporting a new chip together with registering its name. |
| RegistrySpec.PublishesRemove | dbus/chip.c:89-90 | The invariant survives unexporting a chip together with dropping its name. |
| RegistrySpec.TwinUeventsActOnce | dbus/daemon.c:152-161 | Of the two devices udev reports per action, only the one with a device file is a gpiochip device. The pair, in either order, acts as that device's uevent alone, both as uevents and in the startup walk. |
| RegistrySpec.Replay | dbus/daemon.c:163-182 | Uevents delivered in order, each on the machine of its moment. A name ends up registered only if it was registered before with the same chip, or if some add of the run onboarded it, with the chip opened then. |
| RegistrySpec.Enumerate | dbus/daemon.c:216-217 | The startup walk only adds. Names registered before keep their chips. Every new name is a listed device with a device file that onboards, registered with the machine's chip. |
| RegistrySpec.ReplayAbortIsFinal | dbus/daemon.c:137-149 | Once an insertion or removal assertion fails, the whole run of uevents ends aborted. |
| RegistrySpec.EnumerateAbortIsFinal | dbus/daemon.c:216-217 | Once an assertion fails during the startup walk, the whole enumeration ends aborted. |
| RegistrySpec.PendingStep | dbus/daemon.c:176-179 | An add of a character device that onboards on the machine of its moment makes its name pending. A remove makes it no longer pending. Any other uevent, including an add whose chip fails to open or whose lines fail to resolve, changes nothing. |
| RegistrySpec.KeepsProtocolSnoc | dbus/daemon.c:137-149 | A run keeps the protocol exactly when the run before its last uevent does and that uevent is allowed after it. |
| RegistrySpec.ReplayRegistersPending | dbus/daemon.c:163-182 | Replayed from an empty table, each uevent on the machine of its moment, a run aborts exactly when some add onboards a name already pending or some remove names one that is not. A run that does not abort leaves exactly the pending names registered. Each has the chip that its unmatched add opened, on the machine as it was then. Adds that fail to onboard are allowed anywhere. |
| RegistrySpec.EnumerateRegistersOnboarded | dbus/daemon.c:184-217 | Startup over distinct devices never aborts. It registers exactly the listed devices that have a device file, open, and have lines that all resolve. |
| RegistrySpec.EnumerationOrderIrrelevant | dbus/daemon.c:216-217 | The order in which udev lists the devices does not change the registry startup builds. |
| Daemon.RecordsApart | dbus/daemon.c:128-130 | Records under distinct names share no object: each record's chip carries its name, and so does its manager's path. |
| Daemon.ChipDataFree | dbus/daemon.c:84-92 | Frees the chip controller first, which unexports the chip from the root manager, drops its root reference and closes the chip. Then it frees the per-chip manager. Both die. Every object the caller names apart from the record and the root manager is unchanged. |
| Daemon.BuildChipRecord | dbus/daemon.c:105-135 | Returns nothing, with the root manager untouched, exactly when the chip fails to open or a line lookup fails. Otherwise it returns a new record valid under the name, whose chip is the machine's handle. The root manager then exports that chip at "/org/gpiod/<name>" and gains one reference. The new per-chip manager exports nothing. |
| Daemon.FreeNext | dbus/daemon.c:205-206 | One run of the table's destroy notifier. Exactly one key moves from the records still live to the released ones, and the root manager loses its export and reference. |
| Daemon.FreeingDone | dbus/daemon.c:66 | Once the destroy notifier has run on every record, all records are released, and the root manager exports nothing and holds only the daemon's reference. |
| Daemon.FreeRecords | dbus/daemon.c:66 | Destroying a whole table frees every record, in any order. The root manager ends with nothing exported and one reference. |
| Daemon.GpioDaemon.constructor | dbus/daemon.c:50-53 | A new daemon is not listening, has no root manager and an empty table. |
| Daemon.GpioDaemon.Register | dbus/daemon.c:137-139 | Inserting a valid record under a new name adds exactly that name, with its chip, to the registry and keeps the invariant. |
| Daemon.GpioDaemon.ExportChipObject | dbus/daemon.c:94-140 | Keeps running exactly when `AddChip` of the registry does not abort. The new registry is `AddChip`'s result, and the root manager exports exactly its `Published` objects. |
| Daemon.GpioDaemon.Detach | dbus/daemon.c:147 | The hash-table removal before the destroy notifier: exactly that key leaves the table, and the record is still valid and no longer shares an object with the table. |
| Daemon.GpioDaemon.Unregister | dbus/daemon.c:147 | Removes exactly that key and releases its record, keeping the invariant. |
| Daemon.GpioDaemon.RemoveChipObject | dbus/daemon.c:142-150 | Keeps running exactly when `RemoveChip` of the registry does not abort. The new registry is its result. The removed record is released through the destroy notifier: controller and per-chip manager dead, chip closed once. |
| Daemon.GpioDaemon.HandleChipDev | dbus/daemon.c:184-196 | Keeps running exactly when `HandleChipDev` of the registry does not abort. The new registry is its result. |
| Daemon.GpioDaemon.OnUevent | dbus/daemon.c:163-182 | Keeps running exactly when `OnUevent` of the registry does not abort. The new registry is its result, so a device without a device file and an unknown action change nothing. |
| Daemon.GpioDaemon.DeliverUevents | dbus/daemon.c:210-211 | The uevents the subscription delivers, one at a time, each read against the machine as it is when it arrives. The run keeps going exactly when `Replay` does not abort, and the registry is then `Replay`'s result. |
| Daemon.GpioDaemon.Listen | dbus/daemon.c:198-224 | Creates the root manager at "/org/gpiod" and walks the startup list through the add path. It keeps running exactly when `Enumerate` does not abort, and leaves the registry at `Enumerate`'s result. Listening is set once the walk has completed. |
| Daemon.GpioDaemon.DestroyTable | dbus/daemon.c:66 | `g_hash_table_unref` empties the table and releases every record it held. The invariant still holds. |
| Daemon.GpioDaemon.Finalize | dbus/daemon.c:55-75 | A daemon that never listened is left untouched. A listening daemon releases every record, and the root manager ends with nothing exported and no reference. |

## Left out

- The D-Bus connection is not modelled: `g_dbus_object_manager_server_set_connection` (dbus/daemon.c:132-133, 220-221) and `g_dbus_connection_close_sync` with its warning (dbus/daemon.c:70-74). Bus I/O has no effect on the table or the exported objects.
- The udev client is not modelled: `g_udev_client_new`, `g_signal_connect` and the `g_assert_true` on its result, and the unrefs of the client and of each queried device (dbus/daemon.c:67, 195, 208-212, 218). Uevents and the startup list are inputs instead.
- `Machine.Wf()`, which the add path's methods require: the chip `gpiod_chip_open_lookup` opens under device name d reports the name d. The C keys the table by the udev device name. It builds the object path from `g_gpiod_chip_name` (dbus/daemon.c:128-129, dbus/chip.c:60-61). The model uses the device name for both, and this assumption says that the two agree. That holds for the daemon's devices: udev names the character device after the kernel's `gpiochipN` chip, and libgpiod reports that same name.
- `IsGpiochipDevice` has no contract of its own: it only tests for a device file. Its meaning is stated by `TwinUeventsActOnce`.
- Listen: the startup walk reads one `Machine` for every listed device, so hot-plug during the walk itself is not modelled. Uevents delivered later each carry their own machine.
- Logging (`g_debug`, `g_warning`) is left out because it has no effect on state.
- `g_gpiod_chip_name`, `label` and `num_lines` are not methods of their own. They are read as fields of the `ChipHandle` value.
- `g_gpiod_line_is_used`, `is_open_drain` and `is_open_source` are not modelled, because nothing in the core calls them.
- The line accessors `offset`, `name` and `consumer` are functions without contracts of their own. They return the handle's values and are used by `LineController.LineProperties`.
- libgpiod's numeric values for direction and active state are not part of this model. Only the fact that the two codes of each pair differ is used.
- BuildChipRecord: leaves out the NULL branch after `gpiodbus_chipctrl_new` (dbus/daemon.c:123-124). The constructor always returns an object, so that early return, and the leak it causes, cannot happen.
- ChipDataFree: leaves out `g_list_free_full(chip_data->lines, ...)` (dbus/daemon.c:88). No path of the daemon ever fills the list, so the record has no line list.
- ExportChipObject: says nothing about the state after a duplicate insertion. There `g_hash_table_insert` has already replaced the old record, and then `g_assert_true` ends the process.
- RemoveChipObject: says nothing about the state after the failed assertion, because the process ends there.
- OnUevent: says nothing about the state after an abort, for the same reason.
- HandleChipDev: the same.
- DeliverUevents: the same. It also stands for GLib's main loop, which is not part of this repository: uevents arrive one at a time and in order.
- Listen: says nothing about the state after an abort during the startup walk.
- Finalize: the model's `Valid()` only lets it run once. The C finalizer has no guard against a second run, but GObject never finalizes an object twice.
- DestroyTable: frees the records in an arbitrary order, because GLib's hash table has no defined order. It empties the table before the records are freed. No contract can observe the order.

## Findings

| source | as written | input that shows it | evidently intended | confidence | as-written member | corrected member |
|---|---|---|---|---|---|---|
| dbus/line.c:93 | `gpiodbus_linectrl_finalize` calls `g_gpiod_line_get_chip`, which takes a chip reference, and never releases it. | A line whose chip has one reference, held by the line, is wrapped in a line controller, and then the controller is released. The line dies, but the chip keeps one reference and is never closed. | The finalizer drops the reference it took, as the constructor does (dbus/line.c:66). The chip is then closed when the line held its last reference. | not executed | LineController.LineCtrlLifecycle | LineController.LineCtrlLifecycleBalanced |
