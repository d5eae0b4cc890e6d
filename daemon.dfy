/**
 * GpioDBusDaemon: the registry of chips, keyed by udev device name, each
 * with its chip controller exported under the root object manager
 * "/org/gpiod". Uevents and the startup enumeration add and remove records;
 * the methods are proved against the value-level functions of RegistrySpec.
 */
module Daemon {
  import opened Wrappers
  import opened Hardware
  import opened GpiodGlib
  import opened ObjectManager
  import opened ObjectPaths
  import opened ChipController
  import opened RegistrySpec

  /** Whether the process is still running; Aborted is a failed g_assert_true. */
  datatype Status = Running | Aborted

  /** GpioDbusDaemonChipData: the chip controller and the per-chip object
      manager of one registered chip. Its line list is never filled in, so
      it is not part of the record. */
  datatype ChipRecord = ChipRecord(chipCtrl: ChipCtrl, manager: ObjectManagerServer)

  /** The objects a record owns. */
  ghost function Footprint(r: ChipRecord): set<object>
  {
    {r.chipCtrl, r.chipCtrl.chip, r.manager}
  }

  /** The objects all records of a table own. */
  ghost function Objects(recs: map<string, ChipRecord>): set<object>
  {
    set k, o | k in recs && o in Footprint(recs[k]) :: o
  }

  /** The record carries its name in what never changes: its chip's name
      and the last element of its manager's path. */
  ghost predicate Named(devname: string, r: ChipRecord)
  {
    && r.chipCtrl.chip.handle.name == devname
    && |r.manager.objectPath| > |RootPath| && ChildName(RootPath, r.manager.objectPath) == devname
  }

  /** The record registered under devname, exported under root: one
      reference each on its controller, its chip and its manager, the chip
      open, both paths "/org/gpiod/<devname>", and nothing exported under the
      per-chip manager, since no line controller is ever built. */
  ghost predicate RecordValid(root: ObjectManagerServer, devname: string, r: ChipRecord)
    reads Footprint(r)
  {
    && r.chipCtrl.manager == root && r.manager != root
    && Named(devname, r)
    && r.chipCtrl.objPath == ObjectPath(RootPath, devname)
    && r.manager.objectPath == ObjectPath(RootPath, devname)
    && r.chipCtrl.refs == 1 && r.manager.refs == 1 && r.manager.exported == map[]
    && r.chipCtrl.chip.Valid() && r.chipCtrl.chip.refs == 1
  }

  /** Every record of the table is valid under its own name. */
  ghost predicate RecordsLive(root: ObjectManagerServer, recs: map<string, ChipRecord>)
    reads Objects(recs)
  {
    forall k {:trigger RecordValid(root, k, recs[k])} :: k in recs ==> RecordValid(root, k, recs[k])
  }

  /** A record whose controller, chip and manager are all dead, the chip closed once. */
  ghost predicate Released(r: ChipRecord)
    reads Footprint(r)
  {
    r.chipCtrl.refs == 0 && r.manager.refs == 0 && r.chipCtrl.chip.refs == 0 && r.chipCtrl.chip.closeCount == 1
  }

  /** Each name with the handle of the chip its record holds. */
  ghost function RegistryOf(recs: map<string, ChipRecord>): Registry
  {
    map k | k in recs :: recs[k].chipCtrl.chip.handle
  }

  lemma RegistryOfInsert(recs: map<string, ChipRecord>, d: string, r: ChipRecord)
    ensures RegistryOf(recs[d := r]) == RegistryOf(recs)[d := r.chipCtrl.chip.handle]
  {
  }

  lemma RegistryOfRemove(recs: map<string, ChipRecord>, d: string)
    ensures RegistryOf(recs - {d}) == RegistryOf(recs) - {d}
  {
  }

  /** Records under distinct names share no object: their chips carry
      their names and their managers' paths end in them. */
  lemma RecordsApart(a: string, ra: ChipRecord, b: string, rb: ChipRecord)
    requires a != b && Named(a, ra) && Named(b, rb)
    ensures Footprint(ra) !! Footprint(rb)
  {
  }

  /** Adding a valid record keeps the table live. */
  lemma RecordsLiveInsert(root: ObjectManagerServer, recs: map<string, ChipRecord>, d: string, r: ChipRecord)
    requires RecordsLive(root, recs) && RecordValid(root, d, r)
    ensures Objects(recs[d := r]) <= Objects(recs) + Footprint(r)
    ensures RecordsLive(root, recs[d := r])
  {
    ObjectsInsert(recs, d, r);
  }

  /** Taking a record out of a live table leaves the rest live, and the
      rest shares no object with it. */
  lemma RecordsLiveRemove(root: ObjectManagerServer, recs: map<string, ChipRecord>, d: string)
    requires d in recs && RecordsLive(root, recs)
    ensures Objects(recs - {d}) <= Objects(recs)
    ensures Objects(recs - {d}) !! Footprint(recs[d])
    ensures RecordsLive(root, recs - {d})
  {
    forall o | o in Objects(recs - {d}) ensures o in Objects(recs) && o !in Footprint(recs[d]) {
      var k :| k in recs - {d} && o in Footprint((recs - {d})[k]);
      assert RecordValid(root, k, recs[k]) && RecordValid(root, d, recs[d]);
      RecordsApart(k, recs[k], d, recs[d]);
    }
  }

  /** gpiodbus_daemon_chip_data_free: the chip controller, which unexports
      the chip and drops the chip, then the per-chip manager. */
  method ChipDataFree(r: ChipRecord, ghost others: set<object>)
    requires r.chipCtrl.refs == 1 && r.chipCtrl.chip.Valid() && r.chipCtrl.chip.refs == 1
    requires r.manager.refs == 1 && r.manager != r.chipCtrl.manager && r.chipCtrl.manager.refs > 0
    requires others !! Footprint(r) && r.chipCtrl.manager !in others
    modifies Footprint(r), r.chipCtrl.manager
    ensures Released(r) && unchanged(others)
    ensures r.chipCtrl.manager.exported == old(r.chipCtrl.manager.exported) - {r.chipCtrl.objPath}
    ensures r.chipCtrl.manager.refs == old(r.chipCtrl.manager.refs) - 1
  {
    r.chipCtrl.Unref();
    r.manager.Unref();
  }

  lemma RemoveCard(recs: map<string, ChipRecord>, d: string)
    requires d in recs
    ensures |recs - {d}| == |recs| - 1
  {
    assert (recs - {d}).Keys == recs.Keys - {d};
  }

  lemma ObjectsInsert(recs: map<string, ChipRecord>, d: string, r: ChipRecord)
    ensures Objects(recs[d := r]) <= Objects(recs) + Footprint(r)
  {
    forall o | o in Objects(recs[d := r]) ensures o in Objects(recs) + Footprint(r) {
      var k :| k in recs[d := r] && o in Footprint(recs[d := r][k]);
      if k != d {
        assert o in Footprint(recs[k]);
      }
    }
  }

  /** Every record of the map is released. */
  ghost predicate AllReleased(recs: map<string, ChipRecord>)
    reads Objects(recs)
  {
    forall k {:trigger Released(recs[k])} :: k in recs ==> Released(recs[k])
  }

  lemma AllReleasedInsert(recs: map<string, ChipRecord>, d: string, r: ChipRecord)
    requires AllReleased(recs) && Released(r)
    ensures AllReleased(recs[d := r])
  {
    var m := recs[d := r];
    forall k | k in m ensures Released(m[k]) {
      if k != d {
        assert Released(recs[k]);
      }
    }
  }

  /** A record shares no object with records filed under other names. */
  lemma ObjectsApart(recs: map<string, ChipRecord>, d: string, r: ChipRecord)
    requires d !in recs && Named(d, r)
    requires forall k :: k in recs ==> Named(k, recs[k])
    ensures Objects(recs) !! Footprint(r)
  {
    forall o | o in Objects(recs) ensures o !in Footprint(r) {
      var k :| k in recs && o in Footprint(recs[k]);
      RecordsApart(k, recs[k], d, r);
    }
  }

  /** rest and freed divide the records of recs between them. */
  ghost predicate Splits(recs: map<string, ChipRecord>, rest: map<string, ChipRecord>, freed: map<string, ChipRecord>)
  {
    && (forall k :: k in rest ==> k in recs && rest[k] == recs[k])
    && (forall k :: k in freed ==> k in recs && k !in rest && freed[k] == recs[k])
    && (forall k :: k in recs ==> k in rest || k in freed)
    && (forall k :: k in recs ==> Named(k, recs[k]))
  }

  /** Moving one record from rest to freed keeps the division. */
  lemma SplitsStep(recs: map<string, ChipRecord>, rest: map<string, ChipRecord>, freed: map<string, ChipRecord>, d: string)
    requires Splits(recs, rest, freed) && d in rest
    ensures d !in freed && Named(d, rest[d])
    ensures forall k :: k in freed ==> Named(k, freed[k])
    ensures Splits(recs, rest - {d}, freed[d := rest[d]])
  {
  }

  /** Part way through freeing the table recs: the records still to free
      are live, the others are released, and the root manager holds a
      reference and an exported chip for each record still live. */
  ghost predicate Freeing(recs: map<string, ChipRecord>, root: ObjectManagerServer,
                          rest: map<string, ChipRecord>, freed: map<string, ChipRecord>)
    reads Objects(rest), Objects(freed), root
  {
    && Splits(recs, rest, freed)
    && root !in Objects(rest) && root !in Objects(freed)
    && RecordsLive(root, rest) && AllReleased(freed)
    && root.refs == 1 + |rest| && Publishes(root.exported, RegistryOf(rest))
  }

  /** Once nothing is left to free, every record is released and the root
      manager exports nothing. */
  lemma FreeingDone(recs: map<string, ChipRecord>, root: ObjectManagerServer,
                    rest: map<string, ChipRecord>, freed: map<string, ChipRecord>)
    requires Freeing(recs, root, rest, freed) && rest == map[]
    ensures root.refs == 1 && root.exported == map[]
    ensures forall k :: k in recs ==> Released(recs[k])
  {
    assert RegistryOf(rest) == map[];
    PublishesExactly(root.exported, map[]);
    forall k | k in recs ensures Released(recs[k]) {
      assert k in freed;
      assert Released(freed[k]);
    }
  }

  /** gpiodbus_daemon_chip_data_free on one record still in the table. */
  method FreeNext(recs: map<string, ChipRecord>, root: ObjectManagerServer,
                  rest: map<string, ChipRecord>, ghost freed: map<string, ChipRecord>)
    returns (rest': map<string, ChipRecord>, ghost freed': map<string, ChipRecord>)
    requires Freeing(recs, root, rest, freed) && rest != map[]
    modifies Objects(recs), root
    ensures Freeing(recs, root, rest', freed') && |rest'| == |rest| - 1
    ensures exists d :: d in rest && rest' == rest - {d} && freed' == freed[d := rest[d]]
  {
    var d :| d in rest;
    var r := rest[d];
    assert RecordValid(root, d, r);
    assert Footprint(r) <= Objects(recs);
    SplitsStep(recs, rest, freed, d);
    ObjectsApart(freed, d, r);
    ObjectsInsert(freed, d, r);
    PublishesRemove(root.exported, RegistryOf(rest), d);
    RegistryOfRemove(rest, d);
    RecordsLiveRemove(root, rest, d);
    RemoveCard(rest, d);
    ChipDataFree(r, Objects(rest - {d}) + Objects(freed));
    AllReleasedInsert(freed, d, r);
    freed' := freed[d := r];
    rest' := rest - {d};
  }

  /** The destroy notifier run over a whole table: every record is freed
      with gpiodbus_daemon_chip_data_free, in no particular order, which
      unexports every chip from the root manager and drops the root
      reference each chip controller held. */
  method FreeRecords(recs: map<string, ChipRecord>, root: ObjectManagerServer)
    requires RecordsLive(root, recs) && root !in Objects(recs)
    requires root.refs == 1 + |recs| && Publishes(root.exported, RegistryOf(recs))
    modifies Objects(recs), root
    ensures root.refs == 1 && root.exported == map[]
    ensures forall k :: k in recs ==> Released(recs[k])
  {
    var rest := recs;
    ghost var freed: map<string, ChipRecord> := map[];
    forall k | k in recs ensures Named(k, recs[k]) {
      assert RecordValid(root, k, recs[k]);
    }
    while rest != map[]
      invariant Freeing(recs, root, rest, freed)
      decreases |rest|
    {
      rest, freed := FreeNext(recs, root, rest, freed);
    }
    FreeingDone(recs, root, rest, freed);
  }

  /** The part of gpiodbus_daemon_export_chip_object before the insertion:
      open the chip, take all its lines, build the chip controller under the
      root manager and the per-chip manager, then drop the lines again. None
      is an early return after a failed open or line lookup; nothing is then
      exported and the chip is closed again. */
  method BuildChipRecord(m: Machine, devname: string, root: ObjectManagerServer) returns (r: Option<ChipRecord>)
    requires m.Wf() && root.objectPath == RootPath
    modifies root
    ensures r.None? <==> !Onboards(m, devname)
    ensures r.None? ==> unchanged(root)
    ensures r.Some? ==>
      && fresh(Footprint(r.value)) && RecordValid(root, devname, r.value)
      && r.value.chipCtrl.chip.handle == m.chips[devname]
      && root.exported == old(root.exported)[ObjectPath(RootPath, devname) := ChipProperties(m.chips[devname])]
      && root.refs == old(root.refs) + 1
  {
    var chipResult := Chip.New(m, devname);
    if chipResult.Failure? {
      return None;      // unable to open the GPIO chip device
    }
    var chip := chipResult.value;
    var lines := chip.GetAllLines();
    if lines.Failure? {
      chip.Unref();
      return None;      // unable to retrieve GPIO lines
    }
    var chipCtrl := new ChipCtrl(chip, root);
    var objPath := ObjectPath(root.objectPath, chip.handle.name);
    var chipManager := new ObjectManagerServer(objPath);
    chip.ReleaseLines(lines.value);
    ChildOfObjectPath(RootPath, devname);
    return Some(ChipRecord(chipCtrl, chipManager));
  }

  class GpioDaemon {
    var listening: bool
    var manager: ObjectManagerServer?
    var chips: map<string, ChipRecord>
    ghost var Repr: set<object>

    /** The registry as a value. */
    ghost function Registry(): Registry
      reads this
    {
      RegistryOf(chips)
    }

    /** The records are live, owned by the daemon, and none is the root manager. */
    ghost predicate RecordsHeld()
      reads this, Repr
    {
      && this in Repr && manager != null && manager in Repr
      && Objects(chips) <= Repr && manager !in Objects(chips) && this !in Objects(chips)
      && RecordsLive(manager, chips)
    }

    /** The root manager holds the daemon's reference and one per chip
        controller, and exports exactly what the registry publishes. */
    ghost predicate RootValid()
      reads this, manager
    {
      && manager != null
      && manager.objectPath == RootPath
      && manager.refs == 1 + |chips|
      && Publishes(manager.exported, Registry())
    }

    ghost predicate Valid()
      reads this, Repr
    {
      && this in Repr
      && (manager == null ==> chips == map[] && !listening)
      && (manager != null ==> RecordsHeld() && RootValid())
    }

    /** gpiodbus_daemon_new */
    constructor ()
      ensures Valid() && fresh(Repr) && !listening && manager == null && chips == map[]
    {
      listening := false;
      manager := null;
      chips := map[];
      Repr := {this};
    }

    /** g_hash_table_insert of a new record under a new name. */
    method Register(m: Machine, devname: string, record: ChipRecord)
      requires RecordsHeld() && devname !in chips && devname in m.chips
      requires RecordValid(manager, devname, record) && record.chipCtrl.chip.handle == m.chips[devname]
      requires Footprint(record) !! Repr
      requires manager.objectPath == RootPath && manager.refs == 2 + |chips|
      requires Publishes(manager.exported, Registry()[devname := m.chips[devname]])
      modifies this
      ensures Valid() && manager != null && Registry() == old(Registry())[devname := m.chips[devname]]
      ensures manager == old(manager) && listening == old(listening) && Repr == old(Repr) + Footprint(record)
    {
      RegistryOfInsert(chips, devname, record);
      RecordsLiveInsert(manager, chips, devname, record);
      chips := chips[devname := record];
      Repr := Repr + Footprint(record);
    }

    /** gpiodbus_daemon_export_chip_object */
    method ExportChipObject(m: Machine, devname: string) returns (status: Status)
      requires Valid() && manager != null && m.Wf()
      modifies Repr
      ensures status == Running <==> AddChip(m, old(Registry()), devname).Some?
      ensures status == Running ==>
        Valid() && Registry() == AddChip(m, old(Registry()), devname).value &&
        manager == old(manager) && listening == old(listening) && fresh(Repr - old(Repr))
    {
      ghost var exported := manager.exported;
      var built := BuildChipRecord(m, devname, manager);
      if built.None? {
        return Running;
      }
      if devname in chips {
        return Aborted;      // g_hash_table_insert found the name: g_assert_true fails
      }
      PublishesInsert(exported, Registry(), devname, m.chips[devname]);
      Register(m, devname, built.value);
      return Running;
    }

    /** g_hash_table_remove of a present name, up to the destroy notify:
        the record leaves the table and the root manager still exports it. */
    method Detach(devname: string) returns (record: ChipRecord)
      requires Valid() && devname in chips
      modifies this
      ensures record == old(chips)[devname] && chips == old(chips) - {devname}
      ensures Registry() == old(Registry()) - {devname}
      ensures manager == old(manager) && listening == old(listening) && Repr == old(Repr)
      ensures RecordsHeld() && RecordValid(manager, devname, record)
      ensures Objects(chips) !! Footprint(record) && this !in Footprint(record)
      ensures manager.objectPath == RootPath && manager.refs == 2 + |chips|
      ensures Publishes(manager.exported - {record.chipCtrl.objPath}, Registry())
    {
      record := chips[devname];
      assert RecordValid(manager, devname, record);
      assert this !in Footprint(record);
      PublishesRemove(manager.exported, Registry(), devname);
      RegistryOfRemove(chips, devname);
      RecordsLiveRemove(manager, chips, devname);
      chips := chips - {devname};
    }

    /** g_hash_table_remove of a present name: the record is destroyed with
        gpiodbus_daemon_chip_data_free. */
    method Unregister(devname: string)
      requires Valid() && devname in chips
      modifies this, manager, Footprint(chips[devname])
      ensures Valid() && Registry() == old(Registry()) - {devname} && Released(old(chips)[devname])
      ensures manager == old(manager) && listening == old(listening) && Repr == old(Repr)
      ensures chips == old(chips) - {devname}
    {
      var record := Detach(devname);
      ChipDataFree(record, {});
    }

    /** gpiodbus_daemon_remove_chip_object */
    method RemoveChipObject(devname: string) returns (status: Status)
      requires Valid()
      modifies Repr
      ensures status == Running <==> RemoveChip(old(Registry()), devname).Some?
      ensures status == Running ==>
        Valid() && Registry() == RemoveChip(old(Registry()), devname).value &&
        manager == old(manager) && listening == old(listening) && Repr == old(Repr)
    ensures status == Running ==> devname in old(chips) && Released(old(chips)[devname])
    {
      if devname !in chips {
        return Aborted;      // g_hash_table_remove found no such name: g_assert_true fails
      }
      Unregister(devname);
      return Running;
    }

    /** gpiodbus_daemon_handle_chip_dev: a device found by the startup query
        is exported when it is a character device. */
    method HandleChipDev(m: Machine, dev: Device) returns (status: Status)
      requires Valid() && manager != null && m.Wf()
      modifies Repr
      ensures status == Running <==> RegistrySpec.HandleChipDev(m, old(Registry()), dev).Some?
      ensures status == Running ==>
        Valid() && Registry() == RegistrySpec.HandleChipDev(m, old(Registry()), dev).value &&
        manager == old(manager) && listening == old(listening) && fresh(Repr - old(Repr))
    {
      if IsGpiochipDevice(dev) {
        status := ExportChipObject(m, dev.name);
      } else {
        status := Running;
      }
    }

    /** gpiodbus_daemon_on_uevent: "add" and "remove" of a character device
        export and remove its chip; every other uevent changes nothing. */
    method OnUevent(m: Machine, ev: Uevent) returns (status: Status)
      requires Valid() && manager != null && m.Wf()
      modifies Repr
      ensures status == Running <==> RegistrySpec.OnUevent(m, old(Registry()), ev).Some?
      ensures status == Running ==>
        Valid() && Registry() == RegistrySpec.OnUevent(m, old(Registry()), ev).value &&
        manager == old(manager) && listening == old(listening) && fresh(Repr - old(Repr))
    {
      if !IsGpiochipDevice(ev.device) {
        return Running;
      }
      if ev.action == "add" {
        status := ExportChipObject(m, ev.device.name);
      } else if ev.action == "remove" {
        status := RemoveChipObject(ev.device.name);
      } else {
        status := Running;      // unknown action: a warning only
      }
    }

    /** The GLib main loop delivering the udev client's "uevent" signals to
        gpiodbus_daemon_on_uevent one at a time, in order, each on the
        machine as it is when it arrives; an aborted delivery ends the process. */
    method DeliverUevents(run: seq<Delivery>) returns (status: Status)
      requires Valid() && manager != null
      requires forall i :: 0 <= i < |run| ==> run[i].m.Wf()
      modifies Repr
      ensures status == Running <==> Replay(old(Registry()), run).Some?
      ensures status == Running ==>
        Valid() && Registry() == Replay(old(Registry()), run).value &&
        manager == old(manager) && listening == old(listening) && fresh(Repr - old(Repr))
    {
      ghost var reg0 := Registry();
      var i := 0;
      while i < |run|
        invariant 0 <= i <= |run|
        invariant Valid() && manager == old(manager) && listening == old(listening)
        invariant Replay(reg0, run[..i]) == Some(Registry())
        invariant fresh(Repr - old(Repr))
      {
        assert run[..i + 1][..i] == run[..i];
        status := OnUevent(run[i].m, run[i].ev);
        if status == Aborted {
          ReplayAbortIsFinal(reg0, run, i + 1);
          return;
        }
        i := i + 1;
      }
      assert run[..i] == run;
      status := Running;
    }

    /** gpiodbus_daemon_listen: create the root manager at "/org/gpiod",
        export every chip the startup query returns, in its order, then
        start listening. */
    method Listen(m: Machine, devs: seq<Device>) returns (status: Status)
      requires Valid() && manager == null && m.Wf()
      modifies this
      ensures status == Running <==> Enumerate(m, map[], devs).Some?
      ensures status == Running ==>
        Valid() && listening && manager != null && manager.objectPath == RootPath &&
        Registry() == Enumerate(m, map[], devs).value && fresh(Repr - {this})
    {
      manager := new ObjectManagerServer(RootPath);
      chips := map[];
      Repr := {this, manager};
      assert Publishes(manager.exported, Registry()) by {
        PublishesExactly(manager.exported, map[]);
      }
      var i := 0;
      while i < |devs|
        invariant 0 <= i <= |devs|
        invariant Valid() && manager != null && !listening
        invariant Enumerate(m, map[], devs[..i]) == Some(Registry())
        invariant this in Repr && fresh(Repr - {this})
      {
        assert devs[..i + 1][..i] == devs[..i];
        status := HandleChipDev(m, devs[i]);
        if status == Aborted {
          EnumerateAbortIsFinal(m, map[], devs, i + 1);
          return;
        }
        i := i + 1;
      }
      assert devs[..i] == devs;
      listening := true;
      status := Running;
    }

    /** g_hash_table_unref of the last reference to the table: the table is
        emptied and every record it held is freed. */
    method DestroyTable()
      requires Valid() && manager != null
      modifies Repr
      ensures Valid() && chips == map[] && manager == old(manager) && listening == old(listening) && Repr == old(Repr)
      ensures forall k :: k in old(chips) ==> Released(old(chips)[k])
    {
      var table := chips;
      chips := map[];
      FreeRecords(table, manager);
    }

    /** gpiodbus_daemon_finalize: a listening daemon destroys its table, so
        every record is freed, then drops the root manager; a daemon that
        never listened does nothing. */
    method Finalize()
      requires Valid()
      modifies Repr
      ensures old(listening) ==>
        manager == old(manager) && manager.refs == 0 && manager.exported == map[] &&
        forall k :: k in old(chips) ==> Released(old(chips)[k])
      ensures !old(listening) ==> unchanged(old(Repr))
    {
      if !listening {
        return;
      }
      DestroyTable();
      PublishesExactly(manager.exported, map[]);
      manager.Unref();
    }
  }
}
