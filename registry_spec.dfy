/**
 * The daemon's chip registry as a value: which device names have a record,
 * and with which chip. The functions here say what each event does to it,
 * the lemmas what a whole run of events or a startup enumeration leaves behind.
 */
module RegistrySpec {
  import opened Wrappers
  import opened Hardware
  import opened GpiodGlib
  import opened ObjectPaths
  import opened ObjectManager
  import opened ChipController

  /** Device name to the handle of the chip opened for it. */
  type Registry = map<string, ChipHandle>

  /** A udev device of the "gpio" subsystem: its name and whether it has a device file. */
  datatype Device = Device(name: string, hasDeviceFile: bool)

  /** A uevent: the action string and the device. */
  datatype Uevent = Uevent(action: string, device: Device)

  /** gpiodbus_daemon_is_gpiochip_device: the character device has a device
      file, the legacy sysfs twin of the same chip has none. */
  predicate IsGpiochipDevice(dev: Device)
  {
    dev.hasDeviceFile
  }

  /** The add path gets past g_gpiod_chip_new and g_gpiod_chip_get_all_lines. */
  predicate Onboards(m: Machine, devname: string)
  {
    devname in m.chips && AllLines(m.chips[devname]).Success?
  }

  /** Some registered name of a registry that is not empty. */
  ghost function SomeName(reg: Registry): (d: string)
    requires |reg| > 0
    ensures d in reg
  {
    var d :| d in reg; d
  }

  /** What the root object manager exports for a registry: one Chip object
      per registered name, at "/org/gpiod/<name>", with that chip's properties. */
  ghost function Published(reg: Registry): map<string, DBusObject>
    decreases |reg|
  {
    if |reg| == 0 then map[]
    else
      var d := SomeName(reg);
      Published(reg - {d})[ObjectPath(RootPath, d) := ChipProperties(reg[d])]
  }

  /** Every registered chip is exported at its path with its properties, and
      nothing else is exported: each exported path is the path of a registered name. */
  lemma {:induction false} PublishedContents(reg: Registry)
    ensures forall d :: d in reg ==> ObjectPath(RootPath, d) in Published(reg) && Published(reg)[ObjectPath(RootPath, d)] == ChipProperties(reg[d])
    ensures forall p :: p in Published(reg) ==> IsChildPath(RootPath, p) && ChildName(RootPath, p) in reg
    decreases |reg|
  {
    if |reg| > 0 {
      var d0 := SomeName(reg);
      var rest := reg - {d0};
      PublishedContents(rest);
      ChildOfObjectPath(RootPath, d0);
      forall d | d in reg
        ensures ObjectPath(RootPath, d) in Published(reg) && Published(reg)[ObjectPath(RootPath, d)] == ChipProperties(reg[d])
      {
        if d != d0 {
          ChildOfObjectPath(RootPath, d);
          assert d in rest;
        }
      }
    }
  }

  /** A path is exported exactly when it is the path of a registered name. */
  lemma PublishedAt(reg: Registry, p: string)
    ensures p in Published(reg) <==> IsChildPath(RootPath, p) && ChildName(RootPath, p) in reg
    ensures p in Published(reg) ==> Published(reg)[p] == ChipProperties(reg[ChildName(RootPath, p)])
  {
    PublishedContents(reg);
  }

  /** Registering a name exports exactly one more object, at its path. */
  lemma PublishedInsert(reg: Registry, d: string, h: ChipHandle)
    requires d !in reg
    ensures Published(reg[d := h]) == Published(reg)[ObjectPath(RootPath, d) := ChipProperties(h)]
  {
    var l, r := Published(reg[d := h]), Published(reg)[ObjectPath(RootPath, d) := ChipProperties(h)];
    forall p ensures (p in l <==> p in r) && (p in l ==> l[p] == r[p]) {
      PublishedInsertAt(reg, d, h, p);
    }
  }

  lemma PublishedInsertAt(reg: Registry, d: string, h: ChipHandle, p: string)
    requires d !in reg
    ensures var l, r := Published(reg[d := h]), Published(reg)[ObjectPath(RootPath, d) := ChipProperties(h)];
      (p in l <==> p in r) && (p in l ==> l[p] == r[p])
  {
    ChildOfObjectPath(RootPath, d);
    PublishedAt(reg[d := h], p);
    PublishedAt(reg, p);
  }

  /** Dropping a name unexports exactly the object at its path. */
  lemma PublishedRemove(reg: Registry, d: string)
    ensures Published(reg - {d}) == Published(reg) - {ObjectPath(RootPath, d)}
  {
    var l, r := Published(reg - {d}), Published(reg) - {ObjectPath(RootPath, d)};
    forall p ensures (p in l <==> p in r) && (p in l ==> l[p] == r[p]) {
      PublishedRemoveAt(reg, d, p);
    }
  }

  lemma PublishedRemoveAt(reg: Registry, d: string, p: string)
    ensures var l, r := Published(reg - {d}), Published(reg) - {ObjectPath(RootPath, d)};
      (p in l <==> p in r) && (p in l ==> l[p] == r[p])
  {
    ChildOfObjectPath(RootPath, d);
    PublishedAt(reg - {d}, p);
    PublishedAt(reg, p);
  }

  /** A registered name d has its chip exported in e. */
  ghost predicate ExportsName(e: map<string, DBusObject>, reg: Registry, d: string)
  {
    d in reg ==> ObjectPath(RootPath, d) in e && e[ObjectPath(RootPath, d)] == ChipProperties(reg[d])
  }

  /** An exported path p belongs to a registered name. */
  ghost predicate ExportsOnlyNames(e: map<string, DBusObject>, reg: Registry, p: string)
  {
    p in e ==> IsChildPath(RootPath, p) && ChildName(RootPath, p) in reg
  }

  /** The exported objects e are those of reg, stated point by point. */
  ghost predicate Publishes(e: map<string, DBusObject>, reg: Registry)
  {
    && (forall d {:trigger ExportsName(e, reg, d)} :: ExportsName(e, reg, d))
    && (forall p {:trigger ExportsOnlyNames(e, reg, p)} :: ExportsOnlyNames(e, reg, p))
  }

  /** Publishes pins the exported objects down to Published. */
  lemma PublishesExactly(e: map<string, DBusObject>, reg: Registry)
    ensures Publishes(e, reg) <==> e == Published(reg)
  {
    PublishedContents(reg);
    if Publishes(e, reg) {
      forall p ensures (p in e <==> p in Published(reg)) && (p in e ==> e[p] == Published(reg)[p]) {
        PublishedAt(reg, p);
        assert ExportsOnlyNames(e, reg, p);
        if IsChildPath(RootPath, p) {
          assert ExportsName(e, reg, ChildName(RootPath, p));
        }
      }
    }
    if e == Published(reg) {
      forall d ensures ExportsName(e, reg, d) {}
      forall p ensures ExportsOnlyNames(e, reg, p) {}
    }
  }

  lemma PublishesInsert(e: map<string, DBusObject>, reg: Registry, d: string, h: ChipHandle)
    requires Publishes(e, reg) && d !in reg
    ensures Publishes(e[ObjectPath(RootPath, d) := ChipProperties(h)], reg[d := h])
  {
    PublishesExactly(e, reg);
    PublishedInsert(reg, d, h);
    PublishesExactly(e[ObjectPath(RootPath, d) := ChipProperties(h)], reg[d := h]);
  }

  lemma PublishesRemove(e: map<string, DBusObject>, reg: Registry, d: string)
    requires Publishes(e, reg)
    ensures Publishes(e - {ObjectPath(RootPath, d)}, reg - {d})
  {
    PublishesExactly(e, reg);
    PublishedRemove(reg, d);
    PublishesExactly(e - {ObjectPath(RootPath, d)}, reg - {d});
  }

  /** gpiodbus_daemon_export_chip_object on the registry. None is the failed
      g_assert_true after g_hash_table_insert finds the name already present. */
  function AddChip(m: Machine, reg: Registry, devname: string): (r: Option<Registry>)
    ensures r.None? <==> Onboards(m, devname) && devname in reg
    ensures r.Some? ==> r.value.Keys == reg.Keys + (if Onboards(m, devname) then {devname} else {})
    ensures r.Some? ==> forall k :: k in reg ==> r.value[k] == reg[k]
    ensures r.Some? && Onboards(m, devname) ==> r.value[devname] == m.chips[devname]
  {
    if devname !in m.chips then Some(reg)                    // unable to open the chip
    else if AllLines(m.chips[devname]).Failure? then Some(reg)  // unable to retrieve the lines
    else if devname in reg then None
    else Some(reg[devname := m.chips[devname]])
  }

  /** gpiodbus_daemon_remove_chip_object on the registry. None is the failed
      g_assert_true after g_hash_table_remove finds no such name. */
  function RemoveChip(reg: Registry, devname: string): (r: Option<Registry>)
    ensures r.None? <==> devname !in reg
    ensures r.Some? ==> r.value.Keys == reg.Keys - {devname}
    ensures r.Some? ==> forall k :: k in r.value ==> r.value[k] == reg[k]
  {
    if devname in reg then Some(reg - {devname}) else None
  }

  /** gpiodbus_daemon_on_uevent on the registry. */
  function OnUevent(m: Machine, reg: Registry, ev: Uevent): (r: Option<Registry>)
    ensures !IsGpiochipDevice(ev.device) ==> r == Some(reg)
    ensures ev.action != "add" && ev.action != "remove" ==> r == Some(reg)
    ensures IsGpiochipDevice(ev.device) && ev.action == "add" ==> r == AddChip(m, reg, ev.device.name)
    ensures IsGpiochipDevice(ev.device) && ev.action == "remove" ==> r == RemoveChip(reg, ev.device.name)
  {
    if !IsGpiochipDevice(ev.device) then Some(reg)
    else if ev.action == "add" then AddChip(m, reg, ev.device.name)
    else if ev.action == "remove" then RemoveChip(reg, ev.device.name)
    else Some(reg)   // unknown action: a warning only
  }

  /** gpiodbus_daemon_handle_chip_dev on the registry. */
  function HandleChipDev(m: Machine, reg: Registry, dev: Device): (r: Option<Registry>)
    ensures !IsGpiochipDevice(dev) ==> r == Some(reg)
    ensures IsGpiochipDevice(dev) ==> r == AddChip(m, reg, dev.name)
  {
    if IsGpiochipDevice(dev) then AddChip(m, reg, dev.name) else Some(reg)
  }

  /** gpiodbus_daemon_on_uevent's two kinds of uevent for a character device. */
  predicate IsAdd(ev: Uevent)
  {
    IsGpiochipDevice(ev.device) && ev.action == "add"
  }

  predicate IsRemove(ev: Uevent)
  {
    IsGpiochipDevice(ev.device) && ev.action == "remove"
  }

  predicate IsRemoveOf(ev: Uevent, d: string)
  {
    IsRemove(ev) && ev.device.name == d
  }

  /** One uevent as the main loop delivers it, with the machine as it is at
      that moment: chips are plugged in, unplugged and replugged between
      uevents. */
  datatype Delivery = Delivery(m: Machine, ev: Uevent)

  /** An add whose chip opens, and whose lines all resolve, when it is delivered. */
  predicate Takes(dl: Delivery)
  {
    IsAdd(dl.ev) && Onboards(dl.m, dl.ev.device.name)
  }

  /** The uevents delivered in order, stopping at the first failed assertion.
      A name ends up registered only if it was registered before with the
      same chip, or some add of the run onboarded it with the chip opened then. */
  function Replay(reg: Registry, run: seq<Delivery>): (r: Option<Registry>)
    ensures r.Some? ==> forall d :: d in r.value ==>
      (d in reg && r.value[d] == reg[d]) ||
      (exists i :: 0 <= i < |run| && Takes(run[i]) && run[i].ev.device.name == d && r.value[d] == run[i].m.chips[d])
    decreases |run|
  {
    if run == [] then Some(reg)
    else
      var last := run[|run| - 1];
      assert forall i :: 0 <= i < |run| - 1 ==> run[..|run| - 1][i] == run[i];
      match Replay(reg, run[..|run| - 1])
      case None => None
      case Some(r) => OnUevent(last.m, r, last.ev)
  }

  /** The startup enumeration of gpiodbus_daemon_listen, device by device.
      It only ever adds: every name registered before keeps its chip, and
      every new name is a listed chip device that onboards, with its chip. */
  function Enumerate(m: Machine, reg: Registry, devs: seq<Device>): (r: Option<Registry>)
    ensures r.Some? ==> reg.Keys <= r.value.Keys && forall d :: d in reg ==> r.value[d] == reg[d]
    ensures r.Some? ==> forall d :: d in r.value && d !in reg ==>
      d in Primaries(devs) && Onboards(m, d) && r.value[d] == m.chips[d]
    decreases |devs|
  {
    if devs == [] then Some(reg)
    else
      var last := devs[|devs| - 1];
      assert devs == devs[..|devs| - 1] + [last];
      PrimariesStep(devs[..|devs| - 1], last);
      match Enumerate(m, reg, devs[..|devs| - 1])
      case None => None
      case Some(r) => HandleChipDev(m, r, last)
  }

  /** An aborted prefix aborts the whole run. */
  lemma {:induction false} ReplayAbortIsFinal(reg: Registry, run: seq<Delivery>, i: nat)
    requires i <= |run| && Replay(reg, run[..i]).None?
    ensures Replay(reg, run).None?
    decreases |run|
  {
    if i < |run| {
      assert run[..|run| - 1][..i] == run[..i];
      ReplayAbortIsFinal(reg, run[..|run| - 1], i);
    } else {
      assert run[..i] == run;
    }
  }

  /** An aborted prefix aborts the whole enumeration. */
  lemma {:induction false} EnumerateAbortIsFinal(m: Machine, reg: Registry, devs: seq<Device>, i: nat)
    requires i <= |devs| && Enumerate(m, reg, devs[..i]).None?
    ensures Enumerate(m, reg, devs).None?
    decreases |devs|
  {
    if i < |devs| {
      assert devs[..|devs| - 1][..i] == devs[..i];
      EnumerateAbortIsFinal(m, reg, devs[..|devs| - 1], i);
    } else {
      assert devs[..i] == devs;
    }
  }

  /** udev reports each action on a chip twice: once for the character
      device, once for its legacy sysfs twin of the same name, which has no
      device file. Only the first is a gpiochip device, so the pair, in
      either order and on either machine, acts as the first alone, both when
      delivered and when enumerated. */
  lemma TwinUeventsActOnce(reg: Registry, m: Machine, m': Machine, action: string, name: string)
    ensures IsGpiochipDevice(Device(name, true)) && !IsGpiochipDevice(Device(name, false))
    ensures var cdev, twin := Delivery(m, Uevent(action, Device(name, true))), Delivery(m', Uevent(action, Device(name, false)));
      Replay(reg, [cdev, twin]) == Replay(reg, [twin, cdev]) == Replay(reg, [cdev])
    ensures Enumerate(m, reg, [Device(name, true), Device(name, false)]) == Enumerate(m, reg, [Device(name, false), Device(name, true)])
         == Enumerate(m, reg, [Device(name, true)])
  {
    var cdev, twin := Delivery(m, Uevent(action, Device(name, true))), Delivery(m', Uevent(action, Device(name, false)));
    assert [cdev, twin][..1] == [cdev] && [twin, cdev][..1] == [twin] && [cdev][..0] == [] && [twin][..0] == [];
    var a, b := Device(name, true), Device(name, false);
    assert [a, b][..1] == [a] && [b, a][..1] == [b] && [a][..0] == [] && [b][..0] == [];
  }

  // ---------------------------------------------------------------------
  // Runs of uevents: which never abort, and what they leave registered

  /** Delivery i onboards its device, and no later delivery removes it. */
  ghost predicate Unmatched(run: seq<Delivery>, i: int)
  {
    0 <= i < |run| && Takes(run[i]) &&
    forall j :: i < j < |run| ==> !IsRemoveOf(run[j].ev, run[i].ev.device.name)
  }

  /** The names an onboarding add registered and no later remove dropped. */
  ghost function Pending(run: seq<Delivery>): set<string>
  {
    set i | 0 <= i < |run| && Unmatched(run, i) :: run[i].ev.device.name
  }

  /** What may come after the names pending: an add that onboards names a
      chip not pending, and a remove names a pending one. An add that fails
      to open its chip or to resolve its lines may come at any time. */
  ghost predicate Allowed(pending: set<string>, dl: Delivery)
  {
    && (Takes(dl) ==> dl.ev.device.name !in pending)
    && (IsRemove(dl.ev) ==> dl.ev.device.name in pending)
  }

  /** Every delivery is allowed after the ones before it. */
  ghost predicate KeepsProtocol(run: seq<Delivery>)
  {
    forall i :: 0 <= i < |run| ==> Allowed(Pending(run[..i]), run[i])
  }

  /** A later delivery that does not remove the name keeps an add unmatched. */
  lemma UnmatchedExtends(run: seq<Delivery>, e: Delivery, i: int)
    requires Unmatched(run, i) && !IsRemoveOf(e.ev, run[i].ev.device.name)
    ensures Unmatched(run + [e], i) && (run + [e])[i] == run[i]
  {
    var es := run + [e];
    forall j | i < j < |es| ensures !IsRemoveOf(es[j].ev, es[i].ev.device.name) {
      if j < |run| {
        assert es[j] == run[j];
      }
    }
  }

  /** How one more delivery changes the pending names. */
  lemma PendingStep(run: seq<Delivery>, e: Delivery)
    ensures Takes(e) ==> Pending(run + [e]) == Pending(run) + {e.ev.device.name}
    ensures IsRemove(e.ev) ==> Pending(run + [e]) == Pending(run) - {e.ev.device.name}
    ensures !Takes(e) && !IsRemove(e.ev) ==> Pending(run + [e]) == Pending(run)
  {
    var es := run + [e];
    var n := |run|;
    forall x | x in Pending(es)
      ensures x in Pending(run) || (Takes(e) && x == e.ev.device.name)
      ensures !(IsRemove(e.ev) && x == e.ev.device.name)
    {
      var i :| 0 <= i < |es| && Unmatched(es, i) && es[i].ev.device.name == x;
      if i < n {
        assert Unmatched(run, i) by {
          forall j | i < j < |run| ensures !IsRemoveOf(run[j].ev, run[i].ev.device.name) {
            assert es[j] == run[j];
          }
        }
        assert es[n] == e;
      }
    }
    forall x | x in Pending(run) && !IsRemoveOf(e.ev, x)
      ensures x in Pending(es)
    {
      var i :| 0 <= i < |run| && Unmatched(run, i) && run[i].ev.device.name == x;
      UnmatchedExtends(run, e, i);
    }
    if Takes(e) {
      assert Unmatched(es, n);
    }
  }

  /** A run keeps the protocol exactly when its prefix does and the last
      delivery is allowed after it. */
  lemma KeepsProtocolSnoc(run: seq<Delivery>, e: Delivery)
    ensures KeepsProtocol(run + [e]) <==> KeepsProtocol(run) && Allowed(Pending(run), e)
  {
    var es := run + [e];
    forall i | 0 <= i < |run| ensures es[..i] == run[..i] && es[i] == run[i] {}
    assert es[..|run|] == run;
    if KeepsProtocol(es) {
      assert Allowed(Pending(es[..|run|]), es[|run|]);
      forall i | 0 <= i < |run| ensures Allowed(Pending(run[..i]), run[i]) {
        assert Allowed(Pending(es[..i]), es[i]);
      }
    }
  }

  /** Replayed from an empty registry, a run aborts exactly when it breaks
      the protocol: an add that onboards a chip already registered, or a
      remove of a chip that is not. A run that keeps it leaves exactly the
      pending names registered, each with the chip that its unmatched add
      opened, on the machine as it was then. */
  lemma {:induction false} ReplayRegistersPending(run: seq<Delivery>)
    ensures Replay(map[], run).Some? <==> KeepsProtocol(run)
    ensures KeepsProtocol(run) ==> Replay(map[], run).value.Keys == Pending(run)
    ensures KeepsProtocol(run) ==> forall d :: d in Replay(map[], run).value ==>
      exists i :: Unmatched(run, i) && run[i].ev.device.name == d && Replay(map[], run).value[d] == run[i].m.chips[d]
    decreases |run|
  {
    if run != [] {
      var es := run[..|run| - 1];
      var e := run[|run| - 1];
      assert run == es + [e];
      ReplayRegistersPending(es);
      KeepsProtocolSnoc(es, e);
      if KeepsProtocol(es) {
        var reg := Replay(map[], es).value;
        PendingStep(es, e);
        assert Replay(map[], run) == OnUevent(e.m, reg, e.ev);
        if KeepsProtocol(run) {
          var reg' := Replay(map[], run).value;
          forall d | d in reg'
            ensures exists i :: Unmatched(run, i) && run[i].ev.device.name == d && reg'[d] == run[i].m.chips[d]
          {
            if Takes(e) && d == e.ev.device.name {
              assert Unmatched(run, |es|);
            } else {
              var i :| Unmatched(es, i) && es[i].ev.device.name == d && reg[d] == es[i].m.chips[d];
              UnmatchedExtends(es, e, i);
            }
          }
        }
      }
    }
  }

  // ---------------------------------------------------------------------
  // Startup enumeration

  /** The names of the enumerated devices that have a device file. */
  function Primaries(devs: seq<Device>): set<string>
  {
    set i | 0 <= i < |devs| && IsGpiochipDevice(devs[i]) :: devs[i].name
  }

  /** No chip device is listed twice. */
  predicate DistinctPrimaries(devs: seq<Device>)
  {
    forall i, j :: 0 <= i < j < |devs| && IsGpiochipDevice(devs[i]) && IsGpiochipDevice(devs[j]) ==>
      devs[i].name != devs[j].name
  }

  /** The registry startup should reach: every listed chip device that onboards. */
  function Onboarded(m: Machine, names: set<string>): Registry
  {
    map d | d in names && Onboards(m, d) :: m.chips[d]
  }

  lemma PrimariesStep(devs: seq<Device>, d: Device)
    ensures Primaries(devs + [d]) == Primaries(devs) + (if IsGpiochipDevice(d) then {d.name} else {})
  {
    var ds := devs + [d];
    forall x | x in Primaries(ds) ensures x in Primaries(devs) + (if IsGpiochipDevice(d) then {d.name} else {}) {
      var i :| 0 <= i < |ds| && IsGpiochipDevice(ds[i]) && ds[i].name == x;
      if i < |devs| {
        assert devs[i] == ds[i];
      }
    }
    forall x | x in Primaries(devs) ensures x in Primaries(ds) {
      var i :| 0 <= i < |devs| && IsGpiochipDevice(devs[i]) && devs[i].name == x;
      assert ds[i] == devs[i];
    }
    if IsGpiochipDevice(d) {
      assert ds[|devs|] == d;
    }
  }

  /** One more listed device, not listed before, takes the registry of the
      devices before it to that of all of them. */
  lemma OnboardedStep(m: Machine, p: set<string>, d: Device)
    requires IsGpiochipDevice(d) ==> d.name !in p
    ensures HandleChipDev(m, Onboarded(m, p), d) == Some(Onboarded(m, p + (if IsGpiochipDevice(d) then {d.name} else {})))
  {
    if IsGpiochipDevice(d) {
      assert d.name !in Onboarded(m, p);
      if Onboards(m, d.name) {
        assert Onboarded(m, p + {d.name}) == Onboarded(m, p)[d.name := m.chips[d.name]];
      } else {
        assert Onboarded(m, p + {d.name}) == Onboarded(m, p);
      }
    } else {
      assert p + {} == p;
    }
  }

  /** Startup enumeration of distinct devices never aborts and registers
      exactly the chip devices that open and whose lines all resolve. */
  lemma {:induction false} EnumerateRegistersOnboarded(m: Machine, devs: seq<Device>)
    requires DistinctPrimaries(devs)
    ensures Enumerate(m, map[], devs) == Some(Onboarded(m, Primaries(devs)))
    decreases |devs|
  {
    if devs != [] {
      var ds := devs[..|devs| - 1];
      var d := devs[|devs| - 1];
      assert devs == ds + [d];
      assert DistinctPrimaries(ds);
      EnumerateRegistersOnboarded(m, ds);
      PrimariesStep(ds, d);
      assert IsGpiochipDevice(d) ==> d.name !in Primaries(ds);
      OnboardedStep(m, Primaries(ds), d);
      assert Enumerate(m, map[], devs) == HandleChipDev(m, Onboarded(m, Primaries(ds)), d);
    }
  }

  /** The order in which udev lists the devices does not matter. */
  lemma EnumerationOrderIrrelevant(m: Machine, a: seq<Device>, b: seq<Device>)
    requires DistinctPrimaries(a) && DistinctPrimaries(b)
    requires multiset(a) == multiset(b)
    ensures Enumerate(m, map[], a) == Enumerate(m, map[], b)
  {
    EnumerateRegistersOnboarded(m, a);
    EnumerateRegistersOnboarded(m, b);
    forall x ensures x in Primaries(a) <==> x in Primaries(b) {
      if x in Primaries(a) {
        var i :| 0 <= i < |a| && IsGpiochipDevice(a[i]) && a[i].name == x;
        assert a[i] in multiset(b);
        var j :| 0 <= j < |b| && b[j] == a[i];
      }
      if x in Primaries(b) {
        var j :| 0 <= j < |b| && IsGpiochipDevice(b[j]) && b[j].name == x;
        assert b[j] in multiset(a);
        var i :| 0 <= i < |a| && a[i] == b[j];
      }
    }
    assert Primaries(a) == Primaries(b);
  }
}
