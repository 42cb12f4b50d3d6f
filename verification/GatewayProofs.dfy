/** The device table survives crashes and restarts: consistency of every NVS image, agreement of list,
    slots, counter and partition, and recovery, with the exact conditions under which they hold. */
module GatewayProofs {
  import opened GatewayTable

  // ---- Slots ----

  lemma {:induction false} UsedUpdate(slots: seq<Addr>, i: nat, a: Addr)
    requires i < |slots|
    ensures Used(slots[i := a]) ==
            Used(slots) - (if slots[i] == NO_ADDR then 0 else 1) + (if a == NO_ADDR then 0 else 1)
  {
    if i == 0 {
      assert slots[0 := a][1..] == slots[1..];
    } else {
      UsedUpdate(slots[1..], i - 1, a);
      assert slots[i := a][1..] == slots[1..][i - 1 := a];
    }
  }

  lemma {:induction false} FilledSlots(slots: seq<Addr>, a: Addr)
    requires HasFree(slots) && a != NO_ADDR
    ensures InUse(Filled(slots, a)) == InUse(slots) + {a}
    ensures Used(Filled(slots, a)) == Used(slots) + 1 && |Filled(slots, a)| == |slots|
    ensures DistinctSlots(slots) && a !in slots ==> DistinctSlots(Filled(slots, a))
  {
    var i := Find(slots, NO_ADDR);
    var next := Filled(slots, a);
    UsedUpdate(slots, i, a);
    forall b | b in InUse(slots) ensures b in next {
      var j :| 0 <= j < |slots| && slots[j] == b;
      assert next[j] == b;
    }
    assert next[i] == a;
  }

  /** Freeing the first entry of an address frees the address, unless a second slot holds it. */
  lemma {:induction false} FreedSlots(slots: seq<Addr>, a: Addr)
    requires a != NO_ADDR
    ensures InUse(slots) - {a} <= InUse(Freed(slots, a)) <= InUse(slots)
    ensures |Freed(slots, a)| == |slots|
    ensures Used(Freed(slots, a)) == Used(slots) - (if a in slots then 1 else 0)
    ensures DistinctSlots(slots) ==> DistinctSlots(Freed(slots, a)) && InUse(Freed(slots, a)) == InUse(slots) - {a}
    ensures a in InUse(Freed(slots, a)) <==> exists i, j :: 0 <= i < j < |slots| && slots[i] == slots[j] == a
  {
    var i := Find(slots, a);
    var next := Freed(slots, a);
    if i < |slots| {
      UsedUpdate(slots, i, NO_ADDR);
      forall b | b in InUse(slots) && b != a ensures b in next {
        var j :| 0 <= j < |slots| && slots[j] == b;
        assert next[j] == b;
      }
      if a in InUse(next) {
        var j :| 0 <= j < |next| && next[j] == a;
        assert slots[i] == slots[j] == a && i < j;
      }
      if j, k :| 0 <= j < k < |slots| && slots[j] == slots[k] == a {
        assert next[k] == a;
      }
    }
  }

  lemma {:induction false} NoFreeMeansFull(slots: seq<Addr>)
    ensures HasFree(slots) <==> NO_ADDR in slots
    ensures HasFree(slots) <==> Used(slots) < |slots|
  {
    if slots == [] {
    } else {
      NoFreeMeansFull(slots[1..]);
      assert NO_ADDR in slots <==> slots[0] == NO_ADDR || NO_ADDR in slots[1..];
    }
  }

  // ---- Lists ----

  lemma {:induction false} AddrsCons(d: Device, list: seq<Device>)
    ensures Addrs([d] + list) == Addrs(list) + {d.addr}
    ensures DistinctList(list) && d.addr !in Addrs(list) ==> DistinctList([d] + list)
    ensures DistinctList([d] + list) ==> d.addr !in Addrs(list)
  {
    var longer := [d] + list;
    assert longer[0] == d && forall i :: 0 <= i < |list| ==> longer[i + 1] == list[i];
    assert forall e :: e in longer <==> e == d || e in list;
    if d.addr in Addrs(list) {
      var e :| e in list && e.addr == d.addr;
      var i :| 0 <= i < |list| && list[i] == e;
      assert longer[0].addr == longer[i + 1].addr;
    }
  }

  lemma {:induction false} AddrsWithout(list: seq<Device>, i: nat)
    requires i < |list| && DistinctList(list)
    ensures Addrs(Without(list, i)) == Addrs(list) - {list[i].addr}
    ensures DistinctList(Without(list, i))
  {
    var shorter := Without(list, i);
    forall a | a in Addrs(list) && a != list[i].addr ensures a in Addrs(shorter) {
      var d :| d in list && d.addr == a;
      var k :| 0 <= k < |list| && list[k] == d;
      assert d == shorter[if k < i then k else k - 1];
    }
  }

  // ---- One operation ----

  /** Every image of a join is consistent, even with the table full or the address in use. */
  lemma {:induction false} JoinImages(g: Gateway, d: Device)
    requires Consistent(g.nvs) && g.slots == StoredSlots(g.nvs) && d.addr != NO_ADDR
    ensures forall i :: 0 <= i < |Images(g, Join(d))| ==> Consistent(Images(g, Join(d))[i])
  {
    if HasFree(g.slots) {
      FilledSlots(g.slots, d.addr);
    }
  }

  /** A delete of a listed device keeps every image consistent exactly when no second slot holds its
      address: the keys are erased for the address, not for the device. */
  lemma {:induction false} DeleteImagesIff(g: Gateway, addr: Addr, endpoint: Endpoint)
    requires Consistent(g.nvs) && g.slots == StoredSlots(g.nvs) && addr != NO_ADDR
    requires FindDevice(g.list, addr, endpoint) < |g.list|
    ensures (forall i :: 0 <= i < |Images(g, Delete(addr, endpoint))| ==>
               Consistent(Images(g, Delete(addr, endpoint))[i]))
            <==> !exists i, j :: 0 <= i < j < |g.slots| && g.slots[i] == g.slots[j] == addr
  {
    FreedSlots(g.slots, addr);
    var images := Images(g, Delete(addr, endpoint));
    var slots := Freed(g.slots, addr);
    assert StoredSlots(images[0]) == StoredSlots(images[1]) == StoredSlots(images[2]) == slots;
    if addr in InUse(slots) {
      assert !HasInfo(images[1], addr);
      assert !Consistent(images[1]);
    } else {
      assert forall i :: 0 <= i < |images| ==> Consistent(images[i]);
    }
  }

  /** Nothing in a join prevents that second slot: bringing a second endpoint of a listed address and
      deleting it again leaves the table with an address whose keys are gone. */
  lemma {:induction false} SecondEndpointBreaksTable(g: Gateway, d: Device)
    requires Agree(g) && d.addr in Addrs(g.list) && HasFree(g.slots)
    requires FindDevice(g.list, d.addr, d.endpoint) == |g.list|
    ensures var h := Apply(g, Join(d));
            var images := Images(h, Delete(d.addr, d.endpoint));
            exists i :: 0 <= i < |images| && !Consistent(images[i])
  {
    var h := Apply(g, Join(d));
    JoinImages(g, d);
    assert h.nvs == Images(g, Join(d))[2];
    var i := Find(g.slots, NO_ADDR);
    var j :| 0 <= j < |g.slots| && g.slots[j] == d.addr;
    assert h.slots[i] == h.slots[j] == d.addr && i != j;
    assert h.list[0] == d;
    DeleteImagesIff(h, d.addr, d.endpoint);
  }

  lemma {:induction false} SameStored(m: Nvs, n: Nvs)
    requires Consistent(m) && StoredSlots(m) == StoredSlots(n)
    requires forall a :: a in InUse(StoredSlots(m)) ==> HasInfo(n, a) && StoredDevice(m, a) == StoredDevice(n, a)
    ensures Consistent(n) && Stored(m) == Stored(n)
  {
  }

  /** A crash in the middle of a join leaves the devices from before it, or those from after it. */
  lemma {:induction false} JoinIsAtomic(g: Gateway, d: Device, i: nat)
    requires Sound(g) && OneEndpoint(g, Join(d)) && i < |Images(g, Join(d))|
    ensures WellFormed(Images(g, Join(d))[i]) && WellFormed(FinalImage(g, Join(d)))
    ensures Stored(Images(g, Join(d))[i]) == (if i < 2 then Stored(g.nvs) else Stored(FinalImage(g, Join(d))))
    ensures Stored(FinalImage(g, Join(d))) == Stored(g.nvs) + {d}
  {
    FilledSlots(g.slots, d.addr);
    var images := Images(g, Join(d));
    assert d.addr !in g.slots by {
      assert d.addr in g.slots ==> d.addr in InUse(g.slots);
    }
    SameStored(g.nvs, images[0]);
    SameStored(g.nvs, images[1]);
    var last := images[2];
    assert FinalImage(g, Join(d)) == last;
    assert StoredSlots(last) == Filled(g.slots, d.addr);
    assert Consistent(last);
    assert StoredDevice(last, d.addr) == d;
    assert forall a :: a in InUse(g.slots) ==> StoredDevice(last, a) == StoredDevice(g.nvs, a);
  }

  /** A crash in the middle of a delete always leaves the devices from after it. */
  lemma {:induction false} DeleteIsAtomic(g: Gateway, addr: Addr, endpoint: Endpoint, i: nat)
    requires Sound(g) && i < |Images(g, Delete(addr, endpoint))| && addr != NO_ADDR
    ensures WellFormed(Images(g, Delete(addr, endpoint))[i]) && WellFormed(FinalImage(g, Delete(addr, endpoint)))
    ensures Stored(Images(g, Delete(addr, endpoint))[i]) == Stored(FinalImage(g, Delete(addr, endpoint)))
    ensures Stored(FinalImage(g, Delete(addr, endpoint))) == set d | d in Stored(g.nvs) && d.addr != addr
  {
    FreedSlots(g.slots, addr);
    var images := Images(g, Delete(addr, endpoint));
    var first := images[0];
    assert StoredSlots(first) == Freed(g.slots, addr);
    assert Consistent(first);
    SameStored(first, images[1]);
    SameStored(first, images[2]);
    assert FinalImage(g, Delete(addr, endpoint)) == images[2];
    assert Stored(first) == set d | d in Stored(g.nvs) && d.addr != addr by {
      assert forall a :: a in InUse(StoredSlots(first)) <==> a in InUse(g.slots) && a != addr;
      assert forall a :: a in InUse(StoredSlots(first)) ==> StoredDevice(first, a) == StoredDevice(g.nvs, a);
    }
  }

  /** Every operation keeps the table sound, the join that finds it full included. */
  lemma {:induction false} SoundKept(g: Gateway, op: Op)
    requires Sound(g) && OneEndpoint(g, op)
    ensures Sound(Apply(g, op))
  {
    match op
    case Join(d) =>
      if FindDevice(g.list, d.addr, d.endpoint) == |g.list| {
        AddrsCons(d, g.list);
        if HasFree(g.slots) {
          FilledSlots(g.slots, d.addr);
          JoinIsAtomic(g, d, 2);
        }
      }
    case Delete(addr, endpoint) =>
      var i := FindDevice(g.list, addr, endpoint);
      if i < |g.list| {
        assert addr in Addrs(g.list);
        AddrsWithout(g.list, i);
        FreedSlots(g.slots, addr);
        DeleteIsAtomic(g, addr, endpoint, 2);
      }
  }

  /** A join keeps full agreement exactly when the device is already listed, or its address is a real
      one, not in the list yet, and a slot is free. With the table full the device is listed without
      being stored or counted. */
  lemma {:induction false} JoinAgreesIff(g: Gateway, d: Device)
    requires Agree(g)
    ensures Agree(Apply(g, Join(d))) <==>
            || FindDevice(g.list, d.addr, d.endpoint) < |g.list|
            || (d.addr != NO_ADDR && d.addr !in Addrs(g.list) && HasFree(g.slots))
  {
    if FindDevice(g.list, d.addr, d.endpoint) == |g.list| {
      AddrsCons(d, g.list);
      if d.addr != NO_ADDR && d.addr !in Addrs(g.list) && HasFree(g.slots) {
        SoundKept(g, Join(d));
        FilledSlots(g.slots, d.addr);
      }
    }
  }

  /** A delete keeps full agreement, always. */
  lemma {:induction false} DeleteAgrees(g: Gateway, addr: Addr, endpoint: Endpoint)
    requires Agree(g)
    ensures Agree(Apply(g, Delete(addr, endpoint)))
  {
    var i := FindDevice(g.list, addr, endpoint);
    if i < |g.list| {
      assert addr in Addrs(g.list);
      SoundKept(g, Delete(addr, endpoint));
      AddrsWithout(g.list, i);
      FreedSlots(g.slots, addr);
      var h := Apply(g, Delete(addr, endpoint));
      forall d | d in h.list ensures d == StoredDevice(h.nvs, d.addr) {
        assert d in g.list && d.addr in Addrs(h.list);
      }
    }
  }

  // ---- Restart ----

  lemma {:induction false} UsedSnoc(slots: seq<Addr>, n: nat)
    requires n < |slots|
    ensures Used(slots[..n + 1]) == Used(slots[..n]) + (if slots[n] == NO_ADDR then 0 else 1)
  {
    if n == 0 {
      assert slots[..1][1..] == [];
    } else {
      UsedSnoc(slots[1..], n - 1);
      assert slots[..n + 1][1..] == slots[1..][..n] && slots[..n][1..] == slots[1..][..n - 1];
    }
  }

  lemma {:induction false} ResumedList(nvs: Nvs, n: nat)
    requires WellFormed(nvs) && n <= MAX_DEVICES
    ensures var slots := StoredSlots(nvs);
            var list := Resumed(nvs, slots, n);
            && Addrs(list) == InUse(slots[..n]) && DistinctList(list) && |list| == Used(slots[..n])
            && forall d :: d in list ==> d.addr in InUse(slots) && d == StoredDevice(nvs, d.addr)
  {
    var slots := StoredSlots(nvs);
    if n == 0 {
    } else {
      ResumedList(nvs, n - 1);
      UsedSnoc(slots, n - 1);
      var rest := Resumed(nvs, slots, n - 1);
      assert slots[..n] == slots[..n - 1] + [slots[n - 1]];
      if slots[n - 1] != NO_ADDR {
        assert slots[n - 1] in InUse(slots);
        AddrsCons(StoredDevice(nvs, slots[n - 1]), rest);
        assert slots[n - 1] !in slots[..n - 1];
      }
    }
  }

  function Devices(list: seq<Device>): set<Device> { set d | d in list }

  /** From a well-formed partition a restart reaches full agreement, with exactly the devices that the
      partition stands for. */
  lemma {:induction false} RecoverAgrees(nvs: Nvs)
    requires WellFormed(nvs)
    ensures Agree(Recover(nvs)) && Devices(Recover(nvs).list) == Stored(nvs)
  {
    ResumedList(nvs, MAX_DEVICES);
    var g := Recover(nvs);
    assert g.slots[..MAX_DEVICES] == g.slots;
    forall d | d in Stored(nvs) ensures d in g.list {
      assert d.addr in Addrs(g.list);
    }
  }

  /** Losing RAM and restarting restores the device set, the slots and the counter. */
  lemma {:induction false} RestartRestores(g: Gateway)
    requires Agree(g)
    ensures var h := Recover(g.nvs);
            Agree(h) && Devices(h.list) == Devices(g.list) && h.slots == g.slots && h.count == g.count
  {
    RecoverAgrees(g.nvs);
    forall d | d in Stored(g.nvs) ensures d in g.list {
      assert d.addr in Addrs(g.list);
    }
  }

  /** A join that finds the table full is not undone by its delete: the counter is decreased for a device
      that was never counted. List and slots are as before, the counter is one short of the slots in use,
      and only a restart makes them agree again. */
  lemma {:induction false} OverflowLosesCount(g: Gateway, d: Device)
    requires Agree(g) && !HasFree(g.slots) && d.addr != NO_ADDR && d.addr !in Addrs(g.list)
    ensures var h := Apply(Apply(g, Join(d)), Delete(d.addr, d.endpoint));
            && h.list == g.list && h.slots == g.slots
            && Used(h.slots) == MAX_DEVICES && h.count == MAX_DEVICES - 1 && !Agree(h)
            && Agree(Recover(h.nvs)) && Devices(Recover(h.nvs).list) == Devices(g.list)
            && Recover(h.nvs).count == MAX_DEVICES
  {
    var h := Apply(Apply(g, Join(d)), Delete(d.addr, d.endpoint));
    NoFreeMeansFull(g.slots);
    OverflowLeaves(g, d);
    OverflowKeepsStored(g, d);
    SameDevices(g, h.nvs);
  }

  /** A restart from a partition that stands for the same devices. */
  lemma {:induction false} SameDevices(g: Gateway, nvs: Nvs)
    requires Agree(g) && WellFormed(nvs) && StoredSlots(nvs) == g.slots && Stored(nvs) == Stored(g.nvs)
    ensures Agree(Recover(nvs)) && Devices(Recover(nvs).list) == Devices(g.list) && Recover(nvs).count == g.count
  {
    RestartRestores(g);
    RecoverAgrees(g.nvs);
    RecoverAgrees(nvs);
  }

  lemma {:induction false} OverflowJoin(g: Gateway, d: Device)
    requires !HasFree(g.slots) && d.addr !in Addrs(g.list)
    ensures Apply(g, Join(d)) == g.(list := [d] + g.list)
  {
  }

  /** Deleting a device that is listed but has no slot. */
  lemma {:induction false} OverflowDelete(g: Gateway, d: Device)
    requires d.addr !in g.slots
    ensures var full := g.(list := [d] + g.list);
            Apply(full, Delete(d.addr, d.endpoint)) ==
            Gateway(g.list, g.slots, (g.count + 255) % 256, InfoErasures(TableWrite(g.nvs, g.slots), d.addr)[1])
  {
    var list := [d] + g.list;
    assert FindDevice(list, d.addr, d.endpoint) == 0 && Without(list, 0) == g.list;
    assert Freed(g.slots, d.addr) == g.slots;
  }

  lemma {:induction false} OverflowLeaves(g: Gateway, d: Device)
    requires Agree(g) && !HasFree(g.slots) && d.addr != NO_ADDR && d.addr !in Addrs(g.list)
    ensures Apply(Apply(g, Join(d)), Delete(d.addr, d.endpoint)) ==
            Gateway(g.list, g.slots, (g.count + 255) % 256, InfoErasures(TableWrite(g.nvs, g.slots), d.addr)[1])
  {
    assert d.addr !in g.slots by {
      assert d.addr in g.slots ==> d.addr in InUse(g.slots);
    }
    OverflowJoin(g, d);
    OverflowDelete(g, d);
  }

  lemma {:induction false} OverflowKeepsStored(g: Gateway, d: Device)
    requires Agree(g) && d.addr !in Addrs(g.list)
    ensures var nvs := InfoErasures(TableWrite(g.nvs, g.slots), d.addr)[1];
            StoredSlots(nvs) == g.slots && WellFormed(nvs) && Stored(nvs) == Stored(g.nvs)
  {
    SameStored(g.nvs, InfoErasures(TableWrite(g.nvs, g.slots), d.addr)[1]);
  }

  /** Operations are atomic for crashes: whatever the number of writes done, the restart agrees and
      has either the devices stored before the operation or those stored after it. */
  lemma {:induction false} CrashAtomicity(g: Gateway, op: Op, writes: nat)
    requires Sound(g) && OneEndpoint(g, op)
    ensures var h := After(g, Crash(op, writes));
            && WellFormed(FinalImage(g, op)) && Agree(h)
            && (Devices(h.list) == Stored(g.nvs) || Devices(h.list) == Stored(FinalImage(g, op)))
            && (writes >= |Images(g, op)| ==> Devices(h.list) == Stored(FinalImage(g, op)))
  {
    var written := Written(g, Crash(op, writes));
    var image := if written == [] then g.nvs else written[|written| - 1];
    if written != [] {
      ImageIsAtomic(g, op, |written| - 1);
    }
    if Images(g, op) != [] {
      ImageIsAtomic(g, op, |Images(g, op)| - 1);
    }
    RecoverAgrees(image);
  }

  lemma {:induction false} ImageIsAtomic(g: Gateway, op: Op, i: nat)
    requires Sound(g) && OneEndpoint(g, op) && i < |Images(g, op)|
    ensures WellFormed(Images(g, op)[i]) && WellFormed(FinalImage(g, op))
    ensures Stored(Images(g, op)[i]) == Stored(g.nvs) || Stored(Images(g, op)[i]) == Stored(FinalImage(g, op))
  {
    match op
    case Join(d) => JoinIsAtomic(g, d, i);
    case Delete(addr, endpoint) =>
      assert g.list[FindDevice(g.list, addr, endpoint)].addr in Addrs(g.list);
      DeleteIsAtomic(g, addr, endpoint, i);
  }

  /** Crash consistency over whole runs of joins, deletes, crashes and restarts with one endpoint per
      short address: every image ever in flash is well formed, so each address of the stored table
      has both its keys. */
  lemma {:induction false} RunsStayConsistent(g: Gateway, events: seq<Event>)
    requires Sound(g) && Allowed(g, events)
    ensures forall i :: 0 <= i < |History(g, events)| ==> WellFormed(History(g, events)[i])
    ensures Sound(RunAll(g, events))
    decreases |events|
  {
    if events == [] {
    } else {
      EventStaysConsistent(g, events[0]);
      RunsStayConsistent(After(g, events[0]), events[1..]);
    }
  }

  lemma {:induction false} EventStaysConsistent(g: Gateway, e: Event)
    requires Sound(g) && OneEndpoint(g, e.op)
    ensures forall i :: 0 <= i < |Written(g, e)| ==> WellFormed(Written(g, e)[i])
    ensures Sound(After(g, e))
  {
    forall i | 0 <= i < |Images(g, e.op)| ensures WellFormed(Images(g, e.op)[i]) {
      ImageIsAtomic(g, e.op, i);
    }
    match e
    case Do(op) => SoundKept(g, op);
    case Crash(op, writes) => CrashAtomicity(g, op, writes);
  }

  /** No join brings a new device when MAX_DEVICES are listed. */
  ghost predicate Fits(g: Gateway, events: seq<Event>)
    decreases |events|
  {
    events != [] ==>
      && (events[0].Do? && events[0].op.Join? ==>
            var d := events[0].op.device;
            FindDevice(g.list, d.addr, d.endpoint) < |g.list| || |g.list| < MAX_DEVICES)
      && Fits(After(g, events[0]), events[1..])
  }

  /** Full agreement over whole runs of joins, deletes, crashes and restarts: with at most MAX_DEVICES
      devices and one endpoint per short address, list, slots, counter and partition describe the
      same devices after every event. */
  lemma {:induction false} RunsAgree(g: Gateway, events: seq<Event>)
    requires Agree(g) && Allowed(g, events) && Fits(g, events)
    ensures Agree(RunAll(g, events))
    decreases |events|
  {
    if events == [] {
    } else {
      EventAgrees(g, events[0]);
      RunsAgree(After(g, events[0]), events[1..]);
    }
  }

  lemma {:induction false} EventAgrees(g: Gateway, e: Event)
    requires Agree(g) && OneEndpoint(g, e.op)
    requires e.Do? && e.op.Join? ==>
               FindDevice(g.list, e.op.device.addr, e.op.device.endpoint) < |g.list| || |g.list| < MAX_DEVICES
    ensures Agree(After(g, e))
  {
    match e
    case Crash(op, writes) => CrashAtomicity(g, op, writes);
    case Do(Join(d)) =>
      NoFreeMeansFull(g.slots);
      JoinAgreesIff(g, d);
    case Do(Delete(addr, endpoint)) => DeleteAgrees(g, addr, endpoint);
  }
}
