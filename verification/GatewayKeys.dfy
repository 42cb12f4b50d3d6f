/** Where the gateway starts from, how its counter counts, and which keys stay in the partition: none too
    many in runs without a crash, and exactly which after one. */
module GatewayKeys {
  import opened Basics
  import opened GatewayTable
  import opened GatewayProofs

  // ---- The start ----

  /** An empty partition: sixteen free slots, which are marked 0xfffe, and no device. Full agreement
      starts there. */
  lemma {:induction false} EmptyPartition()
    ensures var g := Recover(Nvs(map[], map[], None));
            && g.list == [] && g.count == 0 && g.slots == seq(16, _ => 0xfffe) && Agree(g)
            && g.nvs.endpoints.Keys == g.nvs.kinds.Keys == {}
  {
    var nvs := Nvs(map[], map[], None);
    NothingUsed(16);
    assert WellFormed(nvs);
    RecoverAgrees(nvs);
    NothingResumed(nvs, 16);
  }

  lemma {:induction false} NothingResumed(nvs: Nvs, n: nat)
    requires n <= 16 && nvs.addrs.None?
    ensures Resumed(nvs, StoredSlots(nvs), n) == []
  {
    if n == 0 {
    } else {
      NothingResumed(nvs, n - 1);
      assert StoredSlots(nvs)[n - 1] == NO_ADDR;
    }
  }

  lemma {:induction false} NothingUsed(n: nat)
    ensures Used(seq(n, _ => NO_ADDR)) == 0
  {
    if n == 0 {
    } else {
      NothingUsed(n - 1);
      assert seq(n, _ => NO_ADDR)[1..] == seq(n - 1, _ => NO_ADDR);
    }
  }

  /** The table takes sixteen devices: with list and slots in agreement there is a free slot exactly while
      fewer than sixteen devices are listed. */
  lemma {:induction false} Capacity(g: Gateway)
    requires Agree(g)
    ensures HasFree(g.slots) <==> |g.list| < 16
  {
    NoFreeMeansFull(g.slots);
  }

  /** The device of the operation is in the list. */
  ghost predicate Listed(g: Gateway, op: Op) {
    exists d :: d in g.list && (match op
                                case Join(e) => d.addr == e.addr && d.endpoint == e.endpoint
                                case Delete(addr, endpoint) => d.addr == addr && d.endpoint == endpoint)
  }

  /** The counter is one byte. A join counts a device that gets a slot, 255 being followed by 0. */
  lemma {:induction false} JoinCounts(g: Gateway, d: Device)
    requires g.count < 256
    ensures var counted := !Listed(g, Join(d)) && NO_ADDR in g.slots;
            Apply(g, Join(d)).count == if !counted then g.count else if g.count == 255 then 0 else g.count + 1
  {
    NoFreeMeansFull(g.slots);
  }

  /** A delete uncounts a listed device, 0 being preceded by 255, whether or not it was counted. */
  lemma {:induction false} DeleteCounts(g: Gateway, addr: Addr, endpoint: Endpoint)
    requires g.count < 256
    ensures var listed := Listed(g, Delete(addr, endpoint));
            Apply(g, Delete(addr, endpoint)).count ==
            if !listed then g.count else if g.count == 0 then 255 else g.count - 1
  {
  }

  /** A restart counts the devices it finds. */
  lemma {:induction false} RestartCounts(nvs: Nvs)
    ensures Recover(nvs).count < 256
    ensures |StoredSlots(nvs)| < 256 ==> Recover(nvs).count == |Recover(nvs).list|
  {
    assert Recover(nvs).list == Resumed(nvs, StoredSlots(nvs), |StoredSlots(nvs)|);
  }

  // ---- The keys ----

  /** There are info keys for the addresses in use and for no others. */
  ghost predicate Clean(g: Gateway) {
    Sound(g) && g.nvs.endpoints.Keys == InUse(g.slots) && g.nvs.kinds.Keys == InUse(g.slots)
  }

  lemma {:induction false} JoinStaysClean(g: Gateway, d: Device)
    requires Clean(g) && OneEndpoint(g, Join(d))
    ensures Clean(Apply(g, Join(d)))
  {
    SoundKept(g, Join(d));
    if HasFree(g.slots) {
      FilledSlots(g.slots, d.addr);
    }
  }

  lemma {:induction false} DeleteStaysClean(g: Gateway, addr: Addr, endpoint: Endpoint)
    requires Clean(g)
    ensures Clean(Apply(g, Delete(addr, endpoint)))
  {
    SoundKept(g, Delete(addr, endpoint));
    var i := FindDevice(g.list, addr, endpoint);
    if i < |g.list| {
      assert g.list[i].addr in Addrs(g.list);
      FreedSlots(g.slots, addr);
    }
  }

  /** Without a crash nothing is left behind: over every run of joins and deletes with one endpoint per
      address, even beyond the capacity of the table, the partition holds the keys of the addresses in
      use and no others. */
  lemma {:induction false} NoStrayKeys(g: Gateway, events: seq<Event>)
    requires Clean(g) && Allowed(g, events) && forall i :: 0 <= i < |events| ==> events[i].Do?
    ensures Clean(RunAll(g, events))
    decreases |events|
  {
    if events == [] {
    } else {
      assert events[0].Do?;
      if events[0].op.Join? {
        JoinStaysClean(g, events[0].op.device);
      } else {
        DeleteStaysClean(g, events[0].op.addr, events[0].op.endpoint);
      }
      NoStrayKeys(Apply(g, events[0].op), events[1..]);
    }
  }

  /** A crash in a join of a new device leaves its endpoint key behind after the first write and its type
      key as well after the second. */
  lemma {:induction false} JoinCrashKeys(g: Gateway, d: Device, writes: nat)
    requires Clean(g) && OneEndpoint(g, Join(d)) && FindDevice(g.list, d.addr, d.endpoint) == |g.list|
    requires HasFree(g.slots) && writes < 3
    ensures var h := After(g, Crash(Join(d), writes));
            && h.slots == g.slots && d.addr !in InUse(h.slots)
            && h.nvs.endpoints.Keys == InUse(h.slots) + (if writes >= 1 then {d.addr} else {})
            && h.nvs.kinds.Keys == InUse(h.slots) + (if writes >= 2 then {d.addr} else {})
  {
    var images := Images(g, Join(d));
    var info := InfoWrites(g.nvs, d);
    assert images[0] == info[0] && images[1] == info[1] && |images| == 3;
    if writes > 0 {
      assert Written(g, Crash(Join(d), writes))[writes - 1] == images[writes - 1];
    }
  }

  /** A crash in a delete leaves both its keys behind after the first write and the type key alone after the
      second. */
  lemma {:induction false} DeleteCrashKeys(g: Gateway, addr: Addr, endpoint: Endpoint, writes: nat)
    requires Clean(g) && FindDevice(g.list, addr, endpoint) < |g.list| && addr in InUse(g.slots)
    requires 1 <= writes < 3
    ensures var h := After(g, Crash(Delete(addr, endpoint), writes));
            && InUse(h.slots) == InUse(g.slots) - {addr}
            && h.nvs.endpoints.Keys == InUse(h.slots) + (if writes == 1 then {addr} else {})
            && h.nvs.kinds.Keys == InUse(h.slots) + {addr}
  {
    FreedSlots(g.slots, addr);
    var images := Images(g, Delete(addr, endpoint));
    assert |images| == 3;
    assert Written(g, Crash(Delete(addr, endpoint), writes))[writes - 1] == images[writes - 1];
  }
}
