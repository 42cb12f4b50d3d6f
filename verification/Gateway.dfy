/** The gateway's device table as the source keeps it: a linked list of end devices, an array of slots,
    a counter, and writes to NVS one key at a time (esp_app_rainmaker.c). */
module GatewayApp {
  import opened Basics
  import opened GatewayTable

  class EndDevice {
    const info: Device
    var next: EndDevice?

    constructor (info: Device, next: EndDevice?)
      ensures this.info == info && this.next == next
    {
      this.info, this.next := info, next;
    }
  }

  class Zigbee {
    const deviceAddrs: array<Addr>
    var deviceCount: nat
    var endDeviceList: EndDevice?
    var nvs: Nvs
    // The list cells in order with what they hold, and every image NVS has gone through.
    ghost var cells: seq<EndDevice>
    ghost var listed: seq<Device>
    ghost var images: seq<Nvs>

    ghost predicate Valid()
      reads this, deviceAddrs, cells
    {
      && deviceAddrs.Length == MAX_DEVICES
      && endDeviceList == CellAt(0)
      && (forall i {:trigger cells[i].next} :: 0 <= i < |cells| ==> cells[i].next == CellAt(i + 1))
      && (forall i, j :: 0 <= i < j < |cells| ==> cells[i] != cells[j])
      && |listed| == |cells| && (forall i :: 0 <= i < |cells| ==> cells[i].info == listed[i])
    }

    ghost function CellAt(i: nat): EndDevice?
      reads this
    {
      if i < |cells| then cells[i] else null
    }

    ghost function View(): Gateway
      reads this, deviceAddrs
    {
      Gateway(listed, deviceAddrs[..], deviceCount, nvs)
    }

    /** After a restart: RAM is zero, the slots are marked free, NVS is what it was. */
    constructor (nvs: Nvs)
      ensures Valid() && fresh(deviceAddrs)
      ensures View() == Gateway([], seq(MAX_DEVICES, _ => NO_ADDR), 0, nvs)
      ensures images == []
    {
      deviceAddrs := new Addr[MAX_DEVICES](_ => NO_ADDR);
      deviceCount := 0;
      endDeviceList := null;
      this.nvs := nvs;
      cells, listed, images := [], [], [];
      new;
      assert deviceAddrs[..] == seq(MAX_DEVICES, _ => NO_ADDR);
    }

    method StoreDeviceInfo(d: Device)
      modifies this`nvs, this`images
      ensures nvs == InfoWrites(old(nvs), d)[1]
      ensures images == old(images) + InfoWrites(old(nvs), d)
    {
      nvs := nvs.(endpoints := nvs.endpoints[d.addr := d.endpoint]);
      images := images + [nvs];
      nvs := nvs.(kinds := nvs.kinds[d.addr := d.kind]);
      images := images + [nvs];
    }

    method RemoveDeviceInfo(addr: Addr)
      modifies this`nvs, this`images
      ensures nvs == InfoErasures(old(nvs), addr)[1]
      ensures images == old(images) + InfoErasures(old(nvs), addr)
    {
      nvs := nvs.(endpoints := nvs.endpoints - {addr});
      images := images + [nvs];
      nvs := nvs.(kinds := nvs.kinds - {addr});
      images := images + [nvs];
    }

    method StoreDeviceAddrs()
      modifies this`nvs, this`images
      ensures nvs == TableWrite(old(nvs), deviceAddrs[..])
      ensures images == old(images) + [TableWrite(old(nvs), deviceAddrs[..])]
    {
      nvs := nvs.(addrs := Some(deviceAddrs[..]));
      images := images + [nvs];
    }

    /** The first slot that holds a, or the number of slots. */
    method FindSlot(a: Addr) returns (i: nat)
      ensures i == Find(deviceAddrs[..], a)
    {
      i := 0;
      while i < deviceAddrs.Length && deviceAddrs[i] != a
        invariant i <= deviceAddrs.Length && forall j :: 0 <= j < i ==> deviceAddrs[j] != a
      {
        i := i + 1;
      }
      FindIs(deviceAddrs[..], a, i);
    }

    lemma {:induction false} FindIs(slots: seq<Addr>, a: Addr, i: nat)
      requires i <= |slots| && (i < |slots| ==> slots[i] == a)
      requires forall j :: 0 <= j < i ==> slots[j] != a
      ensures Find(slots, a) == i
    {
    }

    /** Push a new cell at the head of the list. */
    method Link(d: Device)
      requires Valid()
      modifies this`endDeviceList, this`cells, this`listed
      ensures Valid() && View() == old(View()).(list := [d] + old(View().list))
      ensures |cells| == |old(cells)| + 1 && cells[1..] == old(cells) && fresh(cells[0])
    {
      var cell := new EndDevice(d, endDeviceList);
      endDeviceList := cell;
      cells, listed := [cell] + cells, [d] + listed;
    }

    /** esp_app_rainmaker_add_end_device; false stands for ESP_ERR_NO_MEM. */
    method AddEndDevice(d: Device, storage: bool) returns (ok: bool)
      requires Valid()
      modifies this, deviceAddrs
      ensures Valid() && |cells| == |old(cells)| + 1 && cells[1..] == old(cells) && fresh(cells[0])
      ensures ok == (storage ==> HasFree(old(deviceAddrs[..])))
      ensures !storage ==> View() == old(View()).(list := [d] + old(View().list)) && images == old(images)
      ensures storage ==> View() == Added(old(View()), d) && images == old(images) + AddImages(old(View()), d)
    {
      Link(d);
      ok := true;
      if storage {
        ok := StoreDevice(d);
      }
    }

    /** The storage part: a free slot, the counter, and the three writes. */
    method StoreDevice(d: Device) returns (ok: bool)
      requires deviceAddrs.Length == MAX_DEVICES
      modifies this`deviceCount, this`nvs, this`images, deviceAddrs
      ensures ok == HasFree(old(deviceAddrs[..]))
      ensures !ok ==> deviceAddrs[..] == old(deviceAddrs[..]) && nvs == old(nvs) && deviceCount == old(deviceCount)
                      && images == old(images)
      ensures ok ==>
                var info := InfoWrites(old(nvs), d);
                && deviceAddrs[..] == Filled(old(deviceAddrs[..]), d.addr)
                && nvs == TableWrite(info[1], deviceAddrs[..]) && deviceCount == (old(deviceCount) + 1) % 256
                && images == old(images) + (info + [nvs])
    {
      var i := FindSlot(NO_ADDR);
      if i == deviceAddrs.Length {
        return false;
      }
      deviceAddrs[i] := d.addr;
      deviceCount := (deviceCount + 1) % 256;
      StoreDeviceInfo(d);
      StoreDeviceAddrs();
      ok := true;
    }

    /** The first listed cell with this address and endpoint, with the one before it. */
    method Search(addr: Addr, endpoint: Endpoint) returns (pre: EndDevice?, curr: EndDevice?, ghost k: nat)
      requires Valid()
      ensures k == FindDevice(listed, addr, endpoint)
      ensures curr == CellAt(k) && pre == (if k == 0 then null else cells[k - 1])
    {
      pre, curr, k := null, endDeviceList, 0;
      while curr != null && !(curr.info.addr == addr && curr.info.endpoint == endpoint)
        invariant k <= |cells| && curr == CellAt(k) && pre == (if k == 0 then null else cells[k - 1])
        invariant forall j :: 0 <= j < k ==> !(cells[j].info.addr == addr && cells[j].info.endpoint == endpoint)
        decreases |cells| - k
      {
        pre := curr;
        curr := curr.next;
        k := k + 1;
      }
      FindDeviceIs(listed, addr, endpoint, k);
    }

    lemma {:induction false} FindDeviceIs(list: seq<Device>, addr: Addr, endpoint: Endpoint, k: nat)
      requires k <= |list| && (k < |list| ==> list[k].addr == addr && list[k].endpoint == endpoint)
      requires forall j :: 0 <= j < k ==> !(list[j].addr == addr && list[j].endpoint == endpoint)
      ensures FindDevice(list, addr, endpoint) == k
    {
    }

    /** esp_app_rainmaker_add_joining_device. */
    method AddJoiningDevice(d: Device)
      requires Valid()
      modifies this, deviceAddrs
      ensures Valid() && View() == Apply(old(View()), Join(d))
      ensures images == old(images) + Images(old(View()), Join(d))
    {
      var pre, curr, k := Search(d.addr, d.endpoint);
      if curr != null {
        return;
      }
      var ok := AddEndDevice(d, true);
    }

    /** The "Delete device" branch of zigbee_device_write_cb. hasIeee: the IEEE address is known;
        without it the callback returns ESP_ERR_NOT_FOUND. */
    method DeleteDevice(addr: Addr, endpoint: Endpoint, hasIeee: bool) returns (found: bool)
      requires Valid()
      modifies this, deviceAddrs, cells
      ensures Valid() && found == hasIeee
      ensures View() == (if hasIeee then Apply(old(View()), Delete(addr, endpoint)) else old(View()))
      ensures images == old(images) + (if hasIeee then Images(old(View()), Delete(addr, endpoint)) else [])
    {
      if !hasIeee {
        return false;
      }
      found := true;
      var pre, curr, k := Search(addr, endpoint);
      if curr != null {
        DeleteEffect(View(), addr, endpoint);
        Remove(pre, curr, addr, k);
      }
    }

    /** A listed device: slot, counter and writes, then the list. */
    method Remove(pre: EndDevice?, curr: EndDevice, addr: Addr, ghost k: nat)
      requires Valid() && k < |cells| && curr == cells[k] && pre == (if k == 0 then null else cells[k - 1])
      modifies this, deviceAddrs, cells
      ensures Valid()
      ensures var table := TableWrite(old(nvs), Freed(old(deviceAddrs[..]), addr));
              && View() == Gateway(Without(old(listed), k), Freed(old(deviceAddrs[..]), addr),
                                   (old(deviceCount) + 255) % 256, InfoErasures(table, addr)[1])
              && images == old(images) + ([table] + InfoErasures(table, addr))
    {
      ForgetDevice(addr);
      Unlink(pre, curr, k);
    }

    lemma {:induction false} DeleteEffect(g: Gateway, addr: Addr, endpoint: Endpoint)
      requires FindDevice(g.list, addr, endpoint) < |g.list|
      ensures var slots := Freed(g.slots, addr);
              var table := TableWrite(g.nvs, slots);
              && Images(g, Delete(addr, endpoint)) == [table] + InfoErasures(table, addr)
              && Apply(g, Delete(addr, endpoint)) ==
                   Gateway(Without(g.list, FindDevice(g.list, addr, endpoint)), slots, (g.count + 255) % 256,
                           InfoErasures(table, addr)[1])
    {
    }

    /** The slot, the counter and the three writes of a delete. */
    method ForgetDevice(addr: Addr)
      modifies this`deviceCount, this`nvs, this`images, deviceAddrs
      ensures deviceAddrs[..] == Freed(old(deviceAddrs[..]), addr)
      ensures deviceCount == (old(deviceCount) + 255) % 256
      ensures var table := TableWrite(old(nvs), deviceAddrs[..]);
              nvs == InfoErasures(table, addr)[1] && images == old(images) + ([table] + InfoErasures(table, addr))
    {
      FreeSlot(addr);
      deviceCount := (deviceCount + 255) % 256;
      StoreDeviceAddrs();
      RemoveDeviceInfo(addr);
    }

    method FreeSlot(addr: Addr)
      modifies deviceAddrs
      ensures deviceAddrs[..] == Freed(old(deviceAddrs[..]), addr)
    {
      var i := FindSlot(addr);
      if i < deviceAddrs.Length {
        deviceAddrs[i] := NO_ADDR;
      }
    }

    method Unlink(pre: EndDevice?, curr: EndDevice, ghost k: nat)
      requires Valid() && k < |cells| && curr == cells[k] && pre == (if k == 0 then null else cells[k - 1])
      modifies this`endDeviceList, this`cells, this`listed, cells
      ensures Valid() && listed == Without(old(listed), k)
    {
      ghost var all := cells;
      ghost var rest := seq(|all| - 1, i requires 0 <= i < |all| - 1 => if i < k then all[i] else all[i + 1]);
      if pre != null {
        pre.next := curr.next;
      } else {
        endDeviceList := curr.next;
      }
      cells, listed := rest, Without(listed, k);
    }

    /** app_gateway_read_device_addrs: without the key the slots stay as they are. */
    method ReadDeviceAddrs()
      requires nvs.addrs.Some? ==> |nvs.addrs.value| == deviceAddrs.Length
      modifies deviceAddrs
      ensures deviceAddrs[..] == if nvs.addrs.Some? then nvs.addrs.value else old(deviceAddrs[..])
    {
      if nvs.addrs.Some? {
        forall i | 0 <= i < deviceAddrs.Length {
          deviceAddrs[i] := nvs.addrs.value[i];
        }
      }
    }

    /** resume_device, from the state a restart leaves. */
    method ResumeDevice()
      requires Valid() && View() == Gateway([], seq(MAX_DEVICES, _ => NO_ADDR), 0, nvs)
      requires |StoredSlots(nvs)| == MAX_DEVICES
      modifies this, deviceAddrs
      ensures Valid() && View() == Recover(old(nvs)) && images == old(images)
    {
      ReadDeviceAddrs();
      var index := 0;
      while index < MAX_DEVICES
        invariant index <= MAX_DEVICES && Valid() && nvs == old(nvs) && images == old(images)
        invariant deviceAddrs[..] == StoredSlots(nvs)
        invariant listed == Resumed(nvs, deviceAddrs[..], index) && deviceCount == |listed|
      {
        var a := deviceAddrs[index];
        if a != NO_ADDR && a in nvs.endpoints && a in nvs.kinds {
          var ok := AddEndDevice(Device(a, nvs.endpoints[a], nvs.kinds[a]), false);
          if ok {
            deviceCount := (deviceCount + 1) % 256;
          }
        }
        index := index + 1;
      }
    }
  }
}
