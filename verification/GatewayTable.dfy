/** The Zigbee gateway's device table on values: what a join, a delete and a restart do to the device
    list, the 16 address slots, the counter and the NVS partition (esp_app_rainmaker.c). */
module GatewayTable {
  import opened Basics

  const MAX_DEVICES := 16
  // A slot with this address is free.
  const NO_ADDR: Addr := 0xfffe

  type Addr = x: int | 0 <= x < 0x1_0000
  type Endpoint = x: int | 0 <= x < 0x100
  type DeviceType = x: int | 0 <= x < 0x1_0000

  datatype Device = Device(addr: Addr, endpoint: Endpoint, kind: DeviceType)

  /** The partition: the keys "ep_<addr>" and "type_<addr>", and the key "addr" with the slots. */
  datatype Nvs = Nvs(endpoints: map<Addr, Endpoint>, kinds: map<Addr, DeviceType>, addrs: Option<seq<Addr>>)

  datatype Gateway = Gateway(list: seq<Device>, slots: seq<Addr>, count: nat, nvs: Nvs)

  // ---- Lookups ----

  /** The first position of a in slots, or their number. */
  function Find(slots: seq<Addr>, a: Addr): (i: nat)
    ensures i <= |slots| && (i < |slots| ==> slots[i] == a)
    ensures forall j :: 0 <= j < i ==> slots[j] != a
  {
    if slots == [] || slots[0] == a then 0 else 1 + Find(slots[1..], a)
  }

  function FindDevice(list: seq<Device>, addr: Addr, endpoint: Endpoint): (i: nat)
    ensures i <= |list| && (i < |list| ==> list[i].addr == addr && list[i].endpoint == endpoint)
    ensures forall j :: 0 <= j < i ==> !(list[j].addr == addr && list[j].endpoint == endpoint)
  {
    if list == [] || (list[0].addr == addr && list[0].endpoint == endpoint) then 0
    else 1 + FindDevice(list[1..], addr, endpoint)
  }

  predicate HasFree(slots: seq<Addr>) { Find(slots, NO_ADDR) < |slots| }

  /** The slots with addr in the first free one. */
  function Filled(slots: seq<Addr>, addr: Addr): seq<Addr>
    requires HasFree(slots)
  {
    slots[Find(slots, NO_ADDR) := addr]
  }

  /** The slots with the first entry for addr, if any, freed. */
  function Freed(slots: seq<Addr>, addr: Addr): seq<Addr> {
    if Find(slots, addr) < |slots| then slots[Find(slots, addr) := NO_ADDR] else slots
  }

  function Without(list: seq<Device>, k: nat): (r: seq<Device>)
    requires k < |list|
    ensures |r| == |list| - 1 && forall i :: 0 <= i < |r| ==> r[i] == list[if i < k then i else i + 1]
  {
    list[..k] + list[k + 1..]
  }

  // ---- NVS: every function here lists the images after each single write ----

  function InfoWrites(nvs: Nvs, d: Device): seq<Nvs> {
    var one := nvs.(endpoints := nvs.endpoints[d.addr := d.endpoint]);
    [one, one.(kinds := nvs.kinds[d.addr := d.kind])]
  }

  function TableWrite(nvs: Nvs, slots: seq<Addr>): Nvs { nvs.(addrs := Some(slots)) }

  function InfoErasures(nvs: Nvs, addr: Addr): seq<Nvs> {
    var one := nvs.(endpoints := nvs.endpoints - {addr});
    [one, one.(kinds := nvs.kinds - {addr})]
  }

  // ---- The operations ----

  /** The images that adding a device to the storage goes through: none if no slot is free. */
  function AddImages(g: Gateway, d: Device): seq<Nvs> {
    if !HasFree(g.slots) then []
    else
      var info := InfoWrites(g.nvs, d);
      info + [TableWrite(info[1], Filled(g.slots, d.addr))]
  }

  /** A device added with storage. The list node is linked before the slots are searched. */
  function Added(g: Gateway, d: Device): Gateway {
    if !HasFree(g.slots) then g.(list := [d] + g.list)
    else Gateway([d] + g.list, Filled(g.slots, d.addr), (g.count + 1) % 256, AddImages(g, d)[2])
  }

  datatype Op = Join(device: Device) | Delete(addr: Addr, endpoint: Endpoint)

  /** The NVS images an operation goes through, one per write, the last one final. */
  function Images(g: Gateway, op: Op): seq<Nvs> {
    match op
    case Join(d) =>
      if FindDevice(g.list, d.addr, d.endpoint) < |g.list| then [] else AddImages(g, d)
    case Delete(addr, endpoint) =>
      if FindDevice(g.list, addr, endpoint) == |g.list| then []
      else
        var table := TableWrite(g.nvs, Freed(g.slots, addr));
        [table] + InfoErasures(table, addr)
  }

  function FinalImage(g: Gateway, op: Op): Nvs {
    var images := Images(g, op);
    if images == [] then g.nvs else images[|images| - 1]
  }

  function Apply(g: Gateway, op: Op): Gateway {
    match op
    case Join(d) =>
      if FindDevice(g.list, d.addr, d.endpoint) < |g.list| then g else Added(g, d)
    case Delete(addr, endpoint) =>
      var i := FindDevice(g.list, addr, endpoint);
      if i == |g.list| then g
      else Gateway(Without(g.list, i), Freed(g.slots, addr), (g.count + 255) % 256, FinalImage(g, op))
  }

  // ---- Restart: RAM is lost, then resume_device reads the partition ----

  function StoredSlots(nvs: Nvs): seq<Addr> {
    if nvs.addrs.Some? then nvs.addrs.value else seq(MAX_DEVICES, _ => NO_ADDR)
  }

  predicate HasInfo(nvs: Nvs, addr: Addr) { addr in nvs.endpoints && addr in nvs.kinds }

  function StoredDevice(nvs: Nvs, addr: Addr): Device
    requires HasInfo(nvs, addr)
  {
    Device(addr, nvs.endpoints[addr], nvs.kinds[addr])
  }

  /** The list after the first n slots have been resumed. */
  function Resumed(nvs: Nvs, slots: seq<Addr>, n: nat): (list: seq<Device>)
    requires n <= |slots|
    ensures |list| <= n
  {
    if n == 0 then []
    else
      var rest := Resumed(nvs, slots, n - 1);
      if slots[n - 1] != NO_ADDR && HasInfo(nvs, slots[n - 1])
      then [StoredDevice(nvs, slots[n - 1])] + rest
      else rest
  }

  function Recover(nvs: Nvs): Gateway {
    var slots := StoredSlots(nvs);
    var list := Resumed(nvs, slots, |slots|);
    Gateway(list, slots, |list| % 256, nvs)
  }

  // ---- What should hold ----

  function InUse(slots: seq<Addr>): set<Addr> { set a | a in slots && a != NO_ADDR }

  function Addrs(list: seq<Device>): set<Addr> { set d | d in list :: d.addr }

  function Used(slots: seq<Addr>): (n: nat)
    ensures n <= |slots|
  {
    if slots == [] then 0 else (if slots[0] == NO_ADDR then 0 else 1) + Used(slots[1..])
  }

  ghost predicate DistinctSlots(slots: seq<Addr>) {
    forall i, j :: 0 <= i < j < |slots| && slots[i] != NO_ADDR ==> slots[i] != slots[j]
  }

  ghost predicate DistinctList(list: seq<Device>) {
    forall i, j :: 0 <= i < j < |list| ==> list[i].addr != list[j].addr
  }

  /** Every address of the stored table has both its keys. */
  ghost predicate Consistent(nvs: Nvs) {
    forall a :: a in InUse(StoredSlots(nvs)) ==> HasInfo(nvs, a)
  }

  /** The devices the partition stands for. */
  ghost function Stored(nvs: Nvs): set<Device>
    requires Consistent(nvs)
  {
    set a | a in InUse(StoredSlots(nvs)) :: StoredDevice(nvs, a)
  }

  ghost predicate WellFormed(nvs: Nvs) {
    |StoredSlots(nvs)| == MAX_DEVICES && DistinctSlots(StoredSlots(nvs)) && Consistent(nvs)
  }

  /** What holds with one endpoint per short address, even beyond the capacity of the table. */
  ghost predicate Sound(g: Gateway) {
    && WellFormed(g.nvs) && g.slots == StoredSlots(g.nvs)
    && DistinctList(g.list) && InUse(g.slots) <= Addrs(g.list) && NO_ADDR !in Addrs(g.list)
  }

  /** Full agreement of list, slots, counter and partition. */
  ghost predicate Agree(g: Gateway) {
    && Sound(g)
    && Addrs(g.list) == InUse(g.slots)
    && g.count == Used(g.slots) == |g.list|
    && forall d :: d in g.list ==> d == StoredDevice(g.nvs, d.addr)
  }

  /** The precondition of every operation: a join does not bring a second endpoint for an address in
      the list, and does not use the reserved address. */
  ghost predicate OneEndpoint(g: Gateway, op: Op) {
    op.Join? ==>
      && op.device.addr != NO_ADDR
      && (op.device.addr in Addrs(g.list) ==> FindDevice(g.list, op.device.addr, op.device.endpoint) < |g.list|)
  }

  // ---- Runs with crashes ----

  /** Do: an operation. Crash: an operation cut off after its first writes, then a restart. */
  datatype Event = Do(op: Op) | Crash(op: Op, writes: nat)

  function Written(g: Gateway, e: Event): seq<Nvs> {
    var images := Images(g, e.op);
    if e.Crash? && e.writes < |images| then images[..e.writes] else images
  }

  function After(g: Gateway, e: Event): Gateway {
    if e.Do? then Apply(g, e.op)
    else
      var written := Written(g, e);
      Recover(if written == [] then g.nvs else written[|written| - 1])
  }

  function RunAll(g: Gateway, events: seq<Event>): Gateway
    decreases |events|
  {
    if events == [] then g else RunAll(After(g, events[0]), events[1..])
  }

  /** Every NVS image a run goes through. */
  function History(g: Gateway, events: seq<Event>): seq<Nvs>
    decreases |events|
  {
    if events == [] then [] else Written(g, events[0]) + History(After(g, events[0]), events[1..])
  }

  ghost predicate Allowed(g: Gateway, events: seq<Event>)
    decreases |events|
  {
    events != [] ==> OneEndpoint(g, events[0].op) && Allowed(After(g, events[0]), events[1..])
  }
}
