/** The controller's Matter device list in memory: fetching, cloning and freeing linked cells
    (app_rmaker_matter_controller_api.c and app_rmaker_matter_controller.c). */
module MatterList {
  import opened MatterNodes

  class MatterDevice {
    const info: Info
    var next: MatterDevice?

    constructor (info: Info, next: MatterDevice?)
      ensures this.info == info && this.next == next
    {
      this.info, this.next := info, next;
    }
  }

  ghost function At(cells: seq<MatterDevice>, i: nat): MatterDevice? {
    if i < |cells| then cells[i] else null
  }

  /** From head on, the list consists of the cells, which hold the infos. */
  ghost predicate IsList(head: MatterDevice?, cells: seq<MatterDevice>, infos: seq<Info>)
    reads cells
  {
    && head == At(cells, 0)
    && (forall i {:trigger cells[i].next} :: 0 <= i < |cells| ==> cells[i].next == At(cells, i + 1))
    && (forall i, j :: 0 <= i < j < |cells| ==> cells[i] != cells[j])
    && |infos| == |cells| && forall i :: 0 <= i < |cells| ==> cells[i].info == infos[i]
  }

  ghost function CellSet(cells: seq<MatterDevice>): set<MatterDevice> { set c | c in cells }

  class Controller {
    var devList: MatterDevice?
    // The cells of devList with what they hold, and all cells that are allocated and not yet freed.
    ghost var cells: seq<MatterDevice>
    ghost var infos: seq<Info>
    ghost var live: set<MatterDevice>

    ghost predicate Valid()
      reads this, cells
    {
      IsList(devList, cells, infos) && CellSet(cells) <= live
    }

    constructor ()
      ensures Valid() && infos == [] && live == {}
    {
      devList, cells, infos, live := null, [], [], {};
    }

    /** A new cell in front of a list. */
    method Push(info: Info, head: MatterDevice?, ghost list: seq<MatterDevice>, ghost held: seq<Info>)
      returns (cell: MatterDevice)
      requires IsList(head, list, held)
      modifies this`live
      ensures fresh(cell) && live == old(live) + {cell} && IsList(cell, [cell] + list, [info] + held)
    {
      cell := new MatterDevice(info, head);
      live := live + {cell};
    }

    /** free: a cell is freed once. */
    method Free(cell: MatterDevice)
      requires cell in live
      modifies this`live
      ensures live == old(live) - {cell}
    {
      live := live - {cell};
    }

    /** app_rmaker_free_matter_device_list: frees exactly the cells of the list, each while it is live. */
    method FreeList(head: MatterDevice?, ghost list: seq<MatterDevice>, ghost held: seq<Info>)
      requires IsList(head, list, held) && CellSet(list) <= live
      modifies this`live
      ensures live == old(live) - CellSet(list)
    {
      var devList, current := head, head;
      ghost var k := 0;
      assert list[..0] == [];
      while current != null
        invariant k <= |list| && current == devList == At(list, k)
        invariant live == old(live) - CellSet(list[..k])
        decreases |list| - k
      {
        assert list[k] !in list[..k];
        devList := devList.next;
        Free(current);
        assert list[..k + 1] == list[..k] + [list[k]];
        current := devList;
        k := k + 1;
      }
      assert list[..k] == list;
    }

    /** fetch_matter_node_list; memory: for each node, whether a cell can be allocated. A node without is
        passed over. */
    method Fetch(nodes: seq<CloudNode>, self: string, memory: seq<bool>)
      returns (head: MatterDevice?, ghost list: seq<MatterDevice>, ghost held: seq<Info>)
      requires |memory| == |nodes|
      modifies this`live
      ensures IsList(head, list, held) && fresh(CellSet(list)) && live == old(live) + CellSet(list)
      ensures held == Fetched([], Allocated(nodes, memory), self)
    {
      head, list, held := null, [], [];
      var i := 0;
      assert nodes[0..] == nodes && memory[0..] == memory;
      while i < |nodes|
        invariant i <= |nodes| && IsList(head, list, held) && fresh(CellSet(list))
        invariant live == old(live) + CellSet(list)
        invariant Fetched(held, Allocated(nodes[i..], memory[i..]), self) == Fetched([], Allocated(nodes, memory), self)
      {
        var n := nodes[i];
        NextAllocated(held, nodes, memory, i, self);
        if n.id.Some? && !IsSelf(n.id.value, self) && n.matterId.Some? && memory[i] {
          var cell := Push(InfoOf(n), head, list, held);
          assert CellSet([cell] + list) == {cell} + CellSet(list);
          head, list, held := cell, [cell] + list, [InfoOf(n)] + held;
        }
        i := i + 1;
      }
      assert nodes[i..] == [];
    }

    /** update_device_list; ok: the list and the metadata of all its devices could be fetched. Otherwise
        the list fetched so far is freed and the old one stays. */
    method UpdateDeviceList(nodes: seq<CloudNode>, self: string, memory: seq<bool>, ok: bool)
      requires Valid() && |memory| == |nodes|
      modifies this
      ensures Valid()
      ensures infos == (if ok then Fetched([], Allocated(nodes, memory), self) else old(infos))
      ensures !ok ==> devList == old(devList) && cells == old(cells) && live == old(live)
      ensures ok ==> fresh(CellSet(cells)) && live == old(live) - CellSet(old(cells)) + CellSet(cells)
    {
      var head, list, held := Fetch(nodes, self, memory);
      if !ok {
        FreeList(head, list, held);
        return;
      }
      if devList != null {
        FreeList(devList, cells, infos);
      }
      devList, cells, infos := head, list, held;
    }

    /** app_rmaker_get_matter_device_list; memory: how many cells can be allocated. The caller gets a
        fresh list, or nothing and no cell is left behind. */
    method GetDeviceList(memory: nat)
      returns (head: MatterDevice?, ghost list: seq<MatterDevice>, ghost held: seq<Info>)
      requires Valid()
      modifies this`live
      ensures Valid() && IsList(head, list, held) && fresh(CellSet(list)) && live == old(live) + CellSet(list)
      ensures held == (if memory >= |infos| then Pushed([], infos) else [])
    {
      head, list, held := null, [], [];
      var current, left := devList, memory;
      ghost var k := 0;
      assert infos[0..] == infos;
      while current != null
        invariant k <= |cells| && left == memory - k && current == At(cells, k)
        invariant IsList(head, list, held) && fresh(CellSet(list)) && live == old(live) + CellSet(list)
        invariant Pushed(held, infos[k..]) == Pushed([], infos)
        decreases |cells| - k
      {
        if left == 0 {
          FreeList(head, list, held);
          head, list, held := null, [], [];
          return;
        }
        assert infos[k] == current.info;
        NextPushed(held, infos, k);
        left := left - 1;
        var copy := Push(current.info, head, list, held);
        assert CellSet([copy] + list) == {copy} + CellSet(list);
        head, list, held := copy, [copy] + list, [current.info] + held;
        current := current.next;
        k := k + 1;
      }
      assert infos[k..] == [];
    }
  }

  /** What a caller sees: after an update, the list it gets has one entry for each kept node for which
      there was memory, in the cloud's order and with the ids of that node; and freeing it leaves the
      controller's list and no cell behind. */
  method UpdateGetFree(c: Controller, nodes: seq<CloudNode>, self: string, memory: seq<bool>, copies: nat)
    returns (ghost seen: seq<Info>)
    requires c.Valid() && |memory| == |nodes| && copies >= |KeptNodes(Allocated(nodes, memory), self)|
    modifies c
    ensures Lists(seen, KeptNodes(Allocated(nodes, memory), self))
    ensures c.Valid() && c.infos == Fetched([], Allocated(nodes, memory), self)
    ensures c.live == old(c.live) - CellSet(old(c.cells)) + CellSet(c.cells)
  {
    c.UpdateDeviceList(nodes, self, memory, true);
    FilteredBelong(Allocated(nodes, memory), self);
    FetchedIsReversed([], Allocated(nodes, memory), self);
    assert |c.infos| <= copies;
    var head, list, held := c.GetDeviceList(copies);
    CloneOfFetched(Allocated(nodes, memory), self);
    seen := held;
    c.FreeList(head, list, held);
  }
}
