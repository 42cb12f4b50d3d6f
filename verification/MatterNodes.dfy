/** Which cloud nodes end up in the Matter device list, and in which order
    (app_rmaker_matter_controller_api.c and app_rmaker_matter_controller.c). */
module MatterNodes {
  import opened Basics

  const NODE_ID_MAX_LEN := 36

  /** An entry of node_details: its id and its Matter node id, where present. */
  datatype CloudNode = CloudNode(id: Option<string>, matterId: Option<string>)
  datatype Info = Info(nodeId: string, matterId: string)

  /** strncmp over the length of self: an id that starts with it counts as self. */
  predicate IsSelf(id: string, self: string) { |self| <= |id| && id[..|self|] == self }

  predicate Kept(n: CloudNode, self: string) {
    n.id.Some? && !IsSelf(n.id.value, self) && n.matterId.Some?
  }

  function InfoOf(n: CloudNode): Info
    requires n.id.Some? && n.matterId.Some?
  {
    Info(if |n.id.value| < NODE_ID_MAX_LEN then n.id.value else n.id.value[..NODE_ID_MAX_LEN - 1], n.matterId.value)
  }

  /** An entry for the node: its Matter id is the node's, and its node id is the node's id, cut off at 35
      characters. */
  predicate Belongs(info: Info, n: CloudNode) {
    && n.id.Some? && n.matterId == Some(info.matterId)
    && info.nodeId <= n.id.value && |info.nodeId| == if |n.id.value| < 36 then |n.id.value| else 35
  }

  /** The kept nodes in the cloud's order: the complete ones whose id does not start with the own one. */
  function KeptNodes(nodes: seq<CloudNode>, self: string): seq<CloudNode> {
    if nodes == [] then []
    else
      var n := nodes[0];
      (if n.id.Some? && n.matterId.Some? && !(self <= n.id.value) then [n] else []) + KeptNodes(nodes[1..], self)
  }

  /** One entry for each of the nodes, in their order. */
  ghost predicate Lists(infos: seq<Info>, nodes: seq<CloudNode>) {
    |infos| == |nodes| && forall j :: 0 <= j < |infos| ==> Belongs(infos[j], nodes[j])
  }

  /** The infos that are pushed, in the cloud's order. */
  function Filtered(nodes: seq<CloudNode>, self: string): seq<Info> {
    if nodes == [] then []
    else (if Kept(nodes[0], self) then [InfoOf(nodes[0])] else []) + Filtered(nodes[1..], self)
  }

  /** The nodes without those for which memory says that no cell can be allocated. */
  function Allocated(nodes: seq<CloudNode>, memory: seq<bool>): seq<CloudNode>
    requires |memory| == |nodes|
  {
    if nodes == [] then []
    else (if memory[0] then [nodes[0]] else []) + Allocated(nodes[1..], memory[1..])
  }

  /** A list after pushing each of the items at its head in turn. */
  function Pushed(list: seq<Info>, items: seq<Info>): seq<Info>
    decreases |items|
  {
    if items == [] then list else Pushed([items[0]] + list, items[1..])
  }

  /** The list that fetching leaves: every kept node is pushed at the head. */
  function Fetched(list: seq<Info>, nodes: seq<CloudNode>, self: string): seq<Info>
    decreases |nodes|
  {
    if nodes == [] then list
    else Fetched(if Kept(nodes[0], self) then [InfoOf(nodes[0])] + list else list, nodes[1..], self)
  }

  lemma {:induction false} ReversedCons(s: seq<Info>, list: seq<Info>)
    requires s != []
    ensures Reversed(s) + list == Reversed(s[1..]) + ([s[0]] + list)
  {
  }

  lemma {:induction false} PushedIsReversed(list: seq<Info>, items: seq<Info>)
    ensures Pushed(list, items) == Reversed(items) + list
    decreases |items|
  {
    if items == [] {
      assert Reversed(items) + list == list;
    } else {
      PushedIsReversed([items[0]] + list, items[1..]);
      ReversedCons(items, list);
    }
  }

  /** One turn of the cloning loop. */
  lemma {:induction false} NextPushed(list: seq<Info>, items: seq<Info>, k: nat)
    requires k < |items|
    ensures Pushed(list, items[k..]) == Pushed([items[k]] + list, items[k + 1..])
  {
    assert items[k..][1..] == items[k + 1..];
  }

  lemma {:induction false} ReversedTwice(s: seq<Info>)
    ensures Reversed(Reversed(s)) == s
  {
  }

  lemma {:induction false} FetchedIsReversed(list: seq<Info>, nodes: seq<CloudNode>, self: string)
    ensures Fetched(list, nodes, self) == Reversed(Filtered(nodes, self)) + list
    decreases |nodes|
  {
    if nodes == [] {
      assert Reversed(Filtered(nodes, self)) + list == list;
    } else if Kept(nodes[0], self) {
      FetchedIsReversed([InfoOf(nodes[0])] + list, nodes[1..], self);
      assert Filtered(nodes, self)[1..] == Filtered(nodes[1..], self);
      ReversedCons(Filtered(nodes, self), list);
    } else {
      FetchedIsReversed(list, nodes[1..], self);
      assert Filtered(nodes, self) == Filtered(nodes[1..], self);
    }
  }

  lemma {:induction false} FilteredBelong(nodes: seq<CloudNode>, self: string)
    ensures Lists(Filtered(nodes, self), KeptNodes(nodes, self))
  {
    if nodes == [] {
    } else {
      FilteredBelong(nodes[1..], self);
      assert Kept(nodes[0], self) ==> Belongs(InfoOf(nodes[0]), nodes[0]);
    }
  }

  /** Double reversal: fetching pushes at the head and so does cloning, so that a caller gets the kept
      nodes in the cloud's order, each entry with the ids of its node. */
  lemma {:induction false} CloneOfFetched(nodes: seq<CloudNode>, self: string)
    ensures Pushed([], Fetched([], nodes, self)) == Filtered(nodes, self)
    ensures Lists(Pushed([], Fetched([], nodes, self)), KeptNodes(nodes, self))
  {
    FetchedIsReversed([], nodes, self);
    PushedIsReversed([], Fetched([], nodes, self));
    assert Reversed(Filtered(nodes, self)) + [] == Reversed(Filtered(nodes, self));
    ReversedTwice(Filtered(nodes, self));
    FilteredBelong(nodes, self);
  }

  /** A node is left out exactly when one of its ids is missing or its id starts with the own one, not only
      when it is the own one. */
  lemma {:induction false} LeftOutIff(n: CloudNode, self: string)
    ensures Fetched([], [n], self) == [] <==>
            n.id.None? || n.matterId.None? || exists rest :: n.id.value == self + rest
  {
    assert Fetched([], [n], self) == if Kept(n, self) then [InfoOf(n)] else [];
    if n.id.Some? {
      if IsSelf(n.id.value, self) {
        assert n.id.value == self + n.id.value[|self|..];
      }
      if rest :| n.id.value == self + rest {
        assert n.id.value[..|self|] == self;
      }
    }
  }

  lemma {:induction false} AllAllocated(nodes: seq<CloudNode>, memory: seq<bool>)
    requires |memory| == |nodes| && forall i :: 0 <= i < |nodes| ==> memory[i]
    ensures Allocated(nodes, memory) == nodes
  {
    if nodes == [] {
    } else {
      AllAllocated(nodes[1..], memory[1..]);
      assert nodes == [nodes[0]] + nodes[1..];
    }
  }

  lemma {:induction false} AllocatedSplits(nodes: seq<CloudNode>, memory: seq<bool>, k: nat)
    requires |memory| == |nodes| && k <= |nodes|
    ensures Allocated(nodes, memory) == Allocated(nodes[..k], memory[..k]) + Allocated(nodes[k..], memory[k..])
  {
    if k == 0 {
      assert nodes[0..] == nodes && memory[0..] == memory;
    } else {
      AllocatedSplits(nodes[1..], memory[1..], k - 1);
      assert nodes[..k][1..] == nodes[1..][..k - 1] && memory[..k][1..] == memory[1..][..k - 1];
      assert nodes[1..][k - 1..] == nodes[k..] && memory[1..][k - 1..] == memory[k..];
    }
  }

  /** A node for which no cell can be allocated is passed over, and all others are there. */
  lemma {:induction false} FailedAllocation(nodes: seq<CloudNode>, memory: seq<bool>, k: nat)
    requires |memory| == |nodes| && k < |nodes| && forall i :: 0 <= i < |nodes| ==> memory[i] == (i != k)
    ensures Allocated(nodes, memory) == nodes[..k] + nodes[k + 1..]
  {
    AllocatedSplits(nodes, memory, k);
    AllAllocated(nodes[..k], memory[..k]);
    AllAllocated(nodes[k + 1..], memory[k + 1..]);
    assert nodes[k..][1..] == nodes[k + 1..] && memory[k..][1..] == memory[k + 1..];
    assert Allocated(nodes[k..], memory[k..]) == Allocated(nodes[k + 1..], memory[k + 1..]);
  }

  /** One turn of the fetching loop. */
  lemma {:induction false} NextAllocated(list: seq<Info>, nodes: seq<CloudNode>, memory: seq<bool>, i: nat,
                                             self: string)
    requires |memory| == |nodes| && i < |nodes|
    ensures Fetched(list, Allocated(nodes[i..], memory[i..]), self) ==
            Fetched(if Kept(nodes[i], self) && memory[i] then [InfoOf(nodes[i])] + list else list,
                    Allocated(nodes[i + 1..], memory[i + 1..]), self)
  {
    var rest := Allocated(nodes[i + 1..], memory[i + 1..]);
    assert nodes[i..][1..] == nodes[i + 1..] && memory[i..][1..] == memory[i + 1..];
    if memory[i] {
      assert ([nodes[i]] + rest)[1..] == rest;
    } else {
      assert Allocated(nodes[i..], memory[i..]) == rest;
    }
  }
}
