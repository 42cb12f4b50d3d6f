/** A device with its linked list of parameters (esp_rmaker_device.c). */
module DeviceParams {
  import opened Basics
  import opened ParamList

  datatype Err = Ok | InvalidArg

  class ParamNode {
    const info: Param
    var parent: Device?
    var next: ParamNode?

    constructor (info: Param)
      ensures this.info == info && parent == null && next == null
    {
      this.info, parent, next := info, null, null;
    }
  }

  class Device {
    var params: ParamNode?
    var paramCount: nat
    // The parameters in order.
    ghost var chain: seq<ParamNode>
    ghost var list: seq<Param>

    /** The chain from params on is acyclic, unshared, and ends; the counter is its length in a byte. */
    ghost predicate Valid()
      reads this, chain
    {
      && params == NodeAt(0)
      && (forall i {:trigger chain[i].next} :: 0 <= i < |chain| ==> chain[i].next == NodeAt(i + 1))
      && (forall i {:trigger chain[i].parent} :: 0 <= i < |chain| ==> chain[i].parent == this)
      && (forall i, j :: 0 <= i < j < |chain| ==> chain[i] != chain[j])
      && paramCount == |chain| % 256
      && |list| == |chain| && (forall i :: 0 <= i < |chain| ==> chain[i].info == list[i])
      && UniqueNames(list)
    }

    /** param_count is a byte: it is the length of the list exactly while that fits. */
    lemma {:induction false} CountIsLengthIff()
      requires Valid()
      ensures paramCount == |chain| <==> |chain| < 256
    {
    }

    ghost function NodeAt(i: nat): ParamNode?
      reads this
    {
      if i < |chain| then chain[i] else null
    }

    constructor ()
      ensures Valid() && chain == [] && list == []
    {
      params, paramCount, chain, list := null, 0, [], [];
    }

    /** The walk of an addition: to the last parameter, or to one that has the name. */
    method LastUnless(name: string) returns (p: ParamNode?, taken: bool)
      requires Valid()
      ensures taken <==> HasName(list, name)
      ensures !taken ==> p == (if chain == [] then null else chain[|chain| - 1])
    {
      p := params;
      ghost var k := 0;
      while p != null
        invariant k <= |chain| && p == (if chain == [] then null else NodeAt(k))
        invariant chain != [] ==> k < |chain|
        invariant forall j :: 0 <= j < k ==> list[j].name != name
        decreases |chain| - k
      {
        if p.info.name == name {
          assert list[k].name == name;
          return p, true;
        }
        if p.next != null {
          p := p.next;
          k := k + 1;
        } else {
          break;
        }
      }
      taken := false;
      assert chain != [] ==> k == |chain| - 1 && list[k].name != name;
    }

    /** A parameter is linked behind the last one, p, and counted. */
    method Append(param: ParamNode, p: ParamNode?)
      requires Valid() && param !in chain && param.next == null && !HasName(list, param.info.name)
      requires p == (if chain == [] then null else chain[|chain| - 1])
      modifies this, param, chain
      ensures Valid() && param.parent == this
      ensures chain == old(chain) + [param] && list == old(list) + [param.info]
    {
      ghost var before := chain;
      SnocUnique(list, param.info);
      param.parent := this;
      if p != null {
        p.next := param;
      } else {
        params := param;
      }
      paramCount := (paramCount + 1) % 256;
      chain, list := before + [param], list + [param.info];
      assert forall i :: 0 <= i < |before| ==> chain[i] == before[i];
      assert chain[|before|] == param;
    }

    /** esp_rmaker_device_add_param of a parameter that is in no list yet. */
    method AddParam(param: ParamNode?) returns (err: Err)
      requires Valid() && (param != null ==> param !in chain && param.next == null)
      modifies this, param, chain
      ensures Valid()
      ensures err == (if param == null || HasName(old(list), param.info.name) then InvalidArg else Ok)
      ensures chain == (if err.Ok? then old(chain) + [param] else old(chain))
      ensures param != null ==> list == Add(old(list), param.info)
      ensures err.Ok? ==> param.parent == this
    {
      if param == null {
        return InvalidArg;
      }
      var p, taken := LastUnless(param.info.name);
      if taken {
        return InvalidArg;
      }
      Append(param, p);
      return Ok;
    }

    /** esp_rmaker_device_get_param_by_name. */
    method GetParamByName(name: string) returns (p: ParamNode?)
      requires Valid()
      ensures p == NodeAt(FirstNamed(list, name))
    {
      p := params;
      ghost var k := 0;
      while p != null && p.info.name != name
        invariant k <= |chain| && p == NodeAt(k)
        invariant forall j :: 0 <= j < k ==> list[j].name != name
        decreases |chain| - k
      {
        p := p.next;
        k := k + 1;
      }
      assert k < |chain| ==> list[k].name == name;
      assert FirstNamed(list, name) == k;
    }

    /** esp_rmaker_device_get_param_by_type; the types that are passed on the way must be set. */
    method GetParamByType(kind: string) returns (p: ParamNode?)
      requires Valid() && forall i :: 0 <= i < FirstOfKind(list, kind) ==> list[i].kind.Some?
      ensures p == NodeAt(FirstOfKind(list, kind))
    {
      p := params;
      ghost var k := 0;
      while p != null && p.info.kind.value != kind
        invariant k <= FirstOfKind(list, kind) && p == NodeAt(k)
        invariant p != null ==> p.info.kind.Some?
        invariant forall j :: 0 <= j < k ==> list[j].kind != Some(kind)
        decreases |chain| - k
      {
        assert list[k] == p.info;
        p := p.next;
        k := k + 1;
        assert k < |chain| ==> list[k] == p.info;
      }
      assert k < |chain| ==> list[k].kind == Some(kind);
      assert FirstOfKind(list, kind) == k;
    }
  }
}
