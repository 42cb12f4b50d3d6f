/** A device's parameters as a list: what a sequence of additions leaves, and what the lookups find
    (esp_rmaker_device.c). */
module ParamList {
  import opened Basics

  datatype Param = Param(name: string, kind: Option<string>)

  predicate HasName(list: seq<Param>, name: string) { exists i :: 0 <= i < |list| && list[i].name == name }

  /** esp_rmaker_device_add_param: a name that is taken is refused. */
  function Add(list: seq<Param>, p: Param): seq<Param> {
    if HasName(list, p.name) then list else list + [p]
  }

  /** The list of a new device after the first n of the offered parameters. */
  function Added(offered: seq<Param>, n: nat): seq<Param>
    requires n <= |offered|
  {
    if n == 0 then [] else Add(Added(offered, n - 1), offered[n - 1])
  }

  function AddAll(offered: seq<Param>): seq<Param> { Added(offered, |offered|) }

  /** The first position from i on of a parameter with this name, or the length. */
  function NamedFrom(list: seq<Param>, name: string, i: nat): (k: nat)
    requires i <= |list|
    ensures i <= k <= |list| && (k < |list| ==> list[k].name == name)
    ensures forall j :: i <= j < k ==> list[j].name != name
    decreases |list| - i
  {
    if i == |list| || list[i].name == name then i else NamedFrom(list, name, i + 1)
  }

  function FirstNamed(list: seq<Param>, name: string): (i: nat)
    ensures i <= |list| && (i < |list| ==> list[i].name == name)
    ensures forall j :: 0 <= j < i ==> list[j].name != name
  {
    NamedFrom(list, name, 0)
  }

  function KindFrom(list: seq<Param>, kind: string, i: nat): (k: nat)
    requires i <= |list|
    ensures i <= k <= |list| && (k < |list| ==> list[k].kind == Some(kind))
    ensures forall j :: i <= j < k ==> list[j].kind != Some(kind)
    decreases |list| - i
  {
    if i == |list| || list[i].kind == Some(kind) then i else KindFrom(list, kind, i + 1)
  }

  function FirstOfKind(list: seq<Param>, kind: string): (i: nat)
    ensures i <= |list| && (i < |list| ==> list[i].kind == Some(kind))
    ensures forall j :: 0 <= j < i ==> list[j].kind != Some(kind)
  {
    KindFrom(list, kind, 0)
  }

  ghost predicate UniqueNames(list: seq<Param>) {
    forall i, j :: 0 <= i < j < |list| ==> list[i].name != list[j].name
  }

  // ---- The reference: what was offered, without those whose name was offered before ----

  function Distinct(offered: seq<Param>, n: nat): seq<Param>
    requires n <= |offered|
  {
    if n == 0 then []
    else Distinct(offered, n - 1)
         + (if FirstNamed(offered, offered[n - 1].name) == n - 1 then [offered[n - 1]] else [])
  }

  lemma {:induction false} SnocUnique(list: seq<Param>, p: Param)
    requires UniqueNames(list) && !HasName(list, p.name)
    ensures UniqueNames(list + [p]) && Add(list, p) == list + [p]
  {
  }

  lemma {:induction false} HasNameSnoc(list: seq<Param>, p: Param, name: string)
    ensures HasName(list + [p], name) <==> HasName(list, name) || p.name == name
  {
    var longer := list + [p];
    assert longer[|list|] == p;
    if HasName(list, name) {
      var i :| 0 <= i < |list| && list[i].name == name;
      assert longer[i].name == name;
    }
  }

  lemma {:induction false} NameInDistinct(offered: seq<Param>, n: nat, name: string)
    requires n <= |offered|
    ensures HasName(Distinct(offered, n), name) <==> FirstNamed(offered, name) < n
  {
    if n == 0 {
    } else {
      NameInDistinct(offered, n - 1, name);
      var before, p := Distinct(offered, n - 1), offered[n - 1];
      HasNameSnoc(before, p, name);
      assert before + [] == before;
    }
  }

  lemma {:induction false} DistinctNames(offered: seq<Param>, n: nat)
    requires n <= |offered|
    ensures UniqueNames(Distinct(offered, n))
  {
    if n == 0 {
    } else {
      DistinctNames(offered, n - 1);
      NameInDistinct(offered, n - 1, offered[n - 1].name);
    }
  }

  lemma {:induction false} AddNext(offered: seq<Param>, n: nat)
    requires n < |offered|
    ensures Add(Distinct(offered, n), offered[n]) == Distinct(offered, n + 1)
  {
    NameInDistinct(offered, n, offered[n].name);
  }

  lemma {:induction false} AddedIsDistinct(offered: seq<Param>, n: nat)
    requires n <= |offered|
    ensures Added(offered, n) == Distinct(offered, n)
  {
    if n == 0 {
    } else {
      var before := Distinct(offered, n - 1);
      assert Added(offered, n - 1) == before by {
        AddedIsDistinct(offered, n - 1);
      }
      assert Added(offered, n) == Add(before, offered[n - 1]);
      AddNext(offered, n - 1);
    }
  }

  /** Over any sequence of additions the list is what was offered, in that order, without the names
      offered before; names are unique. */
  lemma {:induction false} AddsKeepFirstOffers(offered: seq<Param>)
    ensures AddAll(offered) == Distinct(offered, |offered|)
    ensures UniqueNames(AddAll(offered))
  {
    AddedIsDistinct(offered, |offered|);
    DistinctNames(offered, |offered|);
  }

  lemma {:induction false} DistinctIndex(offered: seq<Param>, n: nat, i: nat)
    requires n <= |offered| && i < |Distinct(offered, n)|
    ensures FirstNamed(offered, Distinct(offered, n)[i].name) < n
    ensures Distinct(offered, n)[i] == offered[FirstNamed(offered, Distinct(offered, n)[i].name)]
  {
    if i < |Distinct(offered, n - 1)| {
      DistinctIndex(offered, n - 1, i);
    }
  }

  /** Lookup by name finds the first parameter ever offered under that name, and the only one listed. */
  lemma {:induction false} NameLookup(offered: seq<Param>, name: string)
    ensures var list := AddAll(offered);
            var i, k := FirstNamed(list, name), FirstNamed(offered, name);
            && (i < |list| <==> k < |offered|)
            && (i < |list| ==> list[i] == offered[k] && forall j :: 0 <= j < |list| && list[j].name == name ==> j == i)
  {
    AddsKeepFirstOffers(offered);
    NameInDistinct(offered, |offered|, name);
    var list := AddAll(offered);
    var i := FirstNamed(list, name);
    assert i < |list| <==> HasName(list, name);
    if i < |list| {
      DistinctIndex(offered, |offered|, i);
    }
  }

  lemma {:induction false} DistinctOrder(offered: seq<Param>, n: nat, i: nat, j: nat)
    requires n <= |offered| && i < j < |Distinct(offered, n)|
    ensures FirstNamed(offered, Distinct(offered, n)[i].name) < FirstNamed(offered, Distinct(offered, n)[j].name)
  {
    if j < |Distinct(offered, n - 1)| {
      DistinctOrder(offered, n - 1, i, j);
    } else {
      DistinctIndex(offered, n - 1, i);
    }
  }

  /** Lookup by type finds the one that was added earliest among those of that type. */
  lemma {:induction false} KindLookup(offered: seq<Param>, kind: string)
    ensures var list := AddAll(offered);
            var i := FirstOfKind(list, kind);
            i < |list| ==>
              && list[i].kind == Some(kind)
              && forall j :: 0 <= j < |list| && list[j].kind == Some(kind) && j != i ==>
                   FirstNamed(offered, list[i].name) < FirstNamed(offered, list[j].name)
  {
    AddsKeepFirstOffers(offered);
    var list := AddAll(offered);
    var i := FirstOfKind(list, kind);
    forall j | i < j < |list| ensures FirstNamed(offered, list[i].name) < FirstNamed(offered, list[j].name) {
      DistinctOrder(offered, |offered|, i, j);
    }
  }
}
