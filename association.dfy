/** Association of subnets with route tables: a subnet is associated with the
    last route table of its own VPC whose association list names it. */
module Association {
  import opened Topology
  import opened Sequences

  /** The index of the last route table whose association list names `id`. */
  function LastMatch(rts: seq<RouteTable>, id: string): (m: Option<nat>)
    ensures m.Some? ==> m.value < |rts| && id in rts[m.value].associationSubnets
  {
    if rts == [] then None
    else if id in rts[|rts| - 1].associationSubnets then Some(|rts| - 1)
    else LastMatch(rts[..|rts| - 1], id)
  }

  /** LastMatch finds the last naming table, and finds none exactly when no
      table names the subnet. */
  lemma {:induction false} LastMatchIsLast(rts: seq<RouteTable>, id: string)
    ensures LastMatch(rts, id).Some? ==>
      forall k :: LastMatch(rts, id).value < k < |rts| ==> id !in rts[k].associationSubnets
    ensures LastMatch(rts, id).None? <==>
      forall k :: 0 <= k < |rts| ==> id !in rts[k].associationSubnets
  {
    if rts != [] {
      var n := |rts| - 1;
      LastMatchIsLast(rts[..n], id);
      assert forall k :: 0 <= k < n ==> rts[..n][k] == rts[k];
    }
  }

  /** Every non-nil back-reference of the VPC's subnets names one of its own
      route tables. */
  predicate Closed(v: Vpc)
  {
    forall s :: 0 <= s < |v.subnets| && v.subnets[s].routeTable.Some? ==>
      v.subnets[s].routeTable.value < |v.routeTables|
  }

  /** The subnet after association: the last naming table if there is one,
      otherwise its back-reference as it was. */
  function Resolve(rts: seq<RouteTable>, sn: Subnet): Subnet
  {
    var m := LastMatch(rts, sn.id);
    sn.(routeTable := if m.Some? then m else sn.routeTable)
  }

  /** A VPC after association. Only the subnets' back-references change, and
      only to tables of this VPC: when every back-reference pointed into this
      VPC's tables (or was nil) before, every one does after. */
  function AssociateVpc(v: Vpc): (r: Vpc)
    ensures r.(subnets := v.subnets) == v
    ensures |r.subnets| == |v.subnets|
    ensures forall s :: 0 <= s < |v.subnets| ==>
      r.subnets[s] == v.subnets[s].(routeTable := r.subnets[s].routeTable)
    ensures Closed(v) ==> Closed(r)
  {
    v.(subnets := Map((sn: Subnet) => Resolve(v.routeTables, sn), v.subnets))
  }
}
