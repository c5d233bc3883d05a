/** The normalisers: they turn the raw records of the EC2 describe calls into
    the report's Vpc, RouteTable, Route and Subnet values. Each one is a loop
    that appends to a fresh sequence; the functions beside them are their
    specifications. */
module Normalise {
  import opened Topology
  import opened Sequences

  /** The association entry recorded when an association names no subnet. */
  const Implicit := "implicit"

  /** The router of a route. The source assigns the gateway id, then the NAT
      gateway id, then the peering id, each overwriting the previous one, so
      the peering id takes precedence over the NAT gateway id, which takes
      precedence over the gateway id. */
  function Router(r: RawRoute): (id: string)
    ensures r.peeringId.Some? ==> id == r.peeringId.value
    ensures r.peeringId.None? && r.natGatewayId.Some? ==> id == r.natGatewayId.value
    ensures r.peeringId.None? && r.natGatewayId.None? && r.gatewayId.Some? ==> id == r.gatewayId.value
    ensures r.peeringId.None? && r.natGatewayId.None? && r.gatewayId.None? ==> id == ""
  {
    var afterGateway := if r.gatewayId.Some? then r.gatewayId.value else "";
    var afterNat := if r.natGatewayId.Some? then r.natGatewayId.value else afterGateway;
    if r.peeringId.Some? then r.peeringId.value else afterNat
  }

  /** The normalised routes: one per raw route that has a destination CIDR. */
  function Routes(raw: seq<RawRoute>): (rs: seq<Route>)
    ensures |rs| <= |raw|
  {
    if raw == [] then []
    else
      var last := raw[|raw| - 1];
      Routes(raw[..|raw| - 1])
        + (if last.destination.Some? then [Route(last.destination.value, Router(last))] else [])
  }

  /** The positions of the raw routes that have a destination CIDR: each a
      position of such a route, in strictly ascending order. */
  function DestinationIndices(raw: seq<RawRoute>): (idx: seq<nat>)
    ensures forall k :: 0 <= k < |idx| ==> idx[k] < |raw| && raw[idx[k]].destination.Some?
    ensures forall k, l :: 0 <= k < l < |idx| ==> idx[k] < idx[l]
  {
    if raw == [] then []
    else
      var n := |raw| - 1;
      assert forall i :: 0 <= i < n ==> raw[..n][i] == raw[i];
      DestinationIndices(raw[..n]) + (if raw[n].destination.Some? then [n] else [])
  }

  /** Every position with a destination CIDR is listed by DestinationIndices. */
  lemma {:induction false} DestinationIndicesComplete(raw: seq<RawRoute>)
    ensures forall i :: 0 <= i < |raw| && raw[i].destination.Some? ==> i in DestinationIndices(raw)
  {
    if raw != [] {
      var n := |raw| - 1;
      DestinationIndicesComplete(raw[..n]);
      assert forall i :: 0 <= i < n ==> raw[..n][i] == raw[i];
    }
  }

  /** Route normalisation keeps exactly the raw routes that have a destination
      CIDR, in their original order: the k-th normalised route is built from
      the raw route at the k-th such position, with its destination and its
      router. */
  lemma {:induction false} RoutesKeepDestinationsInOrder(raw: seq<RawRoute>)
    ensures |Routes(raw)| == |DestinationIndices(raw)|
    ensures forall k :: 0 <= k < |Routes(raw)| ==>
      var r := raw[DestinationIndices(raw)[k]];
      Routes(raw)[k] == Route(r.destination.value, Router(r))
  {
    if raw != [] {
      var n := |raw| - 1;
      var init := raw[..n];
      RoutesKeepDestinationsInOrder(init);
      var idx, idx0 := DestinationIndices(raw), DestinationIndices(init);
      var rs, rs0 := Routes(raw), Routes(init);
      forall k | 0 <= k < |rs0|
        ensures rs[k] == Route(raw[idx[k]].destination.value, Router(raw[idx[k]]))
      {
        assert rs[k] == rs0[k] && idx[k] == idx0[k];
        assert raw[idx0[k]] == init[idx0[k]];
      }
    }
  }

  /** Normalises the routes of one route table, skipping those without a
      destination CIDR. */
  method ParseRoutes(raw: seq<RawRoute>) returns (rs: seq<Route>)
    ensures rs == Routes(raw)
  {
    rs := [];
    var i := 0;
    while i < |raw|
      invariant 0 <= i <= |raw|
      invariant rs == Routes(raw[..i])
    {
      assert raw[..i + 1][..i] == raw[..i];
      var r := raw[i];
      if r.destination.Some? {
        rs := rs + [Route(r.destination.value, Router(r))];
      }
      i := i + 1;
    }
    assert raw[..i] == raw;
  }

  /** The association list entry: the subnet id, or "implicit" when there is none. */
  function AssociationSubnet(a: RawAssociation): string
  {
    if a.subnetId.Some? then a.subnetId.value else Implicit
  }

  /** Normalises the associations of one route table: one entry per
      association, in order. */
  method ParseAssociations(raw: seq<RawAssociation>) returns (ids: seq<string>)
    ensures |ids| == |raw|
    ensures forall i :: 0 <= i < |raw| ==>
      ids[i] == (if raw[i].subnetId.Some? then raw[i].subnetId.value else Implicit)
  {
    ids := [];
    var i := 0;
    while i < |raw|
      invariant 0 <= i <= |raw|
      invariant |ids| == i
      invariant forall k :: 0 <= k < i ==> ids[k] == AssociationSubnet(raw[k])
    {
      if raw[i].subnetId.Some? {
        ids := ids + [raw[i].subnetId.value];
      } else {
        ids := ids + [Implicit];
      }
      i := i + 1;
    }
  }

  function RouteTableOf(r: RawRouteTable): RouteTable
  {
    RouteTable(r.routeTableId, r.tagName, Routes(r.routes), Map(AssociationSubnet, r.associations))
  }

  /** Normalises a route-table listing: one route table per raw record, in order. */
  method ParseRouteTables(raw: seq<RawRouteTable>) returns (rts: seq<RouteTable>)
    ensures |rts| == |raw|
    ensures forall i :: 0 <= i < |raw| ==> rts[i] == RouteTableOf(raw[i])
  {
    rts := [];
    var i := 0;
    while i < |raw|
      invariant 0 <= i <= |raw|
      invariant |rts| == i
      invariant forall k :: 0 <= k < i ==> rts[k] == RouteTableOf(raw[k])
    {
      var v := raw[i];
      var rs := ParseRoutes(v.routes);
      var ids := ParseAssociations(v.associations);
      assert ids == Map(AssociationSubnet, v.associations);
      rts := rts + [RouteTable(v.routeTableId, v.tagName, rs, ids)];
      i := i + 1;
    }
  }

  function CidrBlock(a: RawCidrAssociation): string
  {
    a.cidrBlock
  }

  function VpcOf(r: RawVpc): Vpc
  {
    Vpc(r.vpcId, r.tagName, r.cidrBlock, Map(CidrBlock, r.cidrAssociations), [], [])
  }

  /** Normalises a VPC listing: one VPC per raw record, in order, whose
      associated CIDR blocks are those of its associations, in order, and
      which has no route tables and no subnets yet. */
  method ParseVpcs(raw: seq<RawVpc>) returns (vs: seq<Vpc>)
    ensures |vs| == |raw|
    ensures forall i :: 0 <= i < |raw| ==> vs[i] == VpcOf(raw[i])
    ensures forall i :: 0 <= i < |raw| ==>
      vs[i].id == raw[i].vpcId && vs[i].cidrBlock == raw[i].cidrBlock
      && |vs[i].associatedCidrBlocks| == |raw[i].cidrAssociations|
      && vs[i].routeTables == [] && vs[i].subnets == []
    ensures forall i, j :: 0 <= i < |raw| && 0 <= j < |raw[i].cidrAssociations| ==>
      vs[i].associatedCidrBlocks[j] == raw[i].cidrAssociations[j].cidrBlock
  {
    vs := [];
    var i := 0;
    while i < |raw|
      invariant 0 <= i <= |raw|
      invariant |vs| == i
      invariant forall k :: 0 <= k < i ==> vs[k] == VpcOf(raw[k])
    {
      var v := raw[i];
      var acbs: seq<string> := [];
      var j := 0;
      while j < |v.cidrAssociations|
        invariant 0 <= j <= |v.cidrAssociations|
        invariant |acbs| == j
        invariant forall k :: 0 <= k < j ==> acbs[k] == v.cidrAssociations[k].cidrBlock
      {
        acbs := acbs + [v.cidrAssociations[j].cidrBlock];
        j := j + 1;
      }
      assert acbs == Map(CidrBlock, v.cidrAssociations);
      vs := vs + [Vpc(v.vpcId, v.tagName, v.cidrBlock, acbs, [], [])];
      i := i + 1;
    }
  }

  function SubnetOf(r: RawSubnet): Subnet
  {
    Subnet(r.subnetId, r.tagName, r.cidrBlock, None)
  }

  /** Normalises a subnet listing: one subnet per raw record, in order, none
      of them associated with a route table yet. */
  method ParseSubnets(raw: seq<RawSubnet>) returns (ss: seq<Subnet>)
    ensures |ss| == |raw|
    ensures forall i :: 0 <= i < |raw| ==>
      ss[i].id == raw[i].subnetId && ss[i].tagName == raw[i].tagName
      && ss[i].cidrBlock == raw[i].cidrBlock && ss[i].routeTable == None
  {
    ss := [];
    var i := 0;
    while i < |raw|
      invariant 0 <= i <= |raw|
      invariant |ss| == i
      invariant forall k :: 0 <= k < i ==> ss[k] == SubnetOf(raw[k])
    {
      var v := raw[i];
      ss := ss + [Subnet(v.subnetId, v.tagName, v.cidrBlock, None)];
      i := i + 1;
    }
  }
}
