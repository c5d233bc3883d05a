/** The Network builder: it fetches the VPCs, then every VPC's route tables,
    then every VPC's subnets, associates subnets with route tables, draws the
    report and flattens the errors it recorded on the way. A failed fetch is
    recorded and the run goes on. The cloud is an oracle: a fetch of the VPC
    list is its result, and a per-VPC fetch is a function of the VPC id. */
module Builder {
  import opened Topology
  import opened Sequences
  import Normalise
  import Association
  import Layout
  import Errors

  /** The errors of the per-VPC fetches that failed: one per failing VPC, in
      VPC order. */
  function Failures<T>(vpcs: seq<Vpc>, fetch: string -> Result<T>): (es: seq<Error>)
    ensures |es| <= |vpcs|
  {
    if vpcs == [] then []
    else
      var n := |vpcs| - 1;
      Failures(vpcs[..n], fetch) + (match fetch(vpcs[n].id) case Err(e) => [e] case Ok(_) => [])
  }

  lemma {:induction false} FailuresAppend<T>(a: seq<Vpc>, b: seq<Vpc>, fetch: string -> Result<T>)
    ensures Failures(a + b, fetch) == Failures(a, fetch) + Failures(b, fetch)
  {
    if b == [] {
      assert a + b == a;
    } else {
      var n := |b| - 1;
      assert (a + b)[..|a + b| - 1] == a + b[..n];
      FailuresAppend(a, b[..n], fetch);
    }
  }

  /** No error is recorded exactly when every fetch succeeds. */
  lemma {:induction false} FailuresNoneIffAllOk<T>(vpcs: seq<Vpc>, fetch: string -> Result<T>)
    ensures Failures(vpcs, fetch) == [] <==> forall i :: 0 <= i < |vpcs| ==> fetch(vpcs[i].id).Ok?
  {
    if vpcs != [] {
      var n := |vpcs| - 1;
      FailuresNoneIffAllOk(vpcs[..n], fetch);
      assert forall i :: 0 <= i < n ==> vpcs[..n][i] == vpcs[i];
    }
  }

  /** When the fetch fails for one VPC only, its error is recorded exactly once
      and nothing else is recorded. */
  lemma {:induction false} OneFailureRecordedOnce<T>(vpcs: seq<Vpc>, fetch: string -> Result<T>, i: nat)
    requires i < |vpcs| && fetch(vpcs[i].id).Err?
    requires forall k :: 0 <= k < |vpcs| && k != i ==> fetch(vpcs[k].id).Ok?
    ensures Failures(vpcs, fetch) == [fetch(vpcs[i].id).error]
  {
    var pre, mid, post := vpcs[..i], [vpcs[i]], vpcs[i + 1..];
    var e := fetch(vpcs[i].id).error;
    assert Failures(pre, fetch) == [] by {
      FailuresNoneIffAllOk(pre, fetch);
      assert forall k :: 0 <= k < |pre| ==> pre[k] == vpcs[k];
    }
    assert Failures(post, fetch) == [] by {
      FailuresNoneIffAllOk(post, fetch);
      assert forall k :: 0 <= k < |post| ==> post[k] == vpcs[i + 1 + k];
    }
    assert Failures(mid, fetch) == [e] by {
      assert mid[..0] == [];
    }
    calc {
      Failures(vpcs, fetch);
      { assert vpcs == pre + mid + post; }
      Failures(pre + mid + post, fetch);
      { FailuresAppend(pre + mid, post, fetch); }
      Failures(pre + mid, fetch) + Failures(post, fetch);
      { FailuresAppend(pre, mid, fetch); }
      Failures(pre, fetch) + Failures(mid, fetch) + Failures(post, fetch);
      [] + [e] + [];
      [e];
    }
  }

  /** A VPC after its route-table fetch: the normalised tables on success,
      unchanged on failure. */
  function WithRouteTables(v: Vpc, fetched: Result<seq<RawRouteTable>>): Vpc
  {
    match fetched
    case Ok(raw) => v.(routeTables := Map(Normalise.RouteTableOf, raw))
    case Err(_) => v
  }

  /** A VPC after its subnet fetch: the normalised subnets on success,
      unchanged on failure. */
  function WithSubnets(v: Vpc, fetched: Result<seq<RawSubnet>>): Vpc
  {
    match fetched
    case Ok(raw) => v.(subnets := Map(Normalise.SubnetOf, raw))
    case Err(_) => v
  }

  /** The VPCs after stage 1: the normalised list on success, the old ones on
      failure. */
  function VpcStage(vpcs: seq<Vpc>, fetched: Result<seq<RawVpc>>): seq<Vpc>
  {
    match fetched
    case Ok(raw) => Map(Normalise.VpcOf, raw)
    case Err(_) => vpcs
  }

  /** The error a VPC-list fetch records: its own, if it failed. */
  function VpcFailure(fetched: Result<seq<RawVpc>>): seq<Error>
  {
    if fetched.Err? then [fetched.error] else []
  }

  /** The VPCs after stage 2: each one with the outcome of its own fetch. */
  function RouteTableStage(vpcs: seq<Vpc>, fetch: string -> Result<seq<RawRouteTable>>): (r: seq<Vpc>)
    ensures |r| == |vpcs|
    ensures forall i :: 0 <= i < |vpcs| ==> r[i] == WithRouteTables(vpcs[i], fetch(vpcs[i].id))
  {
    if vpcs == [] then []
    else
      var n := |vpcs| - 1;
      RouteTableStage(vpcs[..n], fetch) + [WithRouteTables(vpcs[n], fetch(vpcs[n].id))]
  }

  /** The VPCs after stage 3: each one with the outcome of its own fetch. */
  function SubnetStage(vpcs: seq<Vpc>, fetch: string -> Result<seq<RawSubnet>>): (r: seq<Vpc>)
    ensures |r| == |vpcs|
    ensures forall i :: 0 <= i < |vpcs| ==> r[i] == WithSubnets(vpcs[i], fetch(vpcs[i].id))
  {
    if vpcs == [] then []
    else
      var n := |vpcs| - 1;
      SubnetStage(vpcs[..n], fetch) + [WithSubnets(vpcs[n], fetch(vpcs[n].id))]
  }

  /** The VPCs a run builds from the VPCs it starts with and the fetch outcomes. */
  function Built(
    vpcs: seq<Vpc>,
    fetchVpcs: Result<seq<RawVpc>>,
    fetchRouteTables: string -> Result<seq<RawRouteTable>>,
    fetchSubnets: string -> Result<seq<RawSubnet>>): seq<Vpc>
  {
    var v1 := VpcStage(vpcs, fetchVpcs);
    var v2 := RouteTableStage(v1, fetchRouteTables);
    Map(Association.AssociateVpc, SubnetStage(v2, fetchSubnets))
  }

  /** A run starting from no VPCs, as every run of the report does, ends with
      every back-reference nil or naming a table of the subnet's own VPC. */
  lemma RunIsClosed(
    fetchVpcs: Result<seq<RawVpc>>,
    fetchRouteTables: string -> Result<seq<RawRouteTable>>,
    fetchSubnets: string -> Result<seq<RawSubnet>>)
    ensures forall i :: 0 <= i < |Built([], fetchVpcs, fetchRouteTables, fetchSubnets)| ==>
      Association.Closed(Built([], fetchVpcs, fetchRouteTables, fetchSubnets)[i])
  {
    var v1 := VpcStage([], fetchVpcs);
    var v2 := RouteTableStage(v1, fetchRouteTables);
    var v3 := SubnetStage(v2, fetchSubnets);
    assert forall i :: 0 <= i < |v1| ==> v1[i].subnets == [];
    assert forall i :: 0 <= i < |v2| ==> v2[i].subnets == [];
    assert forall i :: 0 <= i < |v3| ==> Association.Closed(v3[i]);
  }

  /** On every page of a run's report each subnet is drawn in exactly one
      block: the route-table blocks and the unassociated block together hold
      as many subnets as the VPC has. */
  lemma RunDrawsEverySubnetOnce(
    fetchVpcs: Result<seq<RawVpc>>,
    fetchRouteTables: string -> Result<seq<RawRouteTable>>,
    fetchSubnets: string -> Result<seq<RawSubnet>>)
    ensures forall v :: v in Built([], fetchVpcs, fetchRouteTables, fetchSubnets) ==>
      Layout.TableMembers(v.subnets, |v.routeTables|) + |Layout.Members(v.subnets, None)| == |v.subnets|
  {
    var b := Built([], fetchVpcs, fetchRouteTables, fetchSubnets);
    RunIsClosed(fetchVpcs, fetchRouteTables, fetchSubnets);
    forall v | v in b
      ensures Layout.TableMembers(v.subnets, |v.routeTables|) + |Layout.Members(v.subnets, None)| == |v.subnets|
    {
      Layout.EverySubnetInOneBlock(v.subnets, |v.routeTables|);
    }
  }

  /** The errors the fetches of a run record, in the order of the stages. */
  function BuildErrors(
    vpcs: seq<Vpc>,
    fetchVpcs: Result<seq<RawVpc>>,
    fetchRouteTables: string -> Result<seq<RawRouteTable>>,
    fetchSubnets: string -> Result<seq<RawSubnet>>): seq<Error>
  {
    var v1 := VpcStage(vpcs, fetchVpcs);
    var v2 := RouteTableStage(v1, fetchRouteTables);
    VpcFailure(fetchVpcs)
      + Failures(v1, fetchRouteTables)
      + Failures(v2, fetchSubnets)
  }

  class Network {
    var vpcs: seq<Vpc>
    var errs: seq<Error>

    constructor ()
      ensures vpcs == [] && errs == []
    {
      vpcs, errs := [], [];
    }

    /** Records one error at the end and changes nothing else. */
    method StackError(e: Error)
      modifies this
      ensures errs == old(errs) + [e]
      ensures vpcs == old(vpcs)
    {
      errs := errs + [e];
    }

    /** Stage 1: a failed VPC-list fetch records its error and leaves the VPCs
        as they were; a successful one replaces them with the normalised list. */
    method ConstructVpcs(fetched: Result<seq<RawVpc>>)
      modifies this
      ensures fetched.Err? ==> vpcs == old(vpcs) && errs == old(errs) + [fetched.error]
      ensures fetched.Ok? ==> vpcs == Map(Normalise.VpcOf, fetched.value) && errs == old(errs)
      ensures vpcs == VpcStage(old(vpcs), fetched)
      ensures errs == old(errs) + VpcFailure(fetched)
    {
      match fetched {
        case Err(e) =>
          StackError(e);
        case Ok(raw) =>
          vpcs := Normalise.ParseVpcs(raw);
      }
    }

    /** Stage 2: every VPC, in order, gets the route tables its fetch returns;
        a failed fetch records one error and leaves that VPC unchanged. */
    method ConstructRouteTables(fetch: string -> Result<seq<RawRouteTable>>)
      modifies this
      ensures vpcs == RouteTableStage(old(vpcs), fetch)
      ensures errs == old(errs) + Failures(old(vpcs), fetch)
    {
      var i := 0;
      while i < |vpcs|
        invariant 0 <= i <= |vpcs| == |old(vpcs)|
        invariant forall k :: 0 <= k < i ==> vpcs[k] == WithRouteTables(old(vpcs)[k], fetch(old(vpcs)[k].id))
        invariant forall k :: i <= k < |vpcs| ==> vpcs[k] == old(vpcs)[k]
        invariant errs == old(errs) + Failures(old(vpcs)[..i], fetch)
      {
        assert old(vpcs)[..i + 1][..i] == old(vpcs)[..i];
        var vpc := vpcs[i];
        match fetch(vpc.id) {
          case Err(e) =>
            StackError(e);
          case Ok(raw) =>
            var rts := Normalise.ParseRouteTables(raw);
            vpcs := vpcs[i := vpc.(routeTables := rts)];
        }
        i := i + 1;
      }
      assert old(vpcs)[..i] == old(vpcs);
    }

    /** Stage 3: every VPC, in order, gets the subnets its fetch returns; a
        failed fetch records one error and leaves that VPC unchanged. */
    method ConstructSubnets(fetch: string -> Result<seq<RawSubnet>>)
      modifies this
      ensures vpcs == SubnetStage(old(vpcs), fetch)
      ensures errs == old(errs) + Failures(old(vpcs), fetch)
    {
      var i := 0;
      while i < |vpcs|
        invariant 0 <= i <= |vpcs| == |old(vpcs)|
        invariant forall k :: 0 <= k < i ==> vpcs[k] == WithSubnets(old(vpcs)[k], fetch(old(vpcs)[k].id))
        invariant forall k :: i <= k < |vpcs| ==> vpcs[k] == old(vpcs)[k]
        invariant errs == old(errs) + Failures(old(vpcs)[..i], fetch)
      {
        assert old(vpcs)[..i + 1][..i] == old(vpcs)[..i];
        var vpc := vpcs[i];
        match fetch(vpc.id) {
          case Err(e) =>
            StackError(e);
          case Ok(raw) =>
            var ss := Normalise.ParseSubnets(raw);
            assert ss == Map(Normalise.SubnetOf, raw);
            vpcs := vpcs[i := vpc.(subnets := ss)];
        }
        i := i + 1;
      }
      assert old(vpcs)[..i] == old(vpcs);
    }

    /** Stage 4: every subnet's back-reference is set to the last route table
        of its own VPC whose association list names it; with no such table it
        stays as it was. */
    method AssociateRouteTableSubnet()
      modifies this
      ensures errs == old(errs)
      ensures vpcs == Map(Association.AssociateVpc, old(vpcs))
    {
      var v := 0;
      while v < |vpcs|
        invariant 0 <= v <= |vpcs| == |old(vpcs)|
        invariant errs == old(errs)
        invariant forall k :: 0 <= k < v ==> vpcs[k] == Association.AssociateVpc(old(vpcs)[k])
        invariant forall k :: v <= k < |vpcs| ==> vpcs[k] == old(vpcs)[k]
      {
        var vpc := vpcs[v];
        var rts := vpc.routeTables;
        var subnets := vpc.subnets;
        var s := 0;
        while s < |subnets|
          invariant 0 <= s <= |subnets| == |vpc.subnets|
          invariant forall k :: 0 <= k < s ==> subnets[k] == Association.Resolve(rts, vpc.subnets[k])
          invariant forall k :: s <= k < |subnets| ==> subnets[k] == vpc.subnets[k]
        {
          var sn := subnets[s];
          ghost var before := subnets;
          var t := 0;
          while t < |rts|
            invariant 0 <= t <= |rts|
            invariant |subnets| == |before| && subnets == before[s := subnets[s]]
            invariant subnets[s] == Association.Resolve(rts[..t], sn)
          {
            assert rts[..t + 1][..t] == rts[..t];
            var rt := rts[t];
            var a := 0;
            while a < |rt.associationSubnets|
              invariant 0 <= a <= |rt.associationSubnets|
              invariant |subnets| == |before| && subnets == before[s := subnets[s]]
              invariant subnets[s] == if sn.id in rt.associationSubnets[..a]
                                      then sn.(routeTable := Some(t))
                                      else Association.Resolve(rts[..t], sn)
            {
              assert rt.associationSubnets[..a + 1] == rt.associationSubnets[..a] + [rt.associationSubnets[a]];
              if rt.associationSubnets[a] == sn.id {
                subnets := subnets[s := subnets[s].(routeTable := Some(t))];
              }
              a := a + 1;
            }
            assert rt.associationSubnets[..a] == rt.associationSubnets;
            t := t + 1;
          }
          assert rts[..t] == rts;
          s := s + 1;
        }
        assert subnets == Map((sn: Subnet) => Association.Resolve(rts, sn), vpc.subnets);
        vpcs := vpcs[v := vpc.(subnets := subnets)];
        v := v + 1;
      }
    }

    /** Draws the report, one page per VPC, and records the error of writing
        it out if there is one. */
    method ConvertPdf(writeFailure: Option<Error>) returns (doc: seq<Layout.Element>)
      modifies this
      ensures doc == Layout.Document(old(vpcs))
      ensures vpcs == old(vpcs)
      ensures errs == old(errs) + (if writeFailure.Some? then [writeFailure.value] else [])
    {
      doc := Layout.DrawDocument(vpcs);
      if writeFailure.Some? {
        StackError(writeFailure.value);
      }
    }

    /** The combined error: none when nothing was recorded, otherwise every
        recorded message followed by a newline, in recording order. */
    method FlattenErrs() returns (r: Option<string>)
      ensures r.None? <==> errs == []
      ensures r.Some? ==> r.value == Errors.Joined(errs)
    {
      if |errs| == 0 {
        return None;
      }
      var errStr := "";
      var i := 0;
      while i < |errs|
        invariant 0 <= i <= |errs|
        invariant errStr == Errors.Joined(errs[..i])
      {
        assert errs[..i + 1][..i] == errs[..i];
        errStr := errStr + errs[i].message + "\n";
        i := i + 1;
      }
      assert errs[..i] == errs;
      return Some(errStr);
    }

    /** The whole run: the four stages in order, the report, and the combined
        error. */
    method RecursiveConstruct(
      fetchVpcs: Result<seq<RawVpc>>,
      fetchRouteTables: string -> Result<seq<RawRouteTable>>,
      fetchSubnets: string -> Result<seq<RawSubnet>>,
      writeFailure: Option<Error>)
      returns (doc: seq<Layout.Element>, err: Option<string>)
      modifies this
      ensures vpcs == Built(old(vpcs), fetchVpcs, fetchRouteTables, fetchSubnets)
      ensures errs == old(errs) + BuildErrors(old(vpcs), fetchVpcs, fetchRouteTables, fetchSubnets)
                     + (if writeFailure.Some? then [writeFailure.value] else [])
      ensures old(vpcs) == [] && fetchVpcs.Err? ==>
        vpcs == [] && errs == old(errs) + [fetchVpcs.error] + (if writeFailure.Some? then [writeFailure.value] else [])
      ensures old(vpcs) == [] ==> forall i :: 0 <= i < |vpcs| ==> Association.Closed(vpcs[i])
      ensures doc == Layout.Document(vpcs)
      ensures err.None? <==> errs == []
      ensures err.Some? ==> err.value == Errors.Joined(errs)
    {
      ghost var v0, e0 := vpcs, errs;
      ConstructVpcs(fetchVpcs);
      ghost var v1, e1 := vpcs, errs;
      ConstructRouteTables(fetchRouteTables);
      ghost var v2, e2 := vpcs, errs;
      ConstructSubnets(fetchSubnets);
      ghost var e3 := errs;
      AssociateRouteTableSubnet();
      assert vpcs == Built(v0, fetchVpcs, fetchRouteTables, fetchSubnets);
      assert e3 == e0 + BuildErrors(v0, fetchVpcs, fetchRouteTables, fetchSubnets) by {
        var a, f1, f2 := VpcFailure(fetchVpcs), Failures(v1, fetchRouteTables), Failures(v2, fetchSubnets);
        assert e3 == e0 + a + f1 + f2;
        AppendAssociative(e0, a, f1, f2);
      }
      RunIsClosed(fetchVpcs, fetchRouteTables, fetchSubnets);
      doc := ConvertPdf(writeFailure);
      err := FlattenErrs();
    }
  }
}
