/** The topology records the network report is built from: the raw records the
    EC2 describe calls return, and the normalised Vpc, RouteTable, Route and
    Subnet values they become. */
module Topology {

  datatype Option<+T> = None | Some(value: T)

  /** An error as recorded by the report; only its message is ever used. */
  datatype Error = Error(message: string)

  /** What a fetch from the cloud returns: the records, or the error it failed with. */
  datatype Result<+T> = Ok(value: T) | Err(error: Error)

  // Raw records. A field the source dereferences without a nil check is
  // mandatory here; `tagName` stands for what the tag-name extractor derives
  // from the record's tags.

  datatype RawCidrAssociation = RawCidrAssociation(cidrBlock: string)

  datatype RawVpc = RawVpc(
    vpcId: string,
    tagName: string,
    cidrBlock: string,
    cidrAssociations: seq<RawCidrAssociation>)

  datatype RawRoute = RawRoute(
    destination: Option<string>,
    gatewayId: Option<string>,
    natGatewayId: Option<string>,
    peeringId: Option<string>)

  datatype RawAssociation = RawAssociation(subnetId: Option<string>)

  datatype RawRouteTable = RawRouteTable(
    routeTableId: string,
    tagName: string,
    routes: seq<RawRoute>,
    associations: seq<RawAssociation>)

  datatype RawSubnet = RawSubnet(subnetId: string, tagName: string, cidrBlock: string)

  // Normalised records.

  datatype Route = Route(destination: string, router: string)

  datatype RouteTable = RouteTable(
    id: string,
    tagName: string,
    routes: seq<Route>,
    associationSubnets: seq<string>)

  /** `routeTable` is the back-reference to the route table the subnet is
      associated with, as an index into its own VPC's `routeTables`;
      `None` is the nil reference. */
  datatype Subnet = Subnet(id: string, tagName: string, cidrBlock: string, routeTable: Option<nat>)

  datatype Vpc = Vpc(
    id: string,
    tagName: string,
    cidrBlock: string,
    associatedCidrBlocks: seq<string>,
    routeTables: seq<RouteTable>,
    subnets: seq<Subnet>)
}
