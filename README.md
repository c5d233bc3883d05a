# Network report builder, modelled in Dafny

This project models the `network` command of aws-state-report (`cmd/network.go`).
The command rebuilds the VPC topology of an AWS account in stages and lays it out as a PDF table:

1. Fetch the VPC list.
2. Fetch each VPC's route tables.
3. Fetch each VPC's subnets.
4. Associate every subnet with a route table of its own VPC.
5. Draw one page per VPC.
6. Flatten the errors recorded along the way into one message.

A failed fetch is recorded and the run goes on.

Modules, one per concern of the source file:

- `Topology` (topology.dfy): the raw EC2 records, and the `Vpc`, `RouteTable`, `Route` and `Subnet` values built from them.
- `Sequences` (sequences.dfy): `Map` over sequences.
- `Normalise` (normalise.dfy): the three `parseDescribe*` normalisers. Each one is a loop method whose contract gives every output record.
- `Association` (association.dfy): the last-match rule of `associateRouteTableSubnet`.
- `Errors` (errors.dfy): the text that `flattenErrs` builds.
- `Layout` (layout.dfy): the cell arithmetic of `convertPdf`. It gives the page, block and column layout as functions, with the draw loops proved against them.
- `Builder` (network.dfy): the `Network` object as a class. It has the fields `vpcs` and `errs`, and one method per stage, which updates those fields in place.

The cloud is an oracle:

- The VPC-list fetch is a `Result` parameter.
- Each per-VPC fetch is a function from the VPC id to a `Result`.
- Writing `./network.pdf` is an `Option<Error>` parameter: the error it failed with, if any.

In the PDF model, a cell is `Cell(x, y, w, h, border, text)` in integer millimetres and `PageBreak` is an `AddPage`:

- Rows are 10 high and the two columns of a block are 95 wide.
- Width 0 extends a cell to the right margin.
- x is measured from the left margin and y from the top of the page's first row.

A subnet's `AssociatedRouteTable` pointer is kept as an index into its own VPC's `routeTables`, with `None` for nil. The parser creates a distinct table object for each record, so comparing pointers, as the layout does, is the same as comparing indices.

Router precedence: the code assigns the gateway id, then the NAT gateway id, then the peering id, each overwriting the previous one, so the peering id wins, then the NAT gateway id, then the gateway id.

## Model

| member | source | states |
|---|---|---|
| `Normalise.Router` | cmd/network.go:200-210 | the router id is the peering id if present, else the NAT gateway id, else the gateway id, else "" |
| `Normalise.Routes` | cmd/network.go:192-213 | normalisation never produces more routes than the raw list has |
| `Normalise.DestinationIndices` | cmd/network.go:193-196 | every listed position holds a raw route with a destination CIDR, and the positions strictly ascend |
| `Normalise.DestinationIndicesComplete` | cmd/network.go:193-196 | every raw route with a destination CIDR has its position listed: none is dropped |
| `Normalise.RoutesKeepDestinationsInOrder` | cmd/network.go:192-213 | the k-th normalised route is the k-th raw route that has a destination CIDR (its destination and its router); routes without one are dropped without error |
| `Normalise.ParseRoutes` | cmd/network.go:192-213 | the route loop yields exactly the normalised routes characterised above |
| `Normalise.ParseAssociations` | cmd/network.go:214-222 | the association list has one entry per raw association, in order: the subnet id, or "implicit" when the association has none |
| `Normalise.ParseRouteTables` | cmd/network.go:185-226 | one route table per raw record, in input order, with its id, tag name, normalised routes and association list |
| `Normalise.ParseVpcs` | cmd/network.go:167-183 | one VPC per raw record, in input order, with its id and CIDR; its associated CIDR blocks are the CIDRs of its associations in order; it has no route tables or subnets yet |
| `Normalise.ParseSubnets` | cmd/network.go:228-239 | one subnet per raw record, in input order, with its id, tag name and CIDR, and a nil route-table reference |
| `Association.LastMatch` | cmd/network.go:88-94 | a found table is a table of the VPC whose association list names the subnet |
| `Association.LastMatchIsLast` | cmd/network.go:88-94 | no later table names the subnet (the last match wins), and nothing is found exactly when no table of the VPC names the subnet |
| `Association.AssociateVpc` | cmd/network.go:86-96 | association changes only the subnets' back-references; it leaves the route tables and every other subnet field alone, and a back-reference that was within the VPC's own tables stays within them |
| `Errors.Joined` | cmd/network.go:160-163 | the flattened text has at least one character per error and ends with a newline when there are errors |
| `Errors.JoinedAppend` | cmd/network.go:161-163 | flattening keeps recording order: the text of a concatenation is the text of its first part followed by that of its second |
| `Errors.JoinedAt` | cmd/network.go:161-163 | each recorded error contributes its message followed by one newline, at its place in the order |
| `Layout.MembersExact` | cmd/network.go:119-125 | a block's subnet column holds exactly the subnets whose back-reference is that block's table (or nil, for the unassociated block) |
| `Layout.MatchIndices` | cmd/network.go:119-120 | every listed position holds a subnet whose back-reference is the block's table, and the positions strictly ascend |
| `Layout.MatchIndicesComplete` | cmd/network.go:119-120 | every subnet whose back-reference is the block's table has its position listed: none is skipped |
| `Layout.MembersInOrder` | cmd/network.go:119-125 | the j-th row of a block's subnet column is the subnet at the j-th matching position, so the column holds the matching subnets in VPC order, each as often as it occurs |
| `Layout.BlockHeight` | cmd/network.go:126 | the border height of a route-table block is at least 10 times the route count and at least 10 times the count of its subnets, and equals one of the two: 10·max(routes, subnets), so 0 for an empty block |
| `Layout.DrawRoutes` | cmd/network.go:111-117 | the i-th route cell sits 10·i below the block's first row, in the left column, and the accumulated height is 10 times the route count |
| `Layout.DrawSubnets` | cmd/network.go:118-125 | the j-th matching subnet cell sits 10·j below the top at the given x offset (+95 in a route-table block), and the accumulated height is 10 times the number of matching subnets |
| `Layout.DrawPage` | cmd/network.go:104-144 | a VPC's page is its title row, then each route-table block below the previous one, then the "No Association Subnets" block (a header plus one row per nil-referenced subnet, bordered 10·count high), then a page break |
| `Layout.DrawDocument` | cmd/network.go:101-145 | the document is an initial page followed by every VPC's page, in VPC order |
| `Layout.BorderEnclosesColumns` | cmd/network.go:111-128 | the border of a route-table block encloses every cell of both columns, and a non-empty block has a cell that reaches the border's bottom edge |
| `Layout.EverySubnetInOneBlock` | cmd/network.go:119-141 | when every back-reference is nil or a table of the VPC, the route-table blocks and the unassociated block together draw as many subnets as the VPC has, so every subnet is drawn in exactly one block |
| `Layout.OnePageBreakPerVpc` | cmd/network.go:102-144 | the document holds exactly one page break more than there are VPCs: one at the start and one after every VPC's page, the last included |
| `Builder.Failures` | cmd/network.go:64-70 | a stage records at most one error per VPC |
| `Builder.FailuresAppend` | cmd/network.go:64-70 | errors are recorded in VPC order |
| `Builder.FailuresNoneIffAllOk` | cmd/network.go:64-70 | a stage records no error exactly when every VPC's fetch succeeds |
| `Builder.OneFailureRecordedOnce` | cmd/network.go:75-81 | when only one VPC's fetch fails, its error is recorded exactly once and nothing else is recorded |
| `Builder.RunIsClosed` | cmd/network.go:45-52 | a run that starts from no VPCs ends with every subnet's back-reference nil or naming a table of its own VPC |
| `Builder.RunDrawsEverySubnetOnce` | cmd/network.go:45-52 | on every page of a run's report, the route-table blocks and the unassociated block together draw as many subnets as the VPC has, so each subnet is drawn in exactly one block |
| `Builder.RouteTableStage` | cmd/network.go:63-72 | every VPC is kept, in order; a VPC whose fetch succeeds gets the normalised tables, and one whose fetch fails is unchanged, whatever the other VPCs' fetches do |
| `Builder.SubnetStage` | cmd/network.go:74-83 | every VPC is kept, in order; a VPC whose fetch succeeds gets the normalised subnets, and one whose fetch fails is unchanged |
| `Builder.Network.constructor` | cmd/network.go:27-30 | a new Network has no VPCs and no errors |
| `Builder.Network.StackError` | cmd/network.go:151-154 | exactly one error is appended at the end and nothing else changes |
| `Builder.Network.ConstructVpcs` | cmd/network.go:54-61 | a failed VPC-list fetch appends exactly its error and leaves the VPCs as they were; a successful one replaces them with the normalised list and records nothing |
| `Builder.Network.ConstructRouteTables` | cmd/network.go:63-72 | the VPCs become RouteTableStage of the old ones, and the errors gain exactly the failures of that stage, in VPC order |
| `Builder.Network.ConstructSubnets` | cmd/network.go:74-83 | the VPCs become SubnetStage of the old ones, and the errors gain exactly the failures of that stage, in VPC order |
| `Builder.Network.AssociateRouteTableSubnet` | cmd/network.go:85-98 | every VPC is replaced by its associated form: each subnet refers to the last naming table of its own VPC, or keeps its reference when none names it; errors are untouched |
| `Builder.Network.ConvertPdf` | cmd/network.go:100-149 | the drawn document is the layout of the VPCs; the VPCs are untouched, and exactly one error is appended when writing the file fails |
| `Builder.Network.FlattenErrs` | cmd/network.go:156-165 | no error exactly when none was recorded; otherwise every message followed by a newline, in recording order |
| `Builder.Network.RecursiveConstruct` | cmd/network.go:45-52 | a run applies the four stages in order and then draws the result. The errors are the stage failures in stage order, then the write failure. When the VPC list cannot be fetched on a fresh Network, the VPCs stay empty and the only errors are that one and the write failure. On a fresh Network every back-reference ends nil or naming a table of its own VPC |

## Left out

- AWS access (`util.ConfigAWS`, `svc.NewManager`, the `Fetch*` calls) is network I/O. The fetches are parameters of the stage methods instead.
- A per-VPC fetch is modelled as a function of the VPC id. So two VPCs with the same id (which AWS never returns) would get the same outcome.
- The CLI wiring of `NewNetworkCommand` and the red colouring of errors are left out.
- gofpdf itself is left out: fonts, the drawing of text, the page format, and the automatic page break gofpdf inserts when a block runs past the bottom of an A4 page. In the model a page grows downward without limit.
- Writing `./network.pdf` is file I/O. Its outcome is a parameter, which may add one error.
- The `float64` heights and `math.Max` are modelled as integer millimetres, since every height is a multiple of 10.
- The tag-name extractor is not part of this model. Each raw record carries the display name that extractor would derive from its tags.
- The cell texts built by `fmt.Sprintf` are abstract `Text` values.
- `Builder.Network.FlattenErrs`: returns the plain concatenation of the messages. The source passes that text to `fmt.Errorf` as a format string, so a `%` in a message would be reinterpreted. The model does not capture that.
- Nil-pointer panics from unchecked dereferences (`*v.VpcId`, `*v.CidrBlock`, `*cbs.CidrBlock` and the like) are not modelled. Those raw fields are mandatory in the model, and only the destination CIDR, the three router ids and the association's subnet id are optional.
- Object identity:
  - The VPCs, route tables and subnets are values, not heap objects. Nothing else aliases them in the source.
  - The association loop writes each subnet's new back-reference into the VPC's subnet list and stores that list back once per VPC. Nothing reads the list in between.
  - The back-reference is an index, not a pointer. Re-fetching route tables after association, which the run never does, would leave the Go pointer naming the old table object. That object would no longer be in the VPC's `RouteTables`, so the layout would draw the subnet in no block. In the model the index would instead name the new table at that position.
