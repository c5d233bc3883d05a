/** The page layout the report draws: for every VPC one page holding a title
    row, one block per route table (its routes and its associated subnets in
    two independently stacked columns inside one border) and a block of the
    subnets with no route table. Coordinates are integer millimetres; x is
    measured from the left margin and y from the top of the page's first row. */
module Layout {
  import opened Topology

  /** Height of every row. */
  const RowHeight: nat := 10
  /** Width of each of the two columns of a route-table block. */
  const ColumnWidth: nat := 95
  /** A cell of width 0 extends to the right margin. */
  const ToMargin: nat := 0

  /** "1" draws the full frame, "RL"/"LR" only the left and right sides. */
  datatype Border = Frame | Sides

  /** The text of a cell, kept abstract: the formatting itself is not modelled. */
  datatype Text =
    | VpcTitle(name: string, cidr: string)
    | TableTitle(name: string)
    | AssociationSubnetsLabel
    | RouteText(destination: string, router: string)
    | SubnetText(name: string, cidr: string)
    | NoAssociationLabel
    | Blank

  /** A drawn cell, or a page break (a new page). */
  datatype Element =
    | Cell(x: nat, y: nat, w: nat, h: nat, border: Border, text: Text)
    | PageBreak

  /** The subnets whose back-reference is `target`, in their order. */
  function Members(subnets: seq<Subnet>, target: Option<nat>): (ms: seq<Subnet>)
    ensures |ms| <= |subnets|
  {
    if subnets == [] then []
    else
      var n := |subnets| - 1;
      Members(subnets[..n], target) + (if subnets[n].routeTable == target then [subnets[n]] else [])
  }

  lemma MembersSnoc(subnets: seq<Subnet>, sn: Subnet, target: Option<nat>)
    ensures Members(subnets + [sn], target)
         == Members(subnets, target) + (if sn.routeTable == target then [sn] else [])
  {
    assert (subnets + [sn])[..|subnets|] == subnets;
  }

  /** A block holds exactly the subnets whose back-reference is its table (or
      nil, for the block of unassociated subnets). */
  lemma {:induction false} MembersExact(subnets: seq<Subnet>, target: Option<nat>)
    ensures forall sn :: sn in Members(subnets, target) <==> sn in subnets && sn.routeTable == target
  {
    if subnets != [] {
      var n := |subnets| - 1;
      MembersExact(subnets[..n], target);
      assert subnets == subnets[..n] + [subnets[n]];
    }
  }

  /** The positions of the subnets whose back-reference is `target`, ascending. */
  function MatchIndices(subnets: seq<Subnet>, target: Option<nat>): (idx: seq<nat>)
    ensures forall k :: 0 <= k < |idx| ==> idx[k] < |subnets| && subnets[idx[k]].routeTable == target
    ensures forall k, l :: 0 <= k < l < |idx| ==> idx[k] < idx[l]
  {
    if subnets == [] then []
    else
      var n := |subnets| - 1;
      assert forall i :: 0 <= i < n ==> subnets[..n][i] == subnets[i];
      MatchIndices(subnets[..n], target) + (if subnets[n].routeTable == target then [n] else [])
  }

  /** Every subnet whose back-reference is `target` has its position listed. */
  lemma {:induction false} MatchIndicesComplete(subnets: seq<Subnet>, target: Option<nat>)
    ensures forall i :: 0 <= i < |subnets| && subnets[i].routeTable == target ==> i in MatchIndices(subnets, target)
  {
    if subnets != [] {
      var n := |subnets| - 1;
      MatchIndicesComplete(subnets[..n], target);
      assert forall i :: 0 <= i < n ==> subnets[..n][i] == subnets[i];
    }
  }

  /** A block's subnet column is the VPC's subnets whose back-reference is its
      table, in VPC order and each as often as it occurs: the j-th row is the
      subnet at the j-th matching position. */
  lemma {:induction false} MembersInOrder(subnets: seq<Subnet>, target: Option<nat>)
    ensures |Members(subnets, target)| == |MatchIndices(subnets, target)|
    ensures forall k :: 0 <= k < |Members(subnets, target)| ==>
      Members(subnets, target)[k] == subnets[MatchIndices(subnets, target)[k]]
  {
    if subnets != [] {
      var n := |subnets| - 1;
      var init := subnets[..n];
      MembersInOrder(init, target);
      var ms, ms0 := Members(subnets, target), Members(init, target);
      var idx, idx0 := MatchIndices(subnets, target), MatchIndices(init, target);
      forall k | 0 <= k < |ms0|
        ensures ms[k] == subnets[idx[k]]
      {
        assert ms[k] == ms0[k] && idx[k] == idx0[k];
        assert subnets[idx0[k]] == init[idx0[k]];
      }
    }
  }

  /** The left column of a route-table block: the i-th route 10·i below `top`. */
  function RouteColumn(routes: seq<Route>, top: nat): seq<Element>
  {
    seq(|routes|, i requires 0 <= i < |routes| =>
      Cell(0, top + RowHeight * i, ColumnWidth, RowHeight, Sides,
           RouteText(routes[i].destination, routes[i].router)))
  }

  /** A column of subnets at x offset `x`: the j-th one 10·j below `top`. */
  function SubnetColumn(ms: seq<Subnet>, x: nat, w: nat, top: nat): seq<Element>
  {
    seq(|ms|, j requires 0 <= j < |ms| =>
      Cell(x, top + RowHeight * j, w, RowHeight, Sides, SubnetText(ms[j].tagName, ms[j].cidrBlock)))
  }

  /** The height of the border around the two columns of the t-th route-table
      block: the taller of the two, so 10·max(#routes, #subnets of the table). */
  function BlockHeight(v: Vpc, t: nat): (h: nat)
    requires t < |v.routeTables|
    ensures h >= RowHeight * |v.routeTables[t].routes|
    ensures h >= RowHeight * |Members(v.subnets, Some(t))|
    ensures h == RowHeight * |v.routeTables[t].routes| || h == RowHeight * |Members(v.subnets, Some(t))|
  {
    var rtHeight := RowHeight * |v.routeTables[t].routes|;
    var snHeight := RowHeight * |Members(v.subnets, Some(t))|;
    if snHeight >= rtHeight then snHeight else rtHeight
  }

  /** The t-th route-table block with its header row at `top`. */
  function TableBlock(v: Vpc, t: nat, top: nat): seq<Element>
    requires t < |v.routeTables|
  {
    var rt := v.routeTables[t];
    [Cell(0, top, ColumnWidth, RowHeight, Frame, TableTitle(rt.tagName)),
     Cell(ColumnWidth, top, ColumnWidth, RowHeight, Frame, AssociationSubnetsLabel)]
    + RouteColumn(rt.routes, top + RowHeight)
    + SubnetColumn(Members(v.subnets, Some(t)), ColumnWidth, ColumnWidth, top + RowHeight)
    + [Cell(0, top + RowHeight, ToMargin, BlockHeight(v, t), Frame, Blank)]
  }

  /** The y just below the page's title row and its first n route-table blocks. */
  function TablesBottom(v: Vpc, n: nat): nat
    requires n <= |v.routeTables|
  {
    if n == 0 then RowHeight
    else TablesBottom(v, n - 1) + RowHeight + BlockHeight(v, n - 1)
  }

  /** The first n route-table blocks, each below the previous one. */
  function TableBlocks(v: Vpc, n: nat): seq<Element>
    requires n <= |v.routeTables|
  {
    if n == 0 then []
    else TableBlocks(v, n - 1) + TableBlock(v, n - 1, TablesBottom(v, n - 1))
  }

  /** The "No Association Subnets" block with its header row at `top`. */
  function UnassociatedBlock(v: Vpc, top: nat): seq<Element>
  {
    var ms := Members(v.subnets, None);
    [Cell(0, top, ToMargin, RowHeight, Frame, NoAssociationLabel)]
    + SubnetColumn(ms, 0, ToMargin, top + RowHeight)
    + [Cell(0, top + RowHeight, ToMargin, RowHeight * |ms|, Frame, Blank)]
  }

  /** The page of one VPC, ended by a page break. */
  function Page(v: Vpc): seq<Element>
  {
    [Cell(0, 0, ToMargin, RowHeight, Frame, VpcTitle(v.tagName, v.cidrBlock))]
    + TableBlocks(v, |v.routeTables|)
    + UnassociatedBlock(v, TablesBottom(v, |v.routeTables|))
    + [PageBreak]
  }

  /** The whole document: the first page, then every VPC's page in order. */
  function Document(vpcs: seq<Vpc>): seq<Element>
  {
    if vpcs == [] then [PageBreak]
    else Document(vpcs[..|vpcs| - 1]) + Page(vpcs[|vpcs| - 1])
  }

  /** Draws the routes of a block one row below the other, accumulating the
      column's height. */
  method DrawRoutes(routes: seq<Route>, top: nat) returns (cells: seq<Element>, rtHeight: nat)
    ensures cells == RouteColumn(routes, top)
    ensures rtHeight == RowHeight * |routes|
  {
    cells, rtHeight := [], 0;
    var i := 0;
    while i < |routes|
      invariant 0 <= i <= |routes|
      invariant rtHeight == RowHeight * i
      invariant |cells| == i
      invariant forall k :: 0 <= k < i ==> cells[k] == RouteColumn(routes, top)[k]
    {
      var r := routes[i];
      cells := cells + [Cell(0, top + rtHeight, ColumnWidth, RowHeight, Sides, RouteText(r.destination, r.router))];
      rtHeight := rtHeight + RowHeight;
      i := i + 1;
    }
  }

  lemma SubnetColumnSnoc(ms: seq<Subnet>, sn: Subnet, x: nat, w: nat, top: nat)
    ensures SubnetColumn(ms + [sn], x, w, top)
         == SubnetColumn(ms, x, w, top)
            + [Cell(x, top + RowHeight * |ms|, w, RowHeight, Sides, SubnetText(sn.tagName, sn.cidrBlock))]
  {
  }

  /** Draws, one row below the other, the subnets whose back-reference is
      `target`, accumulating the column's height. */
  method DrawSubnets(subnets: seq<Subnet>, target: Option<nat>, x: nat, w: nat, top: nat)
    returns (cells: seq<Element>, snHeight: nat)
    ensures cells == SubnetColumn(Members(subnets, target), x, w, top)
    ensures snHeight == RowHeight * |Members(subnets, target)|
  {
    cells, snHeight := [], 0;
    var i := 0;
    while i < |subnets|
      invariant 0 <= i <= |subnets|
      invariant cells == SubnetColumn(Members(subnets[..i], target), x, w, top)
      invariant snHeight == RowHeight * |Members(subnets[..i], target)|
    {
      assert subnets[..i + 1] == subnets[..i] + [subnets[i]];
      var sn := subnets[i];
      MembersSnoc(subnets[..i], sn, target);
      if sn.routeTable == target {
        SubnetColumnSnoc(Members(subnets[..i], target), sn, x, w, top);
        cells := cells + [Cell(x, top + snHeight, w, RowHeight, Sides, SubnetText(sn.tagName, sn.cidrBlock))];
        snHeight := snHeight + RowHeight;
      }
      i := i + 1;
    }
    assert subnets[..i] == subnets;
  }

  /** Draws the page of one VPC: the title row, every route-table block with
      its border as tall as its taller column, and the block of unassociated
      subnets. */
  method DrawPage(v: Vpc) returns (cells: seq<Element>)
    ensures cells == Page(v)
  {
    cells := [Cell(0, 0, ToMargin, RowHeight, Frame, VpcTitle(v.tagName, v.cidrBlock))];
    var y := RowHeight;
    var t := 0;
    while t < |v.routeTables|
      invariant 0 <= t <= |v.routeTables|
      invariant y == TablesBottom(v, t)
      invariant cells == [Cell(0, 0, ToMargin, RowHeight, Frame, VpcTitle(v.tagName, v.cidrBlock))]
                         + TableBlocks(v, t)
    {
      var rt := v.routeTables[t];
      var header := [Cell(0, y, ColumnWidth, RowHeight, Frame, TableTitle(rt.tagName)),
                     Cell(ColumnWidth, y, ColumnWidth, RowHeight, Frame, AssociationSubnetsLabel)];
      var top := y + RowHeight;
      var routeCells, rtHeight := DrawRoutes(rt.routes, top);
      var subnetCells, snHeight := DrawSubnets(v.subnets, Some(t), ColumnWidth, ColumnWidth, top);
      var maxHeight := if snHeight >= rtHeight then snHeight else rtHeight;
      var block := header + routeCells + subnetCells + [Cell(0, top, ToMargin, maxHeight, Frame, Blank)];
      assert block == TableBlock(v, t, y);
      cells := cells + block;
      y := top + maxHeight;
      t := t + 1;
    }
    var noaHeader := [Cell(0, y, ToMargin, RowHeight, Frame, NoAssociationLabel)];
    var top := y + RowHeight;
    var noaCells, noaSnHeight := DrawSubnets(v.subnets, None, 0, ToMargin, top);
    cells := cells + (noaHeader + noaCells + [Cell(0, top, ToMargin, noaSnHeight, Frame, Blank)]) + [PageBreak];
  }

  /** Draws the whole document: a first page, then one page per VPC. */
  method DrawDocument(vpcs: seq<Vpc>) returns (doc: seq<Element>)
    ensures doc == Document(vpcs)
  {
    doc := [PageBreak];
    var i := 0;
    while i < |vpcs|
      invariant 0 <= i <= |vpcs|
      invariant doc == Document(vpcs[..i])
    {
      assert vpcs[..i + 1][..i] == vpcs[..i];
      var page := DrawPage(vpcs[i]);
      doc := doc + page;
      i := i + 1;
    }
    assert vpcs[..i] == vpcs;
  }

  /** The number of subnets drawn in the first n route-table blocks. */
  function TableMembers(subnets: seq<Subnet>, n: nat): nat
  {
    if n == 0 then 0 else TableMembers(subnets, n - 1) + |Members(subnets, Some(n - 1))|
  }

  lemma {:induction false} TableMembersSnoc(subnets: seq<Subnet>, sn: Subnet, n: nat)
    ensures TableMembers(subnets + [sn], n)
         == TableMembers(subnets, n) + (if sn.routeTable.Some? && sn.routeTable.value < n then 1 else 0)
  {
    if n > 0 {
      TableMembersSnoc(subnets, sn, n - 1);
      MembersSnoc(subnets, sn, Some(n - 1));
    }
  }

  lemma {:induction false} NoTableMembers(subnets: seq<Subnet>, n: nat)
    requires subnets == []
    ensures TableMembers(subnets, n) == 0
  {
    if n > 0 {
      NoTableMembers(subnets, n - 1);
    }
  }

  /** Every subnet is drawn in exactly one block of its VPC's page: the blocks
      of the route tables and the block of unassociated subnets together hold
      as many subnets as the VPC has, when every back-reference is nil or a
      table of the VPC (Members gives each block only subnets that belong to it). */
  lemma {:induction false} EverySubnetInOneBlock(subnets: seq<Subnet>, tables: nat)
    requires forall s :: 0 <= s < |subnets| && subnets[s].routeTable.Some? ==> subnets[s].routeTable.value < tables
    ensures TableMembers(subnets, tables) + |Members(subnets, None)| == |subnets|
  {
    if subnets != [] {
      var n := |subnets| - 1;
      var init, sn := subnets[..n], subnets[n];
      assert subnets == init + [sn];
      assert forall s :: 0 <= s < n ==> init[s] == subnets[s];
      EverySubnetInOneBlock(init, tables);
      TableMembersSnoc(init, sn, tables);
      MembersSnoc(init, sn, None);
      assert sn.routeTable.Some? ==> sn.routeTable.value < tables;
    } else {
      NoTableMembers(subnets, tables);
    }
  }

  /** The border of a route-table block encloses both of its columns, and is
      no taller than the taller column: a non-empty block has a cell that
      reaches its bottom edge. */
  lemma BorderEnclosesColumns(v: Vpc, t: nat, top: nat)
    requires t < |v.routeTables|
    ensures var columns := RouteColumn(v.routeTables[t].routes, top + RowHeight)
                           + SubnetColumn(Members(v.subnets, Some(t)), ColumnWidth, ColumnWidth, top + RowHeight);
      && (forall c :: c in columns ==>
            c.Cell? && top + RowHeight <= c.y && c.y + c.h <= top + RowHeight + BlockHeight(v, t))
      && (BlockHeight(v, t) > 0 ==>
            exists c :: c in columns && c.Cell? && c.y + c.h == top + RowHeight + BlockHeight(v, t))
  {
    var routes, ms := v.routeTables[t].routes, Members(v.subnets, Some(t));
    var left, right := RouteColumn(routes, top + RowHeight), SubnetColumn(ms, ColumnWidth, ColumnWidth, top + RowHeight);
    var h := BlockHeight(v, t);
    forall c: Element | c in left + right
      ensures c.Cell? && top + RowHeight <= c.y && c.y + c.h <= top + RowHeight + h
    {
      if c in left {
        var i :| 0 <= i < |left| && left[i] == c;
      } else {
        var j :| 0 <= j < |right| && right[j] == c;
      }
    }
    if h > 0 {
      if h == RowHeight * |routes| {
        assert left[|routes| - 1] in left + right;
      } else {
        assert right[|ms| - 1] in left + right;
      }
    }
  }

  /** The number of page breaks in a sequence of elements. */
  function Breaks(elems: seq<Element>): nat
  {
    if elems == [] then 0
    else Breaks(elems[..|elems| - 1]) + (if elems[|elems| - 1].PageBreak? then 1 else 0)
  }

  lemma {:induction false} BreaksAppend(a: seq<Element>, b: seq<Element>)
    ensures Breaks(a + b) == Breaks(a) + Breaks(b)
  {
    if b == [] {
      assert a + b == a;
    } else {
      var n := |b| - 1;
      assert (a + b)[..|a + b| - 1] == a + b[..n];
      BreaksAppend(a, b[..n]);
    }
  }

  lemma {:induction false} NoBreaksInCells(elems: seq<Element>)
    requires forall i :: 0 <= i < |elems| ==> elems[i].Cell?
    ensures Breaks(elems) == 0
  {
    if elems != [] {
      NoBreaksInCells(elems[..|elems| - 1]);
    }
  }

  lemma {:induction false} NoBreaksInTableBlocks(v: Vpc, n: nat)
    requires n <= |v.routeTables|
    ensures Breaks(TableBlocks(v, n)) == 0
  {
    if n > 0 {
      NoBreaksInTableBlocks(v, n - 1);
      var block := TableBlock(v, n - 1, TablesBottom(v, n - 1));
      NoBreaksInCells(block);
      BreaksAppend(TableBlocks(v, n - 1), block);
    }
  }

  /** The document has one page break at the start and one after every VPC's
      page, the last one included. */
  lemma {:induction false} OnePageBreakPerVpc(vpcs: seq<Vpc>)
    ensures Breaks(Document(vpcs)) == |vpcs| + 1
    ensures Document(vpcs)[0] == PageBreak
    ensures Document(vpcs)[|Document(vpcs)| - 1] == PageBreak
  {
    if vpcs == [] {
      assert [PageBreak][..0] == [];
    } else {
      var n := |vpcs| - 1;
      var v := vpcs[n];
      OnePageBreakPerVpc(vpcs[..n]);
      var title := [Cell(0, 0, ToMargin, RowHeight, Frame, VpcTitle(v.tagName, v.cidrBlock))];
      var blocks := TableBlocks(v, |v.routeTables|);
      var noa := UnassociatedBlock(v, TablesBottom(v, |v.routeTables|));
      NoBreaksInCells(title);
      NoBreaksInTableBlocks(v, |v.routeTables|);
      NoBreaksInCells(noa);
      assert [PageBreak][..0] == [];
      BreaksAppend(title, blocks);
      BreaksAppend(title + blocks, noa);
      BreaksAppend(title + blocks + noa, [PageBreak]);
      BreaksAppend(Document(vpcs[..n]), Page(v));
    }
  }
}
