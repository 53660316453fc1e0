/**
 * The three hierarchical report tables (trial balance, ledger and balance
 * sheet). They share the item tree, the expansion map keyed by item id, the
 * toggle, the amount formatting and the recursive row rendering; they differ
 * in whether a row must be marked expandable before its children are shown,
 * and in the balance sheet having a single amount column.
 */
module ReportTree {
  import opened Wrappers
  import Text

  /** A debit or credit cell: a number, or text such as "-" or "". */
  datatype Amount = Num(n: real) | Text(s: string)

  /**
   * A report row. `children` is the empty sequence when the source leaves it
   * out; both render no child rows.
   */
  datatype Item = Item(
    id: string,
    name: string,
    debit: Amount,
    credit: Amount,
    isExpandable: bool,
    level: int,
    children: seq<Item>)

  datatype Report = TrialBalance | Ledger | BalanceSheet

  /** The expansion map: an id that was never set reads as collapsed. */
  type Expansion = map<string, bool>

  predicate Expanded(m: Expansion, id: string) {
    id in m && m[id]
  }

  // ---------------------------------------------------------------------------
  // Expansion state
  // ---------------------------------------------------------------------------

  /** The initial map: `true` for the id of every top-level item, nothing else. */
  function InitialExpansion(items: seq<Item>): (m: Expansion)
    ensures forall id :: Expanded(m, id) <==> exists i :: 0 <= i < |items| && items[i].id == id
    ensures forall id :: id in m ==> m[id]
    decreases |items|
  {
    if |items| == 0 then map[]
    else
      var front, last := items[..|items| - 1], items[|items| - 1];
      var fm := InitialExpansion(front);
      var m := fm[last.id := true];
      assert forall id :: Expanded(m, id) <==> exists i :: 0 <= i < |items| && items[i].id == id by {
        forall id ensures Expanded(m, id) <==> exists i :: 0 <= i < |items| && items[i].id == id {
          if id == last.id {
            assert items[|items| - 1].id == id;
          } else if Expanded(m, id) {
            assert Expanded(fm, id);
            var i :| 0 <= i < |front| && front[i].id == id;
            assert items[i].id == id;
          } else if i :| 0 <= i < |items| && items[i].id == id {
            assert front[i].id == id;
            assert Expanded(fm, id);
          }
        }
      }
      m
  }

  /** `toggleItemExpansion`: the id's flag is negated (an unset one becomes expanded); every other id keeps its flag. */
  function Toggle(m: Expansion, id: string): (r: Expansion)
    ensures Expanded(r, id) <==> !Expanded(m, id)
    ensures forall other :: other != id ==> (other in r <==> other in m) && (other in m ==> r[other] == m[other])
  {
    m[id := !Expanded(m, id)]
  }

  /** Toggling the same row twice shows every row as before, even if the map itself now holds an explicit `false`. */
  lemma ToggleTwiceRestores(m: Expansion, id: string, x: string)
    ensures Expanded(Toggle(Toggle(m, id), id), x) <==> Expanded(m, x)
  {
  }

  // ---------------------------------------------------------------------------
  // Visible rows
  // ---------------------------------------------------------------------------

  /** Whether an item's children are rendered under it. */
  predicate ShowsChildren(rep: Report, m: Expansion, it: Item) {
    (rep != TrialBalance ==> it.isExpandable) && Expanded(m, it.id)
  }

  /** The rendered rows of a list of items, in pre-order. */
  function VisibleForest(rep: Report, m: Expansion, items: seq<Item>): (rows: seq<Item>)
    ensures |rows| >= |items|
    decreases items
  {
    if |items| == 0 then []
    else VisibleNode(rep, m, items[0]) + VisibleForest(rep, m, items[1..])
  }

  /** The rendered rows of one item: itself, then its children's rows when it is expanded. */
  function VisibleNode(rep: Report, m: Expansion, it: Item): (rows: seq<Item>)
    ensures |rows| >= 1 && rows[0] == it
    decreases it
  {
    [it] + (if ShowsChildren(rep, m, it) then VisibleForest(rep, m, it.children) else [])
  }

  /** Every node of the forest, in pre-order: the rows when everything is open. */
  function Flatten(items: seq<Item>): seq<Item>
    decreases items
  {
    if |items| == 0 then [] else FlattenNode(items[0]) + Flatten(items[1..])
  }

  function FlattenNode(it: Item): seq<Item>
    decreases it
  {
    [it] + Flatten(it.children)
  }

  /** Every top-level item is always rendered, in order, whatever is expanded. */
  lemma {:induction false} TopLevelAlwaysVisible(rep: Report, m: Expansion, items: seq<Item>, i: nat)
    requires i < |items|
    ensures items[i] in VisibleForest(rep, m, items)
    decreases i
  {
    if i > 0 {
      TopLevelAlwaysVisible(rep, m, items[1..], i - 1);
    }
  }

  /** A row whose children are not shown contributes itself only: all of its descendants are hidden. */
  lemma CollapsedHidesDescendants(rep: Report, m: Expansion, it: Item)
    requires !Expanded(m, it.id)
    ensures VisibleNode(rep, m, it) == [it]
  {
  }

  /** With every listed row collapsed, exactly the listed rows are rendered. */
  lemma {:induction false} AllCollapsedShowsList(rep: Report, m: Expansion, items: seq<Item>)
    requires forall i :: 0 <= i < |items| ==> !Expanded(m, items[i].id)
    ensures VisibleForest(rep, m, items) == items
    decreases items
  {
    if |items| > 0 {
      AllCollapsedShowsList(rep, m, items[1..]);
      assert items == [items[0]] + items[1..];
    }
  }

  /**
   * On first render a top-level row is open (in the ledger and balance sheet
   * only if marked expandable) and its children, whose ids are not top-level
   * ids, are closed: the table starts two levels deep.
   */
  lemma InitiallyTwoLevels(rep: Report, items: seq<Item>, k: nat)
    requires k < |items|
    requires forall j, c :: 0 <= j < |items| && 0 <= c < |items[k].children| ==> items[k].children[c].id != items[j].id
    ensures VisibleNode(rep, InitialExpansion(items), items[k]) ==
      [items[k]] + (if rep == TrialBalance || items[k].isExpandable then items[k].children else [])
  {
    var m := InitialExpansion(items);
    assert Expanded(m, items[k].id);
    AllCollapsedShowsList(rep, m, items[k].children);
  }

  /** The ledger and the balance sheet never open a row that is not marked expandable. */
  lemma NotExpandableNeverOpens(rep: Report, m: Expansion, it: Item)
    requires rep != TrialBalance && !it.isExpandable
    ensures VisibleNode(rep, m, it) == [it]
  {
  }

  /** The trial balance opens an expanded row whether or not it is marked expandable. */
  lemma TrialBalanceIgnoresExpandable(m: Expansion, it: Item)
    requires Expanded(m, it.id)
    ensures VisibleNode(TrialBalance, m, it) == [it] + VisibleForest(TrialBalance, m, it.children)
  {
  }

  /** The rows depend on the map only through which ids read as expanded. */
  lemma {:induction false} SameExpandedSameRows(rep: Report, m1: Expansion, m2: Expansion, items: seq<Item>)
    requires forall id :: Expanded(m1, id) <==> Expanded(m2, id)
    ensures VisibleForest(rep, m1, items) == VisibleForest(rep, m2, items)
    decreases items
  {
    if |items| > 0 {
      SameExpandedSameRowsNode(rep, m1, m2, items[0]);
      SameExpandedSameRows(rep, m1, m2, items[1..]);
    }
  }

  lemma {:induction false} SameExpandedSameRowsNode(rep: Report, m1: Expansion, m2: Expansion, it: Item)
    requires forall id :: Expanded(m1, id) <==> Expanded(m2, id)
    ensures VisibleNode(rep, m1, it) == VisibleNode(rep, m2, it)
    decreases it
  {
    SameExpandedSameRows(rep, m1, m2, it.children);
  }

  /** Hence toggling a row twice renders exactly the rows rendered before. */
  lemma ToggleTwiceSameRows(rep: Report, m: Expansion, id: string, items: seq<Item>)
    ensures VisibleForest(rep, Toggle(Toggle(m, id), id), items) == VisibleForest(rep, m, items)
  {
    SameExpandedSameRows(rep, Toggle(Toggle(m, id), id), m, items);
  }

  /** No more rows are rendered than there are items in the tree. */
  lemma {:induction false} RowsAtMostNodes(rep: Report, m: Expansion, items: seq<Item>)
    ensures |VisibleForest(rep, m, items)| <= |Flatten(items)|
    decreases items
  {
    if |items| > 0 {
      RowsAtMostNodesNode(rep, m, items[0]);
      RowsAtMostNodes(rep, m, items[1..]);
    }
  }

  lemma {:induction false} RowsAtMostNodesNode(rep: Report, m: Expansion, it: Item)
    ensures |VisibleNode(rep, m, it)| <= |FlattenNode(it)|
    decreases it
  {
    RowsAtMostNodes(rep, m, it.children);
  }

  /** Every row of the tree is open in `m` under this report's rule. */
  ghost predicate AllOpen(rep: Report, m: Expansion, items: seq<Item>)
    decreases items
  {
    forall i :: 0 <= i < |items| ==> ShowsChildren(rep, m, items[i]) && AllOpen(rep, m, items[i].children)
  }

  /** With every row open the rendering is the full pre-order traversal. */
  lemma {:induction false} AllOpenShowsEverything(rep: Report, m: Expansion, items: seq<Item>)
    requires AllOpen(rep, m, items)
    ensures VisibleForest(rep, m, items) == Flatten(items)
    decreases items
  {
    if |items| > 0 {
      assert ShowsChildren(rep, m, items[0]) && AllOpen(rep, m, items[0].children);
      AllOpenShowsEverything(rep, m, items[0].children);
      assert AllOpen(rep, m, items[1..]) by {
        forall i | 0 <= i < |items[1..]|
          ensures ShowsChildren(rep, m, items[1..][i]) && AllOpen(rep, m, items[1..][i].children)
        {
          assert items[1..][i] == items[i + 1];
        }
      }
      AllOpenShowsEverything(rep, m, items[1..]);
    }
  }

  /** For the same tree and map, the ledger renders no more rows than the trial balance. */
  lemma {:induction false} LedgerShowsNoMoreThanTrialBalance(m: Expansion, items: seq<Item>)
    ensures |VisibleForest(Ledger, m, items)| <= |VisibleForest(TrialBalance, m, items)|
    decreases items
  {
    if |items| > 0 {
      LedgerNoMoreNode(m, items[0]);
      LedgerShowsNoMoreThanTrialBalance(m, items[1..]);
    }
  }

  lemma {:induction false} LedgerNoMoreNode(m: Expansion, it: Item)
    ensures |VisibleNode(Ledger, m, it)| <= |VisibleNode(TrialBalance, m, it)|
    decreases it
  {
    LedgerShowsNoMoreThanTrialBalance(m, it.children);
  }

  // ---------------------------------------------------------------------------
  // Cells
  // ---------------------------------------------------------------------------

  /** A displayed amount: text shown as is, or a number passed to `toLocaleString`. */
  datatype Shown = Raw(text: string) | Localised(value: real)

  /** `formatCurrency`. */
  function FormatCurrency(v: Amount): (r: Shown)
    ensures v == Text("-") ==> r == Raw("-")
    ensures v == Text("") ==> r == Raw("")
    ensures v.Num? ==> r == Localised(v.n)
    ensures v.Text? && v.s != "-" && v.s != "" ==>
      match Text.ParseFloat(v.s)
      case None => r == Raw("-")
      case Some(x) => r == Localised(x)
  {
    match v
    case Num(n) => Localised(n)
    case Text(s) =>
      if s == "-" || s == "" then Raw(s)
      else
        match Text.ParseFloat(s)
        case None => Raw("-")
        case Some(x) => Localised(x)
  }

  /** A whole number written as text is displayed like the number itself. */
  lemma DigitTextShownAsNumber(n: nat)
    ensures FormatCurrency(Text(Text.NatToString(n))) == FormatCurrency(Num(n as real))
  {
    Text.ParseNatToString(n);
    Text.DigitsOfNatToString(n);
    assert Text.NatToString(n) != "-";
  }

  /** Text whose first non-blank character cannot start a number is displayed as "-". */
  lemma UnreadableTextShownAsDash(s: string)
    requires s != "" && s != "-"
    requires var u := Text.TrimStart(s); |u| > 0 && !Text.IsDigit(u[0]) && u[0] !in "+-."
    ensures FormatCurrency(Text(s)) == Raw("-")
  {
    Text.ParseFloatNaN(s);
  }

  /** One rendered row: the left margin in pixels and the amount cells. */
  datatype Row = Row(name: string, marginPx: int, debit: Shown, credit: Option<Shown>)

  /** The row for an item: indented by 24px per level; the balance sheet has no credit column. */
  function RowOf(rep: Report, it: Item): (r: Row)
    ensures r.name == it.name && r.marginPx == it.level * 24
    ensures r.debit == FormatCurrency(it.debit)
    ensures r.credit.None? <==> rep == BalanceSheet
    ensures r.credit.Some? ==> r.credit.value == FormatCurrency(it.credit)
  {
    Row(it.name, it.level * 24, FormatCurrency(it.debit),
        if rep == BalanceSheet then None else Some(FormatCurrency(it.credit)))
  }

  function Rows(rep: Report, visible: seq<Item>): (rows: seq<Row>)
    ensures |rows| == |visible|
    ensures forall i :: 0 <= i < |visible| ==> rows[i] == RowOf(rep, visible[i])
    decreases |visible|
  {
    if |visible| == 0 then [] else [RowOf(rep, visible[0])] + Rows(rep, visible[1..])
  }

  /** The rendered table as it first appears. */
  function InitialTable(rep: Report, items: seq<Item>): seq<Row> {
    Rows(rep, VisibleForest(rep, InitialExpansion(items), items))
  }

  /** The balance sheet shows only debit amounts, and the other two show both, on every row. */
  lemma BalanceSheetDebitOnly(rep: Report, m: Expansion, items: seq<Item>, i: nat)
    requires i < |Rows(rep, VisibleForest(rep, m, items))|
    ensures Rows(rep, VisibleForest(rep, m, items))[i].credit.None? <==> rep == BalanceSheet
  {
  }
}
