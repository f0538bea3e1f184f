/** What the printable contract derives from the contract data: the clause
    category labels, the reference code, the numbered item table, the tax
    and grand-total rows and the list of printed clauses. */
module PrintView {
  import opened Types
  import opened Text
  import opened Seqs
  import ContractBuilder

  // ------------------------------------------------------ category labels

  /** The label printed for a category value that is not one of the five. */
  const OtherLabel: string := "其他條款"

  /** `getCategoryLabel`: the label of a stored category value. The value is
      taken as the raw stored string, so values outside the five categories
      reach the default label. */
  function CategoryLabel(category: string): (r: string)
    ensures r == OtherLabel <==> ParseCategory(category) == None
    ensures forall i :: 1 <= i < |ContractBuilder.Categories| ==>
      (CategoryName(ContractBuilder.Categories[i].filter.category) == category <==>
       r == ContractBuilder.Categories[i].caption)
  {
    if category == "general" then "一般條款"
    else if category == "payment" then "付款條件"
    else if category == "safety" then "安全衛生"
    else if category == "environment" then "環保清潔"
    else if category == "custom" then "特殊條款"
    else OtherLabel
  }

  /** The printed label of every real category is the caption of that
      category's tab in the clause editor, and never the default label. */
  lemma LabelsMatchTabs(c: Category)
    ensures exists i ::
      && 1 <= i < |ContractBuilder.Categories|
      && ContractBuilder.Categories[i].filter == ContractBuilder.Only(c)
      && CategoryLabel(CategoryName(c)) == ContractBuilder.Categories[i].caption
    ensures CategoryLabel(CategoryName(c)) != OtherLabel
  {
    var i := match c
      case General => 1
      case Payment => 2
      case Safety => 3
      case Environment => 4
      case Custom => 5;
    assert ContractBuilder.Categories[i].filter == ContractBuilder.Only(c);
  }

  // ------------------------------------------------------- reference code

  function Min(a: int, b: int): int {
    if a <= b then a else b
  }

  /** `data.id.slice(0, 8).toUpperCase()`: the first eight characters of the
      id (all of it when shorter), upper-cased. */
  function ReferenceCode(id: string): (r: string)
    ensures |r| == Min(8, |id|) <= 8
    ensures forall k :: 0 <= k < |r| ==> r[k] == UpperChar(id[k])
  {
    Upper(id[..Min(8, |id|)])
  }

  /** Only the first eight characters of the id matter. */
  lemma ReferenceCodeOfPrefix(id: string, rest: string)
    requires |id| >= 8
    ensures ReferenceCode(id + rest) == ReferenceCode(id)
  {
    var a, b := ReferenceCode(id + rest), ReferenceCode(id);
    assert forall k :: 0 <= k < 8 ==> a[k] == b[k];
  }

  /** The code contains no lower-case ASCII letter, so coding a code again
      changes nothing. */
  lemma ReferenceCodeIdempotent(id: string)
    ensures forall k :: 0 <= k < |ReferenceCode(id)| ==> !('a' <= ReferenceCode(id)[k] <= 'z')
    ensures ReferenceCode(ReferenceCode(id)) == ReferenceCode(id)
  {
    var r := ReferenceCode(id);
    var rr := ReferenceCode(r);
    assert |rr| == |r|;
    forall k | 0 <= k < |r|
      ensures !('a' <= r[k] <= 'z') && rr[k] == r[k]
    {
      assert r[k] == UpperChar(id[k]);
    }
  }

  // ------------------------------------------------------------ item table

  /** One printed row of the item table. A missing note prints as nothing. */
  datatype ItemRow = ItemRow(
    number: int,
    name: string,
    unit: string,
    quantity: int,
    price: int,
    amount: int,
    note: string)

  function NoteText(note: Option<string>): string {
    match note
    case None => ""
    case Some(s) => s
  }

  /** `data.items.map((item, index) => …)`: one row per line, in order,
      numbered from one, the amount being quantity times unit price. */
  function ItemRows(items: seq<ContractItem>): (rows: seq<ItemRow>)
    ensures |rows| == |items|
    ensures forall k :: 0 <= k < |rows| ==>
      && rows[k].number == k + 1
      && rows[k].name == items[k].name && rows[k].unit == items[k].unit
      && rows[k].quantity == items[k].quantity && rows[k].price == items[k].price
      && rows[k].amount == LineTotal(items[k])
      && (items[k].note.Some? ==> rows[k].note == items[k].note.value)
      && (items[k].note.None? ==> rows[k].note == "")
  {
    seq(|items|, k requires 0 <= k < |items| =>
      var it := items[k];
      ItemRow(k + 1, it.name, it.unit, it.quantity, it.price, it.quantity * it.price, NoteText(it.note)))
  }

  /** The sum of the amount column. */
  function AmountSum(rows: seq<ItemRow>): int {
    if |rows| == 0 then 0 else AmountSum(rows[..|rows| - 1]) + rows[|rows| - 1].amount
  }

  /** The amount column adds up to the subtotal of the lines, so for a
      contract whose stored total is consistent, the untaxed total row is
      the sum of the rows above it. */
  lemma {:induction false} RowsAddUp(items: seq<ContractItem>)
    ensures AmountSum(ItemRows(items)) == Subtotal(items)
    decreases |items|
  {
    if |items| > 0 {
      var init := items[..|items| - 1];
      RowsAddUp(init);
      assert ItemRows(items)[..|items| - 1] == ItemRows(init);
    }
  }

  // ------------------------------------------------------------- money rows

  /** `Math.round` on a non-special number: the nearest integer, halves
      going up. */
  function Round(x: real): (r: int)
    ensures r as real - 0.5 <= x < r as real + 0.5
  {
    (x + 0.5).Floor
  }

  /** `Math.round(total * 0.05)`: the 5% business tax. */
  function Tax(total: int): (r: int)
    ensures 20 * r - 10 <= total < 20 * r + 10
  {
    Round(total as real * 0.05)
  }

  /** `Math.round(total * 1.05)`: the contract price with tax. */
  function GrandTotal(total: int): (r: int)
    ensures 20 * r - 10 <= 21 * total < 20 * r + 10
  {
    Round(total as real * 1.05)
  }

  /** On integer totals both roundings are integer arithmetic: the tax is
      (total + 10) div 20, the grand total is total plus the tax, and a
      non-negative total never pays more tax than itself. */
  lemma TaxInIntegers(total: int)
    ensures Tax(total) == (total + 10) / 20
    ensures GrandTotal(total) == total + Tax(total)
    ensures total >= 0 ==> 0 <= Tax(total) <= total
  {
    var t, g := Tax(total), GrandTotal(total);
    var q := (total + 10) / 20;
    assert 20 * q <= total + 10 < 20 * q + 20;
    assert t == q;
    assert 20 * (g - total) - 10 <= total < 20 * (g - total) + 10;
  }

  /** The three rows under the item table. */
  datatype MoneyRows = MoneyRows(untaxed: int, tax: int, withTax: int)

  function Totals(c: Contract): (m: MoneyRows)
    ensures m.untaxed == c.totalAmount
    ensures m.tax == Tax(c.totalAmount) && m.withTax == GrandTotal(c.totalAmount)
    ensures m.withTax == m.untaxed + m.tax
    ensures TotalConsistent(c) ==> m.untaxed == AmountSum(ItemRows(c.items))
  {
    TaxInIntegers(c.totalAmount);
    RowsAddUp(c.items);
    MoneyRows(c.totalAmount, Tax(c.totalAmount), GrandTotal(c.totalAmount))
  }

  // ------------------------------------------------------- printed clauses

  function IsSelected(cl: Clause): bool {
    cl.selected
  }

  /** `data.clauses.filter(c => c.selected)`: exactly the selected clauses,
      in their order in the contract. */
  function PrintedClauses(c: Contract): (r: seq<Clause>)
    ensures forall k :: 0 <= k < |r| ==> r[k].selected && r[k] in c.clauses
    ensures forall k :: 0 <= k < |c.clauses| && c.clauses[k].selected ==> c.clauses[k] in r
    ensures SelectsInOrder(r, c.clauses, IsSelected)
  {
    FilterSelectsInOrder(c.clauses, IsSelected);
    FilterMembers(c.clauses, IsSelected);
    Filter(c.clauses, IsSelected)
  }
}
