/** The contract editor: party snapshots, line items with their running
    total, and the clause checklist (toggle, add, edit, delete, reorder). */
module ContractBuilder {
  import opened Types
  import opened Text
  import opened Seqs
  import Constants
  import App

  /** A clause tab: every clause, or the clauses of one category. */
  datatype CategoryFilter = All | Only(category: Category)

  datatype CategoryTab = CategoryTab(filter: CategoryFilter, caption: string)

  /** The editor's clause tabs with their labels, in display order. */
  const Categories: seq<CategoryTab> := [
    CategoryTab(All, "全部"),
    CategoryTab(Only(General), "一般條款"),
    CategoryTab(Only(Payment), "付款條件"),
    CategoryTab(Only(Safety), "安全衛生"),
    CategoryTab(Only(Environment), "環保清潔"),
    CategoryTab(Only(Custom), "特殊條款")
  ]

  function InTab(filter: CategoryFilter): Clause -> bool {
    (c: Clause) => filter.All? || c.category == filter.category
  }

  /** The clauses a tab shows: those of its category in list order, and
      every clause on the "all" tab. */
  function VisibleClauses(clauses: seq<Clause>, filter: CategoryFilter): (r: seq<Clause>)
    ensures SelectsInOrder(r, clauses, InTab(filter))
    ensures filter.Only? ==> forall k :: 0 <= k < |r| ==> r[k].category == filter.category
    ensures filter.All? ==> r == clauses
  {
    FilterSelectsInOrder(clauses, InTab(filter));
    AllTabShowsAll(clauses);
    Filter(clauses, InTab(filter))
  }

  lemma AllTabShowsAll(clauses: seq<Clause>)
    ensures Filter(clauses, InTab(All)) == clauses
  {
    FilterAll(clauses, InTab(All));
  }

  // ---------------------------------------------------------------- parties

  /** `updateParty(role, field, value)`: one field of one party changes. */
  function UpdateParty(c: Contract, role: Role, field: PartyField, value: string): (r: Contract)
    ensures GetField(GetParty(r, role), field) == value
    ensures forall g :: g != field ==> GetField(GetParty(r, role), g) == GetField(GetParty(c, role), g)
    ensures forall other :: other != role ==> GetParty(r, other) == GetParty(c, other)
    ensures r.(partyA := c.partyA, partyB := c.partyB) == c
  {
    SetParty(c, role, SetField(GetParty(c, role), field, value))
  }

  /** `loadParty(role, info)`: the slot takes a value copy of a directory
      entry; later directory edits cannot reach it. */
  function LoadParty(c: Contract, role: Role, info: PartyInfo): (r: Contract)
    ensures GetParty(r, role) == info
    ensures forall other :: other != role ==> GetParty(r, other) == GetParty(c, other)
    ensures r.(partyA := c.partyA, partyB := c.partyB) == c
  {
    SetParty(c, role, info)
  }

  /** Party A is saved to the own-company directory, party B to the
      contractor directory. */
  function KindFor(role: Role): App.DirectoryKind {
    match role
    case PartyA => App.MyCompany
    case PartyB => App.Contractor
  }

  /** The result of `saveCurrentParty`: the empty-name alert, or the
      directories after the upsert. */
  datatype PartySaveOutcome = NameMissing | PartySaved(dirs: App.Directories)

  /** `saveCurrentParty(role)`: refuses only an empty company name (a name of
      spaces passes), otherwise upserts the snapshot by name. */
  function SaveCurrentParty(c: Contract, role: Role, dirs: App.Directories): (r: PartySaveOutcome)
    ensures r.NameMissing? <==> GetParty(c, role).companyName == ""
    ensures r.PartySaved? ==> r.dirs == App.AddParty(dirs, GetParty(c, role), KindFor(role))
    ensures r.PartySaved? ==>
      && GetParty(c, role) in App.DirectoryOf(r.dirs, KindFor(role))
      && |App.DirectoryOf(r.dirs, KindFor(role))| <= |App.DirectoryOf(dirs, KindFor(role))| + 1
      && forall kind :: kind != KindFor(role) ==> App.DirectoryOf(r.dirs, kind) == App.DirectoryOf(dirs, kind)
  {
    var party := GetParty(c, role);
    if party.companyName == "" then NameMissing
    else
      var d := App.AddParty(dirs, party, KindFor(role));
      var list := App.DirectoryOf(dirs, KindFor(role));
      var i := FindIndex(list, App.NamedAs(party.companyName));
      assert i >= 0 ==> App.DirectoryOf(d, KindFor(role))[i] == party;
      assert i < 0 ==> App.DirectoryOf(d, KindFor(role))[|list|] == party;
      PartySaved(d)
  }

  /** Saving a party from the editor keeps the directory's names unique. */
  lemma SaveCurrentPartyKeepsNamesUnique(c: Contract, role: Role, dirs: App.Directories)
    requires App.UniqueNames(App.DirectoryOf(dirs, KindFor(role)))
    ensures var r := SaveCurrentParty(c, role, dirs);
      r.PartySaved? ==> App.UniqueNames(App.DirectoryOf(r.dirs, KindFor(role)))
  {
    App.UpsertKeepsNamesUnique(App.DirectoryOf(dirs, KindFor(role)), GetParty(c, role));
  }

  // ------------------------------------------------------------ line items

  /** The total-recompute effect: totalAmount becomes the sum of the lines. */
  function Recompute(c: Contract): (r: Contract)
    ensures TotalConsistent(r)
    ensures r.(totalAmount := c.totalAmount) == c
  {
    c.(totalAmount := Subtotal(c.items))
  }

  /** JavaScript's `value || fallback` on an optional string. */
  function TextOr(o: Option<string>, fallback: string): string {
    if o.Some? && o.value != "" then o.value else fallback
  }

  /** The line `addItem` builds: quantity 1, empty note, and name, unit and
      price from the preset where it supplies a non-empty value. */
  function NewItem(freshId: string, preset: Option<ItemPreset>): ContractItem {
    var name := if preset.Some? then TextOr(preset.value.name, "") else "";
    var unit := if preset.Some? then TextOr(preset.value.unit, "m²") else "m²";
    var price := if preset.Some? && preset.value.price.Some? then preset.value.price.value else 0;
    ContractItem(freshId, name, unit, price, 1, Some(""))
  }

  /** `addItem(preset?)` followed by the total-recompute effect: appends
      exactly one new line, the old lines stay as they were, in order, and
      the recomputed total grows by the new line's price. */
  function AddItem(c: Contract, freshId: string, preset: Option<ItemPreset>): (r: Contract)
    ensures |r.items| == |c.items| + 1 && r.items[..|c.items|] == c.items
    ensures var item := r.items[|c.items|];
      && item.id == freshId && item.quantity == 1 && item.note == Some("")
      && (preset.None? ==> item.name == "" && item.unit == "m²" && item.price == 0)
    ensures TotalConsistent(r)
    ensures TotalConsistent(c) ==> r.totalAmount == c.totalAmount + r.items[|c.items|].price
    ensures r.(items := c.items, totalAmount := c.totalAmount) == c
  {
    var items := c.items + [NewItem(freshId, preset)];
    assert items[..|c.items|] == c.items;
    Recompute(c.(items := items))
  }

  /** Adding one of the quick-add templates copies its name, unit and price. */
  lemma AddPresetItem(c: Contract, freshId: string, k: nat)
    requires k < |Constants.DefaultItems|
    ensures var preset := Constants.DefaultItems[k];
      var item := AddItem(c, freshId, Some(preset)).items[|c.items|];
      && item.name == preset.name.value
      && item.unit == preset.unit.value
      && item.price == preset.price.value
      && item.quantity == 1
  {
    Constants.DefaultItemFacts();
  }

  function OtherItem(id: string): ContractItem -> bool {
    (x: ContractItem) => x.id != id
  }

  function SameItem(id: string): ContractItem -> bool {
    (x: ContractItem) => x.id == id
  }

  /** Putting a line in front of others adds its amount to their subtotal. */
  lemma SubtotalCons(x: ContractItem, rest: seq<ContractItem>)
    ensures Subtotal([x] + rest) == LineTotal(x) + Subtotal(rest)
  {
    SubtotalFirst([x] + rest);
    assert ([x] + rest)[1..] == rest;
  }

  /** The subtotal splits into the lines without the id and those with it. */
  lemma {:induction false} SubtotalSplit(items: seq<ContractItem>, id: string)
    ensures Subtotal(items) == Subtotal(Filter(items, OtherItem(id))) + Subtotal(Filter(items, SameItem(id)))
  {
    if |items| > 0 {
      var x, rest := items[0], items[1..];
      SubtotalSplit(rest, id);
      assert items == [x] + rest;
      SubtotalCons(x, rest);
      var keep := Filter(rest, OtherItem(id));
      var drop := Filter(rest, SameItem(id));
      if x.id != id {
        assert Filter(items, OtherItem(id)) == [x] + keep;
        assert Filter(items, SameItem(id)) == drop;
        SubtotalCons(x, keep);
      } else {
        assert Filter(items, OtherItem(id)) == keep;
        assert Filter(items, SameItem(id)) == [x] + drop;
        SubtotalCons(x, drop);
      }
    }
  }

  /** `removeItem(id)` followed by the total-recompute effect: drops exactly
      the lines with that id and keeps every other line in its original
      order; the recomputed total loses their amounts. */
  function RemoveItem(c: Contract, id: string): (r: Contract)
    ensures SelectsInOrder(r.items, c.items, OtherItem(id))
    ensures forall k :: 0 <= k < |r.items| ==> r.items[k].id != id
    ensures forall k :: 0 <= k < |c.items| && c.items[k].id != id ==> c.items[k] in r.items
    ensures TotalConsistent(r)
    ensures TotalConsistent(c) ==>
      r.totalAmount == c.totalAmount - Subtotal(Filter(c.items, SameItem(id)))
    ensures r.(items := c.items, totalAmount := c.totalAmount) == c
  {
    FilterSelectsInOrder(c.items, OtherItem(id));
    FilterMembers(c.items, OtherItem(id));
    SubtotalSplit(c.items, id);
    Recompute(c.(items := Filter(c.items, OtherItem(id))))
  }

  /** A field-typed `updateItem` value: which field, and its new value. */
  datatype ItemEdit =
    | SetId(id: string)
    | SetName(name: string)
    | SetUnit(unit: string)
    | SetPrice(price: int)
    | SetQuantity(quantity: int)
    | SetNote(note: string)

  /** `{ ...item, [field]: value }`: the named field takes the new value and
      every other field keeps its old one. */
  function ApplyEdit(item: ContractItem, edit: ItemEdit): (r: ContractItem)
    ensures edit.SetId? ==> r.id == edit.id
    ensures edit.SetName? ==> r.name == edit.name
    ensures edit.SetUnit? ==> r.unit == edit.unit
    ensures edit.SetPrice? ==> r.price == edit.price
    ensures edit.SetQuantity? ==> r.quantity == edit.quantity
    ensures edit.SetNote? ==> r.note == Some(edit.note)
    ensures !edit.SetId? ==> r.id == item.id
    ensures !edit.SetName? ==> r.name == item.name
    ensures !edit.SetUnit? ==> r.unit == item.unit
    ensures !edit.SetPrice? ==> r.price == item.price
    ensures !edit.SetQuantity? ==> r.quantity == item.quantity
    ensures !edit.SetNote? ==> r.note == item.note
  {
    match edit
    case SetId(v) => item.(id := v)
    case SetName(v) => item.(name := v)
    case SetUnit(v) => item.(unit := v)
    case SetPrice(v) => item.(price := v)
    case SetQuantity(v) => item.(quantity := v)
    case SetNote(v) => item.(note := Some(v))
  }

  /** `updateItem(id, field, value)` followed by the total-recompute effect:
      same length and order; the lines with that id get the edit, all others
      stay identical, and the total is recomputed. */
  function UpdateItem(c: Contract, id: string, edit: ItemEdit): (r: Contract)
    ensures |r.items| == |c.items|
    ensures forall k :: 0 <= k < |c.items| && c.items[k].id != id ==> r.items[k] == c.items[k]
    ensures forall k :: 0 <= k < |c.items| && c.items[k].id == id ==> r.items[k] == ApplyEdit(c.items[k], edit)
    ensures TotalConsistent(r)
    ensures r.(items := c.items, totalAmount := c.totalAmount) == c
  {
    var items := seq(|c.items|, k requires 0 <= k < |c.items| =>
      if c.items[k].id == id then ApplyEdit(c.items[k], edit) else c.items[k]);
    Recompute(c.(items := items))
  }

  /** The effect's `reduce`, accumulating left to right: it computes the
      sum of price times quantity. */
  method ComputeTotal(items: seq<ContractItem>) returns (total: int)
    ensures total == Subtotal(items)
  {
    total := 0;
    var i := 0;
    while i < |items|
      invariant 0 <= i <= |items|
      invariant total == Subtotal(items[..i])
    {
      assert items[..i + 1][..i] == items[..i];
      total := total + items[i].price * items[i].quantity;
      i := i + 1;
    }
    assert items[..i] == items;
  }

  // ---------------------------------------------------------------- clauses

  /** `toggleClause(id)`: flips `selected` on the clauses with that id; no
      other field and no other clause changes. */
  function ToggleClause(c: Contract, id: string): (r: Contract)
    ensures |r.clauses| == |c.clauses|
    ensures forall k :: 0 <= k < |c.clauses| ==>
      && r.clauses[k].(selected := c.clauses[k].selected) == c.clauses[k]
      && (r.clauses[k].selected != c.clauses[k].selected <==> c.clauses[k].id == id)
    ensures r.(clauses := c.clauses) == c
  {
    var clauses := seq(|c.clauses|, k requires 0 <= k < |c.clauses| =>
      if c.clauses[k].id == id then c.clauses[k].(selected := !c.clauses[k].selected) else c.clauses[k]);
    c.(clauses := clauses)
  }

  /** Toggling the same clause twice restores the contract. */
  lemma ToggleTwice(c: Contract, id: string)
    ensures ToggleClause(ToggleClause(c, id), id) == c
  {
    var r := ToggleClause(ToggleClause(c, id), id);
    assert r.clauses == c.clauses;
  }

  /** `handleAddCustomClause()`: text of whitespace only is ignored;
      anything else is appended, untrimmed, as a selected custom clause. */
  function AddCustomClause(c: Contract, text: string, freshId: string): (r: Contract)
    ensures (forall k :: 0 <= k < |text| ==> IsWhitespace(text[k])) ==> r == c
    ensures (exists k :: 0 <= k < |text| && !IsWhitespace(text[k])) ==>
      r.clauses == c.clauses + [Clause(freshId, Custom, text, true, true)]
    ensures r.(clauses := c.clauses) == c
  {
    BlankIffAllWhitespace(text);
    if Trim(text) == [] then c
    else c.(clauses := c.clauses + [Clause(freshId, Custom, text, true, true)])
  }

  /** `saveEditing(id)` with the edit form's content and category: those
      two fields change on the clauses with that id; id, `isCustom` and
      `selected` never change, and the other clauses stay identical. */
  function SaveEditing(c: Contract, id: string, content: string, category: Category): (r: Contract)
    ensures |r.clauses| == |c.clauses|
    ensures forall k :: 0 <= k < |c.clauses| ==>
      && r.clauses[k].id == c.clauses[k].id
      && r.clauses[k].isCustom == c.clauses[k].isCustom
      && r.clauses[k].selected == c.clauses[k].selected
      && (c.clauses[k].id == id ==> r.clauses[k].content == content && r.clauses[k].category == category)
      && (c.clauses[k].id != id ==> r.clauses[k] == c.clauses[k])
    ensures r.(clauses := c.clauses) == c
  {
    var clauses := seq(|c.clauses|, k requires 0 <= k < |c.clauses| =>
      if c.clauses[k].id == id then c.clauses[k].(content := content, category := category)
      else c.clauses[k]);
    c.(clauses := clauses)
  }

  /** Saving the same edit twice is the same as saving it once. */
  lemma SaveEditingIdempotent(c: Contract, id: string, content: string, category: Category)
    ensures SaveEditing(SaveEditing(c, id, content, category), id, content, category)
         == SaveEditing(c, id, content, category)
  {
    var once := SaveEditing(c, id, content, category);
    var twice := SaveEditing(once, id, content, category);
    assert twice.clauses == once.clauses;
  }

  function OtherClause(id: string): Clause -> bool {
    (x: Clause) => x.id != id
  }

  /** `deleteClause(id)` after the confirmation dialog: declined, nothing
      changes; confirmed, exactly the clauses with that id go and the others
      keep their order. */
  function DeleteClause(c: Contract, id: string, confirmed: bool): (r: Contract)
    ensures !confirmed ==> r == c
    ensures confirmed ==>
      && SelectsInOrder(r.clauses, c.clauses, OtherClause(id))
      && (forall k :: 0 <= k < |r.clauses| ==> r.clauses[k].id != id)
    ensures r.(clauses := c.clauses) == c
  {
    FilterSelectsInOrder(c.clauses, OtherClause(id));
    if confirmed then c.(clauses := Filter(c.clauses, OtherClause(id))) else c
  }

  datatype Direction = Up | Down

  /** The position a clause moves to. */
  function Target(index: int, dir: Direction): int {
    if dir == Up then index - 1 else index + 1
  }

  /** `moveClause(index, dir)` with a full-list index: swaps the clause
      with its neighbour, or does nothing when there is no neighbour that
      way. No other position changes and the list is a permutation of the
      old one. */
  function MoveClause(c: Contract, index: int, dir: Direction): (r: Contract)
    requires 0 <= index < |c.clauses|
    ensures var t := Target(index, dir);
      (t < 0 || t >= |c.clauses|) ==> r == c
    ensures var t := Target(index, dir);
      0 <= t < |c.clauses| ==>
        && |r.clauses| == |c.clauses|
        && r.clauses[index] == c.clauses[t]
        && r.clauses[t] == c.clauses[index]
        && (forall k :: 0 <= k < |c.clauses| && k != index && k != t ==> r.clauses[k] == c.clauses[k])
    ensures multiset(r.clauses) == multiset(c.clauses)
    ensures r.(clauses := c.clauses) == c
  {
    var t := Target(index, dir);
    if t < 0 || t >= |c.clauses| then c
    else c.(clauses := c.clauses[index := c.clauses[t]][t := c.clauses[index]])
  }

  /** Moving a clause up and then moving it back down restores the order. */
  lemma MoveUpThenDown(c: Contract, index: int)
    requires 1 <= index < |c.clauses|
    ensures MoveClause(MoveClause(c, index, Up), index - 1, Down) == c
  {
    var r := MoveClause(MoveClause(c, index, Up), index - 1, Down);
    assert r.clauses == c.clauses;
  }

  /** Swapping two neighbours one of which a filter drops leaves the
      filtered sequence unchanged. */
  lemma SwapHiddenNeighbours(a: seq<Clause>, x: Clause, y: Clause, b: seq<Clause>, p: Clause -> bool)
    requires !p(x) || !p(y)
    ensures Filter(a + [x, y] + b, p) == Filter(a + [y, x] + b, p)
  {
    FilterConcat(a + [x, y], b, p);
    FilterConcat(a, [x, y], p);
    FilterConcat(a + [y, x], b, p);
    FilterConcat(a, [y, x], p);
    assert [x, y][1..] == [y];
    assert [y, x][1..] == [x];
    assert Filter([x, y], p) == Filter([y, x], p);
  }

  /** The index is a full-list index: when the neighbour it swaps with is
      hidden by the active tab, the tab's list looks unchanged. */
  lemma MoveBehindHiddenNeighbour(c: Contract, index: int, dir: Direction, filter: CategoryFilter)
    requires 0 <= index < |c.clauses|
    requires 0 <= Target(index, dir) < |c.clauses|
    requires !InTab(filter)(c.clauses[Target(index, dir)])
    ensures VisibleClauses(MoveClause(c, index, dir).clauses, filter) == VisibleClauses(c.clauses, filter)
  {
    var s := c.clauses;
    var t := Target(index, dir);
    var lo := if index < t then index else t;
    var r := MoveClause(c, index, dir).clauses;
    var a, b := s[..lo], s[lo + 2..];
    assert s == a + [s[lo], s[lo + 1]] + b;
    assert r == a + [s[lo + 1], s[lo]] + b;
    SwapHiddenNeighbours(a, s[lo], s[lo + 1], b, InTab(filter));
  }
}
