/** The record types of a formwork subcontract: the two parties, the
    bill-of-quantities line items, the clauses and the contract itself. */
module Types {

  datatype Option<T> = None | Some(value: T)

  /** One counterparty's identity; every field is free text and may be empty. */
  datatype PartyInfo = PartyInfo(
    companyName: string,
    taxId: string,
    representative: string,
    phone: string,
    address: string)

  /** The names of PartyInfo's fields, for the field-by-field form edits. */
  datatype PartyField = CompanyName | TaxId | Representative | Phone | Address

  function GetField(p: PartyInfo, f: PartyField): string {
    match f
    case CompanyName => p.companyName
    case TaxId => p.taxId
    case Representative => p.representative
    case Phone => p.phone
    case Address => p.address
  }

  /** `{ ...p, [f]: v }`: the record with field f replaced and the others kept. */
  function SetField(p: PartyInfo, f: PartyField, v: string): (r: PartyInfo)
    ensures GetField(r, f) == v
    ensures forall g :: g != f ==> GetField(r, g) == GetField(p, g)
  {
    match f
    case CompanyName => p.(companyName := v)
    case TaxId => p.(taxId := v)
    case Representative => p.(representative := v)
    case Phone => p.(phone := v)
    case Address => p.(address := v)
  }

  /** One billable line; the note is the only optional field. */
  datatype ContractItem = ContractItem(
    id: string,
    name: string,
    unit: string,
    price: int,
    quantity: int,
    note: Option<string>)

  /** `Partial<ContractItem>` as far as a preset supplies it: name, unit and
      price, each possibly absent. */
  datatype ItemPreset = ItemPreset(name: Option<string>, unit: Option<string>, price: Option<int>)

  /** The five clause categories; nothing else is a category. */
  datatype Category = General | Payment | Safety | Environment | Custom

  datatype Clause = Clause(
    id: string,
    category: Category,
    content: string,
    isCustom: bool,
    selected: bool)

  /** A contract is either a draft or finalized; there is no third state. */
  datatype Status = Draft | Finalized

  /** The aggregate root: two independent party snapshots of the same shape
      plus ordered items and clauses. createdAt is a timestamp. */
  datatype Contract = Contract(
    id: string,
    title: string,
    createdAt: int,
    status: Status,
    partyA: PartyInfo,
    partyB: PartyInfo,
    items: seq<ContractItem>,
    clauses: seq<Clause>,
    totalAmount: int,
    projectLocation: string,
    startDate: string,
    endDate: string)

  /** Which of the two party slots of a contract. */
  datatype Role = PartyA | PartyB

  function GetParty(c: Contract, role: Role): PartyInfo {
    match role
    case PartyA => c.partyA
    case PartyB => c.partyB
  }

  function SetParty(c: Contract, role: Role, p: PartyInfo): (r: Contract)
    ensures GetParty(r, role) == p
    ensures forall other :: other != role ==> GetParty(r, other) == GetParty(c, other)
    ensures r.(partyA := c.partyA, partyB := c.partyB) == c
  {
    match role
    case PartyA => c.(partyA := p)
    case PartyB => c.(partyB := p)
  }

  /** The serialized name of a category, as stored in the contract data. */
  function CategoryName(c: Category): string {
    match c
    case General => "general"
    case Payment => "payment"
    case Safety => "safety"
    case Environment => "environment"
    case Custom => "custom"
  }

  /** Reads a stored category name back; any other string is not a category. */
  function ParseCategory(s: string): (r: Option<Category>)
    ensures forall c :: r == Some(c) <==> CategoryName(c) == s
  {
    if s == "general" then Some(General)
    else if s == "payment" then Some(Payment)
    else if s == "safety" then Some(Safety)
    else if s == "environment" then Some(Environment)
    else if s == "custom" then Some(Custom)
    else None
  }

  /** price times quantity, the amount of one line. */
  function LineTotal(item: ContractItem): int {
    item.price * item.quantity
  }

  /** The sum of the line totals, accumulated left to right like
      `items.reduce((sum, item) => sum + item.price * item.quantity, 0)`. */
  function Subtotal(items: seq<ContractItem>): int {
    if |items| == 0 then 0 else Subtotal(items[..|items| - 1]) + LineTotal(items[|items| - 1])
  }

  /** The contract invariant: the stored total is the sum of its lines. */
  predicate TotalConsistent(c: Contract) {
    c.totalAmount == Subtotal(c.items)
  }

  /** The subtotal of a concatenation is the sum of the subtotals. */
  lemma {:induction false} SubtotalConcat(a: seq<ContractItem>, b: seq<ContractItem>)
    ensures Subtotal(a + b) == Subtotal(a) + Subtotal(b)
    decreases |b|
  {
    if |b| == 0 {
      assert a + b == a;
    } else {
      SubtotalConcat(a, b[..|b| - 1]);
      assert (a + b)[..|a + b| - 1] == a + b[..|b| - 1];
    }
  }

  /** The sum does not depend on the direction of accumulation: adding the
      first line to the rest gives the same total. */
  lemma SubtotalFirst(items: seq<ContractItem>)
    requires |items| > 0
    ensures Subtotal(items) == LineTotal(items[0]) + Subtotal(items[1..])
  {
    SubtotalConcat([items[0]], items[1..]);
    assert [items[0]] + items[1..] == items;
    assert [items[0]][..0] == [];
  }
}
