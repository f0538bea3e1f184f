/** The contractor price history: every line item of every past contract,
    grouped by the contract's party B company name and listed newest first. */
module PriceHistory {
  import opened Types
  import opened Text
  import opened Seqs

  /** One historical price: the line item as it was, tagged with its
      contract's id, title and creation time. */
  datatype PriceRecord = PriceRecord(contractId: string, contractTitle: string, date: int, item: ContractItem)

  /** One group of the history, under its key `name`: the party snapshot
      kept for it and its records. */
  datatype ContractorHistory = ContractorHistory(name: string, info: PartyInfo, records: seq<PriceRecord>)

  /** The records one contract contributes, one per line item, in item order. */
  function RecordsOf(c: Contract): seq<PriceRecord> {
    seq(|c.items|, k requires 0 <= k < |c.items| => PriceRecord(c.id, c.title, c.createdAt, c.items[k]))
  }

  function KeyIs(name: string): ContractorHistory -> bool {
    (h: ContractorHistory) => h.name == name
  }

  function PartyBNamed(name: string): Contract -> bool {
    (c: Contract) => c.partyB.companyName == name
  }

  /** The index of the first contract whose party B has that name, or -1. */
  function FirstWith(cs: seq<Contract>, name: string): int {
    FindIndex(cs, PartyBNamed(name))
  }

  // ------------------------------------------------------------- grouping

  /** One step of the `forEach`: a contract without a party B name is
      skipped; otherwise its name gets a group (with this contract's party B
      as the snapshot) if it has none yet, and its records are appended. */
  function AddContract(groups: seq<ContractorHistory>, c: Contract): (r: seq<ContractorHistory>)
    ensures |groups| <= |r| <= |groups| + 1
    ensures c.partyB.companyName == "" ==> r == groups
  {
    var name := c.partyB.companyName;
    if name == "" then groups
    else
      var i := FindIndex(groups, KeyIs(name));
      if i == -1 then groups + [ContractorHistory(name, c.partyB, RecordsOf(c))]
      else groups[i := groups[i].(records := groups[i].records + RecordsOf(c))]
  }

  /** A named contract either opens a new last group under its name, when
      no group has it, or lengthens the records of exactly the group with its
      name, every key and snapshot staying as it was. */
  lemma AddContractCases(groups: seq<ContractorHistory>, c: Contract)
    requires c.partyB.companyName != ""
    ensures (forall i :: 0 <= i < |groups| ==> groups[i].name != c.partyB.companyName) ==>
      AddContract(groups, c) == groups + [ContractorHistory(c.partyB.companyName, c.partyB, RecordsOf(c))]
    ensures KeysDistinct(groups) && (exists i :: 0 <= i < |groups| && groups[i].name == c.partyB.companyName) ==>
      var r := AddContract(groups, c);
      && |r| == |groups|
      && forall i :: 0 <= i < |groups| ==>
           && r[i].name == groups[i].name && r[i].info == groups[i].info
           && r[i].records == groups[i].records + (if groups[i].name == c.partyB.companyName then RecordsOf(c) else [])
  {
  }

  /** The groups before sorting, contract by contract in input order. */
  function Group(cs: seq<Contract>): (r: seq<ContractorHistory>)
    ensures |r| <= |cs|
  {
    if |cs| == 0 then [] else AddContract(Group(cs[..|cs| - 1]), cs[|cs| - 1])
  }

  /** Reference: the records of all contracts with that party B name, in
      contract order and item order. */
  function RecordsFor(cs: seq<Contract>, name: string): seq<PriceRecord> {
    if |cs| == 0 then []
    else (if cs[0].partyB.companyName == name then RecordsOf(cs[0]) else []) + RecordsFor(cs[1..], name)
  }

  /** Reference: the number of line items over the contracts with that name. */
  function ItemCount(cs: seq<Contract>, name: string): nat {
    if |cs| == 0 then 0
    else (if cs[0].partyB.companyName == name then |cs[0].items| else 0) + ItemCount(cs[1..], name)
  }

  lemma {:induction false} RecordsForCount(cs: seq<Contract>, name: string)
    ensures |RecordsFor(cs, name)| == ItemCount(cs, name)
  {
    if |cs| > 0 {
      RecordsForCount(cs[1..], name);
    }
  }

  lemma {:induction false} RecordsForAppend(cs: seq<Contract>, c: Contract, name: string)
    ensures RecordsFor(cs + [c], name) ==
      RecordsFor(cs, name) + (if c.partyB.companyName == name then RecordsOf(c) else [])
  {
    if |cs| == 0 {
      assert RecordsFor([c], name) == (if c.partyB.companyName == name then RecordsOf(c) else []) + RecordsFor([], name);
    } else {
      RecordsForAppend(cs[1..], c, name);
      assert (cs + [c])[1..] == cs[1..] + [c];
    }
  }

  lemma {:induction false} RecordsForAbsent(cs: seq<Contract>, name: string)
    requires FirstWith(cs, name) == -1
    ensures RecordsFor(cs, name) == []
  {
    if |cs| > 0 {
      assert !PartyBNamed(name)(cs[0]);
      assert forall k :: 0 <= k < |cs| - 1 ==> cs[1..][k] == cs[k + 1];
      RecordsForAbsent(cs[1..], name);
    }
  }

  /** Every record of a name comes from a contract with that name: its id,
      title and creation time, and one of its items unchanged. */
  lemma {:induction false} RecordProvenance(cs: seq<Contract>, name: string, r: PriceRecord)
    requires r in RecordsFor(cs, name)
    ensures exists k, m ::
      && 0 <= k < |cs| && 0 <= m < |cs[k].items| && cs[k].partyB.companyName == name
      && r == PriceRecord(cs[k].id, cs[k].title, cs[k].createdAt, cs[k].items[m])
  {
    var head := if cs[0].partyB.companyName == name then RecordsOf(cs[0]) else [];
    if r in head {
      var m :| 0 <= m < |head| && head[m] == r;
      assert cs[0].items[m] == cs[0].items[m];
    } else {
      RecordProvenance(cs[1..], name, r);
      var k, m :| 0 <= k < |cs[1..]| && 0 <= m < |cs[1..][k].items| && cs[1..][k].partyB.companyName == name
        && r == PriceRecord(cs[1..][k].id, cs[1..][k].title, cs[1..][k].createdAt, cs[1..][k].items[m]);
      assert cs[k + 1].items[m] == cs[1..][k].items[m];
    }
  }

  /** No two groups share a key. */
  predicate KeysDistinct(groups: seq<ContractorHistory>) {
    forall i, j :: 0 <= i < j < |groups| ==> groups[i].name != groups[j].name
  }

  /** Every key is a non-empty party B name of some contract. */
  ghost predicate KeysOccur(groups: seq<ContractorHistory>, cs: seq<Contract>) {
    forall i :: 0 <= i < |groups| ==> groups[i].name != "" && FirstWith(cs, groups[i].name) >= 0
  }

  /** Every non-empty party B name has a group. */
  ghost predicate NamesKeyed(groups: seq<ContractorHistory>, cs: seq<Contract>) {
    forall k :: 0 <= k < |cs| && cs[k].partyB.companyName != "" ==>
      FindIndex(groups, KeyIs(cs[k].partyB.companyName)) >= 0
  }

  /** Each group keeps the party B of the first contract with its name and
      holds all the records of that name. */
  ghost predicate ContentsRight(groups: seq<ContractorHistory>, cs: seq<Contract>)
    requires KeysOccur(groups, cs)
  {
    forall i :: 0 <= i < |groups| ==>
      && groups[i].info == cs[FirstWith(cs, groups[i].name)].partyB
      && groups[i].records == RecordsFor(cs, groups[i].name)
  }

  /** Groups appear in the order their names first occur. */
  ghost predicate FirstSeenOrder(groups: seq<ContractorHistory>, cs: seq<Contract>) {
    forall i, j :: 0 <= i < j < |groups| ==> FirstWith(cs, groups[i].name) < FirstWith(cs, groups[j].name)
  }

  /** What the groups say about the contracts they were built from: distinct
      non-empty keys, exactly the non-empty names, in first-seen order, each
      with the first contract's snapshot and all its records in order. */
  ghost predicate GroupedWell(groups: seq<ContractorHistory>, cs: seq<Contract>) {
    && KeysDistinct(groups)
    && KeysOccur(groups, cs)
    && NamesKeyed(groups, cs)
    && ContentsRight(groups, cs)
    && FirstSeenOrder(groups, cs)
  }

  /** What appending one contract does to the first occurrence and to the
      records of a single name. */
  lemma NameStep(pre: seq<Contract>, c: Contract, n: string)
    ensures FirstWith(pre + [c], n) ==
      if FirstWith(pre, n) >= 0 then FirstWith(pre, n) else if c.partyB.companyName == n then |pre| else -1
    ensures RecordsFor(pre + [c], n) == RecordsFor(pre, n) + (if c.partyB.companyName == n then RecordsOf(c) else [])
    ensures FirstWith(pre, n) >= 0 ==> (pre + [c])[FirstWith(pre, n)] == pre[FirstWith(pre, n)]
  {
    FindIndexAppend(pre, c, PartyBNamed(n));
    RecordsForAppend(pre, c, n);
  }

  lemma StepUnnamed(g: seq<ContractorHistory>, pre: seq<Contract>, c: Contract)
    requires GroupedWell(g, pre)
    requires c.partyB.companyName == ""
    ensures GroupedWell(AddContract(g, c), pre + [c])
  {
    var cs := pre + [c];
    forall i | 0 <= i < |g|
      ensures FirstWith(cs, g[i].name) == FirstWith(pre, g[i].name)
      ensures RecordsFor(cs, g[i].name) == RecordsFor(pre, g[i].name)
      ensures cs[FirstWith(cs, g[i].name)] == pre[FirstWith(pre, g[i].name)]
    {
      NameStep(pre, c, g[i].name);
      assert RecordsFor(pre, g[i].name) + [] == RecordsFor(pre, g[i].name);
    }
    forall k | 0 <= k < |cs| && cs[k].partyB.companyName != ""
      ensures FindIndex(g, KeyIs(cs[k].partyB.companyName)) >= 0
    {
      assert cs[k] == pre[k];
    }
  }

  /** Every group keeps its first contract when c is appended. */
  lemma FirstsKept(g: seq<ContractorHistory>, pre: seq<Contract>, c: Contract)
    requires KeysOccur(g, pre)
    ensures forall i :: 0 <= i < |g| ==>
      FirstWith(pre + [c], g[i].name) == FirstWith(pre, g[i].name) < |pre|
      && (pre + [c])[FirstWith(pre + [c], g[i].name)] == pre[FirstWith(pre, g[i].name)]
  {
    forall i | 0 <= i < |g|
      ensures FirstWith(pre + [c], g[i].name) == FirstWith(pre, g[i].name) < |pre|
      ensures (pre + [c])[FirstWith(pre + [c], g[i].name)] == pre[FirstWith(pre, g[i].name)]
    {
      NameStep(pre, c, g[i].name);
    }
  }

  /** A name not seen before: the first occurrence is c itself. */
  lemma NewNameFacts(g: seq<ContractorHistory>, pre: seq<Contract>, c: Contract)
    requires NamesKeyed(g, pre)
    requires c.partyB.companyName != ""
    requires FindIndex(g, KeyIs(c.partyB.companyName)) == -1
    ensures FirstWith(pre, c.partyB.companyName) == -1
    ensures FirstWith(pre + [c], c.partyB.companyName) == |pre|
    ensures RecordsFor(pre + [c], c.partyB.companyName) == RecordsOf(c)
    ensures forall i :: 0 <= i < |g| ==> g[i].name != c.partyB.companyName
  {
    var name := c.partyB.companyName;
    if FirstWith(pre, name) >= 0 {
      var k := FirstWith(pre, name);
      assert false;
    }
    NameStep(pre, c, name);
    RecordsForAbsent(pre, name);
  }

  /** Appending a group under a new key keeps the keys distinct. */
  lemma AppendedDistinct(g: seq<ContractorHistory>, added: ContractorHistory)
    requires KeysDistinct(g)
    requires forall i :: 0 <= i < |g| ==> g[i].name != added.name
    ensures KeysDistinct(g + [added])
  {
    var ng := g + [added];
    assert forall i :: 0 <= i < |g| ==> ng[i] == g[i];
  }

  /** A group appended for c's new name occurs at c, after all older keys. */
  lemma AppendedOccursLast(g: seq<ContractorHistory>, pre: seq<Contract>, c: Contract, added: ContractorHistory)
    requires KeysOccur(g, pre) && FirstSeenOrder(g, pre)
    requires added.name == c.partyB.companyName != ""
    requires FirstWith(pre + [c], added.name) == |pre|
    ensures KeysOccur(g + [added], pre + [c]) && FirstSeenOrder(g + [added], pre + [c])
  {
    FirstsKept(g, pre, c);
    AppendedOccurs(g, pre, c, added);
    AppendedLast(g, pre, c, added);
  }

  lemma AppendedOccurs(g: seq<ContractorHistory>, pre: seq<Contract>, c: Contract, added: ContractorHistory)
    requires forall i :: 0 <= i < |g| ==> g[i].name != "" && 0 <= FirstWith(pre + [c], g[i].name)
    requires added.name != "" && FirstWith(pre + [c], added.name) == |pre|
    ensures KeysOccur(g + [added], pre + [c])
  {
    var ng := g + [added];
    assert forall i :: 0 <= i < |g| ==> ng[i] == g[i];
  }

  lemma AppendedLast(g: seq<ContractorHistory>, pre: seq<Contract>, c: Contract, added: ContractorHistory)
    requires forall i :: 0 <= i < |g| ==> FirstWith(pre + [c], g[i].name) == FirstWith(pre, g[i].name) < |pre|
    requires FirstSeenOrder(g, pre)
    requires FirstWith(pre + [c], added.name) == |pre|
    ensures FirstSeenOrder(g + [added], pre + [c])
  {
    var ng := g + [added];
    assert forall i :: 0 <= i < |g| ==> ng[i] == g[i];
  }


  /** A group for another name says the same about pre + [c] as about pre. */
  lemma OtherGroupContent(h: ContractorHistory, pre: seq<Contract>, c: Contract)
    requires h.name != c.partyB.companyName
    requires 0 <= FirstWith(pre, h.name)
    requires h.info == pre[FirstWith(pre, h.name)].partyB
    requires h.records == RecordsFor(pre, h.name)
    ensures 0 <= FirstWith(pre + [c], h.name) < |pre| + 1
    ensures h.info == (pre + [c])[FirstWith(pre + [c], h.name)].partyB
    ensures h.records == RecordsFor(pre + [c], h.name)
  {
    NameStep(pre, c, h.name);
    RecordsForAppend(pre, c, h.name);
    assert RecordsFor(pre, h.name) + [] == RecordsFor(pre, h.name);
  }

  /** One group of the appended list, old or new, is right for pre + [c]. */
  lemma AppendedGroupContent(g: seq<ContractorHistory>, pre: seq<Contract>, c: Contract, i: nat)
    requires i <= |g|
    requires i < |g| ==> && g[i].name != c.partyB.companyName
                         && 0 <= FirstWith(pre, g[i].name)
                         && g[i].info == pre[FirstWith(pre, g[i].name)].partyB
                         && g[i].records == RecordsFor(pre, g[i].name)
    requires FirstWith(pre + [c], c.partyB.companyName) == |pre|
    requires RecordsFor(pre + [c], c.partyB.companyName) == RecordsOf(c)
    ensures var h := (g + [ContractorHistory(c.partyB.companyName, c.partyB, RecordsOf(c))])[i];
      && 0 <= FirstWith(pre + [c], h.name)
      && h.info == (pre + [c])[FirstWith(pre + [c], h.name)].partyB
      && h.records == RecordsFor(pre + [c], h.name)
  {
    if i < |g| {
      assert (g + [ContractorHistory(c.partyB.companyName, c.partyB, RecordsOf(c))])[i] == g[i];
      OtherGroupContent(g[i], pre, c);
    } else {
      assert (pre + [c])[|pre|] == c;
    }
  }

  /** The appended group holds c's snapshot and records; the others keep
      theirs. */
  lemma AppendedContents(g: seq<ContractorHistory>, pre: seq<Contract>, c: Contract)
    requires KeysOccur(g, pre) && ContentsRight(g, pre)
    requires forall i :: 0 <= i < |g| ==> g[i].name != c.partyB.companyName
    requires FirstWith(pre + [c], c.partyB.companyName) == |pre|
    requires RecordsFor(pre + [c], c.partyB.companyName) == RecordsOf(c)
    requires KeysOccur(g + [ContractorHistory(c.partyB.companyName, c.partyB, RecordsOf(c))], pre + [c])
    ensures ContentsRight(g + [ContractorHistory(c.partyB.companyName, c.partyB, RecordsOf(c))], pre + [c])
  {
    var ng := g + [ContractorHistory(c.partyB.companyName, c.partyB, RecordsOf(c))];
    forall i | 0 <= i < |ng|
      ensures ng[i].info == (pre + [c])[FirstWith(pre + [c], ng[i].name)].partyB
      ensures ng[i].records == RecordsFor(pre + [c], ng[i].name)
    {
      AppendedGroupContent(g, pre, c, i);
    }
  }

  /** After a new group, every non-empty name still has a group. */
  lemma AppendedCovers(g: seq<ContractorHistory>, pre: seq<Contract>, c: Contract, added: ContractorHistory)
    requires NamesKeyed(g, pre)
    requires added.name == c.partyB.companyName
    ensures NamesKeyed(g + [added], pre + [c])
  {
    var cs := pre + [c];
    var ng := g + [added];
    forall k | 0 <= k < |cs| && cs[k].partyB.companyName != ""
      ensures FindIndex(ng, KeyIs(cs[k].partyB.companyName)) >= 0
    {
      FindIndexAppend(g, added, KeyIs(cs[k].partyB.companyName));
      if k < |pre| {
        assert cs[k] == pre[k];
      }
    }
  }

  lemma StepNewName(g: seq<ContractorHistory>, pre: seq<Contract>, c: Contract)
    requires GroupedWell(g, pre)
    requires c.partyB.companyName != ""
    requires FindIndex(g, KeyIs(c.partyB.companyName)) == -1
    ensures GroupedWell(AddContract(g, c), pre + [c])
  {
    var added := ContractorHistory(c.partyB.companyName, c.partyB, RecordsOf(c));
    assert AddContract(g, c) == g + [added];
    NewNameFacts(g, pre, c);
    AppendedDistinct(g, added);
    AppendedOccursLast(g, pre, c, added);
    AppendedContents(g, pre, c);
    AppendedCovers(g, pre, c, added);
  }

  /** Records appended to group j: the keys stay the same. */
  function Extended(g: seq<ContractorHistory>, j: nat, more: seq<PriceRecord>): (ng: seq<ContractorHistory>)
    requires j < |g|
    ensures |ng| == |g|
    ensures forall i :: 0 <= i < |g| ==> ng[i].name == g[i].name && ng[i].info == g[i].info
    ensures forall i :: 0 <= i < |g| && i != j ==> ng[i] == g[i]
    ensures ng[j].records == g[j].records + more
  {
    g[j := g[j].(records := g[j].records + more)]
  }

  lemma ExtendedKeys(g: seq<ContractorHistory>, pre: seq<Contract>, c: Contract, j: nat)
    requires j < |g|
    requires KeysDistinct(g) && KeysOccur(g, pre) && FirstSeenOrder(g, pre)
    ensures var ng := Extended(g, j, RecordsOf(c));
      KeysDistinct(ng) && KeysOccur(ng, pre + [c]) && FirstSeenOrder(ng, pre + [c])
  {
    FirstsKept(g, pre, c);
  }

  lemma ExtendedContents(g: seq<ContractorHistory>, pre: seq<Contract>, c: Contract, j: nat)
    requires j < |g| && g[j].name == c.partyB.companyName
    requires KeysDistinct(g) && KeysOccur(g, pre) && ContentsRight(g, pre)
    requires KeysOccur(Extended(g, j, RecordsOf(c)), pre + [c])
    ensures ContentsRight(Extended(g, j, RecordsOf(c)), pre + [c])
  {
    var ng := Extended(g, j, RecordsOf(c));
    forall i | 0 <= i < |ng|
      ensures ng[i].info == (pre + [c])[FirstWith(pre + [c], ng[i].name)].partyB
      ensures ng[i].records == RecordsFor(pre + [c], ng[i].name)
    {
      if i != j {
        OtherGroupContent(g[i], pre, c);
      } else {
        NameStep(pre, c, g[j].name);
        RecordsForAppend(pre, c, g[j].name);
      }
    }
  }

  lemma ExtendedCovers(g: seq<ContractorHistory>, pre: seq<Contract>, c: Contract, j: nat)
    requires j < |g| && g[j].name == c.partyB.companyName
    requires NamesKeyed(g, pre)
    ensures NamesKeyed(Extended(g, j, RecordsOf(c)), pre + [c])
  {
    var cs := pre + [c];
    var ng := Extended(g, j, RecordsOf(c));
    forall k | 0 <= k < |cs| && cs[k].partyB.companyName != ""
      ensures FindIndex(ng, KeyIs(cs[k].partyB.companyName)) >= 0
    {
      var n := cs[k].partyB.companyName;
      var i := if k < |pre| then FindIndex(g, KeyIs(pre[k].partyB.companyName)) else j;
      assert KeyIs(n)(ng[i]);
    }
  }

  lemma StepKnownName(g: seq<ContractorHistory>, pre: seq<Contract>, c: Contract)
    requires GroupedWell(g, pre)
    requires c.partyB.companyName != ""
    requires FindIndex(g, KeyIs(c.partyB.companyName)) >= 0
    ensures GroupedWell(AddContract(g, c), pre + [c])
  {
    var j := FindIndex(g, KeyIs(c.partyB.companyName));
    assert AddContract(g, c) == Extended(g, j, RecordsOf(c));
    ExtendedKeys(g, pre, c, j);
    ExtendedContents(g, pre, c, j);
    ExtendedCovers(g, pre, c, j);
  }

  /** One contract more keeps the grouping well-formed. */
  lemma GroupStep(pre: seq<Contract>, c: Contract)
    requires GroupedWell(Group(pre), pre)
    ensures GroupedWell(AddContract(Group(pre), c), pre + [c])
  {
    var g := Group(pre);
    if c.partyB.companyName == "" {
      StepUnnamed(g, pre, c);
    } else if FindIndex(g, KeyIs(c.partyB.companyName)) == -1 {
      StepNewName(g, pre, c);
    } else {
      StepKnownName(g, pre, c);
    }
  }

  /** The fold builds well-grouped data from any contract list. */
  lemma {:induction false} GroupInvariant(cs: seq<Contract>)
    ensures GroupedWell(Group(cs), cs)
  {
    if |cs| > 0 {
      var pre, c := cs[..|cs| - 1], cs[|cs| - 1];
      GroupInvariant(pre);
      GroupStep(pre, c);
      assert cs == pre + [c];
    }
  }

  // ------------------------------------------ grouping on a plain object

  /** The property names every plain object inherits from `Object.prototype`
      (the standard's own properties, and `__proto__`). */
  const InheritedNames: set<string> := {
    "constructor", "hasOwnProperty", "isPrototypeOf", "propertyIsEnumerable",
    "toLocaleString", "toString", "valueOf", "__proto__",
    "__defineGetter__", "__defineSetter__", "__lookupGetter__", "__lookupSetter__" }

  /** The `forEach` step as written, on the object literal `{}`: for an
      inherited name `data[name]` is already truthy, so no group opens, and
      pushing onto its `records` (undefined) throws a TypeError, modelled as
      None. A contract without items pushes nothing and goes unrecorded. */
  function AddContractAsWritten(groups: seq<ContractorHistory>, c: Contract): (r: Option<seq<ContractorHistory>>)
    ensures c.partyB.companyName !in InheritedNames ==> r == Some(AddContract(groups, c))
    ensures c.partyB.companyName in InheritedNames && FindIndex(groups, KeyIs(c.partyB.companyName)) == -1 ==>
      && (r.None? <==> |c.items| > 0)
      && (r.Some? ==> r.value == groups)
  {
    var name := c.partyB.companyName;
    if name !in InheritedNames || FindIndex(groups, KeyIs(name)) >= 0 then Some(AddContract(groups, c))
    else if |c.items| == 0 then Some(groups)
    else None
  }

  /** The grouping as written: the first throw ends it. */
  function GroupAsWritten(cs: seq<Contract>): Option<seq<ContractorHistory>> {
    if |cs| == 0 then Some([])
    else match GroupAsWritten(cs[..|cs| - 1])
      case None => None
      case Some(g) => AddContractAsWritten(g, cs[|cs| - 1])
  }

  /** Where no party B name is an inherited property, the code as written
      and the model group alike. */
  lemma {:induction false} AsWrittenAgreesElsewhere(cs: seq<Contract>)
    requires forall k :: 0 <= k < |cs| ==> cs[k].partyB.companyName !in InheritedNames
    ensures GroupAsWritten(cs) == Some(Group(cs))
  {
    if |cs| > 0 {
      var pre := cs[..|cs| - 1];
      assert forall k :: 0 <= k < |pre| ==> pre[k] == cs[k];
      AsWrittenAgreesElsewhere(pre);
    }
  }

  /** A contractor called "toString": with items, the code as written throws;
      without, the name gets no group. The model gives it its own group. */
  lemma InheritedNameAsWritten(c: Contract)
    requires c.partyB.companyName == "toString"
    ensures |c.items| > 0 ==> GroupAsWritten([c]) == None
    ensures |c.items| == 0 ==> GroupAsWritten([c]) == Some([])
    ensures Group([c]) == [ContractorHistory("toString", c.partyB, RecordsOf(c))]
  {
    assert [c][..0] == [];
    assert "toString" in InheritedNames;
  }

  // -------------------------------------------------------------- sorting

  /** Records in order of creation time, newest first. */
  predicate NewestFirst(rs: seq<PriceRecord>) {
    forall i, j :: 0 <= i < j < |rs| ==> rs[i].date >= rs[j].date
  }

  function DatedAt(t: int): PriceRecord -> bool {
    (r: PriceRecord) => r.date == t
  }

  /** Inserts x in front of the first record that is not newer than it. */
  function Insert(x: PriceRecord, rs: seq<PriceRecord>): (r: seq<PriceRecord>)
    ensures |r| == |rs| + 1
  {
    if |rs| == 0 || rs[0].date <= x.date then [x] + rs
    else [rs[0]] + Insert(x, rs[1..])
  }

  /** Where Insert puts x. */
  function InsertPos(x: PriceRecord, rs: seq<PriceRecord>): (k: nat)
    ensures k <= |rs|
  {
    if |rs| == 0 || rs[0].date <= x.date then 0 else 1 + InsertPos(x, rs[1..])
  }

  /** Insert puts x at InsertPos and keeps the rest in order around it. */
  lemma {:induction false} InsertAt(x: PriceRecord, rs: seq<PriceRecord>)
    ensures Insert(x, rs) == rs[..InsertPos(x, rs)] + [x] + rs[InsertPos(x, rs)..]
  {
    if |rs| > 0 && rs[0].date > x.date {
      var tail := rs[1..];
      InsertAt(x, tail);
      var k := InsertPos(x, tail);
      assert rs[..k + 1] == [rs[0]] + tail[..k];
      assert rs[k + 1..] == tail[k..];
      calc {
        Insert(x, rs);
        [rs[0]] + Insert(x, tail);
        [rs[0]] + (tail[..k] + [x] + tail[k..]);
        ([rs[0]] + tail[..k]) + [x] + tail[k..];
        rs[..k + 1] + [x] + rs[k + 1..];
      }
    } else {
      assert rs[..0] == [];
      assert rs[0..] == rs;
    }
  }

  /** Every record ahead of InsertPos is newer than x; the one at it is not. */
  lemma {:induction false} InsertPosDates(x: PriceRecord, rs: seq<PriceRecord>)
    ensures forall i :: 0 <= i < InsertPos(x, rs) ==> rs[i].date > x.date
    ensures InsertPos(x, rs) < |rs| ==> rs[InsertPos(x, rs)].date <= x.date
  {
    if |rs| > 0 && rs[0].date > x.date {
      var tail := rs[1..];
      InsertPosDates(x, tail);
      assert forall i :: 1 <= i < InsertPos(x, rs) ==> rs[i] == tail[i - 1];
    }
  }

  /** Insert places x at InsertPos, behind exactly the records newer than x. */
  lemma InsertSplits(x: PriceRecord, rs: seq<PriceRecord>)
    ensures var k := InsertPos(x, rs);
      && Insert(x, rs) == rs[..k] + [x] + rs[k..]
      && (forall i :: 0 <= i < k ==> rs[i].date > x.date)
      && (k < |rs| ==> rs[k].date <= x.date)
  {
    InsertAt(x, rs);
    InsertPosDates(x, rs);
  }

  lemma InsertPermutes(x: PriceRecord, rs: seq<PriceRecord>)
    ensures multiset(Insert(x, rs)) == multiset(rs) + multiset{x}
  {
    InsertSplits(x, rs);
    var k := InsertPos(x, rs);
    assert rs == rs[..k] + rs[k..];
  }

  lemma InsertKeepsOrder(x: PriceRecord, rs: seq<PriceRecord>)
    requires NewestFirst(rs)
    ensures NewestFirst(Insert(x, rs))
  {
    InsertSplits(x, rs);
    var k := InsertPos(x, rs);
    var r := Insert(x, rs);
    assert forall i :: 0 <= i < k ==> r[i] == rs[i];
    assert r[k] == x;
    assert forall i :: k < i < |r| ==> r[i] == rs[i - 1];
  }

  /** `records.sort((a, b) => b.date - a.date)`, a stable sort: newest
      first, and the same records. */
  function SortNewestFirst(rs: seq<PriceRecord>): (r: seq<PriceRecord>)
    ensures |r| == |rs|
  {
    if |rs| == 0 then []
    else Insert(rs[0], SortNewestFirst(rs[1..]))
  }

  /** The sort only reorders: the same records with the same multiplicities. */
  lemma {:induction false} SortPermutes(rs: seq<PriceRecord>)
    ensures multiset(SortNewestFirst(rs)) == multiset(rs)
  {
    if |rs| > 0 {
      var tail := rs[1..];
      SortPermutes(tail);
      InsertPermutes(rs[0], SortNewestFirst(tail));
      assert rs == [rs[0]] + tail;
    }
  }

  lemma {:induction false} SortIsNewestFirst(rs: seq<PriceRecord>)
    ensures NewestFirst(SortNewestFirst(rs))
  {
    if |rs| > 0 {
      SortIsNewestFirst(rs[1..]);
      InsertKeepsOrder(rs[0], SortNewestFirst(rs[1..]));
    }
  }

  /** Inserting a record keeps the relative order of the records of each
      creation time, and x goes before the ones of its own time. */
  lemma {:induction false} InsertStable(x: PriceRecord, rs: seq<PriceRecord>, t: int)
    ensures Filter(Insert(x, rs), DatedAt(t)) == Filter([x], DatedAt(t)) + Filter(rs, DatedAt(t))
  {
    var p := DatedAt(t);
    if |rs| == 0 || rs[0].date <= x.date {
      FilterConcat([x], rs, p);
    } else {
      var tail := rs[1..];
      InsertStable(x, tail, t);
      assert rs == [rs[0]] + tail;
      FilterConcat([rs[0]], tail, p);
      FilterConcat([rs[0]], Insert(x, tail), p);
      var fh, fx := Filter([rs[0]], p), Filter([x], p);
      assert fh == [] || fx == [] by {
        if p(x) {
          assert !p(rs[0]);
          assert fh == [] + Filter([rs[0]][1..], p);
        } else {
          assert fx == [] + Filter([x][1..], p);
        }
      }
      assert fh + fx == fx + fh;
    }
  }

  /** Stability: for each creation time, the records of that time keep their
      input order. */
  lemma {:induction false} SortIsStable(rs: seq<PriceRecord>, t: int)
    ensures Filter(SortNewestFirst(rs), DatedAt(t)) == Filter(rs, DatedAt(t))
  {
    if |rs| > 0 {
      var tail := rs[1..];
      SortIsStable(tail, t);
      assert SortNewestFirst(rs) == Insert(rs[0], SortNewestFirst(tail));
      InsertStable(rs[0], SortNewestFirst(tail), t);
      assert rs == [rs[0]] + tail;
      FilterConcat([rs[0]], tail, DatedAt(t));
    }
  }

  // --------------------------------------------------------- the history

  /** `historyData`: the groups with each group's records sorted. */
  function HistoryData(cs: seq<Contract>): (h: seq<ContractorHistory>)
    ensures |h| == |Group(cs)|
    ensures forall i :: 0 <= i < |h| ==>
      h[i].name == Group(cs)[i].name && h[i].info == Group(cs)[i].info
  {
    var g := Group(cs);
    seq(|g|, i requires 0 <= i < |g| => g[i].(records := SortNewestFirst(g[i].records)))
  }

  /** The keys are exactly the distinct non-empty party B names. */
  lemma HistoryKeys(cs: seq<Contract>, name: string)
    ensures FindIndex(HistoryData(cs), KeyIs(name)) >= 0 <==> name != "" && FirstWith(cs, name) >= 0
  {
    GroupInvariant(cs);
    KeyedNamesOccur(cs, name);
    OccurringNamesKeyed(cs, name);
  }

  lemma KeyedNamesOccur(cs: seq<Contract>, name: string)
    requires GroupedWell(Group(cs), cs)
    ensures FindIndex(HistoryData(cs), KeyIs(name)) >= 0 ==> name != "" && FirstWith(cs, name) >= 0
  {
    var h := HistoryData(cs);
    if FindIndex(h, KeyIs(name)) >= 0 {
      assert KeyIs(name)(Group(cs)[FindIndex(h, KeyIs(name))]);
    }
  }

  lemma OccurringNamesKeyed(cs: seq<Contract>, name: string)
    requires GroupedWell(Group(cs), cs)
    ensures name != "" && FirstWith(cs, name) >= 0 ==> FindIndex(HistoryData(cs), KeyIs(name)) >= 0
  {
    var g := Group(cs);
    if name != "" && FirstWith(cs, name) >= 0 {
      var k := FirstWith(cs, name);
      assert cs[k].partyB.companyName == name;
      assert KeyIs(name)(HistoryData(cs)[FindIndex(g, KeyIs(name))]);
    }
  }


  /** Keys are distinct and listed in the order their names first occur;
      each group keeps the party B snapshot of the first contract with its
      name, which later contracts do not overwrite. */
  lemma HistoryOrderAndInfo(cs: seq<Contract>)
    ensures var h := HistoryData(cs);
      && (forall i :: 0 <= i < |h| ==>
            FirstWith(cs, h[i].name) >= 0 && h[i].info == cs[FirstWith(cs, h[i].name)].partyB)
      && (forall i, j :: 0 <= i < j < |h| ==>
            h[i].name != h[j].name && FirstWith(cs, h[i].name) < FirstWith(cs, h[j].name))
  {
    GroupInvariant(cs);
  }

  /** A group's records are all the records of the contracts with its name,
      newest first, with records of equal time in contract order and then
      item order; there is one per line item. */
  lemma HistoryRecords(cs: seq<Contract>, i: nat)
    requires i < |HistoryData(cs)|
    ensures var h := HistoryData(cs)[i];
      && NewestFirst(h.records)
      && multiset(h.records) == multiset(RecordsFor(cs, h.name))
      && (forall t :: Filter(h.records, DatedAt(t)) == Filter(RecordsFor(cs, h.name), DatedAt(t)))
      && |h.records| == ItemCount(cs, h.name)
  {
    GroupInvariant(cs);
    var g := Group(cs)[i];
    SortIsNewestFirst(g.records);
    SortPermutes(g.records);
    forall t
      ensures Filter(SortNewestFirst(g.records), DatedAt(t)) == Filter(g.records, DatedAt(t))
    {
      SortIsStable(g.records, t);
    }
    RecordsForCount(cs, g.name);
  }

  /** Every record in the history carries the id, title and creation time of
      a contract with the group's name, and one of that contract's items. */
  lemma HistoryProvenance(cs: seq<Contract>, i: nat, r: PriceRecord)
    requires i < |HistoryData(cs)|
    requires r in HistoryData(cs)[i].records
    ensures var name := HistoryData(cs)[i].name;
      exists k, m :: 0 <= k < |cs| && 0 <= m < |cs[k].items| && cs[k].partyB.companyName == name
        && r == PriceRecord(cs[k].id, cs[k].title, cs[k].createdAt, cs[k].items[m])
  {
    HistoryRecords(cs, i);
    var name := HistoryData(cs)[i].name;
    assert r in multiset(HistoryData(cs)[i].records);
    RecordProvenance(cs, name, r);
  }

  /** A contract without a party B name adds no group and no record. */
  lemma UnnamedContributesNothing(cs: seq<Contract>, c: Contract)
    requires c.partyB.companyName == ""
    ensures HistoryData(cs + [c]) == HistoryData(cs)
  {
    assert (cs + [c])[..|cs|] == cs;
  }

  // ------------------------------------------------------------- search

  function Keys(h: seq<ContractorHistory>): seq<string> {
    seq(|h|, i requires 0 <= i < |h| => h[i].name)
  }

  function NameMatcher(term: string): string -> bool {
    (name: string) => Contains(Lower(name), Lower(term))
  }

  /** `filteredContractors`: the keys that contain the term, ignoring case,
      in key order. */
  function FilteredContractors(h: seq<ContractorHistory>, term: string): (r: seq<string>)
    ensures forall k :: 0 <= k < |r| ==> r[k] in Keys(h) && Contains(Lower(r[k]), Lower(term))
    ensures forall i :: 0 <= i < |h| && Contains(Lower(h[i].name), Lower(term)) ==> h[i].name in r
    ensures SelectsInOrder(r, Keys(h), NameMatcher(term))
  {
    FilterSelectsInOrder(Keys(h), NameMatcher(term));
    FilterMembers(Keys(h), NameMatcher(term));
    assert forall i :: 0 <= i < |h| ==> Keys(h)[i] == h[i].name;
    assert forall i :: 0 <= i < |h| && Contains(Lower(h[i].name), Lower(term)) ==> NameMatcher(term)(Keys(h)[i]);
    Filter(Keys(h), NameMatcher(term))
  }

  /** An empty search term lists every key. */
  lemma EmptySearchListsAllContractors(h: seq<ContractorHistory>)
    ensures FilteredContractors(h, "") == Keys(h)
  {
    forall i | 0 <= i < |h|
      ensures NameMatcher("")(Keys(h)[i])
    {
      ContainsEmpty(Lower(h[i].name));
    }
    FilterAll(Keys(h), NameMatcher(""));
  }
}
