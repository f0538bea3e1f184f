/** The application's collections: two party directories keyed by company
    name, and the contract list keyed by id. Storage is not modelled; each
    operation returns the collection that would be written. */
module App {
  import opened Types
  import opened Seqs

  /** The own-company directory (party A candidates) and the contractor
      directory (party B candidates). */
  datatype Directories = Directories(myCompanies: seq<PartyInfo>, contractors: seq<PartyInfo>)

  datatype DirectoryKind = MyCompany | Contractor

  function DirectoryOf(d: Directories, kind: DirectoryKind): seq<PartyInfo> {
    match kind
    case MyCompany => d.myCompanies
    case Contractor => d.contractors
  }

  function NamedAs(name: string): PartyInfo -> bool {
    (p: PartyInfo) => p.companyName == name
  }

  function HasId(id: string): Contract -> bool {
    (c: Contract) => c.id == id
  }

  /** No two entries of a directory share a company name. */
  predicate UniqueNames(list: seq<PartyInfo>) {
    forall i, j :: 0 <= i < j < |list| ==> list[i].companyName != list[j].companyName
  }

  /** No two contracts share an id. */
  predicate UniqueIds(cs: seq<Contract>) {
    forall i, j :: 0 <= i < j < |cs| ==> cs[i].id != cs[j].id
  }

  /** Upsert by company name: the first entry with the same name is
      replaced where it stands, otherwise the party is appended. The name is
      not checked for emptiness here. */
  function UpsertParty(list: seq<PartyInfo>, party: PartyInfo): (r: seq<PartyInfo>)
    ensures (exists k :: 0 <= k < |list| && list[k].companyName == party.companyName) ==>
      var i := FindIndex(list, NamedAs(party.companyName));
      && 0 <= i < |r| == |list|
      && list[i].companyName == party.companyName
      && (forall k :: 0 <= k < i ==> list[k].companyName != party.companyName)
      && r[i] == party
      && (forall k :: 0 <= k < |r| && k != i ==> r[k] == list[k])
    ensures (forall k :: 0 <= k < |list| ==> list[k].companyName != party.companyName) ==>
      r == list + [party]
  {
    var i := FindIndex(list, NamedAs(party.companyName));
    if i >= 0 then list[i := party] else list + [party]
  }

  /** A directory with unique names keeps them through an upsert. */
  lemma UpsertKeepsNamesUnique(list: seq<PartyInfo>, party: PartyInfo)
    requires UniqueNames(list)
    ensures UniqueNames(UpsertParty(list, party))
  {
    var r := UpsertParty(list, party);
    if forall k :: 0 <= k < |list| ==> list[k].companyName != party.companyName {
      assert r == list + [party];
    } else {
      var i := FindIndex(list, NamedAs(party.companyName));
      assert forall k :: 0 <= k < |r| ==> r[k].companyName == list[k].companyName;
    }
  }

  /** `handleAddParty(party, type)`: upsert into the directory of that kind;
      the other directory is untouched. */
  function AddParty(d: Directories, party: PartyInfo, kind: DirectoryKind): (r: Directories)
    ensures DirectoryOf(r, kind) == UpsertParty(DirectoryOf(d, kind), party)
    ensures forall other :: other != kind ==> DirectoryOf(r, other) == DirectoryOf(d, other)
  {
    match kind
    case MyCompany => d.(myCompanies := UpsertParty(d.myCompanies, party))
    case Contractor => d.(contractors := UpsertParty(d.contractors, party))
  }

  /** `handleSaveContract(data)`: the saved contract is finalized, replaces
      the contract with the same id in place, or is put at the front. */
  function SaveContract(contracts: seq<Contract>, data: Contract): (r: seq<Contract>)
    ensures var saved := data.(status := Finalized);
      && (forall k :: 0 <= k < |r| ==> r[k] == saved || r[k] in contracts)
      && ((exists k :: 0 <= k < |contracts| && contracts[k].id == data.id) ==>
            var i := FindIndex(contracts, HasId(data.id));
            && 0 <= i < |r| == |contracts|
            && contracts[i].id == data.id
            && (forall k :: 0 <= k < i ==> contracts[k].id != data.id)
            && r[i] == saved
            && (forall k :: 0 <= k < |r| && k != i ==> r[k] == contracts[k]))
      && ((forall k :: 0 <= k < |contracts| ==> contracts[k].id != data.id) ==>
            |r| == |contracts| + 1 && r[0] == saved && r[1..] == contracts)
  {
    var saved := data.(status := Finalized);
    var i := FindIndex(contracts, HasId(data.id));
    if i >= 0 then contracts[i := saved] else [saved] + contracts
  }

  /** The stored copy of a saved contract is always finalized. */
  lemma SavedIsFinalized(contracts: seq<Contract>, data: Contract)
    ensures data.(status := Finalized) in SaveContract(contracts, data)
  {
    var r := SaveContract(contracts, data);
    var i := FindIndex(contracts, HasId(data.id));
    if i >= 0 {
      assert r[i] == data.(status := Finalized);
    } else {
      assert r[0] == data.(status := Finalized);
    }
  }

  /** Saving twice is the same as saving once: the second save finds the
      first one's entry and overwrites it with the same value. */
  lemma SaveContractIdempotent(contracts: seq<Contract>, data: Contract)
    ensures SaveContract(SaveContract(contracts, data), data) == SaveContract(contracts, data)
  {
    var r := SaveContract(contracts, data);
    var saved := data.(status := Finalized);
    var i := FindIndex(contracts, HasId(data.id));
    var j := FindIndex(r, HasId(data.id));
    if i >= 0 {
      assert r[i] == saved;
      assert j >= 0;
      assert j == i;
    } else {
      assert r[0] == saved;
      assert j == 0;
    }
  }

  /** A contract list with unique ids keeps them through a save. */
  lemma SaveKeepsIdsUnique(contracts: seq<Contract>, data: Contract)
    requires UniqueIds(contracts)
    ensures UniqueIds(SaveContract(contracts, data))
  {
    var r := SaveContract(contracts, data);
    var i := FindIndex(contracts, HasId(data.id));
    if i >= 0 {
      assert forall k :: 0 <= k < |r| ==> r[k].id == contracts[k].id;
    } else {
      assert forall k :: 1 <= k < |r| ==> r[k] == contracts[k - 1];
    }
  }
}
