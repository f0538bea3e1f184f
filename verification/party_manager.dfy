/** The directory management screen: pick an entry by index, edit it in a
    form, save it in place or as a new entry, delete it, and search. */
module PartyManager {
  import opened Types
  import opened Text
  import opened Seqs
  import Constants
  import App
  import ContractBuilder

  /** The directory being managed, the selected index (-1 while a new entry
      is being created) and the form contents. */
  datatype Screen = Screen(parties: seq<PartyInfo>, selectedIndex: int, editData: PartyInfo)

  /** The selection is -1 or names an entry of the directory. */
  predicate Valid(s: Screen) {
    -1 <= s.selectedIndex < |s.parties|
  }

  /** `handleSelect(i)`: the form gets a copy of entry i. */
  function Select(s: Screen, i: int): (r: Screen)
    requires 0 <= i < |s.parties|
    ensures Valid(r) && r.parties == s.parties
    ensures r.selectedIndex == i && r.editData == s.parties[i]
  {
    s.(selectedIndex := i, editData := s.parties[i])
  }

  /** `handleCreateNew()`: no selection and an empty form. */
  function CreateNew(s: Screen): (r: Screen)
    ensures Valid(r) && r.parties == s.parties
    ensures r.selectedIndex == -1
    ensures forall f :: GetField(r.editData, f) == ""
  {
    s.(selectedIndex := -1, editData := Constants.EmptyParty)
  }

  datatype SaveAlert = NameRequired | SaveSucceeded

  datatype SaveResult = SaveResult(screen: Screen, alert: SaveAlert)

  /** `handleSave()`: a company name of whitespace only is refused with no
      change; otherwise the form is appended (and selected) in create mode or
      written over the selected entry in edit mode. Names are not checked
      for duplicates. */
  function HandleSave(s: Screen): (r: SaveResult)
    requires Valid(s)
    ensures var name := s.editData.companyName;
      (forall k :: 0 <= k < |name| ==> IsWhitespace(name[k])) ==>
        r.alert == NameRequired && r.screen == s
    ensures var name := s.editData.companyName;
      (exists k :: 0 <= k < |name| && !IsWhitespace(name[k])) ==>
        && r.alert == SaveSucceeded
        && Valid(r.screen)
        && r.screen.editData == s.editData
        && (s.selectedIndex == -1 ==>
              r.screen.parties == s.parties + [s.editData]
              && r.screen.selectedIndex == |r.screen.parties| - 1)
        && (s.selectedIndex >= 0 ==>
              && |r.screen.parties| == |s.parties|
              && r.screen.parties[s.selectedIndex] == s.editData
              && (forall k :: 0 <= k < |s.parties| && k != s.selectedIndex ==>
                    r.screen.parties[k] == s.parties[k])
              && r.screen.selectedIndex == s.selectedIndex)
  {
    BlankIffAllWhitespace(s.editData.companyName);
    if Trim(s.editData.companyName) == [] then SaveResult(s, NameRequired)
    else if s.selectedIndex == -1 then
      var parties := s.parties + [s.editData];
      SaveResult(s.(parties := parties, selectedIndex := |parties| - 1), SaveSucceeded)
    else
      SaveResult(s.(parties := s.parties[s.selectedIndex := s.editData]), SaveSucceeded)
  }

  /** `handleDelete()` after the confirmation dialog: with nothing selected
      there is nothing to do; declined, nothing changes; confirmed, exactly
      the selected entry goes, the rest keep their order, and the screen
      returns to create mode. */
  function HandleDelete(s: Screen, confirmed: bool): (r: Screen)
    requires Valid(s)
    ensures Valid(r)
    ensures s.selectedIndex == -1 || !confirmed ==> r == s
    ensures s.selectedIndex >= 0 && confirmed ==>
      && |r.parties| == |s.parties| - 1
      && (forall k :: 0 <= k < s.selectedIndex ==> r.parties[k] == s.parties[k])
      && (forall k :: s.selectedIndex <= k < |r.parties| ==> r.parties[k] == s.parties[k + 1])
      && r.selectedIndex == -1
      && r.editData == Constants.EmptyParty
  {
    if s.selectedIndex == -1 || !confirmed then s
    else
      var i := s.selectedIndex;
      CreateNew(s.(parties := s.parties[..i] + s.parties[i + 1..]))
  }

  /** This path does not deduplicate: saving a new entry whose name is
      already present leaves two entries with that name. */
  lemma SaveCanDuplicateNames()
    ensures var p := PartyInfo("A", "", "", "", "");
      var r := HandleSave(Screen([p], -1, p));
      r.alert == SaveSucceeded && r.screen.parties == [p, p] && !App.UniqueNames(r.screen.parties)
  {
    var p := PartyInfo("A", "", "", "", "");
    assert !IsWhitespace(p.companyName[0]);
    var r := HandleSave(Screen([p], -1, p));
    assert r.screen.parties == [p] + [p] == [p, p];
    assert r.screen.parties[0].companyName == r.screen.parties[1].companyName;
  }

  /** The two save paths guard differently: the editor refuses only the
      empty name, this screen refuses a name of spaces too. */
  lemma GuardsDiffer(c: Contract, dirs: App.Directories)
    requires c.partyB.companyName == " "
    ensures ContractBuilder.SaveCurrentParty(c, PartyB, dirs).PartySaved?
    ensures HandleSave(Screen(dirs.contractors, -1, c.partyB)).alert == NameRequired
  {
  }

  /** The search as `filteredParties` writes it: the company name is compared in
      lower case on both sides, the tax id literally, and the representative
      in lower case against the term as typed. */
  predicate MatchesAsWritten(p: PartyInfo, term: string) {
    || Contains(Lower(p.companyName), Lower(term))
    || Contains(p.taxId, term)
    || Contains(Lower(p.representative), term)
  }

  /** A term with an upper-case letter never finds a representative, even
      one that contains the term letter for letter. */
  lemma RepresentativeSearchAsWritten()
    ensures var p := PartyInfo("X", "1", "ABC", "", "");
      Contains(p.representative, "ABC") && !MatchesAsWritten(p, "ABC")
  {
    var p := PartyInfo("X", "1", "ABC", "", "");
    assert OccursAt(p.representative, "ABC", 0);
    assert Lower("ABC") == "abc";
    assert "abc"[0] != "ABC"[0];
    assert !OccursAt("abc", "ABC", 0);
  }

  /** The search with the term lower-cased for the representative as well,
      which is what the company-name test does. */
  predicate Matches(p: PartyInfo, term: string) {
    || Contains(Lower(p.companyName), Lower(term))
    || Contains(p.taxId, term)
    || Contains(Lower(p.representative), Lower(term))
  }

  /** With the correction, an entry whose name, tax id or representative
      contains the term as typed is always found. */
  lemma LiteralOccurrenceMatches(p: PartyInfo, term: string)
    requires Contains(p.companyName, term) || Contains(p.taxId, term) || Contains(p.representative, term)
    ensures Matches(p, term)
  {
    if Contains(p.companyName, term) {
      LowerKeepsOccurrence(p.companyName, term);
    } else if !Contains(p.taxId, term) {
      LowerKeepsOccurrence(p.representative, term);
    }
  }

  function Matcher(term: string): PartyInfo -> bool {
    (p: PartyInfo) => Matches(p, term)
  }

  /** A search hit: the entry and its index in the full directory. */
  datatype Hit = Hit(party: PartyInfo, originalIndex: nat)

  function HitIndices(hits: seq<Hit>): seq<nat> {
    seq(|hits|, k requires 0 <= k < |hits| => hits[k].originalIndex)
  }

  /** The entries satisfying m with their original indices, in directory
      order, none missing: the shape of `filteredParties` for any test. */
  function FilteredBy(parties: seq<PartyInfo>, m: PartyInfo -> bool): (r: seq<Hit>)
    ensures forall k :: 0 <= k < |r| ==>
      r[k].originalIndex < |parties| && r[k].party == parties[r[k].originalIndex] && m(r[k].party)
    ensures forall k, l :: 0 <= k < l < |r| ==> r[k].originalIndex < r[l].originalIndex
    ensures forall i :: 0 <= i < |parties| && m(parties[i]) ==> i in HitIndices(r)
  {
    var idx := Positions(parties, m);
    PositionsComplete(parties, m, 0);
    var r := seq(|idx|, k requires 0 <= k < |idx| => Hit(parties[idx[k]], idx[k]));
    assert HitIndices(r) == idx;
    r
  }

  function MatcherAsWritten(term: string): PartyInfo -> bool {
    (p: PartyInfo) => MatchesAsWritten(p, term)
  }

  /** `filteredParties` as written: the entries the line-70 test accepts. */
  function FilteredPartiesAsWritten(parties: seq<PartyInfo>, term: string): (r: seq<Hit>)
    ensures forall k :: 0 <= k < |r| ==>
      r[k].originalIndex < |parties| && r[k].party == parties[r[k].originalIndex]
      && MatchesAsWritten(r[k].party, term)
    ensures forall k, l :: 0 <= k < l < |r| ==> r[k].originalIndex < r[l].originalIndex
    ensures forall i :: 0 <= i < |parties| && MatchesAsWritten(parties[i], term) ==> i in HitIndices(r)
  {
    FilteredBy(parties, MatcherAsWritten(term))
  }

  /** `filteredParties` with the corrected test: the matching entries with
      their original indices, in directory order, none missing. */
  function FilteredParties(parties: seq<PartyInfo>, term: string): (r: seq<Hit>)
    ensures forall k :: 0 <= k < |r| ==>
      r[k].originalIndex < |parties| && r[k].party == parties[r[k].originalIndex] && Matches(r[k].party, term)
    ensures forall k, l :: 0 <= k < l < |r| ==> r[k].originalIndex < r[l].originalIndex
    ensures forall i :: 0 <= i < |parties| && Matches(parties[i], term) ==> i in HitIndices(r)
  {
    FilteredBy(parties, Matcher(term))
  }

  /** The corrected screen lists an entry the code as written hides. */
  lemma FilteredPartiesDiffer()
    ensures var p := PartyInfo("X", "1", "ABC", "", "");
      && |FilteredParties([p], "ABC")| == 1
      && FilteredPartiesAsWritten([p], "ABC") == []
  {
    var p := PartyInfo("X", "1", "ABC", "", "");
    RepresentativeSearchAsWritten();
    LiteralOccurrenceMatches(p, "ABC");
    assert 0 in HitIndices(FilteredParties([p], "ABC"));
  }

  /** An empty search term lists every entry at its own index, in the code
      as written and in the corrected search alike. */
  lemma EmptySearchListsAll(parties: seq<PartyInfo>)
    ensures |FilteredParties(parties, "")| == |parties|
    ensures forall k :: 0 <= k < |parties| ==> FilteredParties(parties, "")[k] == Hit(parties[k], k)
    ensures |FilteredPartiesAsWritten(parties, "")| == |parties|
    ensures forall k :: 0 <= k < |parties| ==> FilteredPartiesAsWritten(parties, "")[k] == Hit(parties[k], k)
  {
    forall k | 0 <= k < |parties|
      ensures Matcher("")(parties[k]) && MatcherAsWritten("")(parties[k])
    {
      ContainsEmpty(parties[k].taxId);
    }
    PositionsOfAll(parties, Matcher(""), 0);
    PositionsOfAll(parties, MatcherAsWritten(""), 0);
  }
}
