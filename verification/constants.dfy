/** The preset item templates, the preset clause library and the skeleton of
    a new contract. */
module Constants {
  import opened Types

  /** The quick-add line-item templates. */
  const DefaultItems: seq<ItemPreset> := [
    ItemPreset(Some("普通模板 (Regular Formwork)"), Some("m²"), Some(450)),
    ItemPreset(Some("清水模板 (Architectural Concrete)"), Some("m²"), Some(850)),
    ItemPreset(Some("系統模板 (System Formwork)"), Some("m²"), Some(600)),
    ItemPreset(Some("單面模 (Single-sided)"), Some("m²"), Some(1200)),
    ItemPreset(Some("免拆模板 (Non-removable)"), Some("m²"), Some(1500)),
    ItemPreset(Some("樓梯 (Stairs)"), Some("式"), Some(5000)),
    ItemPreset(Some("零星工料 (Misc. Labor/Material)"), Some("工"), Some(3000))
  ]

  /** The clause library every new contract starts from. */
  const PresetClauses: seq<Clause> := [
    Clause("c1", General, "乙方應依甲方提供之施工圖說及工程進度表施工，不得無故延誤。", false, true),
    Clause("c2", General, "施工期間若發生設計變更，雙方應另行議定單價及工期。", false, true),
    Clause("c3", Payment, "付款方式：每月依實作數量計價一次，保留款為計價金額之 10%，於工程驗收合格後無息退還。", false, true),
    Clause("c4", Payment, "訂金：合約簽訂後支付總價 30% 作為訂金。", false, false),
    Clause("c5", Safety, "乙方應嚴格遵守勞工安全衛生法規，施工人員須配戴安全帽及相關防護具。", false, true),
    Clause("c6", Safety, "工地現場禁止飲酒、賭博及其他違法行為，違者甲方得依規定罰款或驅離。", false, true),
    Clause("c7", Environment, "乙方應負責施工範圍內之廢棄物清理及運棄。", false, true),
    Clause("c8", Custom, "雨天或其他不可抗力因素導致無法施工時，工期得順延之。", false, false)
  ]

  /** A party snapshot with every field empty. */
  const EmptyParty: PartyInfo := PartyInfo("", "", "", "", "")

  const NewContractTitle: string := "新建工程模板合約"

  /** `EMPTY_CONTRACT()`: a fresh draft with no items and the preset clauses;
      the identifier and the creation time are supplied by the caller. */
  function EmptyContract(freshId: string, now: int): (c: Contract)
    ensures c.id == freshId && c.createdAt == now
    ensures c.title == NewContractTitle
    ensures c.projectLocation == "" && c.startDate == "" && c.endDate == ""
    ensures c.status == Draft
    ensures c.items == [] && c.totalAmount == 0 && TotalConsistent(c)
    ensures c.clauses == PresetClauses
    ensures forall f :: GetField(c.partyA, f) == "" && GetField(c.partyB, f) == ""
  {
    Contract(freshId, NewContractTitle, now, Draft, EmptyParty, EmptyParty, [], PresetClauses,
             0, "", "", "")
  }

  /** The preset library: eight non-custom clauses with distinct ids c1 to
      c8, of which exactly c4 and c8 start unselected. */
  lemma PresetClauseFacts()
    ensures |PresetClauses| == 8
    ensures forall i :: 0 <= i < 8 ==> PresetClauses[i].id == ['c', ('1' as int + i) as char]
    ensures forall i, j :: 0 <= i < j < 8 ==> PresetClauses[i].id != PresetClauses[j].id
    ensures forall i :: 0 <= i < 8 ==> !PresetClauses[i].isCustom
    ensures forall i :: 0 <= i < 8 ==>
      (!PresetClauses[i].selected <==> PresetClauses[i].id in {"c4", "c8"})
  {
    forall i, j | 0 <= i < j < 8
      ensures PresetClauses[i].id != PresetClauses[j].id
    {
      assert PresetClauses[i].id[1] != PresetClauses[j].id[1];
    }
  }

  /** Every template supplies a non-empty name and unit and a positive price. */
  lemma DefaultItemFacts()
    ensures |DefaultItems| == 7
    ensures forall i :: 0 <= i < |DefaultItems| ==>
      && DefaultItems[i].name.Some? && DefaultItems[i].name.value != ""
      && DefaultItems[i].unit.Some? && DefaultItems[i].unit.value != ""
      && DefaultItems[i].price.Some? && DefaultItems[i].price.value > 0
  {
  }
}
