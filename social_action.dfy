/** The social-action page: the families assisted by the church, the stock of
    donated resources, and the distribution form that takes items out of stock. */
module SocialAction {
  import opened Collections
  import opened Text

  datatype Beneficiary = Beneficiary(id: nat, name: string, members: nat, priority: string,
                                     lastAssistance: string, status: string)

  datatype Resource = Resource(id: nat, name: string, category: string, quantity: nat,
                               unit: string, status: string)

  /** The distribution form: the selected beneficiary and resource (`None` while the
      select shows its placeholder), the parsed quantity and the ISO value of the date input. */
  datatype AssistanceForm = AssistanceForm(beneficiaryId: Option<nat>, resourceId: Option<nat>,
                                           quantity: int, date: string, notes: string)

  const EmptyForm := AssistanceForm(None, None, 1, "", "")

  /** The stock label of a quantity: out of stock, running low, or enough. */
  function StockStatus(q: nat): (r: string)
    ensures r == "Crítico" <==> q == 0
    ensures r == "Baixo" <==> 1 <= q < 10
    ensures r == "Suficiente" <==> q >= 10
  {
    if q == 0 then "Crítico" else if q < 10 then "Baixo" else "Suficiente"
  }

  /** The stock left after taking `q` from `stock`, floored at zero. */
  function StockAfter(stock: nat, q: int): (r: nat)
    ensures r == 0 <==> stock <= q
    ensures r > 0 ==> r == stock - q
    ensures q >= 0 ==> r <= stock
  {
    if stock - q < 0 then 0 else stock - q
  }

  /** A resource after `q` units are handed out: new quantity and the label that goes with it. */
  function Distributed(r: Resource, q: int): Resource
  {
    var left := StockAfter(r.quantity, q);
    r.(quantity := left, status := StockStatus(left))
  }

  predicate IsComplete(f: AssistanceForm)
  {
    f.beneficiaryId.Some? && f.resourceId.Some? && f.date != ""
  }

  /** The stock after a submit: the selected resource loses the quantity, the rest stay. */
  function ResourcesAfter(resources: seq<Resource>, f: AssistanceForm): seq<Resource>
  {
    if !IsComplete(f) then resources
    else UpdateWhere(resources, (r: Resource) => r.id == f.resourceId.value,
                     (r: Resource) => Distributed(r, f.quantity))
  }

  /** The beneficiaries after a submit: the selected one records the locale date of the
      assistance; `localeDate` is the locale formatting of the ISO date. */
  function BeneficiariesAfter(beneficiaries: seq<Beneficiary>, f: AssistanceForm,
                              localeDate: string -> string): seq<Beneficiary>
  {
    if !IsComplete(f) then beneficiaries
    else UpdateWhere(beneficiaries, (b: Beneficiary) => b.id == f.beneficiaryId.value,
                     (b: Beneficiary) => b.(lastAssistance := localeDate(f.date)))
  }

  /** Every resource's label matches its quantity. */
  predicate StatusesConsistent(resources: seq<Resource>)
  {
    forall i :: 0 <= i < |resources| ==> resources[i].status == StockStatus(resources[i].quantity)
  }

  /** The beneficiary search: the name contains the query, ignoring case. */
  function FilteredBeneficiaries(beneficiaries: seq<Beneficiary>, query: string): seq<Beneficiary>
  {
    Filter(beneficiaries, (b: Beneficiary) => MatchesIgnoringCase(b.name, query))
  }

  /** The resource search: the name or the category contains the query, ignoring case. */
  function FilteredResources(resources: seq<Resource>, query: string): seq<Resource>
  {
    Filter(resources, (r: Resource) => MatchesIgnoringCase(r.name, query) || MatchesIgnoringCase(r.category, query))
  }

  predicate IsPriority(b: Beneficiary) { b.priority == "Alta" }

  /** The priority panel: the beneficiaries of high priority, in list order. */
  function PriorityCases(beneficiaries: seq<Beneficiary>): seq<Beneficiary>
  {
    Filter(beneficiaries, IsPriority)
  }

  // ---------------------------------------------------------------- distribution

  /** A form without a beneficiary, a resource or a date changes neither list. */
  lemma IncompleteFormChangesNothing(beneficiaries: seq<Beneficiary>, resources: seq<Resource>,
                                     f: AssistanceForm, localeDate: string -> string)
    requires f.beneficiaryId.None? || f.resourceId.None? || f.date == ""
    ensures ResourcesAfter(resources, f) == resources
    ensures BeneficiariesAfter(beneficiaries, f, localeDate) == beneficiaries
  {
  }

  /** A submit rewrites only the selected resource: its quantity becomes the old one less
      the distributed amount, floored at zero, with the matching label; its other fields,
      every other resource, the order and the length stay. */
  lemma DistributionTouchesOnlyTarget(resources: seq<Resource>, f: AssistanceForm)
    requires IsComplete(f)
    ensures var r := ResourcesAfter(resources, f);
      |r| == |resources| &&
      forall i :: 0 <= i < |resources| ==>
        r[i].id == resources[i].id && r[i].name == resources[i].name &&
        r[i].category == resources[i].category && r[i].unit == resources[i].unit &&
        (resources[i].id == f.resourceId.value ==>
           r[i].quantity == (if resources[i].quantity < f.quantity then 0 else resources[i].quantity - f.quantity) &&
           r[i].status == StockStatus(r[i].quantity)) &&
        (resources[i].id != f.resourceId.value ==> r[i] == resources[i])
  {
  }

  /** A quantity of at least one, which the form demands, never raises a stock; a stock
      in hand strictly falls, and an empty stock stays empty, labelled "Crítico" once distributed from. */
  lemma DistributionNeverRaisesStock(resources: seq<Resource>, f: AssistanceForm)
    requires IsComplete(f) && f.quantity >= 1
    ensures var r := ResourcesAfter(resources, f);
      forall i :: 0 <= i < |resources| ==>
        r[i].quantity <= resources[i].quantity &&
        (resources[i].id == f.resourceId.value && resources[i].quantity > 0 ==> r[i].quantity < resources[i].quantity) &&
        (resources[i].quantity == 0 ==> r[i].quantity == 0) &&
        (resources[i].id == f.resourceId.value && resources[i].quantity == 0 ==> r[i].status == "Crítico")
  {
  }

  /** A distribution keeps every label in step with its quantity. */
  lemma DistributionKeepsStatuses(resources: seq<Resource>, f: AssistanceForm)
    requires StatusesConsistent(resources)
    ensures StatusesConsistent(ResourcesAfter(resources, f))
  {
  }

  /** A submit rewrites only the selected beneficiary's date of last assistance; its other
      fields, every other beneficiary, the order and the length stay. */
  lemma AssistanceTouchesOnlyBeneficiary(beneficiaries: seq<Beneficiary>, f: AssistanceForm,
                                         localeDate: string -> string)
    requires IsComplete(f)
    ensures var r := BeneficiariesAfter(beneficiaries, f, localeDate);
      |r| == |beneficiaries| &&
      forall i :: 0 <= i < |beneficiaries| ==>
        (beneficiaries[i].id == f.beneficiaryId.value ==>
           r[i] == beneficiaries[i].(lastAssistance := localeDate(f.date))) &&
        (beneficiaries[i].id != f.beneficiaryId.value ==> r[i] == beneficiaries[i])
  {
  }

  // ---------------------------------------------------------------- searches

  /** The beneficiary search returns, in list order, the beneficiaries whose name holds the
      query; an empty query returns them all. */
  lemma BeneficiarySearchIsOrderedSelection(beneficiaries: seq<Beneficiary>, query: string)
    ensures var r := FilteredBeneficiaries(beneficiaries, query);
      IsSubsequence(r, beneficiaries) &&
      (forall i :: 0 <= i < |r| ==> MatchesIgnoringCase(r[i].name, query)) &&
      (forall i :: 0 <= i < |beneficiaries| && MatchesIgnoringCase(beneficiaries[i].name, query) ==> beneficiaries[i] in r)
    ensures query == "" ==> FilteredBeneficiaries(beneficiaries, query) == beneficiaries
  {
    var p := (b: Beneficiary) => MatchesIgnoringCase(b.name, query);
    FilterIsSubsequence(beneficiaries, p);
    if query == "" {
      forall i | 0 <= i < |beneficiaries| ensures p(beneficiaries[i]) {
        EmptyQueryMatches(beneficiaries[i].name);
      }
      FilterKeepsAll(beneficiaries, p);
    }
  }

  /** The resource search returns, in list order, the resources whose name or category holds
      the query; an empty query returns them all. */
  lemma ResourceSearchIsOrderedSelection(resources: seq<Resource>, query: string)
    ensures var r := FilteredResources(resources, query);
      IsSubsequence(r, resources) &&
      (forall i :: 0 <= i < |r| ==> MatchesIgnoringCase(r[i].name, query) || MatchesIgnoringCase(r[i].category, query)) &&
      (forall i :: 0 <= i < |resources| && (MatchesIgnoringCase(resources[i].name, query) || MatchesIgnoringCase(resources[i].category, query))
         ==> resources[i] in r)
    ensures query == "" ==> FilteredResources(resources, query) == resources
  {
    var p := (r: Resource) => MatchesIgnoringCase(r.name, query) || MatchesIgnoringCase(r.category, query);
    FilterIsSubsequence(resources, p);
    if query == "" {
      forall i | 0 <= i < |resources| ensures p(resources[i]) {
        EmptyQueryMatches(resources[i].name);
      }
      FilterKeepsAll(resources, p);
    }
  }

  /** The priority panel lists exactly the high-priority beneficiaries, in list order. */
  lemma PriorityCasesAreExactlyHigh(beneficiaries: seq<Beneficiary>)
    ensures var r := PriorityCases(beneficiaries);
      IsSubsequence(r, beneficiaries) &&
      (forall i :: 0 <= i < |r| ==> r[i].priority == "Alta") &&
      (forall i :: 0 <= i < |beneficiaries| && beneficiaries[i].priority == "Alta" ==> beneficiaries[i] in r)
  {
    FilterIsSubsequence(beneficiaries, IsPriority);
  }

  // ---------------------------------------------------------------- page state

  const SeedBeneficiaries: seq<Beneficiary> := [
    Beneficiary(1, "Família Souza", 4, "Alta", "15/10/2023", "Ativo"),
    Beneficiary(2, "João Batista", 1, "Média", "02/11/2023", "Ativo"),
    Beneficiary(3, "Maria Silva", 3, "Baixa", "20/09/2023", "Inativo"),
    Beneficiary(4, "Família Oliveira", 6, "Alta", "10/11/2023", "Ativo")
  ]

  const SeedResources: seq<Resource> := [
    Resource(1, "Cesta Básica", "Alimentos", 45, "unidades", "Suficiente"),
    Resource(2, "Leite em Pó", "Alimentos", 12, "latas", "Baixo"),
    Resource(3, "Roupas de Inverno", "Vestuário", 150, "peças", "Suficiente"),
    Resource(4, "Fraldas Infantis", "Higiene", 5, "pacotes", "Crítico")
  ]

  /** The seeded stock does not follow the threshold rule: 12 tins of milk are labelled
      "Baixo" and 5 packs of nappies "Crítico", so the rule holds only for resources a
      distribution has touched. */
  lemma SeedStatusesInconsistent()
    ensures !StatusesConsistent(SeedResources)
    ensures SeedResources[1].status != StockStatus(SeedResources[1].quantity)
    ensures SeedResources[3].status != StockStatus(SeedResources[3].quantity)
  {
  }

  /** Handing out 5 of the 12 tins of milk leaves 7, labelled "Baixo". */
  lemma MilkDistributionExample(localeDate: string -> string)
    ensures var r := ResourcesAfter(SeedResources, AssistanceForm(Some(1), Some(2), 5, "2023-11-20", ""));
      r[1].quantity == 7 && r[1].status == "Baixo" && r[0] == SeedResources[0] && r[3] == SeedResources[3]
  {
  }

  class SocialActionPage {
    var beneficiaries: seq<Beneficiary>
    var resources: seq<Resource>

    constructor ()
      ensures beneficiaries == SeedBeneficiaries && resources == SeedResources
    {
      beneficiaries := SeedBeneficiaries;
      resources := SeedResources;
    }

    /** `handleAddAssistance`: take the quantity out of the selected resource and record
        the date on the selected beneficiary. */
    method AddAssistance(f: AssistanceForm, localeDate: string -> string) returns (applied: bool)
      modifies this
      ensures applied == IsComplete(f)
      ensures resources == ResourcesAfter(old(resources), f)
      ensures beneficiaries == BeneficiariesAfter(old(beneficiaries), f, localeDate)
      ensures StatusesConsistent(old(resources)) ==> StatusesConsistent(resources)
    {
      if StatusesConsistent(resources) {
        DistributionKeepsStatuses(resources, f);
      }
      applied := IsComplete(f);
      if !applied {
        return;
      }
      var rid, bid := f.resourceId.value, f.beneficiaryId.value;
      resources := UpdateWhere(resources, (r: Resource) => r.id == rid, (r: Resource) => Distributed(r, f.quantity));
      beneficiaries := UpdateWhere(beneficiaries, (b: Beneficiary) => b.id == bid,
                                   (b: Beneficiary) => b.(lastAssistance := localeDate(f.date)));
    }
  }
}
