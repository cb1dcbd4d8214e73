/** The congregations page: the church's branches with address, leader and contacts, an
    add/edit form, delete and a search. */
module Congregations {
  import opened Collections
  import opened Text

  datatype Congregation = Congregation(id: nat, name: string, address: string, leader: string, members: nat,
                                       founded: string, phone: string, email: string, status: string,
                                       image: string)

  datatype CongregationForm = CongregationForm(name: string, address: string, leader: string,
                                               phone: string, email: string, status: string)

  const EmptyForm := CongregationForm("", "", "", "", "", "Ativa")

  /** The picture every new congregation gets. */
  const DefaultImage := "https://images.unsplash.com/photo-1438232992991-995b7058bbb3?q=80&w=2073&auto=format&fit=crop"

  /** The form marks name, leader and address as required, so no submit arrives without them. */
  predicate IsComplete(f: CongregationForm)
  {
    f.name != "" && f.leader != "" && f.address != ""
  }

  /** The six form fields spread over a congregation. */
  function Merged(c: Congregation, f: CongregationForm): Congregation
  {
    c.(name := f.name, address := f.address, leader := f.leader, phone := f.phone, email := f.email,
       status := f.status)
  }

  /** A new congregation; `currentYear` is the current year as text. */
  function NewCongregation(id: nat, f: CongregationForm, currentYear: string): Congregation
  {
    Congregation(id, f.name, f.address, f.leader, 0, currentYear, f.phone, f.email, f.status, DefaultImage)
  }

  /** The congregations after a submit: the one under edit takes the form's fields, or a
      new one is appended. */
  function CongregationsAfterSubmit(cs: seq<Congregation>, editing: Option<nat>, f: CongregationForm,
                                    freshId: nat, currentYear: string): seq<Congregation>
  {
    match editing
    case Some(id) => UpdateWhere(cs, (c: Congregation) => c.id == id, (c: Congregation) => Merged(c, f))
    case None => cs + [NewCongregation(freshId, f, currentYear)]
  }

  function WithoutCongregation(cs: seq<Congregation>, id: nat): seq<Congregation>
  {
    Filter(cs, (c: Congregation) => c.id != id)
  }

  /** The form an edit click fills in. */
  function EditForm(c: Congregation): (f: CongregationForm)
    ensures f.name == c.name && f.address == c.address && f.leader == c.leader
    ensures f.phone == c.phone && f.email == c.email && f.status == c.status
  {
    CongregationForm(c.name, c.address, c.leader, c.phone, c.email, c.status)
  }

  /** The search: name, leader or address contains the query, ignoring case. */
  predicate MatchesCongregation(c: Congregation, query: string)
  {
    MatchesIgnoringCase(c.name, query) || MatchesIgnoringCase(c.leader, query) || MatchesIgnoringCase(c.address, query)
  }

  function FilteredCongregations(cs: seq<Congregation>, query: string): seq<Congregation>
  {
    Filter(cs, (c: Congregation) => MatchesCongregation(c, query))
  }

  /** No two congregations share an id. */
  predicate UniqueIds(cs: seq<Congregation>)
  {
    forall i, j :: 0 <= i < j < |cs| ==> cs[i].id != cs[j].id
  }

  predicate IsFreshId(cs: seq<Congregation>, id: nat)
  {
    forall i :: 0 <= i < |cs| ==> cs[i].id != id
  }

  // ---------------------------------------------------------------- lemmas

  /** An edit overwrites name, address, leader, phone, e-mail and status of the
      congregation under edit and keeps its id, members, founding year and picture; the
      other congregations and the count stay. */
  lemma EditMergesForm(cs: seq<Congregation>, id: nat, f: CongregationForm, freshId: nat, currentYear: string)
    ensures var r := CongregationsAfterSubmit(cs, Some(id), f, freshId, currentYear);
      |r| == |cs| &&
      forall i :: 0 <= i < |cs| ==>
        r[i].id == cs[i].id && r[i].members == cs[i].members && r[i].founded == cs[i].founded &&
        r[i].image == cs[i].image &&
        (cs[i].id == id ==>
           r[i].name == f.name && r[i].address == f.address && r[i].leader == f.leader &&
           r[i].phone == f.phone && r[i].email == f.email && r[i].status == f.status) &&
        (cs[i].id != id ==> r[i] == cs[i])
  {
  }

  /** A create appends one congregation with the fresh id, no members, the current year and
      the default picture; the count grows by one and the earlier ones stay. */
  lemma CreateAppends(cs: seq<Congregation>, f: CongregationForm, freshId: nat, currentYear: string)
    ensures var r := CongregationsAfterSubmit(cs, None, f, freshId, currentYear);
      |r| == |cs| + 1 && r[..|cs|] == cs && r[|cs|].id == freshId && r[|cs|].members == 0 &&
      r[|cs|].founded == currentYear && r[|cs|].image == DefaultImage &&
      r[|cs|].name == f.name && r[|cs|].leader == f.leader && r[|cs|].address == f.address
  {
  }

  /** Deleting removes exactly the congregations with that id and keeps the others in order. */
  lemma DeleteRemovesOnlyId(cs: seq<Congregation>, id: nat)
    ensures var r := WithoutCongregation(cs, id);
      IsSubsequence(r, cs) &&
      (forall i :: 0 <= i < |r| ==> r[i].id != id) &&
      (forall i :: 0 <= i < |cs| && cs[i].id != id ==> cs[i] in r)
  {
    FilterIsSubsequence(cs, (c: Congregation) => c.id != id);
  }

  /** With unique ids, deleting a listed congregation removes exactly that one row. */
  lemma DeleteListedRemovesOne(cs: seq<Congregation>, k: nat)
    requires UniqueIds(cs) && k < |cs|
    ensures WithoutCongregation(cs, cs[k].id) == cs[..k] + cs[k + 1..]
    ensures |WithoutCongregation(cs, cs[k].id)| == |cs| - 1
  {
    var id := cs[k].id;
    forall i | 0 <= i < |cs| && i != k ensures cs[i].id != id {
      if i < k {
        assert cs[i].id != cs[k].id;
      } else {
        assert cs[k].id != cs[i].id;
      }
    }
    FilterRemovesOne(cs, (c: Congregation) => c.id != id, k);
  }

  /** Submits keep ids unique, provided a create gets an id no congregation has. */
  lemma SubmitKeepsUniqueIds(cs: seq<Congregation>, editing: Option<nat>, f: CongregationForm,
                             freshId: nat, currentYear: string)
    requires UniqueIds(cs)
    requires editing.None? ==> IsFreshId(cs, freshId)
    ensures UniqueIds(CongregationsAfterSubmit(cs, editing, f, freshId, currentYear))
  {
  }

  /** Deleting keeps ids unique. */
  lemma DeleteKeepsUniqueIds(cs: seq<Congregation>, id: nat)
    requires UniqueIds(cs)
    ensures UniqueIds(WithoutCongregation(cs, id))
  {
    var r := WithoutCongregation(cs, id);
    FilterKeepsPairwise(cs, (c: Congregation) => c.id != id, (a: Congregation, b: Congregation) => a.id != b.id);
    assert Pairwise(r, (a: Congregation, b: Congregation) => a.id != b.id);
  }

  /** The search returns, in list order, exactly the congregations whose name, leader or
      address holds the query; an empty query returns them all. */
  lemma SearchIsOrderedSelection(cs: seq<Congregation>, query: string)
    ensures var r := FilteredCongregations(cs, query);
      IsSubsequence(r, cs) &&
      (forall i :: 0 <= i < |r| ==> MatchesCongregation(r[i], query)) &&
      (forall i :: 0 <= i < |cs| && MatchesCongregation(cs[i], query) ==> cs[i] in r)
    ensures query == "" ==> FilteredCongregations(cs, query) == cs
  {
    var p := (c: Congregation) => MatchesCongregation(c, query);
    FilterIsSubsequence(cs, p);
    if query == "" {
      forall i | 0 <= i < |cs| ensures p(cs[i]) {
        EmptyQueryMatches(cs[i].name);
      }
      FilterKeepsAll(cs, p);
    }
  }

  // ---------------------------------------------------------------- page state

  const SeedCongregations: seq<Congregation> := [
    Congregation(1, "Sede Central", "Av. Principal, 1000 - Centro", "Pr. João Silva", 450, "1985",
                 "(11) 3333-4444", "sede@igreja.com", "Ativa", DefaultImage),
    Congregation(2, "Congregação Norte", "Rua das Palmeiras, 45 - Jd. Norte", "Pb. Marcos Santos", 120, "2010",
                 "(11) 3333-5555", "norte@igreja.com", "Ativa",
                 "https://images.unsplash.com/photo-1548625361-e88c60eb35d2?q=80&w=2069&auto=format&fit=crop"),
    Congregation(3, "Ponto de Pregação Sul", "Av. do Sol, 890 - Vila Sul", "Dc. Pedro Oliveira", 45, "2022",
                 "(11) 99999-8888", "sul@igreja.com", "Em Crescimento",
                 "https://images.unsplash.com/photo-1478147427282-58a87a120781?q=80&w=2070&auto=format&fit=crop")
  ]

  class CongregationsPage {
    var congregations: seq<Congregation>
    /** The id of the congregation whose edit form is open, if any. */
    var editing: Option<nat>

    constructor ()
      ensures congregations == SeedCongregations && editing == None
    {
      congregations := SeedCongregations;
      editing := None;
    }

    /** `handleAddCongregation`: merge the form into the open congregation or append a new one. */
    method AddCongregation(f: CongregationForm, freshId: nat, currentYear: string)
      requires IsComplete(f)
      modifies this
      ensures congregations == CongregationsAfterSubmit(old(congregations), old(editing), f, freshId, currentYear)
      ensures editing == None
      ensures UniqueIds(old(congregations)) && (old(editing).None? ==> IsFreshId(old(congregations), freshId))
              ==> UniqueIds(congregations)
    {
      if UniqueIds(congregations) && (editing.None? ==> IsFreshId(congregations, freshId)) {
        SubmitKeepsUniqueIds(congregations, editing, f, freshId, currentYear);
      }
      match editing {
        case Some(id) =>
          congregations := UpdateWhere(congregations, (c: Congregation) => c.id == id,
                                       (c: Congregation) => Merged(c, f));
        case None =>
          congregations := congregations + [NewCongregation(freshId, f, currentYear)];
      }
      editing := None;
    }

    /** `handleEdit`: open the form on a congregation. */
    method BeginEdit(c: Congregation) returns (f: CongregationForm)
      modifies this
      ensures editing == Some(c.id) && f == EditForm(c) && congregations == old(congregations)
    {
      editing := Some(c.id);
      f := EditForm(c);
    }

    /** The "new" button and the form's close buttons: no congregation under edit and an empty form. */
    method CancelEdit() returns (f: CongregationForm)
      modifies this
      ensures editing == None && f == EmptyForm && congregations == old(congregations)
    {
      editing := None;
      f := EmptyForm;
    }

    /** `handleDelete`: removes the congregation once the user confirms. */
    method DeleteCongregation(id: nat, confirmed: bool)
      modifies this
      ensures congregations == if confirmed then WithoutCongregation(old(congregations), id) else old(congregations)
      ensures editing == old(editing)
      ensures UniqueIds(old(congregations)) ==> UniqueIds(congregations)
    {
      if confirmed {
        if UniqueIds(congregations) {
          DeleteKeepsUniqueIds(congregations, id);
        }
        congregations := WithoutCongregation(congregations, id);
      }
    }
  }
}
