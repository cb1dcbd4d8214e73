/** The asset register: the church's equipment with location, condition, purchase date
    and value, an add/edit form, delete, a filtered table and the summary cards.
    Values are integer cents. */
module Patrimonio {
  import opened Collections
  import opened Text

  datatype Asset = Asset(id: nat, name: string, category: string, location: string,
                         condition: string, purchaseDate: string, value: int)

  /** The asset form; `purchaseDate` is the ISO value of a date input and `value` the
      parsed value field, `None` when it is empty. */
  datatype AssetForm = AssetForm(name: string, category: string, location: string,
                                 condition: string, purchaseDate: string, value: Option<int>)

  const EmptyForm := AssetForm("", "Áudio", "", "Bom", "", None)

  predicate IsComplete(f: AssetForm)
  {
    f.name != "" && f.value.Some?
  }

  /** A blank location is stored as "Não especificado". */
  function StoredLocation(location: string): (r: string)
    ensures location == "" ==> r == "Não especificado"
    ensures location != "" ==> r == location
  {
    if location == "" then "Não especificado" else location
  }

  /** A blank purchase date is stored as "N/A", any other in its locale form. */
  function StoredDate(iso: string, localeDate: string -> string): (r: string)
    ensures iso == "" ==> r == "N/A"
    ensures iso != "" ==> r == localeDate(iso)
  {
    if iso == "" then "N/A" else localeDate(iso)
  }

  function Edited(a: Asset, f: AssetForm, localeDate: string -> string): Asset
    requires f.value.Some?
  {
    a.(name := f.name, category := f.category, location := StoredLocation(f.location),
       condition := f.condition, purchaseDate := StoredDate(f.purchaseDate, localeDate),
       value := f.value.value)
  }

  function NewAsset(id: nat, f: AssetForm, localeDate: string -> string): Asset
    requires f.value.Some?
  {
    Asset(id, f.name, f.category, StoredLocation(f.location), f.condition,
          StoredDate(f.purchaseDate, localeDate), f.value.value)
  }

  /** The register after a submit: unchanged without a name or a value; otherwise the
      asset under edit is rewritten, or a new one is appended. */
  function AssetsAfterSubmit(assets: seq<Asset>, editing: Option<nat>, f: AssetForm, freshId: nat,
                             localeDate: string -> string): seq<Asset>
  {
    if !IsComplete(f) then assets
    else match editing
      case Some(id) => UpdateWhere(assets, (a: Asset) => a.id == id, (a: Asset) => Edited(a, f, localeDate))
      case None => assets + [NewAsset(freshId, f, localeDate)]
  }

  function WithoutAsset(assets: seq<Asset>, id: nat): seq<Asset>
  {
    Filter(assets, (a: Asset) => a.id != id)
  }

  // ---------------------------------------------------------------- date input

  /** The date-input value seeded from a stored `DD/MM/YYYY` date: the three parts in
      reverse order joined by '-'; "", "N/A" and any string that does not split into
      exactly three parts give "". */
  function IsoFromDisplay(s: string): (r: string)
    ensures r != "" ==> |Split(s, '/')| == 3
    ensures s == "N/A" ==> r == ""
  {
    if s == "" || s == "N/A" then ""
    else
      var parts := Split(s, '/');
      if |parts| == 3 then parts[2] + "-" + parts[1] + "-" + parts[0] else ""
  }

  /** The form an edit click fills in. */
  function EditForm(a: Asset): (f: AssetForm)
    ensures f.name == a.name && f.category == a.category && f.location == a.location
    ensures f.condition == a.condition && f.value == Some(a.value)
    ensures f.purchaseDate == IsoFromDisplay(a.purchaseDate)
  {
    AssetForm(a.name, a.category, a.location, a.condition, IsoFromDisplay(a.purchaseDate), Some(a.value))
  }

  predicate IsDigits(s: string)
  {
    forall i :: 0 <= i < |s| ==> '0' <= s[i] <= '9'
  }

  /** Day, month and year free of '/' are reordered into year-month-day. */
  lemma IsoFromDisplayReorders(d: string, m: string, y: string)
    requires '/' !in d && '/' !in m && '/' !in y
    ensures IsoFromDisplay(d + "/" + m + "/" + y) == y + "-" + m + "-" + d
  {
    var s := d + "/" + m + "/" + y;
    assert Join([d, m, y], "/") == s by {
      assert Join([m, y], "/") == m + "/" + y;
    }
    SplitJoin([d, m, y], '/');
    assert Split(s, '/') == [d, m, y];
    assert s != "" && s != "N/A" by {
      assert s[|d|] == '/';
      assert "N/A"[1] == '/';
    }
  }

  /** A `DD/MM/YYYY` date of digits becomes a `YYYY-MM-DD` valid date string as a date
      input expects it (section 2.3.5.2 of the HTML Living Standard): ten characters,
      '-' at positions 4 and 7, digits elsewhere. */
  lemma IsoFromDisplayIsDateString(d: string, m: string, y: string)
    requires |d| == 2 && |m| == 2 && |y| == 4 && IsDigits(d) && IsDigits(m) && IsDigits(y)
    ensures var r := IsoFromDisplay(d + "/" + m + "/" + y);
      |r| == 10 && r[4] == '-' && r[7] == '-' &&
      forall i :: 0 <= i < 10 && i != 4 && i != 7 ==> '0' <= r[i] <= '9'
  {
    assert '/' !in d && '/' !in m && '/' !in y by {
      assert forall i :: 0 <= i < |d| ==> d[i] != '/';
      assert forall i :: 0 <= i < |m| ==> m[i] != '/';
      assert forall i :: 0 <= i < |y| ==> y[i] != '/';
    }
    IsoFromDisplayReorders(d, m, y);
    var r := y + "-" + m + "-" + d;
    assert forall i :: 0 <= i < 4 ==> r[i] == y[i];
    assert forall i :: 5 <= i < 7 ==> r[i] == m[i - 5];
    assert forall i :: 8 <= i < 10 ==> r[i] == d[i - 8];
  }

  /** "N/A", the empty string and a date of more or fewer than three parts seed an empty input. */
  lemma IsoFromDisplayRejects(s: string)
    requires s == "" || s == "N/A" || |Split(s, '/')| != 3
    ensures IsoFromDisplay(s) == ""
  {
  }

  // ---------------------------------------------------------------- table and summary

  /** The table filter: the name or category holds the query, and the category and
      condition equal their filters, an empty filter admitting any. */
  predicate Shown(a: Asset, query: string, category: string, condition: string)
  {
    (MatchesIgnoringCase(a.name, query) || MatchesIgnoringCase(a.category, query))
    && (category == "" || a.category == category)
    && (condition == "" || a.condition == condition)
  }

  function FilteredAssets(assets: seq<Asset>, query: string, category: string, condition: string): seq<Asset>
  {
    Filter(assets, (a: Asset) => Shown(a, query, category, condition))
  }

  function ValueOf(a: Asset): int { a.value }

  function TotalValue(assets: seq<Asset>): int
  {
    Sum(assets, ValueOf)
  }

  predicate InMaintenance(a: Asset) { a.condition == "Manutenção" }

  function MaintenanceCount(assets: seq<Asset>): (n: nat)
    ensures n <= |assets|
  {
    |Filter(assets, InMaintenance)|
  }

  // ---------------------------------------------------------------- lemmas

  /** A submit without a name or a value leaves the register unchanged. */
  lemma IncompleteFormKeepsAssets(assets: seq<Asset>, editing: Option<nat>, f: AssetForm, freshId: nat,
                                  localeDate: string -> string)
    requires f.name == "" || f.value.None?
    ensures AssetsAfterSubmit(assets, editing, f, freshId, localeDate) == assets
  {
  }

  /** A create appends one asset with the fresh id and the form's fields, a blank location
      stored as "Não especificado" and a blank date as "N/A"; the earlier assets stay. */
  lemma CreateAppends(assets: seq<Asset>, f: AssetForm, freshId: nat, localeDate: string -> string)
    requires IsComplete(f)
    ensures var r := AssetsAfterSubmit(assets, None, f, freshId, localeDate);
      |r| == |assets| + 1 && r[..|assets|] == assets && r[|assets|].id == freshId &&
      r[|assets|].name == f.name && r[|assets|].value == f.value.value &&
      r[|assets|].category == f.category && r[|assets|].condition == f.condition &&
      (f.location == "" ==> r[|assets|].location == "Não especificado") &&
      (f.location != "" ==> r[|assets|].location == f.location) &&
      (f.purchaseDate == "" ==> r[|assets|].purchaseDate == "N/A")
  {
  }

  /** An edit rewrites every field but the id of the asset under edit, with the same
      defaults as a create; the other assets and the length stay. */
  lemma EditTouchesOnlyTarget(assets: seq<Asset>, id: nat, f: AssetForm, freshId: nat, localeDate: string -> string)
    requires IsComplete(f)
    ensures var r := AssetsAfterSubmit(assets, Some(id), f, freshId, localeDate);
      |r| == |assets| &&
      forall i :: 0 <= i < |assets| ==>
        r[i].id == assets[i].id &&
        (assets[i].id == id ==>
           r[i].name == f.name && r[i].category == f.category && r[i].condition == f.condition &&
           r[i].value == f.value.value &&
           (f.location == "" ==> r[i].location == "Não especificado") &&
           (f.purchaseDate == "" ==> r[i].purchaseDate == "N/A")) &&
        (assets[i].id != id ==> r[i] == assets[i])
  {
  }

  /** Deleting removes exactly the assets with that id and keeps the others in order. */
  lemma DeleteRemovesOnlyId(assets: seq<Asset>, id: nat)
    ensures var r := WithoutAsset(assets, id);
      IsSubsequence(r, assets) &&
      (forall i :: 0 <= i < |r| ==> r[i].id != id) &&
      (forall i :: 0 <= i < |assets| && assets[i].id != id ==> assets[i] in r)
  {
    FilterIsSubsequence(assets, (a: Asset) => a.id != id);
  }

  /** The table shows, in register order, exactly the assets passing all three tests. */
  lemma FilterIsConjunction(assets: seq<Asset>, query: string, category: string, condition: string)
    ensures var r := FilteredAssets(assets, query, category, condition);
      IsSubsequence(r, assets) &&
      (forall i :: 0 <= i < |r| ==> Shown(r[i], query, category, condition)) &&
      (forall i :: 0 <= i < |assets| && Shown(assets[i], query, category, condition) ==> assets[i] in r)
  {
    FilterIsSubsequence(assets, (a: Asset) => Shown(a, query, category, condition));
  }

  /** With no query and no filters the table shows the whole register. */
  lemma NoFiltersShowsAll(assets: seq<Asset>)
    ensures FilteredAssets(assets, "", "", "") == assets
  {
    var p := (a: Asset) => Shown(a, "", "", "");
    forall i | 0 <= i < |assets| ensures p(assets[i]) {
      EmptyQueryMatches(assets[i].name);
    }
    FilterKeepsAll(assets, p);
  }

  /** A create adds the new value to the total, and one to the maintenance count exactly
      when the new asset is under maintenance. */
  lemma CreateMovesSummary(assets: seq<Asset>, f: AssetForm, freshId: nat, localeDate: string -> string)
    requires IsComplete(f)
    ensures var r := AssetsAfterSubmit(assets, None, f, freshId, localeDate);
      TotalValue(r) == TotalValue(assets) + f.value.value &&
      MaintenanceCount(r) == MaintenanceCount(assets) + (if f.condition == "Manutenção" then 1 else 0)
  {
    var n := NewAsset(freshId, f, localeDate);
    SumAppend(assets, [n], ValueOf);
    FilterAppend(assets, [n], InMaintenance);
    assert Filter([n], InMaintenance) == (if InMaintenance(n) then [n] else []) + Filter([], InMaintenance);
  }

  // ---------------------------------------------------------------- page state

  const SeedAssets: seq<Asset> := [
    Asset(1, "Mesa de Som Yamaha", "Áudio", "Templo Principal", "Bom", "10/05/2021", 450000),
    Asset(2, "Projetor Epson", "Vídeo", "Salão Anexo", "Regular", "15/08/2019", 280000),
    Asset(3, "Bateria Pearl", "Instrumentos", "Templo Principal", "Bom", "20/11/2020", 650000),
    Asset(4, "Ar Condicionado 30.000 BTUs", "Equipamentos", "Sala 02", "Manutenção", "05/02/2018", 320000)
  ]

  class PatrimonioPage {
    var assets: seq<Asset>
    /** The id of the asset whose edit form is open, if any. */
    var editing: Option<nat>

    constructor ()
      ensures assets == SeedAssets && editing == None
    {
      assets := SeedAssets;
      editing := None;
    }

    /** `handleAddAsset`: save the form as an edit of the open asset or as a new one. */
    method AddAsset(f: AssetForm, freshId: nat, localeDate: string -> string) returns (saved: bool)
      modifies this
      ensures saved == IsComplete(f)
      ensures assets == AssetsAfterSubmit(old(assets), old(editing), f, freshId, localeDate)
      ensures editing == if saved then None else old(editing)
    {
      saved := IsComplete(f);
      if !saved {
        return;
      }
      match editing {
        case Some(id) =>
          assets := UpdateWhere(assets, (a: Asset) => a.id == id, (a: Asset) => Edited(a, f, localeDate));
        case None =>
          assets := assets + [NewAsset(freshId, f, localeDate)];
      }
      editing := None;
    }

    /** `handleEdit`: open the form on an asset, its date converted for the date input. */
    method BeginEdit(a: Asset) returns (f: AssetForm)
      modifies this
      ensures editing == Some(a.id) && f == EditForm(a) && assets == old(assets)
    {
      editing := Some(a.id);
      f := EditForm(a);
    }

    /** The "new" button and the form's close buttons: no asset under edit and an empty form. */
    method CancelEdit() returns (f: AssetForm)
      modifies this
      ensures editing == None && f == EmptyForm && assets == old(assets)
    {
      editing := None;
      f := EmptyForm;
    }

    /** The delete button: removes the asset once the user confirms. */
    method DeleteAsset(id: nat, confirmed: bool)
      modifies this
      ensures assets == if confirmed then WithoutAsset(old(assets), id) else old(assets)
      ensures editing == old(editing)
    {
      if confirmed {
        assets := WithoutAsset(assets, id);
      }
    }
  }
}
