/** The volunteer rosters: which team serves at which event, with its list of
    volunteers typed as one comma-separated field. */
module Escalas {
  import opened Collections
  import opened Text

  datatype Roster = Roster(id: nat, event: string, date: string, time: string, team: string,
                           members: seq<string>, status: string)

  /** The roster form; `members` is the comma-separated text field. */
  datatype RosterForm = RosterForm(event: string, date: string, time: string, team: string, members: string)

  const EmptyForm := RosterForm("", "", "", "Louvor", "")

  // ---------------------------------------------------------------- member lists

  /** `parts.map(m => m.trim())`. */
  function TrimAll(parts: seq<string>): (r: seq<string>)
    ensures |r| == |parts|
    ensures forall i :: 0 <= i < |parts| ==> r[i] == Trim(parts[i])
    decreases |parts|
  {
    if parts == [] then [] else [Trim(parts[0])] + TrimAll(parts[1..])
  }

  predicate NonEmpty(s: string) { s != "" }

  /** The volunteer list typed in the form: split on ',', trim each piece, drop the empty ones. */
  function ParseMembers(text: string): seq<string>
  {
    Filter(TrimAll(Split(text, ',')), NonEmpty)
  }

  /** The text the edit form shows for a volunteer list. */
  function JoinMembers(members: seq<string>): string
  {
    Join(members, ", ")
  }

  /** A name the form can carry through a join and a parse unchanged. */
  predicate IsCleanName(name: string)
  {
    name != "" && IsTrimmed(name) && ',' !in name
  }

  /** Each name behind a space. */
  function Spaced(names: seq<string>): (r: seq<string>)
    ensures |r| == |names|
    ensures forall i :: 0 <= i < |names| ==> r[i] == " " + names[i]
    decreases |names|
  {
    if names == [] then [] else [" " + names[0]] + Spaced(names[1..])
  }

  /** Trimmed pieces of a ','-split are trimmed and hold no comma. */
  lemma TrimmedPiecesAreClean(pieces: seq<string>)
    requires forall k :: 0 <= k < |pieces| ==> ',' !in pieces[k]
    ensures forall k :: 0 <= k < |TrimAll(pieces)| ==> IsTrimmed(TrimAll(pieces)[k]) && ',' !in TrimAll(pieces)[k]
  {
    forall k | 0 <= k < |pieces| ensures ',' !in Trim(pieces[k]) {
      TrimKeepsAbsent(pieces[k], ',');
    }
  }

  /** The parsed volunteers come in the order typed, each non-empty, trimmed and free of
      commas, and no non-empty trimmed piece is lost. */
  lemma ParsedMembersAreClean(text: string)
    ensures var t, r := TrimAll(Split(text, ',')), ParseMembers(text);
      IsSubsequence(r, t) &&
      (forall i :: 0 <= i < |r| ==> r[i] != "" && IsTrimmed(r[i]) && ',' !in r[i]) &&
      (forall k :: 0 <= k < |t| && t[k] != "" ==> t[k] in r)
  {
    var t := TrimAll(Split(text, ','));
    TrimmedPiecesAreClean(Split(text, ','));
    FilterIsSubsequence(t, NonEmpty);
    var r := Filter(t, NonEmpty);
    forall i | 0 <= i < |r| ensures IsTrimmed(r[i]) && ',' !in r[i] {
      var k :| 0 <= k < |t| && t[k] == r[i];
    }
    forall k | 0 <= k < |t| && t[k] != "" ensures t[k] in r {
      assert NonEmpty(t[k]);
    }
  }

  /** Joining with ", " is joining with "," the names after the first, each behind a space. */
  lemma {:induction false} JoinCommaSpace(names: seq<string>)
    requires |names| >= 1
    ensures Join(Spaced(names), ",") == " " + Join(names, ", ")
    decreases |names|
  {
    if |names| > 1 {
      JoinCommaSpace(names[1..]);
      assert Spaced(names)[1..] == Spaced(names[1..]);
      var a, rest := names[0], Join(names[1..], ", ");
      assert (" " + a) + "," + (" " + rest) == " " + (a + ", " + rest);
    }
  }

  /** The comma-separated pieces of a joined list: the first name, then the others
      each behind a space. */
  function Pieces(members: seq<string>): (r: seq<string>)
    requires |members| >= 1
    ensures |r| == |members| && r[0] == members[0]
    ensures forall i :: 1 <= i < |members| ==> r[i] == " " + members[i]
  {
    [members[0]] + Spaced(members[1..])
  }

  lemma JoinAsPieces(members: seq<string>)
    requires |members| >= 1
    ensures Join(Pieces(members), ",") == JoinMembers(members)
  {
    var pieces := Pieces(members);
    if |members| > 1 {
      JoinCommaSpace(members[1..]);
      assert pieces[1..] == Spaced(members[1..]);
      assert Join(pieces, ",") == members[0] + "," + Join(Spaced(members[1..]), ",");
    }
  }

  lemma PiecesAreCommaFree(members: seq<string>)
    requires |members| >= 1
    requires forall i :: 0 <= i < |members| ==> IsCleanName(members[i])
    ensures forall i :: 0 <= i < |members| ==> ',' !in Pieces(members)[i]
  {
    var pieces := Pieces(members);
    forall i | 1 <= i < |pieces| ensures ',' !in pieces[i] {
      assert pieces[i] == " " + members[i];
      assert forall k :: 1 <= k < |pieces[i]| ==> pieces[i][k] == members[i][k - 1];
    }
  }

  lemma TrimPieces(members: seq<string>)
    requires |members| >= 1
    requires forall i :: 0 <= i < |members| ==> IsCleanName(members[i])
    ensures TrimAll(Pieces(members)) == members
  {
    var pieces := Pieces(members);
    forall i | 1 <= i < |pieces| ensures Trim(pieces[i]) == members[i] {
      TrimSkipsLeadingSpace(members[i]);
    }
  }

  /** The edit form's text parses back to the volunteer list it came from, whenever every
      name is non-empty, trimmed and free of commas. */
  lemma ParseJoinRoundTrip(members: seq<string>)
    requires forall i :: 0 <= i < |members| ==> IsCleanName(members[i])
    ensures ParseMembers(JoinMembers(members)) == members
  {
    if members == [] {
      assert TrimAll(Split("", ',')) == [""];
    } else {
      JoinAsPieces(members);
      PiecesAreCommaFree(members);
      SplitJoin(Pieces(members), ',');
      TrimPieces(members);
      FilterKeepsAll(members, NonEmpty);
    }
  }

  // ---------------------------------------------------------------- dates

  /** JavaScript array destructuring: a missing element reads as `undefined`, which a
      template literal writes as "undefined". */
  function PartOrUndefined(parts: seq<string>, i: nat): string
  {
    if i < |parts| then parts[i] else "undefined"
  }

  /** The date-input value seeded from a stored `DD/MM/YYYY` date: the '/'-separated parts
      in the order year, month, day, joined by '-'. */
  function EditDate(stored: string): string
  {
    var parts := Split(stored, '/');
    PartOrUndefined(parts, 2) + "-" + PartOrUndefined(parts, 1) + "-" + PartOrUndefined(parts, 0)
  }

  /** Day, month and year free of '/' are reordered into year-month-day. */
  lemma EditDateReorders(d: string, m: string, y: string)
    requires '/' !in d && '/' !in m && '/' !in y
    ensures EditDate(d + "/" + m + "/" + y) == y + "-" + m + "-" + d
  {
    assert Join([d, m, y], "/") == d + "/" + m + "/" + y by {
      assert Join([m, y], "/") == m + "/" + y;
    }
    SplitJoin([d, m, y], '/');
  }

  /** A stored date without '/' fills the year and month with "undefined". */
  lemma EditDateOfUnsplitDate(s: string)
    requires '/' !in s
    ensures EditDate(s) == "undefined-undefined-" + s
  {
    SplitAfterPlainPrefix(s, "", '/');
    assert s + "" == s;
  }

  /** The date an edit stores: a date-input value (it holds '-') in its locale form, any
      other text as typed. */
  function EditedDate(date: string, localeDate: string -> string): (r: string)
    ensures '-' in date ==> r == localeDate(date)
    ensures '-' !in date ==> r == date
  {
    if '-' in date then localeDate(date) else date
  }

  // ---------------------------------------------------------------- submit and delete

  predicate IsComplete(f: RosterForm)
  {
    f.event != "" && f.date != "" && f.team != ""
  }

  function Edited(r: Roster, f: RosterForm, localeDate: string -> string): Roster
  {
    r.(event := f.event, date := EditedDate(f.date, localeDate), time := f.time, team := f.team,
       members := ParseMembers(f.members))
  }

  function NewRoster(id: nat, f: RosterForm, localeDate: string -> string): Roster
  {
    Roster(id, f.event, localeDate(f.date), f.time, f.team, ParseMembers(f.members), "Pendente")
  }

  /** The rosters after a submit: unchanged without an event, a date or a team; otherwise
      the roster under edit is rewritten, or a new one is appended. */
  function RostersAfterSubmit(rosters: seq<Roster>, editing: Option<nat>, f: RosterForm, freshId: nat,
                              localeDate: string -> string): seq<Roster>
  {
    if !IsComplete(f) then rosters
    else match editing
      case Some(id) => UpdateWhere(rosters, (r: Roster) => r.id == id, (r: Roster) => Edited(r, f, localeDate))
      case None => rosters + [NewRoster(freshId, f, localeDate)]
  }

  function WithoutRoster(rosters: seq<Roster>, id: nat): seq<Roster>
  {
    Filter(rosters, (r: Roster) => r.id != id)
  }

  /** The form an edit click fills in. */
  function EditForm(r: Roster): (f: RosterForm)
    ensures f.event == r.event && f.time == r.time && f.team == r.team
    ensures f.date == EditDate(r.date) && f.members == JoinMembers(r.members)
  {
    RosterForm(r.event, EditDate(r.date), r.time, r.team, JoinMembers(r.members))
  }

  /** The search: the event or the team contains the query, ignoring case. */
  function FilteredRosters(rosters: seq<Roster>, query: string): seq<Roster>
  {
    Filter(rosters, (r: Roster) => MatchesIgnoringCase(r.event, query) || MatchesIgnoringCase(r.team, query))
  }

  function MemberCount(r: Roster): int { |r.members| }

  /** The volunteer card: the volunteers of all rosters together. */
  function VolunteerTotal(rosters: seq<Roster>): int
  {
    Sum(rosters, MemberCount)
  }

  predicate IsPending(r: Roster) { r.status == "Pendente" }

  /** The pending card: how many rosters await confirmation. */
  function PendingCount(rosters: seq<Roster>): (n: nat)
    ensures n <= |rosters|
  {
    |Filter(rosters, IsPending)|
  }

  // ---------------------------------------------------------------- lemmas

  /** A submit without an event, a date or a team leaves the rosters unchanged. */
  lemma IncompleteFormKeepsRosters(rosters: seq<Roster>, editing: Option<nat>, f: RosterForm, freshId: nat,
                                   localeDate: string -> string)
    requires f.event == "" || f.date == "" || f.team == ""
    ensures RostersAfterSubmit(rosters, editing, f, freshId, localeDate) == rosters
  {
  }

  /** A create appends one pending roster with the fresh id, the locale date and the
      parsed volunteers; the earlier rosters stay. */
  lemma CreateAppendsPending(rosters: seq<Roster>, f: RosterForm, freshId: nat, localeDate: string -> string)
    requires IsComplete(f)
    ensures var r := RostersAfterSubmit(rosters, None, f, freshId, localeDate);
      |r| == |rosters| + 1 && r[..|rosters|] == rosters &&
      r[|rosters|].id == freshId && r[|rosters|].status == "Pendente" &&
      r[|rosters|].date == localeDate(f.date) && r[|rosters|].members == ParseMembers(f.members)
  {
  }

  /** An edit rewrites event, date, time, team and volunteers of the roster under edit and
      keeps its id and status; the other rosters and the length stay. */
  lemma EditTouchesOnlyTarget(rosters: seq<Roster>, id: nat, f: RosterForm, freshId: nat, localeDate: string -> string)
    requires IsComplete(f)
    ensures var r := RostersAfterSubmit(rosters, Some(id), f, freshId, localeDate);
      |r| == |rosters| &&
      forall i :: 0 <= i < |rosters| ==>
        r[i].id == rosters[i].id && r[i].status == rosters[i].status &&
        (rosters[i].id == id ==>
           r[i].event == f.event && r[i].time == f.time && r[i].team == f.team &&
           r[i].members == ParseMembers(f.members) && r[i].date == EditedDate(f.date, localeDate)) &&
        (rosters[i].id != id ==> r[i] == rosters[i])
  {
  }

  /** Saving an edit form as it was filled in keeps the volunteer list, for clean names. */
  lemma UnchangedEditKeepsMembers(rosters: seq<Roster>, k: nat, freshId: nat, localeDate: string -> string)
    requires k < |rosters|
    requires forall i :: 0 <= i < |rosters[k].members| ==> IsCleanName(rosters[k].members[i])
    requires IsComplete(EditForm(rosters[k]))
    ensures RostersAfterSubmit(rosters, Some(rosters[k].id), EditForm(rosters[k]), freshId, localeDate)[k].members
            == rosters[k].members
  {
    ParseJoinRoundTrip(rosters[k].members);
  }

  /** A create adds the new roster's volunteers to the volunteer total and one to the
      pending count. */
  lemma CreateMovesCards(rosters: seq<Roster>, f: RosterForm, freshId: nat, localeDate: string -> string)
    requires IsComplete(f)
    ensures var r := RostersAfterSubmit(rosters, None, f, freshId, localeDate);
      VolunteerTotal(r) == VolunteerTotal(rosters) + |ParseMembers(f.members)| &&
      PendingCount(r) == PendingCount(rosters) + 1
  {
    var n := NewRoster(freshId, f, localeDate);
    SumAppend(rosters, [n], MemberCount);
    FilterAppend(rosters, [n], IsPending);
    assert Filter([n], IsPending) == [n] + Filter([], IsPending);
  }

  /** Deleting removes exactly the rosters with that id and keeps the others in order. */
  lemma DeleteRemovesOnlyId(rosters: seq<Roster>, id: nat)
    ensures var r := WithoutRoster(rosters, id);
      IsSubsequence(r, rosters) &&
      (forall i :: 0 <= i < |r| ==> r[i].id != id) &&
      (forall i :: 0 <= i < |rosters| && rosters[i].id != id ==> rosters[i] in r)
  {
    FilterIsSubsequence(rosters, (r: Roster) => r.id != id);
  }

  /** The search returns, in list order, the rosters whose event or team holds the query;
      an empty query returns them all. */
  lemma SearchIsOrderedSelection(rosters: seq<Roster>, query: string)
    ensures var r := FilteredRosters(rosters, query);
      IsSubsequence(r, rosters) &&
      (forall i :: 0 <= i < |r| ==> MatchesIgnoringCase(r[i].event, query) || MatchesIgnoringCase(r[i].team, query)) &&
      (forall i :: 0 <= i < |rosters| && (MatchesIgnoringCase(rosters[i].event, query) || MatchesIgnoringCase(rosters[i].team, query))
         ==> rosters[i] in r)
    ensures query == "" ==> FilteredRosters(rosters, query) == rosters
  {
    var p := (r: Roster) => MatchesIgnoringCase(r.event, query) || MatchesIgnoringCase(r.team, query);
    FilterIsSubsequence(rosters, p);
    if query == "" {
      forall i | 0 <= i < |rosters| ensures p(rosters[i]) {
        EmptyQueryMatches(rosters[i].event);
      }
      FilterKeepsAll(rosters, p);
    }
  }

  // ---------------------------------------------------------------- page state

  const SeedRosters: seq<Roster> := [
    Roster(1, "Culto de Domingo", "12/11/2023", "18:00", "Louvor", ["Ana Souza", "Carlos Ferreira", "Beatriz Lima"], "Confirmado"),
    Roster(2, "Culto de Domingo", "12/11/2023", "18:00", "Recepção", ["Daniel Costa", "Eduardo Santos"], "Pendente"),
    Roster(3, "Culto de Ensino", "15/11/2023", "20:00", "Mídia", ["João Silva"], "Confirmado")
  ]

  class EscalasPage {
    var rosters: seq<Roster>
    /** The id of the roster whose edit form is open, if any. */
    var editing: Option<nat>

    constructor ()
      ensures rosters == SeedRosters && editing == None
    {
      rosters := SeedRosters;
      editing := None;
    }

    /** `handleAddRoster`: save the form as an edit of the open roster or as a new one. */
    method AddRoster(f: RosterForm, freshId: nat, localeDate: string -> string) returns (saved: bool)
      modifies this
      ensures saved == IsComplete(f)
      ensures rosters == RostersAfterSubmit(old(rosters), old(editing), f, freshId, localeDate)
      ensures editing == if saved then None else old(editing)
    {
      saved := IsComplete(f);
      if !saved {
        return;
      }
      match editing {
        case Some(id) =>
          rosters := UpdateWhere(rosters, (r: Roster) => r.id == id, (r: Roster) => Edited(r, f, localeDate));
        case None =>
          rosters := rosters + [NewRoster(freshId, f, localeDate)];
      }
      editing := None;
    }

    /** `handleEdit`: open the form on a roster. */
    method BeginEdit(r: Roster) returns (f: RosterForm)
      modifies this
      ensures editing == Some(r.id) && f == EditForm(r) && rosters == old(rosters)
    {
      editing := Some(r.id);
      f := EditForm(r);
    }

    /** The "new" button and the form's close buttons: no roster under edit and an empty form. */
    method CancelEdit() returns (f: RosterForm)
      modifies this
      ensures editing == None && f == EmptyForm && rosters == old(rosters)
    {
      editing := None;
      f := EmptyForm;
    }

    /** `handleDelete`: removes the roster once the user confirms. */
    method DeleteRoster(id: nat, confirmed: bool)
      modifies this
      ensures rosters == if confirmed then WithoutRoster(old(rosters), id) else old(rosters)
      ensures editing == old(editing)
    {
      if confirmed {
        rosters := WithoutRoster(rosters, id);
      }
    }
  }
}
