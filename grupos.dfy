/** The small-groups page: the home cells with leader, address and meeting time, an
    add/edit form, delete, a search and the total of members in groups. */
module Grupos {
  import opened Collections
  import opened Text

  datatype Group = Group(id: nat, name: string, leader: string, members: nat, address: string,
                         meetingDay: string, time: string, status: string)

  datatype GroupForm = GroupForm(name: string, leader: string, address: string, meetingDay: string, time: string)

  const EmptyForm := GroupForm("", "", "", "Quinta-feira", "")

  predicate IsComplete(f: GroupForm)
  {
    f.name != "" && f.leader != ""
  }

  function Edited(g: Group, f: GroupForm): Group
  {
    g.(name := f.name, leader := f.leader, address := f.address, meetingDay := f.meetingDay, time := f.time)
  }

  function NewGroup(id: nat, f: GroupForm): Group
  {
    Group(id, f.name, f.leader, 0, f.address, f.meetingDay, f.time, "Ativo")
  }

  /** The groups after a submit: unchanged without a name or a leader; otherwise the group
      under edit is rewritten, or a new one is appended. */
  function GroupsAfterSubmit(groups: seq<Group>, editing: Option<nat>, f: GroupForm, freshId: nat): seq<Group>
  {
    if !IsComplete(f) then groups
    else match editing
      case Some(id) => UpdateWhere(groups, (g: Group) => g.id == id, (g: Group) => Edited(g, f))
      case None => groups + [NewGroup(freshId, f)]
  }

  function WithoutGroup(groups: seq<Group>, id: nat): seq<Group>
  {
    Filter(groups, (g: Group) => g.id != id)
  }

  /** The form an edit click fills in. */
  function EditForm(g: Group): (f: GroupForm)
    ensures f.name == g.name && f.leader == g.leader && f.address == g.address
    ensures f.meetingDay == g.meetingDay && f.time == g.time
  {
    GroupForm(g.name, g.leader, g.address, g.meetingDay, g.time)
  }

  /** The search: the name or the leader contains the query, ignoring case. */
  function FilteredGroups(groups: seq<Group>, query: string): seq<Group>
  {
    Filter(groups, (g: Group) => MatchesIgnoringCase(g.name, query) || MatchesIgnoringCase(g.leader, query))
  }

  function MembersOf(g: Group): int { g.members }

  /** The "Membros em Grupos" card. */
  function MemberTotal(groups: seq<Group>): int
  {
    Sum(groups, MembersOf)
  }

  // ---------------------------------------------------------------- lemmas

  /** A submit without a name or a leader leaves the groups unchanged. */
  lemma IncompleteFormKeepsGroups(groups: seq<Group>, editing: Option<nat>, f: GroupForm, freshId: nat)
    requires f.name == "" || f.leader == ""
    ensures GroupsAfterSubmit(groups, editing, f, freshId) == groups
  {
  }

  /** A create appends one active group with the fresh id and no members; the earlier
      groups stay. */
  lemma CreateAppends(groups: seq<Group>, f: GroupForm, freshId: nat)
    requires IsComplete(f)
    ensures var r := GroupsAfterSubmit(groups, None, f, freshId);
      |r| == |groups| + 1 && r[..|groups|] == groups &&
      r[|groups|].id == freshId && r[|groups|].members == 0 && r[|groups|].status == "Ativo" &&
      r[|groups|].name == f.name && r[|groups|].leader == f.leader
  {
  }

  /** An edit rewrites name, leader, address, meeting day and time of the group under edit
      and keeps its id, members and status; the other groups and the length stay. */
  lemma EditTouchesOnlyTarget(groups: seq<Group>, id: nat, f: GroupForm, freshId: nat)
    requires IsComplete(f)
    ensures var r := GroupsAfterSubmit(groups, Some(id), f, freshId);
      |r| == |groups| &&
      forall i :: 0 <= i < |groups| ==>
        r[i].id == groups[i].id && r[i].members == groups[i].members && r[i].status == groups[i].status &&
        (groups[i].id == id ==>
           r[i].name == f.name && r[i].leader == f.leader && r[i].address == f.address &&
           r[i].meetingDay == f.meetingDay && r[i].time == f.time) &&
        (groups[i].id != id ==> r[i] == groups[i])
  {
  }

  /** No create and no edit changes the member total: a new group starts empty and an
      edit does not touch the member count. */
  lemma SubmitKeepsMemberTotal(groups: seq<Group>, editing: Option<nat>, f: GroupForm, freshId: nat)
    ensures MemberTotal(GroupsAfterSubmit(groups, editing, f, freshId)) == MemberTotal(groups)
  {
    if IsComplete(f) {
      match editing {
        case Some(id) =>
          SumUpdateWhere(groups, (g: Group) => g.id == id, (g: Group) => Edited(g, f), MembersOf);
        case None =>
          SumAppend(groups, [NewGroup(freshId, f)], MembersOf);
      }
    }
  }

  /** Deleting removes exactly the groups with that id and keeps the others in order. */
  lemma DeleteRemovesOnlyId(groups: seq<Group>, id: nat)
    ensures var r := WithoutGroup(groups, id);
      IsSubsequence(r, groups) &&
      (forall i :: 0 <= i < |r| ==> r[i].id != id) &&
      (forall i :: 0 <= i < |groups| && groups[i].id != id ==> groups[i] in r)
  {
    FilterIsSubsequence(groups, (g: Group) => g.id != id);
  }

  /** The search returns, in list order, the groups whose name or leader holds the query;
      an empty query returns them all. */
  lemma SearchIsOrderedSelection(groups: seq<Group>, query: string)
    ensures var r := FilteredGroups(groups, query);
      IsSubsequence(r, groups) &&
      (forall i :: 0 <= i < |r| ==> MatchesIgnoringCase(r[i].name, query) || MatchesIgnoringCase(r[i].leader, query)) &&
      (forall i :: 0 <= i < |groups| && (MatchesIgnoringCase(groups[i].name, query) || MatchesIgnoringCase(groups[i].leader, query))
         ==> groups[i] in r)
    ensures query == "" ==> FilteredGroups(groups, query) == groups
  {
    var p := (g: Group) => MatchesIgnoringCase(g.name, query) || MatchesIgnoringCase(g.leader, query);
    FilterIsSubsequence(groups, p);
    if query == "" {
      forall i | 0 <= i < |groups| ensures p(groups[i]) {
        EmptyQueryMatches(groups[i].name);
      }
      FilterKeepsAll(groups, p);
    }
  }

  // ---------------------------------------------------------------- page state

  const SeedGroups: seq<Group> := [
    Group(1, "Célula Betel", "João Silva", 12, "Rua das Flores, 123", "Quinta-feira", "20:00", "Ativo"),
    Group(2, "Célula Peniel", "Maria Oliveira", 8, "Av. Principal, 456", "Sexta-feira", "19:30", "Ativo"),
    Group(3, "Célula Ebenézer", "Carlos Santos", 15, "Rua do Sol, 789", "Quarta-feira", "20:00", "Ativo")
  ]

  class GruposPage {
    var groups: seq<Group>
    /** The id of the group whose edit form is open, if any. */
    var editing: Option<nat>

    constructor ()
      ensures groups == SeedGroups && editing == None
    {
      groups := SeedGroups;
      editing := None;
    }

    /** `handleAddGroup`: save the form as an edit of the open group or as a new one. */
    method AddGroup(f: GroupForm, freshId: nat) returns (saved: bool)
      modifies this
      ensures saved == IsComplete(f)
      ensures groups == GroupsAfterSubmit(old(groups), old(editing), f, freshId)
      ensures editing == if saved then None else old(editing)
      ensures MemberTotal(groups) == MemberTotal(old(groups))
    {
      SubmitKeepsMemberTotal(groups, editing, f, freshId);
      saved := IsComplete(f);
      if !saved {
        return;
      }
      match editing {
        case Some(id) =>
          groups := UpdateWhere(groups, (g: Group) => g.id == id, (g: Group) => Edited(g, f));
        case None =>
          groups := groups + [NewGroup(freshId, f)];
      }
      editing := None;
    }

    /** `handleEdit`: open the form on a group. */
    method BeginEdit(g: Group) returns (f: GroupForm)
      modifies this
      ensures editing == Some(g.id) && f == EditForm(g) && groups == old(groups)
    {
      editing := Some(g.id);
      f := EditForm(g);
    }

    /** The "new" button and the form's close buttons: no group under edit and an empty form. */
    method CancelEdit() returns (f: GroupForm)
      modifies this
      ensures editing == None && f == EmptyForm && groups == old(groups)
    {
      editing := None;
      f := EmptyForm;
    }

    /** `handleDelete`: removes the group once the user confirms. */
    method DeleteGroup(id: nat, confirmed: bool)
      modifies this
      ensures groups == if confirmed then WithoutGroup(old(groups), id) else old(groups)
      ensures editing == old(editing)
    {
      if confirmed {
        groups := WithoutGroup(groups, id);
      }
    }
  }
}
