/** The members page: the membership list, newest first, with a search over name,
    e-mail and phone and a table paged five rows at a time. */
module Members {
  import opened Collections
  import opened Text

  datatype Member = Member(id: nat, name: string, email: string, phone: string, status: string,
                           role: string, joinDate: string, avatar: string)

  datatype MemberForm = MemberForm(name: string, email: string, phone: string, role: string, status: string)

  const EmptyForm := MemberForm("", "", "", "Membro", "Ativo")

  const DefaultPhone := "(00) 00000-0000"

  /** The placeholder picture of a new member, seeded by the first word of the name in
      lower case. */
  function AvatarUrl(name: string): string
  {
    "https://picsum.photos/seed/" + Lower(Split(name, ' ')[0]) + "/40/40"
  }

  predicate IsComplete(f: MemberForm)
  {
    f.name != "" && f.email != ""
  }

  /** A new member; `today` is the locale form of the current date. */
  function NewMember(id: nat, f: MemberForm, today: string): Member
  {
    Member(id, f.name, f.email, if f.phone == "" then DefaultPhone else f.phone, f.status, f.role,
           today, AvatarUrl(f.name))
  }

  /** The list after a submit: unchanged without a name or an e-mail, otherwise the new
      member goes in front. */
  function MembersAfterAdd(members: seq<Member>, f: MemberForm, freshId: nat, today: string): seq<Member>
  {
    if IsComplete(f) then [NewMember(freshId, f, today)] + members else members
  }

  function WithoutMember(members: seq<Member>, id: nat): seq<Member>
  {
    Filter(members, (m: Member) => m.id != id)
  }

  /** The search: name or e-mail hold the query ignoring case; the phone holds it as typed. */
  predicate MatchesMember(m: Member, query: string)
  {
    MatchesIgnoringCase(m.name, query) || MatchesIgnoringCase(m.email, query) || Contains(m.phone, query)
  }

  function FilteredMembers(members: seq<Member>, query: string): seq<Member>
  {
    Filter(members, (m: Member) => MatchesMember(m, query))
  }

  // ---------------------------------------------------------------- pagination

  const PageSize: nat := 5

  function Min(a: int, b: int): int { if a <= b then a else b }

  /** `Math.ceil(n / 5)`: the number of pages of `n` rows. */
  function TotalPages(n: nat): (r: nat)
  {
    (n + PageSize - 1) / PageSize
  }

  /** Index of the first row of a page, counting pages from 1. */
  function StartIndex(page: nat): nat
    requires page >= 1
  {
    (page - 1) * PageSize
  }

  /** `rows.slice(start, start + 5)`: both ends clamped to the list. */
  function PageOf<T>(rows: seq<T>, page: nat): (r: seq<T>)
    requires page >= 1
    ensures |r| <= PageSize
  {
    var lo := Min(StartIndex(page), |rows|);
    var hi := Min(StartIndex(page) + PageSize, |rows|);
    rows[lo..hi]
  }

  /** The pages 1 to `k`, one after another. */
  function FirstPages<T>(rows: seq<T>, k: nat): seq<T>
    decreases k
  {
    if k == 0 then [] else FirstPages(rows, k - 1) + PageOf(rows, k)
  }

  /** A page number the table can show: at least 1, and at most the page count when there
      are rows at all. */
  predicate InRange(page: nat, total: nat)
  {
    1 <= page && (page <= total || page == 1)
  }

  /** "Próxima": moves on only while there is a later page. */
  function NextPage(page: nat, total: nat): nat
  {
    if page < total then page + 1 else page
  }

  /** "Anterior": moves back only past page 1. */
  function PrevPage(page: nat): nat
  {
    if page > 1 then page - 1 else page
  }

  /** The first row number in "Mostrando x a y de n": 0 on an empty list. */
  function ShowingFrom(n: nat, page: nat): nat
    requires page >= 1
  {
    if n == 0 then 0 else StartIndex(page) + 1
  }

  /** The last row number in "Mostrando x a y de n". */
  function ShowingTo(n: nat, page: nat): int
    requires page >= 1
  {
    Min(StartIndex(page) + PageSize, n)
  }

  /** The page after a delete, pulled back to the last page when the list got shorter. */
  function ClampPage(page: nat, total: nat): (r: nat)
    ensures InRange(r, total)
    ensures InRange(page, total) ==> r == page
  {
    if total == 0 then 1 else if page > total then total else if page < 1 then 1 else page
  }

  function PageAfterDelete(members: seq<Member>, query: string, page: nat, id: nat): nat
  {
    ClampPage(page, TotalPages(|FilteredMembers(WithoutMember(members, id), query)|))
  }

  // ---------------------------------------------------------------- lemmas

  /** A submit without a name or an e-mail leaves the list unchanged. */
  lemma IncompleteFormKeepsMembers(members: seq<Member>, f: MemberForm, freshId: nat, today: string)
    requires f.name == "" || f.email == ""
    ensures MembersAfterAdd(members, f, freshId, today) == members
  {
  }

  /** An accepted submit puts the new member in front, with the default phone when none
      was typed and today's date; the earlier members follow unchanged. */
  lemma AddPrepends(members: seq<Member>, f: MemberForm, freshId: nat, today: string)
    requires IsComplete(f)
    ensures var r := MembersAfterAdd(members, f, freshId, today);
      |r| == |members| + 1 && r[1..] == members && r[0].id == freshId &&
      r[0].name == f.name && r[0].email == f.email && r[0].joinDate == today &&
      (f.phone == "" ==> r[0].phone == DefaultPhone) && (f.phone != "" ==> r[0].phone == f.phone)
  {
    assert ([NewMember(freshId, f, today)] + members)[1..] == members;
  }

  /** The picture is seeded by the first word of the name, in lower case. */
  lemma AvatarOfFirstWord(first: string, rest: string)
    requires ' ' !in first
    ensures AvatarUrl(first + " " + rest) == "https://picsum.photos/seed/" + Lower(first) + "/40/40"
  {
    assert first + " " + rest == first + (" " + rest);
    SplitAfterPlainPrefix(first, " " + rest, ' ');
    assert (" " + rest)[0] == ' ' && (" " + rest)[1..] == rest;
    assert Split(" " + rest, ' ')[0] == "";
    assert first + "" == first;
  }

  /** Deleting removes exactly the members with that id and keeps the others in order. */
  lemma DeleteRemovesOnlyId(members: seq<Member>, id: nat)
    ensures var r := WithoutMember(members, id);
      IsSubsequence(r, members) &&
      (forall i :: 0 <= i < |r| ==> r[i].id != id) &&
      (forall i :: 0 <= i < |members| && members[i].id != id ==> members[i] in r)
  {
    FilterIsSubsequence(members, (m: Member) => m.id != id);
  }

  /** The search returns, in list order, exactly the matching members; an empty query
      returns them all. */
  lemma SearchIsOrderedSelection(members: seq<Member>, query: string)
    ensures var r := FilteredMembers(members, query);
      IsSubsequence(r, members) &&
      (forall i :: 0 <= i < |r| ==> MatchesMember(r[i], query)) &&
      (forall i :: 0 <= i < |members| && MatchesMember(members[i], query) ==> members[i] in r)
    ensures query == "" ==> FilteredMembers(members, query) == members
  {
    var p := (m: Member) => MatchesMember(m, query);
    FilterIsSubsequence(members, p);
    if query == "" {
      forall i | 0 <= i < |members| ensures p(members[i]) {
        EmptyQueryMatches(members[i].name);
      }
      FilterKeepsAll(members, p);
    }
  }

  /** The page count is the rounded-up quotient: the last page is neither empty nor
      missing, and no rows means no pages. */
  lemma TotalPagesIsCeiling(n: nat)
    ensures n == 0 <==> TotalPages(n) == 0
    ensures n > 0 ==> (TotalPages(n) - 1) * PageSize < n <= TotalPages(n) * PageSize
  {
  }

  /** A page is the run of rows from its start index, at most five of them. */
  lemma PageIsRun<T>(rows: seq<T>, page: nat)
    requires page >= 1
    ensures PageOf(rows, page) == rows[Min(StartIndex(page), |rows|)..Min(StartIndex(page) + PageSize, |rows|)]
    ensures StartIndex(page) < |rows| ==> |PageOf(rows, page)| == Min(PageSize, |rows| - StartIndex(page))
  {
  }

  /** Pages 1 to `k` together are the rows up to the end of page `k`. */
  lemma {:induction false} FirstPagesArePrefix<T>(rows: seq<T>, k: nat)
    ensures FirstPages(rows, k) == rows[..Min(k * PageSize, |rows|)]
    decreases k
  {
    if k > 0 {
      FirstPagesArePrefix(rows, k - 1);
      var a, b := Min((k - 1) * PageSize, |rows|), Min(k * PageSize, |rows|);
      assert StartIndex(k) == (k - 1) * PageSize;
      assert rows[..a] + rows[a..b] == rows[..b];
    }
  }

  /** Reading every page in turn gives back the whole list, each row once and in order. */
  lemma PagesCoverList<T>(rows: seq<T>)
    ensures FirstPages(rows, TotalPages(|rows|)) == rows
  {
    FirstPagesArePrefix(rows, TotalPages(|rows|));
    TotalPagesIsCeiling(|rows|);
  }

  /** "Próxima" and "Anterior" keep a page in range in range. */
  lemma PagingStaysInRange(page: nat, total: nat)
    requires InRange(page, total)
    ensures InRange(NextPage(page, total), total) && InRange(PrevPage(page), total)
    ensures NextPage(page, total) == page + 1 <==> page < total
    ensures PrevPage(page) == page - 1 <==> page > 1
  {
  }

  /** On a page in range the caption counts exactly the rows shown: "0 a 0" on an empty
      list, otherwise from the page's first row number to its last. */
  lemma ShowingCountsPage<T>(rows: seq<T>, page: nat)
    requires InRange(page, TotalPages(|rows|))
    ensures |rows| == 0 ==> ShowingFrom(|rows|, page) == 0 && ShowingTo(|rows|, page) == 0
    ensures |rows| > 0 ==> ShowingFrom(|rows|, page) <= ShowingTo(|rows|, page) &&
                           ShowingTo(|rows|, page) - ShowingFrom(|rows|, page) + 1 == |PageOf(rows, page)|
  {
    TotalPagesIsCeiling(|rows|);
    if |rows| > 0 {
      assert StartIndex(page) < |rows| by {
        assert (page - 1) * PageSize <= (TotalPages(|rows|) - 1) * PageSize;
      }
    }
  }

  /** Deleting the one member with a given id removes exactly that row. */
  lemma DeleteUniqueId(members: seq<Member>, id: nat, k: nat)
    requires k < |members| && members[k].id == id
    requires forall i :: 0 <= i < |members| && i != k ==> members[i].id != id
    ensures WithoutMember(members, id) == members[..k] + members[k + 1..]
    ensures |WithoutMember(members, id)| == |members| - 1
  {
    FilterRemovesOne(members, (m: Member) => m.id != id, k);
  }

  /** A delete that keeps the page, as `MembersPage.DeleteMemberAsWritten` does, can leave
      the table past its last page: with six members, ids 1 to 6, on page 2, deleting the
      first leaves five rows on one page, an empty table and the caption "Mostrando 6 a 5 de 5". */
  lemma DeleteStrandsPage(six: seq<Member>)
    requires |six| == 6 && forall i :: 0 <= i < 6 ==> six[i].id == i + 1
    ensures var left := FilteredMembers(WithoutMember(six, 1), "");
      InRange(2, TotalPages(|FilteredMembers(six, "")|)) &&
      !InRange(2, TotalPages(|left|)) && PageOf(left, 2) == [] &&
      ShowingFrom(|left|, 2) == 6 && ShowingTo(|left|, 2) == 5
  {
    SearchIsOrderedSelection(six, "");
    assert |FilteredMembers(six, "")| == 6;
    DeleteUniqueId(six, 1, 0);
    var rest := WithoutMember(six, 1);
    assert |rest| == 5;
    SearchIsOrderedSelection(rest, "");
    var left := FilteredMembers(rest, "");
    assert |left| == 5;
    assert TotalPages(5) == 1 && TotalPages(6) == 2;
    assert StartIndex(2) == 5;
  }

  /** With the page pulled back after a delete, the table stays in range. */
  lemma DeleteKeepsPageInRange(members: seq<Member>, query: string, page: nat, id: nat)
    ensures InRange(PageAfterDelete(members, query, page, id),
                    TotalPages(|FilteredMembers(WithoutMember(members, id), query)|))
    ensures InRange(page, TotalPages(|FilteredMembers(WithoutMember(members, id), query)|)) ==>
              PageAfterDelete(members, query, page, id) == page
  {
  }

  /** An add never shrinks the filtered list, so a page in range stays in range. */
  lemma AddKeepsPageInRange(members: seq<Member>, f: MemberForm, freshId: nat, today: string,
                            query: string, page: nat)
    requires InRange(page, TotalPages(|FilteredMembers(members, query)|))
    ensures InRange(page, TotalPages(|FilteredMembers(MembersAfterAdd(members, f, freshId, today), query)|))
  {
    if IsComplete(f) {
      var p := (m: Member) => MatchesMember(m, query);
      FilterAppend([NewMember(freshId, f, today)], members, p);
      var n, n' := |FilteredMembers(members, query)|, |FilteredMembers(MembersAfterAdd(members, f, freshId, today), query)|;
      assert n <= n';
      TotalPagesIsCeiling(n);
      TotalPagesIsCeiling(n');
    }
  }

  // ---------------------------------------------------------------- page state

  const SeedMembers: seq<Member> := [
    Member(1, "Ana Souza", "ana@email.com", "(11) 98765-4321", "Ativo", "Membro", "12/05/2021", "https://picsum.photos/seed/ana/40/40"),
    Member(2, "Carlos Ferreira", "carlos@email.com", "(11) 91234-5678", "Inativo", "Visitante", "01/08/2023", "https://picsum.photos/seed/carlos/40/40"),
    Member(3, "Beatriz Lima", "beatriz@email.com", "(11) 99876-5432", "Ativo", "Líder", "15/02/2019", "https://picsum.photos/seed/beatriz/40/40"),
    Member(4, "Daniel Costa", "daniel@email.com", "(11) 98765-1234", "Ativo", "Membro", "20/11/2022", "https://picsum.photos/seed/daniel/40/40"),
    Member(5, "Eduardo Santos", "eduardo@email.com", "(11) 91234-9876", "Ativo", "Pastor", "05/01/2015", "https://picsum.photos/seed/eduardo/40/40")
  ]

  class MembersPage {
    var members: seq<Member>
    var query: string
    var page: nat

    /** The page shown is one the table can show. */
    predicate Valid()
      reads this
    {
      InRange(page, TotalPages(|FilteredMembers(members, query)|))
    }

    constructor ()
      ensures members == SeedMembers && query == "" && page == 1
      ensures Valid()
    {
      members := SeedMembers;
      query := "";
      page := 1;
    }

    /** The rows on screen. */
    function Shown(): (r: seq<Member>)
      reads this
      requires page >= 1
      ensures |r| <= PageSize
    {
      PageOf(FilteredMembers(members, query), page)
    }

    /** `handleAddMember`. */
    method AddMember(f: MemberForm, freshId: nat, today: string) returns (added: bool)
      modifies this
      ensures added == IsComplete(f)
      ensures members == MembersAfterAdd(old(members), f, freshId, today)
      ensures query == old(query) && page == old(page)
      ensures old(Valid()) ==> Valid()
    {
      if Valid() {
        AddKeepsPageInRange(members, f, freshId, today, query, page);
      }
      added := IsComplete(f);
      if added {
        members := [NewMember(freshId, f, today)] + members;
      }
    }

    /** `handleDeleteMember` as written: the member goes and the page number stays, whether
        or not the shorter list still has that page (see `DeleteStrandsPage`). */
    method DeleteMemberAsWritten(id: nat, confirmed: bool)
      modifies this
      ensures members == if confirmed then WithoutMember(old(members), id) else old(members)
      ensures query == old(query) && page == old(page)
    {
      if confirmed {
        members := WithoutMember(members, id);
      }
    }

    /** `handleDeleteMember`, with the page pulled back into range. */
    method DeleteMember(id: nat, confirmed: bool)
      modifies this
      ensures members == if confirmed then WithoutMember(old(members), id) else old(members)
      ensures query == old(query)
      ensures page == if confirmed then PageAfterDelete(old(members), old(query), old(page), id) else old(page)
      ensures old(Valid()) ==> Valid()
    {
      if confirmed {
        DeleteKeepsPageInRange(members, query, page, id);
        page := PageAfterDelete(members, query, page, id);
        members := WithoutMember(members, id);
      }
    }

    /** Typing in the search box: the table goes back to page 1. */
    method SetQuery(q: string)
      modifies this
      ensures query == q && page == 1 && members == old(members)
      ensures Valid()
    {
      query := q;
      page := 1;
    }

    /** `handleNextPage`. */
    method Next()
      modifies this
      ensures page == NextPage(old(page), TotalPages(|FilteredMembers(members, query)|))
      ensures members == old(members) && query == old(query)
      ensures old(Valid()) ==> Valid()
    {
      var total := TotalPages(|FilteredMembers(members, query)|);
      if page < total {
        page := page + 1;
      }
    }

    /** `handlePrevPage`. */
    method Prev()
      modifies this
      ensures page == PrevPage(old(page))
      ensures members == old(members) && query == old(query)
      ensures old(Valid()) ==> Valid()
    {
      if page > 1 {
        page := page - 1;
      }
    }
  }
}
