/** The sidebar of the application shell: which navigation entry is highlighted
    for the current location. */
module Layout {
  import opened Text

  datatype NavItem = NavItem(name: string, href: string)

  /** The sidebar entries, in display order. */
  const Navigation: seq<NavItem> := [
    NavItem("Dashboard Geral", "/"),
    NavItem("Membros", "/membros"),
    NavItem("Grupos Pequenos", "/grupos"),
    NavItem("Financeiro", "/financeiro"),
    NavItem("Eventos", "/eventos"),
    NavItem("Escalas", "/escalas"),
    NavItem("Ação Social", "/acao-social"),
    NavItem("EBD", "/ebd"),
    NavItem("Patrimônio", "/patrimonio"),
    NavItem("Relatórios", "/relatorios"),
    NavItem("Configurações", "/configuracoes")
  ]

  /** The highlight test: an exact match, or a prefix match for every entry but the root. */
  predicate IsActive(pathname: string, href: string)
  {
    pathname == href || (href != "/" && IsPrefix(href, pathname))
  }

  /** The entry whose href is the pathname is always highlighted. */
  lemma ExactPathIsActive(pathname: string, href: string)
    requires pathname == href
    ensures IsActive(pathname, href)
  {
  }

  /** The root entry is highlighted on the root path only. */
  lemma RootActiveOnlyAtRoot(pathname: string)
    ensures IsActive(pathname, "/") <==> pathname == "/"
  {
  }

  /** Every other entry is highlighted exactly on the paths that start with its href. */
  lemma OtherActiveIffPrefix(pathname: string, href: string)
    requires href != "/"
    ensures IsActive(pathname, href) <==> IsPrefix(href, pathname)
  {
    if pathname == href {
      assert pathname[..|href|] == pathname;
    }
  }

  /** A detail path highlights its section: `/membros/5` highlights "Membros" and not the root. */
  lemma DetailPathHighlightsSection()
    ensures Navigation[1].name == "Membros" && IsActive("/membros/5", Navigation[1].href)
    ensures !IsActive("/membros/5", Navigation[0].href)
  {
    assert "/membros/5"[..|"/membros"|] == "/membros";
  }

  /** No href of an entry other than the root starts another entry's href. */
  lemma NavigationPrefixFree(i: nat, j: nat)
    requires 0 < i < |Navigation| && j < |Navigation| && i != j
    ensures !IsPrefix(Navigation[i].href, Navigation[j].href)
  {
    var a, b := Navigation[i].href, Navigation[j].href;
    assert |a| >= 4;
    assert |b| < 4 || a[1] != b[1] || a[2] != b[2];
  }

  /** At most one entry is highlighted at any location. */
  lemma AtMostOneActive(pathname: string, i: nat, j: nat)
    requires i < |Navigation| && j < |Navigation|
    requires IsActive(pathname, Navigation[i].href) && IsActive(pathname, Navigation[j].href)
    ensures i == j
  {
    if i != j {
      var a, b := Navigation[i].href, Navigation[j].href;
      if i != 0 && j != 0 {
        if |a| <= |b| {
          assert b[..|a|] == pathname[..|a|];
          NavigationPrefixFree(i, j);
        } else {
          assert a[..|b|] == pathname[..|b|];
          NavigationPrefixFree(j, i);
        }
      }
    }
  }

  /** The congregations page is routed at `/congregacoes` but has no sidebar entry,
      so on that path nothing is highlighted. */
  lemma CongregationsPathHighlightsNothing(i: nat)
    requires i < |Navigation|
    ensures !IsActive("/congregacoes", Navigation[i].href)
  {
    var p, h := "/congregacoes", Navigation[i].href;
    assert i == 0 || (|h| >= 4 && (h[1] != p[1] || h[2] != p[2] || (|h| >= 5 && h[4] != p[4])));
  }
}
