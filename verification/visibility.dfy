/** Which equipment rows a session sees: the dashboard rule, the rule of the
    entry and exit pages, and the low-stock selection. All three are order
    preserving filters over the name-ordered listing. */
module Visibility {
  import opened Store

  /** The elements of `s` that satisfy `keep`, in their original order. */
  function Filter<T>(s: seq<T>, keep: T -> bool): (r: seq<T>)
    ensures |r| <= |s|
    ensures forall i :: 0 <= i < |r| ==> r[i] in s && keep(r[i])
    ensures forall i :: 0 <= i < |s| && keep(s[i]) ==> s[i] in r
  {
    if |s| == 0 then []
    else (if keep(s[0]) then [s[0]] else []) + Filter(s[1..], keep)
  }

  /** `s` is ordered by `before`: every element comes `before` each later one. */
  ghost predicate OrderedBy<T>(s: seq<T>, before: (T, T) -> bool)
  {
    forall i, j :: 0 <= i < j < |s| ==> before(s[i], s[j])
  }

  /** Filtering keeps whatever order the input had. */
  lemma {:induction false} FilterKeepsOrder<T>(s: seq<T>, keep: T -> bool, before: (T, T) -> bool)
    requires OrderedBy(s, before)
    ensures OrderedBy(Filter(s, keep), before)
  {
    if |s| > 0 {
      FilterKeepsOrder(s[1..], keep, before);
      var tail := Filter(s[1..], keep);
      forall j | 0 <= j < |tail|
        ensures before(s[0], tail[j])
      {
        assert tail[j] in s[1..];
      }
    }
  }

  /** Filtering by a condition every element meets changes nothing. */
  lemma {:induction false} FilterAll<T>(s: seq<T>, keep: T -> bool)
    requires forall i :: 0 <= i < |s| ==> keep(s[i])
    ensures Filter(s, keep) == s
  {
    if |s| > 0 {
      FilterAll(s[1..], keep);
    }
  }

  /** Filtering by two conditions that agree everywhere gives the same result. */
  lemma {:induction false} FilterPointwise<T>(s: seq<T>, keep: T -> bool, same: T -> bool)
    requires forall x :: keep(x) == same(x)
    ensures Filter(s, keep) == Filter(s, same)
  {
    if |s| > 0 {
      FilterPointwise(s[1..], keep, same);
    }
  }

  /** Filtering distributes over concatenation. */
  lemma {:induction false} FilterConcat<T>(a: seq<T>, b: seq<T>, keep: T -> bool)
    ensures Filter(a + b, keep) == Filter(a, keep) + Filter(b, keep)
  {
    if |a| > 0 {
      assert (a + b)[1..] == a[1..] + b;
      FilterConcat(a[1..], b, keep);
    } else {
      assert a + b == b;
    }
  }

  /** Filtering twice keeps the elements that pass both conditions. */
  lemma {:induction false} FilterTwice<T>(s: seq<T>, first: T -> bool, second: T -> bool, both: T -> bool)
    requires forall x :: both(x) == (first(x) && second(x))
    ensures Filter(Filter(s, first), second) == Filter(s, both)
  {
    if |s| > 0 {
      var head := if first(s[0]) then [s[0]] else [];
      FilterConcat(head, Filter(s[1..], first), second);
      FilterTwice(s[1..], first, second, both);
    }
  }

  /** Rows ordered by name, under whatever collation `before` the store sorts by. */
  ghost predicate SortedByName(rows: seq<Equipment>, before: (string, string) -> bool)
  {
    forall i, j :: 0 <= i < j < |rows| ==> before(rows[i].name, rows[j].name)
  }

  /** Whether the dashboard shows a row of category `tipo` to `group`. */
  predicate DashboardShows(group: string, showGeneral: bool, tipo: string)
  {
    if group == GroupUsuario then tipo == TipoGeral
    else if group == GroupTI then tipo == TipoTI || (showGeneral && tipo == TipoGeral)
    else true
  }

  /** The dashboard rule: `Usuario` sees the `Geral` rows; `TI` sees the `TI`
      rows, or the `TI` and `Geral` rows when "show general items" is ticked;
      any other group is not filtered at all. */
  function DashboardRows(group: string, showGeneral: bool, rows: seq<Equipment>): (r: seq<Equipment>)
    ensures forall e :: e in r <==> e in rows && DashboardShows(group, showGeneral, e.tipo)
  {
    Filter(rows, (e: Equipment) => DashboardShows(group, showGeneral, e.tipo))
  }

  /** Whether the entry and exit pages offer a row of category `tipo` to `group`. */
  predicate PageShows(group: string, tipo: string)
  {
    group == GroupUsuario ==> tipo == TipoGeral
  }

  /** The rule of the entry and exit pages: `Usuario` is restricted to the
      `Geral` rows and every other group, `TI` included, sees all rows. */
  function PageRows(group: string, rows: seq<Equipment>): (r: seq<Equipment>)
    ensures forall e :: e in r <==> e in rows && PageShows(group, e.tipo)
  {
    Filter(rows, (e: Equipment) => PageShows(group, e.tipo))
  }

  /** The rows whose current quantity is below their minimum, in order. */
  function LowStock(rows: seq<Equipment>): (r: seq<Equipment>)
    ensures forall e :: e in r <==> e in rows && e.current < e.minimum
  {
    Filter(rows, (e: Equipment) => e.current < e.minimum)
  }

  /** Filtering rows keeps their name order. */
  lemma {:induction false} FilterKeepsNameOrder(rows: seq<Equipment>, keep: Equipment -> bool, before: (string, string) -> bool)
    requires SortedByName(rows, before)
    ensures SortedByName(Filter(rows, keep), before)
  {
    var byName := (a: Equipment, b: Equipment) => before(a.name, b.name);
    assert OrderedBy(rows, byName);
    FilterKeepsOrder(rows, keep, byName);
    assert OrderedBy(Filter(rows, keep), byName);
  }

  /** The dashboard rule keeps the name order of the listing. */
  lemma {:induction false} DashboardKeepsNameOrder(group: string, showGeneral: bool, rows: seq<Equipment>, before: (string, string) -> bool)
    requires SortedByName(rows, before)
    ensures SortedByName(DashboardRows(group, showGeneral, rows), before)
  {
    FilterKeepsNameOrder(rows, (e: Equipment) => DashboardShows(group, showGeneral, e.tipo), before);
  }

  /** The entry/exit-page rule keeps the name order of the listing. */
  lemma {:induction false} PageKeepsNameOrder(group: string, rows: seq<Equipment>, before: (string, string) -> bool)
    requires SortedByName(rows, before)
    ensures SortedByName(PageRows(group, rows), before)
  {
    FilterKeepsNameOrder(rows, (e: Equipment) => PageShows(group, e.tipo), before);
  }

  /** The low-stock warnings come in the order of the rows they are taken from. */
  lemma {:induction false} LowStockKeepsNameOrder(rows: seq<Equipment>, before: (string, string) -> bool)
    requires SortedByName(rows, before)
    ensures SortedByName(LowStock(rows), before)
  {
    FilterKeepsNameOrder(rows, (e: Equipment) => e.current < e.minimum, before);
  }

  /** The dashboard rule group by group: `Usuario` sees exactly the `Geral`
      rows, `TI` exactly the `TI` rows or, with the toggle, exactly the `TI`
      and `Geral` rows, and any other group the unfiltered listing. */
  lemma DashboardRule(group: string, showGeneral: bool, rows: seq<Equipment>)
    ensures group == GroupUsuario ==>
      forall e :: e in DashboardRows(group, showGeneral, rows) <==> e in rows && e.tipo == TipoGeral
    ensures group == GroupTI && !showGeneral ==>
      forall e :: e in DashboardRows(group, showGeneral, rows) <==> e in rows && e.tipo == TipoTI
    ensures group == GroupTI && showGeneral ==>
      forall e :: e in DashboardRows(group, showGeneral, rows) <==> e in rows && (e.tipo == TipoTI || e.tipo == TipoGeral)
    ensures group != GroupUsuario && group != GroupTI ==> DashboardRows(group, showGeneral, rows) == rows
  {
    if group != GroupUsuario && group != GroupTI {
      FilterAll(rows, (e: Equipment) => DashboardShows(group, showGeneral, e.tipo));
    }
  }

  /** The page rule group by group: `Usuario` is offered exactly the `Geral`
      rows and every other group, `TI` included, the unfiltered listing. */
  lemma PageRule(group: string, rows: seq<Equipment>)
    ensures group == GroupUsuario ==>
      forall e :: e in PageRows(group, rows) <==> e in rows && e.tipo == TipoGeral
    ensures group != GroupUsuario ==> PageRows(group, rows) == rows
  {
    if group != GroupUsuario {
      FilterAll(rows, (e: Equipment) => PageShows(group, e.tipo));
    }
  }

  /** The `Usuario` group sees the same rows on every page. */
  lemma UsuarioRuleEverywhere(showGeneral: bool, rows: seq<Equipment>)
    ensures DashboardRows(GroupUsuario, showGeneral, rows) == PageRows(GroupUsuario, rows)
  {
    FilterPointwise(rows, (e: Equipment) => DashboardShows(GroupUsuario, showGeneral, e.tipo),
                    (e: Equipment) => PageShows(GroupUsuario, e.tipo));
  }

  /** The rules differ for `TI`: without the toggle the dashboard shows only the
      `TI` rows, while the entry and exit pages show every row, so each `Geral`
      row is offered on the pages but missing from the dashboard. */
  lemma TIRulesDiffer(rows: seq<Equipment>)
    ensures PageRows(GroupTI, rows) == rows
    ensures forall e :: e in rows && e.tipo == TipoGeral ==>
      e in PageRows(GroupTI, rows) && e !in DashboardRows(GroupTI, false, rows)
  {
    PageRule(GroupTI, rows);
  }

  /** When every row is `Geral` or `TI`, ticking the toggle shows `TI` the whole
      listing. */
  lemma TIWithToggleSeesAll(rows: seq<Equipment>)
    requires forall i :: 0 <= i < |rows| ==> rows[i].tipo == TipoGeral || rows[i].tipo == TipoTI
    ensures DashboardRows(GroupTI, true, rows) == rows
  {
    FilterAll(rows, (e: Equipment) => DashboardShows(GroupTI, true, e.tipo));
  }

  /** The low-stock warnings a `Usuario` gets are exactly the `Geral` rows of
      the listing that are below their minimum, in listing order. */
  lemma UsuarioLowStock(showGeneral: bool, rows: seq<Equipment>)
    ensures LowStock(DashboardRows(GroupUsuario, showGeneral, rows))
         == Filter(rows, (e: Equipment) => e.tipo == TipoGeral && e.current < e.minimum)
  {
    FilterTwice(rows, (e: Equipment) => DashboardShows(GroupUsuario, showGeneral, e.tipo),
                (e: Equipment) => e.current < e.minimum,
                (e: Equipment) => e.tipo == TipoGeral && e.current < e.minimum);
  }
}
