/** The poetry list page: the filter state {search, dynasty, author, page}, read from the route
    and the address bar on mount, changed by the search box, the two selects, the pagination and
    the reset button, and mirrored after every change into the address bar and into the query
    sent to the data store. */
module PoetryList {
  import opened Common
  import opened JsBuiltins

  /** The label of the "all" option of the dynasty and author selects. */
  const AllLabel := "全部"

  /** Rows per page asked of the data store. */
  const PageSize := 12

  datatype Filters = Filters(search: string, dynasty: string, author: string, page: int)

  /** The two selects whose change goes through the same handler. */
  datatype FilterKey = DynastyKey | AuthorKey

  // ---------------------------------------------------------------------------------------------
  // URLSearchParams

  /** One name=value pair of a URLSearchParams object; a list of them keeps insertion order. */
  datatype Param = Param(name: string, value: string)

  /** `params.get(name)`: the first value stored under `name`, or null. */
  function Get(ps: seq<Param>, name: string): Option<string> {
    if ps == [] then None
    else if ps[0].name == name then Some(ps[0].value)
    else Get(ps[1..], name)
  }

  predicate Lacks(ps: seq<Param>, name: string) {
    forall i :: 0 <= i < |ps| ==> ps[i].name != name
  }

  /** Every pair stored under `name` removed. */
  function DropName(ps: seq<Param>, name: string): (r: seq<Param>)
    ensures Lacks(r, name)
    ensures forall other :: other != name ==> Get(r, other) == Get(ps, other)
  {
    if ps == [] then []
    else if ps[0].name == name then DropName(ps[1..], name)
    else [ps[0]] + DropName(ps[1..], name)
  }

  /** `params.set(name, value)`: the first pair under `name` takes the value and later ones go;
      with no such pair the new one is appended. Every other name reads as before. */
  function SetParam(ps: seq<Param>, name: string, value: string): (r: seq<Param>)
    ensures Get(r, name) == Some(value)
    ensures forall other :: other != name ==> Get(r, other) == Get(ps, other)
  {
    if ps == [] then [Param(name, value)]
    else if ps[0].name == name then [Param(name, value)] + DropName(ps[1..], name)
    else [ps[0]] + SetParam(ps[1..], name, value)
  }

  /** On a fresh name `set` is `append`. */
  lemma {:induction false} SetParamOnAbsentName(ps: seq<Param>, name: string, value: string)
    requires Lacks(ps, name)
    ensures SetParam(ps, name, value) == ps + [Param(name, value)]
  {
    if ps != [] {
      SetParamOnAbsentName(ps[1..], name, value);
      assert ps == [ps[0]] + ps[1..];
    }
  }

  /** The first of two lookups that finds something. */
  function FirstFound(a: Option<string>, b: Option<string>): Option<string> {
    if a.Some? then a else b
  }

  /** Looking a name up in two lists one after the other finds the first list's pair first. */
  lemma {:induction false} GetOfConcat(a: seq<Param>, b: seq<Param>, name: string)
    ensures Get(a + b, name) == FirstFound(Get(a, name), Get(b, name))
  {
    if a == [] {
      assert a + b == b;
    } else {
      assert (a + b)[0] == a[0] && (a + b)[1..] == a[1..] + b;
      GetOfConcat(a[1..], b, name);
    }
  }

  lemma GetOfFour(a: seq<Param>, b: seq<Param>, c: seq<Param>, d: seq<Param>, name: string)
    ensures Get(a + b + c + d, name)
         == FirstFound(Get(a, name), FirstFound(Get(b, name), FirstFound(Get(c, name), Get(d, name))))
  {
    GetOfConcat(a + b + c, d, name);
    GetOfConcat(a + b, c, name);
    GetOfConcat(a, b, name);
  }

  // ---------------------------------------------------------------------------------------------
  // Derived address bar and remote query

  /** A dynasty or author value narrows the list: it is neither empty nor the "all" label. */
  predicate Selects(v: string) {
    v != "" && v != AllLabel
  }

  /** The pair for `name` when `present`, nothing otherwise. */
  function Optional(present: bool, name: string, value: string): seq<Param> {
    if present then [Param(name, value)] else []
  }

  /** The canonical query string of a filter state: defaults are left out. */
  function UrlParams(f: Filters): (ps: seq<Param>)
    ensures forall i :: 0 <= i < |ps| ==> ps[i].name in {"search", "dynasty", "author", "page"}
    ensures forall i, j :: 0 <= i < j < |ps| ==> ps[i].name != ps[j].name
  {
    Optional(f.search != "", "search", f.search)
    + Optional(Selects(f.dynasty), "dynasty", f.dynasty)
    + Optional(Selects(f.author), "author", f.author)
    + Optional(f.page != 1, "page", IntToString(f.page))
  }

  /** The query sent to the data store: search as the full-text `q`, the two equality filters,
      the 1-based page and the fixed page size. */
  function RemoteQuery(f: Filters): (q: seq<Param>)
    ensures 2 <= |q| <= 5
    ensures q[|q| - 2] == Param("_page", IntToString(f.page)) && q[|q| - 1] == Param("_limit", IntToString(PageSize))
    ensures forall i :: 0 <= i < |q| - 2 ==> q[i].name in {"q", "dynasty", "author"}
  {
    Optional(f.search != "", "q", f.search)
    + Optional(Selects(f.dynasty), "dynasty", f.dynasty)
    + Optional(Selects(f.author), "author", f.author)
    + [Param("_page", IntToString(f.page)), Param("_limit", IntToString(PageSize))]
  }

  /** The effect's address-bar update: a fresh URLSearchParams filled by conditional `set`s. */
  method DeriveUrlParams(f: Filters) returns (ps: seq<Param>)
    ensures ps == UrlParams(f)
  {
    var page := IntToString(f.page);
    ghost var a := Optional(f.search != "", "search", f.search);
    ghost var b := Optional(Selects(f.dynasty), "dynasty", f.dynasty);
    ghost var c := Optional(Selects(f.author), "author", f.author);
    ps := [];
    if f.search != "" {
      ps := SetParam(ps, "search", f.search);
    }
    assert ps == a;
    if f.dynasty != "" && f.dynasty != AllLabel {
      SetParamOnAbsentName(ps, "dynasty", f.dynasty);
      ps := SetParam(ps, "dynasty", f.dynasty);
    }
    assert ps == a + b;
    if f.author != "" && f.author != AllLabel {
      assert Lacks(a + b, "author");
      SetParamOnAbsentName(ps, "author", f.author);
      ps := SetParam(ps, "author", f.author);
    }
    assert ps == a + b + c;
    if f.page != 1 {
      assert Lacks(a + b + c, "page");
      SetParamOnAbsentName(ps, "page", page);
      ps := SetParam(ps, "page", page);
    }
  }

  /** The fetch's query: a fresh URLSearchParams filled by conditional `append`s. */
  method DeriveRemoteQuery(f: Filters) returns (q: seq<Param>)
    ensures q == RemoteQuery(f)
  {
    q := [];
    if f.search != "" {
      q := q + [Param("q", f.search)];
    }
    if f.dynasty != "" && f.dynasty != AllLabel {
      q := q + [Param("dynasty", f.dynasty)];
    }
    if f.author != "" && f.author != AllLabel {
      q := q + [Param("author", f.author)];
    }
    q := q + [Param("_page", IntToString(f.page))];
    q := q + [Param("_limit", IntToString(PageSize))];
  }

  /** The address bar carries exactly the non-default fields, each with its value. */
  lemma UrlParamsOmitDefaults(f: Filters, name: string)
    ensures Get(UrlParams(f), "search") == if f.search != "" then Some(f.search) else None
    ensures Get(UrlParams(f), "dynasty") == if Selects(f.dynasty) then Some(f.dynasty) else None
    ensures Get(UrlParams(f), "author") == if Selects(f.author) then Some(f.author) else None
    ensures Get(UrlParams(f), "page") == if f.page != 1 then Some(IntToString(f.page)) else None
    ensures name !in {"search", "dynasty", "author", "page"} ==> Get(UrlParams(f), name) == None
  {
    var a := Optional(f.search != "", "search", f.search);
    var b := Optional(Selects(f.dynasty), "dynasty", f.dynasty);
    var c := Optional(Selects(f.author), "author", f.author);
    var d := Optional(f.page != 1, "page", IntToString(f.page));
    GetOfFour(a, b, c, d, "search");
    GetOfFour(a, b, c, d, "dynasty");
    GetOfFour(a, b, c, d, "author");
    GetOfFour(a, b, c, d, "page");
    GetOfFour(a, b, c, d, name);
  }

  /** The remote query always names the page and the page size, carries the search text only as
      `q`, and names a dynasty or an author only when that select narrows the list. */
  lemma RemoteQueryFields(f: Filters, name: string)
    ensures Get(RemoteQuery(f), "_page") == Some(IntToString(f.page))
    ensures Get(RemoteQuery(f), "_limit") == Some("12")
    ensures Get(RemoteQuery(f), "q") == if f.search != "" then Some(f.search) else None
    ensures Get(RemoteQuery(f), "search") == None
    ensures Get(RemoteQuery(f), "dynasty") == if Selects(f.dynasty) then Some(f.dynasty) else None
    ensures Get(RemoteQuery(f), "author") == if Selects(f.author) then Some(f.author) else None
    ensures name !in {"q", "dynasty", "author", "_page", "_limit"} ==> Get(RemoteQuery(f), name) == None
  {
    var a := Optional(f.search != "", "q", f.search);
    var b := Optional(Selects(f.dynasty), "dynasty", f.dynasty);
    var c := Optional(Selects(f.author), "author", f.author);
    var d := [Param("_page", IntToString(f.page)), Param("_limit", IntToString(PageSize))];
    assert IntToString(PageSize) == "12";
    assert d[1..] == [d[1]] && [d[1]][1..] == [];
    GetOfFour(a, b, c, d, "_page");
    GetOfFour(a, b, c, d, "_limit");
    GetOfFour(a, b, c, d, "q");
    GetOfFour(a, b, c, d, "search");
    GetOfFour(a, b, c, d, "dynasty");
    GetOfFour(a, b, c, d, "author");
    GetOfFour(a, b, c, d, name);
  }

  /** The example filters {search: "月", dynasty: "唐代", page: 1}: the query holds the free-text
      term, the dynasty, page 1 and the page size, and no author. */
  lemma RemoteQueryExample()
    ensures RemoteQuery(Filters("月", "唐代", "", 1))
         == [Param("q", "月"), Param("dynasty", "唐代"), Param("_page", "1"), Param("_limit", "12")]
  {
    assert IntToString(PageSize) == "12";
  }

  // ---------------------------------------------------------------------------------------------
  // Initial state

  /** `parseInt(raw) || 1` as written: NaN and 0 fall back to 1 and every other number is kept,
      a negative one included. */
  function InitialPageAsWritten(raw: Option<string>): (page: int)
    ensures page != 0
    ensures page == 1 || (raw.Some? && ParseInt(raw.value) == Some(page))
    ensures raw.Some? && ParseInt(raw.value).Some? && ParseInt(raw.value).value != 0 ==>
              page == ParseInt(raw.value).value
  {
    var n := if raw.Some? then ParseInt(raw.value) else None;
    if n == None || n == Some(0) then 1 else n.value
  }

  /** The first page shown: the number in the address bar when it is positive, otherwise 1. It
      differs from the code as written only where that gives a page below 1. */
  function InitialPage(raw: Option<string>): (page: int)
    ensures page >= 1
    ensures InitialPageAsWritten(raw) >= 1 ==> page == InitialPageAsWritten(raw)
    ensures InitialPageAsWritten(raw) < 1 ==> page == 1
  {
    var n := if raw.Some? then ParseInt(raw.value) else None;
    if n == None || n.value < 1 then 1 else n.value
  }

  /** Every negative page in the address bar (`?page=-2`, say) is kept as that page by the code
      as written; the corrected reading gives 1. */
  lemma NegativePageSlipsThrough(n: int)
    requires n < 0
    ensures InitialPageAsWritten(Some(IntToString(n))) == n
    ensures InitialPage(Some(IntToString(n))) == 1
  {
    ParseIntOfIntToString(n);
    NegativeReading(IntToString(n), n);
  }

  lemma NegativeReading(raw: string, n: int)
    requires n < 0 && ParseInt(raw) == Some(n)
    ensures InitialPageAsWritten(Some(raw)) == n && InitialPage(Some(raw)) == 1
  {
  }

  /** A missing, non-numeric or zero page parameter starts the list on page 1. */
  lemma MissingPageIsOne(raw: Option<string>)
    requires raw.None? || ParseInt(raw.value) == None || ParseInt(raw.value) == Some(0)
    ensures InitialPage(raw) == 1 && InitialPageAsWritten(raw) == 1
  {
  }

  /** The state on mount: search, author and page from the address bar, and the dynasty from the
      route when it has one, else from the address bar; absent values are empty. */
  function InitialFilters(routeDynasty: Option<string>, query: seq<Param>): (f: Filters)
    ensures Truthy(routeDynasty) ==> f.dynasty == routeDynasty.value
    ensures !Truthy(routeDynasty) ==> f.dynasty == OrElse(Get(query, "dynasty"), "")
    ensures f.search == OrElse(Get(query, "search"), "")
    ensures f.author == OrElse(Get(query, "author"), "")
    ensures f.page == InitialPage(Get(query, "page")) && f.page >= 1
  {
    Filters(
      OrElse(Get(query, "search"), ""),
      OrElse(routeDynasty, OrElse(Get(query, "dynasty"), "")),
      OrElse(Get(query, "author"), ""),
      InitialPage(Get(query, "page")))
  }

  /** The address bar holds the whole state: reloading the page on the canonical query string
      of a state gives that state back, provided no select holds the "all" label itself (the
      selects never put it there) and a route dynasty agrees with the state's. */
  lemma UrlRoundTrip(routeDynasty: Option<string>, f: Filters)
    requires f.dynasty != AllLabel && f.author != AllLabel && f.page >= 1
    requires Truthy(routeDynasty) ==> f.dynasty == routeDynasty.value
    ensures InitialFilters(routeDynasty, UrlParams(f)) == f
  {
    UrlParamsOmitDefaults(f, "");
    if f.page != 1 {
      ParseIntOfIntToString(f.page);
    }
  }

  // ---------------------------------------------------------------------------------------------
  // Transitions

  /** The search box: the new text, back to page 1. */
  function SearchFor(f: Filters, value: string): (g: Filters)
    ensures g.search == value && g.page == 1
    ensures g.dynasty == f.dynasty && g.author == f.author
  {
    f.(search := value, page := 1)
  }

  /** The dynasty and author selects: the chosen value, back to page 1; a dynasty fixed by the
      route cannot be changed, and then nothing is updated at all (`None`). */
  function ChangeFilter(f: Filters, routeDynasty: Option<string>, key: FilterKey, value: string): (r: Option<Filters>)
    ensures r.None? <==> Truthy(routeDynasty) && key == DynastyKey
    ensures r.Some? ==> r.value.page == 1 && r.value.search == f.search
    ensures r.Some? ==> r.value.dynasty == (if key == DynastyKey then value else f.dynasty)
    ensures r.Some? ==> r.value.author == (if key == AuthorKey then value else f.author)
  {
    if Truthy(routeDynasty) && key == DynastyKey then None
    else match key
      case DynastyKey => Some(f.(dynasty := value, page := 1))
      case AuthorKey => Some(f.(author := value, page := 1))
  }

  /** The pagination: only the page changes. */
  function ChangePage(f: Filters, page: int): (g: Filters)
    ensures g.page == page
    ensures g.search == f.search && g.dynasty == f.dynasty && g.author == f.author
  {
    f.(page := page)
  }

  /** The reset button. */
  function ResetFilters(): (g: Filters)
    ensures UrlParams(g) == [] && g.page == 1
    ensures !Selects(g.dynasty) && !Selects(g.author) && g.search == ""
  {
    Filters("", "", "", 1)
  }

  /** The value a select option stands for: the "all" option stands for no filter. */
  function OptionValue(option: string): (v: string)
    ensures v != AllLabel
    ensures option != AllLabel ==> v == option
    ensures Selects(v) <==> Selects(option)
  {
    if option == AllLabel then "" else option
  }

  /** Searching sets the text and returns to page 1, so the address bar loses its page; the
      dynasty and author are untouched, in the state and in the address bar. */
  lemma SearchResetsPage(f: Filters, value: string)
    ensures SearchFor(f, value).search == value && SearchFor(f, value).page == 1
    ensures SearchFor(f, value).dynasty == f.dynasty && SearchFor(f, value).author == f.author
    ensures Get(UrlParams(SearchFor(f, value)), "page") == None
    ensures Get(UrlParams(SearchFor(f, value)), "search") == if value != "" then Some(value) else None
    ensures Get(UrlParams(SearchFor(f, value)), "dynasty") == Get(UrlParams(f), "dynasty")
    ensures Get(UrlParams(SearchFor(f, value)), "author") == Get(UrlParams(f), "author")
  {
    UrlParamsOmitDefaults(f, "");
    UrlParamsOmitDefaults(SearchFor(f, value), "");
  }

  /** A select change sets only its own field and returns to page 1, unless it is the dynasty
      select while the route fixes the dynasty: then nothing changes. */
  lemma FilterChangeSetsOneField(f: Filters, routeDynasty: Option<string>, key: FilterKey, value: string)
    ensures ChangeFilter(f, routeDynasty, key, value).None? <==> Truthy(routeDynasty) && key == DynastyKey
    ensures ChangeFilter(f, routeDynasty, key, value).Some? ==>
      var g := ChangeFilter(f, routeDynasty, key, value).value;
      && g.page == 1 && g.search == f.search
      && g.dynasty == (if key == DynastyKey then value else f.dynasty)
      && g.author == (if key == AuthorKey then value else f.author)
      && Get(UrlParams(g), "page") == None
  {
    if ChangeFilter(f, routeDynasty, key, value).Some? {
      UrlParamsOmitDefaults(ChangeFilter(f, routeDynasty, key, value).value, "");
    }
  }

  /** Choosing the "all" option removes that filter from the address bar and from the query. */
  lemma AllOptionClearsFilter(f: Filters, key: FilterKey)
    ensures ChangeFilter(f, None, key, OptionValue(AllLabel)).Some?
    ensures var g := ChangeFilter(f, None, key, OptionValue(AllLabel)).value;
      var name := if key == DynastyKey then "dynasty" else "author";
      Get(UrlParams(g), name) == None && Get(RemoteQuery(g), name) == None
  {
    var g := ChangeFilter(f, None, key, OptionValue(AllLabel)).value;
    UrlParamsOmitDefaults(g, "");
    RemoteQueryFields(g, "");
  }

  /** Turning the page keeps search, dynasty and author, in the address bar and in the query. */
  lemma PageChangeKeepsFilters(f: Filters, page: int, name: string)
    requires name in {"search", "dynasty", "author"}
    ensures Get(UrlParams(ChangePage(f, page)), name) == Get(UrlParams(f), name)
    ensures var qname := if name == "search" then "q" else name;
      Get(RemoteQuery(ChangePage(f, page)), qname) == Get(RemoteQuery(f), qname)
    ensures Get(RemoteQuery(ChangePage(f, page)), "_page") == Some(IntToString(page))
  {
    UrlParamsOmitDefaults(f, "");
    UrlParamsOmitDefaults(ChangePage(f, page), "");
    RemoteQueryFields(f, "");
    RemoteQueryFields(ChangePage(f, page), "");
  }

  /** Reset empties the address bar and leaves only the first page in the query. */
  lemma ResetClearsEverything()
    ensures UrlParams(ResetFilters()) == []
    ensures RemoteQuery(ResetFilters()) == [Param("_page", "1"), Param("_limit", "12")]
  {
    assert IntToString(PageSize) == "12";
  }

  /** Reset also drops a dynasty taken from the route, although the dynasty select is locked. */
  lemma ResetDropsRouteDynasty(routeDynasty: Option<string>, location: seq<Param>)
    requires Truthy(routeDynasty)
    ensures InitialFilters(routeDynasty, location).dynasty == routeDynasty.value
    ensures ResetFilters().dynasty == "" != routeDynasty.value
  {
  }

  // ---------------------------------------------------------------------------------------------
  // The page component

  /** The rows a finished fetch leaves in the list: the response, or none on an error. */
  function Rows(fetched: Outcome<seq<Poem>>): seq<Poem> {
    if fetched.Ok? then fetched.value else []
  }

  /** The component's state cells, with the route's dynasty fixed for its lifetime. Every
      handler updates the filters and then runs the effect, which rewrites the address bar and
      fetches the page; the fetch's outcome is a parameter and the query it was sent is returned. */
  class PoetryListView {
    const routeDynasty: Option<string>
    var filters: Filters
    var searchParams: seq<Param>
    var poetryList: seq<Poem>
    var loading: bool

    /** The page number stays positive. */
    ghost predicate Valid()
      reads this
    {
      filters.page >= 1
    }

    /** The effect has run: the address bar shows the filters' canonical form, no fetch pending. */
    ghost predicate Settled()
      reads this
    {
      Valid() && searchParams == UrlParams(filters) && !loading
    }

    /** Mounting, before the first effect: the state is read from the route and the address bar. */
    constructor (routeDynasty: Option<string>, location: seq<Param>)
      ensures this.routeDynasty == routeDynasty
      ensures filters == InitialFilters(routeDynasty, location)
      ensures searchParams == location && poetryList == [] && !loading
      ensures Valid()
    {
      this.routeDynasty := routeDynasty;
      filters := InitialFilters(routeDynasty, location);
      searchParams := location;
      poetryList := [];
      loading := false;
    }

    /** The effect that runs on mount and after every filter update. */
    method SyncAndFetch(fetched: Outcome<seq<Poem>>) returns (query: seq<Param>)
      requires Valid()
      modifies this
      ensures Settled()
      ensures filters == old(filters)
      ensures query == RemoteQuery(filters)
      ensures poetryList == Rows(fetched)
    {
      searchParams := DeriveUrlParams(filters);
      loading := true;
      query := DeriveRemoteQuery(filters);
      poetryList := Rows(fetched);
      loading := false;
    }

    method Search(value: string, fetched: Outcome<seq<Poem>>) returns (query: seq<Param>)
      requires Valid()
      modifies this
      ensures filters == SearchFor(old(filters), value)
      ensures Settled() && query == RemoteQuery(filters) && poetryList == Rows(fetched)
    {
      filters := SearchFor(filters, value);
      query := SyncAndFetch(fetched);
    }

    /** A select change; `None` when the route's dynasty locks the select, and then nothing
        changes and nothing is fetched. */
    method SelectFilter(key: FilterKey, value: string, fetched: Outcome<seq<Poem>>)
      returns (query: Option<seq<Param>>)
      requires Valid()
      modifies this
      ensures query.None? <==> Truthy(routeDynasty) && key == DynastyKey
      ensures query.None? ==> unchanged(this)
      ensures query.Some? ==>
        && Some(filters) == ChangeFilter(old(filters), routeDynasty, key, value)
        && Settled() && query.value == RemoteQuery(filters) && poetryList == Rows(fetched)
    {
      var next := ChangeFilter(filters, routeDynasty, key, value);
      if next.None? {
        query := None;
      } else {
        filters := next.value;
        var q := SyncAndFetch(fetched);
        query := Some(q);
      }
    }

    /** The pagination reports 1-based page numbers. */
    method TurnPage(page: int, fetched: Outcome<seq<Poem>>) returns (query: seq<Param>)
      requires Valid() && page >= 1
      modifies this
      ensures filters == ChangePage(old(filters), page)
      ensures Settled() && query == RemoteQuery(filters) && poetryList == Rows(fetched)
    {
      filters := ChangePage(filters, page);
      query := SyncAndFetch(fetched);
    }

    /** The reset button clears the filters and the address bar; the effect then follows. */
    method Reset(fetched: Outcome<seq<Poem>>) returns (query: seq<Param>)
      requires Valid()
      modifies this
      ensures filters == ResetFilters() && searchParams == []
      ensures Settled() && query == RemoteQuery(filters) && poetryList == Rows(fetched)
    {
      filters := ResetFilters();
      searchParams := [];
      query := SyncAndFetch(fetched);
      assert UrlParams(ResetFilters()) == [];
    }
  }
}
