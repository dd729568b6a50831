/**
 * `router.extendRoutes`: every top-level route of the resolved route table
 * gets an alias ending in `index.html`, so that a static host serving
 * pre-rendered `index.html` files resolves the same page.
 */
module Router {
  import opened Wrappers
  import opened Strings

  /** A route table entry; `children` are nested routes, which the hook does not visit. */
  datatype Route = Route(path: string, name: Option<string>, alias: Option<string>, children: seq<Route>)

  /** `path` with one trailing `/` removed, if it has one. */
  function DropTrailingSlash(path: string): (p: string)
    ensures path == p || path == p + "/"
    ensures EndsWith(path, "/") <==> path == p + "/"
  {
    if EndsWith(path, "/") then path[..|path| - 1] else path
  }

  /** The alias the hook assigns: `path + 'index.html'` after a trailing slash, else `path + '/index.html'`. */
  function AliasFor(path: string): (a: string)
    ensures StartsWith(a, path)
    ensures EndsWith(a, "/index.html")
    ensures a == DropTrailingSlash(path) + "/index.html"
  {
    if SliceLast(path) == "/" then path + "index.html" else path + "/index.html"
  }

  /** One iteration of the loop: the route with its alias set. */
  function WithAlias(route: Route): (r: Route)
    ensures r.path == route.path && r.name == route.name && r.children == route.children
    ensures r.alias.Some? && EndsWith(r.alias.value, "/index.html") && StartsWith(r.alias.value, route.path)
    ensures r.alias == Some(DropTrailingSlash(route.path) + "/index.html")
  {
    route.(alias := Some(AliasFor(route.path)))
  }

  /** The hook's loop over the route table, as a map over the sequence. */
  function ExtendRoutes(routes: seq<Route>): (out: seq<Route>)
    ensures |out| == |routes|
    ensures forall i :: 0 <= i < |routes| ==>
      && out[i].path == routes[i].path
      && out[i].name == routes[i].name
      && out[i].children == routes[i].children
      && out[i].alias == Some(AliasFor(routes[i].path))
    decreases |routes|
  {
    if |routes| == 0 then [] else [WithAlias(routes[0])] + ExtendRoutes(routes[1..])
  }

  /** Running the hook on its own output changes nothing: the alias depends only on the path. */
  lemma ExtendRoutesIdempotent(routes: seq<Route>)
    ensures ExtendRoutes(ExtendRoutes(routes)) == ExtendRoutes(routes)
  {
  }

  /** The empty path: `''.slice(-1)` is `''`, so the alias is `/index.html`. */
  lemma EmptyPathAlias()
    ensures AliasFor("") == "/index.html"
  {
  }

  /** The root keeps its trailing slash: its alias is `/index.html`. */
  lemma RootAlias()
    ensures AliasFor("/") == "/index.html"
  {
  }

  /** A page path without a trailing slash gains one before `index.html`. */
  lemma PageAlias()
    ensures AliasFor("/settings") == "/settings/index.html"
  {
  }

  /** A route table with the root and one named page. */
  const ExampleTable := [Route("/", None, None, []), Route("/settings", Some("settings"), None, [])]

  /** The root and the named page of `ExampleTable` get their `index.html` aliases. */
  lemma ExtendRoutesExample()
    ensures |ExtendRoutes(ExampleTable)| == 2
    ensures ExtendRoutes(ExampleTable)[0].alias == Some("/index.html")
    ensures ExtendRoutes(ExampleTable)[1].alias == Some("/settings/index.html")
    ensures ExtendRoutes(ExampleTable)[1].name == Some("settings")
  {
    RootAlias();
    PageAlias();
    assert ExampleTable[0].path == "/" && ExampleTable[1].path == "/settings";
  }

  /** Nested routes are left as they are: only the top-level entries receive an alias. */
  lemma ChildrenKeepTheirAliases(child: Route)
    requires child.alias == None
    ensures ExtendRoutes([Route("/item", None, None, [child])])[0].children[0].alias == None
  {
  }
}
