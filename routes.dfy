/** The dispatch table of the worker's `fetch` entry point (src/index.js):
    an exact match on the path name and the request method (`verb`) selects one of the
    three package handlers; everything else is answered "Not found". */
module Routes {
  datatype Handler = NewPackage | UpdatePackage | GetPackage | NoRoute

  /** The three routes the worker serves, as (path name, method) pairs. */
  const RouteTable: map<(string, string), Handler> := map[
    ("/packages/new", "POST") := NewPackage,
    ("/packages/update", "PUT") := UpdatePackage,
    ("/packages/get", "GET") := GetPackage
  ]

  /** The chain of `if` tests in `fetch`, tried in order. */
  function Route(pathname: string, verb: string): (h: Handler)
    ensures h == NewPackage <==> pathname == "/packages/new" && verb == "POST"
    ensures h == UpdatePackage <==> pathname == "/packages/update" && verb == "PUT"
    ensures h == GetPackage <==> pathname == "/packages/get" && verb == "GET"
  {
    if pathname == "/packages/new" && verb == "POST" then NewPackage
    else if pathname == "/packages/update" && verb == "PUT" then UpdatePackage
    else if pathname == "/packages/get" && verb == "GET" then GetPackage
    else NoRoute
  }

  /** The `if` chain and the table agree: a listed pair reaches its handler,
      any other pair falls through to "Not found". */
  lemma RouteMatchesTable(pathname: string, verb: string)
    ensures (pathname, verb) in RouteTable ==> Route(pathname, verb) == RouteTable[(pathname, verb)]
    ensures (pathname, verb) !in RouteTable <==> Route(pathname, verb) == NoRoute
  {
  }
}
