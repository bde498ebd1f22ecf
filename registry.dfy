/** The package handlers of the worker (src/index.js): create-or-redirect,
    update and get over the `PACKAGES` key-value namespace, and the `fetch`
    entry point that dispatches to them.

    `Serve`, `Create`, `Update` and `Lookup` are the pure specification of one
    request: the response and the namespace afterwards. `PackageStore` is the
    namespace itself, updated in place by handler methods proved against
    that specification. */
module Registry {
  import opened Wrappers
  import opened KeySpace
  import opened HexDigest
  import opened Routes

  /** The `PACKAGES` namespace: storage key to stored content. */
  type Store = map<string, string>

  /** What a new version stores when the request body brings no content. */
  const DefaultContent: string := "default package content"

  /** JavaScript truthiness of a value that is a string or missing:
      `null`, `undefined` and `""` are all falsy. */
  predicate Truthy(v: Option<string>)
    ensures Truthy(v) <==> v != None && v != Some("")
  {
    v.Some? && v.value != ""
  }

  /** `env.PACKAGES.get(key)`. */
  function Lookup(store: Store, key: string): (v: Option<string>)
    ensures v.Some? <==> key in store
    ensures v.Some? ==> v.value == store[key]
  {
    if key in store then Some(store[key]) else None
  }

  /** The answers a handler produces. */
  datatype Response =
    | Initialized(owner: string, name: string, version: string, hash: string)  // 201
    | Updated(owner: string, name: string, version: string, hash: string)      // 200, JSON
    | PackageContent(content: string)                                         // 200, text/plain
    | VersionNotFound                                                         // 404, JSON
    | MissingContent                                                          // 400, JSON
    | RouteNotFound                                                           // 404, "Not found"
    | Rejected  // the handler threw (owner or name missing); no response of the worker's own

  /** The HTTP status of a response the worker builds itself. */
  function Status(r: Response): (s: Option<int>)
    ensures s.None? <==> r.Rejected?
    ensures s == Some(201) <==> r.Initialized?
    ensures s == Some(200) <==> r.Updated? || r.PackageContent?
    ensures s == Some(400) <==> r.MissingContent?
    ensures s == Some(404) <==> r.VersionNotFound? || r.RouteNotFound?
  {
    match r
    case Initialized(_, _, _, _) => Some(201)
    case Updated(_, _, _, _) => Some(200)
    case PackageContent(_) => Some(200)
    case VersionNotFound => Some(404)
    case MissingContent => Some(400)
    case RouteNotFound => Some(404)
    case Rejected => None
  }

  /** One request's effect: the response and the namespace afterwards. */
  datatype Step = Step(response: Response, store: Store)

  /** The hash string reported for stored content. */
  function HashOf(content: string, digest: string -> Digest): (h: string)
    ensures |h| == 64
  {
    HexEncode(digest(content))
  }

  /** The key a request addresses, when it names an owner and a package. */
  function KeyOf(p: Params): string
    requires Resolve(p).Some?
  {
    BuildKey(Resolve(p).value)
  }

  /** `handleUpdatePackage`: existence is checked before the body is read. */
  function Update(store: Store, p: Params, content: Option<string>, digest: string -> Digest): (r: Step)
    ensures r.response.Rejected? <==> Resolve(p).None?
    ensures r.response.Rejected? || r.response.VersionNotFound? || r.response.MissingContent? || r.response.Updated?
    ensures r.store.Keys == store.Keys
    ensures !r.response.Updated? ==> r.store == store
  {
    match Resolve(p)
    case None => Step(Rejected, store)
    case Some(c) =>
      var key := BuildKey(c);
      if !Truthy(Lookup(store, key)) then Step(VersionNotFound, store)
      else if !Truthy(content) then Step(MissingContent, store)
      else Step(Updated(c.owner, c.name, c.version, HashOf(content.value, digest)), store[key := content.value])
  }

  /** `handleNewPackage`: a key that already holds content goes to update
      with the same request; otherwise the body's content, or the default
      content when there is none, is stored. */
  function Create(store: Store, p: Params, content: Option<string>, digest: string -> Digest): (r: Step)
    ensures r.response.Rejected? <==> Resolve(p).None?
    ensures r.response.Initialized? || r.response.Updated? || r.store == store
    ensures Resolve(p).Some? ==> Truthy(Lookup(r.store, KeyOf(p)))
  {
    match Resolve(p)
    case None => Step(Rejected, store)
    case Some(c) =>
      var key := BuildKey(c);
      if Truthy(Lookup(store, key)) then Update(store, p, content, digest)
      else
        var stored := if Truthy(content) then content.value else DefaultContent;
        Step(Initialized(c.owner, c.name, c.version, HashOf(stored, digest)), store[key := stored])
  }

  /** `handleGetPackage`: the stored content, or 404 when there is none. */
  function Fetch(store: Store, p: Params): (r: Response)
    ensures r.Rejected? <==> Resolve(p).None?
    ensures r.Rejected? || r.VersionNotFound? || r.PackageContent?
    ensures r.PackageContent? ==> r.content != "" && Lookup(store, KeyOf(p)) == Some(r.content)
  {
    match Resolve(p)
    case None => Rejected
    case Some(c) =>
      var v := Lookup(store, BuildKey(c));
      if !Truthy(v) then VersionNotFound else PackageContent(v.value)
  }

  /** The `fetch` entry point below the rate limiter. */
  function Serve(store: Store, pathname: string, verb: string, p: Params,
                 content: Option<string>, digest: string -> Digest): (r: Step)
    ensures Route(pathname, verb) == NoRoute ==> r == Step(RouteNotFound, store)
    ensures Route(pathname, verb) == GetPackage ==> r.store == store
    ensures r.response.Initialized? ==> Route(pathname, verb) == NewPackage
    ensures r.response.Updated? ==> Route(pathname, verb) in {NewPackage, UpdatePackage}
  {
    match Route(pathname, verb)
    case NewPackage => Create(store, p, content, digest)
    case UpdatePackage => Update(store, p, content, digest)
    case GetPackage => Step(Fetch(store, p), store)
    case NoRoute => Step(RouteNotFound, store)
  }

  /** Every stored value is a non-empty string. */
  predicate NoEmptyValues(store: Store) {
    forall k :: k in store ==> store[k] != ""
  }

  // ---------------------------------------------------------------------
  // The namespace, updated in place.

  class PackageStore {
    var packages: Store

    constructor (initial: Store)
      ensures packages == initial
    {
      packages := initial;
    }

    /** `env.PACKAGES.get(key)`. */
    method Get(key: string) returns (v: Option<string>)
      ensures v.Some? <==> key in packages
      ensures v.Some? ==> v.value == packages[key]
    {
      if key in packages {
        v := Some(packages[key]);
      } else {
        v := None;
      }
    }

    /** `env.PACKAGES.put(key, value)`. */
    method Put(key: string, value: string)
      modifies this
      ensures packages == old(packages)[key := value]
    {
      packages := packages[key := value];
    }

    method HandleUpdatePackage(p: Params, content: Option<string>, digest: string -> Digest) returns (r: Response)
      modifies this
      ensures Step(r, packages) == Update(old(packages), p, content, digest)
      ensures !r.Updated? ==> packages == old(packages)
      ensures NoEmptyValues(old(packages)) ==> NoEmptyValues(packages)
    {
      var c := Resolve(p);
      if c.None? {
        return Rejected;
      }
      var key := BuildKey(c.value);
      var existing := Get(key);
      if !Truthy(existing) {
        return VersionNotFound;
      }
      if !Truthy(content) {
        return MissingContent;
      }
      Put(key, content.value);
      var hash := HexEncode(digest(content.value));
      r := Updated(c.value.owner, c.value.name, c.value.version, hash);
    }

    method HandleNewPackage(p: Params, content: Option<string>, digest: string -> Digest) returns (r: Response)
      modifies this
      ensures Step(r, packages) == Create(old(packages), p, content, digest)
      ensures !r.Initialized? && !r.Updated? ==> packages == old(packages)
      ensures NoEmptyValues(old(packages)) ==> NoEmptyValues(packages)
    {
      var c := Resolve(p);
      if c.None? {
        return Rejected;
      }
      var key := BuildKey(c.value);
      var existing := Get(key);
      if Truthy(existing) {
        r := HandleUpdatePackage(p, content, digest);
        return;
      }
      var stored := if Truthy(content) then content.value else DefaultContent;
      Put(key, stored);
      var hash := HexEncode(digest(stored));
      r := Initialized(c.value.owner, c.value.name, c.value.version, hash);
    }

    method HandleGetPackage(p: Params) returns (r: Response)
      ensures r == Fetch(packages, p)
      ensures r.PackageContent? <==> Resolve(p).Some? && Truthy(Lookup(packages, KeyOf(p)))
      ensures r.PackageContent? ==> r.content == packages[KeyOf(p)]
      ensures r.Rejected? <==> Resolve(p).None?
    {
      var c := Resolve(p);
      if c.None? {
        return Rejected;
      }
      var key := BuildKey(c.value);
      var v := Get(key);
      if !Truthy(v) {
        return VersionNotFound;
      }
      r := PackageContent(v.value);
    }

    /** The `fetch` entry point below the rate limiter. */
    method HandleRequest(pathname: string, verb: string, p: Params,
                         content: Option<string>, digest: string -> Digest) returns (r: Response)
      modifies this
      ensures Step(r, packages) == Serve(old(packages), pathname, verb, p, content, digest)
      ensures NoEmptyValues(old(packages)) ==> NoEmptyValues(packages)
    {
      match Route(pathname, verb)
      case NewPackage =>
        r := HandleNewPackage(p, content, digest);
      case UpdatePackage =>
        r := HandleUpdatePackage(p, content, digest);
      case GetPackage =>
        r := HandleGetPackage(p);
      case NoRoute =>
        r := RouteNotFound;
    }
  }
}
