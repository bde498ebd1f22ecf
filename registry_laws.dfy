/** What the package handlers of src/index.js promise, stated over the pure
    specification of one request in module Registry. */
module RegistryLaws {
  import opened Wrappers
  import opened KeySpace
  import opened HexDigest
  import opened Routes
  import opened Registry

  /** A missing version, an empty one and the literal default address the
      same entry, in every handler. */
  lemma VersionDefaultIsShared(owner: string, name: string)
    ensures var absent := Params(Some(owner), Some(name), None);
            var empty := Params(Some(owner), Some(name), Some(""));
            var given := Params(Some(owner), Some(name), Some(DefaultVersion));
            KeyOf(absent) == KeyOf(empty) == KeyOf(given) &&
            Resolve(absent).value.version == DefaultVersion
  {
    SanitizeFixedPoints(DefaultVersion);
  }

  /** A request without owner or name throws before the namespace is read. */
  lemma MissingOwnerOrNameRejected(store: Store, pathname: string, verb: string, p: Params,
                                   content: Option<string>, digest: string -> Digest)
    requires p.owner.None? || p.name.None?
    requires Route(pathname, verb) != NoRoute
    ensures Serve(store, pathname, verb, p, content, digest) == Step(Rejected, store)
  {
  }

  /** Update checks existence first, then the content, and otherwise
      overwrites exactly the addressed entry. It never adds or removes keys. */
  lemma UpdateOutcomes(store: Store, p: Params, content: Option<string>, digest: string -> Digest)
    requires Resolve(p).Some?
    ensures var st := Update(store, p, content, digest);
            var key := KeyOf(p);
            (!Truthy(Lookup(store, key)) ==> st == Step(VersionNotFound, store)) &&
            (Truthy(Lookup(store, key)) && !Truthy(content) ==> st == Step(MissingContent, store)) &&
            (st.response.Updated? <==> Truthy(Lookup(store, key)) && Truthy(content)) &&
            (st.response.Updated? ==> Lookup(st.store, key) == content) &&
            st.store.Keys == store.Keys
  {
  }

  /** Create on a key with no content stores one entry: the body's content,
      or the default content when the body has none, and answers 201. */
  lemma CreateOnAbsentKey(store: Store, p: Params, content: Option<string>, digest: string -> Digest)
    requires Resolve(p).Some?
    requires !Truthy(Lookup(store, KeyOf(p)))
    ensures var st := Create(store, p, content, digest);
            var key := KeyOf(p);
            st.response.Initialized? && Status(st.response) == Some(201) &&
            st.store.Keys == store.Keys + {key} &&
            st.store[key] == (if Truthy(content) then content.value else DefaultContent) &&
            st.store[key] != ""
  {
  }

  /** Create on a key that holds content is update with the same request. */
  lemma CreateOnPresentKeyIsUpdate(store: Store, p: Params, content: Option<string>, digest: string -> Digest)
    requires Resolve(p).Some?
    requires Truthy(Lookup(store, KeyOf(p)))
    ensures Create(store, p, content, digest) == Update(store, p, content, digest)
  {
  }

  /** After any create the addressed key holds content, so a second create
      of the same version is an update. */
  lemma CreateTwiceIsCreateThenUpdate(store: Store, p: Params, first: Option<string>, second: Option<string>,
                                      digest: string -> Digest)
    requires Resolve(p).Some?
    ensures var once := Create(store, p, first, digest).store;
            Truthy(Lookup(once, KeyOf(p))) &&
            Create(once, p, second, digest) == Update(once, p, second, digest)
  {
  }

  /** Update and create change at most the addressed entry. */
  lemma WriteFrame(store: Store, p: Params, content: Option<string>, digest: string -> Digest)
    requires Resolve(p).Some?
    ensures var u := Update(store, p, content, digest).store;
            var c := Create(store, p, content, digest).store;
            forall k :: k != KeyOf(p) ==> Lookup(u, k) == Lookup(store, k) && Lookup(c, k) == Lookup(store, k)
  {
  }

  /** Every route leaves every other key as it was; a request without
      coordinates leaves the whole namespace as it was. */
  lemma ServeFrame(store: Store, pathname: string, verb: string, p: Params,
                   content: Option<string>, digest: string -> Digest)
    ensures var after := Serve(store, pathname, verb, p, content, digest).store;
            (Resolve(p).None? ==> after == store) &&
            (Resolve(p).Some? ==> forall k :: k != KeyOf(p) ==> Lookup(after, k) == Lookup(store, k))
  {
    if Resolve(p).Some? {
      WriteFrame(store, p, content, digest);
    }
  }

  /** Only a 201 from create or a 200 from update changes the namespace. */
  lemma ErrorsLeaveStoreUnchanged(store: Store, pathname: string, verb: string, p: Params,
                                  content: Option<string>, digest: string -> Digest)
    ensures var st := Serve(store, pathname, verb, p, content, digest);
            !st.response.Initialized? && !st.response.Updated? ==> st.store == store
  {
  }

  /** The invariant kept by every request: no stored value is empty. */
  lemma ServeKeepsNoEmptyValues(store: Store, pathname: string, verb: string, p: Params,
                                content: Option<string>, digest: string -> Digest)
    requires NoEmptyValues(store)
    ensures NoEmptyValues(Serve(store, pathname, verb, p, content, digest).store)
  {
  }

  /** Under the invariant, the truthiness tests of the handlers are map membership. */
  lemma TruthyIsMembership(store: Store, key: string)
    requires NoEmptyValues(store)
    ensures Truthy(Lookup(store, key)) <==> key in store
  {
  }

  /** Under the invariant, get answers exactly the stored content, or 404. */
  lemma FetchAnswersStoredContent(store: Store, p: Params)
    requires NoEmptyValues(store)
    requires Resolve(p).Some?
    ensures Fetch(store, p) == if KeyOf(p) in store then PackageContent(store[KeyOf(p)]) else VersionNotFound
  {
    TruthyIsMembership(store, KeyOf(p));
  }

  /** What a create with content writes, a get of the same coordinates reads. */
  lemma CreateThenFetch(store: Store, p: Params, content: Option<string>, digest: string -> Digest)
    requires Resolve(p).Some?
    requires Truthy(content)
    ensures Fetch(Create(store, p, content, digest).store, p) == PackageContent(content.value)
  {
  }

  /** Writing the same content twice is writing it once. */
  lemma UpdateIdempotent(store: Store, p: Params, content: Option<string>, digest: string -> Digest)
    ensures var once := Update(store, p, content, digest);
            Update(once.store, p, content, digest) == once
  {
  }

  /** The hash a successful write reports is the hash of exactly the content
      now stored under the request's key, and it names the key's parts. */
  lemma UpdateReportsStoredHash(store: Store, p: Params, content: Option<string>, digest: string -> Digest)
    ensures var st := Update(store, p, content, digest);
            st.response.Updated? ==>
              Resolve(p).Some? && KeyOf(p) in st.store &&
              st.response.hash == HexEncode(digest(st.store[KeyOf(p)])) &&
              KeyOf(p) == BuildKey(Coordinates(st.response.owner, st.response.name, st.response.version))
  {
  }

  lemma CreateReportsStoredHash(store: Store, p: Params, content: Option<string>, digest: string -> Digest)
    ensures var st := Create(store, p, content, digest);
            st.response.Initialized? || st.response.Updated? ==>
              Resolve(p).Some? && KeyOf(p) in st.store &&
              st.response.hash == HexEncode(digest(st.store[KeyOf(p)])) &&
              KeyOf(p) == BuildKey(Coordinates(st.response.owner, st.response.name, st.response.version))
  {
    UpdateReportsStoredHash(store, p, content, digest);
  }

  lemma WriteReportsStoredHash(store: Store, pathname: string, verb: string, p: Params,
                               content: Option<string>, digest: string -> Digest)
    ensures var st := Serve(store, pathname, verb, p, content, digest);
            var r := st.response;
            r.Initialized? || r.Updated? ==>
              Resolve(p).Some? && KeyOf(p) in st.store &&
              r.hash == HexEncode(digest(st.store[KeyOf(p)])) &&
              KeyOf(p) == BuildKey(Coordinates(r.owner, r.name, r.version))
  {
    match Route(pathname, verb)
    case NewPackage => CreateReportsStoredHash(store, p, content, digest);
    case UpdatePackage => UpdateReportsStoredHash(store, p, content, digest);
    case GetPackage =>
    case NoRoute =>
  }
}
