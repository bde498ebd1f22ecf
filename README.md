# Package registry: key space and versioning rules

A model of the request handlers of the stamper package registry worker
(`src/index.js`). Clients publish named, versioned content under the storage
key `owner/name/version` in a key-value namespace (`PACKAGES`), update it, and
read it back. The model covers:

- **KeySpace** (`keyspace.dfy`): `sanitize`, which replaces every character
  outside `[A-Za-z0-9_.-]` by `_`; the version default `"0.1.0"` for a missing
  or empty version; the key `owner/name/version`, and the proof that it splits
  back into exactly its three sanitized parts, so distinct coordinates never
  share a key.
- **HexDigest** (`hexdigest.dfy`): the hash string of a write, each digest byte
  written as `b.toString(16).padStart(2, "0")` and joined. `toString(16)` and
  `padStart` are modelled as such; the hash string is shown to hold the two
  nibbles of each byte, to be 64 lower-case hex digits for a SHA-256 digest,
  and to decode back to the digest.
- **Routes** (`routes.dfy`): the dispatch of `fetch` on path name and method.
- **Registry** (`registry.dfy`): the namespace as a class `PackageStore` with a
  `map<string, string>` field that the handler methods update in place, each
  proved equal to a pure specification of one request (`Create`, `Update`,
  `Fetch`, `Serve`, each giving the response and the namespace afterwards).
- **RegistryLaws** (`registry_laws.dfy`): what the handlers promise, over that
  specification.

The handlers test stored values for JavaScript truthiness, not for presence:
an entry holding `""` counts as missing to all three. The model keeps that
distinction (`Truthy(Lookup(store, key))`), and proves that no request ever
stores an empty value, so that on a namespace without empty values the tests
coincide with membership.

A request without `owner` or `name` makes `sanitize(null)` throw inside the
handler. `fetch` returns the handler's promise without awaiting it, so its
`catch` block does not see the failure and no response of the worker's own is
produced; the model answers `Rejected` and leaves the namespace unchanged.

The SHA-256 function is a parameter `digest: string -> Digest` (32 bytes);
the UTF-8 encoding of the content is folded into it. The request body's
`content` field is an `Option<string>`.

## Model

| member | source | states |
|---|---|---|
| KeySpace.Sanitize | src/index.js:147-149 | the result has the input's length, only safe characters, keeps each safe character in place and puts `_` for each other one |
| KeySpace.SanitizeFixedPoints | src/index.js:148 | sanitize leaves a string unchanged exactly when all its characters are safe |
| KeySpace.SanitizeIdempotent | src/index.js:148 | sanitizing twice equals sanitizing once |
| KeySpace.SafeHasNoSlash | src/index.js:148 | a sanitized part never contains the separator `/` |
| KeySpace.ResolveVersion | src/index.js:52 | a missing or empty version becomes `"0.1.0"`, any other is sanitized; the result is safe and non-empty |
| KeySpace.Resolve | src/index.js:50-52 | coordinates exist exactly when owner and name are present, and are the sanitized owner, name and resolved version |
| KeySpace.BuildKey | src/index.js:54 | the key is owner, `/`, name, `/`, version, laid out at those offsets and nothing else |
| KeySpace.KeySplitsIntoParts | src/index.js:54 | a key built from slash-free parts splits at `/` into exactly those three parts |
| KeySpace.ResolvedKeySplits | src/index.js:50-54 | every resolved key splits into the sanitized owner, name and version, the last being `"0.1.0"` when no version was given |
| KeySpace.ResolvedKeyInjective | src/index.js:54 | two requests share a key only if their sanitized coordinates are equal |
| HexDigest.HexDigit | src/index.js:72 | a value below 16 becomes one lower-case hex digit |
| HexDigest.ToRadix16 | src/index.js:72 | `toString(16)` gives at least one lower-case hex digit, exactly one for values below 16 |
| HexDigest.PadStart | src/index.js:72 | `padStart` gives the width when the string is shorter, the string's length otherwise |
| HexDigest.PadStartKeepsSuffix | src/index.js:72 | `padStart` only prepends fill characters before the original string |
| HexDigest.ByteHex | src/index.js:72 | padded `toString(16)` of a byte is its high nibble digit followed by its low nibble digit |
| HexDigest.HexEncode | src/index.js:71-72 | the joined string has two characters per byte, all lower-case hex |
| HexDigest.HexEncodeAt | src/index.js:72 | characters 2k and 2k+1 are the high and low nibble digits of byte k |
| HexDigest.DigestHexShape | src/index.js:67-72 | the hash string of a SHA-256 digest is 64 lower-case hex digits |
| HexDigest.HexRoundTrip | src/index.js:71-72 | decoding the hash string gives back the digest bytes |
| HexDigest.HexEncodeInjective | src/index.js:71-72 | distinct digests give distinct hash strings |
| Routes.Route | src/index.js:25-37 | each handler is chosen exactly for its path name and method; anything else falls through to "Not found" |
| Routes.RouteMatchesTable | src/index.js:25-37 | the `if` chain agrees with the three-entry route table, and unlisted pairs get no handler |
| Registry.Truthy | src/index.js:57 | a looked-up value or body field passes the handlers' truthiness test exactly when it is neither missing nor `""` (the same test at lines 63, 94, 100 and 133) |
| Registry.Lookup | src/index.js:55 | `PACKAGES.get` finds a value exactly for keys in the namespace, and it is the stored one (the same call at lines 92 and 131) |
| Registry.Status | src/index.js:94-104 | 201 for a new version, 200 for an update or content, 400 for missing content, 404 for a missing version or route, none for a rejection |
| Registry.Update | src/index.js:86-123 | update answers a rejection exactly without coordinates, otherwise 404, 400 or an update; it never adds or removes keys, and changes nothing unless it answers an update |
| Registry.Create | src/index.js:49-84 | create answers a rejection exactly without coordinates; it changes nothing unless it answers 201 or an update; afterwards the request's key holds content |
| Registry.Fetch | src/index.js:125-144 | get answers a rejection exactly without coordinates, otherwise 404 or the content stored under the key, which is never empty |
| Registry.Serve | src/index.js:25-37 | an unrouted request answers "Not found" and changes nothing; get changes nothing; only the create route answers 201, and only create or update answer an update |
| Registry.HashOf | src/index.js:67-72 | the reported hash of stored content is 64 characters long |
| Registry.PackageStore.Get | src/index.js:55 | a lookup finds a value exactly for keys in the namespace, and it is the stored value |
| Registry.PackageStore.Put | src/index.js:65 | a put sets one key and leaves the rest of the namespace as it was |
| Registry.PackageStore.HandleNewPackage | src/index.js:49-84 | response and new namespace are those of `Create`; nothing changes unless a version is written; no empty value is ever stored |
| Registry.PackageStore.HandleUpdatePackage | src/index.js:86-123 | response and new namespace are those of `Update`; nothing changes unless the answer is an update; no empty value is ever stored |
| Registry.PackageStore.HandleGetPackage | src/index.js:125-144 | the answer is the stored content exactly when the key holds a non-empty value, otherwise 404, or a rejection without coordinates |
| Registry.PackageStore.HandleRequest | src/index.js:25-37 | response and new namespace are those of `Serve`; the no-empty-value invariant is kept |
| RegistryLaws.VersionDefaultIsShared | src/index.js:52-54 | a missing version, an empty one and `"0.1.0"` address the same key, whose version part is `"0.1.0"` |
| RegistryLaws.MissingOwnerOrNameRejected | src/index.js:50-51 | a routed request without owner or name is rejected with the namespace unchanged |
| RegistryLaws.UpdateOutcomes | src/index.js:92-107 | absent key gives 404 unchanged even with empty content; empty content gives 400 unchanged; otherwise only the key is overwritten with the content; the key set never changes |
| RegistryLaws.CreateOnAbsentKey | src/index.js:55-65 | create on a key without content answers 201 and adds exactly that key, holding the body content or the default content |
| RegistryLaws.CreateOnPresentKeyIsUpdate | src/index.js:57-60 | create on a key with content has exactly the response and effect of update |
| RegistryLaws.CreateTwiceIsCreateThenUpdate | src/index.js:55-65 | after any create the key holds content, so a second create is an update |
| RegistryLaws.WriteFrame | src/index.js:65 | create and update leave every other key as it was |
| RegistryLaws.ServeFrame | src/index.js:25-37 | every route leaves every key but the request's own unchanged, and everything unchanged without coordinates |
| RegistryLaws.ErrorsLeaveStoreUnchanged | src/index.js:94-105 | every answer other than 201 or an update's 200 leaves the namespace unchanged |
| RegistryLaws.ServeKeepsNoEmptyValues | src/index.js:63 | no request ever stores an empty value |
| RegistryLaws.TruthyIsMembership | src/index.js:133 | without empty values, the handlers' truthiness test is map membership |
| RegistryLaws.FetchAnswersStoredContent | src/index.js:131-137 | without empty values, get answers the stored content or 404 |
| RegistryLaws.CreateThenFetch | src/index.js:62-65 | after a create with content, a get of the same coordinates answers that content |
| RegistryLaws.UpdateIdempotent | src/index.js:107 | repeating an update gives the same response and namespace |
| RegistryLaws.UpdateReportsStoredHash | src/index.js:107-114 | an update's hash is the hash of the content now stored under the key named by its response |
| RegistryLaws.CreateReportsStoredHash | src/index.js:63-72 | a create's hash is the hash of the content now stored under the key named by its response |
| RegistryLaws.WriteReportsStoredHash | src/index.js:74-83 | on every route, a reported hash is that of the content stored under the response's key |

## Left out

- The rate limiter on `env.REQUEST_COUNT` (src/index.js:11-23): runtime-shared mutable state whose meaning depends on the worker runtime and concurrent requests; `Serve` is what `fetch` does below it.
- SHA-256 and the UTF-8 encoding of the content (src/index.js:67-70): a foreign call, kept as the parameter `digest`.
- Response construction, JSON serialisation, headers, the `Date.now()` timestamp and `console.error` (src/index.js:38-44, 137-143, 151-156): transport and clock; a response is a datatype value carrying the fields the handlers put in their bodies.
- The `catch` branch of `fetch` (src/index.js:38-44): it is reached only by failures of `new URL`, which are transport errors.
- Failures of `request.json()` (src/index.js:62, 98): I/O errors; the body's `content` field is an input.
- A `content` field that is not a string (a number, an object): the model takes the field as a string or missing.
- Strings are sequences of Unicode scalar values, whereas the source's regular expression works on UTF-16 code units: a character outside the Basic Multilingual Plane becomes two underscores in the source and one in the model.
- The method names the runtime normalises (`get` to `GET`): `Route` compares the method as given.
- Concurrent requests on one key: each request is one atomic step here; the source's read-then-write is not atomic.
- The top-level `index.js` (Express variant on the filesystem) is not part of this model.
