/** The registry's key space: how the `owner`, `name` and `version` query
    parameters of a request become the storage key `owner/name/version`
    (src/index.js, `sanitize` and the first lines of every handler). */
module KeySpace {
  import opened Wrappers

  /** The version a package gets when the request names none. */
  const DefaultVersion: string := "0.1.0"

  /** The character class `[a-zA-Z0-9_\-\.]` that `sanitize` keeps. */
  predicate IsSafeChar(c: char) {
    ('a' <= c <= 'z') || ('A' <= c <= 'Z') || ('0' <= c <= '9') || c == '_' || c == '-' || c == '.'
  }

  predicate AllSafe(s: string) {
    forall i :: 0 <= i < |s| ==> IsSafeChar(s[i])
  }

  /** `str.replace(/[^a-zA-Z0-9_\-\.]/g, "_")`: every character outside the
      safe class becomes an underscore, every other one stays where it is. */
  function Sanitize(s: string): (r: string)
    ensures |r| == |s|
    ensures AllSafe(r)
    ensures forall i :: 0 <= i < |s| && IsSafeChar(s[i]) ==> r[i] == s[i]
    ensures forall i :: 0 <= i < |s| && !IsSafeChar(s[i]) ==> r[i] == '_'
  {
    if s == [] then []
    else [if IsSafeChar(s[0]) then s[0] else '_'] + Sanitize(s[1..])
  }

  /** The strings `sanitize` leaves alone are exactly the safe ones. */
  lemma SanitizeFixedPoints(s: string)
    ensures Sanitize(s) == s <==> AllSafe(s)
  {
    if AllSafe(s) {
      assert forall i :: 0 <= i < |s| ==> Sanitize(s)[i] == s[i];
    }
  }

  /** Sanitizing twice is sanitizing once. */
  lemma SanitizeIdempotent(s: string)
    ensures Sanitize(Sanitize(s)) == Sanitize(s)
  {
    SanitizeFixedPoints(Sanitize(s));
  }

  /** A sanitized string never holds the key separator. */
  lemma SafeHasNoSlash(s: string)
    requires AllSafe(s)
    ensures '/' !in s
  {
  }

  /** The query parameters the handlers read; `None` is what `params.get`
      gives (`null`) when the parameter is missing. */
  datatype Params = Params(owner: Option<string>, name: Option<string>, version: Option<string>)

  /** The three sanitized parts of a storage key. */
  datatype Coordinates = Coordinates(owner: string, name: string, version: string)

  /** `sanitize(params.get("version") || "0.1.0")`: a missing or empty
      version falls back to the default before it is sanitized. */
  function ResolveVersion(v: Option<string>): (r: string)
    ensures v == None || v == Some("") ==> r == DefaultVersion
    ensures v.Some? && v.value != "" ==> r == Sanitize(v.value)
    ensures AllSafe(r) && r != []
  {
    match v
    case Some(s) => if s != "" then Sanitize(s) else Sanitize(DefaultVersion)
    case None => Sanitize(DefaultVersion)
  }

  /** The three parts every handler computes. A missing owner or name
      reaches `sanitize(null)`, which throws: there are no coordinates. */
  function Resolve(p: Params): (c: Option<Coordinates>)
    ensures c.Some? <==> p.owner.Some? && p.name.Some?
    ensures c.Some? ==> (c.value.owner == Sanitize(p.owner.value) &&
                         c.value.name == Sanitize(p.name.value) &&
                         c.value.version == ResolveVersion(p.version))
  {
    if p.owner.None? || p.name.None? then None
    else Some(Coordinates(Sanitize(p.owner.value), Sanitize(p.name.value), ResolveVersion(p.version)))
  }

  /** The template literal `${owner}/${name}/${version}`: the three parts in
      order, each followed by a `/` except the last. */
  function BuildKey(c: Coordinates): (key: string)
    ensures |key| == |c.owner| + |c.name| + |c.version| + 2
    ensures key[..|c.owner|] == c.owner && key[|c.owner|] == '/'
    ensures key[|c.owner| + 1..|c.owner| + 1 + |c.name|] == c.name && key[|c.owner| + 1 + |c.name|] == '/'
    ensures key[|c.owner| + |c.name| + 2..] == c.version
  {
    c.owner + "/" + c.name + "/" + c.version
  }

  /** Splitting a string at every occurrence of `sep`, as `String.prototype.split`
      does with a one-character separator. */
  function SplitOn(s: string, sep: char): (parts: seq<string>)
    ensures |parts| >= 1
    decreases |s|
  {
    if s == [] then [""]
    else
      var rest := SplitOn(s[1..], sep);
      if s[0] == sep then [""] + rest else [[s[0]] + rest[0]] + rest[1..]
  }

  lemma {:induction false} SplitWithoutSeparator(a: string, sep: char)
    requires sep !in a
    ensures SplitOn(a, sep) == [a]
    decreases |a|
  {
    if a != [] {
      SplitWithoutSeparator(a[1..], sep);
      assert [a[0]] + a[1..] == a;
    }
  }

  lemma {:induction false} SplitAtFirstSeparator(a: string, sep: char, b: string)
    requires sep !in a
    ensures SplitOn(a + [sep] + b, sep) == [a] + SplitOn(b, sep)
    decreases |a|
  {
    var s := a + [sep] + b;
    if a == [] {
      assert s == [sep] + b;
      assert s[1..] == b;
    } else {
      assert s[1..] == a[1..] + [sep] + b;
      SplitAtFirstSeparator(a[1..], sep, b);
      assert [a[0]] + a[1..] == a;
    }
  }

  /** The key of well-formed coordinates splits back into exactly its
      three parts: the key space is unambiguous. */
  lemma KeySplitsIntoParts(c: Coordinates)
    requires '/' !in c.owner && '/' !in c.name && '/' !in c.version
    ensures SplitOn(BuildKey(c), '/') == [c.owner, c.name, c.version]
  {
    var rest := c.name + "/" + c.version;
    assert BuildKey(c) == c.owner + ['/'] + rest;
    SplitAtFirstSeparator(c.owner, '/', rest);
    assert rest == c.name + ['/'] + c.version;
    SplitAtFirstSeparator(c.name, '/', c.version);
    SplitWithoutSeparator(c.version, '/');
  }

  /** Every resolved key splits back into the three sanitized parts, the
      last of which is the default version when none was given. */
  lemma ResolvedKeySplits(p: Params)
    requires p.owner.Some? && p.name.Some?
    ensures SplitOn(BuildKey(Resolve(p).value), '/')
            == [Sanitize(p.owner.value), Sanitize(p.name.value), ResolveVersion(p.version)]
    ensures p.version == None || p.version == Some("") ==>
            SplitOn(BuildKey(Resolve(p).value), '/')[2] == DefaultVersion
  {
    var c := Resolve(p).value;
    SafeHasNoSlash(c.owner);
    SafeHasNoSlash(c.name);
    SafeHasNoSlash(c.version);
    KeySplitsIntoParts(c);
  }

  /** Two requests address the same entry only if their sanitized parts agree. */
  lemma ResolvedKeyInjective(p: Params, q: Params)
    requires Resolve(p).Some? && Resolve(q).Some?
    requires BuildKey(Resolve(p).value) == BuildKey(Resolve(q).value)
    ensures Resolve(p).value == Resolve(q).value
  {
    ResolvedKeySplits(p);
    ResolvedKeySplits(q);
  }
}
