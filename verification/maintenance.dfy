/**
 * The admin maintenance panel of js/maintenance.js: turning stored image URLs
 * back into bucket paths, listing a product's picture folder page by page,
 * naming uploads, validating the add-product form, and the panel's state (the
 * selected files, the `pictures` bucket and the `products` table).
 */
module Maintenance {
  import opened Wrappers
  import opened Text
  import Seqs

  /** The storage bucket every product picture lives in. */
  const Bucket: string := "pictures"
  /** The folder inside the bucket; a product's pictures go under `product-pictures/<id>/`. */
  const Folder: string := "product-pictures"
  /** The page size the folder listing asks for. */
  const PageSize: nat := 100

  // ---------------------------------------------------------------------------
  // Scanning helpers
  // ---------------------------------------------------------------------------

  /** The longest prefix of `s` without a character of `stop`. */
  function TakeUntil(s: string, stop: set<char>): (r: string)
    ensures |r| <= |s| && r == s[..|r|]
    ensures forall i :: 0 <= i < |r| ==> r[i] !in stop
    ensures |r| < |s| ==> s[|r|] in stop
  {
    if s == [] || s[0] in stop then [] else [s[0]] + TakeUntil(s[1..], stop)
  }

  /** A scan stops exactly at the first stop character. */
  lemma {:induction false} TakeUntilStops(a: string, b: string, stop: set<char>)
    requires forall i :: 0 <= i < |a| ==> a[i] !in stop
    requires b == [] || b[0] in stop
    ensures TakeUntil(a + b, stop) == a
  {
    if a == [] {
      assert a + b == b;
    } else {
      assert (a + b)[0] == a[0];
      assert (a + b)[1..] == a[1..] + b;
      TakeUntilStops(a[1..], b, stop);
      assert [a[0]] + a[1..] == a;
    }
  }

  /** `/^https?:\/\//i`: an http or https scheme in any letter case. */
  predicate IsHttpUrl(u: string) {
    StartsWith(ToLower(u), "http://") || StartsWith(ToLower(u), "https://")
  }

  /** `u.replace(/^\/+/, '')`. */
  function StripLeadingSlashes(u: string): (r: string)
    ensures |r| <= |u| && r == u[|u| - |r|..]
    ensures forall i :: 0 <= i < |u| - |r| ==> u[i] == '/'
    ensures r == [] || r[0] != '/'
  {
    if u != [] && u[0] == '/' then StripLeadingSlashes(u[1..]) else u
  }

  const UrlStops: set<char> := {'/', '?', '#'}
  const QueryStops: set<char> := {'?', '#'}
  /** What `.` in a regular expression does not match. */
  const LineTerminators: set<char> := {'\n', '\r', '\U{2028}', '\U{2029}'}

  /**
   * `new URL(u).pathname` for an http(s) URL, idealised: the authority runs to
   * the first `/`, `?` or `#` and must be non-empty (otherwise the constructor
   * throws), and the path runs from there to the first `?` or `#`, `/` when absent.
   */
  function Pathname(u: string): Option<string>
    requires IsHttpUrl(u)
  {
    var rest := if StartsWith(ToLower(u), "https://") then u[8..] else u[7..];
    var host := TakeUntil(rest, UrlStops);
    if host == [] then None
    else
      var tail := rest[|host|..];
      if tail == [] || tail[0] != '/' then Some("/") else Some(TakeUntil(tail, QueryStops))
  }

  const ObjectPrefix: string := "/storage/v1/object/"

  /**
   * `/\/storage\/v1\/object\/(public|sign)\/([^/]+)\/(.+)/` tried at position `k`:
   * the bucket is the run of non-slash characters up to the next `/`, and the
   * path is the non-empty run after it up to a line terminator.
   */
  function MatchAt(p: string, k: nat): Option<(string, string)>
    requires k <= |p|
  {
    var s := p[k..];
    if !StartsWith(s, ObjectPrefix) then None
    else
      var afterKind := AfterKind(s[|ObjectPrefix|..]);
      if afterKind.None? then None else BucketAndPath(afterKind.value)
  }

  /** `(public|sign)\/`: what follows the kind segment. */
  function AfterKind(t: string): Option<string> {
    if StartsWith(t, "public/") then Some(t[7..])
    else if StartsWith(t, "sign/") then Some(t[5..])
    else None
  }

  /** `([^/]+)\/(.+)`: the bucket up to the next slash and the non-empty path after it. */
  function BucketAndPath(rest: string): Option<(string, string)> {
    var bucket := TakeUntil(rest, {'/'});
    if bucket == [] || |bucket| == |rest| then None
    else
      var path := TakeUntil(rest[|bucket| + 1..], LineTerminators);
      if path == [] then None else Some((bucket, path))
  }

  /** `p.match(re)`: the leftmost position at which the pattern matches. */
  function FirstMatch(p: string, k: nat): (r: Option<(string, string)>)
    requires k <= |p|
    ensures r.Some? ==> exists j :: k <= j <= |p| && MatchAt(p, j) == r
    ensures r.None? ==> forall j :: k <= j <= |p| ==> MatchAt(p, j).None?
    decreases |p| - k
  {
    if MatchAt(p, k).Some? then MatchAt(p, k)
    else if k == |p| then None
    else FirstMatch(p, k + 1)
  }

  /**
   * `urlToPath(u)`: null for an empty string; a string that is not an http(s)
   * URL is taken as a path with its leading slashes removed; an http(s) URL
   * gives the path inside a storage object URL, and only for the `pictures` bucket.
   */
  function UrlToPath(u: string): (r: Option<string>)
    ensures u == [] ==> r.None?
    ensures u != [] && !IsHttpUrl(u) ==>
      && r.Some? && |r.value| <= |u| && u[|u| - |r.value|..] == r.value
      && (forall i :: 0 <= i < |u| - |r.value| ==> u[i] == '/')
      && (r.value == [] || r.value[0] != '/')
    ensures IsHttpUrl(u) && r.Some? ==> r.value != []
  {
    if u == [] then None
    else if !IsHttpUrl(u) then Some(StripLeadingSlashes(u))
    else
      var p := Pathname(u);
      if p.None? then None
      else
        var m := FirstMatch(p.value, 0);
        if m.None? || m.value.0 != Bucket then None else Some(m.value.1)
  }

  /** The URL of an object in a storage bucket, public or signed. */
  function ObjectUrl(host: string, kind: string, bucket: string, path: string): string {
    "https://" + host + ObjectPrefix + kind + "/" + bucket + "/" + path
  }

  /** `getPublicUrl(path)` on the `pictures` bucket of the project at `https://<host>`. */
  function PublicUrl(host: string, path: string): string {
    ObjectUrl(host, "public", Bucket, path)
  }

  predicate NoneOf(s: string, chars: set<char>) {
    forall i :: 0 <= i < |s| ==> s[i] !in chars
  }

  lemma HttpsIsHttpUrl(rest: string)
    ensures IsHttpUrl("https://" + rest)
    ensures StartsWith(ToLower("https://" + rest), "https://")
    ensures ("https://" + rest)[8..] == rest
  {
    var u := "https://" + rest;
    assert ToLower(u)[..8] == "https://" by {
      forall i | 0 <= i < 8 ensures ToLower(u)[i] == u[i] { }
      assert u[..8] == "https://";
    }
    assert u[8..] == rest;
  }

  lemma NoneOfConcat(a: string, b: string, chars: set<char>)
    requires NoneOf(a, chars) && NoneOf(b, chars)
    ensures NoneOf(a + b, chars)
  {
    forall i | 0 <= i < |a + b| ensures (a + b)[i] !in chars {
      if i < |a| { assert (a + b)[i] == a[i]; } else { assert (a + b)[i] == b[i - |a|]; }
    }
  }

  /** The path of `https://<host><tail>` is `tail` when the host is plain and the tail has no query or fragment. */
  lemma PathnameOf(host: string, tail: string)
    requires host != [] && NoneOf(host, UrlStops)
    requires tail != [] && tail[0] == '/' && NoneOf(tail, QueryStops)
    ensures IsHttpUrl("https://" + host + tail)
    ensures Pathname("https://" + host + tail) == Some(tail)
  {
    var u := "https://" + host + tail;
    assert u == "https://" + (host + tail);
    HttpsIsHttpUrl(host + tail);
    TakeUntilStops(host, tail, UrlStops);
    assert (host + tail)[|host|..] == tail;
    TakeUntilStops(tail, [], QueryStops);
    assert tail + [] == tail;
  }

  /** The object part of a storage URL contains no query or fragment when its pieces contain none. */
  lemma ObjectTailPlain(kind: string, bucket: string, path: string)
    requires kind == "public" || kind == "sign"
    requires NoneOf(bucket, QueryStops) && NoneOf(path, QueryStops)
    ensures NoneOf(ObjectPrefix + kind + "/" + bucket + "/" + path, QueryStops)
  {
    NoneOfConcat(ObjectPrefix, kind, QueryStops);
    NoneOfConcat(ObjectPrefix + kind, "/", QueryStops);
    NoneOfConcat(ObjectPrefix + kind + "/", bucket, QueryStops);
    NoneOfConcat(ObjectPrefix + kind + "/" + bucket, "/", QueryStops);
    NoneOfConcat(ObjectPrefix + kind + "/" + bucket + "/", path, QueryStops);
  }

  /**
   * A storage object URL gives back its path when its bucket is `pictures` and
   * nothing otherwise, whether the URL is public or signed.
   */
  lemma ObjectUrlToPath(host: string, kind: string, bucket: string, path: string)
    requires host != [] && NoneOf(host, UrlStops)
    requires kind == "public" || kind == "sign"
    requires bucket != [] && NoneOf(bucket, UrlStops)
    requires path != [] && NoneOf(path, QueryStops) && NoneOf(path, LineTerminators)
    ensures UrlToPath(ObjectUrl(host, kind, bucket, path)) == (if bucket == Bucket then Some(path) else None)
  {
    var tail := ObjectPrefix + kind + "/" + bucket + "/" + path;
    var u := ObjectUrl(host, kind, bucket, path);
    assert u == "https://" + host + tail;
    assert NoneOf(bucket, QueryStops);
    ObjectTailPlain(kind, bucket, path);
    PathnameOf(host, tail);
    MatchAtObject(kind, bucket, path);
    HttpUrlToPath(u, tail);
  }

  /** On an http(s) URL, `urlToPath` is the bucket test on the leftmost match in its path. */
  lemma HttpUrlToPath(u: string, p: string)
    requires u != [] && IsHttpUrl(u) && Pathname(u) == Some(p)
    requires MatchAt(p, 0).Some?
    ensures UrlToPath(u) == (if MatchAt(p, 0).value.0 == Bucket then Some(MatchAt(p, 0).value.1) else None)
  {
  }

  lemma MatchAtObject(kind: string, bucket: string, path: string)
    requires kind == "public" || kind == "sign"
    requires bucket != [] && NoneOf(bucket, UrlStops)
    requires path != [] && NoneOf(path, LineTerminators)
    ensures MatchAt(ObjectPrefix + kind + "/" + bucket + "/" + path, 0) == Some((bucket, path))
  {
    var rest := bucket + "/" + path;
    var p := ObjectPrefix + kind + "/" + bucket + "/" + path;
    assert p == ObjectPrefix + (kind + "/" + rest);
    assert p[0..] == p;
    assert p[..|ObjectPrefix|] == ObjectPrefix;
    assert p[|ObjectPrefix|..] == kind + "/" + rest;
    KindStripped(kind, rest);
    BucketAndPathOf(bucket, path);
  }

  lemma KindStripped(kind: string, rest: string)
    requires kind == "public" || kind == "sign"
    ensures AfterKind(kind + "/" + rest) == Some(rest)
  {
    var t := kind + "/" + rest;
    if kind == "public" {
      assert t[..7] == "public/";
      assert t[7..] == rest;
    } else {
      assert t[0] == 's';
      assert !StartsWith(t, "public/");
      assert t[..5] == "sign/";
      assert t[5..] == rest;
    }
  }

  lemma BucketAndPathOf(bucket: string, path: string)
    requires bucket != [] && NoneOf(bucket, UrlStops)
    requires path != [] && NoneOf(path, LineTerminators)
    ensures BucketAndPath(bucket + "/" + path) == Some((bucket, path))
  {
    var rest := bucket + "/" + path;
    TakeUntilStops(bucket, "/" + path, {'/'});
    assert rest == bucket + ("/" + path);
    assert rest[|bucket| + 1..] == path;
    TakeUntilStops(path, [], LineTerminators);
    assert path + [] == path;
  }

  lemma {:induction false} StripSlashes(slashes: string, path: string)
    requires forall i :: 0 <= i < |slashes| ==> slashes[i] == '/'
    requires path == [] || path[0] != '/'
    ensures StripLeadingSlashes(slashes + path) == path
  {
    if slashes == [] {
      assert slashes + path == path;
    } else {
      assert (slashes + path)[1..] == slashes[1..] + path;
      StripSlashes(slashes[1..], path);
    }
  }

  lemma SlashIsNotHttp(u: string)
    requires u != [] && u[0] == '/'
    ensures !IsHttpUrl(u)
  {
    var l := ToLower(u);
    assert l[0] == '/';
    assert !StartsWith(l, "http://") by {
      if |l| >= 7 { assert l[..7][0] == '/'; }
    }
    assert !StartsWith(l, "https://") by {
      if |l| >= 8 { assert l[..8][0] == '/'; }
    }
  }

  /** A plain path, with or without leading slashes, comes back without them. */
  lemma RawPathToPath(slashes: string, path: string)
    requires forall i :: 0 <= i < |slashes| ==> slashes[i] == '/'
    requires path != [] && path[0] != '/'
    requires slashes != [] || !IsHttpUrl(path)
    ensures UrlToPath(slashes + path) == Some(path)
  {
    var u := slashes + path;
    if slashes != [] {
      SlashIsNotHttp(u);
    } else {
      assert u == path;
    }
    StripSlashes(slashes, path);
  }

  // ---------------------------------------------------------------------------
  // Upload naming
  // ---------------------------------------------------------------------------

  /** `(name.split('.').pop() || 'jpg').toLowerCase()`: the text after the last dot, the whole name without one. */
  function Ext(name: string): (r: string)
    ensures r != [] && '.' !in r
  {
    var last := LastPiece(name);
    var e := ToLower(if last == [] then "jpg" else last);
    assert forall i :: 0 <= i < |e| ==> e[i] != '.' by {
      forall i | 0 <= i < |e| ensures e[i] != '.' {
        if last != [] { assert last[i] != '.'; }
      }
    }
    e
  }

  /** `name.split('.').pop()`. */
  function LastPiece(name: string): (r: string)
    ensures '.' !in r
  {
    var pieces := Split(name, '.');
    pieces[|pieces| - 1]
  }

  /** Splitting after appending a separator and a separator-free piece adds exactly that piece. */
  lemma {:induction false} SplitAppend(a: string, e: string, d: char)
    requires d !in e
    ensures Split(a + [d] + e, d) == Split(a, d) + [e]
    decreases |a|
  {
    var s := a + [d] + e;
    if a == [] {
      assert s == [d] + e && s[1..] == e;
      SplitWithout(e, d);
    } else {
      assert s[1..] == a[1..] + [d] + e;
      SplitAppend(a[1..], e, d);
      var inner := Split(a[1..], d);
      var rest := Split(s[1..], d);
      assert rest == inner + [e];
      if a[0] != d {
        assert rest[0] == inner[0];
        assert rest[1..] == inner[1..] + [e];
      }
    }
  }

  /** A name with a dot gets the lower-cased text after its last dot; a name ending in a dot gets `jpg`; a name without one is its own extension. */
  lemma ExtOf(base: string, e: string)
    requires '.' !in e
    ensures Ext(base + "." + e) == ToLower(if e == [] then "jpg" else e)
    ensures '.' !in base ==> Ext(base) == ToLower(if base == [] then "jpg" else base)
  {
    SplitAppend(base, e, '.');
    if '.' !in base {
      SplitWithout(base, '.');
    }
  }

  /** `${FOLDER}/${productId}`: the folder holding a product's pictures. */
  function ProductDir(productId: string): string {
    Folder + "/" + productId
  }

  /** `${Date.now()}-${i}.${ext}`. */
  function UploadName(stamp: nat, i: nat, fileName: string): string {
    NatToString(stamp) + ("-" + (NatToString(i) + ("." + Ext(fileName))))
  }

  /** `${FOLDER}/${productId}/${Date.now()}-${i}.${ext}`. */
  function UploadPath(productId: string, stamp: nat, i: nat, fileName: string): string {
    ProductDir(productId) + ("/" + UploadName(stamp, i, fileName))
  }

  predicate AllDigits(s: string) {
    forall i :: 0 <= i < |s| ==> IsDigit(s[i])
  }

  /** A run of digits followed by a non-digit is read back unambiguously. */
  lemma DigitsPrefix(a: string, x: string, b: string, y: string)
    requires AllDigits(a) && AllDigits(b)
    requires x != [] && !IsDigit(x[0]) && y != [] && !IsDigit(y[0])
    requires a + x == b + y
    ensures a == b && x == y
  {
    assert |a| == |b| by {
      var k := if |a| < |b| then |a| else |b|;
      CharAt(a, x, k);
      CharAt(b, y, k);
    }
    assert a == (a + x)[..|a|];
    assert b == (b + y)[..|b|];
    assert x == (a + x)[|a|..];
    assert y == (b + y)[|b|..];
  }

  lemma CharAt(a: string, x: string, k: nat)
    requires k <= |a| && x != []
    ensures (a + x)[k] == (if k < |a| then a[k] else x[k - |a|])
  {
  }

  lemma SamePrefix(pre: string, u: string, v: string)
    requires pre + u == pre + v
    ensures u == v
  {
    assert u == (pre + u)[|pre|..];
    assert v == (pre + v)[|pre|..];
  }

  /** Within one product, two uploads with different indexes never share a path, whatever the clock says. */
  lemma UploadPathsDistinct(productId: string, s1: nat, i: nat, n1: string, s2: nat, j: nat, n2: string)
    requires UploadPath(productId, s1, i, n1) == UploadPath(productId, s2, j, n2)
    ensures i == j && s1 == s2
  {
    var x1 := "-" + (NatToString(i) + ("." + Ext(n1)));
    var x2 := "-" + (NatToString(j) + ("." + Ext(n2)));
    SamePrefix(ProductDir(productId), "/" + UploadName(s1, i, n1), "/" + UploadName(s2, j, n2));
    SamePrefix("/", UploadName(s1, i, n1), UploadName(s2, j, n2));
    DigitsPrefix(NatToString(s1), x1, NatToString(s2), x2);
    NatToStringInjective(s1, s2);
    SamePrefix("-", NatToString(i) + ("." + Ext(n1)), NatToString(j) + ("." + Ext(n2)));
    DigitsPrefix(NatToString(i), "." + Ext(n1), NatToString(j), "." + Ext(n2));
    NatToStringInjective(i, j);
  }

  // ---------------------------------------------------------------------------
  // Paths recorded in the product and paths found in its folder
  // ---------------------------------------------------------------------------

  /** `parseCsv(csv).map(urlToPath).filter(Boolean)`. */
  function PathsFromUrls(entries: seq<string>): (r: seq<string>)
    ensures forall i :: 0 <= i < |r| ==> r[i] != []
    ensures |r| <= |entries|
  {
    if entries == [] then []
    else
      var p := UrlToPath(entries[0]);
      (if p.Some? && p.value != [] then [p.value] else []) + PathsFromUrls(entries[1..])
  }

  /** `data.map(f => `${dir}/${f.name}`)`. */
  function InFolder(dir: string, names: seq<string>): (r: seq<string>)
    ensures |r| == |names|
  {
    seq(|names|, i requires 0 <= i < |names| => dir + "/" + names[i])
  }

  lemma InFolderConcat(dir: string, a: seq<string>, b: seq<string>)
    ensures InFolder(dir, a + b) == InFolder(dir, a) + InFolder(dir, b)
  {
  }

  /**
   * The folder listing loop of `removeImagesForProduct`: pages of at most 100
   * names from `offset`, advancing by the page length, until a listing error, an
   * empty page or a short page. `errorAt(k)` says whether the listing call at
   * offset `k` fails.
   */
  method ListFolder(dir: string, names: seq<string>, errorAt: nat -> bool) returns (listed: seq<string>, offset: nat)
    ensures offset <= |names|
    ensures listed == InFolder(dir, names[..offset])
    ensures offset == |names| || errorAt(offset)
    ensures offset % PageSize == 0 || offset == |names|
    ensures forall k :: 0 <= k < offset && k % PageSize == 0 ==> !errorAt(k)
  {
    offset := 0;
    listed := [];
    while true
      invariant offset <= |names| && offset % PageSize == 0
      invariant listed == InFolder(dir, names[..offset])
      invariant forall k :: 0 <= k < offset && k % PageSize == 0 ==> !errorAt(k)
      decreases |names| - offset
    {
      if errorAt(offset) {
        return;
      }
      var end := if offset + PageSize <= |names| then offset + PageSize else |names|;
      var page := names[offset..end];
      if |page| == 0 {
        return;
      }
      InFolderConcat(dir, names[..offset], page);
      assert names[..offset] + page == names[..end];
      listed := listed + InFolder(dir, page);
      offset := offset + |page|;
      if |page| < PageSize {
        return;
      }
    }
  }

  /** `[...new Set(xs)]`: each value once, at its first position. */
  function Dedupe(xs: seq<string>): (r: seq<string>)
    ensures forall x :: x in r <==> x in xs
    ensures forall i, j :: 0 <= i < j < |r| ==> r[i] != r[j]
    ensures |r| <= |xs|
  {
    if xs == [] then []
    else
      var init := Dedupe(xs[..|xs| - 1]);
      var last := xs[|xs| - 1];
      assert forall x :: x in xs <==> x in xs[..|xs| - 1] || x == last by {
        assert xs == xs[..|xs| - 1] + [last];
      }
      if last in init then init else init + [last]
  }

  /** A list without repeats comes through unchanged and in its order. */
  lemma {:induction false} DedupeDistinct(xs: seq<string>)
    requires forall i, j :: 0 <= i < j < |xs| ==> xs[i] != xs[j]
    ensures Dedupe(xs) == xs
  {
    if xs != [] {
      var init := xs[..|xs| - 1];
      DedupeDistinct(init);
      assert xs[|xs| - 1] !in init;
      assert init + [xs[|xs| - 1]] == xs;
    }
  }

  /** Every path recorded in the product or found in its folder is removed, each once. */
  function RemovalSet(csv: string, listed: seq<string>): (r: seq<string>)
    ensures forall x :: x in r <==> x in PathsFromUrls(ParseCsv(csv)) || x in listed
    ensures forall i, j :: 0 <= i < j < |r| ==> r[i] != r[j]
  {
    Dedupe(PathsFromUrls(ParseCsv(csv)) + listed)
  }

  // ---------------------------------------------------------------------------
  // Stored image lists lead back to the uploaded objects
  // ---------------------------------------------------------------------------

  const Unlisted: set<char> := {'?', '#', ','}

  /** No whitespace, query, fragment or list separator: what survives a URL and a comma-separated list. */
  predicate Plain(s: string) {
    forall i :: 0 <= i < |s| ==> !IsSpace(s[i]) && s[i] !in Unlisted
  }

  lemma PlainConcat(a: string, b: string)
    requires Plain(a) && Plain(b)
    ensures Plain(a + b)
  {
    forall i | 0 <= i < |a + b| ensures !IsSpace((a + b)[i]) && (a + b)[i] !in Unlisted {
      if i < |a| { assert (a + b)[i] == a[i]; } else { assert (a + b)[i] == b[i - |a|]; }
    }
  }

  lemma PlainNoneOf(s: string)
    requires Plain(s)
    ensures NoneOf(s, QueryStops) && NoneOf(s, LineTerminators)
  {
  }

  /** The URLs `uploadImages` returns for the planned paths. */
  function PublicUrls(host: string, paths: seq<string>): (r: seq<string>)
    ensures |r| == |paths|
  {
    seq(|paths|, i requires 0 <= i < |paths| => PublicUrl(host, paths[i]))
  }

  lemma PublicUrlIsEntry(host: string, path: string)
    requires Plain(host) && host != []
    requires Plain(path) && path != []
    ensures IsEntry(PublicUrl(host, path))
  {
    var u := PublicUrl(host, path);
    var tail := ObjectPrefix + "public" + "/" + Bucket + "/";
    PlainUrlParts();
    PlainConcat("https://", host);
    PlainConcat("https://" + host, tail);
    PlainConcat("https://" + host + tail, path);
    assert u == "https://" + host + tail + path;
  }

  /**
   * The image list a product is stored with, `urls.join(', ')`, parses back
   * through `parseCsv` and `urlToPath` to exactly the paths that were uploaded,
   * so deleting the product finds every one of them.
   */
  lemma {:induction false} StoredImagesFound(host: string, paths: seq<string>)
    requires Plain(host) && host != [] && NoneOf(host, UrlStops)
    requires forall i :: 0 <= i < |paths| ==> Plain(paths[i]) && paths[i] != []
    ensures PathsFromUrls(ParseCsv(Join(PublicUrls(host, paths), ", "))) == paths
  {
    var urls := PublicUrls(host, paths);
    forall i | 0 <= i < |urls| ensures IsEntry(urls[i]) {
      PublicUrlIsEntry(host, paths[i]);
    }
    ParseCsvOfJoin(urls);
    PathsOfUrls(host, paths);
  }

  lemma {:induction false} PathsOfUrls(host: string, paths: seq<string>)
    requires Plain(host) && host != [] && NoneOf(host, UrlStops)
    requires forall i :: 0 <= i < |paths| ==> Plain(paths[i]) && paths[i] != []
    ensures PathsFromUrls(PublicUrls(host, paths)) == paths
  {
    if paths != [] {
      var urls := PublicUrls(host, paths);
      assert urls[1..] == PublicUrls(host, paths[1..]);
      PathsOfUrls(host, paths[1..]);
      PublicUrlToPath(host, paths[0]);
      PathsFromUrlsCons(urls, paths[0]);
      assert [paths[0]] + paths[1..] == paths;
    }
  }

  lemma PathsFromUrlsCons(entries: seq<string>, path: string)
    requires entries != [] && path != [] && UrlToPath(entries[0]) == Some(path)
    ensures PathsFromUrls(entries) == [path] + PathsFromUrls(entries[1..])
  {
  }

  /** A public URL of the `pictures` bucket gives back its path. */
  lemma PublicUrlToPath(host: string, path: string)
    requires Plain(host) && host != [] && NoneOf(host, UrlStops)
    requires Plain(path) && path != []
    ensures UrlToPath(PublicUrl(host, path)) == Some(path)
  {
    PlainNoneOf(path);
    assert NoneOf(Bucket, UrlStops);
    ObjectUrlToPath(host, "public", Bucket, path);
  }

  lemma PlainDigits(n: nat)
    ensures Plain(NatToString(n))
  {
    var s := NatToString(n);
    forall i | 0 <= i < |s| ensures !IsSpace(s[i]) && s[i] !in Unlisted {
      assert IsDigit(s[i]);
    }
  }

  lemma PlainLower(s: string)
    requires Plain(s)
    ensures Plain(ToLower(s))
  {
    var t := ToLower(s);
    forall i | 0 <= i < |t| ensures !IsSpace(t[i]) && t[i] !in Unlisted {
      assert t[i] == LowerChar(s[i]);
    }
  }

  lemma LastPieceChars(name: string)
    ensures forall c :: c in LastPiece(name) ==> c in name
  {
    var pieces := Split(name, '.');
    JoinSplit(name, '.');
    PieceChars(pieces, '.', |pieces| - 1);
  }

  lemma PlainExt(name: string)
    requires Plain(name)
    ensures Plain(Ext(name))
  {
    var last := LastPiece(name);
    LastPieceChars(name);
    assert Plain(last) by {
      forall i | 0 <= i < |last| ensures !IsSpace(last[i]) && last[i] !in Unlisted {
        assert last[i] in name;
      }
    }
    assert Plain("jpg");
    PlainLower(if last == [] then "jpg" else last);
  }

  /** Every character of a split piece occurs in the joined string. */
  lemma {:induction false} PieceChars(xs: seq<string>, d: char, k: nat)
    requires k < |xs|
    ensures forall c :: c in xs[k] ==> c in Join(xs, [d])
    decreases |xs|
  {
    if |xs| > 1 {
      var rest := Join(xs[1..], [d]);
      assert Join(xs, [d]) == xs[0] + [d] + rest;
      if k > 0 {
        PieceChars(xs[1..], d, k - 1);
        assert xs[1..][k - 1] == xs[k];
      }
    }
  }

  /**
   * Upload paths survive a URL and a stored image list when the product id and
   * the file's extension are plain; the rest of the file name never reaches the path.
   */
  lemma UploadPathPlain(productId: string, stamp: nat, i: nat, fileName: string)
    requires Plain(productId) && Plain(Ext(fileName))
    ensures Plain(UploadPath(productId, stamp, i, fileName)) && UploadPath(productId, stamp, i, fileName) != []
  {
    PlainPathParts();
    UploadNamePlain(stamp, i, fileName);
    PlainConcat(Folder + "/", productId);
    PlainConcat("/", UploadName(stamp, i, fileName));
    PlainConcat(ProductDir(productId), "/" + UploadName(stamp, i, fileName));
  }

  lemma UploadNamePlain(stamp: nat, i: nat, fileName: string)
    requires Plain(Ext(fileName))
    ensures Plain(UploadName(stamp, i, fileName))
  {
    PlainDigits(stamp);
    PlainDigits(i);
    PlainPathParts();
    PlainConcat(".", Ext(fileName));
    PlainConcat(NatToString(i), "." + Ext(fileName));
    PlainConcat("-", NatToString(i) + ("." + Ext(fileName)));
    PlainConcat(NatToString(stamp), "-" + (NatToString(i) + ("." + Ext(fileName))));
  }

  lemma PlainPathParts()
    ensures Plain(Folder + "/") && Plain("/") && Plain("-") && Plain(".")
  {
  }

  lemma PlainUrlParts()
    ensures Plain("https://") && Plain(ObjectPrefix + "public" + "/" + Bucket + "/")
  {
    PlainWord("https://");
    PlainWord(ObjectPrefix);
    PlainWord("public/");
    PlainWord(Bucket + "/");
    assert ObjectPrefix + "public" + "/" + Bucket + "/" == ObjectPrefix + "public/" + (Bucket + "/");
    PlainConcat(ObjectPrefix, "public/");
    PlainConcat(ObjectPrefix + "public/", Bucket + "/");
  }

  /** A literal made of ASCII letters, digits and the URL punctuation `:/.-` is plain. */
  lemma PlainWord(w: string)
    requires forall i :: 0 <= i < |w| ==> 'a' <= w[i] <= 'z' || '0' <= w[i] <= '9' || w[i] in ":/.-"
    ensures Plain(w)
  {
  }

  // ---------------------------------------------------------------------------
  // The add-product form
  // ---------------------------------------------------------------------------

  /** The value of a run of decimal digits. */
  function DigitsValue(ds: string): nat
    requires AllDigits(ds)
  {
    if ds == [] then 0 else DigitsValue(ds[..|ds| - 1]) * 10 + (ds[|ds| - 1] as int - '0' as int)
  }

  /** The longest prefix of decimal digits. */
  function TakeDigits(s: string): (r: string)
    ensures |r| <= |s| && r == s[..|r|] && AllDigits(r)
    ensures |r| < |s| ==> !IsDigit(s[|r|])
  {
    if s == [] || !IsDigit(s[0]) then [] else [s[0]] + TakeDigits(s[1..])
  }

  /** `parseInt(s, 10)`: leading whitespace, an optional sign, then the longest run of digits; `None` stands for NaN. */
  function ParseInt(s: string): Option<int>
  {
    ParseSigned(TrimStart(s))
  }

  /** The sign and digits that follow the leading whitespace. */
  function ParseSigned(t: string): Option<int>
  {
    var signed := t != [] && (t[0] == '-' || t[0] == '+');
    var ds := TakeDigits(if signed then t[1..] else t);
    if ds == [] then None
    else
      var v: int := DigitsValue(ds);
      if signed && t[0] == '-' then Some(-v) else Some(v)
  }

  lemma {:induction false} DigitsValueOf(n: nat)
    ensures DigitsValue(NatToString(n)) == n
  {
    if n >= 10 {
      DigitsValueOf(n / 10);
      var s := NatToString(n);
      assert s[..|s| - 1] == NatToString(n / 10);
    }
  }

  lemma {:induction false} TakeDigitsOf(ds: string, rest: string)
    requires AllDigits(ds)
    requires rest == [] || !IsDigit(rest[0])
    ensures TakeDigits(ds + rest) == ds
  {
    if ds == [] {
      assert ds + rest == rest;
    } else {
      assert (ds + rest)[1..] == ds[1..] + rest;
      TakeDigitsOf(ds[1..], rest);
      assert [ds[0]] + ds[1..] == ds;
    }
  }

  lemma ParseIntDigits(ds: string, rest: string)
    requires ds != [] && AllDigits(ds)
    requires rest == [] || !IsDigit(rest[0])
    ensures ParseInt(ds + rest) == Some(DigitsValue(ds) as int)
  {
    NoLeadingSpace(ds + rest);
    ParseSignedDigits(ds, rest);
  }

  lemma ParseIntNegative(ds: string, rest: string)
    requires ds != [] && AllDigits(ds)
    requires rest == [] || !IsDigit(rest[0])
    ensures ParseInt("-" + ds + rest) == Some(-(DigitsValue(ds) as int))
  {
    NoLeadingSpace("-" + ds + rest);
    ParseSignedNegative(ds, rest);
  }

  lemma NoLeadingSpace(s: string)
    requires s != [] && (s[0] == '-' || IsDigit(s[0]))
    ensures TrimStart(s) == s
  {
  }

  lemma ParseSignedDigits(ds: string, rest: string)
    requires ds != [] && AllDigits(ds)
    requires rest == [] || !IsDigit(rest[0])
    ensures ParseSigned(ds + rest) == Some(DigitsValue(ds) as int)
  {
    TakeDigitsOf(ds, rest);
  }

  lemma ParseSignedNegative(ds: string, rest: string)
    requires ds != [] && AllDigits(ds)
    requires rest == [] || !IsDigit(rest[0])
    ensures ParseSigned("-" + ds + rest) == Some(-(DigitsValue(ds) as int))
  {
    var m := "-" + ds + rest;
    assert m[0] == '-' && m[1..] == ds + rest;
    TakeDigitsOf(ds, rest);
    ParseSignedMinus(m, ds);
  }

  lemma ParseSignedMinus(t: string, ds: string)
    requires ds != [] && AllDigits(ds)
    requires t != [] && t[0] == '-' && TakeDigits(t[1..]) == ds
    ensures ParseSigned(t) == Some(-(DigitsValue(ds) as int))
  {
  }

  /** A number as the form shows it reads back as that number, whatever non-digit text follows it. */
  lemma ParseIntOf(n: nat, rest: string)
    requires rest == [] || !IsDigit(rest[0])
    ensures ParseInt(NatToString(n) + rest) == Some(n)
    ensures ParseInt("-" + NatToString(n) + rest) == Some(-(n as int))
  {
    DigitsValueOf(n);
    ParseIntDigits(NatToString(n), rest);
    ParseIntNegative(NatToString(n), rest);
  }

  /** What the form fields hold; the price has already gone through `parseFloat`, in cents, with `None` for NaN. */
  datatype FormInput = FormInput(name: string, itemType: string, stock: string, price: Option<int>)

  datatype FormError = MissingNameOrType | BadStock | BadPrice

  /** The trimmed name and type and the parsed stock and price of an accepted form. */
  datatype ProductFields = ProductFields(name: string, itemType: string, stock: int, price: int)

  /** `parseInt(value || '0', 10)`. */
  function StockOf(raw: string): Option<int> {
    ParseInt(if raw == [] then "0" else raw)
  }

  /** The submit handler's checks, in their order: name and type, then stock, then price. */
  function ValidateForm(f: FormInput): Result<ProductFields, FormError> {
    CheckFields(Trim(f.name), Trim(f.itemType), StockOf(f.stock), f.price)
  }

  function CheckFields(name: string, itemType: string, stock: Option<int>, price: Option<int>): Result<ProductFields, FormError> {
    if name == [] || itemType == [] then Err(MissingNameOrType)
    else if stock.None? || stock.value < 0 then Err(BadStock)
    else if price.None? || price.value < 0 then Err(BadPrice)
    else Ok(ProductFields(name, itemType, stock.value, price.value))
  }

  /**
   * A form is accepted exactly when the trimmed name and type are non-empty and the
   * stock and price are numbers of at least 0; each failed check has its own
   * error, and an accepted form keeps the trimmed text and the parsed numbers.
   */
  lemma ValidateFormSpec(f: FormInput)
    ensures ValidateForm(f).Ok? <==>
      Trim(f.name) != [] && Trim(f.itemType) != [] &&
      StockOf(f.stock).Some? && StockOf(f.stock).value >= 0 &&
      f.price.Some? && f.price.value >= 0
    ensures ValidateForm(f) == Err(MissingNameOrType) <==> Trim(f.name) == [] || Trim(f.itemType) == []
    ensures ValidateForm(f) == Err(BadStock) <==>
      Trim(f.name) != [] && Trim(f.itemType) != [] && (StockOf(f.stock).None? || StockOf(f.stock).value < 0)
    ensures ValidateForm(f).Ok? ==>
      ValidateForm(f).value == ProductFields(Trim(f.name), Trim(f.itemType), StockOf(f.stock).value, f.price.value)
  {
    CheckFieldsSpec(Trim(f.name), Trim(f.itemType), StockOf(f.stock), f.price);
  }

  lemma CheckFieldsSpec(name: string, itemType: string, stock: Option<int>, price: Option<int>)
    ensures CheckFields(name, itemType, stock, price).Ok? <==>
      name != [] && itemType != [] && stock.Some? && stock.value >= 0 && price.Some? && price.value >= 0
    ensures CheckFields(name, itemType, stock, price) == Err(MissingNameOrType) <==> name == [] || itemType == []
    ensures CheckFields(name, itemType, stock, price) == Err(BadStock) <==>
      name != [] && itemType != [] && (stock.None? || stock.value < 0)
    ensures CheckFields(name, itemType, stock, price).Ok? ==>
      CheckFields(name, itemType, stock, price).value == ProductFields(name, itemType, stock.value, price.value)
  {
  }

  /** An empty stock field counts as zero, so it passes. */
  lemma EmptyStockIsZero()
    ensures StockOf("") == Some(0)
  {
    ParseIntOf(0, "");
    assert NatToString(0) + "" == "0";
  }

  // ---------------------------------------------------------------------------
  // The panel
  // ---------------------------------------------------------------------------

  /** A file handed to the drop zone or the picker: its name and MIME type. */
  datatype FileInfo = FileInfo(name: string, mime: string)

  /** A row of the `products` table as the panel writes it; prices in cents. */
  datatype ProductRow = ProductRow(name: string, itemType: string, imageUrls: string, stock: int, price: int)

  datatype StorageError = UploadFailed
  datatype DbError = DeleteFailed
  datatype SubmitError = Invalid(reason: FormError) | UploadError | InsertError

  function IsImage(f: FileInfo): bool {
    StartsWith(f.mime, "image/")
  }

  /** The paths `uploadImages` gives the selected files, one per file, in order. */
  function PlannedPaths(productId: string, clock: nat -> nat, files: seq<FileInfo>): (r: seq<string>)
    ensures |r| == |files|
  {
    seq(|files|, i requires 0 <= i < |files| => UploadPath(productId, clock(i), i, files[i].name))
  }

  /** The planned paths of one upload are pairwise distinct. */
  lemma PlannedPathsDistinct(productId: string, clock: nat -> nat, files: seq<FileInfo>)
    ensures forall i, j :: 0 <= i < j < |files| ==>
      PlannedPaths(productId, clock, files)[i] != PlannedPaths(productId, clock, files)[j]
  {
    var ps := PlannedPaths(productId, clock, files);
    forall i, j | 0 <= i < j < |files| ensures ps[i] != ps[j] {
      if ps[i] == ps[j] {
        UploadPathsDistinct(productId, clock(i), i, files[i].name, clock(j), j, files[j].name);
      }
    }
  }

  /** The index of the first failing call among `n`, or `n` when none fails. */
  function FirstFailure(failAt: nat -> bool, n: nat): (k: nat)
    ensures k <= n
    ensures forall j :: 0 <= j < k ==> !failAt(j)
    ensures k < n ==> failAt(k)
  {
    if n == 0 then 0
    else
      var k := FirstFailure(failAt, n - 1);
      if k < n - 1 then k else if failAt(n - 1) then n - 1 else n
  }

  function Elems(xs: seq<string>): set<string> {
    set x | x in xs
  }

  /**
   * The panel's module state (`selectedFiles`) together with the remote state it
   * changes: the objects of the `pictures` bucket and the `products` table.
   */
  class Panel {
    var selected: seq<FileInfo>
    var objects: set<string>
    var products: map<string, ProductRow>

    constructor (objs: set<string>, rows: map<string, ProductRow>)
      ensures selected == [] && objects == objs && products == rows
    {
      selected, objects, products := [], objs, rows;
    }

    /** `acceptFiles`: the image files among those dropped or picked join the selection, after what is there. */
    method AcceptFiles(files: seq<FileInfo>)
      modifies this`selected
      ensures selected == old(selected) + Seqs.Filter(files, IsImage)
    {
      selected := selected + Seqs.Filter(files, IsImage);
    }

    /** The preview's remove button: `selectedFiles.splice(idx, 1)`. */
    method RemovePreview(idx: nat)
      modifies this`selected
      ensures idx < |old(selected)| ==> selected == old(selected)[..idx] + old(selected)[idx + 1..]
      ensures idx >= |old(selected)| ==> selected == old(selected)
      ensures |selected| == if idx < |old(selected)| then |old(selected)| - 1 else |old(selected)|
    {
      if idx < |selected| {
        selected := selected[..idx] + selected[idx + 1..];
      }
    }

    /**
     * `uploadImages(productId)`: each selected file is uploaded under its planned
     * path and its public URL collected, in order; the first failed upload ends the
     * loop with an error, leaving the files uploaded before it in the bucket.
     */
    method UploadImages(productId: string, host: string, clock: nat -> nat, failAt: nat -> bool)
      returns (r: Result<seq<string>, StorageError>)
      modifies this`objects
      ensures objects == old(objects) + Elems(PlannedPaths(productId, clock, selected)[..FirstFailure(failAt, |selected|)])
      ensures r.Ok? <==> FirstFailure(failAt, |selected|) == |selected|
      ensures r.Ok? ==> r.value == PublicUrls(host, PlannedPaths(productId, clock, selected))
    {
      r := UploadAll(PlannedPaths(productId, clock, selected), host, failAt);
    }

    /** The loop of `uploadImages` over the planned paths. */
    method UploadAll(planned: seq<string>, host: string, failAt: nat -> bool)
      returns (r: Result<seq<string>, StorageError>)
      modifies this`objects
      ensures objects == old(objects) + Elems(planned[..FirstFailure(failAt, |planned|)])
      ensures r.Ok? <==> FirstFailure(failAt, |planned|) == |planned|
      ensures r.Ok? ==> r.value == PublicUrls(host, planned)
    {
      var urls: seq<string> := [];
      for i := 0 to |planned|
        invariant objects == old(objects) + Elems(planned[..i])
        invariant forall j :: 0 <= j < i ==> !failAt(j)
        invariant urls == PublicUrls(host, planned[..i])
      {
        if failAt(i) {
          FirstFailureAt(failAt, |planned|, i);
          return Err(UploadFailed);
        }
        ExtendUpload(host, planned, i);
        objects := objects + {planned[i]};
        urls := urls + [PublicUrl(host, planned[i])];
      }
      FirstFailureNone(failAt, |planned|);
      assert planned[..|planned|] == planned;
      r := Ok(urls);
    }

    /**
     * `removeImagesForProduct`: the paths recorded in the product's image list and
     * the files listed in its folder are removed together, each once; nothing is
     * removed when there are none. `removeFails` says whether the removal call throws.
     */
    method RemoveImagesForProduct(productId: string, csv: string, folder: seq<string>, errorAt: nat -> bool, removeFails: bool)
      returns (paths: seq<string>, listed: seq<string>)
      modifies this`objects
      ensures exists n: nat :: ListedUpTo(folder, errorAt, n) && listed == InFolder(ProductDir(productId), folder[..n])
      ensures paths == RemovalSet(csv, listed)
      ensures paths == [] || removeFails ==> objects == old(objects)
      ensures paths != [] && !removeFails ==> objects == old(objects) - Elems(paths)
    {
      var fromUrls := PathsFromUrls(ParseCsv(csv));
      var offset;
      listed, offset := ListFolder(ProductDir(productId), folder, errorAt);
      paths := Dedupe(fromUrls + listed);
      if |paths| > 0 && !removeFails {
        objects := objects - Elems(paths);
      }
    }

    /**
     * `deleteProductById`: the product's images go first, with any failure there
     * ignored; then the row is deleted. Deleting an id with no row succeeds.
     */
    method DeleteProductById(id: string, folder: seq<string>, errorAt: nat -> bool, removeFails: bool, deleteFails: bool)
      returns (r: Result<(), DbError>)
      modifies this`objects, this`products
      ensures var csv := if id in old(products) then old(products)[id].imageUrls else "";
        exists n: nat :: ListedUpTo(folder, errorAt, n) &&
          var removal := RemovalSet(csv, InFolder(ProductDir(id), folder[..n]));
          objects == (if removal == [] || removeFails then old(objects) else old(objects) - Elems(removal))
      ensures r.Ok? <==> !deleteFails
      ensures r.Ok? ==> products == old(products) - {id} && id !in products
      ensures r.Err? ==> products == old(products)
    {
      var csv := if id in products then products[id].imageUrls else "";
      var paths, listed := RemoveImagesForProduct(id, csv, folder, errorAt, removeFails);
      ghost var n: nat :| ListedUpTo(folder, errorAt, n) && listed == InFolder(ProductDir(id), folder[..n]);
      if deleteFails {
        return Err(DeleteFailed);
      }
      products := products - {id};
      r := Ok(());
    }

    /**
     * The product form's submit handler: validation first, changing nothing when it
     * fails; then the selected images are uploaded; then the row is inserted with
     * the URLs joined by ", ". An insert that fails (or an id already taken) leaves
     * the uploaded files in the bucket. Success clears the selection.
     */
    method Submit(f: FormInput, productId: string, host: string, clock: nat -> nat, failAt: nat -> bool, insertFails: bool)
      returns (r: Result<ProductRow, SubmitError>)
      modifies this`selected, this`objects, this`products
      ensures ValidateForm(f).Err? ==> r == Err(Invalid(ValidateForm(f).error)) && objects == old(objects)
      ensures ValidateForm(f).Ok? ==> objects == old(objects) + Elems(PlannedPaths(productId, clock, old(selected))[..FirstFailure(failAt, |old(selected)|)])
      ensures r.Ok? <==>
        ValidateForm(f).Ok? && FirstFailure(failAt, |old(selected)|) == |old(selected)| && !insertFails && productId !in old(products)
      ensures r.Ok? ==> r.value == RowOf(ValidateForm(f).value, PublicUrls(host, PlannedPaths(productId, clock, old(selected))))
      ensures r.Ok? ==> products == old(products)[productId := r.value] && selected == []
      ensures r.Err? ==> products == old(products) && selected == old(selected)
    {
      var v := ValidateForm(f);
      if v.Err? {
        return Err(Invalid(v.error));
      }
      var up := UploadImages(productId, host, clock, failAt);
      if up.Err? {
        return Err(UploadError);
      }
      r := InsertProduct(productId, RowOf(v.value, up.value), insertFails);
    }

    /** The insert that ends a submit: a failure or a taken id changes nothing; success clears the selection. */
    method InsertProduct(productId: string, row: ProductRow, insertFails: bool) returns (r: Result<ProductRow, SubmitError>)
      modifies this`selected, this`products
      ensures r.Ok? <==> !insertFails && productId !in old(products)
      ensures r.Ok? ==> r.value == row && products == old(products)[productId := row] && selected == []
      ensures r.Err? ==> r == Err(InsertError) && products == old(products) && selected == old(selected)
    {
      if insertFails || productId in products {
        return Err(InsertError);
      }
      products := products[productId := row];
      selected := [];
      r := Ok(row);
    }
  }

  /** The row the submit handler inserts: the accepted fields and the uploaded images' URLs as one list. */
  function RowOf(v: ProductFields, urls: seq<string>): ProductRow {
    ProductRow(v.name, v.itemType, Join(urls, ", "), v.stock, v.price)
  }

  /**
   * Every file the submit handler uploaded is found again, through the row's image
   * list alone, when the product is deleted: none is left behind in the bucket.
   */
  lemma SubmittedImagesRemoved(v: ProductFields, host: string, productId: string, clock: nat -> nat, files: seq<FileInfo>, listed: seq<string>)
    requires Plain(host) && host != [] && NoneOf(host, UrlStops)
    requires Plain(productId) && forall i :: 0 <= i < |files| ==> Plain(Ext(files[i].name))
    ensures var planned := PlannedPaths(productId, clock, files);
      Elems(planned) <= Elems(RemovalSet(RowOf(v, PublicUrls(host, planned)).imageUrls, listed))
  {
    var planned := PlannedPaths(productId, clock, files);
    forall i | 0 <= i < |planned| ensures Plain(planned[i]) && planned[i] != [] {
      UploadPathPlain(productId, clock(i), i, files[i].name);
    }
    StoredImagesFound(host, planned);
  }

  /** The folder listing stopped after `n` names: at the end, or at the first failing page. */
  predicate ListedUpTo(folder: seq<string>, errorAt: nat -> bool, n: nat) {
    && n <= |folder|
    && (n == |folder| || errorAt(n))
    && (n % PageSize == 0 || n == |folder|)
    && (forall k :: 0 <= k < n && k % PageSize == 0 ==> !errorAt(k))
  }

  lemma ExtendUpload(host: string, planned: seq<string>, i: nat)
    requires i < |planned|
    ensures Elems(planned[..i + 1]) == Elems(planned[..i]) + {planned[i]}
    ensures PublicUrls(host, planned[..i + 1]) == PublicUrls(host, planned[..i]) + [PublicUrl(host, planned[i])]
  {
    assert planned[..i + 1] == planned[..i] + [planned[i]];
  }

  lemma FirstFailureAt(failAt: nat -> bool, n: nat, i: nat)
    requires i < n && failAt(i) && forall j :: 0 <= j < i ==> !failAt(j)
    ensures FirstFailure(failAt, n) == i
  {
  }

  lemma FirstFailureNone(failAt: nat -> bool, n: nat)
    requires forall j :: 0 <= j < n ==> !failAt(j)
    ensures FirstFailure(failAt, n) == n
  {
  }
}
