/** The cache file name: the API URL with every "/", then every ":", then
    every "https" deleted, placed in the cache directory with a suffix that
    names the kind of data. */
module CachePath {

  /** Deletes every occurrence of `pattern` from `s`, scanning left to right
      without overlap, as PHP's str_replace does with an empty replacement.
      An empty pattern leaves `s` as it is. */
  function RemoveAll(s: string, pattern: string): (r: string)
    ensures |r| <= |s|
    ensures multiset(r) <= multiset(s)
    decreases |s|
  {
    if pattern == [] || |s| < |pattern| then s
    else
      assert s == s[..|pattern|] + s[|pattern|..] && s == [s[0]] + s[1..];
      if s[..|pattern|] == pattern then RemoveAll(s[|pattern|..], pattern)
      else [s[0]] + RemoveAll(s[1..], pattern)
  }

  /** The host part of the cache file name. */
  function Sanitize(apiUrl: string): (r: string)
    ensures |r| <= |apiUrl|
    ensures multiset(r) <= multiset(apiUrl)
  {
    RemoveAll(RemoveAll(RemoveAll(apiUrl, "/"), ":"), "https")
  }

  datatype CacheKind = CustomersCache | OrdersCache

  function Suffix(kind: CacheKind): string
  {
    match kind
    case CustomersCache => "_customers.json"
    case OrdersCache => "_orders.json"
  }

  /** The path of the cache file for one kind of data. */
  function CacheFile(cachedDataPath: string, apiUrl: string, kind: CacheKind): (p: string)
    ensures |p| == |cachedDataPath| + 1 + |Sanitize(apiUrl)| + |Suffix(kind)|
    ensures cachedDataPath <= p
  {
    cachedDataPath + "/" + Sanitize(apiUrl) + Suffix(kind)
  }

  /** Deleting a single character removes every copy of it and keeps every
      other character with its multiplicity. */
  lemma {:induction false} RemoveCharSpec(s: string, c: char)
    ensures c !in RemoveAll(s, [c])
    ensures forall d :: d != c ==> multiset(RemoveAll(s, [c]))[d] == multiset(s)[d]
    decreases |s|
  {
    if |s| >= 1 {
      assert s == [s[0]] + s[1..];
      RemoveCharSpec(s[1..], c);
      if s[..1] == [c] {
        assert s[0] == c;
      } else {
        assert s[0] != c;
      }
    }
  }

  /** A character absent from the input is absent from the output. */
  lemma RemoveAllKeepsAbsent(s: string, pattern: string, c: char)
    requires c !in s
    ensures c !in RemoveAll(s, pattern)
  {
  }

  /** The host part holds no path separator and no colon. */
  lemma SanitizeHasNoSeparators(apiUrl: string)
    ensures '/' !in Sanitize(apiUrl) && ':' !in Sanitize(apiUrl)
    ensures multiset(Sanitize(apiUrl)) <= multiset(apiUrl)
  {
    var a := RemoveAll(apiUrl, "/");
    var b := RemoveAll(a, ":");
    RemoveCharSpec(apiUrl, '/');
    RemoveCharSpec(a, ':');
    RemoveAllKeepsAbsent(a, ":", '/');
    RemoveAllKeepsAbsent(b, "https", '/');
    RemoveAllKeepsAbsent(b, "https", ':');
  }

  lemma SuffixHasNoSeparator(kind: CacheKind)
    ensures '/' !in Suffix(kind)
  {
    if kind == CustomersCache {
      assert Suffix(kind) == ['_', 'c', 'u', 's', 't', 'o', 'm', 'e', 'r', 's', '.', 'j', 's', 'o', 'n'];
    } else {
      assert Suffix(kind) == ['_', 'o', 'r', 'd', 'e', 'r', 's', '.', 'j', 's', 'o', 'n'];
    }
  }

  /** The cache file sits directly inside the cache directory: after
      `cachedDataPath + "/"` no further "/" occurs, and the name ends in the
      kind's suffix. */
  lemma CacheFileInDirectory(cachedDataPath: string, apiUrl: string, kind: CacheKind)
    ensures var p := CacheFile(cachedDataPath, apiUrl, kind);
      && p[..|cachedDataPath| + 1] == cachedDataPath + "/"
      && '/' !in p[|cachedDataPath| + 1..]
      && p[|p| - |Suffix(kind)|..] == Suffix(kind)
  {
    SanitizeHasNoSeparators(apiUrl);
    SuffixHasNoSeparator(kind);
    JoinedUnderDirectory(cachedDataPath, Sanitize(apiUrl), Suffix(kind));
  }

  lemma JoinedUnderDirectory(dir: string, host: string, suffix: string)
    requires '/' !in host && '/' !in suffix
    ensures var p := dir + "/" + host + suffix;
      && p[..|dir| + 1] == dir + "/"
      && '/' !in p[|dir| + 1..]
      && p[|p| - |suffix|..] == suffix
  {
    var p := dir + "/" + host + suffix;
    assert p == (dir + "/") + (host + suffix);
    assert p[|dir| + 1..] == host + suffix;
    assert p == (dir + "/" + host) + suffix;
  }

  /** The customers file and the orders file of one endpoint never coincide. */
  lemma CacheFilesDistinct(cachedDataPath: string, apiUrl: string)
    ensures CacheFile(cachedDataPath, apiUrl, CustomersCache) != CacheFile(cachedDataPath, apiUrl, OrdersCache)
  {
    assert |CacheFile(cachedDataPath, apiUrl, CustomersCache)| == |cachedDataPath| + 1 + |Sanitize(apiUrl)| + 15;
    assert |CacheFile(cachedDataPath, apiUrl, OrdersCache)| == |cachedDataPath| + 1 + |Sanitize(apiUrl)| + 12;
  }

  /** `pattern` occurs in `s` starting at index i. */
  predicate OccursAt(s: string, pattern: string, i: int)
  {
    0 <= i && i + |pattern| <= |s| && s[i..i + |pattern|] == pattern
  }

  /** A string in which the pattern never occurs is left as it is. */
  lemma {:induction false} RemoveAllAbsent(s: string, pattern: string)
    requires forall i :: !OccursAt(s, pattern, i)
    ensures RemoveAll(s, pattern) == s
    decreases |s|
  {
    if pattern != [] && |s| >= |pattern| {
      assert !OccursAt(s, pattern, 0);
      assert s[..|pattern|] != pattern;
      forall i ensures !OccursAt(s[1..], pattern, i) {
        if OccursAt(s[1..], pattern, i) {
          assert s[1..][i..i + |pattern|] == s[i + 1..i + 1 + |pattern|];
          assert OccursAt(s, pattern, i + 1);
        }
      }
      RemoveAllAbsent(s[1..], pattern);
      assert s == [s[0]] + s[1..];
    }
  }

  /** A one-character pattern occurs only where the character does. */
  lemma AbsentChar(s: string, c: char)
    requires c !in s
    ensures forall i :: !OccursAt(s, [c], i)
  {
    forall i ensures !OccursAt(s, [c], i) {
      if 0 <= i && i + 1 <= |s| {
        assert s[i..i + 1] == [s[i]];
        assert s[i] in s;
      }
    }
  }

  /** A leading occurrence of a non-empty pattern is deleted. */
  lemma RemoveAllLeading(pattern: string, rest: string)
    requires pattern != []
    ensures RemoveAll(pattern + rest, pattern) == RemoveAll(rest, pattern)
  {
    var s := pattern + rest;
    assert s[..|pattern|] == pattern;
    assert s[|pattern|..] == rest;
  }

  /** A first character other than `c` is kept when deleting `c`. */
  lemma KeepsHead(head: char, rest: string, c: char)
    requires head != c
    ensures RemoveAll([head] + rest, [c]) == [head] + RemoveAll(rest, [c])
  {
    var s := [head] + rest;
    assert s[..1] == [head] && s[1..] == rest;
  }

  /** Characters other than `c` in front are kept when deleting `c`. */
  lemma {:induction false} RemoveCharKeepsPrefix(x: string, rest: string, c: char)
    requires c !in x
    ensures RemoveAll(x + rest, [c]) == x + RemoveAll(rest, [c])
    decreases |x|
  {
    if x != [] {
      assert x[0] in x;
      assert x + rest == [x[0]] + (x[1..] + rest);
      KeepsHead(x[0], x[1..] + rest, c);
      RemoveCharKeepsPrefix(x[1..], rest, c);
      assert x == [x[0]] + x[1..];
      assert [x[0]] + (x[1..] + RemoveAll(rest, [c])) == x + RemoveAll(rest, [c]);
    } else {
      assert x + rest == rest;
      assert x + RemoveAll(rest, [c]) == RemoveAll(rest, [c]);
    }
  }

  /** The two slashes after the scheme go. */
  lemma StripDoubleSlash(host: string)
    requires '/' !in host
    ensures RemoveAll("//" + host, "/") == host
  {
    AbsentChar(host, '/');
    RemoveAllAbsent(host, "/");
    assert "//" + host == "/" + ("/" + host);
    RemoveAllLeading("/", "/" + host);
    RemoveAllLeading("/", host);
  }

  /** First step on an "https://" URL: both slashes go. */
  lemma StripSlashes(host: string)
    requires '/' !in host
    ensures RemoveAll("https://" + host, "/") == "https:" + host
  {
    StripDoubleSlash(host);
    assert "https://" + host == "https:" + ("//" + host);
    RemoveCharKeepsPrefix("https:", "//" + host, '/');
  }

  /** Second step: the colon goes. */
  lemma StripColon(host: string)
    requires ':' !in host
    ensures RemoveAll("https:" + host, ":") == "https" + host
  {
    AbsentChar(host, ':');
    RemoveAllAbsent(host, ":");
    assert "https:" + host == "https" + (":" + host);
    RemoveCharKeepsPrefix("https", ":" + host, ':');
    RemoveAllLeading(":", host);
  }

  /** Third step: the scheme name goes. */
  lemma StripScheme(host: string)
    requires forall i :: !OccursAt(host, "https", i)
    ensures RemoveAll("https" + host, "https") == host
  {
    RemoveAllLeading("https", host);
    RemoveAllAbsent(host, "https");
  }

  /** An "https://" URL whose host holds no "/", ":" or "https" sanitizes to
      its host. */
  lemma SanitizeHttpsUrl(host: string)
    requires '/' !in host && ':' !in host
    requires forall i :: !OccursAt(host, "https", i)
    ensures Sanitize("https://" + host) == host
  {
    StripSlashes(host);
    StripColon(host);
    StripScheme(host);
  }
}
