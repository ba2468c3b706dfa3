/**
 * The part of Python's `urllib.parse.urlparse` that the bot reads: the
 * network location (`netloc`) of a URL. `None` stands for the `ValueError`
 * that `urlparse` raises on an unbalanced `[`/`]` in the network location.
 */
module Urls {
  import opened Wrappers
  import opened Text

  /** WHATWG "C0 control or space": U+0000 to U+0020, stripped from the front. */
  const C0OrSpace: set<char> := set c: char | c <= ' '

  /** Tab, carriage return and line feed, deleted everywhere in the URL. */
  const UnsafeBytes: set<char> := {'\t', '\r', '\n'}

  /** Characters allowed in a scheme (`urllib.parse.scheme_chars`). */
  const SchemeChars: set<char> :=
    set c: char | 'a' <= c <= 'z' || 'A' <= c <= 'Z' || '0' <= c <= '9' || c == '+' || c == '-' || c == '.'

  /** The characters that end the network location. */
  const NetlocDelims: set<char> := {'/', '?', '#'}

  /** Characters a plain host name is made of. */
  predicate IsHostChar(c: char) { 'a' <= c <= 'z' || '0' <= c <= '9' || c == '.' || c == '-' }

  /** `s` with every character of `cs` deleted. */
  function RemoveChars(s: string, cs: set<char>): (r: string)
    ensures forall i :: 0 <= i < |r| ==> r[i] !in cs
    ensures (forall c :: c in s ==> c !in cs) ==> r == s
  {
    if |s| == 0 then []
    else
      var rest := RemoveChars(s[1..], cs);
      assert forall c :: c in s[1..] ==> c in s;
      if s[0] in cs then rest else [s[0]] + rest
  }

  /** Python's `s.find(c)`: the first index of `c`, or -1. */
  function Find(s: string, c: char): (i: int)
    ensures -1 <= i < |s|
    ensures i == -1 <==> c !in s
    ensures i != -1 ==> s[i] == c && forall k :: 0 <= k < i ==> s[k] != c
  {
    if |s| == 0 then -1
    else if s[0] == c then 0
    else
      var j := Find(s[1..], c);
      assert c in s[1..] ==> c in s;
      assert c in s ==> s[0] == c || c in s[1..];
      if j == -1 then -1 else j + 1
  }

  /** The first index of a character of `cs`, or `|s|` when there is none. */
  function FirstOf(s: string, cs: set<char>): (i: nat)
    ensures i <= |s|
    ensures forall k :: 0 <= k < i ==> s[k] !in cs
    ensures i < |s| ==> s[i] in cs
  {
    if |s| == 0 || s[0] in cs then 0 else FirstOf(s[1..], cs) + 1
  }

  /** What `urlsplit` keeps after removing a valid `scheme:` prefix. */
  function AfterScheme(url: string): string {
    var i := Find(url, ':');
    if i > 0 && IsAsciiLetter(url[0]) && AllIn(url[..i], SchemeChars) then url[i + 1..] else url
  }

  /** The URL after the leading C0/space strip and the tab/CR/LF deletion. */
  function CleanUrl(url: string): string {
    RemoveChars(StripLeft(url, C0OrSpace), UnsafeBytes)
  }

  /** The network location of what follows the scheme: the part after `//` up to a delimiter. */
  function SplitNetloc(rest: string): (r: Option<string>)
    ensures r.Some? ==> forall k :: 0 <= k < |r.value| ==> r.value[k] !in NetlocDelims
  {
    if |rest| >= 2 && rest[..2] == "//" then
      var tail := rest[2..];
      var netloc := tail[..FirstOf(tail, NetlocDelims)];
      if ('[' in netloc) != (']' in netloc) then None else Some(netloc)
    else Some("")
  }

  /** `urlparse(url).netloc`, or `None` where `urlparse` raises. */
  function Netloc(url: string): (r: Option<string>)
    ensures r.Some? ==> forall k :: 0 <= k < |r.value| ==> r.value[k] !in NetlocDelims
  {
    SplitNetloc(AfterScheme(CleanUrl(url)))
  }

  /** `Find` returns the index of the first occurrence, wherever it is known to be. */
  lemma FindAt(s: string, c: char, k: nat)
    requires k < |s| && s[k] == c
    requires forall j :: 0 <= j < k ==> s[j] != c
    ensures Find(s, c) == k
  {
    assert c in s;
  }

  /** No character of `cs` in `s` means `FirstOf` runs to the end. */
  lemma FirstOfNone(s: string, cs: set<char>)
    requires forall c :: c in s ==> c !in cs
    ensures FirstOf(s, cs) == |s|
  {
    if |s| > 0 {
      assert forall c :: c in s[1..] ==> c in s;
      FirstOfNone(s[1..], cs);
    }
  }

  /** A valid scheme followed by `:` is recognised and removed. */
  lemma AfterValidScheme(scheme: string, rest: string)
    requires |scheme| > 0 && IsAsciiLetter(scheme[0])
    requires AllIn(scheme, SchemeChars) && ':' !in scheme
    ensures AfterScheme(scheme + ":" + rest) == rest
  {
    var url := scheme + ":" + rest;
    assert url[|scheme|] == ':';
    assert forall j :: 0 <= j < |scheme| ==> url[j] == scheme[j];
    FindAt(url, ':', |scheme|);
    assert url[..|scheme|] == scheme;
    assert url[|scheme| + 1..] == rest;
  }

  /** The scheme prefix `http:` or `https:` is recognised and removed. */
  lemma AfterHttpScheme(scheme: string, rest: string)
    requires scheme == "http" || scheme == "https"
    ensures AfterScheme(scheme + ":" + rest) == rest
  {
    assert AllIn(scheme, SchemeChars);
    AfterValidScheme(scheme, rest);
  }

  lemma PlainUrlIsSafe(scheme: string, host: string)
    requires scheme == "http" || scheme == "https"
    requires forall c :: c in host ==> IsHostChar(c)
    ensures forall c :: c in scheme + ":" + ("//" + host) ==> c !in UnsafeBytes
  {
    forall c | c in scheme + ":" + ("//" + host) ensures c !in UnsafeBytes {
      assert c in scheme || c == ':' || c == '/' || c in host;
    }
  }

  /** The network location of a URL that cleaning leaves alone and whose scheme leaves `//host`. */
  lemma NetlocFromRest(url: string, host: string)
    requires CleanUrl(url) == url
    requires AfterScheme(url) == "//" + host
    requires forall c :: c in host ==> IsHostChar(c)
    ensures Netloc(url) == Some(host)
  {
    var rest := "//" + host;
    assert rest[..2] == "//";
    assert rest[2..] == host;
    FirstOfNone(host, NetlocDelims);
    assert host[..|host|] == host;
    assert '[' !in host && ']' !in host;
    assert SplitNetloc(rest) == Some(host);
  }

  /**
   * The network location of `scheme://host` is `host` itself when the
   * scheme is http or https and the host is a plain host name.
   */
  lemma NetlocOfPlainUrl(scheme: string, host: string)
    requires scheme == "http" || scheme == "https"
    requires forall c :: c in host ==> IsHostChar(c)
    ensures Netloc(scheme + "://" + host) == Some(host)
    ensures scheme == "https" ==> Netloc("https://" + host) == Some(host)
  {
    var rest := "//" + host;
    var url := scheme + ":" + rest;
    assert url == scheme + "://" + host;
    assert scheme == "https" ==> url == "https://" + host;
    assert StripLeft(url, C0OrSpace) == url by {
      assert url[0] == 'h';
      assert 'h' !in C0OrSpace;
    }
    assert RemoveChars(url, UnsafeBytes) == url by {
      PlainUrlIsSafe(scheme, host);
    }
    AfterHttpScheme(scheme, rest);
    NetlocFromRest(url, host);
  }
}
