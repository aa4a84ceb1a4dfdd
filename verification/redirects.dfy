/** Where a browser may be sent after a sign-in. */
module Redirects {
  import opened Options
  import opened Text

  function RelativePathOnly(raw: Option<string>, fallback: string): string {
    if raw.None? || raw.value == "" || raw.value[0] != '/'
       || (|raw.value| > 1 && raw.value[1] == '/') || '\\' in raw.value then fallback
    else raw.value
  }

  /** `safe_next`; without a front-end base, `allowed` is Django's own check against the request's host. */
  function SafeNext(base: string, allowed: string -> bool, raw: Option<string>, fallback: string): string {
    if base != "" then RStrip(base, '/') + RelativePathOnly(raw, fallback)
    else if raw.Some? && raw.value != "" && allowed(raw.value) then raw.value
    else fallback
  }

  // ---- an independent reading of a URL ----

  predicate EndsAuthority(c: char) {
    c == '/' || c == '\\' || c == '?' || c == '#'
  }

  function UpToEnd(rest: string): string {
    if rest == "" || EndsAuthority(rest[0]) then "" else [rest[0]] + UpToEnd(rest[1..])
  }

  /** The scheme and authority of an absolute URL, and nothing that follows them. */
  function Origin(url: string): Option<(string, string)> {
    if |url| < 3 then None
    else if url[..3] == "://" then Some(("", UpToEnd(url[3..])))
    else
      match Origin(url[1..])
      case Some((scheme, authority)) => Some(([url[0]] + scheme, authority))
      case None => None
  }

  lemma {:induction false} AuthorityEndsAtPath(rest: string, path: string)
    requires path != "" && path[0] == '/'
    ensures UpToEnd(rest + path) == UpToEnd(rest)
  {
    if rest != "" && !EndsAuthority(rest[0]) {
      assert (rest + path)[1..] == rest[1..] + path;
      AuthorityEndsAtPath(rest[1..], path);
    } else if rest == "" {
      assert rest + path == path;
    }
  }

  lemma {:induction false} OriginEndsAtPath(url: string, path: string)
    requires Origin(url).Some? && path != "" && path[0] == '/'
    ensures Origin(url + path) == Origin(url)
  {
    assert (url + path)[..3] == url[..3];
    if url[..3] == "://" {
      assert (url + path)[3..] == url[3..] + path;
      AuthorityEndsAtPath(url[3..], path);
    } else {
      assert (url + path)[1..] == url[1..] + path;
      OriginEndsAtPath(url[1..], path);
    }
  }

  /** With a front-end base no value of `next` leaves it; without one only what is allowed is followed. */
  lemma NextStaysOnBase(base: string, allowed: string -> bool, raw: Option<string>, fallback: string)
    requires base != "" ==> Origin(RStrip(base, '/')).Some?
    requires fallback != "" && fallback[0] == '/'
    ensures base != "" ==> Origin(SafeNext(base, allowed, raw, fallback)) == Origin(RStrip(base, '/'))
    ensures base == "" ==>
      SafeNext(base, allowed, raw, fallback) == fallback || allowed(SafeNext(base, allowed, raw, fallback))
  {
    if base != "" {
      OriginEndsAtPath(RStrip(base, '/'), RelativePathOnly(raw, fallback));
    }
  }

  predicate IsPlainPath(s: string) {
    s != "" && s[0] == '/' && (|s| == 1 || s[1] != '/') && '\\' !in s
  }

  /** What was asked for is followed exactly if it is a plain path, or allowed where there is no base. */
  lemma NextIsFollowed(base: string, allowed: string -> bool, raw: Option<string>, fallback: string)
    ensures RelativePathOnly(raw, fallback) == if raw.Some? && IsPlainPath(raw.value) then raw.value else fallback
    ensures SafeNext(base, allowed, raw, fallback) ==
      if base != "" then RStrip(base, '/') + (if raw.Some? && IsPlainPath(raw.value) then raw.value else fallback)
      else if raw.Some? && raw.value != "" && allowed(raw.value) then raw.value
      else fallback
  {
  }

  // ---- the path alone, as a reference to follow from the current page ----

  /** Browsers read a backslash as a slash. */
  function Slashed(s: string): (r: string)
    ensures |r| == |s|
    ensures forall i | 0 <= i < |s| :: r[i] == if s[i] == '\\' then '/' else s[i]
  {
    if s == "" then "" else [if s[0] == '\\' then '/' else s[0]] + Slashed(s[1..])
  }

  predicate InScheme(c: char) {
    'a' <= c <= 'z' || 'A' <= c <= 'Z' || '0' <= c <= '9' || c == '+' || c == '-' || c == '.'
  }

  /** What follows a scheme and its colon; all of it if there is no scheme. */
  function AfterScheme(s: string, from: nat): string
    requires from <= |s|
    decreases |s| - from
  {
    if from == |s| then s
    else if s[from] == ':' then s[from + 1..]
    else if InScheme(s[from]) then AfterScheme(s, from + 1)
    else s
  }

  /** The host a browser would be sent to by a reference; None if it stays where it is. */
  function Authority(reference: string): Option<string> {
    var hierarchy := AfterScheme(Slashed(reference), 0);
    if |hierarchy| >= 2 && hierarchy[..2] == "//" then Some(UpToEnd(hierarchy[2..])) else None
  }

  /**
   A destination that is only a path never names a host, not even to a browser that reads backslashes
   as slashes; and every path that has neither a host nor a backslash is followed as it is.
   */
  lemma PathNamesNoHost(raw: Option<string>, fallback: string)
    requires Authority(fallback).None?
    ensures Authority(RelativePathOnly(raw, fallback)).None?
    ensures raw.Some? && raw.value != "" && raw.value[0] == '/' && '\\' !in raw.value && Authority(raw.value).None? ==>
      RelativePathOnly(raw, fallback) == raw.value
  {
    if raw.Some? && raw.value != "" && raw.value[0] == '/' {
      var s := Slashed(raw.value);
      assert AfterScheme(s, 0) == s;
      if |s| > 1 && s[1] == '/' {
        assert s[..2] == "//";
      }
    }
  }
}
