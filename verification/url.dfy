/** The two trailing-slash rewrites of `lib/util/url.ts`.

    Both are `String.prototype.replace` with an end-anchored regular expression
    and no global flag, so exactly the leftmost match is replaced. An
    end-anchored match starting at index `i` always spans the whole tail
    `s[i..]`, so "the leftmost match" is the least `i` whose tail is in the
    language of the unanchored part of the pattern. */
module Url {

  predicate EndsWithSlash(s: string) {
    |s| > 0 && s[|s| - 1] == '/'
  }

  /** The language of `\/?`: the empty string or a single slash. */
  predicate OptionalSlash(t: string) {
    t == "" || t == "/"
  }

  /** The language of `\/+`: one or more slashes. */
  predicate SlashRun(t: string) {
    |t| > 0 && forall k :: 0 <= k < |t| ==> t[k] == '/'
  }

  /** A search for `pattern$` in `s` first succeeds at index `i`. */
  ghost predicate LeftmostTailMatch(s: string, i: int, pattern: string -> bool) {
    && 0 <= i <= |s|
    && pattern(s[i..])
    && forall j :: 0 <= j < i ==> !pattern(s[j..])
  }

  /** `url.replace(/\/?$/, '/')`. */
  function EnsureTrailingSlash(url: string): (r: string)
    ensures EndsWithSlash(r)
    ensures url <= r && |r| <= |url| + 1
  {
    if EndsWithSlash(url) then url else url + "/"
  }

  /** `url.replace(regEx(/\/+$/), '')`: drops the maximal run of trailing slashes. */
  function TrimTrailingSlash(url: string): (r: string)
    ensures !EndsWithSlash(r)
    ensures r <= url
    ensures forall k :: |r| <= k < |url| ==> url[k] == '/'
    decreases |url|
  {
    if EndsWithSlash(url) then TrimTrailingSlash(url[..|url| - 1]) else url
  }

  /** A string already ending with a slash is left alone, any other gets exactly
      one slash appended; the empty string becomes "/". */
  lemma EnsureTrailingSlashCases(url: string)
    ensures EndsWithSlash(url) ==> EnsureTrailingSlash(url) == url
    ensures !EndsWithSlash(url) ==> EnsureTrailingSlash(url) == url + "/"
    ensures EnsureTrailingSlash("") == "/"
  {
  }

  /** The pattern `\/?$` matches every string, so the replacement always happens. */
  lemma OptionalSlashAlwaysMatches(url: string)
    ensures LeftmostTailMatch(url, if EndsWithSlash(url) then |url| - 1 else |url|, OptionalSlash)
  {
  }

  /** EnsureTrailingSlash is the regular-expression replacement: the leftmost
      match of `\/?$` is replaced with one slash. */
  lemma EnsureTrailingSlashReplacesMatch(url: string, i: int)
    requires LeftmostTailMatch(url, i, OptionalSlash)
    ensures EnsureTrailingSlash(url) == url[..i] + "/"
  {
    OptionalSlashAlwaysMatches(url);
    var m := if EndsWithSlash(url) then |url| - 1 else |url|;
    assert i == m;
    if EndsWithSlash(url) {
      assert url[..i] + "/" == url;
    }
  }

  lemma EnsureTrailingSlashIdempotent(url: string)
    ensures EnsureTrailingSlash(EnsureTrailingSlash(url)) == EnsureTrailingSlash(url)
  {
  }

  /** The contract of TrimTrailingSlash determines its result: the only prefix
      of `url` that does not end in a slash and leaves only slashes behind is
      the trimmed string. */
  lemma TrimTrailingSlashUnique(url: string, p: string)
    requires p <= url && !EndsWithSlash(p)
    requires forall k :: |p| <= k < |url| ==> url[k] == '/'
    ensures p == TrimTrailingSlash(url)
  {
  }

  /** TrimTrailingSlash is the regular-expression replacement: the leftmost
      match of `\/+$` is deleted. */
  lemma TrimTrailingSlashReplacesMatch(url: string, i: int)
    requires LeftmostTailMatch(url, i, SlashRun)
    ensures TrimTrailingSlash(url) == url[..i]
  {
    forall k | i <= k < |url|
      ensures url[k] == '/'
    {
      assert url[i..][k - i] == url[k];
    }
    if i > 0 {
      assert !SlashRun(url[i - 1..]);
    }
    TrimTrailingSlashUnique(url, url[..i]);
  }

  /** When `\/+$` finds no match, the replacement leaves the string unchanged. */
  lemma TrimTrailingSlashWithoutMatch(url: string)
    requires forall i :: 0 <= i <= |url| ==> !SlashRun(url[i..])
    ensures TrimTrailingSlash(url) == url
  {
    if |url| > 0 {
      assert !SlashRun(url[|url| - 1..]);
    }
  }

  lemma TrimTrailingSlashIdempotent(url: string)
    ensures TrimTrailingSlash(TrimTrailingSlash(url)) == TrimTrailingSlash(url)
  {
  }

  /** Appending a slash and trimming gives the same as trimming alone. */
  lemma TrimAfterEnsure(url: string)
    ensures TrimTrailingSlash(EnsureTrailingSlash(url)) == TrimTrailingSlash(url)
  {
  }

  /** Trimming then ensuring normalises any run of trailing slashes to exactly one. */
  lemma EnsureAfterTrim(url: string)
    ensures EnsureTrailingSlash(TrimTrailingSlash(url)) == TrimTrailingSlash(url) + "/"
  {
  }
}
