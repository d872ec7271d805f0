/**
 * The two decisions the application configuration makes itself: which CORS
 * origins are allowed, and which key the rate limiter counts a request under.
 * CLIENT_URL and the request's addresses are inputs.
 */
module AppConfig {
  import opened Wrappers
  import opened Strings

  // ---- CORS ----

  predicate EndsWithSlash(s: string)
  {
    s != [] && s[|s| - 1] == '/'
  }

  /** `s.replace(/\/$/, "")`: one trailing slash removed, if there is one. */
  function StripTrailingSlash(s: string): (r: string)
    ensures !EndsWithSlash(s) ==> r == s
    ensures EndsWithSlash(s) ==> r + "/" == s
  {
    if EndsWithSlash(s) then s[..|s| - 1] else s
  }

  /** Removing the slash just appended gives the string back, whatever it ends with. */
  lemma StripAppendedSlash(s: string)
    ensures StripTrailingSlash(s + "/") == s
  {
    assert (s + "/")[..|s|] == s;
  }

  /** Two strings that differ at most by one trailing slash on one side. */
  predicate SameUpToTrailingSlash(a: string, b: string)
  {
    a == b || (a == b + "/" && !EndsWithSlash(b)) || (b == a + "/" && !EndsWithSlash(a))
  }

  /** Stripping one slash from each side makes two strings equal exactly when they differ by at most one trailing slash. */
  lemma StripEqualIff(a: string, b: string)
    ensures StripTrailingSlash(a) == StripTrailingSlash(b) <==> SameUpToTrailingSlash(a, b)
  {
    if EndsWithSlash(a) {
      assert a == a[..|a| - 1] + "/";
    }
    if EndsWithSlash(b) {
      assert b == b[..|b| - 1] + "/";
    }
    if b == a + "/" {
      StripAppendedSlash(a);
    }
    if a == b + "/" {
      StripAppendedSlash(b);
    }
  }

  const PREVIEW_PREFIX := "https://ai-news-nextjs-"
  const PREVIEW_SUFFIX := "-coderhookdevs-projects.vercel.app"

  /** The characters a regular-expression `.` does not match. */
  predicate IsLineTerminator(c: char)
  {
    c == '\n' || c == '\r' || c == '\U{2028}' || c == '\U{2029}'
  }

  /**
   * The preview pattern matches the text from `i` to the end of a suffix at `j`:
   * the prefix at `i`, any characters but line terminators, the suffix at `j`.
   */
  ghost predicate PreviewMatchAt(s: string, i: nat, j: nat)
  {
    && OccursAt(s, PREVIEW_PREFIX, i)
    && i + |PREVIEW_PREFIX| <= j
    && OccursAt(s, PREVIEW_SUFFIX, j)
    && forall k :: i + |PREVIEW_PREFIX| <= k < j ==> !IsLineTerminator(s[k])
  }

  /** The unanchored pattern matches somewhere in `s`. */
  ghost predicate MatchesPreview(s: string)
  {
    exists i: nat, j: nat :: PreviewMatchAt(s, i, j)
  }

  /** The lazy `.*?` from position `k`: try the suffix here, otherwise consume one character and go on. */
  function LazyFrom(s: string, k: nat): bool
    requires k <= |s|
    decreases |s| - k
  {
    if OccursAt(s, PREVIEW_SUFFIX, k) then true
    else if k < |s| && !IsLineTerminator(s[k]) then LazyFrom(s, k + 1)
    else false
  }

  /** The unanchored search: try a match starting at `i`, then at every later position. */
  function SearchFrom(s: string, i: nat): bool
    requires i <= |s|
    decreases |s| - i
  {
    (OccursAt(s, PREVIEW_PREFIX, i) && LazyFrom(s, i + |PREVIEW_PREFIX|)) || (i < |s| && SearchFrom(s, i + 1))
  }

  /**
   * `/https:\/\/ai-news-nextjs-.*?-coderhookdevs-projects\.vercel\.app/.test(s)`: the search
   * answers true exactly when the pattern occurs somewhere.
   */
  function IsVercelPreview(s: string): (r: bool)
    ensures r <==> MatchesPreview(s)
  {
    SearchFromCorrect(s, 0);
    SearchFrom(s, 0)
  }

  lemma {:induction false} LazyFromCorrect(s: string, i: nat, k: nat)
    requires OccursAt(s, PREVIEW_PREFIX, i) && i + |PREVIEW_PREFIX| <= k <= |s|
    requires forall m :: i + |PREVIEW_PREFIX| <= m < k ==> !IsLineTerminator(s[m])
    ensures LazyFrom(s, k) <==> exists j: nat :: k <= j && PreviewMatchAt(s, i, j)
    decreases |s| - k
  {
    if OccursAt(s, PREVIEW_SUFFIX, k) {
      assert PreviewMatchAt(s, i, k);
    } else if k < |s| && !IsLineTerminator(s[k]) {
      LazyFromCorrect(s, i, k + 1);
      if exists j: nat :: k <= j && PreviewMatchAt(s, i, j) {
        var j: nat :| k <= j && PreviewMatchAt(s, i, j);
        assert j != k;
      }
    } else {
      assert forall j: nat :: k <= j && OccursAt(s, PREVIEW_SUFFIX, j) ==> k < j && k < |s|;
    }
  }

  lemma {:induction false} SearchFromCorrect(s: string, i: nat)
    requires i <= |s|
    ensures SearchFrom(s, i) <==> exists i': nat, j: nat :: i <= i' && PreviewMatchAt(s, i', j)
    decreases |s| - i
  {
    var here := OccursAt(s, PREVIEW_PREFIX, i) && LazyFrom(s, i + |PREVIEW_PREFIX|);
    if OccursAt(s, PREVIEW_PREFIX, i) {
      LazyFromCorrect(s, i, i + |PREVIEW_PREFIX|);
    }
    if i < |s| {
      SearchFromCorrect(s, i + 1);
    }
    if exists i': nat, j: nat :: i <= i' && PreviewMatchAt(s, i', j) {
      var i': nat, j: nat :| i <= i' && PreviewMatchAt(s, i', j);
      if i' == i {
        assert here;
      } else {
        assert i < |s|;
      }
    }
  }

  /** A match needs the prefix and the suffix, so a preview origin is at least 57 characters long. */
  lemma PreviewNeedsLength(s: string)
    requires MatchesPreview(s)
    ensures |s| >= |PREVIEW_PREFIX| + |PREVIEW_SUFFIX|
  {
    var i: nat, j: nat :| PreviewMatchAt(s, i, j);
  }

  /** The search and the strip comparison in terms of the pattern and of the slash relation. */
  lemma OriginFacts(origin: Option<string>, clientUrl: Option<string>)
    ensures origin.Some? ==> (IsVercelPreview(origin.value) <==> MatchesPreview(origin.value))
    ensures origin.Some? && clientUrl.Some? ==>
              (StripTrailingSlash(origin.value) == StripTrailingSlash(clientUrl.value) <==> SameUpToTrailingSlash(origin.value, clientUrl.value))
  {
    if origin.Some? {
      if clientUrl.Some? {
        StripEqualIff(origin.value, clientUrl.value);
      }
    }
  }

  /** What the origin callback is called with: `callback(error, allowed)`. */
  datatype CorsVerdict = CorsVerdict(error: Option<string>, allowed: bool)

  /**
   * The `origin` callback: an absent or empty origin, an origin equal to
   * CLIENT_URL up to one trailing slash, or a preview deployment is allowed;
   * every other origin is refused with "Not allowed by CORS".
   */
  function OriginCallback(origin: Option<string>, clientUrl: Option<string>): (v: CorsVerdict)
    ensures v.allowed <==> v.error.None?
    ensures !v.allowed ==> v.error == Some("Not allowed by CORS")
    ensures v.allowed <==>
              || !Truthy(origin)
              || MatchesPreview(origin.value)
              || (clientUrl.Some? && SameUpToTrailingSlash(origin.value, clientUrl.value))
  {
    var isVercelPreview := Truthy(origin) && IsVercelPreview(origin.value);
    var allowed := if clientUrl.Some? then Some(StripTrailingSlash(clientUrl.value)) else None;
    var requestOrigin := if origin.Some? then Some(StripTrailingSlash(origin.value)) else None;
    OriginFacts(origin, clientUrl);
    if !Truthy(origin) || requestOrigin == allowed || isVercelPreview then CorsVerdict(None, true)
    else CorsVerdict(Some("Not allowed by CORS"), false)
  }

  /** One trailing slash is forgiven, two are not. */
  lemma TrailingSlashExamples()
    ensures OriginCallback(Some("https://a.com/"), Some("https://a.com")).allowed
    ensures !OriginCallback(Some("https://a.com//"), Some("https://a.com")).allowed
  {
    assert EndsWithSlash("https://a.com//");
    assert !SameUpToTrailingSlash("https://a.com//", "https://a.com");
    if MatchesPreview("https://a.com//") {
      PreviewNeedsLength("https://a.com//");
    }
  }

  /** A preview deployment's origin is allowed whatever CLIENT_URL is, even embedded in a longer origin. */
  lemma PreviewAllowedAnywhere(clientUrl: Option<string>)
    ensures OriginCallback(Some(PREVIEW_PREFIX + "git-main" + PREVIEW_SUFFIX), clientUrl).allowed
    ensures OriginCallback(Some("http://x/" + PREVIEW_PREFIX + PREVIEW_SUFFIX + ".evil"), clientUrl).allowed
  {
    var s1 := PREVIEW_PREFIX + "git-main" + PREVIEW_SUFFIX;
    assert s1[..23] == PREVIEW_PREFIX;
    assert s1[31..65] == PREVIEW_SUFFIX;
    forall k | 23 <= k < 31
      ensures !IsLineTerminator(s1[k])
    {
      assert s1[k] == "git-main"[k - 23];
    }
    assert PreviewMatchAt(s1, 0, 31);
    var s2 := "http://x/" + PREVIEW_PREFIX + PREVIEW_SUFFIX + ".evil";
    assert s2[9..32] == PREVIEW_PREFIX;
    assert s2[32..66] == PREVIEW_SUFFIX;
    assert PreviewMatchAt(s2, 9, 32);
  }

  /** Without CLIENT_URL only an empty origin or a preview deployment passes. */
  lemma NoClientUrl(origin: Option<string>)
    ensures OriginCallback(origin, None).allowed <==> !Truthy(origin) || MatchesPreview(origin.value)
  {
  }

  // ---- rate limiting ----

  /** JavaScript's `a || b` on optional strings. */
  function Or(a: Option<string>, b: Option<string>): (r: Option<string>)
    ensures Truthy(b) ==> Truthy(r)
  {
    if Truthy(a) then a else b
  }

  /**
   * `keyGenerator`: `ip || x-forwarded-for || remoteAddress || "unknown"`, the
   * first non-empty candidate in that order; never empty.
   */
  function RateLimitKey(ip: Option<string>, forwardedFor: Option<string>, remoteAddress: Option<string>): (key: string)
    ensures key != ""
    ensures var candidates := [ip, forwardedFor, remoteAddress, Some("unknown")];
      exists n :: 0 <= n < |candidates| && candidates[n] == Some(key)
                  && forall m :: 0 <= m < n ==> !Truthy(candidates[m])
  {
    var candidates := [ip, forwardedFor, remoteAddress, Some("unknown")];
    var r := Or(Or(Or(ip, forwardedFor), remoteAddress), Some("unknown"));
    assert r == candidates[if Truthy(ip) then 0 else if Truthy(forwardedFor) then 1 else if Truthy(remoteAddress) then 2 else 3];
    r.value
  }
}
