/** The URL heuristics of the backend: normalisation, domain extraction, the
    substring and IP-pattern tests, the rule cascade and the integer features. */
module UrlUtils {
  import opened ScanTypes
  import opened PyStrings

  const KnownLegitimateDomains: set<string> := {
    "google.com", "youtube.com", "facebook.com", "github.com", "amazon.com",
    "paypal.com", "netflix.com", "microsoft.com", "apple.com", "twitter.com", "ebay.com", "claude.com",
    "linkedin.com", "instagram.com", "reddit.com", "gov.in", "wikipedia.org", "spotify.com", "stackoverflow.com", "x.com",
    "twitch.tv", "tiktok.com", "tumblr.com", "pinterest.com", "quora.com", "ac.in", "dropbox.com", "telegram.org", "phishtank.com", "web.whatsapp.com", "discord.com"
  }

  const PhishingKeywords: seq<string> := ["verify", "confirm", "update", "secure", "login", "suspended"]

  const SuspiciousTlds: seq<string> := [".tk", ".ml", ".ga", ".cf", ".gq"]

  const ShorteningServices: seq<string> := ["bit.ly", "goo.gl", "tinyurl"]

  // ---------------------------------------------------------------------------
  // Character classes and counts
  // ---------------------------------------------------------------------------

  predicate IsDigit(c: char) { '0' <= c <= '9' }

  predicate IsLetter(c: char) { 'a' <= c <= 'z' || 'A' <= c <= 'Z' }

  /** A character of the regex class `[^a-zA-Z0-9]`. */
  predicate IsSpecial(c: char) { !IsDigit(c) && !IsLetter(c) }

  /** The number of characters of `s` satisfying `p` (a `sum(... for c in s)` comprehension). */
  function CountWhere(s: string, p: char -> bool): (n: nat)
    ensures n <= |s|
    ensures n == 0 <==> forall i :: 0 <= i < |s| ==> !p(s[i])
    ensures n == |s| <==> forall i :: 0 <= i < |s| ==> p(s[i])
  {
    if s == [] then 0
    else
      assert forall i :: 1 <= i < |s| ==> s[i] == s[1..][i - 1];
      (if p(s[0]) then 1 else 0) + CountWhere(s[1..], p)
  }

  /** Every character is a digit, a letter or special, so the three counts add up to the length. */
  lemma {:induction false} CharClassesPartition(s: string)
    ensures CountWhere(s, IsDigit) + CountWhere(s, IsLetter) + CountWhere(s, IsSpecial) == |s|
  {
    if s != [] {
      CharClassesPartition(s[1..]);
    }
  }

  /** Counting over a concatenation adds the counts of the two parts. */
  lemma {:induction false} CountWhereAppend(a: string, b: string, p: char -> bool)
    ensures CountWhere(a + b, p) == CountWhere(a, p) + CountWhere(b, p)
  {
    if a != [] {
      assert (a + b)[1..] == a[1..] + b;
      CountWhereAppend(a[1..], b, p);
    } else {
      assert a + b == b;
    }
  }

  /** One character counts 1 when it satisfies `p` and 0 otherwise; with
      `CountWhereAppend` this fixes the count of every string. */
  lemma CountWhereOne(c: char, p: char -> bool)
    ensures CountWhere([c], p) == if p(c) then 1 else 0
  {
    assert [c][1..] == [];
  }

  /** `count_special_chars`: the number of matches of `[^a-zA-Z0-9]`, which is
      whatever the digits and letters leave of the length. */
  function CountSpecialChars(url: string): (n: nat)
    ensures n <= |url|
    ensures n == 0 <==> forall i :: 0 <= i < |url| ==> IsDigit(url[i]) || IsLetter(url[i])
    ensures n == |url| - CountWhere(url, IsDigit) - CountWhere(url, IsLetter)
  {
    CharClassesPartition(url);
    CountWhere(url, IsSpecial)
  }

  /** `findall` over a concatenation finds the matches of both parts. */
  lemma SpecialCharsAppend(a: string, b: string)
    ensures CountSpecialChars(a + b) == CountSpecialChars(a) + CountSpecialChars(b)
    ensures CountSpecialChars([]) == 0
  {
    CountWhereAppend(a, b, IsSpecial);
  }

  // ---------------------------------------------------------------------------
  // Normalisation
  // ---------------------------------------------------------------------------

  /** `re.sub(r"https?://", "", s)`: one left-to-right pass deleting every
      non-overlapping match, wherever it occurs. */
  function StripScheme(s: string): string
  {
    if StartsWith(s, Http) then StripScheme(s[|Http|..])
    else if StartsWith(s, Https) then StripScheme(s[|Https|..])
    else if s == [] then []
    else [s[0]] + StripScheme(s[1..])
  }

  const Http: string := "http://"
  const Https: string := "https://"

  predicate StartsWith(s: string, p: string)
  {
    |p| <= |s| && s[..|p|] == p
  }

  /** The substitution only deletes characters: it never makes the string longer
      and never brings in an upper-case letter. */
  lemma {:induction false} StripSchemeDeletes(s: string)
    ensures |StripScheme(s)| <= |s|
    ensures (forall i :: 0 <= i < |s| ==> !IsUpper(s[i])) ==>
            forall i :: 0 <= i < |StripScheme(s)| ==> !IsUpper(StripScheme(s)[i])
  {
    if StartsWith(s, Http) {
      StripSchemeDeletes(s[|Http|..]);
    } else if StartsWith(s, Https) {
      StripSchemeDeletes(s[|Https|..]);
    } else if s != [] {
      StripSchemeDeletes(s[1..]);
      var r := StripScheme(s[1..]);
      assert StripScheme(s) == [s[0]] + r;
      assert forall i :: 1 <= i < |StripScheme(s)| ==> StripScheme(s)[i] == r[i - 1];
    }
  }

  /** A stretch without the letter `h` holds no match and passes through unchanged. */
  lemma {:induction false} StripSchemeSkipsPlain(a: string, b: string)
    requires 'h' !in a
    ensures StripScheme(a + b) == a + StripScheme(b)
  {
    if a != [] {
      var s := a + b;
      assert s[0] == a[0] && s[1..] == a[1..] + b;
      assert Http[0] == 'h' && Https[0] == 'h' && s[0] != 'h';
      assert !StartsWith(s, Http) && !StartsWith(s, Https);
      StripSchemeSkipsPlain(a[1..], b);
      assert [a[0]] + a[1..] == a;
    } else {
      assert a + b == b;
    }
  }

  /** `re.sub(r"^www\.", "", s)`: anchored at the start of the string, so at most once. */
  function StripWww(s: string): (r: string)
  {
    if |s| >= 4 && s[..4] == "www." then s[4..] else s
  }

  /** Drops one trailing `/`, if present. */
  function StripTrailingSlash(s: string): string
  {
    if |s| > 0 && s[|s| - 1] == '/' then s[..|s| - 1] else s
  }

  /** `preprocess_url`. */
  function PreprocessUrl(url: string): (r: string)
    ensures |r| <= |url|
    ensures forall i :: 0 <= i < |r| ==> !IsUpper(r[i])
  {
    var noScheme := StripScheme(Lower(url));
    StripSchemeDeletes(Lower(url));
    var noWww := StripWww(noScheme);
    assert forall i :: 0 <= i < |noWww| ==> noWww[i] == noScheme[i + |noScheme| - |noWww|];
    StripTrailingSlash(noWww)
  }

  /** A string with no upper-case letter is its own `lower()`. */
  lemma LowerKeeps(s: string)
    requires forall c :: c in s ==> !IsUpper(c)
    ensures Lower(s) == s
  {
  }

  lemma SchemeHttpDeleted(b: string)
    ensures StripScheme(Http + b) == StripScheme(b)
  {
    var s := Http + b;
    assert s[..|Http|] == Http && s[|Http|..] == b;
  }

  lemma SchemeHttpsDeleted(b: string)
    ensures StripScheme(Https + b) == StripScheme(b)
  {
    var s := Https + b;
    assert !StartsWith(s, Http) by { assert s[4] != Http[4]; }
    assert s[..|Https|] == Https && s[|Https|..] == b;
  }

  /** A match after a stretch without `h` is deleted too: the substitution is not
      limited to a leading scheme. */
  lemma SchemeDeletedMidString(a: string, b: string)
    requires 'h' !in a
    ensures StripScheme(a + (Https + b)) == a + StripScheme(b)
  {
    StripSchemeSkipsPlain(a, Https + b);
    SchemeHttpsDeleted(b);
  }

  /** Where no match starts, the first character is kept. */
  lemma StripSchemeKeepsFirst(s: string)
    requires s != [] && !StartsWith(s, Http) && !StartsWith(s, Https)
    ensures StripScheme(s) == [s[0]] + StripScheme(s[1..])
  {
  }

  /** One pass only: deleting the inner match of "hthttp://tp://" joins its two
      halves into a new "http://" that stays. */
  lemma SchemeDeletionIsSinglePass()
    ensures StripScheme("ht" + Http + "tp://") == Http
  {
    SinglePassFirst();
    SinglePassSecond();
    SchemeHttpDeleted("tp://");
    SinglePassTail();
  }

  lemma SinglePassFirst()
    ensures StripScheme("ht" + Http + "tp://") == "h" + StripScheme("t" + Http + "tp://")
  {
    var s := "ht" + Http + "tp://";
    assert s[2] == 'h';
    assert s[1..] == "t" + Http + "tp://";
    StripSchemeKeepsFirst(s);
  }

  lemma SinglePassSecond()
    ensures StripScheme("t" + Http + "tp://") == "t" + StripScheme(Http + "tp://")
  {
    var s := "t" + Http + "tp://";
    assert s[0] == 't';
    assert s[1..] == Http + "tp://";
    StripSchemeKeepsFirst(s);
  }

  lemma SinglePassTail()
    ensures StripScheme("tp://") == "tp://"
    ensures "h" + ("t" + "tp://") == Http
  {
    StripSchemeSkipsPlain("tp://", []);
    assert "tp://" + [] == "tp://";
  }

  /** A string made only of lower-case characters other than `h` is normalised
      by the `www.` and slash steps alone. */
  predicate IsPlain(u: string)
  {
    forall c :: c in u ==> !IsUpper(c) && c != 'h'
  }

  lemma PlainPreprocess(u: string)
    requires IsPlain(u)
    ensures PreprocessUrl(u) == StripTrailingSlash(StripWww(u))
  {
    LowerKeeps(u);
    StripSchemeSkipsPlain(u, []);
    assert u + [] == u;
  }

  /** `^www\.` is removed once: the rest of the URL is normalised as usual, and a
      second `www.` after the first stays. */
  lemma WwwRemovedOnce(t: string)
    ensures PreprocessUrl("www." + t) == StripTrailingSlash(StripScheme(Lower(t)))
  {
    var w := "www.";
    assert Lower(w + t) == w + Lower(t);
    StripSchemeSkipsPlain(w, Lower(t));
    var y := StripScheme(Lower(t));
    assert (w + y)[..4] == w && (w + y)[4..] == y;
  }

  /** Only one trailing slash is dropped: `t + "/"` becomes `t` even when `t` ends in `/`. */
  lemma OneTrailingSlashRemoved(t: string)
    requires IsPlain(t)
    requires !(|t| >= 4 && t[..4] == "www.")
    ensures PreprocessUrl(t + "/") == t
  {
    var u := t + "/";
    PlainPreprocess(u);
    if |t| >= 4 {
      assert u[..4] == t[..4];
    } else if |u| >= 4 {
      assert u[..4][|t|] == '/';
    }
    assert u[..|u| - 1] == t;
  }

  /** A leading lower-case `http://` contributes nothing to the normalised URL. */
  lemma SchemePrefixDropped(u: string)
    ensures PreprocessUrl(Http + u) == PreprocessUrl(u)
  {
    assert Lower(Http + u) == Http + Lower(u);
    SchemeHttpDeleted(Lower(u));
  }

  // ---------------------------------------------------------------------------
  // Domain extraction
  // ---------------------------------------------------------------------------

  /** `d` is the end of `host` made of whole dot-separated labels: a suffix that
      is either all of `host` or preceded by a dot. */
  predicate IsLabelSuffix(host: string, d: string)
  {
    |d| <= |host| && host[|host| - |d|..] == d &&
    (|d| == |host| || host[|host| - |d| - 1] == '.')
  }

  /** `".".join(parts[-2:]) if len(parts) >= 2 else domain` with `parts = domain.split(".")`. */
  function LastTwoLabels(host: string): (d: string)
    ensures '.' !in host ==> d == host
    ensures '.' in host ==> multiset(d)['.'] == 1
    ensures IsLabelSuffix(host, d)
  {
    var parts := Split(host, '.');
    SplitCount(host, '.');
    if |parts| >= 2 then
      LastTwoJoined(host);
      Join(parts[|parts| - 2..], '.')
    else
      host
  }

  /** With at least two labels, the last two joined hold one dot and end the host
      right after a dot (or are the whole host). */
  lemma LastTwoJoined(host: string)
    requires |Split(host, '.')| >= 2
    ensures multiset(Join(Split(host, '.')[|Split(host, '.')| - 2..], '.'))['.'] == 1
    ensures IsLabelSuffix(host, Join(Split(host, '.')[|Split(host, '.')| - 2..], '.'))
  {
    var parts := Split(host, '.');
    var n := |parts|;
    var a, b := parts[n - 2], parts[n - 1];
    var d := Join(parts[n - 2..], '.');
    assert parts[n - 2..] == [a, b];
    JoinTwo(a, b, '.');
    OneSeparator(a, b, '.');
    JoinSplit(host, '.');
    if n > 2 {
      JoinAppend(parts[..n - 2], parts[n - 2..], '.');
      assert parts[..n - 2] + parts[n - 2..] == parts;
      SuffixAfterSeparator(host, Join(parts[..n - 2], '.'), d, '.');
    } else {
      assert parts[n - 2..] == parts;
    }
  }

  lemma JoinTwo(a: string, b: string, sep: char)
    ensures Join([a, b], sep) == a + [sep] + b
  {
    assert [a, b][1..] == [b];
  }

  lemma OneSeparator(a: string, b: string, sep: char)
    requires sep !in a && sep !in b
    ensures multiset(a + [sep] + b)[sep] == 1
  {
    assert multiset(a + [sep] + b) == multiset(a) + multiset{sep} + multiset(b);
  }

  lemma SuffixAfterSeparator(host: string, x: string, d: string, sep: char)
    requires host == x + [sep] + d
    ensures |d| < |host| && host[|host| - |d|..] == d && host[|host| - |d| - 1] == sep
  {
  }

  /** The host part of a preprocessed URL: everything before the first `/`. */
  function Host(p: string): (h: string)
    ensures '/' !in h
    ensures |h| <= |p| && h == p[..|h|]
    ensures |h| < |p| ==> p[|h|] == '/'
  {
    SplitHead(p, '/');
    Split(p, '/')[0]
  }

  /** `extract_domain`: the last two labels of the host, never a `/`, at most one dot. */
  function ExtractDomain(url: string): (d: string)
    ensures '/' !in d
    ensures multiset(d)['.'] <= 1
    ensures '.' !in Host(PreprocessUrl(url)) ==> d == Host(PreprocessUrl(url))
    ensures '.' in Host(PreprocessUrl(url)) ==>
              multiset(d)['.'] == 1 && IsLabelSuffix(Host(PreprocessUrl(url)), d)
  {
    var host := Host(PreprocessUrl(url));
    var d := LastTwoLabels(host);
    assert d == host[|host| - |d|..];
    assert forall c :: c in d ==> c in host;
    d
  }

  /** The entry "web.whatsapp.com" of the whitelist has two dots, so no URL's
      extracted domain can ever equal it. */
  lemma WhatsappEntryUnreachable(url: string)
    ensures ExtractDomain(url) != "web.whatsapp.com"
  {
    var w := "web.whatsapp.com";
    assert w[3] == '.' && w[12] == '.';
    TwoDotsUnreachable(url, w, 3, 12);
  }

  /** No extracted domain has dots at two positions. */
  lemma TwoDotsUnreachable(url: string, w: string, i: nat, j: nat)
    requires i < j < |w| && w[i] == '.' && w[j] == '.'
    ensures ExtractDomain(url) != w
  {
    var d := ExtractDomain(url);
    if |d| == |w| && d[i] == '.' {
      SecondDotExcluded(d, '.', i, j);
    }
  }

  /** With at most one occurrence of `c`, a second position cannot hold it. */
  lemma SecondDotExcluded(s: string, c: char, i: nat, j: nat)
    requires multiset(s)[c] <= 1
    requires i < j < |s| && s[i] == c
    ensures s[j] != c
  {
    var a, b := s[..i + 1], s[i + 1..];
    assert s == a + b;
    assert a[i] == c;
    assert multiset(b)[c] == 0;
    assert b[j - i - 1] == s[j] && s[j] in multiset(b);
  }

  /** A host that says nothing about its dots in the query: plain, and free of
      every character that ends the authority. */
  predicate IsPlainHost(host: string)
  {
    IsPlain(host) && !(|host| >= 4 && host[..4] == "www.") &&
    '/' !in host && '?' !in host && '#' !in host
  }

  /** As written, the host ends at the first `/` only, so a query that starts with
      ".paypal.com" makes ANY host the whitelisted domain "paypal.com", and the
      cascade answers SAFE with confidence 0.99 before any other rule is tried. */
  lemma QueryDomainIsWhitelisted(host: string)
    requires IsPlainHost(host)
    ensures ExtractDomain("http://" + host + "?.paypal.com") == "paypal.com"
    ensures AnalyzeUrlSecurity("http://" + host + "?.paypal.com") == Some(Analysis(Safe, Whitelisted, 0.99))
  {
    QueryDomainExtracted(host);
    assert "paypal.com" in KnownLegitimateDomains;
  }

  lemma QueryDomainExtracted(host: string)
    requires IsPlainHost(host)
    ensures ExtractDomain("http://" + host + "?.paypal.com") == "paypal.com"
  {
    SpoofPreprocess(host);
    SpoofHost(host);
    SpoofLabels(host);
  }

  lemma SpoofHost(host: string)
    requires IsPlainHost(host)
    ensures Host(host + "?.paypal.com") == host + "?.paypal.com"
  {
    SplitNoSep(host + "?.paypal.com", '/');
  }

  lemma SpoofLabels(host: string)
    ensures LastTwoLabels(host + "?.paypal.com") == "paypal.com"
  {
    var p := host + "?.paypal.com";
    var x := host + "?";
    assert p == x + ['.'] + ("paypal" + ['.'] + "com");
    SplitAround(x, "paypal" + ['.'] + "com", '.');
    PaypalSplit();
    var parts := Split(p, '.');
    assert parts == Split(x, '.') + ["paypal", "com"];
    var n := |parts|;
    assert parts[n - 2..] == ["paypal", "com"];
    PaypalJoin();
  }

  lemma PaypalSplit()
    ensures Split("paypal" + ['.'] + "com", '.') == ["paypal", "com"]
  {
    SplitNoSep("com", '.');
    SplitCons("paypal", "com", '.');
  }

  lemma PaypalJoin()
    ensures Join(["paypal", "com"], '.') == "paypal.com"
  {
    assert ["paypal", "com"][1..] == ["com"];
  }

  lemma SpoofPreprocess(host: string)
    requires IsPlainHost(host)
    ensures PreprocessUrl("http://" + host + "?.paypal.com") == host + "?.paypal.com"
  {
    var q := "?.paypal.com";
    var p := host + q;
    assert "http://" + host + q == Http + p;
    SchemePrefixDropped(p);
    QueryPlain();
    PlainAppend(host, q);
    PlainPreprocess(p);
    NoWwwAfterHost(host, q);
  }

  lemma QueryPlain()
    ensures IsPlain("?.paypal.com")
  {
  }

  lemma PlainAppend(a: string, b: string)
    requires IsPlain(a) && IsPlain(b)
    ensures IsPlain(a + b)
  {
  }

  /** Neither a host without a leading `www.` nor a following `?` can form one. */
  lemma NoWwwAfterHost(host: string, q: string)
    requires !(|host| >= 4 && host[..4] == "www.")
    requires q != [] && q[0] == '?'
    ensures StripTrailingSlash(StripWww(host + q)) == StripTrailingSlash(host + q)
  {
    var p := host + q;
    if |p| >= 4 {
      if |host| >= 4 {
        assert p[..4] == host[..4];
      } else {
        assert p[|host|] == '?' && p[..4][|host|] == '?';
      }
    }
  }

  /** Splitting around one separator concatenates the two splits. */
  lemma {:induction false} SplitAround(x: string, y: string, sep: char)
    ensures Split(x + [sep] + y, sep) == Split(x, sep) + Split(y, sep)
  {
    if x == [] {
      assert x + [sep] + y == [sep] + y;
      assert ([sep] + y)[1..] == y;
    } else {
      var s := x + [sep] + y;
      assert s[0] == x[0] && s[1..] == x[1..] + [sep] + y;
      SplitAround(x[1..], y, sep);
    }
  }

  /** The first characters of `s` up to (not including) the first one in `stops`. */
  function TakeUntil(s: string, stops: set<char>): (r: string)
    ensures |r| <= |s| && r == s[..|r|]
    ensures forall c :: c in r ==> c !in stops
    ensures |r| < |s| ==> s[|r|] in stops
  {
    if s == [] || s[0] in stops then []
    else [s[0]] + TakeUntil(s[1..], stops)
  }

  const AuthorityEnds: set<char> := {'/', '?', '#'}

  /** The authority of a preprocessed URL: it ends at the first `/`, `?` or `#`. */
  function Authority(p: string): string
  {
    TakeUntil(p, AuthorityEnds)
  }

  /** Corrected `extract_domain`: the last two labels of the authority, never of the query or fragment. */
  function ExtractDomainCorrected(url: string): (d: string)
    ensures '/' !in d && '?' !in d && '#' !in d
    ensures multiset(d)['.'] <= 1
    ensures '.' !in Authority(PreprocessUrl(url)) ==> d == Authority(PreprocessUrl(url))
    ensures '.' in Authority(PreprocessUrl(url)) ==> multiset(d)['.'] == 1
    ensures IsLabelSuffix(Authority(PreprocessUrl(url)), d)
  {
    var auth := Authority(PreprocessUrl(url));
    var d := LastTwoLabels(auth);
    assert d == auth[|auth| - |d|..];
    assert forall c :: c in d ==> c in auth;
    d
  }

  predicate IsWhitelistedCorrected(url: string)
  {
    ExtractDomainCorrected(url) in KnownLegitimateDomains
  }

  /** The first part of `split(c)` is everything before the first `c`. */
  lemma {:induction false} SplitHead(s: string, c: char)
    ensures Split(s, c)[0] == TakeUntil(s, {c})
  {
    if s != [] && s[0] != c {
      SplitHead(s[1..], c);
    }
  }

  /** Without `?` or `#`, stopping at any of `/ ? #` is stopping at `/`. */
  lemma {:induction false} TakeUntilIgnoresAbsent(s: string)
    requires '?' !in s && '#' !in s
    ensures TakeUntil(s, AuthorityEnds) == TakeUntil(s, {'/'})
  {
    if s != [] && s[0] != '/' {
      TakeUntilIgnoresAbsent(s[1..]);
    }
  }

  /** The correction changes nothing for URLs without a query or fragment mark. */
  lemma CorrectedAgreesWithoutQuery(url: string)
    requires '?' !in PreprocessUrl(url) && '#' !in PreprocessUrl(url)
    ensures ExtractDomainCorrected(url) == ExtractDomain(url)
  {
    SplitHead(PreprocessUrl(url), '/');
    TakeUntilIgnoresAbsent(PreprocessUrl(url));
  }

  /** With the correction, the query no longer contributes: the domain of the
      spoofing URL is the last two labels of the host itself. */
  lemma CorrectedIgnoresQueryDomain(host: string)
    requires IsPlainHost(host)
    ensures ExtractDomainCorrected("http://" + host + "?.paypal.com") == LastTwoLabels(host)
    ensures IsWhitelistedCorrected("http://" + host + "?.paypal.com") <==> LastTwoLabels(host) in KnownLegitimateDomains
  {
    SpoofPreprocess(host);
    assert host + "?.paypal.com" == host + ("?" + ".paypal.com");
    TakeUntilPlain(host, "?" + ".paypal.com");
  }

  lemma {:induction false} TakeUntilPlain(a: string, b: string)
    requires forall c :: c in a ==> c !in AuthorityEnds
    requires b != [] && b[0] in AuthorityEnds
    ensures TakeUntil(a + b, AuthorityEnds) == a
  {
    if a != [] {
      assert (a + b)[1..] == a[1..] + b;
      TakeUntilPlain(a[1..], b);
      assert [a[0]] + a[1..] == a;
    } else {
      assert a + b == b;
    }
  }

  // ---------------------------------------------------------------------------
  // Substring tests
  // ---------------------------------------------------------------------------

  /** `sum(1 for k in tokens if k in s)`: each listed token counted once, however often it occurs. */
  function ContainedCount(s: string, tokens: seq<string>): (n: nat)
    ensures n <= |tokens|
  {
    if tokens == [] then 0
    else (if Contains(s, tokens[0]) then 1 else 0) + ContainedCount(s, tokens[1..])
  }

  lemma {:induction false} AtLeastOneContained(s: string, tokens: seq<string>)
    ensures ContainedCount(s, tokens) >= 1 <==> exists j :: 0 <= j < |tokens| && Contains(s, tokens[j])
  {
    if tokens != [] {
      AtLeastOneContained(s, tokens[1..]);
      assert forall j :: 1 <= j < |tokens| ==> tokens[j] == tokens[1..][j - 1];
    }
  }

  /** At least two hits means two DIFFERENT positions of the token list occur in `s`. */
  lemma {:induction false} AtLeastTwoContained(s: string, tokens: seq<string>)
    ensures ContainedCount(s, tokens) >= 2 <==>
            exists j, k :: 0 <= j < k < |tokens| && Contains(s, tokens[j]) && Contains(s, tokens[k])
  {
    if tokens != [] {
      AtLeastTwoContained(s, tokens[1..]);
      AtLeastOneContained(s, tokens[1..]);
      assert forall j :: 1 <= j < |tokens| ==> tokens[j] == tokens[1..][j - 1];
      if ContainedCount(s, tokens) >= 2 {
        if Contains(s, tokens[0]) {
          var k :| 0 <= k < |tokens[1..]| && Contains(s, tokens[1..][k]);
          assert Contains(s, tokens[0]) && Contains(s, tokens[k + 1]);
        } else {
          var j, k :| 0 <= j < k < |tokens[1..]| && Contains(s, tokens[1..][j]) && Contains(s, tokens[1..][k]);
          assert Contains(s, tokens[j + 1]) && Contains(s, tokens[k + 1]);
        }
      }
      if exists j, k :: 0 <= j < k < |tokens| && Contains(s, tokens[j]) && Contains(s, tokens[k]) {
        var j, k :| 0 <= j < k < |tokens| && Contains(s, tokens[j]) && Contains(s, tokens[k]);
        if j == 0 {
          assert Contains(s, tokens[1..][k - 1]);
        } else {
          assert Contains(s, tokens[1..][j - 1]) && Contains(s, tokens[1..][k - 1]);
        }
      }
    }
  }

  /** `has_suspicious_tld`: 1 exactly when a listed TLD occurs ANYWHERE in the lower-cased URL. */
  function HasSuspiciousTld(url: string): (r: int)
    ensures r == 0 || r == 1
    ensures r == 1 <==> exists k, i :: 0 <= k < |SuspiciousTlds| && OccursAt(Lower(url), SuspiciousTlds[k], i)
  {
    if exists k :: 0 <= k < |SuspiciousTlds| && Contains(Lower(url), SuspiciousTlds[k]) then 1 else 0
  }

  /** `has_shortening_service`: 1 exactly when a listed shortener occurs anywhere in the lower-cased URL. */
  function HasShorteningService(url: string): (r: int)
    ensures r == 0 || r == 1
    ensures r == 1 <==> exists k, i :: 0 <= k < |ShorteningServices| && OccursAt(Lower(url), ShorteningServices[k], i)
  {
    if exists k :: 0 <= k < |ShorteningServices| && Contains(Lower(url), ShorteningServices[k]) then 1 else 0
  }

  /** The TLD test is a plain substring test, not a suffix test on the host:
      "https://www.mlflow.org" is flagged because it contains ".ml". */
  lemma TldTestIsSubstring()
    ensures HasSuspiciousTld("https://www.mlflow.org") == 1
  {
    var url := "https://www.mlflow.org";
    LowerKeeps(url);
    assert OccursAt(Lower(url), SuspiciousTlds[1], 11);
  }

  // ---------------------------------------------------------------------------
  // IP address pattern
  // ---------------------------------------------------------------------------

  /** `t` is matched in full by one alternative of `[01]?\d\d?|2[0-4]\d|25[0-5]`:
      one or two digits, or three digits starting with 0 or 1, or 200-255. */
  predicate IsOctet(t: string)
  {
    1 <= |t| <= 3 && (forall i :: 0 <= i < |t| ==> IsDigit(t[i])) &&
    (|t| == 3 ==> t[0] == '0' || t[0] == '1' || (t[0] == '2' && (t[1] <= '4' || (t[1] == '5' && t[2] <= '5'))))
  }

  /** `t` splits on dots into exactly `n` octets. */
  predicate OctetChain(t: string, n: nat)
  {
    |Split(t, '.')| == n && forall k :: 0 <= k < n ==> IsOctet(Split(t, '.')[k])
  }

  /** `t` is a dotted quad: four octets separated by dots. */
  predicate IsDottedQuad(t: string)
  {
    OctetChain(t, 4)
  }

  /** The regex matcher: `n` octets separated by dots start at index `i`,
      trying each octet length as backtracking would. */
  predicate OctetsFrom(s: string, i: nat, n: nat)
    requires i <= |s|
    decreases n, 1
  {
    n >= 1 && (OctetThen(s, i, 1, n) || OctetThen(s, i, 2, n) || OctetThen(s, i, 3, n))
  }

  predicate OctetThen(s: string, i: nat, len: nat, n: nat)
    requires i <= |s| && n >= 1
    decreases n, 0
  {
    i + len <= |s| && IsOctet(s[i..i + len]) &&
    (n == 1 || (i + len < |s| && s[i + len] == '.' && OctetsFrom(s, i + len + 1, n - 1)))
  }

  /** The matcher accepts at `i` exactly when some `s[i..j]` splits into `n` octets. */
  lemma OctetsFromSpec(s: string, i: nat, n: nat)
    requires i <= |s| && n >= 1
    ensures OctetsFrom(s, i, n) <==> exists j :: i <= j <= |s| && OctetChain(s[i..j], n)
  {
    if OctetsFrom(s, i, n) {
      OctetsFromSound(s, i, n);
    }
    if exists j :: i <= j <= |s| && OctetChain(s[i..j], n) {
      var j :| i <= j <= |s| && OctetChain(s[i..j], n);
      OctetsFromComplete(s, i, j, n);
    }
  }

  lemma {:induction false} OctetsFromSound(s: string, i: nat, n: nat)
    requires i <= |s| && n >= 1
    requires OctetsFrom(s, i, n)
    ensures exists j :: i <= j <= |s| && OctetChain(s[i..j], n)
    decreases n
  {
    var len := if OctetThen(s, i, 1, n) then 1 else if OctetThen(s, i, 2, n) then 2 else 3;
    assert OctetThen(s, i, len, n);
    var t1 := s[i..i + len];
    if n == 1 {
      assert '.' !in t1;
      SplitNoSep(t1, '.');
      assert OctetChain(s[i..i + len], n);
    } else {
      OctetsFromSound(s, i + len + 1, n - 1);
      var j :| i + len + 1 <= j <= |s| && OctetChain(s[i + len + 1..j], n - 1);
      SliceJoin(s, i, i + len, j);
      ChainCons(t1, s[i + len + 1..j], n - 1);
    }
  }

  /** An octet, a dot and a chain of `m` octets make a chain of `m + 1`. */
  lemma ChainCons(a: string, rest: string, m: nat)
    requires IsOctet(a) && OctetChain(rest, m)
    ensures OctetChain(a + ['.'] + rest, m + 1)
  {
    assert '.' !in a;
    SplitCons(a, rest, '.');
    var p := Split(a + ['.'] + rest, '.');
    forall k | 1 <= k < m + 1
      ensures IsOctet(p[k])
    {
      assert p[k] == Split(rest, '.')[k - 1];
    }
  }

  /** A slice is its part before `m`, the character at `m` and its part after. */
  lemma SliceJoin(s: string, i: nat, m: nat, j: nat)
    requires i <= m < j <= |s|
    ensures s[i..j] == s[i..m] + [s[m]] + s[m + 1..j]
  {
  }

  lemma {:induction false} OctetsFromComplete(s: string, i: nat, j: nat, n: nat)
    requires i <= j <= |s| && n >= 1
    requires OctetChain(s[i..j], n)
    ensures OctetsFrom(s, i, n)
    decreases n
  {
    var t := s[i..j];
    var a := Split(t, '.')[0];
    if n == 1 {
      JoinSplit(t, '.');
      assert t == a && s[i..i + |a|] == a;
      OctetStep(s, i, a, n);
    } else {
      ChainParts(t, n);
      var rest := Join(Split(t, '.')[1..], '.');
      SliceAround(s, i, j, a, rest, '.');
      OctetsFromComplete(s, i + |a| + 1, j, n - 1);
      OctetStep(s, i, a, n);
    }
  }

  /** The matcher takes one octet, then (unless it was the last) a dot and the rest. */
  lemma OctetStep(s: string, i: nat, a: string, n: nat)
    requires i + |a| <= |s| && s[i..i + |a|] == a && IsOctet(a) && n >= 1
    requires n > 1 ==> i + |a| < |s| && s[i + |a|] == '.' && OctetsFrom(s, i + |a| + 1, n - 1)
    ensures OctetsFrom(s, i, n)
  {
    assert OctetThen(s, i, |a|, n);
  }

  /** A chain of two or more octets is its first octet, a dot, and a shorter chain. */
  lemma ChainParts(t: string, n: nat)
    requires n >= 2 && OctetChain(t, n)
    ensures IsOctet(Split(t, '.')[0])
    ensures t == Split(t, '.')[0] + ['.'] + Join(Split(t, '.')[1..], '.')
    ensures OctetChain(Join(Split(t, '.')[1..], '.'), n - 1)
  {
    var p := Split(t, '.');
    JoinSplit(t, '.');
    SplitJoin(p[1..], '.');
    forall k | 0 <= k < n - 1
      ensures IsOctet(p[1..][k])
    {
      assert p[1..][k] == p[k + 1];
    }
  }

  /** A slice made of `a`, one separator and `b` locates each of the three in `s`. */
  lemma SliceAround(s: string, i: nat, j: nat, a: string, b: string, sep: char)
    requires i <= j <= |s| && s[i..j] == a + [sep] + b
    ensures i + |a| < j
    ensures s[i..i + |a|] == a && s[i + |a|] == sep && s[i + |a| + 1..j] == b
  {
    var t := s[i..j];
    assert t[..|a|] == a && t[|a|] == sep && t[|a| + 1..] == b;
  }

  /** `re.search`: try the pattern at every start index from `i` on. */
  predicate SearchIp(s: string, i: nat)
    requires i <= |s|
    decreases |s| - i
  {
    OctetsFrom(s, i, 4) || (i < |s| && SearchIp(s, i + 1))
  }

  lemma {:induction false} SearchIpSpec(s: string, i: nat)
    requires i <= |s|
    ensures SearchIp(s, i) <==> exists a, b :: i <= a <= b <= |s| && IsDottedQuad(s[a..b])
    decreases |s| - i
  {
    OctetsFromSpec(s, i, 4);
    if i < |s| {
      SearchIpSpec(s, i + 1);
      if exists a, b :: i <= a <= b <= |s| && IsDottedQuad(s[a..b]) {
        var a, b :| i <= a <= b <= |s| && IsDottedQuad(s[a..b]);
        if a == i {
          assert OctetsFrom(s, i, 4);
        } else {
          assert SearchIp(s, i + 1);
        }
      }
    } else {
      if exists a, b :: i <= a <= b <= |s| && IsDottedQuad(s[a..b]) {
        var a, b :| i <= a <= b <= |s| && IsDottedQuad(s[a..b]);
        assert a == i;
      }
    }
  }

  /** `having_ip_address`: 1 exactly when some substring of the URL is a dotted quad (no anchoring). */
  function HavingIpAddress(url: string): (r: int)
    ensures r == 0 || r == 1
    ensures r == 1 <==> exists a, b :: 0 <= a <= b <= |url| && IsDottedQuad(url[a..b])
  {
    SearchIpSpec(url, 0);
    if SearchIp(url, 0) then 1 else 0
  }

  /** Without anchoring, "999.1.1.1" counts as an IP: its substring "99.1.1.1" is a dotted quad. */
  lemma UnanchoredIpMatch()
    ensures HavingIpAddress("http://999.1.1.1/") == 1
  {
    var url := "http://999.1.1.1/";
    var t := url[8..16];
    assert t == "99" + ['.'] + ("1" + ['.'] + ("1" + ['.'] + "1"));
    SplitNoSep("1", '.');
    SplitCons("1", "1", '.');
    SplitCons("1", "1" + ['.'] + "1", '.');
    SplitCons("99", "1" + ['.'] + ("1" + ['.'] + "1"), '.');
    assert Split(t, '.') == ["99", "1", "1", "1"];
    assert IsDottedQuad(url[8..16]);
  }

  // ---------------------------------------------------------------------------
  // Rule cascade
  // ---------------------------------------------------------------------------

  datatype RiskLevel = Safe | HighRisk | MediumRisk

  datatype Analysis = Analysis(riskLevel: RiskLevel, reason: Reason, confidence: real)

  predicate IsWhitelisted(url: string)
  {
    ExtractDomain(url) in KnownLegitimateDomains
  }

  /** Suspicious TLD anywhere in the URL plus at least two distinct phishing keywords. */
  predicate TldWithKeywords(url: string)
  {
    HasSuspiciousTld(url) == 1 && ContainedCount(Lower(url), PhishingKeywords) >= 2
  }

  /** `analyze_url_security`: the first rule that fires decides; `None` when none does. */
  function AnalyzeUrlSecurity(url: string): (r: Option<Analysis>)
    ensures r == Some(Analysis(Safe, Whitelisted, 0.99)) <==> IsWhitelisted(url)
    ensures r == Some(Analysis(HighRisk, SuspiciousTldKeywords, 0.85)) <==>
              !IsWhitelisted(url) && TldWithKeywords(url)
    ensures r == Some(Analysis(MediumRisk, IpAddressUrl, 0.75)) <==>
              !IsWhitelisted(url) && !TldWithKeywords(url) && HavingIpAddress(url) == 1
    ensures r == None <==>
              !IsWhitelisted(url) && !TldWithKeywords(url) && HavingIpAddress(url) == 0
  {
    if IsWhitelisted(url) then Some(Analysis(Safe, Whitelisted, 0.99))
    else if TldWithKeywords(url) then Some(Analysis(HighRisk, SuspiciousTldKeywords, 0.85))
    else if HavingIpAddress(url) == 1 then Some(Analysis(MediumRisk, IpAddressUrl, 0.75))
    else None
  }

  /** Only the whitelist rule yields SAFE; the other two rules both flag the URL. */
  lemma SafeOnlyWhenWhitelisted(url: string)
    ensures AnalyzeUrlSecurity(url).Some? && AnalyzeUrlSecurity(url).value.riskLevel == Safe <==> IsWhitelisted(url)
  {
  }

  // ---------------------------------------------------------------------------
  // Integer features
  // ---------------------------------------------------------------------------

  /** The integer fields of `get_url_features` (the float fields are not modelled). */
  datatype UrlFeatures = UrlFeatures(
    urlLength: nat, numDots: nat, numHyphens: nat, numUnderscores: nat, numSlashes: nat,
    numQuestions: nat, numEquals: nat, numAt: nat, numAmpersands: nat, numDigits: nat,
    numSpecialChars: nat, useOfIp: int, isHttps: int, suspiciousTld: int, hasShortening: int)

  function GetUrlFeatures(url: string): (f: UrlFeatures)
    ensures f.urlLength == |url|
    ensures f.numDots == multiset(url)['.'] && f.numHyphens == multiset(url)['-']
    ensures f.numUnderscores == multiset(url)['_'] && f.numSlashes == multiset(url)['/']
    ensures f.numQuestions == multiset(url)['?'] && f.numEquals == multiset(url)['=']
    ensures f.numAt == multiset(url)['@'] && f.numAmpersands == multiset(url)['&']
    ensures f.numDigits == CountWhere(url, IsDigit) && f.numSpecialChars == CountSpecialChars(url)
    ensures f.numDigits + CountWhere(url, IsLetter) + f.numSpecialChars == f.urlLength
    ensures f.useOfIp == HavingIpAddress(url)
    ensures f.suspiciousTld == HasSuspiciousTld(url) && f.hasShortening == HasShorteningService(url)
    ensures f.isHttps == 1 <==> exists i :: OccursAt(Lower(url), "https", i)
    ensures f.useOfIp in {0, 1} && f.isHttps in {0, 1} && f.suspiciousTld in {0, 1} && f.hasShortening in {0, 1}
  {
    CharClassesPartition(url);
    UrlFeatures(
      |url|, CountChar(url, '.'), CountChar(url, '-'), CountChar(url, '_'), CountChar(url, '/'),
      CountChar(url, '?'), CountChar(url, '='), CountChar(url, '@'), CountChar(url, '&'),
      CountWhere(url, IsDigit), CountSpecialChars(url), HavingIpAddress(url),
      if Contains(Lower(url), "https") then 1 else 0,
      HasSuspiciousTld(url), HasShorteningService(url))
  }
}
