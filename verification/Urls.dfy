/** Host extraction and the domain test of the network policies. */
module Urls {
  import opened Wrappers
  import opened Contract
  import opened Policies
  import opened Strings

  /** The first position at which `sep` occurs in `s`, or the length of `s`. */
  function Find(s: string, sep: string): (k: nat)
    ensures k <= |s|
    ensures k < |s| ==> sep <= s[k..]
    ensures sep != [] ==> forall i :: 0 <= i < k ==> !(sep <= s[i..])
  {
    if s == [] || sep <= s then 0
    else
      var k := 1 + Find(s[1..], sep);
      assert forall i :: 1 <= i <= |s| ==> s[i..] == s[1..][i - 1..];
      k
  }

  /** Everything before the first `c`. */
  function UpTo(s: string, c: char): string {
    s[..Find(s, [c])]
  }

  function ExtractHost(url: string): Option<string> {
    var k := Find(url, "://");
    if k == |url| then None
    else
      var host := UpTo(UpTo(url[k + 3..], '/'), ':');
      if host == "" then None else Some(host)
  }

  predicate EndsWith(s: string, suffix: string) {
    |suffix| <= |s| && s[|s| - |suffix|..] == suffix
  }

  predicate UnderDomain(host: string, domain: string) {
    host == domain || EndsWith(host, "." + domain)
  }

  function AllowDomainFetchPolicy(domain: string): Policy {
    Policy("network.allow_domain_fetch", (ctx: PolicyContext, a: Action) =>
      if a.NetworkFetchAction? && ExtractHost(a.url).Some? && UnderDomain(ExtractHost(a.url).value, domain)
      then AllowFor("URL host is under allowed domain")
      else AbstainFor("URL host is outside allowed domain"))
  }

  // ----- Hosts -----

  /** No `sep` begins inside `before`, even across its end. */
  ghost predicate EndsAtFirst(before: string, sep: string) {
    forall i :: 0 <= i < |before| ==> !(sep <= (before + sep)[i..])
  }

  ghost predicate SchemeOk(scheme: string) {
    EndsAtFirst(scheme, "://")
  }

  ghost predicate HostOk(host: string) {
    host != "" && '/' !in host && ':' !in host
  }

  ghost predicate RestOk(rest: string) {
    rest == "" || rest[0] == '/' || rest[0] == ':'
  }

  lemma FindIs(s: string, sep: string, k: nat)
    requires sep != [] && k <= |s| && (k < |s| ==> sep <= s[k..])
    requires forall i :: 0 <= i < k ==> !(sep <= s[i..])
    ensures Find(s, sep) == k
  {
  }

  lemma SchemeEnds(scheme: string, tail: string)
    requires SchemeOk(scheme)
    ensures Find(scheme + "://" + tail, "://") == |scheme|
  {
    var url := scheme + "://" + tail;
    forall i | 0 <= i < |scheme|
      ensures !("://" <= url[i..])
    {
      assert (scheme + "://")[i..][..3] == url[i..][..3];
    }
    assert url[|scheme|..] == "://" + tail;
    FindIs(url, "://", |scheme|);
  }

  lemma UpToStops(before: string, c: char, tail: string)
    requires c !in before && (tail == "" || tail[0] == c)
    ensures UpTo(before + tail, c) == before
  {
    var s := before + tail;
    forall i | 0 <= i < |before|
      ensures !([c] <= s[i..])
    {
      assert s[i..][0] == before[i];
    }
    assert s[|before|..] == tail;
    FindIs(s, [c], |before|);
  }

  lemma HostOfAuthority(host: string, rest: string)
    requires HostOk(host) && RestOk(rest)
    ensures UpTo(UpTo(host + rest, '/'), ':') == host
  {
    var k := Find(rest, "/");
    assert UpTo(rest, '/') == rest[..k];
    var s := host + rest;
    forall i | 0 <= i < |host| + k
      ensures !("/" <= s[i..])
    {
      if i < |host| {
        assert s[i..][0] == host[i];
      } else {
        assert s[i..] == rest[i - |host|..];
      }
    }
    if k < |rest| { assert s[|host| + k..] == rest[k..]; }
    FindIs(s, "/", |host| + k);
    assert UpTo(s, '/') == host + rest[..k];
    UpToStops(host, ':', rest[..k]);
  }

  /** On a URL of this shape the extracted host is the host. */
  lemma ExtractsHost(scheme: string, host: string, rest: string)
    requires SchemeOk(scheme) && HostOk(host) && RestOk(rest)
    ensures ExtractHost(scheme + "://" + host + rest) == Some(host)
  {
    var url := scheme + "://" + (host + rest);
    assert url == scheme + "://" + host + rest;
    SchemeEnds(scheme, host + rest);
    assert url[|scheme| + 3..] == host + rest;
    HostOfAuthority(host, rest);
  }

  lemma UpToSplits(s: string, c: char)
    ensures c !in UpTo(s, c)
    ensures s == UpTo(s, c) + s[|UpTo(s, c)|..]
    ensures |UpTo(s, c)| < |s| ==> s[|UpTo(s, c)|] == c
  {
    var k := Find(s, [c]);
    forall i | 0 <= i < k
      ensures s[i] != c
    {
      assert !([c] <= s[i..]);
      assert s[i..][0] == s[i];
    }
    if k < |s| { assert s[k..][0] == c; }
  }

  lemma CutAfter<T>(s: seq<T>, sep: seq<T>, k: nat)
    requires k < |s| && sep <= s[k..]
    ensures k + |sep| <= |s| && s[..k] + sep <= s && s == s[..k] + sep + s[k + |sep|..]
  {
    assert s[k..][..|sep|] == s[k..k + |sep|];
  }

  lemma OccursInWhole<T>(part: seq<T>, s: seq<T>, sep: seq<T>, i: nat)
    requires part <= s && i <= |part| && sep <= part[i..]
    ensures sep <= s[i..]
  {
  }

  lemma AbsentFromPrefix<T>(part: seq<T>, s: seq<T>, sep: seq<T>, k: nat)
    requires part <= s && k <= |part| && forall i :: 0 <= i < k ==> !(sep <= s[i..])
    ensures forall i :: 0 <= i < k ==> !(sep <= part[i..])
  {
    forall i | 0 <= i < k && sep <= part[i..]
      ensures false
    {
      OccursInWhole(part, s, sep, i);
    }
  }

  lemma FoundFirst(s: string, sep: string, k: nat)
    requires sep != [] && k == Find(s, sep) < |s|
    ensures k + |sep| <= |s| && EndsAtFirst(s[..k], sep)
  {
    CutAfter(s, sep, k);
    AbsentFromPrefix(s[..k] + sep, s, sep, k);
  }

  lemma SchemeBefore(url: string, k: nat)
    requires k == Find(url, "://") < |url|
    ensures k + 3 <= |url| && SchemeOk(url[..k])
    ensures url == url[..k] + "://" + url[k + 3..]
  {
    FoundFirst(url, "://", k);
    CutAfter(url, "://", k);
  }

  lemma AuthorityParts(tail: string)
    ensures
      var host := UpTo(UpTo(tail, '/'), ':');
      && '/' !in host && ':' !in host
      && |host| <= |tail| && tail == host + tail[|host|..] && RestOk(tail[|host|..])
  {
    var authority := UpTo(tail, '/');
    UpToSplits(tail, '/');
    UpToSplits(authority, ':');
  }

  /** Whatever is extracted is the host of such a decomposition of the URL. */
  lemma ExtractedIsHost(url: string) returns (scheme: string, rest: string)
    requires ExtractHost(url).Some?
    ensures
      var host := ExtractHost(url).value;
      SchemeOk(scheme) && HostOk(host) && RestOk(rest) && url == scheme + "://" + host + rest
  {
    var k := Find(url, "://");
    SchemeBefore(url, k);
    AuthorityParts(url[k + 3..]);
    var host := ExtractHost(url).value;
    scheme, rest := url[..k], url[k + 3..][|host|..];
    JoinParts(scheme, "://", host, rest);
  }

  /** The URL reads as `scheme`, the separator, `host`, and something that cannot continue the host. */
  ghost predicate Splits(url: string, scheme: string, host: string, rest: string) {
    SchemeOk(scheme) && HostOk(host) && RestOk(rest) && url == scheme + "://" + host + rest
  }

  /** A host is extracted exactly when the URL splits around it; so no URL splits around two. */
  lemma HostIsExtractedIff(url: string, host: string)
    ensures ExtractHost(url) == Some(host) <==> exists scheme, rest :: Splits(url, scheme, host, rest)
  {
    if ExtractHost(url) == Some(host) {
      var scheme, rest := ExtractedIsHost(url);
      assert Splits(url, scheme, host, rest);
    }
    forall scheme, rest | Splits(url, scheme, host, rest)
      ensures ExtractHost(url) == Some(host)
    {
      ExtractsHost(scheme, host, rest);
    }
  }

  lemma JoinParts(a: string, b: string, c: string, d: string)
    ensures a + b + (c + d) == a + b + c + d
  {
  }

  // ----- Domains -----

  /** The dot-separated labels. */
  function Labels(s: string): seq<string> {
    Split(s, '.')
  }

  ghost predicate IsSuffix(xs: seq<string>, ys: seq<string>) {
    |xs| <= |ys| && ys[|ys| - |xs|..] == xs
  }

  /** The domain test is label-aligned: it asks whether the domain's labels end the host's. */
  lemma DomainIsLabelSuffix(host: string, domain: string)
    ensures UnderDomain(host, domain) <==> IsSuffix(Labels(domain), Labels(host))
  {
    if host != domain && EndsWith(host, "." + domain) {
      var head := host[..|host| - |domain| - 1];
      assert host == head + ("." + domain) == head + "." + domain;
      SplitOfJoin(head, '.', domain);
    }
    if IsSuffix(Labels(domain), Labels(host)) {
      var k := |Labels(host)| - |Labels(domain)|;
      if k == 0 {
        assert Labels(host)[0..] == Labels(host);
        SplitInjective(host, domain, '.');
      } else {
        var head, tail := SuffixAfter(host, '.', k);
        SplitInjective(tail, domain, '.');
        assert host[|head|..] == "." + domain;
      }
    }
  }

  /** A host under a domain that is itself under another is under that one too. */
  lemma DomainsNest(host: string, domain: string, outer: string)
    requires UnderDomain(host, domain) && UnderDomain(domain, outer)
    ensures UnderDomain(host, outer)
  {
    DomainIsLabelSuffix(host, domain);
    DomainIsLabelSuffix(domain, outer);
    DomainIsLabelSuffix(host, outer);
    var h, d, o := Labels(host), Labels(domain), Labels(outer);
    assert h[|h| - |o|..] == h[|h| - |d|..][|d| - |o|..];
  }

  /** The domain policy allows exactly the URLs with a host whose labels end in the domain's; it never denies. */
  lemma DomainPolicyAllowsIff(domain: string, ctx: PolicyContext, url: string)
    ensures
      AllowDomainFetchPolicy(domain).grant(ctx, NetworkFetchAction(url)).decision ==
      match ExtractHost(url)
      case Some(host) => if IsSuffix(Labels(domain), Labels(host)) then Allow else Abstain
      case None => Abstain
  {
    if ExtractHost(url).Some? {
      DomainIsLabelSuffix(ExtractHost(url).value, domain);
    }
  }
}
