/** HTTP virtual hosts: reading the request head, registering domains, routing by host. */
module HttpVhost {
  import opened Bytes

  // ----- the request head -----

  const CRLF: seq<byte> := [13, 10]
  const MAX_HEADERS := 8192
  const LINE_LIMIT := 65536   // StreamReader.readline refuses longer lines

  datatype Head =
    | Head(first: seq<byte>, headers: seq<byte>, used: nat)
    | TooLarge
    | NoRequest
    | Starved   // the next line does not come in time

  /** End of file and the empty line end the head. */
  predicate Ends(line: seq<byte>) {
    line == [] || line == CRLF
  }

  /** The header lines before line k: all but the first. */
  function HeadersTo(lines: seq<seq<byte>>, k: nat): seq<byte>
    requires k <= |lines|
  {
    if k <= 1 then [] else HeadersTo(lines, k - 1) + lines[k - 1]
  }

  /** The loop goes on after each of the lines before k: none ends the head, and the headers
      have not grown past the limit. */
  ghost predicate GoesOn(lines: seq<seq<byte>>, k: nat)
    requires k <= |lines|
  {
    forall i :: 0 <= i < k ==> !Ends(lines[i]) && |HeadersTo(lines, i + 1)| <= MAX_HEADERS
  }

  /** Line k is where a complete head ends. */
  ghost predicate HeadEndsAt(lines: seq<seq<byte>>, k: nat) {
    && k < |lines|
    && GoesOn(lines, k)
    && Ends(lines[k])
    && lines[0] != []
  }

  /** Line k is where the headers grow past the limit. */
  ghost predicate OverflowsAt(lines: seq<seq<byte>>, k: nat) {
    && k < |lines|
    && GoesOn(lines, k)
    && !Ends(lines[k])
    && |HeadersTo(lines, k + 1)| > MAX_HEADERS
  }

  lemma GoesOnMore(lines: seq<seq<byte>>, i: nat)
    requires i < |lines| && GoesOn(lines, i) && !Ends(lines[i]) && |HeadersTo(lines, i + 1)| <= MAX_HEADERS
    ensures GoesOn(lines, i + 1)
  {
    hide HeadersTo;
    forall j | 0 <= j < i + 1
      ensures !Ends(lines[j]) && |HeadersTo(lines, j + 1)| <= MAX_HEADERS
    {
    }
  }

  /** The loop stops at one line only. */
  lemma OneStop(lines: seq<seq<byte>>, k: nat)
    requires k < |lines| && GoesOn(lines, k) && (Ends(lines[k]) || |HeadersTo(lines, k + 1)| > MAX_HEADERS)
    ensures forall j :: HeadEndsAt(lines, j) || OverflowsAt(lines, j) ==> j == k
    ensures !GoesOn(lines, |lines|)
  {
  }

  lemma {:induction false} HeadIsLines(lines: seq<seq<byte>>, n: nat)
    requires 0 < n <= |lines|
    ensures lines[0] + HeadersTo(lines, n) == Flatten(lines[..n])
  {
    var before, last := lines[..n - 1], lines[n - 1];
    assert lines[..n] == before + [last];
    FlattenSnoc(before, last);
    if n == 1 {
      assert before == [] && Flatten(before) == [];
      assert lines[0] + [] == [] + last;
    } else {
      HeadIsLines(lines, n - 1);
      Assoc(lines[0], HeadersTo(lines, n - 1), last);
    }
  }

  /** `lines` are the results of successive readline calls; an empty one is end of file. There
      is a head exactly when some line ends it before the headers overflow; it is made of exactly
      the lines read. */
  method ReadHead(lines: seq<seq<byte>>) returns (head: Head)
    ensures head.Head? <==> exists k :: HeadEndsAt(lines, k)
    ensures head.Head? ==> 0 < head.used <= |lines| && HeadEndsAt(lines, head.used - 1)
    ensures head.Head? ==> head.first == lines[0] && head.first + head.headers == Flatten(lines[..head.used])
    ensures head.Head? && (forall i :: 0 <= i < |lines| ==> |lines[i]| <= LINE_LIMIT)
            ==> |head.first + head.headers| <= LINE_LIMIT + MAX_HEADERS + |CRLF|
    ensures head.TooLarge? <==> exists k :: OverflowsAt(lines, k)
    ensures head.NoRequest? <==> |lines| > 0 && lines[0] == []
    ensures head.Starved? <==> GoesOn(lines, |lines|)
  {
    hide Flatten;
    var first, headers: seq<byte> := [], [];
    var i := 0;
    while i < |lines|
      invariant i <= |lines| && GoesOn(lines, i)
      invariant headers == HeadersTo(lines, i) && |headers| <= MAX_HEADERS
      invariant first == if i == 0 then [] else lines[0]
    {
      var line := lines[i];
      if line == [] {
        break;
      }
      if first == [] {
        first := line;
      } else {
        headers := headers + line;
      }
      if line == CRLF {
        break;
      }
      assert headers == HeadersTo(lines, i + 1);
      if |headers| > MAX_HEADERS {
        OneStop(lines, i);
        assert OverflowsAt(lines, i);
        return TooLarge;
      }
      GoesOnMore(lines, i);
      i := i + 1;
    }
    if i == |lines| {
      return Starved;
    }
    OneStop(lines, i);
    if first == [] {
      return NoRequest;
    }
    assert HeadEndsAt(lines, i);
    assert headers + [] == headers;
    HeadIsLines(lines, i + 1);
    return Head(first, headers, i + 1);
  }

  // ----- domains -----

  function LowerChar(c: char): char {
    if 'A' <= c <= 'Z' then (c as int + 32) as char else c
  }

  function Lower(s: string): (l: string)
    ensures |l| == |s|
  {
    if s == "" then "" else [LowerChar(s[0])] + Lower(s[1..])
  }

  datatype Info = Info(customDomains: seq<string>, subdomain: string, writer: nat, session: Option<string>)

  function SubdomainName(subdomain: string, subdomainHost: string): string {
    Lower(subdomain) + "." + Lower(subdomainHost)
  }

  /** `all_domains` of a registration. */
  function DomainList(info: Info, subdomainHost: string): seq<string> {
    seq(|info.customDomains|, i requires 0 <= i < |info.customDomains| => Lower(info.customDomains[i]))
    + (if info.subdomain != "" && subdomainHost != "" then [SubdomainName(info.subdomain, subdomainHost)] else [])
  }

  function Domains(info: Info, subdomainHost: string): set<string> {
    set d | d in DomainList(info, subdomainHost)
  }

  type Table = map<string, Info>

  /** Whether a registration is taken. */
  predicate Accepts(t: Table, subdomainHost: string, name: string, info: Info) {
    && name != ""
    && (info.customDomains != [] || info.subdomain != "")
    && name !in t
    && (info.subdomain != "" ==> subdomainHost != "")
    && forall n :: n in t ==> Domains(info, subdomainHost) !! Domains(t[n], subdomainHost)
  }

  function Register(t: Table, subdomainHost: string, name: string, info: Info): Table {
    if Accepts(t, subdomainHost, name, info) then t[name := info] else t
  }

  // ----- every reachable table -----

  datatype Event = Registers(name: string, info: Info) | Removed(names: set<string>)

  function Run(subdomainHost: string, events: seq<Event>): Table {
    if events == [] then map[]
    else
      var t := Run(subdomainHost, events[..|events| - 1]);
      match events[|events| - 1]
      case Registers(name, info) => Register(t, subdomainHost, name, info)
      case Removed(names) => t - names
  }

  ghost predicate PairwiseDisjoint(t: Table, subdomainHost: string) {
    forall m, n :: m in t && n in t && m != n ==> Domains(t[m], subdomainHost) !! Domains(t[n], subdomainHost)
  }

  lemma RegisterKeepsDisjoint(t: Table, subdomainHost: string, name: string, info: Info)
    requires PairwiseDisjoint(t, subdomainHost)
    ensures PairwiseDisjoint(Register(t, subdomainHost, name, info), subdomainHost)
  {
  }

  lemma {:induction false} RunDisjoint(subdomainHost: string, events: seq<Event>)
    ensures PairwiseDisjoint(Run(subdomainHost, events), subdomainHost)
  {
    if events != [] {
      RunDisjoint(subdomainHost, events[..|events| - 1]);
    }
  }

  // ----- routing -----

  /** The host belongs to this proxy: one of its domains, or its subdomain. */
  predicate Serves(info: Info, subdomainHost: string, host: string) {
    || (exists i :: 0 <= i < |info.customDomains| && Lower(info.customDomains[i]) == host)
    || (info.subdomain != "" && subdomainHost != "" && SubdomainName(info.subdomain, subdomainHost) == host)
  }

  /** The first match in dictionary order. */
  function Route(t: Table, subdomainHost: string, order: seq<string>, host: string): Option<string> {
    if order == [] then None
    else if order[0] in t && Serves(t[order[0]], subdomainHost, host) then Some(order[0])
    else Route(t, subdomainHost, order[1..], host)
  }

  lemma ServesIff(info: Info, subdomainHost: string, host: string)
    ensures Serves(info, subdomainHost, host) <==> host in Domains(info, subdomainHost)
  {
    var list, n := DomainList(info, subdomainHost), |info.customDomains|;
    if Serves(info, subdomainHost, host) {
      if i :| 0 <= i < n && Lower(info.customDomains[i]) == host {
        assert list[i] == host;
      } else {
        assert list[n] == host;
      }
    }
    if host in Domains(info, subdomainHost) {
      var i :| 0 <= i < |list| && list[i] == host;
      assert i < n ==> Lower(info.customDomains[i]) == host;
    }
  }

  lemma {:induction false} RouteFindsSome(t: Table, subdomainHost: string, order: seq<string>, host: string)
    ensures match Route(t, subdomainHost, order, host)
            case Some(p) => p in order && p in t && Serves(t[p], subdomainHost, host)
            case None => forall p :: p in order && p in t ==> !Serves(t[p], subdomainHost, host)
  {
    if order != [] {
      RouteFindsSome(t, subdomainHost, order[1..], host);
    }
  }

  // ----- which hosts belong to a proxy -----

  /** The same character, or the same ASCII letter in the other case. */
  predicate SameLetter(a: char, b: char) {
    || a == b
    || ('A' <= a <= 'Z' && b as int == a as int + 32)
    || ('a' <= a <= 'z' && b as int == a as int - 32)
  }

  predicate SameText(s: string, t: string) {
    |s| == |t| && forall i :: 0 <= i < |s| ==> SameLetter(s[i], t[i])
  }

  /** The host is one of the proxy's domains, or its subdomain, a dot and the server's host, each
      up to letter case. */
  ghost predicate Belongs(info: Info, subdomainHost: string, host: string) {
    || (exists i :: 0 <= i < |info.customDomains| && SameText(host, info.customDomains[i]))
    || (info.subdomain != "" && subdomainHost != ""
        && exists n :: 0 <= n < |host| && host[n] == '.' && SameText(host[..n], info.subdomain)
                       && SameText(host[n + 1..], subdomainHost))
  }

  lemma {:induction false} SameTextIff(s: string, t: string)
    ensures Lower(s) == Lower(t) <==> SameText(s, t)
  {
    if s != "" && t != "" {
      SameTextIff(s[1..], t[1..]);
      var s', t' := s[1..], t[1..];
      assert Lower(s) == [LowerChar(s[0])] + Lower(s') && Lower(t) == [LowerChar(t[0])] + Lower(t');
      assert Lower(s)[1..] == Lower(s') && Lower(t)[1..] == Lower(t');
      SameTextFirst(s, t);
    }
  }

  lemma SameTextFirst(s: string, t: string)
    requires s != "" && t != ""
    ensures SameText(s, t) <==> SameLetter(s[0], t[0]) && SameText(s[1..], t[1..])
  {
    var s', t' := s[1..], t[1..];
    if SameText(s, t) {
      forall i | 0 <= i < |s'|
        ensures SameLetter(s'[i], t'[i])
      {
        assert SameLetter(s[i + 1], t[i + 1]);
      }
    }
    if SameLetter(s[0], t[0]) && SameText(s', t') {
      forall i | 0 <= i < |s|
        ensures SameLetter(s[i], t[i])
      {
        assert i > 0 ==> s[i] == s'[i - 1] && t[i] == t'[i - 1];
      }
    }
  }

  lemma {:induction false} LowerConcat(s: string, t: string)
    ensures Lower(s + t) == Lower(s) + Lower(t)
  {
    if s == "" {
      assert s + t == t;
    } else {
      assert (s + t)[1..] == s[1..] + t;
      LowerConcat(s[1..], t);
    }
  }

  lemma {:induction false} LowerAt(s: string, i: nat)
    requires i < |s|
    ensures Lower(s)[i] == LowerChar(s[i])
  {
    if i > 0 {
      LowerAt(s[1..], i - 1);
    }
  }

  lemma Dotted(a: string, b: string, host: string)
    ensures Lower(host) == Lower(a) + "." + Lower(b)
        <==> exists n :: 0 <= n < |host| && host[n] == '.' && SameText(host[..n], a) && SameText(host[n + 1..], b)
  {
    hide SameText, Lower;
    if n :| 0 <= n < |host| && host[n] == '.' && SameText(host[..n], a) && SameText(host[n + 1..], b) {
      assert |host[..n]| == |a| by { SameTextIff(host[..n], a); }
      DottedAt(a, b, host, n);
    }
    if Lower(host) == Lower(a) + "." + Lower(b) {
      DotStands(a, b, host);
      DottedAt(a, b, host, |a|);
    }
  }

  lemma DotStands(a: string, b: string, host: string)
    requires Lower(host) == Lower(a) + "." + Lower(b)
    ensures |a| < |host| && host[|a|] == '.'
  {
    LowerAt(host, |a|);
  }

  lemma DottedAt(a: string, b: string, host: string, n: nat)
    requires n < |host| && host[n] == '.' && n == |a|
    ensures Lower(host) == Lower(a) + "." + Lower(b) <==> SameText(host[..n], a) && SameText(host[n + 1..], b)
  {
    var left, right := host[..n], host[n + 1..];
    assert host == left + "." + right;
    LowerConcat(left + ".", right);
    LowerConcat(left, ".");
    assert "."[1..] == "" && Lower(".") == ".";
    SameTextIff(left, a);
    SameTextIff(right, b);
    var x, y := Lower(left) + "." + Lower(right), Lower(a) + "." + Lower(b);
    assert x[..n] == Lower(left) && x[n + 1..] == Lower(right);
    assert y[..n] == Lower(a) && y[n + 1..] == Lower(b);
  }

  lemma BelongsIff(info: Info, subdomainHost: string, host: string)
    ensures Serves(info, subdomainHost, Lower(host)) <==> Belongs(info, subdomainHost, host)
  {
    forall i | 0 <= i < |info.customDomains|
      ensures Lower(info.customDomains[i]) == Lower(host) <==> SameText(host, info.customDomains[i])
    {
      SameTextIff(host, info.customDomains[i]);
    }
    Dotted(info.subdomain, subdomainHost, host);
  }

  lemma {:induction false} LowerTwice(s: string)
    ensures Lower(Lower(s)) == Lower(s)
  {
    if s != "" {
      assert Lower(s)[1..] == Lower(s[1..]);
      LowerTwice(s[1..]);
    }
  }

  lemma DomainIsLower(info: Info, subdomainHost: string, d: string)
    requires d in Domains(info, subdomainHost)
    ensures Lower(d) == d
  {
    var list, n := DomainList(info, subdomainHost), |info.customDomains|;
    var i :| 0 <= i < |list| && list[i] == d;
    if i < n {
      LowerTwice(info.customDomains[i]);
    } else {
      LowerTwice(info.subdomain);
      LowerTwice(subdomainHost);
      LowerConcat(Lower(info.subdomain) + ".", Lower(subdomainHost));
      LowerConcat(Lower(info.subdomain), ".");
      assert "."[1..] == "" && Lower(".") == ".";
    }
  }

  /** Two proxies share no domain exactly when no host belongs to both. */
  lemma NoHostOfBoth(a: Info, b: Info, subdomainHost: string)
    ensures Domains(a, subdomainHost) !! Domains(b, subdomainHost)
        <==> forall host :: !(Belongs(a, subdomainHost, host) && Belongs(b, subdomainHost, host))
  {
    forall host
      ensures Belongs(a, subdomainHost, host) <==> Lower(host) in Domains(a, subdomainHost)
      ensures Belongs(b, subdomainHost, host) <==> Lower(host) in Domains(b, subdomainHost)
    {
      BelongsIff(a, subdomainHost, host);
      BelongsIff(b, subdomainHost, host);
      ServesIff(a, subdomainHost, Lower(host));
      ServesIff(b, subdomainHost, Lower(host));
    }
    forall d | d in Domains(a, subdomainHost) && d in Domains(b, subdomainHost)
      ensures Belongs(a, subdomainHost, d) && Belongs(b, subdomainHost, d)
    {
      DomainIsLower(a, subdomainHost, d);
    }
  }

  /** A registration adds its entry exactly when the name is given and new, it names some domain,
      a subdomain has a server host to stand under, and no host belongs to it and to another. */
  lemma RegistersIff(subdomainHost: string, events: seq<Event>, name: string, info: Info)
    ensures var t := Run(subdomainHost, events);
            Run(subdomainHost, events + [Registers(name, info)]) ==
              if name != "" && name !in t
                 && (info.customDomains != [] || info.subdomain != "")
                 && (info.subdomain != "" ==> subdomainHost != "")
                 && (forall n :: n in t ==>
                       forall host :: !(Belongs(info, subdomainHost, host) && Belongs(t[n], subdomainHost, host)))
              then t[name := info] else t
  {
    var t, e := Run(subdomainHost, events), Registers(name, info);
    assert (events + [e])[..|events|] == events;
    forall n | n in t
      ensures Domains(info, subdomainHost) !! Domains(t[n], subdomainHost)
          <==> forall host :: !(Belongs(info, subdomainHost, host) && Belongs(t[n], subdomainHost, host))
    {
      NoHostOfBoth(info, t[n], subdomainHost);
    }
  }

  /** Removal takes exactly the named entries away. */
  lemma RemovesNamed(subdomainHost: string, events: seq<Event>, names: set<string>)
    ensures var t, t' := Run(subdomainHost, events), Run(subdomainHost, events + [Removed(names)]);
            forall n :: (n in t' <==> n in t && n !in names) && (n in t' ==> t'[n] == t[n])
  {
    assert (events + [Removed(names)])[..|events|] == events;
  }

  lemma RouteBelongs(t: Table, subdomainHost: string, order: seq<string>, host: string, p: string)
    requires PairwiseDisjoint(t, subdomainHost) && forall n :: n in order <==> n in t
    ensures Route(t, subdomainHost, order, Lower(host)) == Some(p) <==> p in t && Belongs(t[p], subdomainHost, host)
  {
    RouteFindsSome(t, subdomainHost, order, Lower(host));
    forall n | n in t
      ensures Belongs(t[n], subdomainHost, host) <==> Lower(host) in Domains(t[n], subdomainHost)
      ensures Belongs(t[n], subdomainHost, host) <==> Serves(t[n], subdomainHost, Lower(host))
    {
      BelongsIff(t[n], subdomainHost, host);
      ServesIff(t[n], subdomainHost, Lower(host));
    }
  }

  /** Routing is a function of the host: in every reachable state, in any order of the
      dictionary, the first match is p exactly when the host belongs to p. */
  lemma RouteIsFunction(subdomainHost: string, events: seq<Event>, order: seq<string>, host: string, p: string)
    requires forall n :: n in order <==> n in Run(subdomainHost, events)
    ensures var t := Run(subdomainHost, events);
            Route(t, subdomainHost, order, Lower(host)) == Some(p) <==> p in t && Belongs(t[p], subdomainHost, host)
  {
    RunDisjoint(subdomainHost, events);
    RouteBelongs(Run(subdomainHost, events), subdomainHost, order, host, p);
  }

  // ----- the server's loops -----

  lemma DisjointIff(a: Info, b: Info, subdomainHost: string)
    ensures Domains(a, subdomainHost) !! Domains(b, subdomainHost)
        <==> forall d :: d in DomainList(a, subdomainHost) ==> d !in DomainList(b, subdomainHost)
  {
    forall d
      ensures d in DomainList(a, subdomainHost) <==> d in Domains(a, subdomainHost)
      ensures d in DomainList(b, subdomainHost) <==> d in Domains(b, subdomainHost)
    {
    }
  }

  /** The inner loop of the conflict check. */
  method SharesDomain(all: seq<string>, existing: seq<string>) returns (shared: bool)
    ensures shared <==> !(forall d :: d in all ==> d !in existing)
  {
    for j := 0 to |all|
      invariant forall d :: d in all[..j] ==> d !in existing
    {
      if all[j] in existing {
        return true;
      }
      assert all[..j + 1] == all[..j] + [all[j]];
    }
    assert all[..|all|] == all;
    return false;
  }

  class VhostServer {
    const subdomainHost: string
    var httpProxies: Table
    var order: seq<string>   // the dictionary's own order

    ghost predicate Valid()
      reads this
    {
      && (forall n :: n in order <==> n in httpProxies)
      && PairwiseDisjoint(httpProxies, subdomainHost)
    }

    constructor (subdomainHost: string)
      ensures Valid() && httpProxies == map[] && this.subdomainHost == subdomainHost
    {
      this.subdomainHost := subdomainHost;
      httpProxies, order := map[], [];
    }

    /** `_register_http_proxy`: the conflict check is a loop over proxies and domains. */
    method RegisterProxy(name: string, info: Info) returns (ok: bool)
      requires Valid()
      modifies this
      ensures Valid()
      ensures ok <==> Accepts(old(httpProxies), subdomainHost, name, info)
      ensures httpProxies == Register(old(httpProxies), subdomainHost, name, info)
    {
      hide PairwiseDisjoint, Domains, DomainList;
      RegisterKeepsDisjoint(httpProxies, subdomainHost, name, info);
      if name == "" || (info.customDomains == [] && info.subdomain == "") || name in httpProxies {
        return false;
      }
      if info.subdomain != "" && subdomainHost == "" {
        return false;
      }
      var all := DomainList(info, subdomainHost);
      for i := 0 to |order|
        invariant httpProxies == old(httpProxies) && order == old(order)
        invariant forall k :: 0 <= k < i ==> Domains(info, subdomainHost) !! Domains(httpProxies[order[k]], subdomainHost)
      {
        var shared := SharesDomain(all, DomainList(httpProxies[order[i]], subdomainHost));
        DisjointIff(info, httpProxies[order[i]], subdomainHost);
        if shared {
          return false;
        }
      }
      httpProxies := httpProxies[name := info];
      order := order + [name];
      return true;
    }

    /** The matching loop of `handle_http_vhost_conn`. */
    method Match(hostname: string) returns (proxy: Option<string>)
      requires Valid()
      ensures proxy == Route(httpProxies, subdomainHost, order, Lower(hostname))
      ensures forall p :: proxy == Some(p) <==> p in httpProxies && Belongs(httpProxies[p], subdomainHost, hostname)
    {
      forall p
        ensures Route(httpProxies, subdomainHost, order, Lower(hostname)) == Some(p)
            <==> p in httpProxies && Belongs(httpProxies[p], subdomainHost, hostname)
      {
        RouteBelongs(httpProxies, subdomainHost, order, hostname, p);
      }
      var host := Lower(hostname);
      for i := 0 to |order|
        invariant Route(httpProxies, subdomainHost, order, host) == Route(httpProxies, subdomainHost, order[i..], host)
      {
        var info := httpProxies[order[i]];
        for j := 0 to |info.customDomains|
          invariant forall k :: 0 <= k < j ==> Lower(info.customDomains[k]) != host
        {
          if host == Lower(info.customDomains[j]) {
            return Some(order[i]);
          }
        }
        if info.subdomain != "" && subdomainHost != "" {
          var expected := SubdomainName(info.subdomain, subdomainHost);
          if host == expected {
            return Some(order[i]);
          }
        }
      }
      return None;
    }
  }
}
