/** The resolver: which peers may forward a client address, and which address of a chain counts. */
module Resolver {
  import opened Wrappers
  import opened Addresses
  import opened Texts
  import opened ClientIp

  // ---- Headers ----

  /** What X-Forwarded-For holds. */
  datatype Forwarded = Absent | Malformed | Chain(addrs: seq<Addr>)

  /** The addresses a request is judged by; no client address means "unknown". */
  datatype Info = Info(client: Option<Addr>, remote: Option<Addr>, fromTrusted: bool)

  /** parseForwardedIP: one address, without a zone. */
  function ParseForwarded(x: Syntax, value: string): (r: Option<Addr>)
    requires Faithful(x)
    ensures r.Some? ==> Normal(r.value)
  {
    var t := Trim(value);
    if t == "" || x.addr(t).None? then None
    else
      var a := x.addr(t).value;
      if a.V6? && a.zone != "" then None
      else
        NormalizeOnce(a);
        Some(Normalize(a))
  }

  function TrimBrackets(s: string): string {
    var t := if s != "" && s[|s| - 1] == ']' then s[..|s| - 1] else s;
    if t != "" && t[0] == '[' then t[1..] else t
  }

  /** parseRemoteIP: an address with a port, or an address, bracketed or not. */
  function ParseRemote(x: Syntax, value: string): (r: Option<Addr>)
    requires Faithful(x)
    ensures r.Some? ==> Normal(r.value)
  {
    var t := Trim(value);
    if x.addrPort(t).Some? then
      NormalizeOnce(x.addrPort(t).value);
      Some(Normalize(x.addrPort(t).value))
    else if x.addr(TrimBrackets(t)).Some? then
      NormalizeOnce(x.addr(TrimBrackets(t)).value);
      Some(Normalize(x.addr(TrimBrackets(t)).value))
    else None
  }

  /** parseRealIP: exactly one value, and no list. */
  function ParseReal(x: Syntax, values: seq<string>): (r: Option<Addr>)
    requires Faithful(x)
    ensures r.Some? ==> Normal(r.value)
  {
    if |values| != 1 || ',' in values[0] then None else ParseForwarded(x, values[0])
  }

  ghost function AddrsOf(x: Syntax, parts: seq<string>): Option<seq<Addr>>
    requires Faithful(x)
  {
    if parts == [] then Some([])
    else
      match AddrsOf(x, parts[..|parts| - 1])
      case None => None
      case Some(addrs) =>
        match ParseForwarded(x, parts[|parts| - 1])
        case None => None
        case Some(a) => Some(addrs + [a])
  }

  ghost function ForwardedBy(x: Syntax, values: seq<string>): Forwarded
    requires Faithful(x)
  {
    if values == [] then Absent
    else
      match AddrsOf(x, Split(Join(values, ",")))
      case None => Malformed
      case Some(addrs) => Chain(addrs)
  }

  lemma {:induction false} NotBlank(s: string, i: nat)
    requires i < |s| && !IsSpace(s[i])
    ensures Trim(s) != ""
    decreases |s|
  {
    if IsSpace(s[0]) {
      NotBlank(s[1..], i - 1);
    } else if IsSpace(s[|s| - 1]) {
      NotBlank(s[..|s| - 1], i);
    }
  }

  /** A blank header is malformed even without the separate test for it. */
  lemma BlankIsMalformed(x: Syntax, values: seq<string>)
    requires Faithful(x) && values != [] && Trim(Join(values, ",")) == ""
    ensures ForwardedBy(x, values) == Malformed
  {
    var raw := Join(values, ",");
    forall i | 0 <= i < |raw| ensures raw[i] != ',' {
      if raw[i] == ',' {
        NotBlank(raw, i);
      }
    }
    OnePart(raw);
    assert AddrsOf(x, [raw]).None?;
  }

  lemma {:induction false} MalformedStays(x: Syntax, parts: seq<string>, n: nat)
    requires Faithful(x) && n <= |parts| && AddrsOf(x, parts[..n]).None?
    ensures AddrsOf(x, parts).None?
    decreases |parts|
  {
    if n == |parts| {
      assert parts[..n] == parts;
    } else {
      assert parts[..|parts| - 1][..n] == parts[..n];
      MalformedStays(x, parts[..|parts| - 1], n);
    }
  }

  method ParseForwardedFor(x: Syntax, values: seq<string>) returns (r: Forwarded)
    requires Faithful(x)
    ensures r == ForwardedBy(x, values)
    ensures r.Chain? ==> |r.addrs| >= 1 && forall i :: 0 <= i < |r.addrs| ==> Normal(r.addrs[i])
  {
    if |values| == 0 { return Absent; }
    var raw := Join(values, ",");
    if Trim(raw) == "" {
      BlankIsMalformed(x, values);
      return Malformed;
    }
    var parts := Split(raw);
    var chain: seq<Addr> := [];
    var i := 0;
    while i < |parts|
      invariant i <= |parts| && |chain| == i
      invariant AddrsOf(x, parts[..i]) == Some(chain)
      invariant forall k :: 0 <= k < |chain| ==> Normal(chain[k])
    {
      assert parts[..i + 1][..i] == parts[..i];
      var addr := ParseForwarded(x, parts[i]);
      if addr.None? {
        MalformedStays(x, parts, i + 1);
        return Malformed;
      }
      chain := chain + [addr.value];
      i := i + 1;
    }
    assert parts[..|parts|] == parts;
    r := Chain(chain);
  }

  // ---- Several header lines ----

  lemma {:induction false} AddrsConcatenate(x: Syntax, a: seq<string>, b: seq<string>)
    requires Faithful(x)
    ensures AddrsOf(x, a + b) == if AddrsOf(x, a).None? || AddrsOf(x, b).None? then None
        else Some(AddrsOf(x, a).value + AddrsOf(x, b).value)
  {
    if b == [] {
      assert a + b == a;
      assert AddrsOf(x, a).Some? ==> AddrsOf(x, a).value + [] == AddrsOf(x, a).value;
    } else {
      var front := b[..|b| - 1];
      assert (a + b)[..|a + b| - 1] == a + front && (a + b)[|a + b| - 1] == b[|b| - 1];
      AddrsConcatenate(x, a, front);
      var last := ParseForwarded(x, b[|b| - 1]);
      if AddrsOf(x, a).Some? && AddrsOf(x, front).Some? && last.Some? {
        assert AddrsOf(x, a).value + AddrsOf(x, front).value + [last.value] == AddrsOf(x,
            a).value + (AddrsOf(x, front).value + [last.value]);
      }
    }
  }

  /** Header lines are one list (section 5.2 of RFC 9110): the chain of several lines is the chains
      of the lines, one after another, and it is malformed as soon as one line is. */
  lemma LinesConcatenate(x: Syntax, a: seq<string>, b: seq<string>)
    requires Faithful(x) && a != [] && b != []
    ensures var p, q := ForwardedBy(x, a), ForwardedBy(x, b);
            ForwardedBy(x, a + b) == if p.Chain? && q.Chain? then Chain(p.addrs + q.addrs) else Malformed
  {
    JoinAppend(a, b, ",");
    SplitAtComma(Join(a, ","), Join(b, ","));
    AddrsConcatenate(x, Split(Join(a, ",")), Split(Join(b, ",")));
  }

  /** One combined line gives the same chain as the lines it combines. */
  lemma CombinedLine(x: Syntax, before: seq<string>, lines: seq<string>, after: seq<string>)
    requires Faithful(x) && lines != []
    ensures ForwardedBy(x, before + lines + after) == ForwardedBy(x, before + [Join(lines, ",")] + after)
  {
    var one := [Join(lines, ",")];
    assert ForwardedBy(x, lines) == ForwardedBy(x, one);
    if before == [] {
      assert before + lines == lines && before + one == one;
    } else {
      LinesConcatenate(x, before, lines);
      LinesConcatenate(x, before, one);
    }
    if after == [] {
      assert before + lines + after == before + lines && before + one + after == before + one;
    } else {
      LinesConcatenate(x, before + lines, after);
      LinesConcatenate(x, before + one, after);
    }
  }

  // ---- Trust ----

  predicate Trusted(environment: seq<Prefix>, configured: seq<Prefix>, a: Addr) {
    !a.Zero? && (Covered(environment, Normalize(a)) || Covered(configured, Normalize(a)))
  }

  predicate TrustedPeer(environment: seq<Prefix>, configured: seq<Prefix>, trustAll: bool, a: Addr) {
    Trusted(environment, configured, a) || (trustAll && environment == [] && configured == [])
  }

  /** `k` is the last position of the chain whose address is not trusted; -1 when there is none. */
  predicate LastUntrusted(environment: seq<Prefix>, configured: seq<Prefix>, chain: seq<Addr>, k: int) {
    && -1 <= k < |chain|
    && (k >= 0 ==> !Trusted(environment, configured, chain[k]))
    && forall i :: k < i < |chain| ==> Trusted(environment, configured, chain[i])
  }

  /** The request's addresses, stated without the order in which the resolver looks. */
  ghost predicate Resolved(x: Syntax, environment: seq<Prefix>, configured: seq<Prefix>, trustAll: bool,
                           remoteAddr: string, forwardedFor: seq<string>, realIp: seq<string>, info: Info)
    requires Faithful(x)
  {
    var remote := ParseRemote(x, remoteAddr);
    if remote.None? then info == Info(None, None, false)
    else if !TrustedPeer(environment, configured, trustAll, remote.value) then info == Info(remote, remote, false)
    else
      && info.remote == remote && info.fromTrusted
      && match ForwardedBy(x, forwardedFor)
         case Absent => info.client == if ParseReal(x, realIp).Some? then ParseReal(x, realIp) else remote
         case Malformed => info.client == remote
         case Chain(chain) =>
           exists k :: LastUntrusted(environment, configured, chain, k) && info.client == if k < 0 then remote
               else Some(chain[k])
  }

  class ClientIpResolver {
    const syntax: Syntax
    const trustAllDefault: bool
    const environment: seq<Prefix>
    var configured: seq<Prefix>

    /** `environment` is the parsed list of the environment; nothing is configured yet. */
    constructor (syntax: Syntax, environment: seq<Prefix>, trustAllDefault: bool)
      ensures this.syntax == syntax && this.environment == environment && this.trustAllDefault == trustAllDefault
      ensures configured == []
    {
      this.syntax, this.environment, this.trustAllDefault := syntax, environment, trustAllDefault;
      configured := [];
    }

    /** A list that does not parse leaves the configuration as it was. */
    method SetConfigured(value: string) returns (ok: bool)
      requires Faithful(syntax)
      modifies this`configured
      ensures ok <==> TrustedList(syntax, value).Some?
      ensures configured == if ok then TrustedList(syntax, value).value else old(configured)
    {
      var prefixes := ParseTrustedProxyPrefixes(syntax, value);
      if prefixes.None? { return false; }
      configured := prefixes.value;
      ok := true;
    }

    method IsTrusted(addr: Addr) returns (trusted: bool)
      ensures trusted <==> Trusted(environment, configured, addr)
    {
      if addr.Zero? { return false; }
      var a := Normalize(addr);
      for i := 0 to |environment|
        invariant forall k :: 0 <= k < i ==> !Contains(environment[k], a)
      {
        if Contains(environment[i], a) { return true; }
      }
      for i := 0 to |configured|
        invariant forall k :: 0 <= k < i ==> !Contains(configured[k], a)
      {
        if Contains(configured[i], a) { return true; }
      }
      trusted := false;
    }

    method IsTrustedPeer(addr: Addr) returns (trusted: bool)
      ensures trusted <==> TrustedPeer(environment, configured, trustAllDefault, addr)
    {
      trusted := IsTrusted(addr);
      if trusted { return; }
      trusted := trustAllDefault && |environment| == 0 && |configured| == 0;
    }

    method Resolve(remoteAddr: string, forwardedFor: seq<string>, realIp: seq<string>) returns (info: Info)
      requires Faithful(syntax)
      ensures syntax.addrPort(Trim(remoteAddr)).Some? ==>
                var peer := Normalize(syntax.addrPort(Trim(remoteAddr)).value);
                && info.remote == Some(peer)
                && (info.fromTrusted <==> TrustedPeer(environment, configured, trustAllDefault, peer))
                && (!info.fromTrusted ==> info.client == Some(peer))
      ensures Resolved(syntax, environment, configured, trustAllDefault, remoteAddr, forwardedFor, realIp, info)
    {
      var remote := ParseRemote(syntax, remoteAddr);
      if remote.None? { return Info(None, None, false); }
      info := Info(remote, remote, false);
      var peer := IsTrustedPeer(remote.value);
      if !peer { return; }
      info := info.(fromTrusted := true);
      var chain := ParseForwardedFor(syntax, forwardedFor);
      if !chain.Absent? {
        if chain.Malformed? { return; }
        var index := |chain.addrs| - 1;
        while index >= 0
          invariant -1 <= index < |chain.addrs|
          invariant forall i :: index < i < |chain.addrs| ==> Trusted(environment, configured, chain.addrs[i])
        {
          var trusted := IsTrusted(chain.addrs[index]);
          if !trusted {
            assert LastUntrusted(environment, configured, chain.addrs, index);
            return info.(client := Some(chain.addrs[index]));
          }
          index := index - 1;
        }
        assert LastUntrusted(environment, configured, chain.addrs, -1);
        return;
      }
      var direct := ParseReal(syntax, realIp);
      if direct.Some? {
        info := info.(client := direct);
      }
    }
  }

  // ---- What resolution guarantees ----

  /** There is only one answer. */
  lemma ResolvedUnique(x: Syntax, environment: seq<Prefix>, configured: seq<Prefix>, trustAll: bool,
                       remoteAddr: string, forwardedFor: seq<string>, realIp: seq<string>, a: Info, b: Info)
    requires Faithful(x)
    requires Resolved(x, environment, configured, trustAll, remoteAddr, forwardedFor, realIp, a)
    requires Resolved(x, environment, configured, trustAll, remoteAddr, forwardedFor, realIp, b)
    ensures a == b
  {
  }

  /** Whatever a client puts to the left of the last untrusted address changes nothing: two chains
      that agree from an untrusted address on give the same answer. */
  lemma LeftEntriesDoNotMatter(x: Syntax, environment: seq<Prefix>, configured: seq<Prefix>, trustAll: bool,
                               remoteAddr: string,
                               one: seq<string>, two: seq<string>, realIp: seq<string>,
                               left: seq<Addr>, other: seq<Addr>, right: seq<Addr>, info: Info)
    requires Faithful(x) && right != [] && !Trusted(environment, configured, right[0])
    requires ForwardedBy(x, one) == Chain(left + right) && ForwardedBy(x, two) == Chain(other + right)
    requires Resolved(x, environment, configured, trustAll, remoteAddr, one, realIp, info)
    ensures Resolved(x, environment, configured, trustAll, remoteAddr, two, realIp, info)
  {
    var remote := ParseRemote(x, remoteAddr);
    if remote.Some? && TrustedPeer(environment, configured, trustAll, remote.value) {
      var k :| LastUntrusted(environment, configured, left + right, k)
            && info.client == if k < 0 then remote else Some((left + right)[k]);
      ShiftLastUntrusted(environment, configured, left, other, right, k);
    }
  }

  lemma ShiftLastUntrusted(environment: seq<Prefix>, configured: seq<Prefix>, left: seq<Addr>, other: seq<Addr>,
                           right: seq<Addr>, k: int)
    requires right != [] && !Trusted(environment, configured, right[0])
    requires LastUntrusted(environment, configured, left + right, k)
    ensures k >= |left| && LastUntrusted(environment, configured, other + right, k - |left| + |other|)
    ensures (other + right)[k - |left| + |other|] == (left + right)[k]
  {
    assert (left + right)[|left|] == right[0];
    forall i | k - |left| + |other| < i < |other + right| ensures Trusted(environment, configured, (other + right)[i]) {
      assert (other + right)[i] == (left + right)[i - |other| + |left|];
    }
  }

  /** Without any list and with every peer trusted by default, no chain address is trusted, so the
      last address of the chain counts. */
  lemma DefaultTrustTakesLastAddress(x: Syntax, remoteAddr: string, forwardedFor: seq<string>, realIp: seq<string>,
                                     info: Info)
    requires Faithful(x) && ForwardedBy(x, forwardedFor).Chain? && ParseRemote(x, remoteAddr).Some?
    requires Resolved(x, [], [], true, remoteAddr, forwardedFor, realIp, info)
    ensures var chain := ForwardedBy(x, forwardedFor).addrs;
            info.client == if chain == [] then ParseRemote(x, remoteAddr) else Some(chain[|chain| - 1])
  {
  }
}
