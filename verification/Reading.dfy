/** What the resolver reads from the remote address and the headers, in terms of the addresses written
    there, and what it answers then. */
module Reading {
  import opened Wrappers
  import opened Addresses
  import opened Texts
  import opened ClientIp
  import opened Resolver

  // ---- One address ----

  /** The peer as net/http gives it: an address with a port. */
  lemma RemoteWithPort(x: Syntax, before: string, v: string, after: string, a: Addr)
    requires Faithful(x) && Blank(before) && Tight(v) && Blank(after)
    requires x.addrPort(v) == Some(a)
    ensures ParseRemote(x, before + v + after) == Some(Normalize(a))
  {
    TrimPadded(before, v, after);
  }

  lemma BracketsGo(v: string)
    requires v != "" && v[0] != '[' && v[|v| - 1] != ']'
    ensures TrimBrackets(v) == v && TrimBrackets("[" + v + "]") == v
  {
    var t := "[" + v + "]";
    assert t[..|t| - 1] == "[" + v && ("[" + v)[1..] == v;
  }

  lemma BracketsAreTight(v: string)
    ensures Tight("[" + v + "]")
  {
    SpacesAndLetters('[');
    SpacesAndLetters(']');
  }

  /** A peer without a port, bare or in brackets; anything else is no address. */
  lemma RemoteWithoutPort(x: Syntax, before: string, v: string, after: string)
    requires Faithful(x) && Blank(before) && Tight(v) && Blank(after)
    requires v != "" && v[0] != '[' && v[|v| - 1] != ']' && x.addrPort(v).None?
    ensures ParseRemote(x, before + v + after) == (if x.addr(v).Some? then Some(Normalize(x.addr(v).value)) else None)
    ensures x.addrPort("[" + v + "]").None? ==>
              ParseRemote(x, before + ("[" + v + "]") + after)
              == (if x.addr(v).Some? then Some(Normalize(x.addr(v).value)) else None)
  {
    BracketsGo(v);
    BracketsAreTight(v);
    TrimPadded(before, v, after);
    TrimPadded(before, "[" + v + "]", after);
  }

  /** An address without a zone, in any white space; nothing else is admitted in a header. */
  predicate Admits(x: Syntax, v: string) {
    v != "" && x.addr(v).Some? && (x.addr(v).value.V6? ==> x.addr(v).value.zone == "")
  }

  lemma ForwardedReads(x: Syntax, before: string, v: string, after: string)
    requires Faithful(x) && Blank(before) && Tight(v) && Blank(after)
    ensures ParseForwarded(x, before + v + after)
            == if Admits(x, v) then Some(Normalize(x.addr(v).value)) else None
  {
    TrimPadded(before, v, after);
  }

  /** X-Real-IP: one line with one such address. */
  lemma RealReads(x: Syntax, before: string, v: string, after: string, others: seq<string>)
    requires Faithful(x) && Blank(before) && Tight(v) && Blank(after)
    ensures NoComma(v) ==> ParseReal(x, [before + v + after])
                           == if Admits(x, v) then Some(Normalize(x.addr(v).value)) else None
    ensures !NoComma(v) ==> ParseReal(x, [before + v + after]).None?
    ensures |others| != 1 ==> ParseReal(x, others).None?
  {
    ForwardedReads(x, before, v, after);
    forall i | 0 <= i < |before| ensures before[i] != ',' {
      SpacesAndLetters(before[i]);
    }
    forall i | 0 <= i < |after| ensures after[i] != ',' {
      SpacesAndLetters(after[i]);
    }
    var s := before + v + after;
    if !NoComma(v) {
      var i :| 0 <= i < |v| && v[i] == ',';
      assert s[|before| + i] == ',';
    }
  }

  // ---- A chain ----

  /** The parts of a chain, with the white space around them. */
  datatype Part = Part(before: string, text: string, after: string)

  predicate Proper(p: Part) {
    Blank(p.before) && Tight(p.text) && Blank(p.after) && NoComma(p.text)
  }

  function Written(parts: seq<Part>): (texts: seq<string>)
    ensures |texts| == |parts|
    ensures forall i :: 0 <= i < |parts| ==> texts[i] == parts[i].before + parts[i].text + parts[i].after
  {
    seq(|parts|, i requires 0 <= i < |parts| => parts[i].before + parts[i].text + parts[i].after)
  }

  lemma ProperHasNoComma(p: Part)
    requires Proper(p)
    ensures NoComma(p.before + p.text + p.after)
  {
    forall i | 0 <= i < |p.before| ensures p.before[i] != ',' {
      SpacesAndLetters(p.before[i]);
    }
    forall i | 0 <= i < |p.after| ensures p.after[i] != ',' {
      SpacesAndLetters(p.after[i]);
    }
  }

  lemma {:induction false} AddrsAre(x: Syntax, parts: seq<Part>)
    requires Faithful(x) && forall i :: 0 <= i < |parts| ==> Proper(parts[i])
    ensures (forall i :: 0 <= i < |parts| ==> Admits(x, parts[i].text)) <==> AddrsOf(x, Written(parts)).Some?
    ensures AddrsOf(x, Written(parts)).Some? ==>
              && |AddrsOf(x, Written(parts)).value| == |parts|
              && forall i :: 0 <= i < |parts| && x.addr(parts[i].text).Some? ==>
                   AddrsOf(x, Written(parts)).value[i] == Normalize(x.addr(parts[i].text).value)
  {
    if parts != [] {
      var front, last := parts[..|parts| - 1], parts[|parts| - 1];
      AddrsAre(x, front);
      ForwardedReads(x, last.before, last.text, last.after);
      assert Written(parts)[..|parts| - 1] == Written(front);
      assert parts == front + [last];
    }
  }

  /** A header of addresses separated by commas is read as just these addresses, in order; one that is no
      address, or has a zone, makes the whole header malformed. */
  lemma ChainReads(x: Syntax, parts: seq<Part>)
    requires Faithful(x) && parts != [] && forall i :: 0 <= i < |parts| ==> Proper(parts[i])
    ensures var header := ForwardedBy(x, [Join(Written(parts), ",")]);
            if forall i :: 0 <= i < |parts| ==> Admits(x, parts[i].text) then
              && header.Chain? && |header.addrs| == |parts|
              && forall i :: 0 <= i < |parts| ==> header.addrs[i] == Normalize(x.addr(parts[i].text).value)
            else header.Malformed?
    ensures ForwardedBy(x, []).Absent?
  {
    var texts := Written(parts);
    forall i | 0 <= i < |texts| ensures NoComma(texts[i]) {
      ProperHasNoComma(parts[i]);
    }
    SplitOfJoin(texts);
    assert Join([Join(texts, ",")], ",") == Join(texts, ",");
    AddrsAre(x, parts);
  }

  // ---- Entries of a list ----

  /** An entry without a slash is one address: the stored prefix holds it, in any of its forms, and no other. */
  lemma SingleEntryReads(x: Syntax, text: string, a: Addr)
    requires Faithful(x) && '/' !in text && Normal(a)
    ensures ParsePrefix(x, text).Some? <==> x.addr(text).Some?
    ensures x.addr(text).Some? ==>
              (Contains(ParsePrefix(x, text).value, a) <==> a == Normalize(x.addr(text).value))
  {
    if x.addr(text).Some? {
      StoredKeepsMeaning(Single(x.addr(text).value), a);
    }
  }

  /** An entry with a slash is a prefix, refused only if it is IPv4-mapped and shorter than 96 bits. */
  lemma RangeEntryReads(x: Syntax, text: string, a: Addr)
    requires Faithful(x) && '/' in text && Normal(a)
    ensures ParsePrefix(x, text).Some? <==>
              x.prefix(text).Some? && !(Is4In6(x.prefix(text).value.addr) && x.prefix(text).value.length < 96)
    ensures ParsePrefix(x, text).Some? ==>
              var p := x.prefix(text).value;
              (Contains(ParsePrefix(x, text).value, a)
               <==> if Is4In6(p.addr) then a.V4? && Contains(p, Mapped(a)) else Contains(p, a))
  {
    if x.prefix(text).Some? && !Ambiguous(Range(x.prefix(text).value)) {
      StoredKeepsMeaning(Range(x.prefix(text).value), a);
    }
  }

  // ---- Trust ----

  /** An address is trusted exactly when the list of the environment or the configured one names it. */
  lemma TrustedMeansNamed(x: Syntax, environment: string, configured: string, a: Addr)
    requires Faithful(x) && Normal(a)
    requires TrustedList(x, environment).Some? && TrustedList(x, configured).Some?
    ensures AllAdmissible(x, Parts(Fields(environment))) && AllAdmissible(x, Parts(Fields(configured)))
    ensures Trusted(TrustedList(x, environment).value, TrustedList(x, configured).value, a)
       <==> Named(x, Parts(Fields(environment)), a) || Named(x, Parts(Fields(configured)), a)
  {
    TrustedSetPreserved(x, environment, a);
    TrustedSetPreserved(x, configured, a);
    NormalIsFixed(a);
  }

  lemma NormalIsFixed(a: Addr)
    requires Normal(a)
    ensures Normalize(a) == a
  {
  }

  /** The parts of a list are the items written in it, whichever of the five separators stand between them. */
  lemma ListReads(items: seq<string>, c: char)
    requires Separates(c)
    requires forall i :: 0 <= i < |items| ==> items[i] != "" && Tight(items[i])
    requires forall i, j :: 0 <= i < |items| && 0 <= j < |items[i]| ==> !Separates(items[i][j])
    ensures Parts(Fields(Join(items, [c]))) == items
  {
    FieldsOfList(items, c);
    forall i | 0 <= i < |items| ensures Trim(items[i]) == items[i] {
      TrimPadded("", items[i], "");
      assert "" + items[i] + "" == items[i];
    }
    PartsOfPlain(items);
  }

  /** Every peer is trusted by default only as long as both lists are empty. */
  lemma DefaultTrustIff(environment: seq<Prefix>, configured: seq<Prefix>, trustAll: bool, a: Addr)
    requires !Trusted(environment, configured, a)
    ensures TrustedPeer(environment, configured, trustAll, a) <==> trustAll && |environment| + |configured| == 0
  {
  }

  // ---- Answers ----

  /** A peer with a port that no list names is the client, whatever headers it sends. */
  lemma UntrustedPeerIsClient(x: Syntax, environment: seq<Prefix>, configured: seq<Prefix>, trustAll: bool,
                              v: string, a: Addr, forwardedFor: seq<string>, realIp: seq<string>, info: Info)
    requires Faithful(x) && Tight(v) && x.addrPort(v) == Some(a)
    requires !TrustedPeer(environment, configured, trustAll, Normalize(a))
    requires Resolved(x, environment, configured, trustAll, v, forwardedFor, realIp, info)
    ensures info == Info(Some(Normalize(a)), Some(Normalize(a)), false)
  {
    RemoteWithPort(x, "", v, "", a);
    assert "" + v + "" == v;
  }

  /** From a trusted proxy with a port: the last address of the chain that no list names; the proxy when
      there is none, or when the header is malformed. */
  lemma ProxiedClientIsRead(x: Syntax, environment: seq<Prefix>, configured: seq<Prefix>, trustAll: bool,
                            v: string, a: Addr, parts: seq<Part>, realIp: seq<string>, info: Info, k: int)
    requires Faithful(x) && Tight(v) && x.addrPort(v) == Some(a)
    requires TrustedPeer(environment, configured, trustAll, Normalize(a))
    requires parts != [] && forall i :: 0 <= i < |parts| ==> Proper(parts[i])
    requires Resolved(x, environment, configured, trustAll, v, [Join(Written(parts), ",")], realIp, info)
    requires -1 <= k < |parts|
    requires forall i :: k < i < |parts| && Admits(x, parts[i].text) ==>
               Trusted(environment, configured, Normalize(x.addr(parts[i].text).value))
    requires k >= 0 && Admits(x, parts[k].text) ==>
               !Trusted(environment, configured, Normalize(x.addr(parts[k].text).value))
    ensures info.remote == Some(Normalize(a)) && info.fromTrusted
    ensures info.client == if k >= 0 && (forall i :: 0 <= i < |parts| ==> Admits(x, parts[i].text))
                           then Some(Normalize(x.addr(parts[k].text).value)) else Some(Normalize(a))
  {
    RemoteWithPort(x, "", v, "", a);
    assert "" + v + "" == v;
    ChainReads(x, parts);
  }

  /** Without X-Forwarded-For a trusted proxy's X-Real-IP counts, if it is one address. */
  lemma RealIpIsRead(x: Syntax, environment: seq<Prefix>, configured: seq<Prefix>, trustAll: bool, v: string, a: Addr,
                     header: Part, info: Info)
    requires Faithful(x) && Tight(v) && x.addrPort(v) == Some(a) && Proper(header)
    requires TrustedPeer(environment, configured, trustAll, Normalize(a))
    requires Resolved(x, environment, configured, trustAll, v, [], [header.before + header.text + header.after], info)
    ensures info.remote == Some(Normalize(a)) && info.fromTrusted
    ensures info.client == if Admits(x, header.text) then Some(Normalize(x.addr(header.text).value))
                           else Some(Normalize(a))
  {
    RemoteWithPort(x, "", v, "", a);
    assert "" + v + "" == v;
    RealReads(x, header.before, header.text, header.after, []);
  }
}
