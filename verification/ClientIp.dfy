/** Which address a request came from: trusted-proxy lists, forwarding headers, and the resolver. */
module ClientIp {
  import opened Wrappers
  import opened Addresses
  import opened Texts

  /** Parsing and printing of addresses, and of an address with a port. */
  datatype Syntax = Syntax(
    addr: string -> Option<Addr>,
    addrPort: string -> Option<Addr>,
    prefix: string -> Option<Prefix>,
    show: Prefix -> string)

  const PLAIN := "0123456789abcdef.:/"

  predicate Printed(s: string) {
    '/' in s && forall i :: 0 <= i < |s| ==> s[i] in PLAIN
  }

  /** Parsing yields well-formed values, and a printed canonical prefix parses to itself. */
  ghost predicate Faithful(x: Syntax) {
    && (forall s :: x.addr(s).Some? ==> WellFormed(x.addr(s).value) && !x.addr(s).value.Zero?)
    && (forall s :: x.addrPort(s).Some? ==> WellFormed(x.addrPort(s).value) && !x.addrPort(s).value.Zero?)
    && (forall s :: x.prefix(s).Some? ==> ValidPrefix(x.prefix(s).value))
    && (forall p :: Canonical(p) ==> Printed(x.show(p)) && x.prefix(x.show(p)) == Some(p))
  }

  // ---- Trusted-proxy lists ----

  function ParseEntry(x: Syntax, text: string): Option<Entry> {
    if '/' !in text then
      match x.addr(text)
      case Some(a) => Some(Single(a))
      case None => None
    else
      match x.prefix(text)
      case Some(p) => Some(Range(p))
      case None => None
  }

  lemma EntryParsed(x: Syntax, text: string)
    requires Faithful(x) && ParseEntry(x, text).Some?
    ensures Parsed(ParseEntry(x, text).value)
  {
  }

  predicate Admissible(x: Syntax, text: string) {
    ParseEntry(x, text).Some? && !Ambiguous(ParseEntry(x, text).value)
  }

  predicate AllAdmissible(x: Syntax, parts: seq<string>) {
    forall i :: 0 <= i < |parts| ==> Admissible(x, parts[i])
  }

  /** parseTrustedProxyPrefix */
  function ParsePrefix(x: Syntax, text: string): (r: Option<Prefix>)
    requires Faithful(x)
    ensures r.Some? <==> Admissible(x, text)
  {
    if ParseEntry(x, text).None? then None else
    EntryParsed(x, text);
    Stored(ParseEntry(x, text).value)
  }

  /** The parts of a list: fields, trimmed, without empty ones. */
  function Parts(fields: seq<string>): seq<string> {
    if fields == [] then []
    else
      var front := Parts(fields[..|fields| - 1]);
      var part := Trim(fields[|fields| - 1]);
      if part == "" then front else front + [part]
  }

  /** A prefix is kept once. */
  function Added(ps: seq<Prefix>, p: Prefix): seq<Prefix> {
    if p in ps then ps else ps + [p]
  }

  ghost function PrefixesOf(x: Syntax, parts: seq<string>): Option<seq<Prefix>>
    requires Faithful(x)
  {
    if parts == [] then Some([])
    else
      match PrefixesOf(x, parts[..|parts| - 1])
      case None => None
      case Some(ps) =>
        match ParsePrefix(x, parts[|parts| - 1])
        case None => None
        case Some(p) => Some(Added(ps, p))
  }

  ghost function TrustedList(x: Syntax, value: string): Option<seq<Prefix>>
    requires Faithful(x)
  {
    TrustedOf(x, Fields(value))
  }

  lemma {:induction false} RefusedStays(x: Syntax, parts: seq<string>, n: nat)
    requires Faithful(x) && n <= |parts| && PrefixesOf(x, parts[..n]).None?
    ensures PrefixesOf(x, parts).None?
    decreases |parts|
  {
    if n == |parts| {
      assert parts[..n] == parts;
    } else {
      assert parts[..|parts| - 1][..n] == parts[..n];
      RefusedStays(x, parts[..|parts| - 1], n);
    }
  }

  lemma PartsStep(fields: seq<string>, i: nat)
    requires i < |fields|
    ensures Parts(fields[..i + 1]) == if Trim(fields[i]) == "" then Parts(fields[..i])
        else Parts(fields[..i]) + [Trim(fields[i])]
  {
    assert fields[..i + 1][..i] == fields[..i];
  }

  lemma PrefixOfPrefix(a: seq<string>, b: seq<string>, c: seq<string>)
    requires a <= b <= c
    ensures a <= c
  {
    assert a == b[..|a|] == c[..|b|][..|a|] == c[..|a|];
  }

  lemma {:induction false} PartsPrefix(fields: seq<string>, i: nat)
    requires i <= |fields|
    ensures Parts(fields[..i]) <= Parts(fields)
    decreases |fields| - i
  {
    if i == |fields| {
      assert fields[..i] == fields;
    } else {
      PartsStep(fields, i);
      PartsPrefix(fields, i + 1);
      PrefixOfPrefix(Parts(fields[..i]), Parts(fields[..i + 1]), Parts(fields));
    }
  }

  lemma PrefixesStep(x: Syntax, parts: seq<string>, part: string)
    requires Faithful(x)
    ensures PrefixesOf(x, parts + [part])
            == if PrefixesOf(x, parts).None? || ParsePrefix(x, part).None? then None
               else Some(if ParsePrefix(x, part).value in PrefixesOf(x, parts).value then PrefixesOf(x, parts).value
                         else PrefixesOf(x, parts).value + [ParsePrefix(x, part).value])
  {
    assert (parts + [part])[..|parts|] == parts;
  }

  /** The parts read so far, and what they were read as. */
  ghost predicate ReadUpTo(x: Syntax, fields: seq<string>, i: nat, prefixes: seq<Prefix>)
    requires Faithful(x) && i <= |fields|
  {
    PrefixesOf(x, Parts(fields[..i])) == Some(prefixes)
  }

  lemma RefusedField(x: Syntax, fields: seq<string>, i: nat)
    requires Faithful(x) && i < |fields| && PrefixesOf(x, Parts(fields[..i + 1])).None?
    ensures TrustedOf(x, fields).None?
  {
    var read := Parts(fields[..i + 1]);
    PartsPrefix(fields, i + 1);
    assert Parts(fields)[..|read|] == read;
    RefusedStays(x, Parts(fields), |read|);
  }

  lemma ReadField(x: Syntax, fields: seq<string>, i: nat, prefixes: seq<Prefix>)
    requires Faithful(x) && i < |fields| && ReadUpTo(x, fields, i, prefixes)
    ensures var part := Trim(fields[i]);
            if part == "" then ReadUpTo(x, fields, i + 1, prefixes)
            else if ParsePrefix(x, part).None? then PrefixesOf(x, Parts(fields[..i + 1])).None?
            else ReadUpTo(x, fields, i + 1, Added(prefixes, ParsePrefix(x, part).value))
  {
    PartsStep(fields, i);
    PrefixesStep(x, Parts(fields[..i]), Trim(fields[i]));
  }

  ghost function TrustedOf(x: Syntax, fields: seq<string>): Option<seq<Prefix>>
    requires Faithful(x)
  {
    PrefixesOf(x, Parts(fields))
  }

  /** Reads the list part by part; `seen` holds what was kept. */
  method ParseTrustedProxyPrefixes(x: Syntax, value: string) returns (r: Option<seq<Prefix>>)
    requires Faithful(x)
    ensures r == TrustedList(x, value)
  {
    var fields := Fields(value);
    var seen: set<Prefix> := {};
    var prefixes: seq<Prefix> := [];
    var i := 0;
    while i < |fields|
      invariant i <= |fields| && ReadUpTo(x, fields, i, prefixes)
      invariant forall p :: p in seen <==> p in prefixes
    {
      ReadField(x, fields, i, prefixes);
      var part := Trim(fields[i]);
      if part != "" {
        var prefix := ParsePrefix(x, part);
        if prefix.None? {
          RefusedField(x, fields, i);
          return None;
        }
        if prefix.value !in seen {
          seen := seen + {prefix.value};
          prefixes := prefixes + [prefix.value];
        }
      }
      i := i + 1;
    }
    assert fields[..|fields|] == fields;
    r := Some(prefixes);
  }

  // ---- The trusted set ----

  predicate Covered(ps: seq<Prefix>, a: Addr) {
    exists i :: 0 <= i < |ps| && Contains(ps[i], a)
  }

  ghost predicate Named(x: Syntax, parts: seq<string>, a: Addr)
    requires Faithful(x) && Normal(a)
    requires AllAdmissible(x, parts)
  {
    exists i :: 0 <= i < |parts| && NamedBy(x, parts[i], a)
  }

  ghost predicate NamedBy(x: Syntax, part: string, a: Addr)
    requires Faithful(x) && Normal(a) && Admissible(x, part)
  {
    EntryParsed(x, part);
    Names(ParseEntry(x, part).value, a)
  }

  lemma CoveredAppend(ps: seq<Prefix>, p: Prefix, a: Addr)
    ensures Covered(ps + [p], a) <==> Covered(ps, a) || Contains(p, a)
  {
    if Contains(p, a) {
      assert (ps + [p])[|ps|] == p;
    }
    if Covered(ps, a) {
      var i :| 0 <= i < |ps| && Contains(ps[i], a);
      assert (ps + [p])[i] == ps[i];
    }
  }

  lemma NamedAppend(x: Syntax, parts: seq<string>, a: Addr)
    requires Faithful(x) && Normal(a) && parts != []
    requires AllAdmissible(x, parts)
    ensures Named(x, parts, a) <==> Named(x, parts[..|parts| - 1], a) || NamedBy(x, parts[|parts| - 1], a)
  {
    var n := |parts| - 1;
    if Named(x, parts[..n], a) {
      var i :| 0 <= i < n && NamedBy(x, parts[..n][i], a);
      assert NamedBy(x, parts[i], a);
    }
    if Named(x, parts, a) {
      var i :| 0 <= i < |parts| && NamedBy(x, parts[i], a);
      if i < n {
        assert parts[..n][i] == parts[i];
      }
    }
  }

  predicate AllCanonical(ps: seq<Prefix>) {
    forall i :: 0 <= i < |ps| ==> Canonical(ps[i])
  }

  /** Accepted exactly when every part is admissible; all prefixes are canonical and different. */
  lemma {:induction false} PrefixesCanonical(x: Syntax, parts: seq<string>)
    requires Faithful(x)
    ensures PrefixesOf(x, parts).Some? <==> AllAdmissible(x, parts)
    ensures PrefixesOf(x, parts).Some? ==> AllCanonical(PrefixesOf(x, parts).value)
    ensures PrefixesOf(x, parts).Some? ==> NoDuplicates(PrefixesOf(x, parts).value)
  {
    if parts != [] {
      var n := |parts| - 1;
      PrefixesCanonical(x, parts[..n]);
      assert parts == parts[..n] + [parts[n]];
      if Admissible(x, parts[n]) {
        EntryParsed(x, parts[n]);
        StoredCanonical(ParseEntry(x, parts[n]).value);
      }
    }
  }

  /** The prefixes cover exactly what the parts name. */
  lemma {:induction false} PrefixesMean(x: Syntax, parts: seq<string>, a: Addr)
    requires Faithful(x) && Normal(a) && AllAdmissible(x, parts) && PrefixesOf(x, parts).Some?
    ensures Covered(PrefixesOf(x, parts).value, a) <==> Named(x, parts, a)
  {
    if parts != [] {
      PrefixesMean(x, parts[..|parts| - 1], a);
      LastPrefixMeans(x, parts, a);
    }
  }

  lemma LastPrefixMeans(x: Syntax, parts: seq<string>, a: Addr)
    requires Faithful(x) && Normal(a) && parts != [] && PrefixesOf(x, parts).Some?
    requires AllAdmissible(x, parts)
    requires Covered(PrefixesOf(x, parts[..|parts| - 1]).value, a) <==> Named(x, parts[..|parts| - 1], a)
    ensures Covered(PrefixesOf(x, parts).value, a) <==> Named(x, parts, a)
  {
    var n := |parts| - 1;
    var ps := PrefixesOf(x, parts[..n]).value;
    var p := ParsePrefix(x, parts[n]).value;
    EntryParsed(x, parts[n]);
    StoredKeepsMeaning(ParseEntry(x, parts[n]).value, a);
    NamedAppend(x, parts, a);
    CoveredAppend(ps, p, a);
  }

  /** Masking, unmapping and dropping duplicates keep the trusted set: the list is accepted exactly
      when every part is admissible, and then covers exactly the addresses its parts name. */
  lemma TrustedSetPreserved(x: Syntax, value: string, a: Addr)
    requires Faithful(x) && Normal(a)
    ensures TrustedList(x, value).Some? <==> AllAdmissible(x, Parts(Fields(value)))
    ensures TrustedList(x, value).Some? ==>
              (Covered(TrustedList(x, value).value, a) <==> Named(x, Parts(Fields(value)), a))
  {
    PrefixesCanonical(x, Parts(Fields(value)));
    if TrustedList(x, value).Some? {
      PrefixesMean(x, Parts(Fields(value)), a);
    }
  }

  // ---- Canonical text ----

  function Shown(x: Syntax, ps: seq<Prefix>): (items: seq<string>)
    ensures |items| == |ps| && forall i :: 0 <= i < |ps| ==> items[i] == x.show(ps[i])
  {
    seq(|ps|, i requires 0 <= i < |ps| => x.show(ps[i]))
  }

  ghost function CanonicalText(x: Syntax, value: string): Option<string>
    requires Faithful(x)
  {
    match TrustedList(x, value)
    case Some(ps) => Some(Join(Shown(x, ps), "\n"))
    case None => None
  }

  method CanonicalTrustedProxies(x: Syntax, value: string) returns (r: Option<string>)
    requires Faithful(x)
    ensures r == CanonicalText(x, value)
  {
    var prefixes := ParseTrustedProxyPrefixes(x, value);
    if prefixes.None? { return None; }
    var items: seq<string> := [];
    for i := 0 to |prefixes.value|
      invariant items == Shown(x, prefixes.value[..i])
    {
      items := items + [x.show(prefixes.value[i])];
    }
    assert prefixes.value[..|prefixes.value|] == prefixes.value;
    r := Some(Join(items, "\n"));
  }

  lemma PlainCharacter(c: char)
    requires c in PLAIN
    ensures !IsSeparator(c) && !IsSpace(c)
  {
    assert '.' <= c <= ':' || 'a' <= c <= 'f';
  }

  lemma PrintedIsPlain(s: string)
    requires Printed(s)
    ensures s != "" && Plain(s) && Trim(s) == s
  {
    forall i | 0 <= i < |s| ensures !IsSeparator(s[i]) && !IsSpace(s[i]) {
      PlainCharacter(s[i]);
    }
  }

  lemma PartsOneMore(front: seq<string>, part: string)
    requires Trim(part) == part != ""
    ensures Parts(front + [part]) == Parts(front) + [part]
  {
    assert (front + [part])[..|front|] == front;
  }

  lemma {:induction false} PartsOfPlain(items: seq<string>)
    requires forall i :: 0 <= i < |items| ==> items[i] != "" && Trim(items[i]) == items[i]
    ensures Parts(items) == items
  {
    if items != [] {
      var front, part := items[..|items| - 1], items[|items| - 1];
      PartsOfPlain(front);
      PartsOneMore(front, part);
      assert items == front + [part];
    }
  }

  lemma CanonicalReparsed(x: Syntax, p: Prefix)
    requires Faithful(x) && Canonical(p)
    ensures ParsePrefix(x, x.show(p)) == Some(p)
  {
    assert ParseEntry(x, x.show(p)) == Some(Range(p));
  }

  lemma ShownOneMore(x: Syntax, front: seq<Prefix>, p: Prefix)
    ensures Shown(x, front + [p]) == Shown(x, front) + [x.show(p)]
  {
  }

  lemma {:induction false} ShownReparsed(x: Syntax, ps: seq<Prefix>)
    requires Faithful(x) && NoDuplicates(ps)
    requires AllCanonical(ps)
    ensures PrefixesOf(x, Shown(x, ps)) == Some(ps)
  {
    if ps == [] {
      assert Shown(x, ps) == [];
    } else {
      var front, p := ps[..|ps| - 1], ps[|ps| - 1];
      assert ps == front + [p] && p !in front;
      ShownReparsed(x, front);
      ShownOneMore(x, front, p);
      CanonicalReparsed(x, p);
      PrefixesStep(x, Shown(x, front), x.show(p));
    }
  }

  /** The canonical text parses back to the very same prefixes, and is its own canonical text. */
  lemma CanonicalTextIsFixed(x: Syntax, value: string)
    requires Faithful(x) && CanonicalText(x, value).Some?
    ensures TrustedList(x, CanonicalText(x, value).value) == TrustedList(x, value)
    ensures CanonicalText(x, CanonicalText(x, value).value) == CanonicalText(x, value)
  {
    PrefixesCanonical(x, Parts(Fields(value)));
    var ps := TrustedList(x, value).value;
    var items := Shown(x, ps);
    forall i | 0 <= i < |items| ensures items[i] != "" && Trim(items[i]) == items[i]
      ensures forall j :: 0 <= j < |items[i]| ==> !Separates(items[i][j])
    {
      PrintedIsPlain(items[i]);
    }
    FieldsOfList(items, '\n');
    PartsOfPlain(items);
    ShownReparsed(x, ps);
  }
}
