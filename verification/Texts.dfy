/** Splitting, joining and trimming of texts. */
module Texts {

  /** The white space of Unicode. */
  predicate IsSpace(c: char) {
    c in {'\t', '\n', '\U{0B}', '\U{0C}', '\r', ' ', '\U{85}', '\U{A0}', '\U{1680}', '\U{2028}', '\U{2029}',
        '\U{202F}', '\U{205F}', '\U{3000}'}
    || '\U{2000}' <= c <= '\U{200A}'
  }

  /** strings.TrimSpace */
  function Trim(s: string): (t: string)
    ensures t != "" ==> !IsSpace(t[0]) && !IsSpace(t[|t| - 1])
  {
    if s == "" then ""
    else if IsSpace(s[0]) then Trim(s[1..])
    else if IsSpace(s[|s| - 1]) then Trim(s[..|s| - 1])
    else s
  }

  predicate IsSeparator(c: char) { c in {',', '\n', '\r', ' ', '\t'} }

  predicate Plain(s: string) { forall i :: 0 <= i < |s| ==> !IsSeparator(s[i]) }

  /** The length of the leading run without separators. */
  function Word(s: string): (n: nat)
    ensures n <= |s| && Plain(s[..n]) && (n < |s| ==> IsSeparator(s[n]))
  {
    if s == "" || IsSeparator(s[0]) then 0
    else
      var n := Word(s[1..]);
      assert s[..n + 1] == [s[0]] + s[1..][..n];
      n + 1
  }

  lemma {:induction false} WordEnds(s: string, n: nat)
    requires n <= |s| && Plain(s[..n]) && (n < |s| ==> IsSeparator(s[n]))
    ensures Word(s) == n
  {
    if n > 0 {
      assert !IsSeparator(s[..n][0]);
      assert s[1..][..n - 1] == s[..n][1..];
      WordEnds(s[1..], n - 1);
    }
  }

  /** strings.FieldsFunc: the maximal runs without separators. */
  function Fields(s: string): seq<string> {
    if s == "" then []
    else if IsSeparator(s[0]) then Fields(s[1..])
    else [s[..Word(s)]] + Fields(s[Word(s)..])
  }

  function Join(items: seq<string>, separator: string): string {
    if items == [] then ""
    else if |items| == 1 then items[0]
    else items[0] + separator + Join(items[1..], separator)
  }

  /** strings.Split at commas: always at least one part. */
  function Split(s: string): (parts: seq<string>)
    ensures |parts| >= 1
  {
    if s == "" then [""]
    else
      var rest := Split(s[1..]);
      if s[0] == ',' then [""] + rest else [[s[0]] + rest[0]] + rest[1..]
  }

  lemma {:induction false} SplitAtComma(a: string, b: string)
    ensures Split(a + "," + b) == Split(a) + Split(b)
  {
    var s := a + "," + b;
    if a == "" {
      assert s[1..] == b;
    } else {
      assert s[1..] == a[1..] + "," + b;
      SplitAtComma(a[1..], b);
    }
  }

  lemma {:induction false} JoinAppend(a: seq<string>, b: seq<string>, separator: string)
    requires a != [] && b != []
    ensures Join(a + b, separator) == Join(a, separator) + separator + Join(b, separator)
  {
    assert (a + b)[0] == a[0];
    if |a| == 1 {
      assert (a + b)[1..] == b;
    } else {
      assert (a + b)[1..] == a[1..] + b;
      JoinAppend(a[1..], b, separator);
      var head, middle, rest := a[0] + separator, Join(a[1..], separator), separator + Join(b, separator);
      assert head + (middle + rest) == (head + middle) + rest;
      assert Join(a[1..], separator) + separator + Join(b, separator) == middle + rest;
      assert Join(a, separator) + separator + Join(b, separator) == (head + middle) + rest;
    }
  }

  // ---- What trimming and splitting yield ----

  predicate Blank(s: string) { forall i :: 0 <= i < |s| ==> IsSpace(s[i]) }

  /** Blanks, tabs and line ends are white space; what addresses are written with is not. */
  lemma SpacesAndLetters(c: char)
    ensures c == ' ' || c == '\t' || c == '\n' || c == '\r' ==> IsSpace(c)
    ensures '0' <= c <= '9' || 'a' <= c <= 'z' || 'A' <= c <= 'Z' ==> !IsSpace(c)
    ensures c == '.' || c == ':' || c == '/' || c == '%' || c == '[' || c == ']' || c == ',' ==> !IsSpace(c)
  {
  }

  /** Neither begins nor ends with white space. */
  predicate Tight(s: string) {
    s != "" ==> !IsSpace(s[0]) && !IsSpace(s[|s| - 1])
  }

  /** Trimming takes away all white space around, and nothing else. */
  lemma {:induction false} TrimPadded(before: string, s: string, after: string)
    requires Blank(before) && Tight(s) && Blank(after)
    ensures Trim(before + s + after) == s
    decreases |before| + |after|
  {
    var t := before + s + after;
    if before != "" {
      assert IsSpace(before[0]);
      assert t[1..] == before[1..] + s + after;
      TrimPadded(before[1..], s, after);
    } else if after != "" {
      assert IsSpace(after[|after| - 1]);
      if s == "" {
        assert t[1..] == before + s + after[1..];
        TrimPadded(before, s, after[1..]);
      } else {
        assert t[..|t| - 1] == before + s + after[..|after| - 1];
        TrimPadded(before, s, after[..|after| - 1]);
      }
    } else {
      assert t == s;
    }
  }

  predicate NoComma(s: string) { forall i :: 0 <= i < |s| ==> s[i] != ',' }

  lemma {:induction false} OnePart(s: string)
    requires NoComma(s)
    ensures Split(s) == [s]
  {
    if s != "" {
      OnePart(s[1..]);
      assert s == [s[0]] + s[1..];
    }
  }

  /** Parts joined by commas are split into the same parts. */
  lemma {:induction false} SplitOfJoin(parts: seq<string>)
    requires parts != [] && forall i :: 0 <= i < |parts| ==> NoComma(parts[i])
    ensures Split(Join(parts, ",")) == parts
  {
    OnePart(parts[0]);
    if |parts| > 1 {
      SplitOfJoin(parts[1..]);
      SplitAtComma(parts[0], Join(parts[1..], ","));
      assert parts == [parts[0]] + parts[1..];
    }
  }

  /** The five separators of a list: a comma, a line feed, a carriage return, a blank, a tab. */
  predicate Separates(c: char) {
    c == ',' || c == '\n' || c == '\r' || c == ' ' || c == '\t'
  }

  /** At each of the five separators the fields are split. */
  lemma {:induction false} FieldsSplit(a: string, c: char, b: string)
    requires Separates(c)
    ensures Fields(a + [c] + b) == Fields(a) + Fields(b)
    decreases |a|
  {
    var s := a + [c] + b;
    if a == "" {
      assert s[1..] == b;
    } else if IsSeparator(a[0]) {
      assert s[1..] == a[1..] + [c] + b;
      FieldsSplit(a[1..], c, b);
    } else {
      var n := Word(a);
      assert s[..n] == a[..n];
      assert n < |a| ==> s[n] == a[n];
      WordEnds(s, n);
      assert s[n..] == a[n..] + [c] + b;
      FieldsSplit(a[n..], c, b);
    }
  }

  /** And nowhere else: a text without them is one field. */
  lemma FieldsOfWord(s: string)
    requires s != "" && forall i :: 0 <= i < |s| ==> !Separates(s[i])
    ensures Fields(s) == [s]
  {
    assert s[..|s|] == s;
    WordEnds(s, |s|);
    assert s[|s|..] == "";
  }

  /** Items joined by any of the separators are read back. */
  lemma {:induction false} FieldsOfList(items: seq<string>, c: char)
    requires Separates(c)
    requires forall i :: 0 <= i < |items| ==> items[i] != ""
    requires forall i, j :: 0 <= i < |items| && 0 <= j < |items[i]| ==> !Separates(items[i][j])
    ensures Fields(Join(items, [c])) == items
  {
    if |items| == 1 {
      FieldsOfWord(items[0]);
    } else if |items| > 1 {
      FieldsOfWord(items[0]);
      FieldsOfList(items[1..], c);
      FieldsSplit(items[0], c, Join(items[1..], [c]));
      assert items == [items[0]] + items[1..];
    }
  }
}
