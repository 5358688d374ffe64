/** The content of a text subscription: line endings and surrounding white space do not matter. */
module Content {
  import opened Texts

  /** strings.ReplaceAll(content, "\r\n", "\n") */
  function CrLfToLf(s: string): string {
    if s == "" then ""
    else if |s| >= 2 && s[0] == '\r' && s[1] == '\n' then "\n" + CrLfToLf(s[2..])
    else [s[0]] + CrLfToLf(s[1..])
  }

  /** strings.ReplaceAll(content, "\r", "\n") */
  function CrToLf(s: string): string {
    if s == "" then "" else [if s[0] == '\r' then '\n' else s[0]] + CrToLf(s[1..])
  }

  function NormalizeContent(s: string): string {
    Trim(CrToLf(CrLfToLf(s)))
  }

  predicate NoCr(s: string) { forall i :: 0 <= i < |s| ==> s[i] != '\r' }

  lemma {:induction false} NoCrLeft(s: string)
    ensures NoCr(CrToLf(s))
  {
    if s != "" {
      NoCrLeft(s[1..]);
    }
  }

  lemma {:induction false} TrimKeepsNoCr(s: string)
    requires NoCr(s)
    ensures NoCr(Trim(s))
    decreases |s|
  {
    if s != "" {
      if IsSpace(s[0]) {
        TrimKeepsNoCr(s[1..]);
      } else if IsSpace(s[|s| - 1]) {
        TrimKeepsNoCr(s[..|s| - 1]);
      }
    }
  }

  lemma {:induction false} NothingToReplace(s: string)
    requires NoCr(s)
    ensures CrLfToLf(s) == s && CrToLf(s) == s
  {
    if s != "" {
      NothingToReplace(s[1..]);
      assert s == [s[0]] + s[1..];
    }
  }

  /** Normalized content has no carriage return, no white space at its ends, and is its own
      normal form, so the copy made for a response equals the stored one. */
  lemma NormalForm(s: string)
    ensures NoCr(NormalizeContent(s))
    ensures NormalizeContent(NormalizeContent(s)) == NormalizeContent(s)
  {
    var t := CrToLf(CrLfToLf(s));
    NoCrLeft(CrLfToLf(s));
    TrimKeepsNoCr(t);
    NothingToReplace(Trim(t));
  }

  /** Nothing but line endings and the white space around is changed. */
  lemma ContentIsKept(before: string, s: string, after: string)
    requires Blank(before) && Blank(after) && Tight(s) && NoCr(before) && NoCr(s) && NoCr(after)
    ensures NormalizeContent(before + s + after) == s
  {
    NothingToReplace(before + s + after);
    TrimPadded(before, s, after);
  }

  /** A text with each line ended by `ending` instead of a line feed. */
  function WithEndings(s: string, ending: string): string {
    if s == "" then "" else (if s[0] == '\n' then ending else [s[0]]) + WithEndings(s[1..], ending)
  }

  lemma {:induction false} CrLfUndone(s: string)
    requires NoCr(s)
    ensures CrLfToLf(WithEndings(s, "\r\n")) == s
  {
    if s != "" {
      var t := WithEndings(s, "\r\n");
      CrLfUndone(s[1..]);
      assert s == [s[0]] + s[1..];
      if s[0] == '\n' {
        assert t[2..] == WithEndings(s[1..], "\r\n");
      } else {
        assert t[1..] == WithEndings(s[1..], "\r\n");
      }
    }
  }

  predicate NoLf(s: string) { forall i :: 0 <= i < |s| ==> s[i] != '\n' }

  lemma {:induction false} NoCrLf(s: string)
    requires NoLf(s)
    ensures CrLfToLf(s) == s
  {
    if s != "" {
      NoCrLf(s[1..]);
      assert s == [s[0]] + s[1..];
    }
  }

  lemma {:induction false} CrUndone(s: string)
    requires NoCr(s)
    ensures NoLf(WithEndings(s, "\r")) && CrToLf(WithEndings(s, "\r")) == s
  {
    if s != "" {
      CrUndone(s[1..]);
      assert s == [s[0]] + s[1..];
      assert WithEndings(s, "\r")[1..] == WithEndings(s[1..], "\r");
    }
  }

  /** The same lines give the same content, whichever way the browser ended them. */
  lemma LineEndingsDoNotMatter(s: string)
    requires NoCr(s)
    ensures NormalizeContent(WithEndings(s, "\r\n")) == NormalizeContent(s)
    ensures NormalizeContent(WithEndings(s, "\r")) == NormalizeContent(s)
  {
    CrLfUndone(s);
    CrUndone(s);
    NoCrLf(WithEndings(s, "\r"));
    NothingToReplace(s);
  }
}
