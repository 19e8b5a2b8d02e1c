/** What every JSON parser asks of a text that is one object or array: its strings end, its
    brackets outside strings close, and nothing but white space surrounds it (sections 2 to 7
    of RFC 8259). Which brackets match, and everything between them, is left open. */
module JsonText {

  datatype Scan =
    | Before
    | Inside(depth: nat, inString: bool, escaped: bool)
    | Closed
    | Broken
  {
    function Next(c: char): Scan {
      match this
      case Before =>
        if IsSpace(c) then Before else if c == '{' || c == '[' then Inside(1, false, false) else Broken
      case Inside(d, true, escaped) =>
        Inside(d, escaped || c != '"', !escaped && c == '\\')
      case Inside(d, false, _) =>
        if c == '"' then Inside(d, true, false)
        else if c == '{' || c == '[' then Inside(d + 1, false, false)
        else if c == '}' || c == ']' then if d <= 1 then Closed else Inside(d - 1, false, false)
        else Inside(d, false, false)
      case Closed => if IsSpace(c) then Closed else Broken
      case Broken => Broken
    }
  }

  predicate IsSpace(c: char) { c == ' ' || c == '\t' || c == '\n' || c == '\r' }

  function ScanFrom(scan: Scan, s: string): Scan {
    if s == [] then scan else ScanFrom(scan, s[..|s| - 1]).Next(s[|s| - 1])
  }

  predicate IsClosed(s: string) { ScanFrom(Before, s) == Closed }

  lemma {:induction false} ScanTogether(scan: Scan, s: string, t: string)
    ensures ScanFrom(scan, s + t) == ScanFrom(ScanFrom(scan, s), t)
  {
    if t == [] {
      assert s + t == s;
    } else {
      ScanTogether(scan, s, t[..|t| - 1]);
      assert (s + t)[..|s + t| - 1] == s + t[..|t| - 1];
    }
  }

  lemma ScanOne(scan: Scan, c: char)
    ensures ScanFrom(scan, [c]) == scan.Next(c)
  {
    assert [c][..0] == [];
  }

  /** After the end there is only white space. */
  lemma {:induction false} NothingFollows(scan: Scan, s: string)
    requires scan.Closed? || scan.Broken?
    ensures ScanFrom(scan, s).Closed? || ScanFrom(scan, s).Broken?
    ensures s != [] && !IsSpace(s[|s| - 1]) ==> ScanFrom(scan, s).Broken?
  {
    if s != [] {
      NothingFollows(scan, s[..|s| - 1]);
    }
  }

  // ---- Texts without brackets or escapes ----

  predicate Simple(s: string) {
    forall i :: 0 <= i < |s| ==>
      s[i] != '{' && s[i] != '}' && s[i] != '[' && s[i] != ']' && s[i] != '\\' && s[i] != '\n'
  }

  function OddQuotes(s: string): bool {
    if s == [] then false else OddQuotes(s[..|s| - 1]) != (s[|s| - 1] == '"')
  }

  /** Simple, and every string in it ends. */
  predicate Plain(s: string) { Simple(s) && !OddQuotes(s) }

  lemma {:induction false} OddTogether(s: string, t: string)
    ensures OddQuotes(s + t) == (OddQuotes(s) != OddQuotes(t))
  {
    if t == [] {
      assert s + t == s;
    } else {
      OddTogether(s, t[..|t| - 1]);
      assert (s + t)[..|s + t| - 1] == s + t[..|t| - 1];
    }
  }

  lemma PlainTogether(s: string, t: string)
    requires Plain(s) && Plain(t)
    ensures Plain(s + t)
  {
    OddTogether(s, t);
  }

  lemma {:induction false} NoQuotes(s: string)
    requires forall i :: 0 <= i < |s| ==> s[i] != '"'
    ensures !OddQuotes(s)
  {
    if s != [] {
      NoQuotes(s[..|s| - 1]);
    }
  }

  lemma {:induction false} SimpleScan(d: nat, inString: bool, s: string)
    requires Simple(s)
    ensures ScanFrom(Inside(d, inString, false), s) == Inside(d, inString != OddQuotes(s), false)
  {
    if s != [] {
      SimpleScan(d, inString, s[..|s| - 1]);
    }
  }

  // ---- One pair of braces ----

  function Braced(s: string): string { ['{'] + s + ['}'] }

  lemma {:induction false} ScanBraced(scan: Scan, s: string)
    ensures ScanFrom(scan, Braced(s)) == ScanFrom(scan.Next('{'), s).Next('}')
  {
    ScanTogether(scan, ['{'] + s, ['}']);
    ScanTogether(scan, ['{'], s);
    ScanOne(scan, '{');
    ScanOne(ScanFrom(scan.Next('{'), s), '}');
  }

  lemma BracedIsClosed(s: string)
    requires Plain(s)
    ensures IsClosed(Braced(s))
  {
    ScanBraced(Before, s);
    SimpleScan(1, false, s);
  }

  /** Cut short, the text is inside its braces, in a string or not. */
  lemma {:induction false} CutIsInside(s: string, k: nat)
    requires Simple(s) && 0 < k <= |s| + 1
    ensures ScanFrom(Before, Braced(s)[..k]) == Inside(1, OddQuotes(s[..k - 1]), false)
  {
    assert Braced(s)[..k] == ['{'] + s[..k - 1];
    ScanTogether(Before, ['{'], s[..k - 1]);
    ScanOne(Before, '{');
    SimpleScan(1, false, s[..k - 1]);
  }

  /** A text cut short anywhere is not closed. */
  lemma CutIsNotClosed(s: string, k: nat)
    requires Simple(s) && k < |Braced(s)|
    ensures !IsClosed(Braced(s)[..k])
  {
    if k == 0 {
      assert Braced(s)[..k] == [];
    } else {
      CutIsInside(s, k);
    }
  }

  /** Nor is a cut or whole text with another run into it: the second one's brackets and
      quotes are balanced wherever it starts, even inside a string. */
  lemma {:induction false} MergedIsNotClosed(s: string, k: nat, t: string)
    requires Plain(s) && Plain(t) && 0 < k <= |Braced(s)|
    ensures !IsClosed(Braced(s)[..k] + Braced(t))
  {
    ScanTogether(Before, Braced(s)[..k], Braced(t));
    if k == |Braced(s)| {
      assert Braced(s)[..k] == Braced(s);
      BracedIsClosed(s);
      NothingFollows(Closed, Braced(t));
    } else {
      CutIsInside(s, k);
      var inString := OddQuotes(s[..k - 1]);
      ScanBraced(Inside(1, inString, false), t);
      SimpleScan(if inString then 1 else 2, inString, t);
    }
  }
}
