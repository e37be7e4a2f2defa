/** The string operations the parsers apply to cells and column names (ASCII letters and whitespace). */
module Text {

  function LowerChar(c: char): (r: char)
    ensures 'A' <= c <= 'Z' ==> 'a' <= r <= 'z'
    ensures !('A' <= c <= 'Z') ==> r == c
  {
    if 'A' <= c <= 'Z' then (c as int + 32) as char else c
  }

  function UpperChar(c: char): (r: char)
    ensures 'a' <= c <= 'z' ==> 'A' <= r <= 'Z'
    ensures !('a' <= c <= 'z') ==> r == c
  {
    if 'a' <= c <= 'z' then (c as int - 32) as char else c
  }

  /** `str.lower()` */
  function Lower(s: string): (r: string)
    ensures |r| == |s|
    ensures forall i :: 0 <= i < |s| ==> r[i] == LowerChar(s[i])
  {
    if |s| == 0 then "" else [LowerChar(s[0])] + Lower(s[1..])
  }

  /** `str.upper()` */
  function Upper(s: string): (r: string)
    ensures |r| == |s|
    ensures forall i :: 0 <= i < |s| ==> r[i] == UpperChar(s[i])
  {
    if |s| == 0 then "" else [UpperChar(s[0])] + Upper(s[1..])
  }

  /** `str.capitalize()`: the first character upper-cased, every other one lower-cased. */
  function Capitalize(s: string): (r: string)
    ensures |r| == |s|
    ensures |s| > 0 ==> r[0] == UpperChar(s[0])
    ensures forall i :: 0 < i < |s| ==> r[i] == LowerChar(s[i])
  {
    if |s| == 0 then "" else [UpperChar(s[0])] + Lower(s[1..])
  }

  /** Changing the case of a letter twice keeps only the last change. */
  lemma CaseOfCase(c: char)
    ensures LowerChar(UpperChar(c)) == LowerChar(c) && LowerChar(LowerChar(c)) == LowerChar(c)
    ensures UpperChar(LowerChar(c)) == UpperChar(c) && UpperChar(UpperChar(c)) == UpperChar(c)
  {
  }

  /**
   * `capitalize` ignores the case a cell was written in, so "BUY", "buy" and "Buy" read alike;
   * and a capitalized cell stays as it is.
   */
  lemma CapitalizeIgnoresCase(s: string)
    ensures Capitalize(Lower(s)) == Capitalize(s)
    ensures Capitalize(Upper(s)) == Capitalize(s)
    ensures Capitalize(Capitalize(s)) == Capitalize(s)
  {
    forall i | 0 <= i < |s| {
      CaseOfCase(s[i]);
    }
    assert forall i :: 0 <= i < |s| ==> Capitalize(Lower(s))[i] == Capitalize(s)[i];
    assert forall i :: 0 <= i < |s| ==> Capitalize(Upper(s))[i] == Capitalize(s)[i];
    assert forall i :: 0 <= i < |s| ==> Capitalize(Capitalize(s))[i] == Capitalize(s)[i];
  }

  /** The transaction types as brokers write them all name the two sides the parsers filter on. */
  lemma SideNames()
    ensures Capitalize("BUY") == Capitalize("buy") == Capitalize("Buy") == "Buy"
    ensures Capitalize("SELL") == Capitalize("sell") == Capitalize("Sell") == "Sell"
  {
    assert Capitalize("buy") == "Buy" by {
      assert Capitalize("buy")[0] == 'B' && Capitalize("buy")[1] == 'u' && Capitalize("buy")[2] == 'y';
    }
    assert Capitalize("BUY") == "Buy" by {
      assert Capitalize("BUY")[0] == 'B' && Capitalize("BUY")[1] == 'u' && Capitalize("BUY")[2] == 'y';
    }
    assert Capitalize("Buy") == "Buy" by {
      assert Capitalize("Buy")[0] == 'B' && Capitalize("Buy")[1] == 'u' && Capitalize("Buy")[2] == 'y';
    }
    assert Capitalize("sell") == "Sell" by {
      assert Capitalize("sell")[0] == 'S' && Capitalize("sell")[1] == 'e' && Capitalize("sell")[2] == 'l' && Capitalize("sell")[3] == 'l';
    }
    assert Capitalize("SELL") == "Sell" by {
      assert Capitalize("SELL")[0] == 'S' && Capitalize("SELL")[1] == 'e' && Capitalize("SELL")[2] == 'l' && Capitalize("SELL")[3] == 'l';
    }
    assert Capitalize("Sell") == "Sell" by {
      assert Capitalize("Sell")[0] == 'S' && Capitalize("Sell")[1] == 'e' && Capitalize("Sell")[2] == 'l' && Capitalize("Sell")[3] == 'l';
    }
  }

  /** The column names as `[col.lower() for col in df.columns]` gives them. */
  function LowerAll(names: seq<string>): (r: seq<string>)
    ensures |r| == |names|
    ensures forall i :: 0 <= i < |names| ==> r[i] == Lower(names[i])
  {
    if |names| == 0 then [] else [Lower(names[0])] + LowerAll(names[1..])
  }

  /** The ASCII characters `str.isspace()` accepts: blank, tab, the line breaks and the four separators. */
  predicate IsSpace(c: char)
  {
    c == ' ' || c == '\t' || c == '\n' || c == '\r' || c == '\U{B}' || c == '\U{C}' || '\U{1C}' <= c <= '\U{1F}'
  }

  function StripLeft(s: string): (r: string)
    ensures |r| <= |s| && r == s[|s| - |r|..]
    ensures |r| > 0 ==> !IsSpace(r[0])
  {
    if |s| > 0 && IsSpace(s[0]) then StripLeft(s[1..]) else s
  }

  function StripRight(s: string): (r: string)
    ensures |r| <= |s| && r == s[..|r|]
    ensures |r| > 0 ==> !IsSpace(r[|r| - 1])
  {
    if |s| > 0 && IsSpace(s[|s| - 1]) then StripRight(s[..|s| - 1]) else s
  }

  /** `str.strip()`: leading and trailing whitespace removed. */
  function Strip(s: string): (r: string)
    ensures |r| <= |s|
    ensures |r| > 0 ==> !IsSpace(r[0]) && !IsSpace(r[|r| - 1])
  {
    StripRight(StripLeft(s))
  }

  lemma {:induction false} StripLeftCutsSpace(s: string)
    ensures forall i :: 0 <= i < |s| - |StripLeft(s)| ==> IsSpace(s[i])
  {
    if |s| > 0 && IsSpace(s[0]) {
      StripLeftCutsSpace(s[1..]);
      assert forall i :: 1 <= i < |s| ==> s[i] == s[1..][i - 1];
    }
  }

  lemma {:induction false} StripRightCutsSpace(s: string)
    ensures forall i :: |StripRight(s)| <= i < |s| ==> IsSpace(s[i])
  {
    if |s| > 0 && IsSpace(s[|s| - 1]) {
      StripRightCutsSpace(s[..|s| - 1]);
      assert forall i :: 0 <= i < |s| - 1 ==> s[i] == s[..|s| - 1][i];
    }
  }

  /** The bounds of the piece `strip` keeps: whitespace only lies before `a` and from `b` on. */
  lemma StripBounds(s: string) returns (a: nat, b: nat)
    ensures a <= b <= |s| && Strip(s) == s[a..b]
    ensures forall i :: 0 <= i < a ==> IsSpace(s[i])
    ensures forall i :: b <= i < |s| ==> IsSpace(s[i])
  {
    var l := StripLeft(s);
    var r := StripRight(l);
    a := |s| - |l|;
    b := a + |r|;
    StripLeftCutsSpace(s);
    StripRightCutsSpace(l);
    assert l == s[a..] && r == l[..|r|];
    assert forall i :: b <= i < |s| ==> s[i] == l[i - a];
  }

  /**
   * `strip` keeps a contiguous piece of its input and cuts nothing but whitespace from either
   * end; it gives the empty string exactly when the input is whitespace only.
   */
  lemma StripCutsOnlySpace(s: string)
    ensures exists a, b :: (0 <= a <= b <= |s| && Strip(s) == s[a..b]
      && (forall i :: 0 <= i < a ==> IsSpace(s[i])) && (forall i :: b <= i < |s| ==> IsSpace(s[i])))
    ensures |Strip(s)| == 0 <==> forall i :: 0 <= i < |s| ==> IsSpace(s[i])
  {
    var a, b := StripBounds(s);
    if |Strip(s)| > 0 {
      assert s[a] == Strip(s)[0] && !IsSpace(s[a]);
    }
  }

  predicate IsPrefix(p: string, s: string)
  {
    |p| <= |s| && s[..|p|] == p
  }

  /** `sub in s` for strings. */
  predicate Contains(s: string, sub: string)
    decreases |s|
  {
    IsPrefix(sub, s) || (|s| > 0 && Contains(s[1..], sub))
  }
}
