/** The few java.lang.String operations the query service relies on: split on a
    one-character separator, the StringBuilder join of path prefixes, endsWith,
    toLowerCase, equalsIgnoreCase and Integer.toString. Case mapping covers the
    ASCII letters only. */
module Strings {

  /** Every piece of `s` between two occurrences of `sep`, empty pieces included.
      There is always at least one piece. */
  function SplitAll(s: string, sep: char): (parts: seq<string>)
    ensures |parts| >= 1
  {
    if |s| == 0 then [""]
    else
      var rest := SplitAll(s[1..], sep);
      if s[0] == sep then [""] + rest
      else [[s[0]] + rest[0]] + rest[1..]
  }

  /** The pieces glued back together with `sep` between neighbours. */
  function Join(parts: seq<string>, sep: char): string
  {
    if |parts| == 0 then ""
    else if |parts| == 1 then parts[0]
    else parts[0] + [sep] + Join(parts[1..], sep)
  }

  /** What String.split does after splitting: trailing empty strings are removed. */
  function DropTrailingEmpty(parts: seq<string>): (r: seq<string>)
    ensures |r| <= |parts| && r == parts[..|r|]
    ensures forall i :: |r| <= i < |parts| ==> parts[i] == ""
    ensures |r| > 0 ==> r[|r| - 1] != ""
  {
    if |parts| > 0 && parts[|parts| - 1] == "" then DropTrailingEmpty(parts[..|parts| - 1])
    else parts
  }

  /** String.split(regex) for a regex that matches one literal character: the whole
      string when the character does not occur, otherwise the pieces without the
      trailing empty ones (so "a." gives ["a"] and "." gives []). */
  function JavaSplit(s: string, sep: char): seq<string>
  {
    if sep !in s then [s] else DropTrailingEmpty(SplitAll(s, sep))
  }

  predicate EndsWith(s: string, suffix: string)
  {
    |suffix| <= |s| && s[|s| - |suffix|..] == suffix
  }

  /** A string that ends with a non-empty suffix ends with that suffix's last character. */
  lemma EndsWithLast(s: string, suffix: string)
    ensures EndsWith(s, suffix) && |suffix| > 0 ==> s[|s| - 1] == suffix[|suffix| - 1]
  {
    if EndsWith(s, suffix) && |suffix| > 0 {
      assert s[|s| - |suffix|..][|suffix| - 1] == s[|s| - 1];
    }
  }

  function LowerChar(c: char): char
  {
    if 'A' <= c <= 'Z' then (c as int + 32) as char else c
  }

  function UpperChar(c: char): char
  {
    if 'a' <= c <= 'z' then (c as int - 32) as char else c
  }

  /** String.toLowerCase, on ASCII letters. */
  function Lower(s: string): string
  {
    seq(|s|, i requires 0 <= i < |s| => LowerChar(s[i]))
  }

  /** String.equalsIgnoreCase: same length, and position by position the characters
      are equal or equal once upper-cased. */
  predicate EqualsIgnoreCase(a: string, b: string)
  {
    |a| == |b| && forall i :: 0 <= i < |a| ==> a[i] == b[i] || UpperChar(a[i]) == UpperChar(b[i])
  }

  function DigitChar(d: nat): char
    requires d < 10
  {
    "0123456789"[d]
  }

  function NatToString(n: nat): string
  {
    if n < 10 then [DigitChar(n)] else NatToString(n / 10) + [DigitChar(n % 10)]
  }

  /** Integer.toString: decimal digits with a leading '-' for negative numbers. */
  function IntToString(n: int): string
  {
    if n < 0 then "-" + NatToString(-n) else NatToString(n)
  }

  // ---------------------------------------------------------------------------
  // Lemmas
  // ---------------------------------------------------------------------------

  /** No piece of a split contains the separator. */
  lemma {:induction false} SplitPiecesLackSeparator(s: string, sep: char)
    ensures forall i :: 0 <= i < |SplitAll(s, sep)| ==> sep !in SplitAll(s, sep)[i]
  {
    if |s| > 0 {
      SplitPiecesLackSeparator(s[1..], sep);
    }
  }

  /** The separator occurs exactly when the split has more than one piece. */
  lemma {:induction false} SplitHasManyPiecesIffSeparator(s: string, sep: char)
    ensures sep in s <==> |SplitAll(s, sep)| >= 2
  {
    if |s| > 0 {
      SplitHasManyPiecesIffSeparator(s[1..], sep);
      assert s == [s[0]] + s[1..];
    }
  }

  /** Joining the pieces of a split gives the string back. */
  lemma {:induction false} JoinSplit(s: string, sep: char)
    ensures Join(SplitAll(s, sep), sep) == s
  {
    if |s| > 0 {
      var rest := SplitAll(s[1..], sep);
      JoinSplit(s[1..], sep);
      if s[0] == sep {
        assert SplitAll(s, sep)[1..] == rest;
      } else {
        var parts := SplitAll(s, sep);
        assert parts[1..] == rest[1..];
        if |rest| > 1 {
          assert Join(rest, sep) == rest[0] + [sep] + Join(rest[1..], sep);
        }
      }
    }
  }

  /** Splitting a join of separator-free pieces gives the pieces back. */
  lemma {:induction false} SplitJoin(parts: seq<string>, sep: char)
    requires |parts| >= 1
    requires forall i :: 0 <= i < |parts| ==> sep !in parts[i]
    ensures SplitAll(Join(parts, sep), sep) == parts
  {
    if |parts| == 1 {
      SplitOfSeparatorFree(parts[0], sep);
    } else {
      var tail := Join(parts[1..], sep);
      SplitJoin(parts[1..], sep);
      SplitAppend(parts[0], tail, sep);
    }
  }

  /** A separator-free string splits into itself. */
  lemma {:induction false} SplitOfSeparatorFree(p: string, sep: char)
    requires sep !in p
    ensures SplitAll(p, sep) == [p]
  {
    if |p| > 0 {
      SplitOfSeparatorFree(p[1..], sep);
      assert p[0] != sep;
      assert [p[0]] + p[1..] == p;
    }
  }

  /** Splitting `p + sep + t` for a separator-free `p` puts `p` in front of the pieces of `t`. */
  lemma {:induction false} SplitAppend(p: string, t: string, sep: char)
    requires sep !in p
    ensures SplitAll(p + [sep] + t, sep) == [p] + SplitAll(t, sep)
  {
    if |p| == 0 {
      assert p + [sep] + t == [sep] + t;
      assert ([sep] + t)[1..] == t;
    } else {
      SplitAppend(p[1..], t, sep);
      assert (p + [sep] + t)[1..] == p[1..] + [sep] + t;
      assert [p[0]] + p[1..] == p;
    }
  }

  /** The StringBuilder step of the join-key loop: joining one more piece appends the
      separator and that piece. */
  lemma {:induction false} JoinSnoc(parts: seq<string>, sep: char)
    requires |parts| >= 2
    ensures Join(parts, sep) == Join(parts[..|parts| - 1], sep) + [sep] + parts[|parts| - 1]
  {
    if |parts| > 2 {
      JoinSnoc(parts[1..], sep);
      assert parts[1..][..|parts| - 2] == parts[..|parts| - 1][1..];
    }
  }

  /** The Java split is a prefix of the full split, and its pieces are separator-free. */
  lemma JavaSplitIsPrefix(s: string, sep: char)
    ensures var js := JavaSplit(s, sep);
      |js| <= |SplitAll(s, sep)| && js == SplitAll(s, sep)[..|js|]
      && forall i :: 0 <= i < |js| ==> sep !in js[i]
  {
    SplitPiecesLackSeparator(s, sep);
    if sep !in s {
      SplitOfSeparatorFree(s, sep);
    }
  }

  /** String.split returns the string alone exactly when the separator does not occur in
      it; so a result of two or more pieces means the separator occurs. */
  lemma JavaSplitWhole(s: string, sep: char)
    ensures JavaSplit(s, sep) == [s] <==> sep !in s
    ensures |JavaSplit(s, sep)| >= 2 ==> sep in s
  {
    JavaSplitIsPrefix(s, sep);
  }

  /** A string that does not end with the separator loses no piece to String.split: its
      pieces are all those of the full split, they join back to the string, and there are
      two or more of them exactly when the separator occurs. */
  lemma JavaSplitRoundTrip(s: string, sep: char)
    requires |s| > 0 && s[|s| - 1] != sep
    ensures JavaSplit(s, sep) == SplitAll(s, sep)
    ensures Join(JavaSplit(s, sep), sep) == s
    ensures |JavaSplit(s, sep)| >= 2 <==> sep in s
  {
    SplitHasManyPiecesIffSeparator(s, sep);
    JoinSplit(s, sep);
    if sep in s {
      var parts := SplitAll(s, sep);
      SplitLastPiece(s, sep);
      assert DropTrailingEmpty(parts) == parts;
    } else {
      SplitOfSeparatorFree(s, sep);
    }
  }

  /** The last piece of a split is empty only when the string ends with the separator. */
  lemma {:induction false} SplitLastPiece(s: string, sep: char)
    requires |s| > 0 && s[|s| - 1] != sep
    ensures SplitAll(s, sep)[|SplitAll(s, sep)| - 1] != ""
  {
    if |s| > 1 {
      assert s[1..][|s[1..]| - 1] == s[|s| - 1];
      SplitLastPiece(s[1..], sep);
    }
  }

  /** The first piece of a split is the part of `s` before the first separator. */
  lemma {:induction false} FirstPieceIsPrefix(s: string, sep: char)
    ensures var p := SplitAll(s, sep)[0];
      |p| <= |s| && p == s[..|p|] && sep !in p && (|p| < |s| ==> s[|p|] == sep)
  {
    if |s| > 0 {
      FirstPieceIsPrefix(s[1..], sep);
    }
  }

  /** Case-insensitive equality is equality of the lower-cased strings. */
  lemma EqualsIgnoreCaseIsLowerEquality(a: string, b: string)
    ensures EqualsIgnoreCase(a, b) <==> Lower(a) == Lower(b)
  {
    if |a| == |b| {
      forall i | 0 <= i < |a|
        ensures (a[i] == b[i] || UpperChar(a[i]) == UpperChar(b[i])) <==> LowerChar(a[i]) == LowerChar(b[i])
      {
      }
      if Lower(a) == Lower(b) {
        forall i | 0 <= i < |a|
          ensures a[i] == b[i] || UpperChar(a[i]) == UpperChar(b[i])
        {
          assert Lower(a)[i] == Lower(b)[i];
        }
      }
    }
  }
}
