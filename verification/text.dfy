/** The string operations the document renderer relies on: JavaScript's
    `String.prototype.trim`, `split` on a single separator character, the
    blank-line filter of `splitTextToLines`, and the decimal rendering of a
    number inside a template literal. */
module Text {
  import opened Optional

  /** The characters `trim` removes: ECMAScript WhiteSpace and LineTerminator. */
  predicate IsWhitespace(c: char)
  {
    || c == ' ' || c == '\t' || c == '\n' || c == '\r'
    || c == '\U{000B}' || c == '\U{000C}' || c == '\U{00A0}' || c == '\U{FEFF}'
    || c == '\U{1680}' || ('\U{2000}' <= c <= '\U{200A}')
    || c == '\U{2028}' || c == '\U{2029}' || c == '\U{202F}' || c == '\U{205F}'
    || c == '\U{3000}'
  }

  predicate AllWhitespace(s: string)
  {
    forall i :: 0 <= i < |s| ==> IsWhitespace(s[i])
  }

  /** Drops leading whitespace. */
  function TrimStart(s: string): (r: string)
    ensures |r| <= |s| && r == s[|s| - |r|..]
    ensures AllWhitespace(s[..|s| - |r|])
    ensures r == "" || !IsWhitespace(r[0])
  {
    if |s| > 0 && IsWhitespace(s[0]) then
      var r := TrimStart(s[1..]);
      TrimStartStep(s, r);
      r
    else
      NothingTrimmed(s);
      s
  }

  /** Trimming nothing keeps the whole text and drops an empty, hence all
      whitespace, part at either end. */
  lemma NothingTrimmed(s: string)
    ensures s == s[|s| - |s|..] && s == s[..|s|]
    ensures AllWhitespace(s[..|s| - |s|]) && AllWhitespace(s[|s|..])
  {
    assert s[..|s| - |s|] == [];
    assert s[|s|..] == [];
  }

  /** One more leading whitespace character in front of a trimmed tail. */
  lemma TrimStartStep(s: string, r: string)
    requires |s| > 0 && IsWhitespace(s[0])
    requires |r| <= |s| - 1 && r == s[1..][|s| - 1 - |r|..]
    requires AllWhitespace(s[1..][..|s| - 1 - |r|])
    requires r == "" || !IsWhitespace(r[0])
    ensures |r| <= |s| && r == s[|s| - |r|..]
    ensures AllWhitespace(s[..|s| - |r|])
    ensures r == "" || !IsWhitespace(r[0])
  {
    var t := s[1..];
    assert t[|t| - |r|..] == s[|s| - |r|..];
    var dropped := s[..|s| - |r|];
    forall i | 0 <= i < |dropped| ensures IsWhitespace(dropped[i]) {
      if i > 0 {
        assert dropped[i] == t[..|t| - |r|][i - 1];
      }
    }
  }

  /** Drops trailing whitespace. */
  function TrimEnd(s: string): (r: string)
    ensures |r| <= |s| && r == s[..|r|]
    ensures AllWhitespace(s[|r|..])
    ensures r == "" || !IsWhitespace(r[|r| - 1])
  {
    if |s| > 0 && IsWhitespace(s[|s| - 1]) then
      var r := TrimEnd(s[..|s| - 1]);
      TrimEndStep(s, r);
      r
    else
      NothingTrimmed(s);
      s
  }

  /** One more trailing whitespace character behind a trimmed head. */
  lemma TrimEndStep(s: string, r: string)
    requires |s| > 0 && IsWhitespace(s[|s| - 1])
    requires |r| <= |s| - 1 && r == s[..|s| - 1][..|r|]
    requires AllWhitespace(s[..|s| - 1][|r|..])
    requires r == "" || !IsWhitespace(r[|r| - 1])
    ensures |r| <= |s| && r == s[..|r|]
    ensures AllWhitespace(s[|r|..])
    ensures r == "" || !IsWhitespace(r[|r| - 1])
  {
    var t := s[..|s| - 1];
    assert t[..|r|] == s[..|r|];
    var dropped := s[|r|..];
    forall i | 0 <= i < |dropped| ensures IsWhitespace(dropped[i]) {
      if |r| + i < |t| {
        assert dropped[i] == t[|r|..][i];
      }
    }
  }

  /** `s.trim()` */
  function Trim(s: string): string
  {
    TrimEnd(TrimStart(s))
  }

  /** `line.trim() === ''` */
  predicate IsBlank(line: string)
  {
    Trim(line) == ""
  }

  /** A text made only of whitespace trims to nothing from the front. */
  lemma {:induction false} TrimStartAllWhitespace(s: string)
    requires AllWhitespace(s)
    ensures TrimStart(s) == ""
  {
    if |s| > 0 {
      assert AllWhitespace(s[1..]) by {
        forall i | 0 <= i < |s[1..]| ensures IsWhitespace(s[1..][i]) {
          assert s[1..][i] == s[i + 1];
        }
      }
      TrimStartAllWhitespace(s[1..]);
    }
  }

  /** Trimming the front stops at the first non-whitespace character. */
  lemma {:induction false} TrimStartKeeps(s: string, i: nat)
    requires i < |s| && !IsWhitespace(s[i])
    ensures |TrimStart(s)| >= |s| - i
  {
    if IsWhitespace(s[0]) {
      assert s[1..][i - 1] == s[i];
      TrimStartKeeps(s[1..], i - 1);
    }
  }

  /** Trimming the back stops at the last non-whitespace character. */
  lemma {:induction false} TrimEndKeeps(s: string, i: nat)
    requires i < |s| && !IsWhitespace(s[i])
    ensures |TrimEnd(s)| > i
  {
    if IsWhitespace(s[|s| - 1]) {
      assert s[..|s| - 1][i] == s[i];
      TrimEndKeeps(s[..|s| - 1], i);
    }
  }

  /** A line with a non-whitespace character does not trim to nothing. */
  lemma TrimKeepsContent(s: string, i: nat)
    requires i < |s| && !IsWhitespace(s[i])
    ensures Trim(s) != ""
  {
    TrimStartKeeps(s, i);
    var t := TrimStart(s);
    var k := i - (|s| - |t|);
    assert t[k] == s[i];
    TrimEndKeeps(t, k);
  }

  /** A line trims to nothing exactly when every character of it is whitespace. */
  lemma BlankIffAllWhitespace(s: string)
    ensures IsBlank(s) <==> AllWhitespace(s)
  {
    if AllWhitespace(s) {
      TrimStartAllWhitespace(s);
    } else {
      var i :| 0 <= i < |s| && !IsWhitespace(s[i]);
      TrimKeepsContent(s, i);
    }
  }

  /** `s.split(sep)` for a one-character separator: the maximal pieces of `s`
      between separators, including empty ones; never an empty list. */
  function Split(s: string, sep: char): (pieces: seq<string>)
    ensures |pieces| >= 1
  {
    if |s| == 0 then [""]
    else
      var rest := Split(s[1..], sep);
      if s[0] == sep then [""] + rest
      else [[s[0]] + rest[0]] + rest[1..]
  }

  /** No piece of a split contains the separator. */
  lemma {:induction false} SplitPiecesLackSeparator(s: string, sep: char)
    ensures forall i :: 0 <= i < |Split(s, sep)| ==> sep !in Split(s, sep)[i]
  {
    if |s| > 0 {
      SplitPiecesLackSeparator(s[1..], sep);
      if s[0] == sep {
        SplitConsSeparator(s[1..], sep);
      } else {
        SplitConsOther(s[0], s[1..], sep);
      }
      assert s == [s[0]] + s[1..];
    }
  }

  /** `pieces.join(sep)` */
  function Join(pieces: seq<string>, sep: char): string
  {
    if |pieces| == 0 then ""
    else if |pieces| == 1 then pieces[0]
    else pieces[0] + [sep] + Join(pieces[1..], sep)
  }

  /** Joining the pieces of a split gives back the original text. */
  lemma {:induction false} JoinSplit(s: string, sep: char)
    ensures Join(Split(s, sep), sep) == s
  {
    if |s| > 0 {
      var rest := Split(s[1..], sep);
      JoinSplit(s[1..], sep);
      assert s == [s[0]] + s[1..];
      if s[0] == sep {
        assert ([""] + rest)[1..] == rest;
      } else {
        var pieces := [[s[0]] + rest[0]] + rest[1..];
        if |rest| > 1 {
          assert pieces[1..] == rest[1..];
        }
      }
    }
  }

  /** A text without the separator is a single piece. */
  lemma {:induction false} SplitWithoutSeparator(s: string, sep: char)
    requires sep !in s
    ensures Split(s, sep) == [s]
  {
    if |s| > 0 {
      assert sep !in s[1..] by {
        forall i | 0 <= i < |s[1..]| ensures s[1..][i] != sep {
          assert s[1..][i] == s[i + 1];
        }
      }
      SplitWithoutSeparator(s[1..], sep);
      assert [s[0]] + s[1..] == s;
    }
  }

  /** A leading separator opens an empty first piece. */
  lemma SplitConsSeparator(t: string, sep: char)
    ensures Split([sep] + t, sep) == [""] + Split(t, sep)
  {
    assert ([sep] + t)[1..] == t;
  }

  /** Any other leading character joins the first piece. */
  lemma SplitConsOther(c: char, t: string, sep: char)
    requires c != sep
    ensures Split([c] + t, sep) == [[c] + Split(t, sep)[0]] + Split(t, sep)[1..]
  {
    assert ([c] + t)[1..] == t;
  }

  /** Sequence concatenation regrouped. A separate lemma, so that the split
      proofs below need only this instance of the sequence axioms. */
  lemma Associate<T>(a: seq<T>, b: seq<T>, c: seq<T>)
    ensures a + (b + c) == (a + b) + c
  {
  }

  /** The head and tail of a concatenation with a non-empty left side. */
  lemma HeadOfConcat<T>(a: seq<T>, b: seq<T>)
    requires |a| >= 1
    ensures (a + b)[0] == a[0] && (a + b)[1..] == a[1..] + b
  {
  }

  /** Putting the same character in front of two texts keeps a common tail
      of their splits. */
  lemma SplitConsStep(c: char, x: string, y: string, sep: char, tail: seq<string>)
    requires Split(y, sep) == Split(x, sep) + tail
    ensures Split([c] + y, sep) == Split([c] + x, sep) + tail
  {
    var left := Split(x, sep);
    if c == sep {
      SplitConsSeparator(y, sep);
      SplitConsSeparator(x, sep);
      Associate([""], left, tail);
    } else {
      SplitConsOther(c, y, sep);
      SplitConsOther(c, x, sep);
      HeadOfConcat(left, tail);
      Associate([[c] + left[0]], left[1..], tail);
    }
  }

  /** Splitting at a separator splits the two sides independently. */
  lemma {:induction false} SplitAround(a: string, sep: char, b: string)
    ensures Split(a + [sep] + b, sep) == Split(a, sep) + Split(b, sep)
  {
    if |a| == 0 {
      assert a + [sep] + b == [sep] + b;
      SplitConsSeparator(b, sep);
    } else {
      SplitAround(a[1..], sep, b);
      SplitConsStep(a[0], a[1..], a[1..] + [sep] + b, sep, Split(b, sep));
      assert [a[0]] + (a[1..] + [sep] + b) == a + [sep] + b;
      assert [a[0]] + a[1..] == a;
    }
  }

  /** Splitting a join of separator-free pieces gives back the pieces. */
  lemma {:induction false} SplitJoin(pieces: seq<string>, sep: char)
    requires |pieces| >= 1
    requires forall i :: 0 <= i < |pieces| ==> sep !in pieces[i]
    ensures Split(Join(pieces, sep), sep) == pieces
  {
    SplitWithoutSeparator(pieces[0], sep);
    if |pieces| > 1 {
      SplitJoin(pieces[1..], sep);
      SplitAround(pieces[0], sep, Join(pieces[1..], sep));
      assert [pieces[0]] + pieces[1..] == pieces;
    }
  }

  /** `s.filter(keep)`: the elements satisfying `keep`, in their order. */
  function Filter<T>(s: seq<T>, keep: T -> bool): (kept: seq<T>)
    ensures |kept| <= |s|
    ensures forall i :: 0 <= i < |kept| ==> keep(kept[i]) && kept[i] in s
  {
    if |s| == 0 then []
    else (if keep(s[0]) then [s[0]] else []) + Filter(s[1..], keep)
  }

  /** The filter keeps every element satisfying `keep`. */
  lemma {:induction false} FilterComplete<T>(s: seq<T>, keep: T -> bool, x: T)
    requires x in s && keep(x)
    ensures x in Filter(s, keep)
  {
    if s[0] != x {
      FilterComplete(s[1..], keep, x);
    }
  }

  /** The filter works piecewise, so it keeps the survivors in their order. */
  lemma {:induction false} FilterConcat<T>(a: seq<T>, b: seq<T>, keep: T -> bool)
    ensures Filter(a + b, keep) == Filter(a, keep) + Filter(b, keep)
  {
    if |a| > 0 {
      assert (a + b)[0] == a[0];
      assert (a + b)[1..] == a[1..] + b;
      FilterConcat(a[1..], b, keep);
      var head := if keep(a[0]) then [a[0]] else [];
      assert Filter(a + b, keep) == head + Filter(a[1..] + b, keep);
      assert Filter(a, keep) == head + Filter(a[1..], keep);
      assert head + (Filter(a[1..], keep) + Filter(b, keep))
          == (head + Filter(a[1..], keep)) + Filter(b, keep);
    } else {
      assert a + b == b;
    }
  }

  /** The test of `splitTextToLines`'s filter: `line.trim() !== ''`. */
  predicate NonBlank(line: string)
  {
    !IsBlank(line)
  }

  /** `splitTextToLines`: an absent or empty text has no lines; otherwise the
      lines are the pieces of `text.split('\n')` whose trim is non-empty. */
  function SplitTextToLines(text: Option<string>): (lines: seq<string>)
    ensures !Truthy(text) ==> lines == []
    ensures forall i :: 0 <= i < |lines| ==> NonBlank(lines[i]) && '\n' !in lines[i]
  {
    if Truthy(text) then
      SplitPiecesLackSeparator(text.value, '\n');
      Filter(Split(text.value, '\n'), NonBlank)
    else []
  }

  /** A text's lines are exactly its non-blank pieces between line breaks. */
  lemma LinesAreNonBlankPieces(s: string, p: string)
    ensures p in SplitTextToLines(Some(s)) <==> p in Split(s, '\n') && NonBlank(p)
  {
    var pieces := Split(s, '\n');
    if p in pieces && NonBlank(p) {
      FilterComplete(pieces, NonBlank, p);
      LinesOfAnyText(s);
    }
  }

  /** Whatever the text, its lines are the non-blank pieces between line breaks:
      the empty text's single piece is blank, so the truthiness test changes nothing. */
  lemma LinesOfAnyText(s: string)
    ensures SplitTextToLines(Some(s)) == Filter(Split(s, '\n'), NonBlank)
  {
    if s == "" {
      assert Split(s, '\n') == [""];
      assert !NonBlank("");
    }
  }

  /** The lines of a text are the lines of its parts on either side of a line break. */
  lemma LinesAround(a: string, b: string)
    ensures SplitTextToLines(Some(a + "\n" + b))
         == SplitTextToLines(Some(a)) + SplitTextToLines(Some(b))
  {
    SplitAround(a, '\n', b);
    FilterConcat(Split(a, '\n'), Split(b, '\n'), NonBlank);
    LinesOfAnyText(a);
    LinesOfAnyText(b);
    LinesOfAnyText(a + "\n" + b);
  }

  /** A single non-blank line without a break is kept as it is; a blank one
      contributes nothing. */
  lemma LinesOfOneLine(s: string)
    requires '\n' !in s
    ensures SplitTextToLines(Some(s)) == if NonBlank(s) then [s] else []
  {
    SplitWithoutSeparator(s, '\n');
    LinesOfAnyText(s);
  }

  /** The digit character for `d`. */
  function DigitChar(d: nat): char
    requires d < 10
  {
    "0123456789"[d]
  }

  /** How a natural number prints inside a template literal: its decimal digits. */
  function NatToString(n: nat): (s: string)
    ensures |s| >= 1
    ensures forall i :: 0 <= i < |s| ==> '0' <= s[i] <= '9'
    ensures s[0] == '0' <==> n == 0
  {
    if n < 10 then [DigitChar(n)]
    else NatToString(n / 10) + [DigitChar(n % 10)]
  }

  /** The number a string of decimal digits denotes. */
  function DecimalValue(s: string): nat
    requires forall i :: 0 <= i < |s| ==> '0' <= s[i] <= '9'
  {
    if |s| == 0 then 0
    else DecimalValue(s[..|s| - 1]) * 10 + (s[|s| - 1] as int - '0' as int)
  }

  /** Reading back the printed digits gives the number. */
  lemma {:induction false} DecimalRoundTrip(n: nat)
    ensures DecimalValue(NatToString(n)) == n
  {
    if n >= 10 {
      var s := NatToString(n);
      assert s[..|s| - 1] == NatToString(n / 10);
      DecimalRoundTrip(n / 10);
    }
  }
}
