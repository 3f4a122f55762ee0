/**
 * The two pieces of Python's text handling that the functional-group field
 * parser relies on: `str.split` with a one-character separator, and `int()`
 * applied to a string (base 10).
 */
module PyText {
  import opened Wrappers

  // ---------------------------------------------------------------------------
  // Searching for a character
  // ---------------------------------------------------------------------------

  /** The position of the first occurrence of `c` in `s` (`s.index(c)`). */
  function FirstIndex(s: string, c: char): (i: nat)
    requires c in s
    ensures i < |s| && s[i] == c && c !in s[..i]
  {
    if s[0] == c then 0
    else
      assert s == [s[0]] + s[1..];
      var j := FirstIndex(s[1..], c);
      assert s[..j + 1] == [s[0]] + s[1..][..j];
      j + 1
  }

  /** The text of `s` before its first `c`, or all of `s` when there is none. */
  function Before(s: string, c: char): string
  {
    if c in s then s[..FirstIndex(s, c)] else s
  }

  /** The text of `s` after its first `c`. */
  function After(s: string, c: char): string
    requires c in s
  {
    s[FirstIndex(s, c) + 1..]
  }

  // ---------------------------------------------------------------------------
  // str.split(sep) and its inverse sep.join(pieces)
  // ---------------------------------------------------------------------------

  /**
   * `s.split(sep)`: cut `s` at every occurrence of `sep`. The empty string
   * splits into `[""]`, and there is always one more piece than separators.
   */
  function Split(s: string, sep: char): (pieces: seq<string>)
    ensures |pieces| >= 1
    ensures sep in s <==> |pieces| >= 2
    decreases |s|
  {
    if sep in s then
      var i := FirstIndex(s, sep);
      [s[..i]] + Split(s[i + 1..], sep)
    else
      [s]
  }

  /** `sep.join(pieces)`. */
  function Join(pieces: seq<string>, sep: char): string
    requires |pieces| >= 1
  {
    if |pieces| == 1 then pieces[0]
    else pieces[0] + [sep] + Join(pieces[1..], sep)
  }

  /** The first piece of a split is the text before the first separator. */
  lemma SplitFirst(s: string, sep: char)
    ensures Split(s, sep)[0] == Before(s, sep)
  {
  }

  /** The pieces after the first are the split of the text after the first separator. */
  lemma SplitRest(s: string, sep: char)
    requires sep in s
    ensures Split(s, sep)[1..] == Split(After(s, sep), sep)
  {
  }

  /** No piece of a split contains the separator. */
  lemma {:induction false} SplitPiecesFree(s: string, sep: char)
    ensures forall k :: 0 <= k < |Split(s, sep)| ==> sep !in Split(s, sep)[k]
    decreases |s|
  {
    if sep in s {
      var i := FirstIndex(s, sep);
      SplitPiecesFree(s[i + 1..], sep);
    }
  }

  /** Joining the pieces with the separator gives back the original text. */
  lemma {:induction false} SplitJoin(s: string, sep: char)
    ensures Join(Split(s, sep), sep) == s
    decreases |s|
  {
    if sep in s {
      var i := FirstIndex(s, sep);
      var rest := Split(s[i + 1..], sep);
      var pieces := Split(s, sep);
      SplitJoin(s[i + 1..], sep);
      assert pieces == [s[..i]] + rest;
      assert pieces[1..] == rest;
      assert Join(pieces, sep) == s[..i] + [sep] + s[i + 1..];
      assert s == s[..i] + [sep] + s[i + 1..];
    }
  }

  /** The first separator of `p + [sep] + rest` is the one after a separator-free `p`. */
  lemma {:induction false} FirstIndexAfterFree(p: string, sep: char, rest: string)
    requires sep !in p
    ensures sep in p + [sep] + rest
    ensures FirstIndex(p + [sep] + rest, sep) == |p|
    decreases |p|
  {
    var s := p + [sep] + rest;
    assert s[|p|] == sep;
    if |p| > 0 {
      assert s[1..] == p[1..] + [sep] + rest;
      FirstIndexAfterFree(p[1..], sep, rest);
    }
  }

  /** Splitting a join of separator-free pieces gives back the pieces. */
  lemma {:induction false} JoinSplit(pieces: seq<string>, sep: char)
    requires |pieces| >= 1
    requires forall k :: 0 <= k < |pieces| ==> sep !in pieces[k]
    ensures Split(Join(pieces, sep), sep) == pieces
  {
    if |pieces| > 1 {
      var p := pieces[0];
      var rest := Join(pieces[1..], sep);
      var s := p + [sep] + rest;
      assert Join(pieces, sep) == s;
      assert sep !in p;
      FirstIndexAfterFree(p, sep, rest);
      assert s[..|p|] == p;
      assert s[|p| + 1..] == rest;
      forall k | 0 <= k < |pieces[1..]| ensures sep !in pieces[1..][k] {
        assert pieces[1..][k] == pieces[k + 1];
      }
      JoinSplit(pieces[1..], sep);
      assert Split(s, sep) == [p] + pieces[1..];
    }
  }

  // ---------------------------------------------------------------------------
  // int(text)
  // ---------------------------------------------------------------------------

  /** The characters `int()` strips from both ends of ASCII text. */
  predicate IsSpace(c: char)
  {
    c == ' ' || c == '\t' || c == '\n' || c == '\r' || c == '\U{B}' || c == '\U{C}'
  }

  predicate IsDigit(c: char)
  {
    '0' <= c <= '9'
  }

  predicate AllSpace(s: string)
  {
    forall k :: 0 <= k < |s| ==> IsSpace(s[k])
  }

  function StripLeft(s: string): string
  {
    if |s| > 0 && IsSpace(s[0]) then StripLeft(s[1..]) else s
  }

  function StripRight(s: string): string
  {
    if |s| > 0 && IsSpace(s[|s| - 1]) then StripRight(s[..|s| - 1]) else s
  }

  /** `s.strip()` restricted to the characters `int()` ignores around a number. */
  function Strip(s: string): string
  {
    StripRight(StripLeft(s))
  }

  /**
   * A run of decimal digits in which single underscores may separate two
   * digits: `1_000` but not `_1`, `1_`, or `1__0`.
   */
  predicate IsDigitGroup(s: string)
    decreases |s|
  {
    |s| > 0 && IsDigit(s[0]) &&
    (|s| == 1 || IsDigitGroup(s[1..]) || (s[1] == '_' && IsDigitGroup(s[2..])))
  }

  /** A non-empty run of plain digits is a digit group. */
  lemma {:induction false} AllDigitsGroup(s: string)
    requires |s| > 0 && forall k :: 0 <= k < |s| ==> IsDigit(s[k])
    ensures IsDigitGroup(s)
    decreases |s|
  {
    if |s| > 1 {
      forall k | 0 <= k < |s[1..]| ensures IsDigit(s[1..][k]) {
        assert s[1..][k] == s[k + 1];
      }
      AllDigitsGroup(s[1..]);
    }
  }

  function DigitValue(c: char): nat
    requires IsDigit(c)
  {
    (c as int - '0' as int) as nat
  }

  /** The number a digit group denotes, underscores ignored. */
  function DigitsValue(s: string): nat
  {
    if |s| == 0 then 0
    else if IsDigit(s[|s| - 1]) then 10 * DigitsValue(s[..|s| - 1]) + DigitValue(s[|s| - 1])
    else DigitsValue(s[..|s| - 1])
  }

  /** The text after an optional leading sign. */
  function Unsigned(t: string): string
  {
    if |t| > 0 && (t[0] == '+' || t[0] == '-') then t[1..] else t
  }

  predicate IsNegative(t: string)
  {
    |t| > 0 && t[0] == '-'
  }

  /**
   * `int(text)`: `Some(n)` when `text` is an integer literal in base 10
   * surrounded by optional whitespace, `None` where Python raises ValueError.
   */
  function ParseInt(text: string): Option<int>
  {
    var t := Strip(text);
    var digits := Unsigned(t);
    if IsDigitGroup(digits) then
      Some(if IsNegative(t) then -(DigitsValue(digits) as int) else DigitsValue(digits))
    else
      None
  }

  // ---------------------------------------------------------------------------
  // Showing an integer, the partner of ParseInt
  // ---------------------------------------------------------------------------

  function DigitChar(d: nat): char
    requires d < 10
  {
    ('0' as int + d) as char
  }

  /** The decimal digits of `n`, most significant first, with no leading zero. */
  function NatToDigits(n: nat): string
    decreases n
  {
    if n < 10 then [DigitChar(n)] else NatToDigits(n / 10) + [DigitChar(n % 10)]
  }

  /** `str(n)`. */
  function IntToString(n: int): string
  {
    if n < 0 then "-" + NatToDigits(-n as nat) else NatToDigits(n as nat)
  }

  lemma {:induction false} NatToDigitsCorrect(n: nat)
    ensures |NatToDigits(n)| > 0
    ensures forall k :: 0 <= k < |NatToDigits(n)| ==> IsDigit(NatToDigits(n)[k])
    ensures DigitsValue(NatToDigits(n)) == n
    decreases n
  {
    if n >= 10 {
      NatToDigitsCorrect(n / 10);
      var s := NatToDigits(n / 10) + [DigitChar(n % 10)];
      assert s[..|s| - 1] == NatToDigits(n / 10);
    }
  }

  /** Text that neither begins nor ends with whitespace is left alone by `strip()`. */
  lemma StripUnpadded(s: string)
    requires |s| > 0 && !IsSpace(s[0]) && !IsSpace(s[|s| - 1])
    ensures Strip(s) == s
  {
    assert StripLeft(s) == s;
  }

  /** The digits of a natural number form a digit group denoting that number. */
  lemma DigitsOfNat(n: nat)
    ensures IsDigitGroup(NatToDigits(n)) && DigitsValue(NatToDigits(n)) == n
    ensures IsDigit(NatToDigits(n)[|NatToDigits(n)| - 1])
  {
    NatToDigitsCorrect(n);
    AllDigitsGroup(NatToDigits(n));
  }

  /** A digit group ends in a digit. */
  lemma {:induction false} DigitGroupEnds(s: string)
    requires IsDigitGroup(s)
    ensures IsDigit(s[|s| - 1])
    decreases |s|
  {
    if |s| > 1 {
      if IsDigitGroup(s[1..]) {
        DigitGroupEnds(s[1..]);
        assert s[1..][|s[1..]| - 1] == s[|s| - 1];
      } else {
        DigitGroupEnds(s[2..]);
        assert s[2..][|s[2..]| - 1] == s[|s| - 1];
      }
    }
  }

  /** A digit group is accepted with its value. */
  lemma ParseDigits(ds: string)
    requires IsDigitGroup(ds)
    ensures ParseInt(ds) == Some(DigitsValue(ds))
  {
    DigitGroupEnds(ds);
    StripUnpadded(ds);
    assert Unsigned(ds) == ds && !IsNegative(ds);
  }

  /** A digit group after a minus sign is accepted with its value negated. */
  lemma ParseNegatedDigits(ds: string)
    requires IsDigitGroup(ds)
    ensures ParseInt("-" + ds) == Some(-(DigitsValue(ds) as int))
  {
    DigitGroupEnds(ds);
    var s := "-" + ds;
    assert s[|s| - 1] == ds[|ds| - 1];
    assert s[0] == '-' && s[1..] == ds;
    StripUnpadded(s);
    assert Unsigned(s) == ds && IsNegative(s);
  }

  /** `int(str(n)) == n` for every integer. */
  lemma ParseShow(n: int)
    ensures ParseInt(IntToString(n)) == Some(n)
  {
    if n < 0 {
      var m: nat := -n;
      assert IntToString(n) == "-" + NatToDigits(m);
      DigitsOfNat(m);
      ParseNegatedDigits(NatToDigits(m));
    } else {
      var m: nat := n;
      assert IntToString(n) == NatToDigits(m);
      DigitsOfNat(m);
      ParseDigits(NatToDigits(m));
    }
  }

  // ---------------------------------------------------------------------------
  // Whitespace around a literal does not change its value
  // ---------------------------------------------------------------------------

  lemma {:induction false} StripLeftSpaces(ws: string, s: string)
    requires AllSpace(ws)
    ensures StripLeft(ws + s) == StripLeft(s)
    decreases |ws|
  {
    if |ws| > 0 {
      assert (ws + s)[1..] == ws[1..] + s;
      StripLeftSpaces(ws[1..], s);
    } else {
      assert ws + s == s;
    }
  }

  lemma {:induction false} StripRightSpaces(s: string, ws: string)
    requires AllSpace(ws)
    ensures StripRight(s + ws) == StripRight(s)
    decreases |ws|
  {
    if |ws| > 0 {
      assert (s + ws)[..|s + ws| - 1] == s + ws[..|ws| - 1];
      StripRightSpaces(s, ws[..|ws| - 1]);
    } else {
      assert s + ws == s;
    }
  }

  /** Stripping at the left end passes over trailing text that is not all space. */
  lemma {:induction false} StripLeftAppend(s: string, ws: string)
    requires AllSpace(ws)
    ensures StripLeft(s + ws) == if AllSpace(s) then StripLeft(ws) else StripLeft(s) + ws
    decreases |s|
  {
    if |s| == 0 {
      assert s + ws == ws;
    } else {
      assert (s + ws)[0] == s[0];
      assert (s + ws)[1..] == s[1..] + ws;
      StripLeftAppend(s[1..], ws);
      if IsSpace(s[0]) {
        assert AllSpace(s) == AllSpace(s[1..]) by {
          if AllSpace(s[1..]) {
            forall k | 0 <= k < |s| ensures IsSpace(s[k]) {
              if k > 0 { assert s[k] == s[1..][k - 1]; }
            }
          }
        }
      }
    }
  }

  lemma {:induction false} StripLeftAllSpace(s: string)
    requires AllSpace(s)
    ensures StripLeft(s) == ""
    decreases |s|
  {
    if |s| > 0 { StripLeftAllSpace(s[1..]); }
  }

  lemma {:induction false} StripLeftNotAllSpace(s: string)
    requires !AllSpace(s)
    ensures |StripLeft(s)| > 0 && !IsSpace(StripLeft(s)[0])
    decreases |s|
  {
    if IsSpace(s[0]) {
      assert !AllSpace(s[1..]) by {
        var k :| 0 <= k < |s| && !IsSpace(s[k]);
        assert s[1..][k - 1] == s[k];
      }
      StripLeftNotAllSpace(s[1..]);
    }
  }

  /** Stripping at the right end never touches a non-space first character. */
  lemma {:induction false} StripRightKeepsHead(s: string)
    requires |s| > 0 && !IsSpace(s[0])
    ensures |StripRight(s)| > 0 && StripRight(s)[0] == s[0]
    decreases |s|
  {
    if IsSpace(s[|s| - 1]) {
      StripRightKeepsHead(s[..|s| - 1]);
    }
  }

  /** Whitespace on either side of the text is ignored: `int(" 7 ") == int("7")`. */
  lemma StripPadded(ws1: string, s: string, ws2: string)
    requires AllSpace(ws1) && AllSpace(ws2)
    ensures Strip(ws1 + s + ws2) == Strip(s)
  {
    assert ws1 + s + ws2 == ws1 + (s + ws2);
    StripLeftSpaces(ws1, s + ws2);
    StripLeftAppend(s, ws2);
    if AllSpace(s) {
      StripLeftAllSpace(ws2);
      StripLeftAllSpace(s);
    } else {
      StripRightSpaces(StripLeft(s), ws2);
    }
  }

  lemma ParseIntPadded(ws1: string, s: string, ws2: string)
    requires AllSpace(ws1) && AllSpace(ws2)
    ensures ParseInt(ws1 + s + ws2) == ParseInt(s)
  {
    StripPadded(ws1, s, ws2);
  }

  /** `int()` rejects text with nothing but whitespace in it, the empty text included. */
  lemma ParseIntBlank(s: string)
    requires AllSpace(s)
    ensures ParseInt(s) == None
  {
    StripLeftAllSpace(s);
  }

  /** A single decimal digit is accepted with its own value. */
  lemma ParseIntDigit(c: char)
    requires IsDigit(c)
    ensures ParseInt([c]) == Some(DigitValue(c))
  {
    assert StripLeft([c]) == [c];
    assert StripRight([c]) == [c];
    assert Unsigned([c]) == [c];
    assert IsDigitGroup([c]);
    assert [c][..0] == [];
    assert DigitsValue([c]) == 10 * DigitsValue([]) + DigitValue(c);
  }

  /** Literals Python's `int()` accepts, with their values. */
  lemma ParseIntAccepts()
    ensures ParseInt("1") == Some(1)
  {
    ParseIntDigit('1');
    assert "1" == ['1'];
  }

  lemma ParseIntAcceptsPadded()
    ensures ParseInt(" 2 ") == Some(2)
  {
    ParseIntDigit('2');
    ParseIntPadded(" ", "2", " ");
    assert " 2 " == " " + "2" + " ";
    assert "2" == ['2'];
  }

  lemma ParseIntAcceptsNegative()
    ensures ParseInt("-3") == Some(-3)
  {
    assert Strip("-3") == "-3";
    assert Unsigned("-3") == "3";
    assert "3"[..0] == [];
  }

  lemma ParseIntAcceptsZeros()
    ensures ParseInt("+007") == Some(7)
  {
    assert Strip("+007") == "+007";
    assert Unsigned("+007") == "007";
    assert "007"[..2] == "00";
    assert "00"[..1] == "0";
    assert DigitsValue("007") == 7;
  }

  lemma ParseIntAcceptsUnderscore()
    ensures ParseInt("1_000") == Some(1000)
  {
    assert Strip("1_000") == "1_000";
    assert "1_000"[..4] == "1_00";
    assert "1_00"[..3] == "1_0";
    assert "1_0"[..2] == "1_";
    assert "1_"[..1] == "1";
    assert DigitsValue("1_") == 1;
    assert DigitsValue("1_0") == 10;
    assert DigitsValue("1_00") == 100;
    assert DigitsValue("1_000") == 1000;
  }

  /** Texts on which Python's `int()` raises ValueError. */
  lemma ParseIntRejects()
    ensures ParseInt("") == None
  {
    ParseIntBlank("");
  }

  lemma ParseIntRejectsLetter()
    ensures ParseInt("x") == None
  {
    assert Strip("x") == "x";
  }

  lemma ParseIntRejectsPoint()
    ensures ParseInt("1.5") == None
  {
    assert Strip("1.5") == "1.5";
    assert !IsDigit("1.5"[1]);
  }

  lemma ParseIntRejectsLeadingUnderscore()
    ensures ParseInt("_1") == None
  {
    assert Strip("_1") == "_1";
  }

  lemma ParseIntRejectsInnerSpace()
    ensures ParseInt("- 1") == None
  {
    assert Strip("- 1") == "- 1";
    assert Unsigned("- 1") == " 1";
  }

  lemma ParseIntRejectsDoubleUnderscore()
    ensures ParseInt("1__0") == None
  {
    assert Strip("1__0") == "1__0";
    assert !("1__0"[1] == '_' && IsDigit("1__0"[2]));
  }
}
