/**
 * The functional-group form field: the text `SMILES:index, SMILES:index, ...`
 * that the list comprehension at molgen_gui.py line 54 turns into an ordered
 * list of `(fragment, index)` pairs.
 */
module GroupField {
  import opened Wrappers
  import opened PyText

  /** One requested edit: attach the fragment SMILES at atom `index`. */
  datatype FunctionalGroup = FunctionalGroup(fragment: string, index: int)

  /** `int()` raised ValueError on this index text; nothing was produced. */
  datatype FieldError = InvalidIndex(literal: string)

  /** The text between a token's first colon and its second colon (or its end). */
  function IndexText(tok: string): string
    requires ':' in tok
  {
    Before(After(tok, ':'), ':')
  }

  /** `(fg.split(':')[0], int(fg.split(':')[1]))` for one token kept by the filter. */
  function ParseToken(tok: string): Result<FunctionalGroup, FieldError>
    requires ':' in tok
  {
    var pieces := Split(tok, ':');
    match ParseInt(pieces[1])
    case None => Failure(InvalidIndex(pieces[1]))
    case Some(n) => Success(FunctionalGroup(pieces[0], n))
  }

  /**
   * The comprehension `[... for fg in tokens if ':' in fg]`, evaluated from
   * left to right: tokens without a colon are skipped, and the first `int()`
   * that raises ends the whole evaluation.
   */
  function ParseTokens(tokens: seq<string>): Result<seq<FunctionalGroup>, FieldError>
  {
    if tokens == [] then Success([])
    else if ':' !in tokens[0] then ParseTokens(tokens[1..])
    else
      match ParseToken(tokens[0])
      case Failure(e) => Failure(e)
      case Success(g) =>
        match ParseTokens(tokens[1..])
        case Failure(e) => Failure(e)
        case Success(gs) => Success([g] + gs)
  }

  /** The parse of the whole field: split on commas, then the comprehension. */
  function ParseFunctionalGroups(text: string): Result<seq<FunctionalGroup>, FieldError>
  {
    ParseTokens(Split(text, ','))
  }

  /** The tokens the comprehension keeps: those containing a colon, in input order. */
  function Kept(tokens: seq<string>): seq<string>
  {
    if tokens == [] then []
    else if ':' in tokens[0] then [tokens[0]] + Kept(tokens[1..])
    else Kept(tokens[1..])
  }

  // ---------------------------------------------------------------------------
  // The filter
  // ---------------------------------------------------------------------------

  /** Filtering distributes over concatenation, so it keeps the input order. */
  lemma {:induction false} KeptAppend(a: seq<string>, b: seq<string>)
    ensures Kept(a + b) == Kept(a) + Kept(b)
  {
    if a == [] {
      assert a + b == b;
    } else {
      assert (a + b)[0] == a[0];
      assert (a + b)[1..] == a[1..] + b;
      KeptAppend(a[1..], b);
    }
  }

  /** Exactly the tokens with a colon are kept, and never more tokens than there are. */
  lemma {:induction false} KeptMembers(tokens: seq<string>)
    ensures |Kept(tokens)| <= |tokens|
    ensures forall t :: t in Kept(tokens) ==> t in tokens && ':' in t
    ensures forall i :: 0 <= i < |tokens| && ':' in tokens[i] ==> tokens[i] in Kept(tokens)
  {
    if tokens != [] {
      KeptMembers(tokens[1..]);
      forall i | 0 <= i < |tokens| && ':' in tokens[i]
        ensures tokens[i] in Kept(tokens)
      {
        if i > 0 { assert tokens[i] == tokens[1..][i - 1]; }
      }
    }
  }

  // ---------------------------------------------------------------------------
  // One token
  // ---------------------------------------------------------------------------

  /**
   * A kept token's fragment is its text before the first colon, unstripped;
   * its index is `int()` of the text between the first and second colon, and
   * anything after a second colon is ignored.
   */
  lemma ParseTokenMeaning(tok: string)
    requires ':' in tok
    ensures match ParseToken(tok)
      case Success(g) =>
        g.fragment == Before(tok, ':') && ParseInt(IndexText(tok)) == Some(g.index)
      case Failure(e) =>
        e == InvalidIndex(IndexText(tok)) && ParseInt(IndexText(tok)) == None
  {
    SplitFirst(tok, ':');
    SplitRest(tok, ':');
    SplitFirst(After(tok, ':'), ':');
  }

  /**
   * The same for a token written as `fragment:index` followed by nothing or
   * by a further colon and any text: that tail never matters.
   */
  lemma ParseTokenOf(fragment: string, index: string, tail: string)
    requires ':' !in fragment && ':' !in index
    requires tail == [] || tail[0] == ':'
    ensures ':' in fragment + [':'] + index + tail
    ensures ParseToken(fragment + [':'] + index + tail) ==
      match ParseInt(index)
      case None => Failure(InvalidIndex(index))
      case Some(n) => Success(FunctionalGroup(fragment, n))
  {
    var tok := fragment + [':'] + (index + tail);
    assert fragment + [':'] + index + tail == tok;
    FirstIndexAfterFree(fragment, ':', index + tail);
    assert tok[..|fragment|] == fragment;
    assert After(tok, ':') == index + tail;
    if tail == [] {
      assert index + tail == index;
    } else {
      assert index + tail == index + [':'] + tail[1..];
      FirstIndexAfterFree(index, ':', tail[1..]);
      assert (index + tail)[..|index|] == index;
    }
    ParseTokenMeaning(tok);
  }

  // ---------------------------------------------------------------------------
  // The comprehension
  // ---------------------------------------------------------------------------

  /**
   * Parsing a concatenation of token lists parses the left part first: its
   * failure is the whole result, otherwise the pairs of both parts follow
   * each other in order.
   */
  lemma {:induction false} ParseTokensAppend(a: seq<string>, b: seq<string>)
    ensures ParseTokens(a + b) ==
      match ParseTokens(a)
      case Failure(e) => Failure(e)
      case Success(x) =>
        match ParseTokens(b)
        case Failure(e) => Failure(e)
        case Success(y) => Success(x + y)
  {
    if a == [] {
      assert a + b == b;
      if ParseTokens(b).Success? {
        assert [] + ParseTokens(b).value == ParseTokens(b).value;
      }
    } else {
      assert (a + b)[0] == a[0];
      assert (a + b)[1..] == a[1..] + b;
      ParseTokensAppend(a[1..], b);
      if ':' in a[0] && ParseToken(a[0]).Success? {
        match ParseTokens(a[1..])
        case Failure(_) =>
        case Success(x) =>
          match ParseTokens(b)
          case Failure(_) =>
          case Success(y) =>
            assert [ParseToken(a[0]).value] + (x + y) == ([ParseToken(a[0]).value] + x) + y;
      }
    }
  }

  /** One pair per kept token, in order, each built from that token. */
  lemma {:induction false} ParseTokensPairs(tokens: seq<string>)
    requires ParseTokens(tokens).Success?
    ensures var gs := ParseTokens(tokens).value;
      |gs| == |Kept(tokens)| &&
      forall k :: 0 <= k < |gs| ==>
        ':' in Kept(tokens)[k] &&
        gs[k].fragment == Before(Kept(tokens)[k], ':') &&
        ParseInt(IndexText(Kept(tokens)[k])) == Some(gs[k].index)
  {
    if tokens != [] {
      ParseTokensPairs(tokens[1..]);
      if ':' in tokens[0] {
        ParseTokenMeaning(tokens[0]);
        var gs := ParseTokens(tokens).value;
        var rest := ParseTokens(tokens[1..]).value;
        assert gs == [ParseToken(tokens[0]).value] + rest;
        forall k | 0 <= k < |gs|
          ensures ':' in Kept(tokens)[k]
          ensures gs[k].fragment == Before(Kept(tokens)[k], ':')
          ensures ParseInt(IndexText(Kept(tokens)[k])) == Some(gs[k].index)
        {
          if k > 0 {
            assert gs[k] == rest[k - 1];
            assert Kept(tokens)[k] == Kept(tokens[1..])[k - 1];
          }
        }
      }
    }
  }

  /** The parse succeeds exactly when every kept token's index text is an integer literal. */
  lemma {:induction false} ParseTokensSucceeds(tokens: seq<string>)
    ensures ParseTokens(tokens).Success? <==>
      forall i :: 0 <= i < |tokens| && ':' in tokens[i] ==> ParseInt(IndexText(tokens[i])).Some?
  {
    if tokens != [] {
      ParseTokensSucceeds(tokens[1..]);
      if ':' in tokens[0] { ParseTokenMeaning(tokens[0]); }
      forall i | 0 < i < |tokens| ensures tokens[i] == tokens[1..][i - 1] { }
    }
  }

  /**
   * Token `i` is the first kept token whose index text `int()` rejects: it
   * has a colon, its index text is not an integer literal, and every kept
   * token before it has one that is.
   */
  predicate FirstInvalidAt(tokens: seq<string>, i: int)
  {
    0 <= i < |tokens| && ':' in tokens[i] && ParseInt(IndexText(tokens[i])) == None &&
    forall j :: 0 <= j < i && ':' in tokens[j] ==> ParseInt(IndexText(tokens[j])).Some?
  }

  /** Being the first invalid token carries over to a list with one more token in front. */
  lemma FirstInvalidShift(tokens: seq<string>, i: int)
    requires |tokens| > 0 && FirstInvalidAt(tokens[1..], i)
    requires ':' in tokens[0] ==> ParseInt(IndexText(tokens[0])).Some?
    ensures FirstInvalidAt(tokens, i + 1)
  {
    assert tokens[i + 1] == tokens[1..][i];
    forall j | 0 < j < i + 1 ensures tokens[j] == tokens[1..][j - 1] { }
  }

  /**
   * A failed parse names the index text of the FIRST kept token that is not
   * an integer literal; every kept token before it was a valid literal.
   */
  lemma {:induction false} ParseTokensFirstFailure(tokens: seq<string>)
    requires ParseTokens(tokens).Failure?
    ensures exists i :: (FirstInvalidAt(tokens, i) &&
      ParseTokens(tokens).error == InvalidIndex(IndexText(tokens[i])))
  {
    if ':' in tokens[0] {
      ParseTokenMeaning(tokens[0]);
    }
    if ':' in tokens[0] && ParseToken(tokens[0]).Failure? {
      assert FirstInvalidAt(tokens, 0);
    } else {
      var rest := tokens[1..];
      assert ParseTokens(tokens).error == ParseTokens(rest).error;
      ParseTokensFirstFailure(rest);
      var i :| FirstInvalidAt(rest, i) && ParseTokens(rest).error == InvalidIndex(IndexText(rest[i]));
      FirstInvalidShift(tokens, i);
      assert tokens[i + 1] == rest[i];
    }
  }

  // ---------------------------------------------------------------------------
  // The whole field
  // ---------------------------------------------------------------------------

  /** The parse never yields more pairs than the field has comma-separated tokens. */
  lemma ParseFunctionalGroupsLength(text: string)
    requires ParseFunctionalGroups(text).Success?
    ensures |ParseFunctionalGroups(text).value| <= |Split(text, ',')|
  {
    ParseTokensPairs(Split(text, ','));
    KeptMembers(Split(text, ','));
  }

  /** An empty field splits to `[""]`, which has no colon, so it yields no pairs. */
  lemma ParseEmptyField()
    ensures ParseFunctionalGroups("") == Success([])
  {
  }

  /** Splitting a literal that is the join of separator-free pieces. */
  lemma SplitLiteral(s: string, sep: char, pieces: seq<string>)
    requires |pieces| >= 1
    requires forall k :: 0 <= k < |pieces| ==> sep !in pieces[k]
    requires Join(pieces, sep) == s
    ensures Split(s, sep) == pieces
  {
    JoinSplit(pieces, sep);
  }

  /** A list of one token gives that token's pair, or nothing when it has no colon. */
  lemma ParseSingleToken(tok: string)
    ensures ParseTokens([tok]) ==
      if ':' !in tok then Success([])
      else match ParseToken(tok)
        case Failure(e) => Failure(e)
        case Success(g) => Success([g])
  {
    assert [tok][1..] == [];
    if ':' in tok && ParseToken(tok).Success? {
      assert [ParseToken(tok).value] + [] == [ParseToken(tok).value];
    }
  }

  /** A token whose index text is one digit yields that digit's value. */
  lemma ParseDigitToken(fragment: string, d: char)
    requires ':' !in fragment && IsDigit(d)
    ensures ':' in fragment + [':'] + [d]
    ensures ParseTokens([fragment + [':'] + [d]]) == Success([FunctionalGroup(fragment, DigitValue(d))])
  {
    ParseIntDigit(d);
    ParsePairToken(fragment, [d], DigitValue(d));
  }

  lemma ParseTokenO1()
    ensures ParseTokens(["O:1"]) == Success([FunctionalGroup("O", 1)])
  {
    ParseDigitToken("O", '1');
    assert "O" + [':'] + ['1'] == "O:1";
  }

  lemma ParseTokenN3()
    ensures ParseTokens(["N:3"]) == Success([FunctionalGroup("N", 3)])
  {
    ParseDigitToken("N", '3');
    assert "N" + [':'] + ['3'] == "N:3";
  }

  /** Three tokens that each parse give their pairs one after the other. */
  lemma ParseThreeTokens(a: string, b: string, c: string, x: seq<FunctionalGroup>, y: seq<FunctionalGroup>, z: seq<FunctionalGroup>)
    requires ParseTokens([a]) == Success(x) && ParseTokens([b]) == Success(y) && ParseTokens([c]) == Success(z)
    ensures ParseTokens([a, b, c]) == Success(x + y + z)
  {
    ParseTokensAppend([a], [b]);
    ParseTokensAppend([a] + [b], [c]);
    assert [a, b, c] == [a] + [b] + [c];
  }

  /** A token that fails after one that parses fails the pair of them. */
  lemma ParseTwoTokensFail(a: string, b: string, x: seq<FunctionalGroup>, e: FieldError)
    requires ParseTokens([a]) == Success(x) && ParseTokens([b]) == Failure(e)
    ensures ParseTokens([a, b]) == Failure(e)
  {
    ParseTokensAppend([a], [b]);
    assert [a, b] == [a] + [b];
  }

  lemma ParseTokenBad()
    ensures ParseTokens(["bad"]) == Success([])
  {
    assert ':' !in "bad";
    ParseSingleToken("bad");
  }

  lemma ParseMixedTokens()
    ensures ParseTokens(["O:1", "bad", "N:3"]) ==
      Success([FunctionalGroup("O", 1), FunctionalGroup("N", 3)])
  {
    var o, n := FunctionalGroup("O", 1), FunctionalGroup("N", 3);
    ParseTokenO1();
    ParseTokenBad();
    ParseTokenN3();
    ParseThreeTokens("O:1", "bad", "N:3", [o], [], [n]);
    assert [o] + [] + [n] == [o, n];
  }

  /** The token without a colon is dropped and the others keep their order. */
  lemma ParseMixedField()
    ensures ParseFunctionalGroups("O:1,bad,N:3") ==
      Success([FunctionalGroup("O", 1), FunctionalGroup("N", 3)])
  {
    SplitLiteral("O:1,bad,N:3", ',', ["O:1", "bad", "N:3"]);
    ParseMixedTokens();
  }

  /** Text after a second colon is ignored. */
  lemma ParseSecondColon()
    ensures ParseFunctionalGroups("O:1:9") == Success([FunctionalGroup("O", 1)])
  {
    SplitLiteral("O:1:9", ',', ["O:1:9"]);
    assert ParseToken("O:1:9") == Success(FunctionalGroup("O", 1)) by {
      assert ParseInt("1") == Some(1) by { assert Strip("1") == "1"; }
      ParseTokenOf("O", "1", ":9");
      assert "O" + [':'] + "1" + ":9" == "O:1:9";
    }
    ParseSingleToken("O:1:9");
  }

  /** A token `fragment:index` with an integer index yields its one pair. */
  lemma ParsePairToken(fragment: string, index: string, n: int)
    requires ':' !in fragment && ':' !in index && ParseInt(index) == Some(n)
    ensures ParseTokens([fragment + [':'] + index]) == Success([FunctionalGroup(fragment, n)])
  {
    ParseTokenOf(fragment, index, "");
    assert fragment + [':'] + index + "" == fragment + [':'] + index;
    ParseSingleToken(fragment + [':'] + index);
  }

  lemma ParseTokenSpaces()
    ensures ParseTokens([" O : 2 "]) == Success([FunctionalGroup(" O ", 2)])
  {
    ParseIntAcceptsPadded();
    assert ':' !in " O " && ':' !in " 2 ";
    ParsePairToken(" O ", " 2 ", 2);
    assert " O " + [':'] + " 2 " == " O : 2 ";
  }

  /** Spaces stay in the fragment; around the index `int()` ignores them. */
  lemma ParseSpaces()
    ensures ParseFunctionalGroups(" O : 2 ") == Success([FunctionalGroup(" O ", 2)])
  {
    SplitLiteral(" O : 2 ", ',', [" O : 2 "]);
    ParseTokenSpaces();
  }

  lemma ParseTokenNx()
    ensures ParseTokens(["N:x"]) == Failure(InvalidIndex("x"))
  {
    ParseIntRejectsLetter();
    ParseTokenOf("N", "x", "");
    assert "N" + [':'] + "x" + "" == "N:x";
    ParseSingleToken("N:x");
  }

  /** A non-integer index fails the whole parse, even after a valid pair. */
  lemma ParseBadIndex()
    ensures ParseFunctionalGroups("O:1,N:x") == Failure(InvalidIndex("x"))
  {
    SplitLiteral("O:1,N:x", ',', ["O:1", "N:x"]);
    ParseTokenO1();
    ParseTokenNx();
    ParseTwoTokensFail("O:1", "N:x", [FunctionalGroup("O", 1)], InvalidIndex("x"));
  }

  /** An empty index is not an integer literal either. */
  lemma ParseEmptyIndex()
    ensures ParseFunctionalGroups("O:") == Failure(InvalidIndex(""))
  {
    SplitLiteral("O:", ',', ["O:"]);
    ParseIntRejects();
    ParseTokenOf("O", "", "");
    assert "O" + [':'] + "" + "" == "O:";
    ParseSingleToken("O:");
  }
}
