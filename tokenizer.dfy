/** `ParseForTokens` of mvImporter.cpp: one pass over a NUL-terminated,
    whitespace-stripped JSON text that splits it into punctuation, string,
    member-name and primitive tokens. */
module Tokenizer {
  import opened Common
  import Whitespace

  /** `mvTokenType`. */
  datatype TokenType =
    | NoToken | LeftBrace | RightBrace | LeftBracket | RightBracket
    | Comma | Colon | String | Primitive | Member

  /** `mvToken`: the type and the text. Punctuation carries its character;
      every other token carries its characters followed by a NUL. */
  datatype Token = Token(typ: TokenType, value: string)

  /** `basicTokens`, in the order the tokenizer tries them. */
  const BasicTokens: seq<char> := ['{', '}', '[', ']', ':', ',']

  predicate IsPunctuation(t: TokenType) {
    t == LeftBrace || t == RightBrace || t == LeftBracket || t == RightBracket
    || t == Comma || t == Colon
  }

  /** The token type of a punctuation character. */
  function PunctuationType(c: char): (t: TokenType)
    requires c in BasicTokens
    ensures IsPunctuation(t)
  {
    if c == '{' then LeftBrace
    else if c == '}' then RightBrace
    else if c == '[' then LeftBracket
    else if c == ']' then RightBracket
    else if c == ',' then Comma
    else Colon
  }

  /** The tokenizer's state between characters: the tokens so far, whether
      a string is open, and the pending characters. */
  datatype ScanState = ScanState(tokens: seq<Token>, inString: bool, buffer: seq<char>)

  const Start := ScanState([], false, [])

  /** The tokens with the pending characters, if any, flushed as one
      primitive. */
  function Flushed(st: ScanState): seq<Token> {
    if st.buffer != [] then st.tokens + [Token(Primitive, st.buffer + [NUL])] else st.tokens
  }

  /** One character `c`, with `next` the raw character after it. */
  function ScanChar(st: ScanState, c: char, next: char): (r: ScanState)
    ensures r.inString == (if c == '"' then !st.inString else st.inString)
    ensures st.tokens <= r.tokens && |r.tokens| <= |st.tokens| + 2
  {
    if !st.inString && c in BasicTokens then
      ScanState(Flushed(st) + [Token(PunctuationType(c), [c])], false, [])
    else if c == '"' then
      if st.inString then
        ScanState(st.tokens + [Token(if next == ':' then Member else String, st.buffer + [NUL])], false, [])
      else
        ScanState(st.tokens, true, [])
    else
      ScanState(st.tokens, st.inString, st.buffer + [c])
  }

  /** The character at `k`, or the terminating NUL past the end. */
  function At(s: seq<char>, k: nat): char {
    if k < |s| then s[k] else NUL
  }

  /** The state after the first `n` characters of `s`. */
  function ScanPrefix(s: seq<char>, n: nat): ScanState
    requires n <= |s|
    decreases n
  {
    if n == 0 then Start else ScanChar(ScanPrefix(s, n - 1), s[n - 1], At(s, n))
  }

  /** The tokenizer's string flag is the stripper's: both toggle on every
      quote and on nothing else. */
  lemma {:induction false} ScanPrefixInside(s: seq<char>, n: nat)
    requires n <= |s|
    ensures ScanPrefix(s, n).inString == Whitespace.Inside(s[..n])
  {
    if n > 0 {
      ScanPrefixInside(s, n - 1);
      assert s[..n][..n - 1] == s[..n - 1];
    }
  }

  /** The tokens of the text `s` (the characters before the NUL). A pending
      primitive at the end is dropped. */
  function Tokenize(s: seq<char>): seq<Token> {
    ScanPrefix(s, |s|).tokens
  }

  // ---------------------------------------------------------------------
  // The loop
  // ---------------------------------------------------------------------

  /** `ParseForTokens(rawData, tokens)`: scans up to the first NUL. */
  method ParseForTokens(rawData: array<char>) returns (tokens: seq<Token>)
    requires NUL in rawData[..]
    ensures tokens == Tokenize(CStr(rawData[..]))
  {
    ghost var s := CStr(rawData[..]);
    var currentPos := 0;
    var currentChar := rawData[currentPos];
    var inString := false;
    var buffer: seq<char> := [];
    tokens := [];

    while currentChar != NUL
      invariant 0 <= currentPos <= |s| < rawData.Length
      invariant currentChar == rawData[currentPos]
      invariant currentChar == NUL <==> currentPos == |s|
      invariant ScanState(tokens, inString, buffer) == ScanPrefix(s, currentPos)
      decreases |s| - currentPos
    {
      assert rawData[currentPos] == s[currentPos];
      assert At(s, currentPos + 1) == rawData[currentPos + 1];
      tokens, inString, buffer := ScanOne(rawData, currentPos, tokens, inString, buffer);
      currentPos := currentPos + 1;
      currentChar := rawData[currentPos];
    }
  }

  /** The body of the loop for the character at `currentPos`. */
  method ScanOne(rawData: array<char>, currentPos: nat, tokens: seq<Token>, inString: bool, buffer: seq<char>)
    returns (tokens': seq<Token>, inString': bool, buffer': seq<char>)
    requires currentPos + 1 < rawData.Length
    ensures ScanState(tokens', inString', buffer') ==
      ScanChar(ScanState(tokens, inString, buffer), rawData[currentPos], rawData[currentPos + 1])
  {
    var currentChar := rawData[currentPos];
    var basicTokens := BasicTokens;
    tokens', inString', buffer' := tokens, inString, buffer;
    var tokenFound := false;
    if !inString' {
      var i := 0;
      while i < 6
        invariant 0 <= i <= 6
        invariant !tokenFound ==> currentChar !in basicTokens[..i]
        invariant !tokenFound ==> tokens' == tokens && buffer' == buffer && !inString'
        invariant tokenFound ==>
          (currentChar in BasicTokens &&
           ScanState(tokens', inString', buffer') ==
             ScanChar(ScanState(tokens, inString, buffer), currentChar, rawData[currentPos + 1]))
        decreases 6 - i
      {
        if currentChar == basicTokens[i] {
          if buffer' != [] {
            var value := buffer' + [NUL];
            tokens' := tokens' + [Token(Primitive, value)];
            buffer' := [];
          }
          tokens' := tokens' + [Token(PunctuationType(currentChar), [currentChar])];
          tokenFound := true;
          break;
        }
        i := i + 1;
      }
      assert basicTokens[..6] == BasicTokens;
    }

    if !tokenFound {
      if currentChar == '"' {
        if inString' {
          var value := buffer' + [NUL];
          var typ := if rawData[currentPos + 1] == ':' then Member else String;
          tokens' := tokens' + [Token(typ, value)];
          tokenFound := true;
          inString' := false;
          buffer' := [];
        } else {
          inString' := true;
          buffer' := [];
          tokenFound := true;
        }
      } else if inString' {
        tokenFound := true;
        buffer' := buffer' + [currentChar];
      }
    }

    if !tokenFound {
      buffer' := buffer' + [currentChar];
    }
  }

  // ---------------------------------------------------------------------
  // Properties
  // ---------------------------------------------------------------------

  /** The shape of a token's text: a punctuation token holds its one
      character; any other token holds NUL-free text followed by one NUL,
      so that `strcmp` and `atoi` see exactly the collected characters. */
  predicate WellFormedText(t: Token) {
    if IsPunctuation(t.typ) then
      |t.value| == 1 && t.value[0] in BasicTokens && PunctuationType(t.value[0]) == t.typ
    else
      (t.typ == String || t.typ == Member || t.typ == Primitive)
      && |t.value| > 0 && t.value[|t.value| - 1] == NUL && NUL !in t.value[..|t.value| - 1]
  }

  lemma {:induction false} ScanPrefixTexts(s: seq<char>, n: nat)
    requires n <= |s| && NUL !in s
    ensures NUL !in ScanPrefix(s, n).buffer
    ensures forall k :: 0 <= k < |ScanPrefix(s, n).tokens| ==> WellFormedText(ScanPrefix(s, n).tokens[k])
    decreases n
  {
    if n > 0 {
      ScanPrefixTexts(s, n - 1);
      var st := ScanPrefix(s, n - 1);
      var c := s[n - 1];
      assert c != NUL by { assert c in s; }
      var b := st.buffer + [NUL];
      assert b[..|b| - 1] == st.buffer;
      var st' := ScanPrefix(s, n);
      forall k | 0 <= k < |st'.tokens|
        ensures WellFormedText(st'.tokens[k])
      {
        if k >= |st.tokens| {
          if k == |st.tokens| && !st.inString && c in BasicTokens && st.buffer != [] {
            assert st'.tokens[k] == Token(Primitive, b);
          }
        } else {
          assert st'.tokens[k] == st.tokens[k];
        }
      }
    }
  }

  /** Every token of a NUL-free text has the text shape above. */
  lemma TokenTexts(s: seq<char>)
    requires NUL !in s
    ensures forall k :: 0 <= k < |Tokenize(s)| ==> WellFormedText(Tokenize(s)[k])
  {
    ScanPrefixTexts(s, |s|);
  }

  /** Every member-name token before the last is followed by a colon. */
  predicate ColonsFollow(tokens: seq<Token>) {
    forall k :: 0 <= k < |tokens| - 1 && tokens[k].typ == Member ==> tokens[k + 1].typ == Colon
  }

  predicate EndsInMember(tokens: seq<Token>) {
    tokens != [] && tokens[|tokens| - 1].typ == Member
  }

  /** A string token is a member name exactly when a `:` follows its
      closing quote; one step keeps every member name followed by a colon,
      and a member name at the end is waiting for the `:` that is `next`. */
  lemma ColonStep(st: ScanState, c: char, next: char)
    requires ColonsFollow(st.tokens)
    requires EndsInMember(st.tokens) ==> !st.inString && st.buffer == [] && c == ':'
    ensures ColonsFollow(ScanChar(st, c, next).tokens)
    ensures EndsInMember(ScanChar(st, c, next).tokens) ==>
      !ScanChar(st, c, next).inString && ScanChar(st, c, next).buffer == [] && next == ':'
  {
    var st' := ScanChar(st, c, next);
    if EndsInMember(st.tokens) {
      assert st'.tokens == st.tokens + [Token(Colon, [c])];
    } else if !st.inString && c in BasicTokens {
      assert st'.tokens[..|st'.tokens| - 1] == Flushed(st);
    }
  }

  lemma {:induction false} ScanPrefixMembers(s: seq<char>, n: nat)
    requires n <= |s|
    ensures ColonsFollow(ScanPrefix(s, n).tokens)
    ensures EndsInMember(ScanPrefix(s, n).tokens) ==>
      !ScanPrefix(s, n).inString && ScanPrefix(s, n).buffer == [] && n < |s| && s[n] == ':'
    decreases n
  {
    if n > 0 {
      ScanPrefixMembers(s, n - 1);
      ColonStep(ScanPrefix(s, n - 1), s[n - 1], At(s, n));
    }
  }

  /** Every member-name token is immediately followed by a colon token. */
  lemma MemberThenColon(s: seq<char>)
    ensures forall k :: 0 <= k < |Tokenize(s)| && Tokenize(s)[k].typ == Member ==>
      k + 1 < |Tokenize(s)| && Tokenize(s)[k + 1].typ == Colon
  {
    ScanPrefixMembers(s, |s|);
  }

  /** No string token before the last is followed by a colon. */
  predicate NoColonAfterString(tokens: seq<Token>) {
    forall k :: 0 <= k < |tokens| - 1 && tokens[k].typ == String ==> tokens[k + 1].typ != Colon
  }

  predicate EndsInString(tokens: seq<Token>) {
    tokens != [] && tokens[|tokens| - 1].typ == String
  }

  /** A closing quote emits a string token only when no `:` comes next; a
      string token at the end is then followed by the next string's
      token, by the flushed pending characters, or by a character that is
      not `:`. */
  lemma StringStep(st: ScanState, c: char, next: char)
    requires NoColonAfterString(st.tokens)
    requires EndsInString(st.tokens) ==> st.inString || st.buffer != [] || c != ':'
    ensures NoColonAfterString(ScanChar(st, c, next).tokens)
    ensures EndsInString(ScanChar(st, c, next).tokens) ==>
      ScanChar(st, c, next).inString || ScanChar(st, c, next).buffer != [] || next != ':'
  {
    var st' := ScanChar(st, c, next);
    if !st.inString && c in BasicTokens {
      assert st'.tokens[..|st'.tokens| - 1] == Flushed(st);
      if st.buffer != [] {
        assert st'.tokens[|st.tokens|].typ == Primitive;
      }
    }
  }

  lemma {:induction false} ScanPrefixStrings(s: seq<char>, n: nat)
    requires n <= |s|
    ensures NoColonAfterString(ScanPrefix(s, n).tokens)
    ensures EndsInString(ScanPrefix(s, n).tokens) ==>
      ScanPrefix(s, n).inString || ScanPrefix(s, n).buffer != [] || At(s, n) != ':'
    decreases n
  {
    if n > 0 {
      ScanPrefixStrings(s, n - 1);
      StringStep(ScanPrefix(s, n - 1), s[n - 1], At(s, n));
    }
  }

  /** No string token is immediately followed by a colon token. */
  lemma StringNotBeforeColon(s: seq<char>)
    ensures forall k :: 0 <= k && k + 1 < |Tokenize(s)| && Tokenize(s)[k].typ == String ==>
      Tokenize(s)[k + 1].typ != Colon
  {
    ScanPrefixStrings(s, |s|);
  }

  /** A quoted token is followed by a colon token exactly when it is a
      member name. */
  lemma ColonIffMember(s: seq<char>)
    ensures forall k :: 0 <= k && k + 1 < |Tokenize(s)| && Tokenize(s)[k].typ in {String, Member} ==>
      (Tokenize(s)[k + 1].typ == Colon <==> Tokenize(s)[k].typ == Member)
  {
    MemberThenColon(s);
    StringNotBeforeColon(s);
  }

  /** Characters that are neither a quote nor punctuation open no token. */
  predicate Plain(p: seq<char>) {
    forall k :: 0 <= k < |p| ==> p[k] != '"' && p[k] !in BasicTokens
  }

  /** Extending the text by characters after the first `n` does not change
      the first `n` steps, unless the extension starts with a colon (which
      the lookahead after a closing quote reads). */
  lemma {:induction false} ScanPrefixExtended(s: seq<char>, p: seq<char>, n: nat)
    requires n <= |s|
    requires p == [] || p[0] != ':'
    ensures ScanPrefix(s + p, n) == ScanPrefix(s, n)
  {
    if n > 0 {
      ScanPrefixExtended(s, p, n - 1);
      assert (s + p)[n - 1] == s[n - 1];
      if n == |s| {
        assert At(s, n) == NUL;
        assert At(s + p, n) != ':';
      } else {
        assert At(s + p, n) == s[n];
      }
    }
  }

  /** Over plain characters the tokens and the string flag stay put and
      only the pending characters grow. */
  lemma {:induction false} ScanPlain(s: seq<char>, p: seq<char>, m: nat)
    requires m <= |p| && Plain(p)
    ensures ScanPrefix(s + p, |s| + m) ==
      ScanState(ScanPrefix(s + p, |s|).tokens, ScanPrefix(s + p, |s|).inString,
                ScanPrefix(s + p, |s|).buffer + p[..m])
  {
    if m == 0 {
      assert p[..0] == [];
      assert ScanPrefix(s + p, |s|).buffer + [] == ScanPrefix(s + p, |s|).buffer;
    } else {
      ScanPlain(s, p, m - 1);
      assert (s + p)[|s| + m - 1] == p[m - 1];
      assert p[..m] == p[..m - 1] + [p[m - 1]];
    }
  }

  /** Whatever is still pending at the end of the text is never emitted:
      plain characters after any text `s` add no token, and end up only
      in the pending buffer, which the loop never flushes. */
  lemma {:induction false} TrailingPrimitiveDropped(s: seq<char>, p: seq<char>)
    requires Plain(p)
    ensures Tokenize(s + p) == Tokenize(s)
    ensures ScanPrefix(s + p, |s| + |p|).buffer == ScanPrefix(s, |s|).buffer + p
  {
    var st := ScanPrefix(s, |s|);
    NoLeadingColon(p);
    ScanPrefixExtended(s, p, |s|);
    ScanAllPlain(s, p);
    assert ScanPrefix(s + p, |s| + |p|) == ScanState(st.tokens, st.inString, st.buffer + p);
    assert |s + p| == |s| + |p|;
  }

  /** `ScanPlain` over the whole of `p`. */
  lemma {:induction false} ScanAllPlain(s: seq<char>, p: seq<char>)
    requires Plain(p)
    ensures ScanPrefix(s + p, |s| + |p|) ==
      ScanState(ScanPrefix(s + p, |s|).tokens, ScanPrefix(s + p, |s|).inString,
                ScanPrefix(s + p, |s|).buffer + p)
  {
    assert p[..|p|] == p;
    ScanPlain(s, p, |p|);
  }

  lemma {:induction false} NoLeadingColon(p: seq<char>)
    requires Plain(p)
    ensures p == [] || p[0] != ':'
  {
    if p != [] {
      assert p[0] !in BasicTokens;
    }
  }

  /** Once the stripper's NUL has replaced the closing `}` of `{"a":1}`,
      the value `1` is lost. */
  lemma TrailingPrimitiveExample()
    ensures Tokenize("{\"a\":1") ==
      [Token(LeftBrace, "{"), Token(Member, "a" + [NUL]), Token(Colon, ":")]
  {
    var s := "{\"a\":";
    assert ScanPrefix(s, 1) == ScanState([Token(LeftBrace, "{")], false, []);
    assert ScanPrefix(s, 2) == ScanState([Token(LeftBrace, "{")], true, []);
    assert ScanPrefix(s, 3) == ScanState([Token(LeftBrace, "{")], true, "a");
    assert ScanPrefix(s, 4) == ScanState([Token(LeftBrace, "{"), Token(Member, "a" + [NUL])], false, []);
    assert Tokenize(s) == [Token(LeftBrace, "{"), Token(Member, "a" + [NUL]), Token(Colon, ":")];
    TrailingPrimitiveDropped(s, "1");
    assert s + "1" == "{\"a\":1";
  }
}
