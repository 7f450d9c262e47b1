/** `RemoveWhiteSpace` of mvImporter.cpp: copies a raw JSON text into a
    second buffer, dropping space, tab, CR and LF except inside quoted
    strings. It stops at a NUL or after `size` characters; in the second
    case the last character written is overwritten with NUL. */
module Whitespace {
  import opened Common

  /** The four characters the stripper drops outside strings. */
  predicate IsBlank(c: char) {
    c == ' ' || c == '\n' || c == '\r' || c == '\t'
  }

  /** Whether the scan is inside a quoted string after reading `s`: every
      `"` toggles the flag, escapes are not recognised. */
  function Inside(s: seq<char>): bool
    decreases |s|
  {
    if s == [] then false
    else if s[|s| - 1] == '"' then !Inside(s[..|s| - 1])
    else Inside(s[..|s| - 1])
  }

  /** Whether the character after `s` is copied. */
  predicate Kept(s: seq<char>, c: char) {
    !IsBlank(c) || Inside(s)
  }

  /** The characters the stripper copies from `s`, in order. */
  function Keep(s: seq<char>): (r: seq<char>)
    ensures |r| <= |s|
    decreases |s|
  {
    if s == [] then []
    else
      var init := s[..|s| - 1];
      Keep(init) + (if Kept(init, s[|s| - 1]) then [s[|s| - 1]] else [])
  }

  /** What the stripper writes over the front of the output buffer, read
      from the first `size` raw characters `s`: the kept characters before
      the first NUL when there is one; otherwise all kept characters, the
      last of them replaced by NUL. */
  function Written(s: seq<char>): (r: seq<char>)
    requires NUL in s || Keep(s) != []
    ensures |r| <= |s|
  {
    if NUL in s then Keep(s[..FirstNul(s)])
    else Keep(s)[..|Keep(s)| - 1] + [NUL]
  }

  // ---------------------------------------------------------------------
  // Properties of the specification
  // ---------------------------------------------------------------------

  lemma KeepSnoc(s: seq<char>, c: char)
    ensures Keep(s + [c]) == Keep(s) + (if Kept(s, c) then [c] else [])
  {
    assert (s + [c])[..|s|] == s;
  }

  lemma InsideSnoc(s: seq<char>, c: char)
    ensures Inside(s + [c]) == if c == '"' then !Inside(s) else Inside(s)
  {
    assert (s + [c])[..|s|] == s;
  }

  /** Every quote is kept, so the stripped text is inside a string exactly
      when the raw text is. */
  lemma {:induction false} KeepPreservesInside(s: seq<char>)
    ensures Inside(Keep(s)) == Inside(s)
    decreases |s|
  {
    if s != [] {
      var init, c := s[..|s| - 1], s[|s| - 1];
      KeepPreservesInside(init);
      if Kept(init, c) {
        assert Keep(s) == Keep(init) + [c];
        InsideSnoc(Keep(init), c);
      } else {
        assert Keep(s) == Keep(init);
      }
    }
  }

  /** Stripping twice is stripping once. */
  lemma {:induction false} KeepIdempotent(s: seq<char>)
    ensures Keep(Keep(s)) == Keep(s)
    decreases |s|
  {
    if s != [] {
      var init, c := s[..|s| - 1], s[|s| - 1];
      KeepIdempotent(init);
      KeepPreservesInside(init);
      if Kept(init, c) {
        assert Keep(s) == Keep(init) + [c];
        KeepSnoc(Keep(init), c);
      } else {
        assert Keep(s) == Keep(init);
      }
    }
  }

  /** Outside quotes nothing blank survives: a text without `"` comes out
      with no space, tab, CR or LF, and every other character survives. */
  lemma {:induction false} KeepUnquoted(s: seq<char>)
    requires '"' !in s
    ensures forall k :: 0 <= k < |Keep(s)| ==> !IsBlank(Keep(s)[k])
    ensures forall c :: c in s && !IsBlank(c) ==> c in Keep(s)
    decreases |s|
  {
    if s != [] {
      var init, c := s[..|s| - 1], s[|s| - 1];
      assert s == init + [c];
      assert forall d :: d in init ==> d in s;
      KeepUnquoted(init);
      NoQuoteOutside(init);
    }
  }

  /** The stripper only copies: every character it keeps comes from the
      input. */
  lemma {:induction false} KeepDrawsFrom(s: seq<char>)
    ensures forall c :: c in Keep(s) ==> c in s
    decreases |s|
  {
    if s != [] {
      var init := s[..|s| - 1];
      KeepDrawsFrom(init);
      assert s == init + [s[|s| - 1]];
    }
  }

  lemma {:induction false} NoQuoteOutside(s: seq<char>)
    requires '"' !in s
    ensures !Inside(s)
    decreases |s|
  {
    if s != [] {
      assert s[|s| - 1] in s;
      assert forall d :: d in s[..|s| - 1] ==> d in s;
      NoQuoteOutside(s[..|s| - 1]);
    }
  }

  // ---------------------------------------------------------------------
  // The loop
  // ---------------------------------------------------------------------

  /** `RemoveWhiteSpace(rawData, spacesRemoved, size)`. The first `size`
      characters of `rawData` are read; nothing at or past `size` in
      `spacesRemoved` is touched. When no NUL is among the `size`
      characters, the NUL overwrites the last character kept, so at least
      one character must be kept (otherwise the index `newCursor - 1`
      falls below the buffer). */
  method RemoveWhiteSpace(rawData: array<char>, spacesRemoved: array<char>, size: nat)
    requires rawData != spacesRemoved
    requires 0 < size <= rawData.Length && size <= spacesRemoved.Length
    requires NUL in rawData[..size] || Keep(rawData[..size]) != []
    modifies spacesRemoved
    ensures spacesRemoved[..] ==
      Written(rawData[..size]) + old(spacesRemoved[..])[|Written(rawData[..size])|..]
  {
    ghost var s := rawData[..size];
    ghost var before := spacesRemoved[..];
    var currentPos := 0;
    var newCursor := 0;
    var insideString := false;
    var currentChar := rawData[currentPos];

    while currentChar != NUL
      invariant 0 <= currentPos < size
      invariant currentChar == rawData[currentPos]
      invariant NUL !in rawData[..currentPos]
      invariant insideString == Inside(rawData[..currentPos])
      invariant newCursor == |Keep(rawData[..currentPos])| <= currentPos
      invariant spacesRemoved[..] == Keep(rawData[..currentPos]) + before[newCursor..]
      decreases size - currentPos
    {
      assert rawData[..currentPos + 1] == rawData[..currentPos] + [currentChar];
      currentPos, newCursor, insideString :=
        CopyChar(rawData, spacesRemoved, size, currentPos, newCursor, insideString, before);

      if currentPos >= size || newCursor >= size {
        assert rawData[..currentPos] == s;
        spacesRemoved[newCursor - 1] := NUL;
        WrittenTruncated(s, before);
        return;
      }

      currentChar := rawData[currentPos];
    }
    assert s[..currentPos] == rawData[..currentPos];
    WrittenAtNul(s, currentPos, before);
  }

  /** One turn of the loop: the quote flag is updated, then the character
      is copied unless it is blank outside a string. */
  method CopyChar(rawData: array<char>, spacesRemoved: array<char>, size: nat,
                  currentPos: nat, newCursor: nat, insideString: bool, ghost before: seq<char>)
    returns (pos': nat, cursor': nat, inside': bool)
    requires rawData != spacesRemoved
    requires size <= rawData.Length && size <= spacesRemoved.Length == |before|
    requires currentPos < size && rawData[currentPos] != NUL
    requires insideString == Inside(rawData[..currentPos])
    requires newCursor == |Keep(rawData[..currentPos])| <= currentPos
    requires spacesRemoved[..] == Keep(rawData[..currentPos]) + before[newCursor..]
    modifies spacesRemoved
    ensures pos' == currentPos + 1
    ensures inside' == Inside(rawData[..pos'])
    ensures cursor' == |Keep(rawData[..pos'])| <= pos'
    ensures spacesRemoved[..] == Keep(rawData[..pos']) + before[cursor'..]
  {
    var currentChar := rawData[currentPos];
    ghost var init := rawData[..currentPos];
    KeepSnoc(init, currentChar);
    InsideSnoc(init, currentChar);
    assert rawData[..currentPos + 1] == init + [currentChar];

    inside' := insideString;
    if currentChar == '"' && inside' {
      inside' := false;
    } else if currentChar == '"' {
      inside' := true;
    }

    cursor' := newCursor;
    if IsBlank(currentChar) {
      if inside' {
        spacesRemoved[cursor'] := rawData[currentPos];
        cursor' := cursor' + 1;
      }
      pos' := currentPos + 1;
    } else {
      spacesRemoved[cursor'] := rawData[currentPos];
      pos' := currentPos + 1;
      cursor' := cursor' + 1;
    }
  }

  lemma WrittenAtNul(s: seq<char>, n: nat, before: seq<char>)
    requires n < |s| && s[n] == NUL && NUL !in s[..n]
    ensures NUL in s && Written(s) == Keep(s[..n])
  {
    assert forall k :: 0 <= k < n ==> s[k] == s[..n][k] && s[..n][k] in s[..n];
  }

  lemma WrittenTruncated(s: seq<char>, before: seq<char>)
    requires NUL !in s && Keep(s) != [] && |Keep(s)| <= |before|
    ensures Written(s) == Keep(s)[..|Keep(s)| - 1] + [NUL]
    ensures (Keep(s) + before[|Keep(s)|..])[|Keep(s)| - 1 := NUL] ==
      Written(s) + before[|Written(s)|..]
  {
  }
}
