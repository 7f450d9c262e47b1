/** Data URIs (RFC 2397) with a base64 payload (alphabet of section 4 of
    RFC 4648): `isDataURI`, `is_base64`, `base64_decode` and
    `DecodeDataURI` of mvImporter.cpp. */
module DataUri {
  import opened Common

  // ---------------------------------------------------------------------
  // Alphabet
  // ---------------------------------------------------------------------

  /** `isalnum` in the C locale. */
  predicate IsAlnum(c: char) {
    ('A' <= c <= 'Z') || ('a' <= c <= 'z') || ('0' <= c <= '9')
  }

  /** `is_base64`: letters, digits, `+` and `/`. */
  predicate IsBase64(c: char) {
    IsAlnum(c) || c == '+' || c == '/'
  }

  /** The character with value `k` in the base64 alphabet
      `A-Z a-z 0-9 + /`. */
  function AlphabetChar(k: int): (c: char)
    requires 0 <= k < 64
    ensures IsBase64(c) && c != '='
  {
    if k < 26 then ('A' as int + k) as char
    else if k < 52 then ('a' as int + (k - 26)) as char
    else if k < 62 then ('0' as int + (k - 52)) as char
    else if k == 62 then '+'
    else '/'
  }

  /** The value of an alphabet character, computed from its range. */
  function AlphabetIndex(c: char): (k: int)
    requires IsBase64(c)
    ensures 0 <= k < 64
  {
    if 'A' <= c <= 'Z' then c as int - 'A' as int
    else if 'a' <= c <= 'z' then c as int - 'a' as int + 26
    else if '0' <= c <= '9' then c as int - '0' as int + 52
    else if c == '+' then 62
    else 63
  }

  /** The range computation and the alphabet agree, both ways round. */
  lemma AlphabetIndexOfChar(k: int)
    requires 0 <= k < 64
    ensures AlphabetIndex(AlphabetChar(k)) == k
  {
    var c := AlphabetChar(k);
    if k < 26 {
      assert 'A' <= c <= 'Z';
    } else if k < 52 {
      assert 'a' <= c <= 'z';
    } else if k < 62 {
      assert '0' <= c <= '9';
    }
  }

  lemma AlphabetCharOfIndex(c: char)
    requires IsBase64(c)
    ensures AlphabetChar(AlphabetIndex(c)) == c
  {
  }

  /** `static_cast<unsigned char>(base64_chars.find(c))`, where
      `base64_chars` is the 64-character string of the alphabet in value
      order: the position of `c` in the alphabet, or 0xFF (`npos` truncated
      to an unsigned char) when it is not there. */
  function Sextet(c: char): (r: byte) {
    FindFrom(c, 0)
  }

  /** The left-to-right scan of `find`, from position `k` on. */
  function FindFrom(c: char, k: nat): (r: byte)
    requires k <= 64
    decreases 64 - k
  {
    if k == 64 then 0xFF
    else if AlphabetChar(k) == c then k as byte
    else FindFrom(c, k + 1)
  }

  /** The scan stops at the first position holding `c`. */
  lemma {:induction false} FindFromFirst(c: char, k: nat, j: nat)
    requires k <= j < 64 && AlphabetChar(j) == c
    requires forall i :: k <= i < j ==> AlphabetChar(i) != c
    ensures FindFrom(c, k) == j as byte
    decreases j - k
  {
    if k < j {
      FindFromFirst(c, k + 1, j);
    }
  }

  /** The scan reports `npos` when no position from `k` on holds `c`. */
  lemma {:induction false} FindFromMissing(c: char, k: nat)
    requires k <= 64
    requires forall i :: k <= i < 64 ==> AlphabetChar(i) != c
    ensures FindFrom(c, k) == 0xFF
    decreases 64 - k
  {
    if k < 64 {
      FindFromMissing(c, k + 1);
    }
  }

  /** The lookup inverts the alphabet. */
  lemma SextetOfAlphabet(k: byte)
    requires k < 64
    ensures Sextet(AlphabetChar(k as int)) == k
  {
    var c := AlphabetChar(k as int);
    forall i | 0 <= i < k as int
      ensures AlphabetChar(i) != c
    {
      AlphabetIndexOfChar(i);
      AlphabetIndexOfChar(k as int);
    }
    FindFromFirst(c, 0, k as int);
  }

  /** `is_base64` and the alphabet lookup agree: a character passes the test
      exactly when `find` locates it, and then it is the character of its
      value; every other character looks up as 0xFF. */
  lemma SextetOfBase64(c: char)
    requires IsBase64(c)
    ensures Sextet(c) < 64 && AlphabetChar(Sextet(c) as int) == c
  {
    var k := AlphabetIndex(c);
    AlphabetCharOfIndex(c);
    ByteOfSmall(k);
    SextetOfAlphabet(k as byte);
  }

  lemma SextetOfOther(c: char)
    requires !IsBase64(c)
    ensures Sextet(c) == 0xFF
  {
    forall i | 0 <= i < 64
      ensures AlphabetChar(i) != c
    {
    }
    FindFromMissing(c, 0);
  }

  // ---------------------------------------------------------------------
  // Decoding
  // ---------------------------------------------------------------------

  /** One group: four sextets give three bytes, each truncated to an
      unsigned char. */
  function DecodeQuad(a: byte, b: byte, c: byte, d: byte): (r: seq<byte>)
    ensures |r| == 3
  {
    [ (a << 2) + ((b & 0x30) >> 4),
      ((b & 0x0f) << 4) + ((c & 0x3c) >> 2),
      ((c & 0x03) << 6) + d ]
  }

  function DecodeChars(q: seq<char>): (r: seq<byte>)
    requires |q| == 4
    ensures |r| == 3
  {
    DecodeQuad(Sextet(q[0]), Sextet(q[1]), Sextet(q[2]), Sextet(q[3]))
  }

  /** The loop condition: not `=` and in the alphabet. */
  predicate Accepted(c: char) {
    c != '=' && IsBase64(c)
  }

  /** Number of characters the decoder consumes: the longest prefix of
      accepted characters. */
  function Consumed(s: seq<char>): (n: nat)
    ensures n <= |s|
    ensures n < |s| ==> !Accepted(s[n])
  {
    if s == [] || !Accepted(s[0]) then 0 else 1 + Consumed(s[1..])
  }

  /** Every character before the stopping point is accepted. */
  lemma {:induction false} AcceptedBeforeConsumed(s: seq<char>, k: nat)
    requires k < Consumed(s)
    ensures Accepted(s[k])
  {
    if k > 0 {
      AcceptedBeforeConsumed(s[1..], k - 1);
    }
  }

  /** A trailing group of fewer than four characters filled up to four with
      `fill`. */
  function Padded(q: seq<char>, fill: char): (r: seq<char>)
    requires |q| < 4
    ensures |r| == 4 && r[..|q|] == q
  {
    q + seq(4 - |q|, _ => fill)
  }

  /** A trailing group of `k` characters, padded with NUL characters (whose
      lookup yields 0xFF), gives its first `k - 1` bytes. */
  function TailBytes(q: seq<char>): (r: seq<byte>)
    requires 0 < |q| < 4
    ensures |r| == |q| - 1
  {
    DecodeChars(Padded(q, NUL))[..|q| - 1]
  }

  /** Whole groups give three bytes each, then the trailing group. */
  function DecodeGroups(p: seq<char>): seq<byte>
    decreases |p|
  {
    if |p| >= 4 then DecodeChars(p[..4]) + DecodeGroups(p[4..])
    else if |p| == 0 then []
    else TailBytes(p)
  }

  /** What `base64_decode(s)` returns. */
  function Decode(s: seq<char>): (r: seq<byte>)
    ensures |r| <= Consumed(s) && (Consumed(s) > 1 ==> |r| > 0)
  {
    DecodeGroupsLength(s[..Consumed(s)]);
    DecodeGroups(s[..Consumed(s)])
  }

  /** The output length is 3 per whole group plus `k - 1` for a trailing
      group of `k > 0` characters. */
  lemma {:induction false} DecodeGroupsLength(p: seq<char>)
    ensures |DecodeGroups(p)| == 3 * (|p| / 4) + (if |p| % 4 == 0 then 0 else |p| % 4 - 1)
    decreases |p|
  {
    if |p| >= 4 {
      DecodeGroupsLength(p[4..]);
    }
  }

  /** Decoding is group by group: a whole number of groups can be split off
      the front. */
  lemma {:induction false} DecodeGroupsAppend(p: seq<char>, q: seq<char>)
    requires |p| % 4 == 0
    ensures DecodeGroups(p + q) == DecodeGroups(p) + DecodeGroups(q)
    decreases |p|
  {
    if |p| > 0 {
      assert (p + q)[..4] == p[..4];
      assert (p + q)[4..] == p[4..] + q;
      DecodeGroupsAppend(p[4..], q);
    } else {
      assert p + q == q;
    }
  }

  /** The first byte of a group depends on its first two sextets only, the
      second on its first three. */
  lemma QuadLeadingBytes(a: byte, b: byte, c: byte, d: byte, c': byte, d': byte)
    ensures DecodeQuad(a, b, c, d)[..1] == DecodeQuad(a, b, c', d')[..1]
    ensures DecodeQuad(a, b, c, d)[..2] == DecodeQuad(a, b, c, d')[..2]
  {
  }

  /** The trailing group never lets the 0xFF of its padding into the bytes it
      emits: it gives the same bytes as padding with `A` (value 0) would. */
  lemma TailIgnoresPadding(q: seq<char>)
    requires 0 < |q| < 4
    ensures TailBytes(q) == DecodeChars(Padded(q, 'A'))[..|q| - 1]
  {
    var n := Padded(q, NUL);
    var z := Padded(q, 'A');
    if |q| >= 2 {
      assert n[0] == q[0] == z[0] && n[1] == q[1] == z[1];
      if |q| == 3 {
        assert n[2] == q[2] == z[2];
      }
      QuadLeadingBytes(Sextet(n[0]), Sextet(n[1]), Sextet(n[2]), Sextet(n[3]), Sextet(z[2]), Sextet(z[3]));
    }
  }

  /** Only the accepted prefix matters: anything after the first rejected
      character leaves the result unchanged. */
  lemma DecodeStopsAtRejected(s: seq<char>, t: seq<char>)
    requires |s| > Consumed(s)
    ensures Decode(s + t) == Decode(s)
  {
    var n := Consumed(s);
    var u := s + t;
    forall k | 0 <= k < n
      ensures Accepted(u[k])
    {
      AcceptedBeforeConsumed(s, k);
      assert u[k] == s[k];
    }
    assert u[n] == s[n];
    ConsumedIsStop(u, n);
    assert u[..n] == s[..n];
  }

  /** `base64_decode`: the loop collects accepted characters four at a time
      and emits three bytes per group, stopping at the first character that
      is `=` or outside the alphabet; a trailing group of `k` characters
      then gives `k - 1` bytes. */
  method Base64Decode(encoded: seq<char>) returns (ret: seq<byte>)
    ensures ret == Decode(encoded)
  {
    var inLen := |encoded|;
    var i := 0;
    var in_ := 0;
    var charArray4 := [];
    ret := [];
    ghost var groups := 0;
    while inLen != 0 && encoded[in_] != '=' && IsBase64(encoded[in_])
      invariant 0 <= in_ <= |encoded| && inLen == |encoded| - in_
      invariant in_ <= Consumed(encoded)
      invariant 0 <= i < 4 && in_ == 4 * groups + i
      invariant charArray4 == encoded[4 * groups..in_]
      invariant ret == DecodedGroups(encoded, groups)
    {
      ConsumedPastAccepted(encoded, in_);
      inLen := inLen - 1;
      ret, charArray4, i, in_, groups := TakeChar(encoded, ret, charArray4, i, in_, groups);
    }
    if in_ < Consumed(encoded) {
      AcceptedBeforeConsumed(encoded, in_);
    }
    DecodeByGroups(encoded, groups);
    if i != 0 {
      ret := ret + TailBytes(charArray4);
    }
  }

  /** One turn of the loop: the character joins the held group, and a group
      of four is decoded and appended to the output. */
  method TakeChar(encoded: seq<char>, ret: seq<byte>, charArray4: seq<char>, i: nat, in_: nat, ghost groups: nat)
    returns (ret': seq<byte>, charArray4': seq<char>, i': nat, in_': nat, ghost groups': nat)
    requires in_ < |encoded| && i < 4 && in_ == 4 * groups + i
    requires charArray4 == encoded[4 * groups..in_]
    requires ret == DecodedGroups(encoded, groups)
    ensures in_' == in_ + 1 && i' < 4 && in_' == 4 * groups' + i'
    ensures charArray4' == encoded[4 * groups'..in_']
    ensures ret' == DecodedGroups(encoded, groups')
  {
    SliceExtend(encoded, 4 * groups, in_);
    charArray4' := charArray4 + [encoded[in_]];
    i' := i + 1;
    in_' := in_ + 1;
    ret' := ret;
    groups' := groups;
    if i' == 4 {
      ret' := ret + DecodeChars(charArray4');
      charArray4' := [];
      i' := 0;
      groups' := groups + 1;
    }
  }

  /** The bytes of the first `g` whole groups of `e`, built group by group
      the way the decoder's loop emits them. */
  ghost function DecodedGroups(e: seq<char>, g: nat): seq<byte>
    requires 4 * g <= |e|
  {
    if g == 0 then [] else DecodedGroups(e, g - 1) + DecodeChars(e[4 * (g - 1)..4 * g])
  }

  /** `Decode` in the shape of the decoder's loop: the whole groups, then the
      trailing group, if any, padded with NUL. */
  lemma DecodeByGroups(e: seq<char>, g: nat)
    requires 4 * g <= Consumed(e) < 4 * g + 4
    ensures Decode(e) == DecodedGroups(e, g) +
      (if Consumed(e) == 4 * g then [] else TailBytes(e[4 * g..Consumed(e)]))
  {
    var n := Consumed(e);
    DecodedGroupsIsPrefix(e, g);
    if n == 4 * g {
      assert e[..n] == e[..4 * g];
    } else {
      DecodeGroupsTail(e, g, n);
    }
  }

  lemma {:induction false} DecodedGroupsIsPrefix(e: seq<char>, g: nat)
    requires 4 * g <= |e|
    ensures DecodedGroups(e, g) == DecodeGroups(e[..4 * g])
  {
    if g > 0 {
      var h := g - 1;
      DecodedGroupsIsPrefix(e, h);
      DecodeGroupsExtend(e, h);
      assert 4 * h + 4 == 4 * g;
    }
  }

  /** An accepted character at or before the stopping point lies before it. */
  lemma ConsumedPastAccepted(s: seq<char>, n: nat)
    requires n <= Consumed(s) && n < |s| && Accepted(s[n])
    ensures n + 1 <= Consumed(s)
  {
  }

  lemma SplitAt(s: seq<char>, a: nat, b: nat)
    requires a <= b <= |s|
    ensures s[..a] + s[a..b] == s[..b]
  {
  }

  lemma SliceExtend(s: seq<char>, a: nat, b: nat)
    requires a <= b < |s|
    ensures s[a..b + 1] == s[a..b] + [s[b]]
  {
  }

  /** The decoder stops exactly at the first rejected character. */
  lemma {:induction false} ConsumedIsStop(s: seq<char>, n: nat)
    requires n <= |s|
    requires forall k :: 0 <= k < n ==> Accepted(s[k])
    requires n < |s| ==> !Accepted(s[n])
    ensures Consumed(s) == n
    decreases n
  {
    if n > 0 {
      assert Accepted(s[0]);
      assert forall k | 0 <= k < n - 1 :: s[1..][k] == s[k + 1];
      ConsumedIsStop(s[1..], n - 1);
    }
  }

  /** One more whole group at the end of `g` whole groups. */
  lemma DecodeGroupsExtend(e: seq<char>, g: nat)
    requires 4 * g + 4 <= |e|
    ensures DecodeGroups(e[..4 * g + 4]) == DecodeGroups(e[..4 * g]) + DecodeChars(e[4 * g..4 * g + 4])
  {
    var p, q := e[..4 * g], e[4 * g..4 * g + 4];
    assert |p| % 4 == 0;
    DecodeGroupsAppend(p, q);
    SplitAt(e, 4 * g, 4 * g + 4);
    assert q[..4] == q && q[4..] == [];
  }

  lemma DecodeGroupsTail(e: seq<char>, g: nat, n: nat)
    requires 4 * g < n < 4 * g + 4 && n <= |e|
    ensures DecodeGroups(e[..n]) == DecodeGroups(e[..4 * g]) + TailBytes(e[4 * g..n])
  {
    var p, q := e[..4 * g], e[4 * g..n];
    assert |p| % 4 == 0;
    DecodeGroupsAppend(p, q);
    SplitAt(e, 4 * g, n);
  }

  // ---------------------------------------------------------------------
  // Encoding (the inverse the decoder is checked against)
  // ---------------------------------------------------------------------

  /** Three bytes as four alphabet characters. */
  function EncodeTriple(a: byte, b: byte, c: byte): (r: seq<char>)
    ensures |r| == 4
  {
    [ AlphabetChar((a >> 2) as int),
      AlphabetChar((((a & 0x03) << 4) | (b >> 4)) as int),
      AlphabetChar((((b & 0x0f) << 2) | (c >> 6)) as int),
      AlphabetChar((c & 0x3f) as int) ]
  }

  /** Two final bytes as three alphabet characters (the padding `=` left off). */
  function EncodePair(a: byte, b: byte): (r: seq<char>)
    ensures |r| == 3
  {
    [ AlphabetChar((a >> 2) as int),
      AlphabetChar((((a & 0x03) << 4) | (b >> 4)) as int),
      AlphabetChar(((b & 0x0f) << 2) as int) ]
  }

  /** One final byte as two alphabet characters (the padding `==` left off). */
  function EncodeSingle(a: byte): (r: seq<char>)
    ensures |r| == 2
  {
    [ AlphabetChar((a >> 2) as int), AlphabetChar(((a & 0x03) << 4) as int) ]
  }

  /** The alphabet characters of the standard encoding, without `=`. */
  function EncodeBody(bs: seq<byte>): (r: seq<char>)
    ensures forall k :: 0 <= k < |r| ==> Accepted(r[k])
    decreases |bs|
  {
    if |bs| >= 3 then EncodeTriple(bs[0], bs[1], bs[2]) + EncodeBody(bs[3..])
    else if |bs| == 2 then EncodePair(bs[0], bs[1])
    else if |bs| == 1 then EncodeSingle(bs[0])
    else []
  }

  /** Standard base64 with `=` padding to a multiple of four characters. */
  function Encode(bs: seq<byte>): seq<char> {
    EncodeBody(bs) + seq((3 - |bs| % 3) % 3, _ => '=')
  }

  lemma TripleRoundTrip(a: byte, b: byte, c: byte)
    ensures DecodeChars(EncodeTriple(a, b, c)) == [a, b, c]
  {
    var q := EncodeTriple(a, b, c);
    SextetOfAlphabet(a >> 2);
    SextetOfAlphabet(((a & 0x03) << 4) | (b >> 4));
    SextetOfAlphabet(((b & 0x0f) << 2) | (c >> 6));
    SextetOfAlphabet(c & 0x3f);
    assert DecodeQuad(a >> 2, ((a & 0x03) << 4) | (b >> 4), ((b & 0x0f) << 2) | (c >> 6), c & 0x3f) == [a, b, c];
  }

  lemma PairRoundTrip(a: byte, b: byte)
    ensures DecodeGroups(EncodePair(a, b)) == [a, b]
  {
    SextetOfAlphabet(a >> 2);
    SextetOfAlphabet(((a & 0x03) << 4) | (b >> 4));
    SextetOfAlphabet((b & 0x0f) << 2);
    var r := DecodeQuad(a >> 2, ((a & 0x03) << 4) | (b >> 4), (b & 0x0f) << 2, 0xFF);
    assert r[0] == a && r[1] == b;
  }

  lemma SingleRoundTrip(a: byte)
    ensures DecodeGroups(EncodeSingle(a)) == [a]
  {
    SextetOfAlphabet(a >> 2);
    SextetOfAlphabet((a & 0x03) << 4);
    var r := DecodeQuad(a >> 2, (a & 0x03) << 4, 0xFF, 0xFF);
    assert r[0] == a;
  }

  /** One whole group in front decodes on its own. */
  lemma DecodeGroupsCons(head: seq<char>, rest: seq<char>)
    requires |head| == 4
    ensures DecodeGroups(head + rest) == DecodeChars(head) + DecodeGroups(rest)
  {
    assert (head + rest)[..4] == head;
    assert (head + rest)[4..] == rest;
  }

  lemma {:induction false} BodyRoundTrip(bs: seq<byte>)
    ensures DecodeGroups(EncodeBody(bs)) == bs
    decreases |bs|
  {
    if |bs| >= 3 {
      var head := EncodeTriple(bs[0], bs[1], bs[2]);
      var rest := EncodeBody(bs[3..]);
      DecodeGroupsCons(head, rest);
      BodyRoundTrip(bs[3..]);
      TripleRoundTrip(bs[0], bs[1], bs[2]);
      assert bs == [bs[0], bs[1], bs[2]] + bs[3..];
    } else {
      ShortBodyRoundTrip(bs);
    }
  }

  /** The last one or two bytes, encoded without padding, decode back. */
  lemma ShortBodyRoundTrip(bs: seq<byte>)
    requires |bs| < 3
    ensures DecodeGroups(EncodeBody(bs)) == bs
  {
    if |bs| == 2 {
      PairBodyRoundTrip(bs);
    } else if |bs| == 1 {
      SingleBodyRoundTrip(bs);
    }
  }

  lemma PairBodyRoundTrip(bs: seq<byte>)
    requires |bs| == 2
    ensures DecodeGroups(EncodeBody(bs)) == bs
  {
    PairRoundTrip(bs[0], bs[1]);
    assert bs == [bs[0], bs[1]];
  }

  lemma SingleBodyRoundTrip(bs: seq<byte>)
    requires |bs| == 1
    ensures DecodeGroups(EncodeBody(bs)) == bs
  {
    SingleRoundTrip(bs[0]);
    assert bs == [bs[0]];
  }

  /** Decoding undoes the standard encoding: the decoder stops at the first
      `=` and turns the trailing partial group back into its bytes. */
  lemma RoundTrip(bs: seq<byte>)
    ensures Decode(Encode(bs)) == bs
  {
    var body := EncodeBody(bs);
    var pad := seq((3 - |bs| % 3) % 3, _ => '=');
    var s := body + pad;
    assert forall k | 0 <= k < |body| :: s[k] == body[k];
    ConsumedIsStop(s, |body|);
    assert s[..|body|] == body;
    BodyRoundTrip(bs);
  }

  // ---------------------------------------------------------------------
  // Data-URI headers
  // ---------------------------------------------------------------------

  /** A recognised header and the MIME type `DecodeDataURI` reports for it
      (two of them leave the caller's MIME type alone). */
  datatype Header = Header(prefix: string, mime: Option<string>)

  /** The seven headers, in the order both functions try them. */
  const Headers: seq<Header> := [
    Header("data:application/octet-stream;base64,", None),
    Header("data:image/jpeg;base64,", Some("image/jpeg")),
    Header("data:image/png;base64,", Some("image/png")),
    Header("data:image/bmp;base64,", Some("image/bmp")),
    Header("data:image/gif;base64,", Some("image/gif")),
    Header("data:text/plain;base64,", Some("text/plain")),
    Header("data:application/gltf-buffer;base64,", None)
  ]

  /** Whether some header of `hs` from position `k` on starts `s`, trying
      them in order. */
  function MatchesFrom(hs: seq<Header>, s: string, k: nat): (r: bool)
    requires k <= |hs|
    ensures r <==> exists j :: k <= j < |hs| && StartsWith(s, hs[j].prefix)
    decreases |hs| - k
  {
    if k == |hs| then false
    else if StartsWith(s, hs[k].prefix) then true
    else MatchesFrom(hs, s, k + 1)
  }

  /** `isDataURI`: the string starts with one of the seven exact headers. */
  function IsDataUri(s: string): (r: bool)
    ensures r <==> exists j :: 0 <= j < |Headers| && StartsWith(s, Headers[j].prefix)
  {
    MatchesFrom(Headers, s, 0)
  }

  /** The characters at positions 5, 11 and 17 of header `k`, which tell
      the seven headers apart. */
  function Signature(k: nat): (string)
    requires k < |Headers|
  {
    [Headers[k].prefix[5], Headers[k].prefix[11], Headers[k].prefix[17]]
  }

  /** The signatures, header by header. */
  function SignatureTable(k: nat): string
    requires k < 7
  {
    ["aao", "ija", "ips", "ibs", "igs", "tla", "aag"][k]
  }

  lemma SignatureOf(k: nat)
    requires k < |Headers|
    ensures Signature(k) == SignatureTable(k)
  {
    match k
    case 0 => SignatureOctetStream();
    case 1 => SignatureJpeg();
    case 2 => SignaturePng();
    case 3 => SignatureBmp();
    case 4 => SignatureGif();
    case 5 => SignatureText();
    case 6 => SignatureGltfBuffer();
  }

  lemma SignatureOctetStream() ensures Signature(0) == "aao" { }
  lemma SignatureJpeg() ensures Signature(1) == "ija" { }
  lemma SignaturePng() ensures Signature(2) == "ips" { }
  lemma SignatureBmp() ensures Signature(3) == "ibs" { }
  lemma SignatureGif() ensures Signature(4) == "igs" { }
  lemma SignatureText() ensures Signature(5) == "tla" { }
  lemma SignatureGltfBuffer() ensures Signature(6) == "aag" { }

  lemma SignaturesDistinct(i: nat, j: nat)
    requires i < |Headers| && j < |Headers| && Signature(i) == Signature(j)
    ensures i == j
  {
    SignatureOf(i);
    SignatureOf(j);
  }

  /** The seven headers exclude each other: a string starts with at most one
      of them. */
  lemma HeadersExclusive(s: string, i: nat, j: nat)
    requires i < |Headers| && j < |Headers|
    requires StartsWith(s, Headers[i].prefix) && StartsWith(s, Headers[j].prefix)
    ensures i == j
  {
    var p, q := Headers[i].prefix, Headers[j].prefix;
    assert s[5] == p[5] == q[5];
    assert s[11] == p[11] == q[11];
    assert s[17] == p[17] == q[17];
    SignaturesDistinct(i, j);
  }

  /** The header a data URI starts with, if any. */
  function MatchedHeader(s: string): (r: Option<nat>)
    ensures r.Some? ==> r.value < |Headers| && StartsWith(s, Headers[r.value].prefix)
    ensures r.Some? ==> forall j :: 0 <= j < |Headers| && StartsWith(s, Headers[j].prefix) ==> j == r.value
    ensures r.None? <==> !IsDataUri(s)
  {
    if IsDataUri(s) then
      var k :| 0 <= k < |Headers| && StartsWith(s, Headers[k].prefix);
      assert forall j :: 0 <= j < |Headers| && StartsWith(s, Headers[j].prefix) ==> j == k by {
        forall j | 0 <= j < |Headers| && StartsWith(s, Headers[j].prefix) ensures j == k {
          HeadersExclusive(s, j, k);
        }
      }
      Some(k)
    else None
  }

  /** The text after header `k`. */
  function Payload(hs: seq<Header>, s: string, k: nat): string
    requires k < |hs| && StartsWith(s, hs[k].prefix)
  {
    s[|hs[k].prefix|..]
  }

  /** The MIME type after header `k` matched. */
  function MimeAfter(hs: seq<Header>, k: nat, mime: string): string
    requires k < |hs|
  {
    if hs[k].mime.Some? then hs[k].mime.value else mime
  }

  /** The chain of `if (data.empty()) { if (in.find(header) == 0) ... }` in
      `DecodeDataURI`, from header `k` on, starting from the decoded data
      and MIME type so far. */
  function DecodeChain(hs: seq<Header>, s: string, k: nat, data: seq<byte>, mime: string): (r: (seq<byte>, string))
    requires k <= |hs|
    ensures data != [] ==> r.0 == data
    decreases |hs| - k
  {
    if k == |hs| then (data, mime)
    else if data == [] && StartsWith(s, hs[k].prefix) then
      DecodeChain(hs, s, k + 1, Decode(Payload(hs, s, k)), MimeAfter(hs, k, mime))
    else DecodeChain(hs, s, k + 1, data, mime)
  }

  /** The chain changes nothing when no header from `k` on matches. */
  lemma {:induction false} ChainNoMatch(hs: seq<Header>, s: string, k: nat, data: seq<byte>, mime: string)
    requires k <= |hs|
    requires forall j :: k <= j < |hs| ==> !StartsWith(s, hs[j].prefix)
    ensures DecodeChain(hs, s, k, data, mime) == (data, mime)
    decreases |hs| - k
  {
    if k < |hs| {
      ChainNoMatch(hs, s, k + 1, data, mime);
    }
  }

  /** The chain decodes the payload of the one header that matches. */
  lemma {:induction false} ChainFindsMatch(hs: seq<Header>, s: string, k: nat, m: nat, mime: string)
    requires k <= m < |hs| && StartsWith(s, hs[m].prefix)
    requires forall j :: 0 <= j < |hs| && StartsWith(s, hs[j].prefix) ==> j == m
    ensures DecodeChain(hs, s, k, [], mime) == (Decode(Payload(hs, s, m)), MimeAfter(hs, m, mime))
    decreases |hs| - k
  {
    if k < m {
      ChainFindsMatch(hs, s, k + 1, m, mime);
    } else {
      ChainNoMatch(hs, s, m + 1, Decode(Payload(hs, s, m)), MimeAfter(hs, m, mime));
    }
  }

  /** The outputs of `DecodeDataURI`: its return value, the `out` vector and
      the `mime_type` string it was handed. */
  datatype DataUriResult = DataUriResult(ok: bool, out: seq<byte>, mime: string)

  /** The tail of `DecodeDataURI` once the header chain has run. */
  function Finish(chain: (seq<byte>, string), out: seq<byte>, reqBytes: int, checkSize: bool): DataUriResult {
    var (data, newMime) := chain;
    if data == [] then DataUriResult(false, out, newMime)
    else if checkSize && |data| != reqBytes then DataUriResult(false, out, newMime)
    else DataUriResult(true, data, newMime)
  }

  /** `DecodeDataURI(out, mime_type, in, reqBytes, checkSize)`: fails, leaving
      `out` as it was, when no header matches, when the payload decodes to
      nothing, or when `checkSize` is set and the decoded length is not
      `reqBytes`; otherwise `out` becomes the decoded bytes. The MIME type is
      set by the image and text headers whenever they match, even when the
      call then fails. */
  function DecodeDataUri(out: seq<byte>, mime: string, uri: string, reqBytes: int, checkSize: bool)
    : (r: DataUriResult)
    ensures MatchedHeader(uri).None? ==> r == DataUriResult(false, out, mime)
    ensures MatchedHeader(uri).Some? ==>
      var k := MatchedHeader(uri).value;
      var data := Decode(Payload(Headers, uri, k));
      && r.ok == (data != [] && (checkSize ==> |data| == reqBytes))
      && r.out == (if r.ok then data else out)
      && r.mime == MimeAfter(Headers, k, mime)
  {
    var chain := DecodeChain(Headers, uri, 0, [], mime);
    if MatchedHeader(uri).Some? then
      ChainFindsMatch(Headers, uri, 0, MatchedHeader(uri).value, mime);
      Finish(chain, out, reqBytes, checkSize)
    else
      ChainNoMatch(Headers, uri, 0, [], mime);
      Finish(chain, out, reqBytes, checkSize)
  }
}
