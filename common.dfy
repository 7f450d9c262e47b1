/** Small shared vocabulary: an Option type, bytes, and C-string helpers
    (the importer keeps NUL-terminated text inside its strings). */
module Common {

  datatype Option<+T> = None | Some(value: T)

  /** An unsigned char of the importer's byte buffers. */
  type byte = bv8

  const NUL: char := '\0'

  /** Index of the first NUL in `s`, or |s| when there is none. */
  function FirstNul(s: seq<char>): (n: nat)
    ensures n <= |s|
    ensures forall k :: 0 <= k < n ==> s[k] != NUL
    ensures n < |s| ==> s[n] == NUL
  {
    if s == [] then 0
    else if s[0] == NUL then 0
    else 1 + FirstNul(s[1..])
  }

  /** What `c_str()` shows of a std::string that may hold a NUL: the text
      before the first NUL (what strcmp, atoi and std::string(char*) see). */
  function CStr(s: seq<char>): (r: seq<char>)
    ensures NUL !in r
    ensures r <= s
    ensures |r| < |s| ==> s[|r|] == NUL
  {
    s[..FirstNul(s)]
  }

  /** A C string with NUL appended, as the tokenizer stores token text. */
  lemma CStrOfTerminated(s: seq<char>)
    requires NUL !in s
    ensures CStr(s + [NUL]) == s
  {
    var t := s + [NUL];
    assert forall k | 0 <= k < |s| :: t[k] == s[k] && s[k] in s && t[k] != NUL;
    assert t[|s|] == NUL;
    var n := FirstNul(t);
    assert !(n < |s|) && !(n > |s|);
    assert t[..|s|] == s;
  }

  /** A C string with NUL and anything after it. */
  lemma CStrOfPadded(s: seq<char>, rest: seq<char>)
    requires NUL !in s
    ensures NUL in s + [NUL] + rest && CStr(s + [NUL] + rest) == s
  {
    var t := s + [NUL] + rest;
    assert t[|s|] == NUL;
    assert forall k | 0 <= k < |s| :: t[k] == s[k] && s[k] in s && t[k] != NUL;
    var n := FirstNul(t);
    assert !(n < |s|) && !(n > |s|);
    assert t[..|s|] == s;
  }

  lemma CStrOfPlain(s: seq<char>)
    requires NUL !in s
    ensures CStr(s) == s
  {
    assert forall k | 0 <= k < |s| :: s[k] in s;
  }

  /** `in.find(prefix) == 0`: the string starts with `prefix`. */
  predicate StartsWith(s: seq<char>, prefix: seq<char>) {
    |prefix| <= |s| && s[..|prefix|] == prefix
  }

  /** `mvU32`, the importer's unsigned 32-bit integer. */
  const U32_MODULUS: int := 0x1_0000_0000

  /** A C++ conversion to `mvU32`: the value modulo 2^32. */
  function U32Of(i: int): (r: nat)
    ensures r < U32_MODULUS
    ensures 0 <= i < U32_MODULUS ==> r == i
    ensures (i - r) % U32_MODULUS == 0
  {
    i % U32_MODULUS
  }

  /** A byte viewed as the `char` that holds it. */
  function ByteToChar(b: byte): char {
    (b as int) as char
  }

  /** A small number survives the trip through a byte. */
  lemma ByteOfSmall(k: nat)
    requires k < 64
    ensures (k as byte) as int == k
  {
    if k < 32 { } else { }
  }
}
