/** The lookup layer of mvImporter.cpp over a parsed document: name lookup
    in the root object or in any object (first match by `strcmp`, which
    compares up to the NUL the member names carry), positional access, and
    the conversions of a member to `int` (`atoi`), `mvU32`, text and
    object. */
module JsonLookup {
  import opened Common
  import opened TreeBuilder

  /** `jsonObjects[k]`. The source does not check the index; out of range
      the model yields an empty object. */
  function ObjectAt(doc: Document, k: int): (o: JsonObject)
    ensures 0 <= k < |doc.objects| ==> o == doc.objects[k]
    ensures !(0 <= k < |doc.objects|) ==> o.members == []
  {
    if 0 <= k < |doc.objects| then doc.objects[k] else JsonObject(TypeNone, [])
  }

  /** `primitiveValues[k].value`. Out of range the model yields the empty
      text. */
  function ValueAt(doc: Document, k: int): (v: string)
    ensures 0 <= k < |doc.values| ==> v == doc.values[k]
    ensures !(0 <= k < |doc.values|) ==> v == []
  {
    if 0 <= k < |doc.values| then doc.values[k] else []
  }

  /** `strcmp(key, member.name.c_str()) == 0`. */
  predicate Matches(m: JsonMember, key: string) {
    CStr(m.name) == CStr(key)
  }

  /** The position of the first member named `key` at or after `i`. */
  function FirstMatchFrom(members: seq<JsonMember>, key: string, i: nat): (r: Option<nat>)
    requires i <= |members|
    ensures r.Some? ==>
      (i <= r.value < |members| && Matches(members[r.value], key)
       && forall k :: i <= k < r.value ==> !Matches(members[k], key))
    ensures r.None? ==> forall k :: i <= k < |members| ==> !Matches(members[k], key)
    decreases |members| - i
  {
    if i == |members| then None
    else if Matches(members[i], key) then Some(i)
    else FirstMatchFrom(members, key, i + 1)
  }

  /** The position of the first member named `key`. */
  function FirstMatch(members: seq<JsonMember>, key: string): (r: Option<nat>)
    ensures r.Some? ==>
      (r.value < |members| && Matches(members[r.value], key)
       && forall k :: 0 <= k < r.value ==> !Matches(members[k], key))
    ensures r.None? ==> forall k :: 0 <= k < |members| ==> !Matches(members[k], key)
  {
    FirstMatchFrom(members, key, 0)
  }

  /** `mvJsonObject::doesMemberExist(key)`. */
  function ObjectHasMember(o: JsonObject, key: string): bool {
    FirstMatch(o.members, key).Some?
  }

  /** `mvJsonContext::doesMemberExist(key)`: asks the root,
      `jsonObjects[1]`. */
  function ContextHasMember(doc: Document, key: string): bool {
    ObjectHasMember(ObjectAt(doc, 1), key)
  }

  /** `mvJsonObject::operator[](key)`: the object the first member named
      `key` points at, else the sentinel `jsonObjects[0]`. */
  function ObjectGet(doc: Document, o: JsonObject, key: string): JsonObject {
    match FirstMatch(o.members, key)
    case Some(k) => ObjectAt(doc, o.members[k].index)
    case None => ObjectAt(doc, 0)
  }

  /** `mvJsonContext::operator[](key)`: the same lookup in the root. */
  function ContextGet(doc: Document, key: string): JsonObject {
    ObjectGet(doc, ObjectAt(doc, 1), key)
  }

  /** `mvJsonObject::getMember(key)`: the first member named `key`, else
      `members[0]`, which the source reads unchecked. */
  function GetMember(o: JsonObject, key: string): JsonMember
    requires |o.members| > 0
  {
    match FirstMatch(o.members, key)
    case Some(k) => o.members[k]
    case None => o.members[0]
  }

  /** A member exists exactly when some member carries the name. */
  lemma HasMemberMeans(o: JsonObject, key: string)
    ensures ObjectHasMember(o, key) <==> exists k :: 0 <= k < |o.members| && Matches(o.members[k], key)
  {
    if FirstMatch(o.members, key).Some? {
      assert Matches(o.members[FirstMatch(o.members, key).value], key);
    }
  }

  /** The root lookups ask the root object: `doesMemberExist` on the
      context is `doesMemberExist` on `jsonObjects[1]`, and `operator[]`
      on the context is `operator[]` on it. */
  lemma ContextLookupsAskRoot(doc: Document, key: string)
    ensures ContextHasMember(doc, key) <==>
      exists k :: 0 <= k < |ObjectAt(doc, 1).members| && Matches(ObjectAt(doc, 1).members[k], key)
    ensures ContextGet(doc, key) == ObjectGet(doc, ObjectAt(doc, 1), key)
  {
    HasMemberMeans(ObjectAt(doc, 1), key);
  }

  /** `operator[](key)` follows the FIRST member with the name; with none
      it yields the sentinel object 0. */
  lemma ObjectGetMeans(doc: Document, o: JsonObject, key: string)
    ensures ObjectHasMember(o, key) ==>
      exists k :: 0 <= k < |o.members| && Matches(o.members[k], key)
        && (forall j :: 0 <= j < k ==> !Matches(o.members[j], key))
        && ObjectGet(doc, o, key) == ObjectAt(doc, o.members[k].index)
    ensures !ObjectHasMember(o, key) ==> ObjectGet(doc, o, key) == ObjectAt(doc, 0)
  {
    match FirstMatch(o.members, key)
    case Some(k) =>
      assert Matches(o.members[k], key) && ObjectGet(doc, o, key) == ObjectAt(doc, o.members[k].index);
    case None =>
  }

  /** `getMember(key)` yields the FIRST member with the name; with none it
      falls back to `members[0]`. */
  lemma GetMemberMeans(o: JsonObject, key: string)
    requires |o.members| > 0
    ensures ObjectHasMember(o, key) ==>
      (Matches(GetMember(o, key), key)
       && exists k :: 0 <= k < |o.members| && o.members[k] == GetMember(o, key)
            && forall j :: 0 <= j < k ==> !Matches(o.members[j], key))
    ensures !ObjectHasMember(o, key) ==> GetMember(o, key) == o.members[0]
  {
    match FirstMatch(o.members, key)
    case Some(k) =>
      assert o.members[k] == GetMember(o, key);
    case None =>
  }

  /** `mvJsonObject::operator[](i)`, unchecked in the source. */
  function MemberAt(o: JsonObject, i: int): (m: JsonMember)
    requires 0 <= i < |o.members|
    ensures m in o.members
  {
    o.members[i]
  }

  /** `operator char*`: the stored text up to its NUL. */
  function AsText(doc: Document, m: JsonMember): (r: string)
    ensures NUL !in r && r <= ValueAt(doc, m.index)
  {
    CStr(ValueAt(doc, m.index))
  }

  /** `operator int`: `atoi` of the stored text. */
  function AsInt(doc: Document, m: JsonMember): int {
    Atoi(AsText(doc, m))
  }

  /** `operator mvU32`: the `int` cast to 32 bits. */
  function AsU32(doc: Document, m: JsonMember): (r: nat)
    ensures r < U32_MODULUS
    ensures 0 <= AsInt(doc, m) ==> r == AsInt(doc, m) % U32_MODULUS
    ensures AsInt(doc, m) < 0 && -U32_MODULUS <= AsInt(doc, m) ==> r == AsInt(doc, m) + U32_MODULUS
  {
    U32Of(AsInt(doc, m))
  }

  /** `operator mvJsonObject&`. */
  function AsObject(doc: Document, m: JsonMember): JsonObject {
    ObjectAt(doc, m.index)
  }

  /** Member names are token texts with their NUL, and match the NUL-free
      key they spell. */
  lemma NameWithNulMatches(name: string, typ: JsonType, index: int)
    requires NUL !in name
    ensures Matches(JsonMember(name + [NUL], typ, index), name)
  {
    CStrOfTerminated(name);
    CStrOfPlain(name);
  }

  // ---------------------------------------------------------------------
  // atoi
  // ---------------------------------------------------------------------

  /** `isspace` in the C locale. */
  predicate IsSpace(c: char) {
    c == ' ' || c == '\t' || c == '\n' || c == '\U{B}' || c == '\U{C}' || c == '\r'
  }

  predicate IsDigit(c: char) {
    '0' <= c <= '9'
  }

  function SkipSpace(s: string): (r: string)
    ensures r <= s || (|r| <= |s| && r == s[|s| - |r|..])
    ensures r != [] ==> !IsSpace(r[0])
    decreases |s|
  {
    if s != [] && IsSpace(s[0]) then SkipSpace(s[1..]) else s
  }

  /** The leading run of decimal digits. */
  function LeadingDigits(s: string): (r: string)
    ensures r <= s && forall k :: 0 <= k < |r| ==> IsDigit(r[k])
    ensures |r| < |s| ==> !IsDigit(s[|r|])
    decreases |s|
  {
    if s != [] && IsDigit(s[0]) then [s[0]] + LeadingDigits(s[1..]) else []
  }

  function DigitOf(c: char): (d: nat)
    requires IsDigit(c)
    ensures d < 10
  {
    c as int - '0' as int
  }

  /** The value of a run of decimal digits. */
  function DigitsValue(ds: string): (n: nat)
    requires forall k :: 0 <= k < |ds| ==> IsDigit(ds[k])
    decreases |ds|
  {
    if ds == [] then 0
    else DigitsValue(ds[..|ds| - 1]) * 10 + DigitOf(ds[|ds| - 1])
  }

  /** `atoi(s)`: leading white space, an optional sign, then as many
      digits as there are; anything after them is ignored and no digits
      give 0. */
  function Atoi(s: string): (r: int)
    ensures r < 0 ==> SkipSpace(s) != [] && SkipSpace(s)[0] == '-'
  {
    var t := SkipSpace(s);
    if t != [] && t[0] == '-' then 0 - DigitsValue(LeadingDigits(t[1..]))
    else if t != [] && t[0] == '+' then DigitsValue(LeadingDigits(t[1..]))
    else DigitsValue(LeadingDigits(t))
  }

  /** The decimal text of a natural number, the reference `atoi` is
      checked against. */
  function NatText(n: nat): (r: string)
    ensures r != [] && forall k :: 0 <= k < |r| ==> IsDigit(r[k])
    decreases n
  {
    if n < 10 then [('0' as int + n) as char]
    else NatText(n / 10) + [('0' as int + n % 10) as char]
  }

  /** The decimal text of an integer, with `-` for negative values. */
  function IntText(n: int): (r: string)
    ensures r != []
  {
    if n < 0 then "-" + NatText(-n) else NatText(n)
  }

  lemma {:induction false} NatTextValue(n: nat)
    ensures DigitsValue(NatText(n)) == n
    decreases n
  {
    if n >= 10 {
      NatTextValue(n / 10);
      var r := NatText(n);
      assert r[..|r| - 1] == NatText(n / 10);
    }
  }

  lemma {:induction false} DigitsBeforeStop(ds: string, rest: string)
    requires forall k :: 0 <= k < |ds| ==> IsDigit(ds[k])
    requires rest == [] || !IsDigit(rest[0])
    ensures LeadingDigits(ds + rest) == ds
    decreases |ds|
  {
    if ds != [] {
      DigitsBeforeStop(ds[1..], rest);
      assert (ds + rest)[1..] == ds[1..] + rest;
    } else {
      assert ds + rest == rest;
    }
  }

  /** `atoi` reads back the decimal text of any integer, whatever follows
      it as long as it is not a digit (such as the `.5` of `1.5`, or the
      NUL of a token text). */
  lemma AtoiOfIntText(n: int, rest: string)
    requires rest == [] || !IsDigit(rest[0])
    ensures Atoi(IntText(n) + rest) == n
  {
    if n < 0 {
      AtoiOfNegative(-n, rest);
    } else {
      AtoiOfNatText(n, rest);
    }
  }

  lemma AtoiOfNatText(n: nat, rest: string)
    requires rest == [] || !IsDigit(rest[0])
    ensures Atoi(NatText(n) + rest) == n
  {
    NatTextValue(n);
    DigitsBeforeStop(NatText(n), rest);
    var s := NatText(n) + rest;
    assert IsDigit(s[0]);
    assert SkipSpace(s) == s;
  }

  lemma AtoiOfNegative(m: nat, rest: string)
    requires m > 0 && (rest == [] || !IsDigit(rest[0]))
    ensures Atoi("-" + NatText(m) + rest) == 0 - m
  {
    NatTextValue(m);
    DigitsBeforeStop(NatText(m), rest);
    var s := "-" + NatText(m) + rest;
    assert SkipSpace(s) == s;
    assert s[1..] == NatText(m) + rest;
  }
}
