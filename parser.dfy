/** `ParseJSON` of mvImporter.cpp: strips the raw text, tokenizes it and
    runs a stack machine over the tokens that fills two pools linked by
    integer indices, `jsonObjects` (objects and arrays, with their members)
    and `primitiveValues` (the texts of strings and primitives).
    `jsonObjects[0]` is a sentinel whose single unnamed member points at
    the document root, `jsonObjects[1]`. */
module TreeBuilder {
  import opened Common
  import opened Whitespace
  import opened Tokenizer
  import opened JsonStack

  /** `mvJsonType`. */
  datatype JsonType = TypeNone | TypeString | TypeArray | TypePrimitive | TypeObject

  /** `mvJsonMember` without its back-reference to the context: the name
      (the token text, NUL included), the kind of value and the index of
      the value in one of the two pools. */
  datatype JsonMember = JsonMember(name: string, typ: JsonType, index: int)

  /** `mvJsonMember{}`. */
  const DefaultMember := JsonMember("", TypeNone, -1)

  /** `mvJsonObject` without its back-reference to the context. */
  datatype JsonObject = JsonObject(typ: JsonType, members: seq<JsonMember>)

  /** The pools of an `mvJsonContext`. */
  datatype Document = Document(objects: seq<JsonObject>, values: seq<string>)

  /** The machine's state: the two pools and the two stacks. */
  datatype Builder = Builder(objects: seq<JsonObject>, values: seq<string>,
                             objectStack: StackState, memberStack: StackState)

  /** The sentinel object pushed before the first token. */
  const RootObject := JsonObject(TypeObject, [DefaultMember])

  /** The state before the first token: the sentinel, and 0 on both
      stacks. */
  function Initial(): (b: Builder)
    ensures b.objectStack == Pushed(EmptyStack, 0) && b.memberStack == Pushed(EmptyStack, 0)
  {
    Builder([RootObject], [], StackState([0], INITIAL_SLOTS), StackState([0], INITIAL_SLOTS))
  }

  /** The object on top of the object stack is a valid pool index. */
  predicate HasParent(b: Builder) {
    b.objectStack.items != [] && 0 <= TopOf(b.objectStack) < |b.objects|
  }

  function ParentId(b: Builder): nat
    requires HasParent(b)
  {
    TopOf(b.objectStack)
  }

  /** `o.members[memberId].index = index`. */
  function SetIndex(o: JsonObject, memberId: nat, index: int): (r: JsonObject)
    requires memberId < |o.members|
    ensures r.typ == o.typ && |r.members| == |o.members|
    ensures r.members[memberId] == o.members[memberId].(index := index)
    ensures forall k :: 0 <= k < |o.members| && k != memberId ==> r.members[k] == o.members[k]
  {
    o.(members := o.members[memberId := o.members[memberId].(index := index)])
  }

  /** `o.members.push_back(m)`. */
  function AddMember(o: JsonObject, m: JsonMember): (r: JsonObject)
    ensures r.typ == o.typ && r.members == o.members + [m]
  {
    o.(members := o.members + [m])
  }

  /** `{`: inside an object the member on top of the member stack is
      pointed at the new object and popped; inside an array the new object
      is added as an unnamed PRIMITIVE-typed member. Under any other parent
      the source does not advance and loops forever (`None`). */
  function OnLeftBrace(b: Builder): (r: Option<Builder>)
    ensures r.Some? ==> HasParent(b)
    ensures r.Some? ==>
      && |r.value.objects| == |b.objects| + 1
      && r.value.objects[|b.objects|] == JsonObject(TypeObject, [])
      && r.value.values == b.values
      && r.value.objectStack.items == b.objectStack.items + [|b.objects|]
    ensures r.Some? ==> b.objects[ParentId(b)].typ in {TypeObject, TypeArray}
    ensures r.Some? && b.objects[ParentId(b)].typ == TypeObject ==>
      var parent := b.objects[ParentId(b)];
      && b.memberStack.items != [] && 0 <= TopOf(b.memberStack) < |parent.members| && CanPop(b.memberStack)
      && r.value.objects[..|b.objects|] == b.objects[ParentId(b) := SetIndex(parent, TopOf(b.memberStack), |b.objects|)]
      && r.value.memberStack == Popped(b.memberStack)
    ensures r.Some? && b.objects[ParentId(b)].typ == TypeArray ==>
      var parent := b.objects[ParentId(b)];
      && r.value.objects[..|b.objects|] == b.objects[ParentId(b) := AddMember(parent, JsonMember("", TypePrimitive, |b.objects|))]
      && r.value.memberStack == b.memberStack
  {
    if !HasParent(b) then None
    else
      var parentId := ParentId(b);
      var parent := b.objects[parentId];
      var newIndex := |b.objects|;
      if parent.typ == TypeObject then
        if b.memberStack.items == [] then None
        else
          var memberId := TopOf(b.memberStack);
          if !(0 <= memberId < |parent.members|) || !CanPush(b.objectStack, newIndex) || !CanPop(b.memberStack) then None
          else Some(Builder(b.objects[parentId := SetIndex(parent, memberId, newIndex)] + [JsonObject(TypeObject, [])],
                            b.values, Pushed(b.objectStack, newIndex), Popped(b.memberStack)))
      else if parent.typ == TypeArray then
        if !CanPush(b.objectStack, newIndex) then None
        else Some(Builder(b.objects[parentId := AddMember(parent, JsonMember("", TypePrimitive, newIndex))] + [JsonObject(TypeObject, [])],
                          b.values, Pushed(b.objectStack, newIndex), b.memberStack))
      else None
  }

  /** `[`: a new array is pushed and the member stack popped; no member
      index is written. */
  function OnLeftBracket(b: Builder): (r: Option<Builder>)
    ensures r.Some? <==> CanPush(b.objectStack, |b.objects|) && CanPop(b.memberStack)
    ensures r.Some? ==>
      && r.value.objects == b.objects + [JsonObject(TypeArray, [])]
      && r.value.values == b.values
      && r.value.objectStack.items == b.objectStack.items + [|b.objects|]
      && r.value.memberStack.items == b.memberStack.items[..|b.memberStack.items| - 1]
  {
    var newIndex := |b.objects|;
    if !CanPush(b.objectStack, newIndex) || !CanPop(b.memberStack) then None
    else Some(Builder(b.objects + [JsonObject(TypeArray, [])], b.values, Pushed(b.objectStack, newIndex), Popped(b.memberStack)))
  }

  /** Several `push_back`s on `o.members`. */
  function AddMembers(o: JsonObject, ms: seq<JsonMember>): (r: JsonObject)
    ensures r.typ == o.typ && r.members == o.members + ms
  {
    o.(members := o.members + ms)
  }

  /** `}` and `]`: the object stack is popped. */
  function OnClose(b: Builder): (r: Option<Builder>)
    ensures r.Some? <==> CanPop(b.objectStack)
    ensures r.Some? ==>
      && r.value.objects == b.objects && r.value.values == b.values && r.value.memberStack == b.memberStack
      && r.value.objectStack.items == b.objectStack.items[..|b.objectStack.items| - 1]
  {
    if !CanPop(b.objectStack) then None
    else Some(b.(objectStack := Popped(b.objectStack)))
  }

  /** The member a MEMBER token adds: its type and index come from the
      token two places on (`tokens[i + 2]`), the index being the next free
      slot of the pool the value will go to. */
  function MemberFor(name: string, valueType: TokenType, objectCount: nat, valueCount: nat): (m: JsonMember)
    ensures m.name == name
  {
    if valueType == LeftBracket then JsonMember(name, TypeArray, objectCount)
    else if valueType == LeftBrace then JsonMember(name, TypeObject, objectCount)
    else if valueType == Primitive then JsonMember(name, TypePrimitive, valueCount)
    else if valueType == String then JsonMember(name, TypeString, valueCount)
    else JsonMember(name, TypeNone, -1)
  }

  /** MEMBER: the member is added to the parent and its position pushed on
      the member stack. */
  function OnMember(b: Builder, tokens: seq<Token>, i: nat): (r: Option<Builder>)
    requires i < |tokens|
    ensures i + 2 >= |tokens| ==> r.None?
    ensures r.Some? ==> HasParent(b)
    ensures r.Some? ==> |r.value.objects| == |b.objects|
    ensures r.Some? ==>
      var parent := b.objects[ParentId(b)];
      var parent' := r.value.objects[ParentId(b)];
      && r.value.values == b.values && r.value.objectStack == b.objectStack
      && |parent'.members| == |parent.members| + 1
      && parent'.members[..|parent.members|] == parent.members
      && parent'.members[|parent.members|].name == tokens[i].value
      && r.value.memberStack.items == b.memberStack.items + [|parent.members|]
  {
    if !HasParent(b) || i + 2 >= |tokens| then None
    else
      var parentId := ParentId(b);
      var parent := b.objects[parentId];
      var member := MemberFor(tokens[i].value, tokens[i + 2].typ, |b.objects|, |b.values|);
      var memberId := |parent.members|;
      if !CanPush(b.memberStack, memberId) then None
      else Some(Builder(b.objects[parentId := AddMember(parent, member)], b.values, b.objectStack, Pushed(b.memberStack, memberId)))
  }

  /** STRING and PRIMITIVE: inside an object the text is stored and the
      member on top of the member stack pointed at it and popped; inside
      an array the text is stored and added as an unnamed PRIMITIVE-typed
      member; under any other parent nothing happens. */
  function OnValue(b: Builder, text: string): (r: Option<Builder>)
    ensures r.Some? ==>
      && |r.value.objects| == |b.objects| && r.value.objectStack == b.objectStack
      && (r.value.values == b.values + [text] || r.value == b)
  {
    if !HasParent(b) then None
    else
      var parentId := ParentId(b);
      var parent := b.objects[parentId];
      var valueId := |b.values|;
      if parent.typ == TypeObject then
        if b.memberStack.items == [] then None
        else
          var memberId := TopOf(b.memberStack);
          if !(0 <= memberId < |parent.members|) || !CanPop(b.memberStack) then None
          else Some(Builder(b.objects[parentId := SetIndex(parent, memberId, valueId)], b.values + [text],
                            b.objectStack, Popped(b.memberStack)))
      else if parent.typ == TypeArray then
        Some(Builder(b.objects[parentId := AddMember(parent, JsonMember("", TypePrimitive, valueId))], b.values + [text],
                     b.objectStack, b.memberStack))
      else Some(b)
  }

  /** One turn of the loop on `tokens[i]`; `None` where the source's
      behaviour is undefined (an access out of range) or it never
      advances. */
  function Step(b: Builder, tokens: seq<Token>, i: nat): (r: Option<Builder>)
    requires i < |tokens|
    ensures tokens[i].typ in {Comma, Colon, NoToken} ==> r == Some(b)
  {
    match tokens[i].typ
    case LeftBrace => OnLeftBrace(b)
    case LeftBracket => OnLeftBracket(b)
    case RightBrace => OnClose(b)
    case RightBracket => OnClose(b)
    case Member => OnMember(b, tokens, i)
    case String => OnValue(b, tokens[i].value)
    case Primitive => OnValue(b, tokens[i].value)
    case _ => Some(b)
  }

  /** The loop over `tokens[i..j]`. */
  function Run(b: Builder, tokens: seq<Token>, i: nat, j: nat): Option<Builder>
    requires i <= j <= |tokens|
    decreases j - i
  {
    if i == j then Some(b)
    else match Step(b, tokens, i)
      case None => None
      case Some(b') => Run(b', tokens, i + 1, j)
  }

  /** All tokens, then the final pop of the object stack. */
  function ParseTokens(tokens: seq<Token>): Option<Document> {
    match Run(Initial(), tokens, 0, |tokens|)
    case Some(b) => if CanPop(b.objectStack) then Some(Document(b.objects, b.values)) else None
    case None => None
  }

  /** The text the tokenizer sees: the stripped characters with the last
      one lost to the terminating NUL. */
  function Stripped(s: seq<char>): seq<char>
    requires Keep(s) != []
  {
    Keep(s)[..|Keep(s)| - 1]
  }

  /** The document `ParseJSON(s, |s|)` builds; `None` where the source's
      behaviour is undefined. A NUL among the `size` characters leaves the
      stripped text unterminated, and a text with nothing kept makes the
      stripper write before its buffer. */
  function ParseText(s: seq<char>): Option<Document> {
    if NUL in s || Keep(s) == [] then None
    else ParseTokens(Tokenize(Stripped(s)))
  }

  // ---------------------------------------------------------------------
  // Properties of the machine
  // ---------------------------------------------------------------------

  /** Both pools only grow: no object is removed and the stored texts are
      never changed. */
  predicate Grows(b: Builder, b': Builder) {
    |b.objects| <= |b'.objects| && b.values <= b'.values
  }

  lemma StepGrows(b: Builder, tokens: seq<Token>, i: nat)
    requires i < |tokens| && Step(b, tokens, i).Some?
    ensures Grows(b, Step(b, tokens, i).value)
  {
  }

  lemma {:induction false} RunGrows(b: Builder, tokens: seq<Token>, i: nat, j: nat)
    requires i <= j <= |tokens| && Run(b, tokens, i, j).Some?
    ensures Grows(b, Run(b, tokens, i, j).value)
    decreases j - i
  {
    if i < j {
      var b' := Step(b, tokens, i).value;
      StepGrows(b, tokens, i);
      RunGrows(b', tokens, i + 1, j);
    }
  }

  /** A leading `{` creates the root as `jsonObjects[1]` and points the
      sentinel's member at it. */
  lemma RootAfterBrace(tokens: seq<Token>)
    requires tokens != [] && tokens[0].typ == LeftBrace
    ensures Step(Initial(), tokens, 0).Some?
    ensures var b := Step(Initial(), tokens, 0).value;
      && |b.objects| == 2
      && b.objects[0] == JsonObject(TypeObject, [JsonMember("", TypeNone, 1)])
      && b.objects[1] == JsonObject(TypeObject, [])
      && b.objectStack.items == [0, 1] && b.memberStack.items == []
  {
    var b0 := Initial();
    assert HasParent(b0) && ParentId(b0) == 0 && TopOf(b0.memberStack) == 0;
    assert Step(b0, tokens, 0) == OnLeftBrace(b0);
  }

  /** The state after a MEMBER token and its colon, inside an object. */
  lemma AfterMemberColon(b: Builder, tokens: seq<Token>, i: nat)
    requires i + 2 < |tokens| && tokens[i].typ == Member && tokens[i + 1].typ == Colon
    requires HasParent(b) && Run(b, tokens, i, i + 2).Some?
    ensures var b2 := Run(b, tokens, i, i + 2).value;
      var parent := b.objects[ParentId(b)];
      && b2.objects == b.objects[ParentId(b) := AddMember(parent, MemberFor(tokens[i].value, tokens[i + 2].typ, |b.objects|, |b.values|))]
      && b2.values == b.values && b2.objectStack == b.objectStack
      && b2.memberStack == Pushed(b.memberStack, |parent.members|)
  {
    var b1 := Step(b, tokens, i).value;
    assert Run(b, tokens, i, i + 2) == Run(b1, tokens, i + 1, i + 2);
    assert Step(b1, tokens, i + 1) == Some(b1);
  }

  /** The index a MEMBER token pre-sets is the one its value receives: an
      object or array value is created at that position of the object
      pool, a string or primitive value is stored at that position of the
      value pool, and the member keeps the index. For `[` the pre-set index
      is the only one the member ever gets. */
  lemma MemberPresetMatches(b: Builder, tokens: seq<Token>, i: nat)
    requires i + 2 < |tokens| && tokens[i].typ == Member && tokens[i + 1].typ == Colon
    requires HasParent(b) && b.objects[ParentId(b)].typ == TypeObject
    requires Run(b, tokens, i, i + 3).Some?
    ensures var b3 := Run(b, tokens, i, i + 3).value;
      var memberId := |b.objects[ParentId(b)].members|;
      && ParentId(b) < |b3.objects| && memberId < |b3.objects[ParentId(b)].members|
      && var m := b3.objects[ParentId(b)].members[memberId];
      && m.name == tokens[i].value
      && (tokens[i + 2].typ == LeftBrace ==>
            m.typ == TypeObject && m.index == |b.objects| && |b3.objects| == m.index + 1
            && b3.objects[m.index] == JsonObject(TypeObject, []))
      && (tokens[i + 2].typ == LeftBracket ==>
            m.typ == TypeArray && m.index == |b.objects| && |b3.objects| == m.index + 1
            && b3.objects[m.index] == JsonObject(TypeArray, []))
      && (tokens[i + 2].typ == String ==>
            m.typ == TypeString && m.index == |b.values| && |b3.values| == m.index + 1
            && b3.values[m.index] == tokens[i + 2].value)
      && (tokens[i + 2].typ == Primitive ==>
            m.typ == TypePrimitive && m.index == |b.values| && |b3.values| == m.index + 1
            && b3.values[m.index] == tokens[i + 2].value)
  {
    RunSplit(b, tokens, i, i + 2, i + 3);
    AfterMemberColon(b, tokens, i);
    var b2 := Run(b, tokens, i, i + 2).value;
    var parentId := ParentId(b);
    var memberId := |b.objects[parentId].members|;
    assert ParentId(b2) == parentId;
    assert Run(b2, tokens, i + 2, i + 3) == Step(b2, tokens, i + 2);
    PushThenTop(b.memberStack, memberId);
  }

  /** An object element of an array: `{` under an array parent succeeds
      exactly when the object stack can take the new index, appends one
      unnamed PRIMITIVE-typed member naming the new object, creates that
      object empty at the index the member names, and makes it the parent
      of what follows. No other object and no stored text changes. */
  lemma ArrayObjectElement(b: Builder, tokens: seq<Token>, i: nat)
    requires i < |tokens| && tokens[i].typ == LeftBrace
    requires HasParent(b) && b.objects[ParentId(b)].typ == TypeArray
    ensures Step(b, tokens, i).Some? <==> CanPush(b.objectStack, |b.objects|)
    ensures Step(b, tokens, i).Some? ==>
      var b' := Step(b, tokens, i).value;
      var parent := b.objects[ParentId(b)];
      var m := JsonMember("", TypePrimitive, |b.objects|);
      && ParentId(b) < |b'.objects| && b'.objects[ParentId(b)] == AddMember(parent, m)
      && |b'.objects| == m.index + 1 && b'.objects[m.index] == JsonObject(TypeObject, [])
      && (forall k :: 0 <= k < |b.objects| && k != ParentId(b) ==> b'.objects[k] == b.objects[k])
      && b'.values == b.values && b'.memberStack == b.memberStack
      && HasParent(b') && ParentId(b') == m.index
  {
    assert Step(b, tokens, i) == OnLeftBrace(b);
    if Step(b, tokens, i).Some? {
      var b' := Step(b, tokens, i).value;
      forall k | 0 <= k < |b.objects|
        ensures b'.objects[k] == b'.objects[..|b.objects|][k]
      {
      }
    }
  }

  lemma {:induction false} RunSplit(b: Builder, tokens: seq<Token>, i: nat, j: nat, k: nat)
    requires i <= j <= k <= |tokens| && Run(b, tokens, i, k).Some?
    ensures Run(b, tokens, i, j).Some?
    ensures Run(b, tokens, i, k) == Run(Run(b, tokens, i, j).value, tokens, j, k)
    decreases j - i
  {
    if i < j {
      RunSplit(Step(b, tokens, i).value, tokens, i + 1, j, k);
    }
  }

  /** The texts of the string and primitive tokens among `tokens`. */
  function ValueTexts(tokens: seq<Token>): (r: seq<string>)
    ensures |r| <= |tokens|
  {
    if tokens == [] then []
    else
      var init, t := tokens[..|tokens| - 1], tokens[|tokens| - 1];
      ValueTexts(init) + (if t.typ == String || t.typ == Primitive then [t.value] else [])
  }

  /** Unnamed PRIMITIVE-typed members pointing at `count` consecutive
      value slots from `first`. */
  function ElementMembers(first: nat, count: nat): (r: seq<JsonMember>)
    ensures |r| == count
    ensures forall k :: 0 <= k < count ==> r[k] == JsonMember("", TypePrimitive, first + k)
  {
    seq(count, k => JsonMember("", TypePrimitive, first + k))
  }

  /** A run of strings, primitives and commas inside an array: the texts
      are stored in token order and each becomes one unnamed member, in the
      same order, pointing at its text. */
  lemma {:induction false} ArrayElementsInOrder(b: Builder, tokens: seq<Token>, i: nat, j: nat)
    requires i <= j <= |tokens|
    requires HasParent(b) && b.objects[ParentId(b)].typ == TypeArray
    requires forall k :: i <= k < j ==> tokens[k].typ in {String, Primitive, Comma}
    ensures Run(b, tokens, i, j).Some?
    ensures var b' := Run(b, tokens, i, j).value;
      var texts := ValueTexts(tokens[i..j]);
      && b'.values == b.values + texts
      && b'.objects == b.objects[ParentId(b) := AddMembers(b.objects[ParentId(b)], ElementMembers(|b.values|, |texts|))]
      && b'.objectStack == b.objectStack && b'.memberStack == b.memberStack
    decreases j - i
  {
    if i < j {
      ArrayElementsInOrder(b, tokens, i, j - 1);
      RunSplit2(b, tokens, i, j - 1);
      var b1 := Run(b, tokens, i, j - 1).value;
      ArrayElementStep(b, b1, tokens, i, j - 1);
    } else {
      var p := ParentId(b);
      assert tokens[i..j] == [];
      assert AddMembers(b.objects[p], ElementMembers(|b.values|, 0)) == b.objects[p];
      assert b.objects[p := b.objects[p]] == b.objects;
    }
  }

  /** Run to `j + 1` is run to `j` then one step. */
  lemma {:induction false} RunSplit2(b: Builder, tokens: seq<Token>, i: nat, j: nat)
    requires i <= j < |tokens| && Run(b, tokens, i, j).Some?
    ensures Step(Run(b, tokens, i, j).value, tokens, j).None? ==> Run(b, tokens, i, j + 1).None?
    ensures Step(Run(b, tokens, i, j).value, tokens, j).Some? ==>
      Run(b, tokens, i, j + 1) == Step(Run(b, tokens, i, j).value, tokens, j)
    decreases j - i
  {
    if i < j {
      RunSplit2(Step(b, tokens, i).value, tokens, i + 1, j);
    }
  }

  /** One more element token after a run of elements. */
  lemma ArrayElementStep(b: Builder, b1: Builder, tokens: seq<Token>, i: nat, j: nat)
    requires i <= j < |tokens|
    requires HasParent(b) && b.objects[ParentId(b)].typ == TypeArray
    requires tokens[j].typ in {String, Primitive, Comma}
    requires var texts := ValueTexts(tokens[i..j]);
      && b1.values == b.values + texts
      && b1.objects == b.objects[ParentId(b) := AddMembers(b.objects[ParentId(b)], ElementMembers(|b.values|, |texts|))]
      && b1.objectStack == b.objectStack && b1.memberStack == b.memberStack
    ensures Step(b1, tokens, j).Some?
    ensures var b' := Step(b1, tokens, j).value;
      var texts := ValueTexts(tokens[i..j + 1]);
      && b'.values == b.values + texts
      && b'.objects == b.objects[ParentId(b) := AddMembers(b.objects[ParentId(b)], ElementMembers(|b.values|, |texts|))]
      && b'.objectStack == b.objectStack && b'.memberStack == b.memberStack
  {
    var texts := ValueTexts(tokens[i..j]);
    assert tokens[i..j + 1][..j - i] == tokens[i..j];
    var p := ParentId(b);
    var parent := b.objects[p];
    var es := ElementMembers(|b.values|, |texts|);
    if tokens[j].typ != Comma {
      assert ValueTexts(tokens[i..j + 1]) == texts + [tokens[j].value];
      var e := JsonMember("", TypePrimitive, |b.values| + |texts|);
      assert ElementMembers(|b.values|, |texts| + 1) == es + [e];
      assert AddMember(AddMembers(parent, es), e) == AddMembers(parent, es + [e]);
      assert b1.objects[p := AddMember(b1.objects[p], e)] == b.objects[p := AddMembers(parent, es + [e])];
    } else {
      assert ValueTexts(tokens[i..j + 1]) == texts;
    }
  }

  // ---------------------------------------------------------------------
  // The loop
  // ---------------------------------------------------------------------

  /** `mvJsonContext`: the two pools. */
  class JsonContext {
    var primitiveValues: seq<string>
    var jsonObjects: seq<JsonObject>

    constructor()
      ensures primitiveValues == [] && jsonObjects == []
    {
      primitiveValues := [];
      jsonObjects := [];
    }
  }

  /** The machine state held by the context and the two stacks. */
  ghost function State(context: JsonContext, objectStack: MvStack, memberStack: MvStack): Builder
    reads context, objectStack, memberStack
    requires objectStack.Valid() && memberStack.Valid()
  {
    Builder(context.jsonObjects, context.primitiveValues, objectStack.State(), memberStack.State())
  }

  /** The buffer the tokenizer reads after the stripper has run holds the
      stripped text terminated by NUL. */
  lemma WrittenText(s: seq<char>, rest: seq<char>)
    requires NUL !in s && Keep(s) != []
    ensures NUL in Written(s) + rest && CStr(Written(s) + rest) == Stripped(s)
  {
    KeepDrawsFrom(s);
    assert NUL !in Stripped(s) by {
      forall c | c in Stripped(s) ensures c != NUL {
        assert c in Keep(s);
      }
    }
    CStrOfPadded(Stripped(s), rest);
    assert Written(s) + rest == Stripped(s) + [NUL] + rest;
  }

  /** `ParseJSON(rawData, size)`: the pools of the returned context are
      the document of the first `size` characters. */
  method ParseJson(rawData: array<char>, size: nat) returns (context: JsonContext)
    requires 0 < size <= rawData.Length
    requires ParseText(rawData[..size]).Some?
    ensures fresh(context)
    ensures Document(context.jsonObjects, context.primitiveValues) == ParseText(rawData[..size]).value
  {
    ghost var s := rawData[..size];
    context := new JsonContext();
    var jsonObjectStack := new MvStack();
    var jsonMemberStack := new MvStack();

    var spacesRemoved := new char[size];
    ghost var garbage := spacesRemoved[..];
    RemoveWhiteSpace(rawData, spacesRemoved, size);
    WrittenText(s, garbage[|Written(s)|..]);

    var tokens := ParseForTokens(spacesRemoved);

    var rootObject := JsonObject(TypeObject, [DefaultMember]);
    context.jsonObjects := context.jsonObjects + [rootObject];
    jsonObjectStack.Push(0);
    jsonMemberStack.Push(0);
    assert State(context, jsonObjectStack, jsonMemberStack) == Initial();

    ParseTokensInto(context, jsonObjectStack, jsonMemberStack, tokens);
    ParsedText(s, tokens, State(context, jsonObjectStack, jsonMemberStack));
    jsonObjectStack.Pop();
  }

  /** The `while (true)` loop over the tokens. */
  method ParseTokensInto(context: JsonContext, objectStack: MvStack, memberStack: MvStack, tokens: seq<Token>)
    requires objectStack != memberStack && objectStack.Valid() && memberStack.Valid()
    requires Run(State(context, objectStack, memberStack), tokens, 0, |tokens|).Some?
    modifies context, objectStack, memberStack
    ensures objectStack.Valid() && memberStack.Valid()
    ensures Run(old(State(context, objectStack, memberStack)), tokens, 0, |tokens|) ==
      Some(State(context, objectStack, memberStack))
  {
    ghost var start := State(context, objectStack, memberStack);
    var i := 0;
    while true
      invariant 0 <= i <= |tokens|
      invariant objectStack.Valid() && memberStack.Valid()
      invariant Run(State(context, objectStack, memberStack), tokens, i, |tokens|) == Run(start, tokens, 0, |tokens|)
      decreases |tokens| - i
    {
      if i >= |tokens| {
        break;
      }
      ParseToken(context, objectStack, memberStack, tokens, i);
      i := i + 1;
    }
  }

  /** The state after the last token is the one `ParseText` finishes
      with. */
  lemma ParsedText(s: seq<char>, tokens: seq<Token>, b: Builder)
    requires ParseText(s).Some? && tokens == Tokenize(Stripped(s))
    requires Run(Initial(), tokens, 0, |tokens|) == Some(b)
    ensures CanPop(b.objectStack) && ParseText(s).value == Document(b.objects, b.values)
  {
  }

  /** The `switch` on `tokens[i].type`. */
  method ParseToken(context: JsonContext, objectStack: MvStack, memberStack: MvStack, tokens: seq<Token>, i: nat)
    requires objectStack != memberStack && objectStack.Valid() && memberStack.Valid()
    requires i < |tokens| && Step(State(context, objectStack, memberStack), tokens, i).Some?
    modifies context, objectStack, memberStack
    ensures objectStack.Valid() && memberStack.Valid()
    ensures State(context, objectStack, memberStack) ==
      Step(old(State(context, objectStack, memberStack)), tokens, i).value
  {
    match tokens[i].typ
    case LeftBrace => ParseLeftBrace(context, objectStack, memberStack);
    case LeftBracket => ParseLeftBracket(context, objectStack, memberStack);
    case RightBrace => ParseClose(objectStack);
    case RightBracket => ParseClose(objectStack);
    case Member => ParseMember(context, objectStack, memberStack, tokens, i);
    case String => ParseValue(context, objectStack, memberStack, tokens[i].value);
    case Primitive => ParseValue(context, objectStack, memberStack, tokens[i].value);
    case _ =>
  }

  method ParseLeftBrace(context: JsonContext, objectStack: MvStack, memberStack: MvStack)
    requires objectStack != memberStack && objectStack.Valid() && memberStack.Valid()
    requires OnLeftBrace(State(context, objectStack, memberStack)).Some?
    modifies context, objectStack, memberStack
    ensures objectStack.Valid() && memberStack.Valid()
    ensures State(context, objectStack, memberStack) ==
      OnLeftBrace(old(State(context, objectStack, memberStack))).value
  {
    var parentId := objectStack.Top();
    var parent := context.jsonObjects[parentId];
    if parent.typ == TypeObject {
      var jobject := JsonObject(TypeObject, []);
      var newObjectIndex := |context.jsonObjects|;
      var memberId := memberStack.Top();
      parent := parent.(members := parent.members[memberId := parent.members[memberId].(index := newObjectIndex)]);
      context.jsonObjects := context.jsonObjects[parentId := parent];
      context.jsonObjects := context.jsonObjects + [jobject];
      objectStack.Push(newObjectIndex);
      var empty := memberStack.Empty();
      if !empty {
        memberStack.Pop();
      }
    } else {
      // an array; under any other parent the source never advances
      var jobject := JsonObject(TypeObject, []);
      var newObjectIndex := |context.jsonObjects|;
      var member := JsonMember("", TypePrimitive, newObjectIndex);
      parent := parent.(members := parent.members + [member]);
      context.jsonObjects := context.jsonObjects[parentId := parent];
      context.jsonObjects := context.jsonObjects + [jobject];
      objectStack.Push(newObjectIndex);
    }
  }

  method ParseLeftBracket(context: JsonContext, objectStack: MvStack, memberStack: MvStack)
    requires objectStack != memberStack && objectStack.Valid() && memberStack.Valid()
    requires OnLeftBracket(State(context, objectStack, memberStack)).Some?
    modifies context, objectStack, memberStack
    ensures objectStack.Valid() && memberStack.Valid()
    ensures State(context, objectStack, memberStack) ==
      OnLeftBracket(old(State(context, objectStack, memberStack))).value
  {
    var jobject := JsonObject(TypeArray, []);
    var newObjectIndex := |context.jsonObjects|;
    context.jsonObjects := context.jsonObjects + [jobject];
    objectStack.Push(newObjectIndex);
    memberStack.Pop();
  }

  method ParseClose(objectStack: MvStack)
    requires objectStack.Valid() && CanPop(objectStack.State())
    modifies objectStack
    ensures objectStack.Valid() && objectStack.State() == Popped(old(objectStack.State()))
  {
    var finished := objectStack.Top();
    objectStack.Pop();
  }

  method ParseMember(context: JsonContext, objectStack: MvStack, memberStack: MvStack, tokens: seq<Token>, i: nat)
    requires objectStack != memberStack && objectStack.Valid() && memberStack.Valid()
    requires i < |tokens| && OnMember(State(context, objectStack, memberStack), tokens, i).Some?
    modifies context, memberStack
    ensures objectStack.Valid() && memberStack.Valid()
    ensures State(context, objectStack, memberStack) ==
      OnMember(old(State(context, objectStack, memberStack)), tokens, i).value
  {
    var parentId := objectStack.Top();
    var parent := context.jsonObjects[parentId];
    var member := DefaultMember.(name := tokens[i].value);
    var valueType := tokens[i + 2].typ;
    if valueType == LeftBracket {
      member := member.(index := |context.jsonObjects|, typ := TypeArray);
    } else if valueType == LeftBrace {
      member := member.(index := |context.jsonObjects|, typ := TypeObject);
    } else if valueType == Primitive {
      member := member.(index := |context.primitiveValues|, typ := TypePrimitive);
    } else if valueType == String {
      member := member.(index := |context.primitiveValues|, typ := TypeString);
    }
    var memberId := |parent.members|;
    parent := parent.(members := parent.members + [member]);
    context.jsonObjects := context.jsonObjects[parentId := parent];
    memberStack.Push(memberId);
  }

  method ParseValue(context: JsonContext, objectStack: MvStack, memberStack: MvStack, text: string)
    requires objectStack != memberStack && objectStack.Valid() && memberStack.Valid()
    requires OnValue(State(context, objectStack, memberStack), text).Some?
    modifies context, memberStack
    ensures objectStack.Valid() && memberStack.Valid()
    ensures State(context, objectStack, memberStack) ==
      OnValue(old(State(context, objectStack, memberStack)), text).value
  {
    var parentId := objectStack.Top();
    var parent := context.jsonObjects[parentId];
    if parent.typ == TypeObject {
      var valueId := |context.primitiveValues|;
      context.primitiveValues := context.primitiveValues + [text];
      var memberId := memberStack.Top();
      parent := parent.(members := parent.members[memberId := parent.members[memberId].(index := valueId)]);
      context.jsonObjects := context.jsonObjects[parentId := parent];
      memberStack.Pop();
    } else if parent.typ == TypeArray {
      var valueId := |context.primitiveValues|;
      context.primitiveValues := context.primitiveValues + [text];
      var member := JsonMember("", TypePrimitive, valueId);
      parent := parent.(members := parent.members + [member]);
      context.jsonObjects := context.jsonObjects[parentId := parent];
    }
  }
}
