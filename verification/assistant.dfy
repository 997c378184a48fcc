/**
 `flattenContent` and `extractAssistantText`: how the text shown to the user is picked out of a
 chat-completion response body. Extraction never fails: every missing member, wrong type or
 throwing accessor ends in the raw body.
 */
module AssistantText {
  import opened Options
  import opened Text
  import opened JsonValue

  /** What one element of a content array contributes: its text, nothing, or an exception
      (an object whose `text` member is not a string). */
  datatype Piece = Contributes(text: string) | Skipped | Throws

  /** The `mapNotNull` step of `flattenContent` for one array element. */
  function ItemPiece(item: Json): (p: Piece)
    ensures IsPrimitive(item) ==> p == Contributes(PrimitiveText(item))
    ensures item.JNull? || item.JArray? ==> p == Skipped
    ensures item.JObject? ==>
      (p.Skipped? <==> "text" !in item.fields)
      && (p.Throws? <==> "text" in item.fields && AsString(item.fields["text"]).None?)
    ensures item.JObject? && "text" in item.fields && AsString(item.fields["text"]).Some? ==>
      p == Contributes(AsString(item.fields["text"]).value)
  {
    match item
    case JObject(f) =>
      if "text" !in f then Skipped
      else if AsString(f["text"]).Some? then Contributes(AsString(f["text"]).value)
      else Throws
    case JNull => Skipped
    case JArray(_) => Skipped
    case _ => Contributes(PrimitiveText(item))
  }

  /** The texts of the contributing elements in order, or `None` if any element throws. */
  function Pieces(items: seq<Json>): (r: Option<seq<string>>)
    ensures r.Some? <==> forall i :: 0 <= i < |items| ==> !ItemPiece(items[i]).Throws?
    ensures r.Some? ==> |r.value| <= |items|
    ensures r.Some? && (forall i :: 0 <= i < |items| ==> ItemPiece(items[i]).Contributes?) ==>
      |r.value| == |items| && forall i :: 0 <= i < |items| ==> r.value[i] == ItemPiece(items[i]).text
    ensures r.Some? && (forall i :: 0 <= i < |items| ==> ItemPiece(items[i]).Skipped?) ==> r.value == []
  {
    if items == [] then Some([])
    else
      match (ItemPiece(items[0]), Pieces(items[1..]))
      case (Throws, _) => None
      case (_, None) => None
      case (Skipped, Some(rest)) => Some(rest)
      case (Contributes(t), Some(rest)) => Some([t] + rest)
  }

  /** The pieces of two adjacent runs of elements are the pieces of each run, in order. */
  lemma {:induction false} PiecesAppend(a: seq<Json>, b: seq<Json>)
    ensures Pieces(a + b) ==
      (if Pieces(a).Some? && Pieces(b).Some? then Some(Pieces(a).value + Pieces(b).value) else None)
  {
    if a == [] {
      assert a + b == b;
      assert Pieces(a) == Some([]);
      if Pieces(b).Some? {
        assert [] + Pieces(b).value == Pieces(b).value;
      }
    } else {
      assert (a + b)[0] == a[0];
      assert (a + b)[1..] == a[1..] + b;
      PiecesAppend(a[1..], b);
      match ItemPiece(a[0])
      case Contributes(t) => {
        if Pieces(a[1..]).Some? && Pieces(b).Some? {
          assert [t] + (Pieces(a[1..]).value + Pieces(b).value)
              == ([t] + Pieces(a[1..]).value) + Pieces(b).value;
        }
      }
      case Skipped => {}
      case Throws => {}
    }
  }

  /** `flattenContent`. `None` is the exception an array element with a non-string `text`
      raises; otherwise the result is trimmed text: empty for a missing member, `null` or an
      object, the primitive's text, or the array's contributions joined with LF. */
  function Flatten(element: Option<Json>): (r: Option<string>)
    ensures r.Some? ==> IsTrimmed(r.value)
    ensures r.None? <==> element.Some? && element.value.JArray? && Pieces(element.value.items).None?
    ensures element.None? || element == Some(JNull) || (element.Some? && element.value.JObject?) ==>
      r == Some([])
    ensures element.Some? && IsPrimitive(element.value) ==> r == Some(Trim(PrimitiveText(element.value)))
    ensures element.Some? && element.value.JArray? && Pieces(element.value.items).Some? ==>
      r == Some(Trim(Join(Pieces(element.value.items).value, "\n")))
  {
    if element.None? then Some([])
    else
      match element.value
      case JNull => Some([])
      case JObject(_) => Some([])
      case JArray(items) =>
        (match Pieces(items)
         case None => None
         case Some(parts) => Some(Trim(Join(parts, "\n"))))
      case _ => Some(Trim(PrimitiveText(element.value)))
  }

  /** Where the walk to `choices[0].message` ends: at the message object, at a Kotlin `null`
      (a missing member or an empty array, which the `?.` chain passes along), or at an
      accessor that throws (a value of the wrong type). */
  datatype Lookup = Found(message: map<string, Json>) | Missing | Threw

  /** `root.asJsonObject.getAsJsonArray("choices")?.firstOrNull()?.asJsonObject?.getAsJsonObject("message")`. */
  function FindMessage(root: Json): (l: Lookup)
    ensures l.Found? ==>
      root.JObject? && "choices" in root.fields && root.fields["choices"].JArray?
      && |root.fields["choices"].items| > 0
      && root.fields["choices"].items[0].JObject?
      && "message" in root.fields["choices"].items[0].fields
      && root.fields["choices"].items[0].fields["message"] == JObject(l.message)
    ensures (&& root.JObject? && "choices" in root.fields && root.fields["choices"].JArray?
             && |root.fields["choices"].items| > 0
             && root.fields["choices"].items[0].JObject?
             && "message" in root.fields["choices"].items[0].fields
             && root.fields["choices"].items[0].fields["message"].JObject?) ==>
      l == Found(root.fields["choices"].items[0].fields["message"].fields)
  {
    if !root.JObject? then Threw
    else if "choices" !in root.fields then Missing
    else
      var choices := root.fields["choices"];
      if !choices.JArray? then Threw
      else if choices.items == [] then Missing
      else
        var first := choices.items[0];
        if !first.JObject? then Threw
        else if "message" !in first.fields then Missing
        else
          var message := first.fields["message"];
          if !message.JObject? then Threw
          else Found(message.fields)
  }

  /** The four-way rule once both texts are flattened (both are already trimmed, so
      "not blank" means "not empty"). */
  function Choose(body: string, reasoning: string, content: string): (r: string)
    ensures !IsBlank(reasoning) && !IsBlank(content) ==>
      r == "Reasoning:\n" + reasoning + "\n\nAnswer:\n" + content
    ensures IsBlank(reasoning) && !IsBlank(content) ==> r == content
    ensures !IsBlank(reasoning) && IsBlank(content) ==> r == reasoning
    ensures IsBlank(reasoning) && IsBlank(content) ==> r == body
  {
    if !IsBlank(reasoning) && !IsBlank(content) then "Reasoning:\n" + reasoning + "\n\nAnswer:\n" + content
    else if !IsBlank(content) then content
    else if !IsBlank(reasoning) then reasoning
    else body
  }

  /** `extractAssistantText`: the text shown for a 2xx response. */
  function Extract(body: string, parsed: Parse): (r: string)
    ensures r == body || !IsBlank(r)
  {
    match parsed
    case ParseFailed => body
    case Parsed(root) =>
      match FindMessage(root)
      case Missing => body
      case Threw => body
      case Found(message) =>
        var reasoning := Flatten(Get(message, "reasoning_content"));
        var content := Flatten(Get(message, "content"));
        if reasoning.None? || content.None? then body
        else
          assert !IsBlank("Reasoning:\n" + reasoning.value + "\n\nAnswer:\n" + content.value) by {
            assert !IsWhitespace(("Reasoning:\n" + reasoning.value + "\n\nAnswer:\n" + content.value)[0]);
          }
          Choose(body, reasoning.value, content.value)
  }

  /** Every structural or type failure falls back to the raw body. */
  lemma ExtractFallsBack(body: string, root: Json)
    ensures Extract(body, ParseFailed) == body
    ensures !root.JObject? ==> Extract(body, Parsed(root)) == body
    ensures root.JObject? && "choices" !in root.fields ==> Extract(body, Parsed(root)) == body
    ensures root.JObject? && "choices" in root.fields && !root.fields["choices"].JArray? ==>
      Extract(body, Parsed(root)) == body
    ensures root.JObject? && "choices" in root.fields && root.fields["choices"] == JArray([]) ==>
      Extract(body, Parsed(root)) == body
    ensures FindMessage(root).Missing? || FindMessage(root).Threw? ==> Extract(body, Parsed(root)) == body
  {
  }

  /** Inside a found message, a content or reasoning array with a non-string `text` falls back
      to the raw body too; so does a message whose two texts are both blank. */
  lemma ExtractFallsBackInMessage(body: string, message: map<string, Json>, root: Json)
    requires FindMessage(root) == Found(message)
    ensures Flatten(Get(message, "content")).None? ==> Extract(body, Parsed(root)) == body
    ensures Flatten(Get(message, "reasoning_content")).None? ==> Extract(body, Parsed(root)) == body
    ensures Flatten(Get(message, "content")) == Some([]) && Flatten(Get(message, "reasoning_content")) == Some([]) ==>
      Extract(body, Parsed(root)) == body
  {
  }

  /** Whatever else the response carries (`id`, `usage`, further choices, `index`, `role`,
      `finish_reason`), once the walk finds the message and both of its texts flatten, the
      shown text is the four-way choice between them. */
  lemma ExtractFound(body: string, root: Json, message: map<string, Json>)
    requires FindMessage(root) == Found(message)
    requires Flatten(Get(message, "reasoning_content")).Some? && Flatten(Get(message, "content")).Some?
    ensures Extract(body, Parsed(root)) ==
      Choose(body, Flatten(Get(message, "reasoning_content")).value, Flatten(Get(message, "content")).value)
  {
  }

  /** A response as servers send it, with members the walk ignores around the message. */
  lemma ExtractFullResponse(body: string, answer: string)
    requires !IsBlank(answer)
    ensures var message := map["role" := JString("assistant"), "content" := JString(answer)];
      var choice := JObject(map["index" := JNumber("0"), "message" := JObject(message),
                                "finish_reason" := JString("stop")]);
      var root := JObject(map["id" := JString("chatcmpl-1"), "choices" := JArray([choice]),
                              "usage" := JObject(map["total_tokens" := JNumber("42")])]);
      Extract(body, Parsed(root)) == Trim(answer)
  {
    var message := map["role" := JString("assistant"), "content" := JString(answer)];
    var choice := JObject(map["index" := JNumber("0"), "message" := JObject(message),
                              "finish_reason" := JString("stop")]);
    var root := JObject(map["id" := JString("chatcmpl-1"), "choices" := JArray([choice]),
                            "usage" := JObject(map["total_tokens" := JNumber("42")])]);
    assert FindMessage(root) == Found(message);
    assert Get(message, "reasoning_content") == None;
    FlattenString(answer);
    ExtractFound(body, root, message);
  }

  /** The response shape a chat-completion server sends: one choice whose message carries the
      given `reasoning_content` and `content` members (each left out when `None`). */
  function Response(reasoning: Option<Json>, content: Option<Json>): Json {
    var r := if reasoning.Some? then map["reasoning_content" := reasoning.value] else map[];
    var m := if content.Some? then r["content" := content.value] else r;
    JObject(map["choices" := JArray([JObject(map["message" := JObject(m)])])])
  }

  /** On a well-formed response the walk finds the message that `Response` put there. */
  lemma FindsResponseMessage(reasoning: Option<Json>, content: Option<Json>)
    ensures FindMessage(Response(reasoning, content)).Found?
    ensures var m := FindMessage(Response(reasoning, content)).message;
      Get(m, "reasoning_content") == reasoning && Get(m, "content") == content
  {
  }

  /** On a well-formed response whose two members flatten without an exception, the shown
      text is the four-way choice between their flattened texts. */
  lemma ExtractOfResponse(body: string, reasoning: Option<Json>, content: Option<Json>)
    requires Flatten(reasoning).Some? && Flatten(content).Some?
    ensures Extract(body, Parsed(Response(reasoning, content)))
      == Choose(body, Flatten(reasoning).value, Flatten(content).value)
  {
    FindsResponseMessage(reasoning, content);
  }

  /** A string member flattens to its trimmed text, which is blank exactly when the string is. */
  lemma FlattenString(s: string)
    ensures Flatten(Some(JString(s))) == Some(Trim(s))
    ensures IsBlank(Trim(s)) <==> IsBlank(s)
  {
    BlankAfterTrim(s);
  }

  /** A plain answer string comes back as itself, trimmed. */
  lemma ExtractAnswer(body: string, answer: string)
    requires !IsBlank(answer)
    ensures Extract(body, Parsed(Response(None, Some(JString(answer))))) == Trim(answer)
  {
    FlattenString(answer);
    assert Flatten(None) == Some([]);
    ExtractOfResponse(body, None, Some(JString(answer)));
  }

  /** A reasoning string and an answer string come back in the labelled two-part layout. */
  lemma ExtractReasoningAndAnswer(body: string, reasoning: string, answer: string)
    requires !IsBlank(reasoning) && !IsBlank(answer)
    ensures Extract(body, Parsed(Response(Some(JString(reasoning)), Some(JString(answer)))))
      == "Reasoning:\n" + Trim(reasoning) + "\n\nAnswer:\n" + Trim(answer)
  {
    FlattenString(reasoning);
    FlattenString(answer);
    ExtractOfResponse(body, Some(JString(reasoning)), Some(JString(answer)));
  }

  /** Reasoning alone (content missing or blank) is shown alone. */
  lemma ExtractReasoningOnly(body: string, reasoning: string, content: Option<Json>)
    requires !IsBlank(reasoning)
    requires Flatten(content) == Some([])
    ensures Extract(body, Parsed(Response(Some(JString(reasoning)), content))) == Trim(reasoning)
  {
    FlattenString(reasoning);
    ExtractOfResponse(body, Some(JString(reasoning)), content);
  }

  /** An array of JSON strings. */
  function Strings(texts: seq<string>): (items: seq<Json>)
    ensures |items| == |texts|
    ensures forall i :: 0 <= i < |texts| ==> items[i] == JString(texts[i])
  {
    if texts == [] then [] else [JString(texts[0])] + Strings(texts[1..])
  }

  /** Every string element contributes its own text. */
  lemma {:induction false} PiecesOfStrings(texts: seq<string>)
    ensures Pieces(Strings(texts)) == Some(texts)
  {
    if texts != [] {
      var items := Strings(texts);
      var rest := Strings(texts[1..]);
      PiecesOfStrings(texts[1..]);
      assert items == [JString(texts[0])] + rest;
      assert items[1..] == rest;
      assert ItemPiece(items[0]) == Contributes(texts[0]);
      assert Pieces(items) == Some([texts[0]] + texts[1..]);
      assert [texts[0]] + texts[1..] == texts;
    }
  }

  /** Content sent as an array of string fragments comes back as the fragments joined with LF,
      trimmed. */
  lemma ExtractFragments(body: string, fragments: seq<string>)
    requires !IsBlank(Join(fragments, "\n"))
    ensures Extract(body, Parsed(Response(None, Some(JArray(Strings(fragments))))))
      == Trim(Join(fragments, "\n"))
  {
    var items := Strings(fragments);
    var joined := Join(fragments, "\n");
    PiecesOfStrings(fragments);
    assert Flatten(Some(JArray(items))) == Some(Trim(joined));
    ExtractOfResponse(body, None, Some(JArray(items)));
    BlankAfterTrim(joined);
    assert IsBlank([]);
    assert Choose(body, [], Trim(joined)) == Trim(joined);
  }

  /** A content array mixing strings, objects with a `text` member, and elements that are
      skipped (`null`, an object without `text`): the texts come out in order, joined with LF. */
  lemma FlattenMixedArray(a: string, b: string)
    ensures var items := [JString(a), JNull, JObject(map["text" := JString(b)]),
                          JObject(map["type" := JString("image")])];
      && Pieces(items) == Some([a, b])
      && Flatten(Some(JArray(items))) == Some(Trim(a + "\n" + b))
  {
    var image := JObject(map["type" := JString("image")]);
    var textItem := JObject(map["text" := JString(b)]);
    var items := [JString(a), JNull, textItem, image];
    assert ItemPiece(image) == Skipped;
    assert ItemPiece(textItem) == Contributes(b);
    assert Pieces([image]) == Some([]) by {
      assert [image][1..] == [];
    }
    assert Pieces([textItem, image]) == Some([b]) by {
      assert [textItem, image][1..] == [image];
      assert [b] + [] == [b];
    }
    assert Pieces([JNull, textItem, image]) == Some([b]) by {
      assert [JNull, textItem, image][1..] == [textItem, image];
    }
    assert items[1..] == [JNull, textItem, image];
    assert Pieces(items) == Some([a] + [b]);
    assert [a] + [b] == [a, b];
    assert Join([a, b], "\n") == a + "\n" + b by {
      assert [a, b][1..] == [b];
    }
  }
}
