/**
 The chat tool window's request path without its widgets: the status line, the checks the Send
 button runs before anything goes out, the request body, and the text shown for each outcome
 of the HTTP call. The HTTP call itself is the `network` parameter and Gson's parser the
 `parse` parameter.
 */
module ChatPanel {
  import opened Options
  import opened Text
  import opened Decimal
  import opened JsonEscape
  import opened JsonValue
  import opened AssistantText
  import opened Settings

  // ---------------------------------------------------------------------------------------
  // Status line

  const StatusUrlMissing := "Model API URL is not set in Settings"
  const StatusKeyMissing := "API Key is not set in Settings"
  const StatusReady := "Model API URL and API Key configured"

  /** `refreshStatus`: the URL is reported before the key; the model name is not consulted. */
  function Status(settings: State): (r: string)
    ensures r == StatusReady <==> !IsBlank(settings.modelApiUrl) && !IsBlank(settings.apiKey)
    ensures r == StatusUrlMissing <==> IsBlank(settings.modelApiUrl)
    ensures r == StatusKeyMissing <==> !IsBlank(settings.modelApiUrl) && IsBlank(settings.apiKey)
  {
    if IsBlank(settings.modelApiUrl) then StatusUrlMissing
    else if IsBlank(settings.apiKey) then StatusKeyMissing
    else StatusReady
  }

  /** The status line depends on the URL and the key only. */
  lemma StatusIgnoresModelAndLabel(settings: State, text: string, model: string)
    ensures Status(settings.(textValue := text, modelName := model)) == Status(settings)
  {
  }

  /** The status line after `apply` is the one the page's raw fields would give: trimming the
      URL on save never changes whether it is blank. */
  lemma StatusAfterApply(form: Form)
    ensures Status(Apply(form)) == Status(State(form.text, form.apiKey, form.apiUrl, form.model))
  {
    BlankAfterTrim(form.apiUrl);
  }

  /** A fresh installation has an endpoint and a model but no key: the status line asks for
      the key, and Send is refused with the key message whatever the prompt. */
  lemma DefaultNeedsKey(promptText: string)
    ensures Status(Default) == StatusKeyMissing
    ensures Validate(promptText, Default) == Rejected(KeyEmpty)
  {
    assert !IsWhitespace(Default.modelApiUrl[0]);
    assert IsBlank(Default.apiKey);
  }

  // ---------------------------------------------------------------------------------------
  // Checks before sending

  const UrlEmpty := "Model API URL is empty. Set it in Settings."
  const KeyEmpty := "API Key is empty. Set it in Settings."
  const ModelEmpty := "Model Name is empty. Set it in Settings."
  const PromptEmpty := "Prompt is empty."
  const Requesting := "Requesting..."

  /** The four values a request is built from, each already trimmed. */
  datatype ChatRequest = ChatRequest(apiUrl: string, apiKey: string, modelName: string, prompt: string)

  /** Either the message for the first empty value, or the request to send. */
  datatype Validation = Rejected(message: string) | Accepted(request: ChatRequest)

  /** The Send button's checks: URL, key, model name and prompt, in that order, each after
      `trim()`; the first empty one decides the message. */
  function Validate(promptText: string, settings: State): (v: Validation)
    ensures v.Accepted? <==>
      !IsBlank(settings.modelApiUrl) && !IsBlank(settings.apiKey)
      && !IsBlank(settings.modelName) && !IsBlank(promptText)
    ensures v.Accepted? ==>
      && v.request == ChatRequest(Trim(settings.modelApiUrl), Trim(settings.apiKey),
                                  Trim(settings.modelName), Trim(promptText))
      && v.request.apiUrl != [] && v.request.apiKey != []
      && v.request.modelName != [] && v.request.prompt != []
  {
    var apiUrl := Trim(settings.modelApiUrl);
    var apiKey := Trim(settings.apiKey);
    var modelName := Trim(settings.modelName);
    var prompt := Trim(promptText);
    if apiUrl == [] then Rejected(UrlEmpty)
    else if apiKey == [] then Rejected(KeyEmpty)
    else if modelName == [] then Rejected(ModelEmpty)
    else if prompt == [] then Rejected(PromptEmpty)
    else Accepted(ChatRequest(apiUrl, apiKey, modelName, prompt))
  }

  /** The checked values in checking order, and the message that goes with each. */
  function Checked(promptText: string, settings: State): seq<string> {
    [settings.modelApiUrl, settings.apiKey, settings.modelName, promptText]
  }

  const Messages: seq<string> := [UrlEmpty, KeyEmpty, ModelEmpty, PromptEmpty]

  /** The position of the first blank value, or the number of values when none is blank. */
  function FirstBlank(values: seq<string>): (k: nat)
    ensures k <= |values|
    ensures k < |values| ==> IsBlank(values[k])
    ensures forall j :: 0 <= j < k ==> !IsBlank(values[j])
  {
    if values == [] then 0
    else if IsBlank(values[0]) then 0
    else 1 + FirstBlank(values[1..])
  }

  /** The check order stated by position: the message is the one for the first blank value,
      and a request goes out only when there is none. */
  lemma ValidateFirstBlank(promptText: string, settings: State)
    ensures var k := FirstBlank(Checked(promptText, settings));
      && (k < 4 ==> Validate(promptText, settings) == Rejected(Messages[k]))
      && (k == 4 ==> Validate(promptText, settings).Accepted?)
  {
    var url, key, model := settings.modelApiUrl, settings.apiKey, settings.modelName;
    assert Checked(promptText, settings) == [url, key, model, promptText];
    FirstBlankOfFour(url, key, model, promptText);
    ValidateByBlank(promptText, settings);
  }

  /** `Validate` decided by the blankness of the four values alone. */
  lemma ValidateByBlank(promptText: string, settings: State)
    ensures var v := Validate(promptText, settings);
      && (IsBlank(settings.modelApiUrl) ==> v == Rejected(Messages[0]))
      && (!IsBlank(settings.modelApiUrl) && IsBlank(settings.apiKey) ==> v == Rejected(Messages[1]))
      && (!IsBlank(settings.modelApiUrl) && !IsBlank(settings.apiKey) && IsBlank(settings.modelName) ==>
            v == Rejected(Messages[2]))
      && (!IsBlank(settings.modelApiUrl) && !IsBlank(settings.apiKey) && !IsBlank(settings.modelName) ==>
            IsBlank(promptText) ==> v == Rejected(Messages[3]))
  {
    assert Messages[0] == UrlEmpty && Messages[1] == KeyEmpty;
    assert Messages[2] == ModelEmpty && Messages[3] == PromptEmpty;
  }

  /** `FirstBlank` on the four checked values, position by position. */
  lemma FirstBlankOfFour(a: string, b: string, c: string, d: string)
    ensures FirstBlank([a, b, c, d]) ==
      if IsBlank(a) then 0 else if IsBlank(b) then 1 else if IsBlank(c) then 2
      else if IsBlank(d) then 3 else 4
  {
    assert FirstBlank([d]) == if IsBlank(d) then 0 else 1 by {
      assert [d][1..] == [];
    }
    assert FirstBlank([c, d]) == if IsBlank(c) then 0 else 1 + FirstBlank([d]) by {
      assert [c, d][1..] == [d];
    }
    assert FirstBlank([b, c, d]) == if IsBlank(b) then 0 else 1 + FirstBlank([c, d]) by {
      assert [b, c, d][1..] == [c, d];
    }
    assert [a, b, c, d][1..] == [b, c, d];
  }

  /** The status line is "configured" whenever a request can go out; the converse fails
      only on the model name or the prompt, which the status line does not look at. */
  lemma StatusAgreesWithValidate(promptText: string, settings: State)
    ensures Validate(promptText, settings).Accepted? ==> Status(settings) == StatusReady
    ensures Status(settings) == StatusReady && !IsBlank(settings.modelName) && !IsBlank(promptText) ==>
      Validate(promptText, settings).Accepted?
    ensures Status(settings) == StatusUrlMissing <==> Validate(promptText, settings) == Rejected(UrlEmpty)
    ensures Status(settings) == StatusKeyMissing <==> Validate(promptText, settings) == Rejected(KeyEmpty)
  {
  }

  // ---------------------------------------------------------------------------------------
  // Request body

  /** The fixed text of the request body around its two string literals. */
  const BeforeModel := "{\n  \"model\": \""
  const BetweenFields := ",\n  \"messages\": [\n    {\"role\":\"user\",\"content\":\""
  const AfterPrompt := "}\n  ]\n}"

  /** The body `requestModel` posts: the template after `trimIndent()` (its sixteen columns of
      indentation and its blank first and last lines removed), with the escaped model name and
      prompt in the two string literals. It opens the object with the `model` member and ends
      by closing the `messages` array and the object. */
  function Payload(request: ChatRequest): (r: string)
    ensures |BeforeModel| + |AfterPrompt| <= |r|
    ensures r[..|BeforeModel|] == BeforeModel
    ensures r[|r| - |AfterPrompt|..] == AfterPrompt
  {
    Layout(BeforeModel, Escape(request.modelName), BetweenFields, Escape(request.prompt), AfterPrompt)
  }

  /** Two string literal bodies placed in fixed text: `head "x" middle "y" tail`. */
  function Layout(head: string, x: string, middle: string, y: string, tail: string): (r: string)
    ensures |head| + |tail| <= |r|
    ensures r[..|head|] == head
    ensures r[|r| - |tail|..] == tail
  {
    var r := head + (x + "\"" + middle + y + "\"" + tail);
    assert r[|r| - |tail|..] == tail;
    r
  }

  /** How a JSON reader recovers the two literals of a body laid out like `Layout`: it checks
      the fixed text, reads up to the closing quotation mark of each literal, and decodes both. */
  function ReadLayout(head: string, middle: string, tail: string, body: string): Option<(string, string)> {
    if |body| < |head| || body[..|head|] != head then None
    else ReadFromFirst(middle, tail, body[|head|..])
  }

  function ReadFromFirst(middle: string, tail: string, rest: string): Option<(string, string)> {
    match ScanLiteral(rest)
    case None => None
    case Some((x, afterX)) =>
      if |afterX| < |middle| || afterX[..|middle|] != middle then None
      else ReadFromSecond(x, tail, afterX[|middle|..])
  }

  function ReadFromSecond(x: string, tail: string, rest: string): Option<(string, string)> {
    match ScanLiteral(rest)
    case None => None
    case Some((y, afterY)) =>
      if afterY != tail then None
      else Decode2(x, y)
  }

  function Decode2(x: string, y: string): Option<(string, string)> {
    if Unescape(x).Some? && Unescape(y).Some? then Some((Unescape(x).value, Unescape(y).value)) else None
  }

  /** Reads the model name and the prompt back out of a request body. */
  function ReadPayload(body: string): Option<(string, string)> {
    ReadLayout(BeforeModel, BetweenFields, AfterPrompt, body)
  }

  /** Whatever the fixed text, escaped literals are read back exactly when neither original
      holds a stray control character. */
  lemma ReadLayoutEscaped(head: string, middle: string, tail: string, a: string, b: string)
    ensures HasNoStrayControl(a) && HasNoStrayControl(b) ==>
      ReadLayout(head, middle, tail, Layout(head, Escape(a), middle, Escape(b), tail)) == Some((a, b))
    ensures ReadLayout(head, middle, tail, Layout(head, Escape(a), middle, Escape(b), tail)).Some? ==>
      HasNoStrayControl(a) && HasNoStrayControl(b)
  {
    var ea := Escape(a);
    var eb := Escape(b);
    var second := eb + "\"" + tail;
    var first := ea + "\"" + (middle + second);
    LayoutParts(head, ea, middle, eb, tail);
    ReadsHead(head, middle, tail, first);
    ReadsFirstLiteral(a, middle, tail, second);
    ReadsSecondLiteral(ea, b, tail);
    EscapeRoundTripIff(a);
    EscapeRoundTripIff(b);
  }

  lemma LayoutParts(head: string, x: string, middle: string, y: string, tail: string)
    ensures Layout(head, x, middle, y, tail) == head + (x + "\"" + (middle + (y + "\"" + tail)))
  {
  }

  lemma ReadsHead(head: string, middle: string, tail: string, rest: string)
    ensures ReadLayout(head, middle, tail, head + rest) == ReadFromFirst(middle, tail, rest)
  {
    assert (head + rest)[..|head|] == head;
    assert (head + rest)[|head|..] == rest;
  }

  lemma ReadsFirstLiteral(a: string, middle: string, tail: string, rest: string)
    ensures ReadFromFirst(middle, tail, Escape(a) + "\"" + (middle + rest))
      == ReadFromSecond(Escape(a), tail, rest)
  {
    ScanEscaped(a, middle + rest);
    assert (middle + rest)[..|middle|] == middle;
    assert (middle + rest)[|middle|..] == rest;
  }

  lemma ReadsSecondLiteral(x: string, b: string, tail: string)
    ensures ReadFromSecond(x, tail, Escape(b) + "\"" + tail) == Decode2(x, Escape(b))
  {
    ScanEscaped(b, tail);
  }

  /** The request body carries the model name and the prompt losslessly exactly when neither
      holds a control character other than LF, CR and TAB. */
  lemma ReadPayloadRoundTrip(request: ChatRequest)
    ensures HasNoStrayControl(request.modelName) && HasNoStrayControl(request.prompt) ==>
      ReadPayload(Payload(request)) == Some((request.modelName, request.prompt))
    ensures ReadPayload(Payload(request)).Some? ==>
      HasNoStrayControl(request.modelName) && HasNoStrayControl(request.prompt)
  {
    ReadLayoutEscaped(BeforeModel, BetweenFields, AfterPrompt, request.modelName, request.prompt);
  }

  // ---------------------------------------------------------------------------------------
  // Outcome of the HTTP call

  /** What the HTTP call ends in: a response with its status code and body, or an exception
      with its message (Kotlin `null` when it has none) and its class's simple name. */
  datatype HttpOutcome =
    | Response(status: int, body: string)
    | Failure(message: Option<string>, className: string)

  /** The text of a non-2xx response: the prefix, the code in decimal, LF, and the body
      unchanged. */
  function FailedText(status: int, body: string): (r: string)
    ensures |r| == |FailedPrefix| + |IntToString(status)| + 1 + |body|
    ensures r[..|FailedPrefix|] == FailedPrefix
    ensures r[|FailedPrefix|..|FailedPrefix| + |IntToString(status)|] == IntToString(status)
    ensures r[|FailedPrefix| + |IntToString(status)|] == '\n'
    ensures r[|r| - |body|..] == body
  {
    "Request failed: HTTP " + IntToString(status) + "\n" + body
  }

  const ErrorPrefix := "Request error: "

  /** The text of an exception: its message, or its class name when the message is `null`. */
  function ErrorText(message: Option<string>, className: string): (r: string)
    ensures |ErrorPrefix| <= |r|
    ensures r[..|ErrorPrefix|] == ErrorPrefix
    ensures message.Some? ==> r[|ErrorPrefix|..] == message.value
    ensures message.None? ==> r[|ErrorPrefix|..] == className
  {
    "Request error: " + (if message.Some? then message.value else className)
  }

  /** `requestModel` after the call: a status outside 200..299 is reported with the code and
      the raw body, a 2xx body goes through `extractAssistantText`, and an exception is
      reported by its description. */
  function Display(outcome: HttpOutcome, parse: string -> Parse): (r: string)
    ensures outcome.Response? && !(200 <= outcome.status <= 299) ==>
      r == FailedText(outcome.status, outcome.body)
    ensures outcome.Response? && 200 <= outcome.status <= 299 ==>
      r == Extract(outcome.body, parse(outcome.body))
    ensures outcome.Failure? ==> r == ErrorText(outcome.message, outcome.className)
  {
    match outcome
    case Response(status, body) =>
      if !(200 <= status <= 299) then FailedText(status, body) else Extract(body, parse(body))
    case Failure(message, className) => ErrorText(message, className)
  }

  const FailedPrefix := "Request failed: HTTP "

  /** Reads a failure text back into its status code and body: the code runs up to the first
      LF, the body is everything after it. */
  function ReadFailed(text: string): Option<(int, string)> {
    if |text| < |FailedPrefix| || text[..|FailedPrefix|] != FailedPrefix then None
    else
      var rest := text[|FailedPrefix|..];
      var lines := SplitFirst(rest, '\n');
      match lines
      case None => None
      case Some((code, body)) =>
        match ParseInt(code)
        case None => None
        case Some(n) => Some((n, body))
  }

  /** The text before the first `c` and the text after it, or `None` without a `c`. */
  function SplitFirst(s: string, c: char): (r: Option<(string, string)>)
    ensures r.Some? ==> s == r.value.0 + [c] + r.value.1
    ensures r.Some? ==> forall k :: 0 <= k < |r.value.0| ==> r.value.0[k] != c
  {
    if s == [] then None
    else if s[0] == c then Some(([], s[1..]))
    else
      match SplitFirst(s[1..], c)
      case None => None
      case Some((before, after)) => Some(([s[0]] + before, after))
  }

  lemma {:induction false} SplitFirstAt(before: string, c: char, after: string)
    requires forall k :: 0 <= k < |before| ==> before[k] != c
    ensures SplitFirst(before + [c] + after, c) == Some((before, after))
  {
    if before == [] {
      assert before + [c] + after == [c] + after;
    } else {
      assert (before + [c] + after)[1..] == before[1..] + [c] + after;
      SplitFirstAt(before[1..], c, after);
      assert [before[0]] + before[1..] == before;
    }
  }

  /** A non-2xx report names the status code and carries the body unchanged, whatever the
      body holds: reading the report back gives both. */
  lemma FailedTextRoundTrip(status: int, body: string)
    ensures ReadFailed(FailedText(status, body)) == Some((status, body))
  {
    var code := IntToString(status);
    var text := FailedText(status, body);
    assert text == FailedPrefix + (code + ['\n'] + body);
    assert text[..|FailedPrefix|] == FailedPrefix;
    assert text[|FailedPrefix|..] == code + ['\n'] + body;
    assert forall k :: 0 <= k < |code| ==> code[k] != '\n';
    SplitFirstAt(code, '\n', body);
    ParseIntToString(status);
  }

  /** The three kinds of outcome never produce the same text as one another's reports: a
      non-2xx report and an exception report start differently. */
  lemma ReportsAreDistinct(status: int, body: string, message: Option<string>, className: string)
    ensures FailedText(status, body) != ErrorText(message, className)
  {
    assert FailedText(status, body)[8] == 'f';
    assert ErrorText(message, className)[8] == 'e';
  }

  // ---------------------------------------------------------------------------------------
  // The Send button

  /** What goes out on the network: the endpoint, the key for the bearer header, and the body. */
  datatype Post = Post(url: string, apiKey: string, body: string)

  /** What one press of Send does: the post it makes, if any, and the texts the output pane
      shows, in order. */
  datatype SendTrace = SendTrace(post: Option<Post>, shown: seq<string>)

  /** The Send button. A rejected check shows its message and posts nothing; otherwise the
      pane shows "Requesting..." and then the text for whatever the post ends in. */
  function Send(promptText: string, settings: State, network: Post -> HttpOutcome,
                parse: string -> Parse): (t: SendTrace)
    ensures t.post.None? <==> Validate(promptText, settings).Rejected?
    ensures t.post.None? ==> t.shown == [Validate(promptText, settings).message]
    ensures t.post.Some? ==>
      var request := Validate(promptText, settings).request;
      && t.post.value == Post(request.apiUrl, request.apiKey, Payload(request))
      && t.shown == [Requesting, Display(network(t.post.value), parse)]
  {
    match Validate(promptText, settings)
    case Rejected(message) => SendTrace(None, [message])
    case Accepted(request) =>
      var post := Post(request.apiUrl, request.apiKey, Payload(request));
      SendTrace(Some(post), [Requesting, Display(network(post), parse)])
  }

  /** A post is made only when all four values are non-blank, and it carries the trimmed
      values: the URL and key as they are, the model name and prompt recoverable from the body
      whenever they hold no stray control character. */
  lemma SendPostsTrimmedValues(promptText: string, settings: State, network: Post -> HttpOutcome,
                               parse: string -> Parse)
    ensures var t := Send(promptText, settings, network, parse);
      t.post.Some? <==>
        !IsBlank(settings.modelApiUrl) && !IsBlank(settings.apiKey)
        && !IsBlank(settings.modelName) && !IsBlank(promptText)
    ensures var t := Send(promptText, settings, network, parse);
      t.post.Some? ==>
        && t.post.value.url == Trim(settings.modelApiUrl)
        && t.post.value.apiKey == Trim(settings.apiKey)
        && (HasNoStrayControl(settings.modelName) && HasNoStrayControl(promptText) ==>
              ReadPayload(t.post.value.body) == Some((Trim(settings.modelName), Trim(promptText))))
  {
    var t := Send(promptText, settings, network, parse);
    var v := Validate(promptText, settings);
    if t.post.Some? {
      var request := v.request;
      assert t.post.value == Post(request.apiUrl, request.apiKey, Payload(request));
      if HasNoStrayControl(settings.modelName) && HasNoStrayControl(promptText) {
        StrayControlFreeTrim(settings.modelName);
        StrayControlFreeTrim(promptText);
        ReadPayloadRoundTrip(request);
      }
    }
  }

  /** Trimming keeps a string free of stray control characters, as it only removes characters. */
  lemma StrayControlFreeTrim(s: string)
    requires HasNoStrayControl(s)
    ensures HasNoStrayControl(Trim(s))
  {
    TrimShape(s);
    var i := SkipLeading(s, 0);
    StrayControlFreeSlice(s, i, i + |Trim(s)|);
  }

  lemma StrayControlFreeSlice(s: string, i: nat, j: nat)
    requires i <= j <= |s|
    requires HasNoStrayControl(s)
    ensures HasNoStrayControl(s[i..j])
  {
    assert forall k :: 0 <= k < j - i ==> s[i..j][k] == s[i + k];
  }
}
