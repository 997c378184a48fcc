# Codelab chat tool window — a Dafny model

The plugin adds a chat tool window and a settings page to the IDE. On the page the user stores
four values: a label, the API key, the chat-completions endpoint and the model name. In the
tool window the user types a prompt and presses Send. The window checks the stored values and
the prompt, posts a chat-completion request and shows the text it picks out of the answer.

This project models that request/response path and the settings page as pure functions over
immutable records and `seq<char>` strings:

- `text.dfy`: `Options` (the `Option` type) and `Text`. `Text` holds Kotlin's
  `Char.isWhitespace` (the JVM table), `trim`, `isBlank` and `joinToString`, plus a
  `Split` that undoes `joinToString`.
- `decimal.dfy`: `Decimal`, which models `Int.toString` as used in string templates,
  together with the reader that undoes it.
- `escape.dfy`: `JsonEscape`, which models `escapeJson`. It also holds the string grammar
  of section 7 of RFC 8259, which a server uses to decode what `escapeJson` writes.
- `json.dfy`: `JsonValue`, an already-parsed JSON value and the Gson 2.11 accessors the
  window calls on it.
- `assistant.dfy`: `AssistantText`, which models `flattenContent` and
  `extractAssistantText`.
- `settings.dfy`: `Settings`, which models the stored record, its defaults, and `isModified`,
  `apply` and `reset`. It also records the "settings changed" notification that `apply`
  publishes, as an event history.
- `chat.dfy`: `ChatPanel`. It covers `refreshStatus`, the checks the Send button runs, the
  request body, and the text shown for each outcome of the HTTP call. The HTTP call is a
  function parameter (`network`), and so is Gson's parser (`parse`).

`apply` stores the label and the API key exactly as typed. It trims only the URL and the model
name (SettingsConfigurable.kt lines 47-50). The Send button trims the stored key when it reads
it for a request (ValueToolWindowFactory.kt line 161). The status line tests the untrimmed key
with `isBlank` (line 143).

## Model

| member | source | states |
|---|---|---|
| Text.WhitespaceTable | src/main/kotlin/com/example/codelabapp/toolwindow/ValueToolWindowFactory.kt:142-143 | Kotlin's `isWhitespace` holds for exactly the 28 characters of the JVM table: TAB, LF, VT, FF, CR, the four separators U+001C-U+001F, space, no-break space, U+1680, U+2000-U+200A, the line and paragraph separators, U+202F, U+205F and U+3000. |
| Text.BlankIffScanEnds | src/main/kotlin/com/example/codelabapp/toolwindow/ValueToolWindowFactory.kt:142-143 | `isBlank()` holds exactly when a scan for the first non-whitespace character runs off the end. So the empty string is blank. |
| Text.Trim | src/main/kotlin/com/example/codelabapp/toolwindow/ValueToolWindowFactory.kt:158-162 | `trim()` leaves no whitespace at either end and never makes a string longer. The result is empty exactly when the input is blank. |
| Text.TrimShape | src/main/kotlin/com/example/codelabapp/toolwindow/ValueToolWindowFactory.kt:158-162 | `trim()` keeps one contiguous infix of the input. Everything before and after it is whitespace. |
| Text.TrimFixedPoints | src/main/kotlin/com/example/codelabapp/settings/SettingsConfigurable.kt:48-49 | `trim()` changes nothing exactly when the string has no whitespace at either end. |
| Text.TrimIdempotent | src/main/kotlin/com/example/codelabapp/settings/SettingsConfigurable.kt:48-49 | Trimming a trimmed string changes nothing. |
| Text.BlankAfterTrim | src/main/kotlin/com/example/codelabapp/toolwindow/ValueToolWindowFactory.kt:142-143 | A string is blank exactly when its trimmed form is. So the send path's "trimmed value is empty" test and the status line's `isBlank` agree. |
| Text.Join | src/main/kotlin/com/example/codelabapp/toolwindow/ValueToolWindowFactory.kt:269 | `joinToString` of no parts is empty, and of one part is that part. A non-empty join starts with the first part. `SplitJoin` gives the parts back. |
| Text.JoinAppend | src/main/kotlin/com/example/codelabapp/toolwindow/ValueToolWindowFactory.kt:269 | `joinToString` puts the separator exactly once between two joined runs of parts. |
| Text.SplitJoin | src/main/kotlin/com/example/codelabapp/toolwindow/ValueToolWindowFactory.kt:269 | Parts that do not contain a one-character separator come back unchanged when joined and split again. |
| Decimal.IntToString | src/main/kotlin/com/example/codelabapp/toolwindow/ValueToolWindowFactory.kt:220 | The decimal text of a status code is non-empty. It starts with a minus sign exactly when the code is negative, and all its other characters are digits. |
| Decimal.ParseIntToString | src/main/kotlin/com/example/codelabapp/toolwindow/ValueToolWindowFactory.kt:220 | The decimal that a failure report writes for a status code reads back as exactly that code, negative codes included. |
| JsonEscape.EscapeChar | src/main/kotlin/com/example/codelabapp/toolwindow/ValueToolWindowFactory.kt:277-284 | Backslash, quotation mark, LF, CR and TAB each become a two-character escape that decodes back to that character. Every other character is copied unchanged. |
| JsonEscape.Escape | src/main/kotlin/com/example/codelabapp/toolwindow/ValueToolWindowFactory.kt:274-287 | The output is never shorter than the input. The output equals the input exactly when the input contains none of the five escaped characters. |
| JsonEscape.EscapeJson | src/main/kotlin/com/example/codelabapp/toolwindow/ValueToolWindowFactory.kt:274-287 | The builder loop produces the characters' chunks concatenated in order. |
| JsonEscape.EscapeAppend | src/main/kotlin/com/example/codelabapp/toolwindow/ValueToolWindowFactory.kt:276-285 | Escaping distributes over concatenation. |
| JsonEscape.UnescapeEscape | src/main/kotlin/com/example/codelabapp/toolwindow/ValueToolWindowFactory.kt:276-284 | The text is free of control characters other than LF, CR and TAB. Then decoding the escaped text under section 7 of RFC 8259 gives the text back. |
| JsonEscape.EscapeKeepsStrayControl | src/main/kotlin/com/example/codelabapp/toolwindow/ValueToolWindowFactory.kt:283 | The text holds some other control character. Then the escaped text is not a valid JSON string body. |
| JsonEscape.EscapeRoundTripIff | src/main/kotlin/com/example/codelabapp/toolwindow/ValueToolWindowFactory.kt:276-284 | The JSON round trip succeeds, and also decodes to anything at all, exactly when the text has no control character other than LF, CR and TAB. |
| JsonEscape.ScanEscaped | src/main/kotlin/com/example/codelabapp/toolwindow/ValueToolWindowFactory.kt:278-279 | Escaped text never contains a quotation mark that could end the literal. A reader stops exactly at the quotation mark written after it. |
| JsonValue.PrimitiveText | src/main/kotlin/com/example/codelabapp/toolwindow/ValueToolWindowFactory.kt:260-264 | A string primitive gives its own characters and a number gives its literal text. A boolean gives "true" exactly when it is true and "false" exactly when it is false. |
| JsonValue.Get | src/main/kotlin/com/example/codelabapp/toolwindow/ValueToolWindowFactory.kt:241-242 | A member lookup gives the member's value when the name is present, and `null` otherwise. |
| JsonValue.AsString | src/main/kotlin/com/example/codelabapp/toolwindow/ValueToolWindowFactory.kt:260-265 | `getAsString` gives a primitive's text. It throws on `null`, on objects and on arrays whose size is not one. |
| JsonValue.AsStringWrapped | src/main/kotlin/com/example/codelabapp/toolwindow/ValueToolWindowFactory.kt:264-265 | `getAsString` sees through any nesting of one-element arrays. |
| AssistantText.ItemPiece | src/main/kotlin/com/example/codelabapp/toolwindow/ValueToolWindowFactory.kt:262-267 | A content-array element of primitive type contributes its text. An object whose `text` is string-like contributes that text. A null or a nested array is skipped, and so is an object without `text`. An object whose `text` is not string-like throws. |
| AssistantText.Pieces | src/main/kotlin/com/example/codelabapp/toolwindow/ValueToolWindowFactory.kt:261-268 | The array throws exactly when some element throws. If every element contributes, all their texts are kept, in order. If every element is skipped, the result is empty. |
| AssistantText.PiecesAppend | src/main/kotlin/com/example/codelabapp/toolwindow/ValueToolWindowFactory.kt:261-268 | The pieces of two adjacent runs of elements are the two runs' pieces in order. |
| AssistantText.Flatten | src/main/kotlin/com/example/codelabapp/toolwindow/ValueToolWindowFactory.kt:255-272 | A missing value, `null` or an object flattens to "". A primitive flattens to its trimmed text and an array to its pieces joined with LF, trimmed. The result never has whitespace at an end. It throws only for an array with a throwing element. |
| AssistantText.FindMessage | src/main/kotlin/com/example/codelabapp/toolwindow/ValueToolWindowFactory.kt:231-237 | The message is found at `choices[0].message` exactly when every step along the way has the right type. It is then that object's members. |
| AssistantText.Choose | src/main/kotlin/com/example/codelabapp/toolwindow/ValueToolWindowFactory.kt:243-248 | With both texts non-blank, the result is the labelled "Reasoning:/Answer:" layout. With one non-blank, it is that one. With neither, it is the raw body. |
| AssistantText.Extract | src/main/kotlin/com/example/codelabapp/toolwindow/ValueToolWindowFactory.kt:229-253 | The shown text is either the raw body or non-blank. |
| AssistantText.ExtractFallsBack | src/main/kotlin/com/example/codelabapp/toolwindow/ValueToolWindowFactory.kt:230-252 | A parse failure gives the raw body, and so do a non-object root, a missing or non-array `choices`, an empty `choices` and a missing or wrongly typed message. |
| AssistantText.ExtractFallsBackInMessage | src/main/kotlin/com/example/codelabapp/toolwindow/ValueToolWindowFactory.kt:241-247 | A content or reasoning array with a throwing element gives the raw body, and so does a message whose two texts are both empty. |
| AssistantText.ExtractFound | src/main/kotlin/com/example/codelabapp/toolwindow/ValueToolWindowFactory.kt:238-248 | For any parsed root whose walk finds a message, the shown text is the four-way choice between that message's flattened reasoning and content. This holds whenever neither one throws. |
| AssistantText.ExtractFullResponse | src/main/kotlin/com/example/codelabapp/toolwindow/ValueToolWindowFactory.kt:229-253 | A full chat-completion response, with `id`, `index`, `role`, `finish_reason` and `usage` members around the content, shows its non-blank answer trimmed. |
| AssistantText.FindsResponseMessage | src/main/kotlin/com/example/codelabapp/toolwindow/ValueToolWindowFactory.kt:231-237 | For a well-formed response, the walk finds the message holding exactly the given members. |
| AssistantText.ExtractOfResponse | src/main/kotlin/com/example/codelabapp/toolwindow/ValueToolWindowFactory.kt:238-248 | For a well-formed response, the shown text is the four-way choice between the flattened reasoning and content. |
| AssistantText.FlattenMixedArray | src/main/kotlin/com/example/codelabapp/toolwindow/ValueToolWindowFactory.kt:261-271 | A content array that mixes a string, a null, an object with `text` and an object without it keeps the two texts in order. The flattened text is the two joined with LF, trimmed. |
| AssistantText.FlattenString | src/main/kotlin/com/example/codelabapp/toolwindow/ValueToolWindowFactory.kt:260-271 | A string member flattens to its trimmed text. That text is blank exactly when the string is. |
| AssistantText.ExtractAnswer | src/main/kotlin/com/example/codelabapp/toolwindow/ValueToolWindowFactory.kt:245 | A non-blank answer alone is shown trimmed. |
| AssistantText.ExtractReasoningAndAnswer | src/main/kotlin/com/example/codelabapp/toolwindow/ValueToolWindowFactory.kt:244 | Non-blank reasoning and answer are shown in the labelled two-part layout, each trimmed. |
| AssistantText.ExtractReasoningOnly | src/main/kotlin/com/example/codelabapp/toolwindow/ValueToolWindowFactory.kt:246 | Non-blank reasoning with empty content is shown alone, trimmed. |
| AssistantText.PiecesOfStrings | src/main/kotlin/com/example/codelabapp/toolwindow/ValueToolWindowFactory.kt:261-268 | Every string element of a content array contributes its own text, in order. |
| AssistantText.ExtractFragments | src/main/kotlin/com/example/codelabapp/toolwindow/ValueToolWindowFactory.kt:261-271 | Content sent as an array of string fragments is shown as the fragments joined with LF, trimmed. |
| Settings.Reset | src/main/kotlin/com/example/codelabapp/settings/SettingsConfigurable.kt:58-64 | `reset` copies each stored field into its page field. |
| Settings.IsModified | src/main/kotlin/com/example/codelabapp/settings/SettingsConfigurable.kt:37-43 | `isModified` holds exactly when the page differs from what `reset` would show. |
| Settings.Apply | src/main/kotlin/com/example/codelabapp/settings/SettingsConfigurable.kt:45-50 | `apply` stores the label and the key verbatim, and the URL and the model name trimmed. |
| Settings.ApplyToStore | src/main/kotlin/com/example/codelabapp/settings/SettingsConfigurable.kt:45-56 | `apply` writes the record and then publishes exactly one `settingsChanged`. The earlier history is kept. |
| Settings.ResetNotModified | src/main/kotlin/com/example/codelabapp/settings/SettingsConfigurable.kt:58-64 | Right after `reset` the page is not modified. |
| Settings.NotModifiedIffReset | src/main/kotlin/com/example/codelabapp/settings/SettingsConfigurable.kt:37-43 | The page is unmodified exactly when it matches the stored record field for field. |
| Settings.ModifiedAfterApply | src/main/kotlin/com/example/codelabapp/settings/SettingsConfigurable.kt:37-50 | Right after `apply`, the page is unmodified exactly when its URL and model name were already trimmed. |
| Settings.ResetAfterApply | src/main/kotlin/com/example/codelabapp/settings/SettingsConfigurable.kt:45-64 | After `apply`, `reset` gives the same page back exactly when its URL and model name were already trimmed. |
| Settings.ApplyIdempotent | src/main/kotlin/com/example/codelabapp/settings/SettingsConfigurable.kt:47-50 | Applying the same page twice stores what applying it once stores. So does re-applying the page that `reset` shows afterwards. |
| Settings.PublishCounts | src/main/kotlin/com/example/codelabapp/settings/SettingsConfigurable.kt:52-55 | One `apply` adds exactly one notification to any history. |
| Settings.NotificationsAppend | src/main/kotlin/com/example/codelabapp/settings/SettingsConfigurable.kt:52-55 | Notification counts add up over concatenated histories. |
| Settings.ApplyAllNotifies | src/main/kotlin/com/example/codelabapp/settings/SettingsConfigurable.kt:52-55 | A run of `apply` calls publishes exactly one notification per call. |
| Settings.ApplyAllKeepsLast | src/main/kotlin/com/example/codelabapp/settings/SettingsConfigurable.kt:45-50 | After a run of `apply` calls, the record built from the last page is stored. |
| ChatPanel.DefaultNeedsKey | src/main/kotlin/com/example/codelabapp/settings/SettingsState.kt:12-17 | With the default record, the status line asks for the key, and Send is refused with the key message. |
| ChatPanel.Status | src/main/kotlin/com/example/codelabapp/toolwindow/ValueToolWindowFactory.kt:139-146 | The status line reports a missing URL first and a missing key second. Otherwise it says "configured". Each message appears exactly in its case. |
| ChatPanel.StatusIgnoresModelAndLabel | src/main/kotlin/com/example/codelabapp/toolwindow/ValueToolWindowFactory.kt:139-146 | The model name and the label do not affect the status line. |
| ChatPanel.StatusAfterApply | src/main/kotlin/com/example/codelabapp/toolwindow/ValueToolWindowFactory.kt:139-146 | The status line after `apply` is the one the page's untrimmed fields would give. |
| ChatPanel.Validate | src/main/kotlin/com/example/codelabapp/toolwindow/ValueToolWindowFactory.kt:158-178 | A request is made exactly when URL, key, model name and prompt are all non-blank. It carries the four trimmed, non-empty values. |
| ChatPanel.FirstBlank | src/main/kotlin/com/example/codelabapp/toolwindow/ValueToolWindowFactory.kt:163-178 | This is the reference definition of "first blank value": every value before it is non-blank. |
| ChatPanel.ValidateFirstBlank | src/main/kotlin/com/example/codelabapp/toolwindow/ValueToolWindowFactory.kt:163-178 | The message shown is the one for the first blank value in the order URL, key, model name, prompt. A request is made only when none is blank. |
| ChatPanel.StatusAgreesWithValidate | src/main/kotlin/com/example/codelabapp/toolwindow/ValueToolWindowFactory.kt:142-168 | Whenever a request can go out, the status line says "configured". It names the missing URL or key exactly when Send is refused for that value. |
| ChatPanel.Payload | src/main/kotlin/com/example/codelabapp/toolwindow/ValueToolWindowFactory.kt:201-208 | The request body starts with the fixed text up to the model member and ends with the fixed text that closes the messages array and the object. `ReadPayloadRoundTrip` reads the two values back. |
| ChatPanel.ReadLayoutEscaped | src/main/kotlin/com/example/codelabapp/toolwindow/ValueToolWindowFactory.kt:201-208 | For any fixed text around two escaped literals, a JSON reader gets both originals back exactly when neither holds a stray control character. |
| ChatPanel.ReadPayloadRoundTrip | src/main/kotlin/com/example/codelabapp/toolwindow/ValueToolWindowFactory.kt:201-208 | The request body carries the model name and the prompt losslessly exactly when neither holds a control character other than LF, CR and TAB. |
| ChatPanel.Display | src/main/kotlin/com/example/codelabapp/toolwindow/ValueToolWindowFactory.kt:219-226 | A status outside 200..299 shows the failure report. A 2xx status shows the extracted text. An exception shows "Request error: " followed by its message, or its class name when the message is null. |
| ChatPanel.FailedText | src/main/kotlin/com/example/codelabapp/toolwindow/ValueToolWindowFactory.kt:220 | A failure report is "Request failed: HTTP ", then the status code's decimal text, then LF, then the body unchanged. Its length is exactly the sum of those parts. |
| ChatPanel.ErrorText | src/main/kotlin/com/example/codelabapp/toolwindow/ValueToolWindowFactory.kt:225 | An exception report is "Request error: " followed by the exception's message, or by its class name when the message is null. |
| ChatPanel.FailedTextRoundTrip | src/main/kotlin/com/example/codelabapp/toolwindow/ValueToolWindowFactory.kt:220 | A failure report can be read back into exactly its status code and its body, whatever the body holds. |
| ChatPanel.ReportsAreDistinct | src/main/kotlin/com/example/codelabapp/toolwindow/ValueToolWindowFactory.kt:219-226 | A failure report is never the same text as an exception report. |
| ChatPanel.Send | src/main/kotlin/com/example/codelabapp/toolwindow/ValueToolWindowFactory.kt:157-190 | A refused check shows only its message and posts nothing. Otherwise the window posts the trimmed URL, key and the body, then shows "Requesting..." followed by the outcome's text. |
| ChatPanel.SendPostsTrimmedValues | src/main/kotlin/com/example/codelabapp/toolwindow/ValueToolWindowFactory.kt:158-184 | A post happens exactly when all four values are non-blank. It goes to the trimmed URL with the trimmed key. Its body reads back as the trimmed model name and prompt whenever those hold no stray control character. |

## Left out

- The HTTP client, the URI, the headers and the bearer token format (ValueToolWindowFactory.kt lines 210-218) are network I/O. The call is the `network` parameter, which maps a post to a response or an exception.
- Gson's parser is a third-party library and is the `parse` parameter. Its result is a parsed value or a syntax error. Number literals keep their source text, as Gson's `getAsString` returns it.
- CommonMark rendering and the HTML wrapper (lines 61-62 and 110-121) are left out, since the library's behaviour is not visible. The model stops at the text passed to `setOutputMarkdown`.
- Swing layout, colours, and the Send button's loading state and label are presentation only.
- `updatePromptHeight` (lines 90-108) depends on font metrics and float view spans. It only clamps the prompt to between 1 and 10 rows.
- The pooled-thread dispatch and `invokeLater` (lines 183-189) are host concurrency. `Send` shows the texts in the order the host displays them.
- The message-bus subscription (lines 148-155) and SettingsTopic.kt are host plumbing. `apply`'s notification is an event in the store's history, and `StatusAfterApply` states what the refreshed status line shows.
- Persistence, the service lookup and `loadState` in SettingsState.kt are host storage. Only the four-field record and its defaults are modelled.
- build.gradle.kts and settings.gradle.kts are build configuration. The only thing taken from them is the Gson version, 2.11, whose `getAsString` rules `JsonValue.AsString` follows.
- Kotlin strings are UTF-16 code units, while Dafny `char` values are Unicode scalar values. A prompt holding an unpaired surrogate cannot be expressed. Such a character is neither escaped nor whitespace in either language.
- `catch (e: Exception)` does not catch JVM `Error`s. Those propagate out of `requestModel` and are not modelled.
- Status codes are unbounded integers. The real ones are three-digit values in an `Int`.
- AssistantText.Extract: its own contract states only "raw body or non-blank". The lemmas cover every path: `ExtractFallsBack` for each parse or walk failure, `ExtractFallsBackInMessage` for a throwing flatten and for two empty texts, and `ExtractFound` for the four-way choice on any root whose walk finds a message.
- AssistantText.Pieces: its contract gives the contents only when every element contributes or every element is skipped. Mixed arrays are covered through `PiecesAppend`, which splits an array into runs, and by the `FlattenMixedArray` example.
