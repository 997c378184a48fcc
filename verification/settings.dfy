/**
 The persisted settings record and the settings page that edits it: `isModified`, `apply` and
 `reset` as functions between the page's four text fields and the stored record, and the
 "settings changed" notification that `apply` publishes.
 */
module Settings {
  import opened Text

  /** `SettingsState.State`: the label, the API key, the endpoint URL and the model name. */
  datatype State = State(textValue: string, apiKey: string, modelApiUrl: string, modelName: string)

  /** The record a fresh installation starts with: no label, no key, the Z.ai chat-completions
      endpoint and the `glm-4.7-flash` model. Each literal is written as a short head plus the
      rest only so that the verifier can see its first characters; the values are unchanged. */
  const Default: State :=
    State("", "", "https://" + "api.z.ai/api/paas/v4/chat/completions", "glm-" + "4.7-flash")

  /** The four fields of the settings page: Value, Model API URL, Model Name and API Key
      (the key as the password field's characters). */
  datatype Form = Form(text: string, apiUrl: string, model: string, apiKey: string)

  /** `reset`: the page shows the stored record, field for field. */
  function Reset(state: State): (f: Form)
    ensures f.text == state.textValue && f.apiUrl == state.modelApiUrl
    ensures f.model == state.modelName && f.apiKey == state.apiKey
  {
    Form(state.textValue, state.modelApiUrl, state.modelName, state.apiKey)
  }

  /** `isModified`: some field differs from its stored counterpart; equivalently, the page
      is not what `reset` would show. */
  function IsModified(form: Form, state: State): (r: bool)
    ensures r <==> form != Reset(state)
  {
    || form.text != state.textValue
    || form.apiUrl != state.modelApiUrl
    || form.model != state.modelName
    || form.apiKey != state.apiKey
  }

  /** The record `apply` writes: label and key verbatim, URL and model name trimmed. The
      previous record plays no part, since all four fields are overwritten. */
  function Apply(form: Form): (s: State)
    ensures s.textValue == form.text && s.apiKey == form.apiKey
    ensures s.modelApiUrl == Trim(form.apiUrl) && s.modelName == Trim(form.model)
    ensures IsTrimmed(s.modelApiUrl) && IsTrimmed(s.modelName)
  {
    State(form.text, form.apiKey, Trim(form.apiUrl), Trim(form.model))
  }

  /** What happens to the stored record, in order: a write of the whole record, or a
      `settingsChanged` notification on the settings topic. */
  datatype Event = Wrote(state: State) | SettingsChanged

  /** The stored record and the history of events on it. */
  datatype Store = Store(state: State, events: seq<Event>)

  /** The number of `settingsChanged` notifications in a history. */
  function Notifications(events: seq<Event>): nat {
    if events == [] then 0
    else Notifications(events[..|events| - 1]) + (if events[|events| - 1] == SettingsChanged then 1 else 0)
  }

  /** `apply` on the store: the record is written first, then exactly one notification is
      published, and the earlier history is kept. */
  function ApplyToStore(form: Form, store: Store): (r: Store)
    ensures r.state == Apply(form)
    ensures |r.events| == |store.events| + 2
    ensures r.events[..|store.events|] == store.events
    ensures r.events[|store.events|] == Wrote(r.state)
    ensures r.events[|store.events| + 1] == SettingsChanged
    ensures Notifications(r.events) == Notifications(store.events) + 1
  {
    var s := Apply(form);
    PublishCounts(store.events, s);
    Store(s, store.events + [Wrote(s), SettingsChanged])
  }

  /** Right after `reset` the page is not modified. */
  lemma ResetNotModified(state: State)
    ensures !IsModified(Reset(state), state)
  {
  }

  /** The page is unmodified exactly when it shows what `reset` would show. */
  lemma NotModifiedIffReset(form: Form, state: State)
    ensures !IsModified(form, state) <==> form == Reset(state)
  {
  }

  /** Right after `apply` the page still counts as modified exactly when its URL or model
      name had whitespace at an end, the two fields `apply` trims. */
  lemma ModifiedAfterApply(form: Form)
    ensures !IsModified(form, Apply(form)) <==> IsTrimmed(form.apiUrl) && IsTrimmed(form.model)
  {
    ResetAfterApply(form);
  }

  /** Applying the same page twice stores what applying it once stores, and reopening the
      page after `apply` and applying it again changes nothing either. */
  lemma ApplyIdempotent(form: Form, store: Store)
    ensures ApplyToStore(form, ApplyToStore(form, store)).state == ApplyToStore(form, store).state
    ensures Apply(Reset(Apply(form))) == Apply(form)
  {
    TrimIdempotent(form.apiUrl);
    TrimIdempotent(form.model);
  }

  /** `reset` after `apply` gives the page back unchanged exactly when the two trimmed fields
      were already trimmed. */
  lemma ResetAfterApply(form: Form)
    ensures Reset(Apply(form)) == form <==> IsTrimmed(form.apiUrl) && IsTrimmed(form.model)
  {
    var url := Trim(form.apiUrl);
    var model := Trim(form.model);
    assert Reset(Apply(form)) == Form(form.text, url, model, form.apiKey);
    TrimFixedPoints(form.apiUrl);
    TrimFixedPoints(form.model);
    assert Reset(Apply(form)) == form <==> url == form.apiUrl && model == form.model;
  }

  /** A write followed by one notification adds one notification to any history. */
  lemma PublishCounts(events: seq<Event>, s: State)
    ensures Notifications(events + [Wrote(s), SettingsChanged]) == Notifications(events) + 1
    ensures (events + [Wrote(s), SettingsChanged])[..|events|] == events
  {
    var published := [Wrote(s), SettingsChanged];
    NotificationsAppend(events, published);
    assert Notifications([Wrote(s)]) == 0 by {
      assert [Wrote(s)][..0] == [];
    }
    assert published[..1] == [Wrote(s)];
  }

  lemma {:induction false} NotificationsAppend(a: seq<Event>, b: seq<Event>)
    ensures Notifications(a + b) == Notifications(a) + Notifications(b)
    decreases |b|
  {
    if b == [] {
      assert a + b == a;
    } else {
      var b' := b[..|b| - 1];
      assert (a + b)[..|a + b| - 1] == a + b';
      NotificationsAppend(a, b');
    }
  }

  /** A sequence of `apply` calls, one after another. */
  function ApplyAll(forms: seq<Form>, store: Store): Store
    decreases |forms|
  {
    if forms == [] then store else ApplyAll(forms[1..], ApplyToStore(forms[0], store))
  }

  /** A run of `apply` calls publishes one notification per call. */
  lemma {:induction false} ApplyAllNotifies(forms: seq<Form>, store: Store)
    ensures Notifications(ApplyAll(forms, store).events) == Notifications(store.events) + |forms|
    decreases |forms|
  {
    if forms != [] {
      var next := ApplyToStore(forms[0], store);
      ApplyAllNotifies(forms[1..], next);
      assert ApplyAll(forms, store) == ApplyAll(forms[1..], next);
    }
  }

  /** After a non-empty run of `apply` calls the record of the last page is stored. */
  lemma {:induction false} ApplyAllKeepsLast(forms: seq<Form>, store: Store)
    requires forms != []
    ensures ApplyAll(forms, store).state == Apply(forms[|forms| - 1])
    decreases |forms|
  {
    var next := ApplyToStore(forms[0], store);
    assert ApplyAll(forms, store) == ApplyAll(forms[1..], next);
    if |forms| > 1 {
      ApplyAllKeepsLast(forms[1..], next);
      assert forms[1..][|forms[1..]| - 1] == forms[|forms| - 1];
    }
  }
}
