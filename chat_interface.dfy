/**
 * The chat screen (components/ChatInterface.tsx): the transcript, the recent
 * queries, the model / API version / port preferences kept in `localStorage`,
 * and the send pipeline that ties them to the composer and the backend.
 */
module ChatInterface {
  import opened Wrappers
  import opened Text
  import opened Json
  import opened History
  import opened Endpoint
  import opened Request
  import opened Reply
  import opened Storage
  import opened ChatInput

  datatype Sender = User | Assistant

  /** A transcript entry; its id and timestamp are not modelled. */
  datatype Message = Message(text: string, sender: Sender, file: Option<File>, fileName: Option<string>, displayText: Option<string>)

  const Models: seq<string> := ["gemini-2.5-flash-preview-05-20", "gemma3:12b"]
  const ApiVersions: seq<string> := ["chat_v1", "chat_v2", "chat_v3"]
  const DefaultModel: string := "gemini-2.5-flash-preview-05-20"
  const DefaultApiVersion: string := "chat_v2"

  const HistoryKey: string := "queryHistory"
  const ModelKey: string := "selectedModel"
  const VersionKey: string := "apiVersion"
  const PortKey: string := "apiPort"

  datatype Settings = Settings(model: string, apiVersion: string, port: string)

  /** What `handleSendMessage` posts: the target URL and the form entries. */
  datatype Post = Post(url: string, form: seq<FormField>)

  /** A stored value the loader sees as present: `getItem` gave a non-empty string. */
  function Saved(items: map<string, string>, key: string): (r: Option<string>)
    ensures r.Some? <==> key in items && items[key] != []
    ensures r.Some? ==> r.value == items[key]
  {
    if key in items && items[key] != [] then Some(items[key]) else None
  }

  /**
   * `if (saved && allowed.includes(saved)) set(saved)`: a stored choice is
   * adopted only when it is one of the allowed ones.
   */
  function Adopt(saved: Option<string>, allowed: seq<string>, current: string): (r: string)
    ensures saved.Some? && saved.value in allowed ==> r == saved.value
    ensures !(saved.Some? && saved.value in allowed) ==> r == current
    ensures current in allowed ==> r in allowed
  {
    if saved.Some? && saved.value in allowed then saved.value else current
  }

  /** The loader keeps the model and the API version within their allowed lists. */
  lemma LoadedChoicesAllowed(items: map<string, string>)
    ensures Adopt(Saved(items, ModelKey), Models, DefaultModel) in Models
    ensures Adopt(Saved(items, VersionKey), ApiVersions, DefaultApiVersion) in ApiVersions
    ensures Saved(items, ModelKey).Some? && Saved(items, ModelKey).value !in Models
      ==> Adopt(Saved(items, ModelKey), Models, DefaultModel) == DefaultModel
    ensures Saved(items, VersionKey).Some? && Saved(items, VersionKey).value !in ApiVersions
      ==> Adopt(Saved(items, VersionKey), ApiVersions, DefaultApiVersion) == DefaultApiVersion
  {
  }

  /** The user's message: the trimmed text, shown as itself, with the file if any. */
  function UserMessage(text: string, file: Option<File>): (m: Message)
    ensures m.sender == User && m.text == Trim(text) && m.displayText == Some(Trim(text))
    ensures m.file == file && (m.fileName.Some? <==> file.Some?)
    ensures file.Some? ==> m.fileName == Some(file.value.name)
  {
    Message(Trim(text), User, file, if file.Some? then Some(file.value.name) else None, Some(Trim(text)))
  }

  function AssistantMessage(mode: Mode, outcome: Outcome): (m: Message)
    ensures m.sender == Assistant && m.text == AssistantText(mode, outcome)
    ensures m.file.None? && m.fileName.None? && m.displayText.None?
  {
    Message(AssistantText(mode, outcome), Assistant, None, None, None)
  }

  /** Each offered version `chat_v<N>` is served under the path `chat<N>`. */
  lemma AllowedVersionPath(v: string)
    requires v in ApiVersions
    ensures |v| == 7 && ApiPath(v) == "chat" + [v[6]]
  {
    ApiPathOfVersion([v[6]]);
    assert v == "chat_v" + [v[6]];
  }

  /** The URL for the configured API version and port. */
  function TargetUrl(settings: Settings, loc: Location): string {
    ApiUrl(loc, settings.port, ApiPath(settings.apiVersion))
  }

  /** An allowed version `chat_v<N>` sends the request to the path `chat<N>`. */
  lemma TargetUrlOfAllowed(settings: Settings, loc: Location)
    requires settings.apiVersion in ApiVersions
    ensures TargetUrl(settings, loc) == ApiUrl(loc, settings.port, "chat" + [settings.apiVersion[6]])
  {
    AllowedVersionPath(settings.apiVersion);
  }

  /** Appending one entry and then another is appending the pair. */
  lemma AppendTwo(s: seq<Message>, x: Message, y: Message)
    ensures s + [x] + [y] == s + [x, y]
  {
  }

  class Chat {
    var messages: seq<Message>
    var queryHistory: seq<string>
    var selectedQuery: string
    var settings: Settings
    const store: Store

    /** The first render: empty transcript and history, default model and version, no port. */
    constructor (store: Store)
      ensures this.store == store
      ensures messages == [] && queryHistory == [] && selectedQuery == []
      ensures settings == Settings(DefaultModel, DefaultApiVersion, [])
    {
      this.store := store;
      messages, queryHistory, selectedQuery := [], [], [];
      settings := Settings(DefaultModel, DefaultApiVersion, []);
    }

    /** The recent queries have no repeats and are at most ten. */
    ghost predicate HistoryWellFormed()
      reads this
    {
      Distinct(queryHistory) && |queryHistory| <= Capacity
    }

    /**
     * The startup loader. A stored history is read first; if its text is not
     * a JSON array of strings, `JSON.parse` throws and nothing further is
     * loaded. A stored model or API version is adopted only from its allowed
     * list; a stored port is adopted as it is.
     */
    method LoadPreferences()
      modifies this`queryHistory, this`settings
      ensures var h := Saved(store.items, HistoryKey);
        if h.Some? && Parse(h.value).None? then
          queryHistory == old(queryHistory) && settings == old(settings)
        else
          && queryHistory == (if h.Some? then Parse(h.value).value else old(queryHistory))
          && settings.model == Adopt(Saved(store.items, ModelKey), Models, old(settings.model))
          && settings.apiVersion == Adopt(Saved(store.items, VersionKey), ApiVersions, old(settings.apiVersion))
          && settings.port == (match Saved(store.items, PortKey) case Some(p) => p case None => old(settings.port))
    {
      var savedHistory := Saved(store.items, HistoryKey);
      if savedHistory.Some? {
        var parsed := Parse(savedHistory.value);
        if parsed.None? {
          return;
        }
        queryHistory := parsed.value;
      }
      var savedModel := Saved(store.items, ModelKey);
      if savedModel.Some? && savedModel.value in Models {
        settings := settings.(model := savedModel.value);
      }
      var savedVersion := Saved(store.items, VersionKey);
      if savedVersion.Some? && savedVersion.value in ApiVersions {
        settings := settings.(apiVersion := savedVersion.value);
      }
      var savedPort := Saved(store.items, PortKey);
      if savedPort.Some? {
        settings := settings.(port := savedPort.value);
      }
    }

    /**
     * The synchronous part of `handleSendMessage`: the gate, the user's
     * message, the history in `query` mode, and the post that is issued.
     */
    method BeginSend(text: string, file: Option<File>, mode: Mode, operation: Option<Operation>, loc: Location)
      returns (post: Option<Post>)
      modifies this`messages, this`queryHistory, store
      ensures post.Some? <==> !Rejected(text, file)
      ensures post.None? ==> messages == old(messages) && queryHistory == old(queryHistory) && store.items == old(store.items)
      ensures post.Some? ==>
        && messages == old(messages) + [UserMessage(text, file)]
        && queryHistory == (if mode == Query then Record(old(queryHistory), Trim(text)) else old(queryHistory))
        && store.items == (if mode == Query then old(store.items)[HistoryKey := Stringify(queryHistory)] else old(store.items))
        && post.value == Post(TargetUrl(settings, loc), Form(Trim(text), mode, settings.model, operation, file))
      ensures old(HistoryWellFormed()) ==> HistoryWellFormed()
      ensures post.Some? && mode == Query ==> Parse(store.items[HistoryKey]) == Some(queryHistory)
    {
      if Rejected(text, file) {
        return None;
      }
      var messageText := Trim(text);
      messages := messages + [UserMessage(text, file)];
      if mode == Query {
        if Distinct(queryHistory) {
          RecordKeepsDistinct(queryHistory, messageText);
        }
        queryHistory := Record(queryHistory, messageText);
        store.SetItem(HistoryKey, Stringify(queryHistory));
        ParseStringify(queryHistory);
      }
      var url := TargetUrl(settings, loc);
      post := Some(Post(url, Form(messageText, mode, settings.model, operation, file)));
    }

    /** The asynchronous end of `handleSendMessage`: one assistant message, reply or error. */
    method FinishSend(mode: Mode, outcome: Outcome)
      modifies this`messages
      ensures messages == old(messages) + [AssistantMessage(mode, outcome)]
    {
      messages := messages + [AssistantMessage(mode, outcome)];
    }

    /**
     * `handleSendMessage` with its request settled as `outcome`: a rejected
     * send changes nothing; an accepted one adds exactly two messages, the
     * user's and then the assistant's.
     */
    method SendMessage(text: string, file: Option<File>, mode: Mode, operation: Option<Operation>, loc: Location, outcome: Outcome)
      returns (post: Option<Post>)
      modifies this`messages, this`queryHistory, store
      ensures post.Some? <==> !Rejected(text, file)
      ensures post.None? ==> messages == old(messages) && queryHistory == old(queryHistory) && store.items == old(store.items)
      ensures post.Some? ==>
        && messages == old(messages) + [UserMessage(text, file), AssistantMessage(mode, outcome)]
        && queryHistory == (if mode == Query then Record(old(queryHistory), Trim(text)) else old(queryHistory))
        && store.items == (if mode == Query then old(store.items)[HistoryKey := Stringify(queryHistory)] else old(store.items))
        && post.value == Post(TargetUrl(settings, loc), Form(Trim(text), mode, settings.model, operation, file))
      ensures old(HistoryWellFormed()) ==> HistoryWellFormed()
    {
      post := BeginSend(text, file, mode, operation, loc);
      if post.Some? {
        FinishSend(mode, outcome);
        AppendTwo(old(messages), UserMessage(text, file), AssistantMessage(mode, outcome));
      }
    }

    /** `handleSelectQuery`: a history entry is handed to the composer. */
    method SelectQuery(query: string)
      modifies this`selectedQuery
      ensures selectedQuery == query
    {
      selectedQuery := query;
    }

    /** `onQuerySelected`: the composer took the query, so it is not applied again. */
    method QuerySelected()
      modifies this`selectedQuery
      ensures selectedQuery == []
    {
      selectedQuery := [];
    }

    /** `handleModelChange` */
    method ChangeModel(model: string)
      modifies this`settings, store
      ensures settings == old(settings).(model := model)
      ensures store.items == old(store.items)[ModelKey := model]
    {
      settings := settings.(model := model);
      store.SetItem(ModelKey, model);
    }

    /** `handleApiVersionChange` */
    method ChangeApiVersion(version: string)
      modifies this`settings, store
      ensures settings == old(settings).(apiVersion := version)
      ensures store.items == old(store.items)[VersionKey := version]
    {
      settings := settings.(apiVersion := version);
      store.SetItem(VersionKey, version);
    }

    /** `handlePortChange`: only the sanitised port is kept and stored. */
    method ChangePort(input: string)
      modifies this`settings, store
      ensures settings == old(settings).(port := SanitizePort(input))
      ensures store.items == old(store.items)[PortKey := SanitizePort(input)]
    {
      var port := SanitizePort(input);
      settings := settings.(port := port);
      store.SetItem(PortKey, port);
    }

    /**
     * The sidebar, the chat screen and the composer together: picking the
     * entry `i` puts it in the composer's text in `query` mode (unless it is
     * empty, which the composer ignores), and `selectedQuery` ends up cleared.
     */
    method PickFromHistory(composer: Composer, i: nat)
      requires i < |queryHistory|
      modifies this`selectedQuery, composer`text, composer`mode
      ensures selectedQuery == []
      ensures queryHistory[i] != [] ==> composer.text == queryHistory[i] && composer.mode == Query
      ensures queryHistory[i] == [] ==> composer.text == old(composer.text) && composer.mode == old(composer.mode)
    {
      SelectQuery(queryHistory[i]);
      var consumed := composer.ApplySelectedQuery(selectedQuery);
      if consumed {
        QuerySelected();
      }
    }

    /**
     * The composer's submit wired to `handleSendMessage`: whatever the composer
     * emits is accepted, so the transcript grows by exactly two messages, and a
     * non-admin's send always lands in the history.
     */
    method SubmitFrom(composer: Composer, isAdmin: bool, loc: Location, outcome: Outcome)
      returns (post: Option<Post>)
      modifies composer, this`messages, this`queryHistory, store
      ensures post.Some? <==> !Rejected(old(composer.text), old(composer.selectedFile))
      ensures composer.mode == old(composer.mode) && composer.operation == old(composer.operation)
      ensures post.None? ==>
        && messages == old(messages) && queryHistory == old(queryHistory) && store.items == old(store.items)
        && composer.text == old(composer.text) && composer.selectedFile == old(composer.selectedFile)
      ensures post.Some? ==> composer.text == [] && composer.selectedFile.None?
      ensures var text, file, mode := old(composer.text), old(composer.selectedFile), EffectiveMode(isAdmin, old(composer.mode));
        post.Some? ==>
          && messages == old(messages) + [UserMessage(text, file), AssistantMessage(mode, outcome)]
          && queryHistory == (if mode == Query then Record(old(queryHistory), Trim(text)) else old(queryHistory))
          && store.items == (if mode == Query then old(store.items)[HistoryKey := Stringify(queryHistory)] else old(store.items))
          && post.value == Post(TargetUrl(settings, loc),
            Form(Trim(text), mode, settings.model, if mode == Data then Some(old(composer.operation)) else None, file))
      ensures post.Some? && !isAdmin ==> queryHistory == Record(old(queryHistory), Trim(old(composer.text)))
      ensures old(HistoryWellFormed()) ==> HistoryWellFormed()
    {
      var ev := composer.Submit(isAdmin);
      post := None;
      if ev.Some? {
        var e := ev.value;
        post := SendMessage(e.text, e.file, e.mode, e.operation, loc, outcome);
      }
    }
  }
}
