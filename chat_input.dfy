/**
 * The composer (components/ChatInput.tsx): the text box, the attached file
 * and, for admins, the mode and operation selectors.
 */
module ChatInput {
  import opened Wrappers
  import opened Text
  import opened Request

  /** The arguments of one `onSendMessage` call. */
  datatype SendEvent = SendEvent(text: string, file: Option<File>, mode: Mode, operation: Option<Operation>)

  /** `isAdmin ? mode : 'query'` */
  function EffectiveMode(isAdmin: bool, mode: Mode): (m: Mode)
    ensures !isAdmin ==> m == Query
    ensures isAdmin ==> m == mode
  {
    if isAdmin then mode else Query
  }

  /**
   * What a submit emits: nothing when the text is blank and no file is
   * attached; otherwise the untrimmed text, the file, the effective mode, and
   * the operation exactly when that mode is `data`.
   */
  function Submission(text: string, file: Option<File>, isAdmin: bool, mode: Mode, operation: Operation): (r: Option<SendEvent>)
    ensures r.Some? <==> !Rejected(text, file)
    ensures r.Some? ==> r.value.text == text && r.value.file == file
    ensures r.Some? ==> r.value.mode == EffectiveMode(isAdmin, mode)
    ensures r.Some? ==> (r.value.operation.Some? <==> r.value.mode == Data)
    ensures r.Some? && r.value.operation.Some? ==> r.value.operation.value == operation
  {
    if !IsBlank(text) || file.Some? then
      var m := EffectiveMode(isAdmin, mode);
      Some(SendEvent(text, file, m, if m == Data then Some(operation) else None))
    else None
  }

  /** A non-admin always sends in `query` mode and never sends an operation. */
  lemma NonAdminSendsQueries(text: string, file: Option<File>, mode: Mode, operation: Operation)
    requires !Rejected(text, file)
    ensures Submission(text, file, false, mode, operation) == Some(SendEvent(text, file, Query, None))
  {
  }

  /**
   * The operation reaches the posted form exactly when an admin sends in
   * `data` mode, whatever operation a stale selector still holds.
   */
  lemma OperationReachesForm(text: string, file: Option<File>, isAdmin: bool, mode: Mode, operation: Operation, model: string)
    requires !Rejected(text, file)
    ensures var ev := Submission(text, file, isAdmin, mode, operation).value;
      HasField(Form(Trim(ev.text), ev.mode, model, ev.operation, ev.file), "operation") <==> isAdmin && mode == Data
  {
    var ev := Submission(text, file, isAdmin, mode, operation).value;
    FormContents(Trim(ev.text), ev.mode, model, ev.operation, ev.file);
  }

  class Composer {
    var text: string
    var selectedFile: Option<File>
    var mode: Mode
    var operation: Operation

    /** The initial state: empty text, no file, mode `input`, operation `get`. */
    constructor ()
      ensures text == [] && selectedFile.None? && mode == Input && operation == Get
    {
      text, selectedFile, mode, operation := [], None, Input, Get;
    }

    /** `handleSubmit`: emits the event and, if it did, clears the text and the file. */
    method Submit(isAdmin: bool) returns (ev: Option<SendEvent>)
      modifies this
      ensures ev == Submission(old(text), old(selectedFile), isAdmin, old(mode), old(operation))
      ensures ev.Some? ==> text == [] && selectedFile.None?
      ensures ev.None? ==> text == old(text) && selectedFile == old(selectedFile)
      ensures mode == old(mode) && operation == old(operation)
    {
      ev := Submission(text, selectedFile, isAdmin, mode, operation);
      if ev.Some? {
        text := [];
        selectedFile := None;
      }
    }

    /** The text box's key handler: Enter without Shift submits; anything else is typing. */
    method KeyDown(key: string, shift: bool, isAdmin: bool) returns (ev: Option<SendEvent>)
      modifies this
      ensures key == "Enter" && !shift ==> ev == Submission(old(text), old(selectedFile), isAdmin, old(mode), old(operation))
      ensures !(key == "Enter" && !shift) ==> ev.None? && unchanged(this)
      ensures ev.Some? ==> text == [] && selectedFile.None?
      ensures ev.None? ==> text == old(text) && selectedFile == old(selectedFile)
      ensures mode == old(mode) && operation == old(operation)
    {
      ev := None;
      if key == "Enter" && !shift {
        ev := Submit(isAdmin);
      }
    }

    /** The text box's `onChange`. */
    method Edit(newText: string)
      modifies this`text
      ensures text == newText
    {
      text := newText;
    }

    /** `handleFileSelect`: the first picked file, if any, becomes the attachment. */
    method SelectFile(files: seq<File>)
      modifies this`selectedFile
      ensures selectedFile == if files != [] then Some(files[0]) else old(selectedFile)
    {
      if files != [] {
        selectedFile := Some(files[0]);
      }
    }

    /** `handleRemoveFile`: the attachment goes, the text stays. */
    method RemoveFile()
      modifies this`selectedFile
      ensures selectedFile.None?
    {
      selectedFile := None;
    }

    /** The Query / Input / Data buttons. */
    method SelectMode(m: Mode)
      modifies this`mode
      ensures mode == m
    {
      mode := m;
    }

    /** The Get / Delete / Similarity buttons. */
    method SelectOperation(op: Operation)
      modifies this`operation
      ensures operation == op
    {
      operation := op;
    }

    /**
     * The `selectedQuery` effect: a non-empty query replaces the text and
     * forces `query` mode, and is reported as consumed; an empty one is ignored.
     */
    method ApplySelectedQuery(query: string) returns (consumed: bool)
      modifies this`text, this`mode
      ensures consumed <==> query != []
      ensures consumed ==> text == query && mode == Query
      ensures !consumed ==> text == old(text) && mode == old(mode)
    {
      consumed := query != [];
      if consumed {
        text := query;
        mode := Query;
      }
    }
  }
}
