/**
 * What a send carries: the composer's mode and operation, the attached file,
 * the gate that turns empty sends away and the multipart form posted to the
 * backend (`handleSendMessage`, components/ChatInterface.tsx).
 */
module Request {
  import opened Wrappers
  import opened Text

  datatype Mode = Query | Input | Data
  datatype Operation = Get | Delete | Similarity

  /** A local file the user attached; only its name is visible to this model. */
  datatype File = File(name: string, handle: nat)

  function ModeName(m: Mode): string {
    match m
    case Query => "query"
    case Input => "input"
    case Data => "data"
  }

  function OperationName(op: Operation): string {
    match op
    case Get => "get"
    case Delete => "delete"
    case Similarity => "similarity"
  }

  /** `!text.trim() && !file`: such a send is turned away. */
  predicate Rejected(text: string, file: Option<File>) {
    IsBlank(text) && file.None?
  }

  /** A send is turned away exactly when its text is all whitespace and no file is attached. */
  lemma RejectedIff(text: string, file: Option<File>)
    ensures Rejected(text, file) <==> AllSpace(text) && file.None?
  {
    BlankIffAllSpace(text);
  }

  /** One `formData.append` entry. */
  datatype FormField = TextField(name: string, value: string) | FileField(name: string, file: File)

  /** The form entries, in the order they are appended. */
  function Form(message: string, mode: Mode, model: string, operation: Option<Operation>, file: Option<File>): (r: seq<FormField>)
    ensures 3 <= |r| <= 5
  {
    [TextField("message", message), TextField("select", ModeName(mode)), TextField("model", model)]
    + (if mode == Data && operation.Some? then [TextField("operation", OperationName(operation.value))] else [])
    + (if file.Some? then [FileField("file", file.value)] else [])
  }

  predicate HasField(form: seq<FormField>, name: string) {
    exists i :: 0 <= i < |form| && form[i].name == name
  }

  /** `formData.get(name)` for a text entry: the first entry of that name. */
  function TextValue(form: seq<FormField>, name: string): Option<string> {
    if form == [] then None
    else if form[0].name == name then
      (if form[0].TextField? then Some(form[0].value) else None)
    else TextValue(form[1..], name)
  }

  /** `formData.get('file')`: the first file entry. */
  function FileValue(form: seq<FormField>): Option<File> {
    if form == [] then None
    else if form[0].name == "file" && form[0].FileField? then Some(form[0].file)
    else FileValue(form[1..])
  }

  /** The entries after `message`, `select` and `model`. */
  function Optional(mode: Mode, operation: Option<Operation>, file: Option<File>): seq<FormField> {
    (if mode == Data && operation.Some? then [TextField("operation", OperationName(operation.value))] else [])
    + (if file.Some? then [FileField("file", file.value)] else [])
  }

  /** The text fields that are always there: the message, the mode under `select`, and the model. */
  lemma FormRequired(message: string, mode: Mode, model: string, operation: Option<Operation>, file: Option<File>)
    ensures var form := Form(message, mode, model, operation, file);
      && form[3..] == Optional(mode, operation, file)
      && TextValue(form, "message") == Some(message)
      && TextValue(form, "select") == Some(ModeName(mode))
      && TextValue(form, "model") == Some(model)
  {
    var form := Form(message, mode, model, operation, file);
    assert form[3..] == Optional(mode, operation, file);
    assert form[1..][1..] == form[2..];
    assert TextValue(form, "model") == TextValue(form[1..], "model") == TextValue(form[2..], "model");
  }

  /** `operation` is there iff the mode is `data` and one is given; `file` iff a file is. */
  lemma OptionalFields(mode: Mode, operation: Option<Operation>, file: Option<File>)
    ensures var rest := Optional(mode, operation, file);
      && (HasField(rest, "operation") <==> mode == Data && operation.Some?)
      && (mode == Data && operation.Some? ==> TextValue(rest, "operation") == Some(OperationName(operation.value)))
      && (HasField(rest, "file") <==> file.Some?)
      && FileValue(rest) == file
  {
    var rest := Optional(mode, operation, file);
    if mode == Data && operation.Some? {
      assert rest[0].name == "operation";
      if file.Some? {
        assert rest[1] == FileField("file", file.value);
        assert rest[1..][0] == rest[1];
      }
    } else if file.Some? {
      assert rest == [FileField("file", file.value)];
      assert rest[0].name == "file";
    }
  }

  /** Fields are looked up past the three required ones, whose names are all different. */
  lemma RequiredPrefix(form: seq<FormField>, name: string)
    requires |form| >= 3 && form[0].name == "message" && form[1].name == "select" && form[2].name == "model"
    requires name != "message" && name != "select" && name != "model"
    ensures HasField(form, name) <==> HasField(form[3..], name)
    ensures TextValue(form, name) == TextValue(form[3..], name)
    ensures name == "file" ==> FileValue(form) == FileValue(form[3..])
  {
    assert form[1..][1..][1..] == form[3..];
    assert TextValue(form, name) == TextValue(form[1..], name) == TextValue(form[1..][1..], name)
      == TextValue(form[3..], name);
    assert FileValue(form) == FileValue(form[1..]) == FileValue(form[1..][1..]) == FileValue(form[3..]);
    if HasField(form, name) {
      var i :| 0 <= i < |form| && form[i].name == name;
      assert form[3..][i - 3] == form[i];
    }
    if HasField(form[3..], name) {
      var j :| 0 <= j < |form[3..]| && form[3..][j].name == name;
      assert form[j + 3] == form[3..][j];
    }
  }

  /** Each name is appended at most once, and only `file` holds a file. */
  lemma FormNamesDistinct(message: string, mode: Mode, model: string, operation: Option<Operation>, file: Option<File>)
    ensures var form := Form(message, mode, model, operation, file);
      && (forall i :: 0 <= i < |form| ==> (form[i].FileField? <==> form[i].name == "file"))
      && (forall i, j :: 0 <= i < j < |form| ==> form[i].name != form[j].name)
  {
  }

  /**
   * What the backend reads from the form: the text, the mode under `select`
   * and the model always; the operation only for a data send that has one;
   * the file only when there is one.
   */
  lemma FormContents(message: string, mode: Mode, model: string, operation: Option<Operation>, file: Option<File>)
    ensures var form := Form(message, mode, model, operation, file);
      && TextValue(form, "message") == Some(message)
      && TextValue(form, "select") == Some(ModeName(mode))
      && TextValue(form, "model") == Some(model)
      && (HasField(form, "operation") <==> mode == Data && operation.Some?)
      && (mode == Data && operation.Some? ==> TextValue(form, "operation") == Some(OperationName(operation.value)))
      && (HasField(form, "file") <==> file.Some?)
      && FileValue(form) == file
  {
    var form := Form(message, mode, model, operation, file);
    FormRequired(message, mode, model, operation, file);
    OptionalFields(mode, operation, file);
    RequiredPrefix(form, "operation");
    RequiredPrefix(form, "file");
  }
}
