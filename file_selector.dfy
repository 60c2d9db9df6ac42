/**
 * `FileSelector` (example/src/fileselect.tsx): a popover of default files
 * beside an upload button. Choosing a default and uploading a file are
 * mutually exclusive selections; each reports itself through the
 * `onFileSelect` callback, modelled as the handler's return value.
 */
module FileSelect {
  import opened Wrappers

  /** The values of the `FileType` enum. */
  const FILE := "file"
  const DEFAULT := "default"

  /** An entry of `defaultFiles`. */
  datatype DefaultFile = DefaultFile(value: string, fileLabel: string)

  /** A browser `File` object; only its name is read. */
  datatype File = File(name: string)

  /** The `File | string` handed to `onFileSelect`: an uploaded file or a default file's value. */
  datatype Chosen = Uploaded(file: File) | Url(url: string)

  /** One `onFileSelect(file, type)` call. */
  datatype Selection = Selection(file: Chosen, fileType: string)

  /** `defaultFiles.find((file) => file.value === value)?.label`. */
  function FindLabel(files: seq<DefaultFile>, value: string): (r: Option<string>)
    ensures r.Some? <==> exists i :: 0 <= i < |files| && files[i].value == value
    ensures r.Some? ==> exists i :: 0 <= i < |files| && files[i].value == value && r.value == files[i].fileLabel &&
                                    forall j :: 0 <= j < i ==> files[j].value != value
  {
    if files == [] then None
    else if files[0].value == value then Some(files[0].fileLabel)
    else
      var rest := FindLabel(files[1..], value);
      assert forall i :: 1 <= i < |files| ==> files[i] == files[1..][i - 1];
      rest
  }

  /** The text of the popover's trigger button when no file is chosen. */
  const Placeholder := "Select file..."

  /** The state of one `FileSelector`. */
  class FileSelector {
    const defaultFiles: seq<DefaultFile>
    var open: bool
    var selectedFile: string
    var uploadedFile: Option<File>

    /** A default is never selected while an uploaded file is held. */
    ghost predicate Valid()
      reads this
    {
      !(selectedFile != "" && uploadedFile.Some?)
    }

    /** Closed, nothing selected, nothing uploaded. */
    constructor (defaultFiles: seq<DefaultFile>)
      ensures Valid()
      ensures this.defaultFiles == defaultFiles
      ensures !open && selectedFile == "" && uploadedFile == None
    {
      this.defaultFiles := defaultFiles;
      open := false;
      selectedFile := "";
      uploadedFile := None;
    }

    /**
     * The trigger button's text: the label of the first default matching
     * the selection (absent when none matches), else the uploaded file's
     * name, else the placeholder.
     */
    function ButtonLabel(): (r: Option<string>)
      reads this
      ensures selectedFile != "" ==> r == FindLabel(defaultFiles, selectedFile)
      ensures selectedFile == "" && uploadedFile.Some? ==> r == Some(uploadedFile.value.name)
      ensures selectedFile == "" && uploadedFile == None ==> r == Some(Placeholder)
    {
      if selectedFile != "" then FindLabel(defaultFiles, selectedFile)
      else if uploadedFile.Some? then Some(uploadedFile.value.name)
      else Some(Placeholder)
    }

    /** The check mark of an entry is fully opaque exactly when the entry's value is the selection. */
    function CheckOpacity(entry: DefaultFile): (r: string)
      reads this
      ensures r == "opacity-100" <==> entry.value == selectedFile
      ensures r == "opacity-100" || r == "opacity-0"
    {
      if selectedFile == entry.value then "opacity-100" else "opacity-0"
    }

    /** `onOpenChange={setOpen}`. */
    method SetOpen(b: bool)
      requires Valid()
      modifies this`open
      ensures Valid() && open == b
    {
      open := b;
    }

    /**
     * `handleFileUpload`: the first file of the change event, if any,
     * becomes the uploaded file, the default selection is cleared and
     * `onFileSelect(file, FILE)` is called; without a file nothing happens.
     */
    method HandleFileUpload(files: Option<seq<File>>) returns (selected: Option<Selection>)
      requires Valid()
      modifies this
      ensures Valid()
      ensures open == old(open)
      ensures files.Some? && |files.value| > 0 ==>
                uploadedFile == Some(files.value[0]) && selectedFile == "" &&
                selected == Some(Selection(Uploaded(files.value[0]), FILE))
      ensures files.Some? && |files.value| > 0 ==> ButtonLabel() == Some(files.value[0].name)
      ensures files.Some? && |files.value| > 0 ==>
                forall e :: CheckOpacity(e) == "opacity-100" <==> e.value == ""
      ensures !(files.Some? && |files.value| > 0) ==>
                selected == None && selectedFile == old(selectedFile) && uploadedFile == old(uploadedFile)
    {
      var file: Option<File> := if files.Some? && |files.value| > 0 then Some(files.value[0]) else None;
      if file.Some? {
        uploadedFile := file;
        selectedFile := "";
        return Some(Selection(Uploaded(file.value), FILE));
      }
      return None;
    }

    /**
     * `handleDefaultFileSelect(value)`: selects the default, drops any
     * uploaded file, calls `onFileSelect(value, DEFAULT)` and closes the
     * popover.
     */
    method HandleDefaultFileSelect(value: string) returns (selected: Selection)
      requires Valid()
      modifies this
      ensures Valid()
      ensures selectedFile == value && uploadedFile == None && !open
      ensures selected == Selection(Url(value), DEFAULT)
      ensures value != "" ==> ButtonLabel() == FindLabel(defaultFiles, value)
      ensures value == "" ==> ButtonLabel() == Some(Placeholder)
    {
      selectedFile := value;
      uploadedFile := None;
      selected := Selection(Url(value), DEFAULT);
      open := false;
    }
  }
}
