/** The documents the scorer reads: a résumé or a job description, loaded once from an upload,
    from a file path or, failing both, from a per-kind fallback. A `Document` holds the state
    that `load` changes; what comes from outside (the temporary directory, the upload's fresh
    token, the file system, the language model) is an `Env` handed to it. */
module Documents {
  import opened Common
  import opened Text
  import opened Llm
  import PdfExtractor

  /** The two kinds of document. A job description carries its optional `job_title`. */
  datatype Kind = Resume | JobDescription(jobTitle: Option<string>) {
    /** `self.__class__.__name__`, as it appears in the error messages. */
    function ClassName(): string {
      match this
      case Resume => "Resume"
      case JobDescription(_) => "JobDescription"
    }
  }

  /** The error of reading the content of an unloaded document: its class name, then
      ` must be loaded before accessing content`. */
  function NotLoadedMessage(kind: Kind): string {
    match kind
    case Resume => "Resume must be loaded before accessing content"
    case JobDescription(_) => "JobDescription must be loaded before accessing content"
  }

  /** An uploaded file: its client-side name and its size in bytes. */
  datatype Upload = Upload(filename: string, size: nat)

  /** The extensions the temporary-file manager accepts, and its size limit (1 MiB). */
  const AllowedUploadTypes: set<string> := {".txt", ".md", ".rtf", ".pdf", ".doc", ".docx"}
  const MaxUploadSize: nat := 1024 * 1024

  /** The extensions `_load_file_content` can read. */
  const ReadableTypes: set<string> := {".pdf", ".txt", ".md", ".rtf"}

  /** The outside world as `load` sees it: the system temporary directory, the hex token a
      fresh UUID gives the upload's temporary name, reading a text file, the PDF files, and
      the language-model gateway. */
  datatype Env = Env(
    tempDir: string,
    uploadToken: string,
    readText: string -> Result<string>,
    pdfFiles: PdfExtractor.FileSystem,
    gateway: Gateway)

  /** What `os.path.join(dir, name)` puts in front of a relative `name`: nothing for an empty
      `dir`, a `/` unless `dir` already ends with one. */
  function DirPrefix(dir: string): (r: string)
    ensures dir == "" ==> r == ""
    ensures dir != "" ==> r == dir || r == dir + "/"
    ensures dir != "" ==> r[|r| - 1] == '/'
  {
    if dir == "" then ""
    else if dir[|dir| - 1] == '/' then dir
    else dir + "/"
  }

  /** `os.path.join(dir, name)` for a relative `name`. */
  function JoinPath(dir: string, name: string): string {
    DirPrefix(dir) + name
  }

  /** The joined path starts with the directory and ends with the name; with a directory, a
      `/` separates the two, and without one the name stands alone. */
  lemma JoinPathShape(dir: string, name: string)
    ensures dir == "" ==> JoinPath(dir, name) == name
    ensures |JoinPath(dir, name)| >= |dir| + |name| && JoinPath(dir, name)[..|dir|] == dir
    ensures JoinPath(dir, name)[|JoinPath(dir, name)| - |name|..] == name
    ensures dir != "" ==> JoinPath(dir, name)[|JoinPath(dir, name)| - |name| - 1] == '/'
  {
    var r := JoinPath(dir, name);
    assert r[|r| - |name|..] == name;
    if dir != "" {
      assert r[..|dir|] == dir;
    }
  }

  /** The extension an upload is judged by: the lower-cased suffix of its file name. */
  function UploadType(u: Upload): (r: string)
    ensures |r| == |Suffix(u.filename)|
    ensures r == "" || (r[0] == '.' && |r| >= 2)
  {
    AsciiLower(Suffix(u.filename))
  }

  /** What the temporary copy's path puts in front of the upload's name. */
  function TempPrefix(env: Env): string {
    DirPrefix(env.tempDir) + "upload_" + env.uploadToken + "_"
  }

  /** The temporary prefix starts with the temporary directory and ends with `_`. */
  lemma TempPrefixShape(env: Env)
    ensures |TempPrefix(env)| >= |env.tempDir| + |"upload_"| + |env.uploadToken| + 1
    ensures TempPrefix(env)[..|env.tempDir|] == env.tempDir
    ensures TempPrefix(env)[|TempPrefix(env)| - 1] == '_'
  {
    var r := TempPrefix(env);
    var d := DirPrefix(env.tempDir);
    assert r == d + ("upload_" + env.uploadToken + "_");
    assert d[..|env.tempDir|] == env.tempDir;
    assert r[..|env.tempDir|] == d[..|env.tempDir|];
  }

  /** The checks of the temporary-file manager and the path of the temporary copy: an
      extension outside the allow-list is refused first, then a file over the size limit. */
  function MaterializeUpload(u: Upload, env: Env): (r: Result<string>)
    ensures r.Ok? <==> UploadType(u) in AllowedUploadTypes && u.size <= MaxUploadSize
    ensures UploadType(u) !in AllowedUploadTypes ==> r == Err(UploadRejected(UploadType(u)))
    ensures UploadType(u) in AllowedUploadTypes && u.size > MaxUploadSize
            ==> r == Err(ValueError("File size exceeds maximum limit of 1.0MB"))
    ensures r.Ok? ==> r.value == TempPrefix(env) + u.filename
  {
    if UploadType(u) !in AllowedUploadTypes then Err(UploadRejected(UploadType(u)))
    else if u.size > MaxUploadSize then Err(ValueError("File size exceeds maximum limit of 1.0MB"))
    else
      TempPathOf(env, u.filename);
      Ok(JoinPath(env.tempDir, "upload_" + env.uploadToken + "_" + u.filename))
  }

  /** The temporary path of a file name is that name behind the temporary prefix. */
  lemma TempPathOf(env: Env, filename: string)
    ensures JoinPath(env.tempDir, "upload_" + env.uploadToken + "_" + filename) == TempPrefix(env) + filename
  {
    var name := "upload_" + env.uploadToken + "_" + filename;
    assert JoinPath(env.tempDir, name) == DirPrefix(env.tempDir) + name;
  }

  /** `_load_pdf`: the extractor's page texts joined with newlines. */
  function PdfText(path: string, env: Env): (r: Result<string>)
    ensures r.Ok? <==> PdfExtractor.ContentOf(path, None, env.pdfFiles).Ok?
    ensures r.Ok? ==> r.value == Join("\n", PdfExtractor.ContentOf(path, None, env.pdfFiles).value.text)
    ensures r.Err? ==> r.error == PdfExtractor.ContentOf(path, None, env.pdfFiles).error
  {
    var content :- PdfExtractor.ContentOf(path, None, env.pdfFiles);
    Ok(Join("\n", content.text))
  }

  /** `_load_file_content` on the file at `path`, dispatched on `fileType`. */
  function FileContent(fileType: string, path: string, env: Env): (r: Result<string>)
    ensures fileType !in ReadableTypes ==> r == Err(ValueError("Unsupported file type"))
    ensures fileType == ".pdf" ==> r == PdfText(path, env)
    ensures fileType in {".txt", ".md", ".rtf"} ==> r == env.readText(path)
  {
    if fileType == ".pdf" then PdfText(path, env)
    else if fileType in {".txt", ".md", ".rtf"} then env.readText(path)
    else Err(ValueError("Unsupported file type"))
  }

  const GeneratorInstruction :=
    "You are a job description generator. You will be given a job title and you will need to generate a job description for the job title."

  /** The request a job description sends for its title: the generator instruction, then the
      title, to the client's default model with no temperature. */
  function GeneratorRequest(title: string): (r: ChatRequest)
    ensures |r.messages| == 2
    ensures r.messages[0] == SystemMessage(GeneratorInstruction)
    ensures r.messages[1] == UserMessage("Job Title: " + title)
    ensures r.model == Gpt4oMini && r.temperature == None
  {
    ChatRequest([SystemMessage(GeneratorInstruction), UserMessage("Job Title: " + title)], Gpt4oMini, None)
  }

  /** `_load_alternative`: a résumé always fails; a job description without a title fails
      before any request, and otherwise its content is the model's reply. */
  function LoadAlternative(kind: Kind, env: Env): (r: Result<string>)
    ensures kind.Resume? ==> r == Err(ValueError("Resume requires a file"))
    ensures kind.JobDescription? && !Truthy(kind.jobTitle)
            ==> r == Err(ValueError("Job title is required when generating description"))
    ensures kind.JobDescription? && Truthy(kind.jobTitle)
            ==> r == env.gateway.chat(GeneratorRequest(kind.jobTitle.value))
  {
    match kind
    case Resume => Err(ValueError("Resume requires a file"))
    case JobDescription(title) =>
      if !Truthy(title) then Err(ValueError("Job title is required when generating description"))
      else env.gateway.chat(GeneratorRequest(title.value))
  }

  /** What choosing and reading a source gives: the `file_path` afterwards and the content read. */
  datatype Fetched = Fetched(filePath: Option<string>, content: Result<string>)

  /** The source choice of `load`: the upload if there is one (its temporary path becomes the
      file path), else the file path, else the fallback. */
  function FetchContent(file: Option<Upload>, filePath: Option<string>, kind: Kind, env: Env): (r: Fetched)
    ensures file.Some? && MaterializeUpload(file.value, env).Err?
            ==> r == Fetched(filePath, Err(MaterializeUpload(file.value, env).error))
    ensures file.Some? && MaterializeUpload(file.value, env).Ok?
            ==> var tempPath := MaterializeUpload(file.value, env).value;
                r == Fetched(Some(tempPath), FileContent(AsciiLower(Suffix(tempPath)), tempPath, env))
    ensures file.None? && filePath.Some?
            ==> r == Fetched(filePath, FileContent(AsciiLower(Suffix(filePath.value)), filePath.value, env))
    ensures file.None? && filePath.None? ==> r == Fetched(None, LoadAlternative(kind, env))
  {
    if file.Some? then
      match MaterializeUpload(file.value, env)
      case Err(e) => Fetched(filePath, Err(e))
      case Ok(tempPath) => Fetched(Some(tempPath), FileContent(AsciiLower(Suffix(tempPath)), tempPath, env))
    else if filePath.Some? then
      Fetched(filePath, FileContent(AsciiLower(Suffix(filePath.value)), filePath.value, env))
    else
      Fetched(None, LoadAlternative(kind, env))
  }

  /** The outcome of `load` for what was read: an error passes through, empty content is
      refused. */
  function LoadVerdict(kind: Kind, content: Result<string>): (r: Result<()>)
    ensures r.Ok? <==> content.Ok? && content.value != ""
    ensures content.Err? ==> r == Err(content.error)
    ensures content == Ok("") ==> r == Err(ValueError("Failed to load " + kind.ClassName() + " content"))
  {
    match content
    case Err(e) => Err(e)
    case Ok(text) => if text == "" then Err(ValueError("Failed to load " + kind.ClassName() + " content")) else Ok(())
  }

  /** A document and its load state. */
  class Document {
    const kind: Kind
    var file: Option<Upload>
    var filePath: Option<string>
    var storedContent: Option<string>
    var isLoaded: bool

    /** A new document is unloaded and holds no content. */
    constructor (kind: Kind, file: Option<Upload>, filePath: Option<string>)
      ensures this.kind == kind && this.file == file && this.filePath == filePath
      ensures storedContent == None && !isLoaded
    {
      this.kind := kind;
      this.file := file;
      this.filePath := filePath;
      storedContent := None;
      isLoaded := false;
    }

    /** The `content` getter: refused while unloaded, and when the content is `None`. */
    function Content(): (r: Result<string>)
      reads this
      ensures r.Ok? <==> isLoaded && storedContent.Some?
      ensures r.Ok? ==> r.value == storedContent.value
      ensures !isLoaded ==> r == Err(ValueError(NotLoadedMessage(kind)))
      ensures isLoaded && storedContent.None?
              ==> r == Err(ValueError(kind.ClassName() + " content is None despite being loaded"))
    {
      if !isLoaded then Err(ValueError(NotLoadedMessage(kind)))
      else if storedContent.None? then Err(ValueError(kind.ClassName() + " content is None despite being loaded"))
      else Ok(storedContent.value)
    }

    /** The `content` setter: writes the content and leaves the load flag alone. */
    method SetContent(value: Option<string>)
      modifies this
      ensures storedContent == value
      ensures isLoaded == old(isLoaded) && file == old(file) && filePath == old(filePath)
    {
      storedContent := value;
    }

    function IsLoaded(): (r: bool)
      reads this
      ensures r <==> isLoaded
    {
      isLoaded
    }

    /** `_load_file_content`: reads the file at the current file path by its type. */
    method LoadFileContent(fileType: string, env: Env) returns (r: Result<string>)
      requires filePath.Some?
      ensures r == FileContent(fileType, filePath.value, env)
    {
      if fileType == ".pdf" {
        var content := PdfExtractor.ExtractContent(filePath.value, None, env.pdfFiles);
        if content.Err? {
          return Err(content.error);
        }
        r := Ok(Join("\n", content.value.text));
      } else if fileType in {".txt", ".md", ".rtf"} {
        r := env.readText(filePath.value);
      } else {
        r := Err(ValueError("Unsupported file type"));
      }
    }

    /** `load`: nothing happens once loaded. Otherwise the source is chosen and read, the
        content is stored when reading succeeded, and the document becomes loaded exactly
        when that content is non-empty. */
    method Load(env: Env) returns (outcome: Result<()>)
      modifies this
      ensures file == old(file)
      ensures old(isLoaded) ==> outcome == Ok(()) && isLoaded
                                && storedContent == old(storedContent) && filePath == old(filePath)
      ensures !old(isLoaded) ==>
                var fetched := FetchContent(file, old(filePath), kind, env);
                && filePath == fetched.filePath
                && storedContent == (if fetched.content.Ok? then Some(fetched.content.value) else old(storedContent))
                && outcome == LoadVerdict(kind, fetched.content)
                && isLoaded == outcome.Ok?
    {
      if isLoaded {
        return Ok(());
      }
      var loaded: Result<string>;
      if file.Some? {
        var tempPath := MaterializeUpload(file.value, env);
        if tempPath.Err? {
          return Err(tempPath.error);
        }
        filePath := Some(tempPath.value);
        loaded := LoadFileContent(AsciiLower(Suffix(tempPath.value)), env);
      } else if filePath.Some? {
        loaded := LoadFileContent(AsciiLower(Suffix(filePath.value)), env);
      } else {
        loaded := LoadAlternative(kind, env);
      }
      if loaded.Err? {
        return Err(loaded.error);
      }
      storedContent := Some(loaded.value);
      if loaded.value == "" {
        return Err(ValueError("Failed to load " + kind.ClassName() + " content"));
      }
      isLoaded := true;
      outcome := Ok(());
    }
  }

  // ---------------------------------------------------------------------------------------
  // Properties of loading

  /** The temporary copy of an accepted upload has the upload's own type, so the type the
      allow-list accepted is the type the dispatch sees. */
  lemma UploadTypeSurvivesTempPath(u: Upload, env: Env)
    requires MaterializeUpload(u, env).Ok?
    ensures AsciiLower(Suffix(MaterializeUpload(u, env).value)) == UploadType(u)
  {
    assert UploadType(u) in AllowedUploadTypes;
    assert |Suffix(u.filename)| == |UploadType(u)| > 0;
    SuffixOfAppend(TempPrefix(env), u.filename);
  }

  /** `.doc` and `.docx` uploads pass the allow-list and are then refused by the dispatch. */
  lemma WordUploadsRejected(u: Upload, filePath: Option<string>, kind: Kind, env: Env)
    requires UploadType(u) in {".doc", ".docx"} && u.size <= MaxUploadSize
    ensures MaterializeUpload(u, env).Ok?
    ensures FetchContent(Some(u), filePath, kind, env).content == Err(ValueError("Unsupported file type"))
    ensures LoadVerdict(kind, FetchContent(Some(u), filePath, kind, env).content).Err?
  {
    var t := UploadType(u);
    WordTypes(t);
    var tempPath := MaterializeUpload(u, env).value;
    UploadTypeSurvivesTempPath(u, env);
    assert FetchContent(Some(u), filePath, kind, env).content == FileContent(t, tempPath, env);
  }

  /** The Word extensions are on the upload allow-list but not among the readable types. */
  lemma WordTypes(t: string)
    requires t in {".doc", ".docx"}
    ensures t in AllowedUploadTypes && t !in ReadableTypes
  {
    if t == ".doc" {} else { assert t == ".docx"; }
  }

  /** Exactly one source is used: with an upload the file path given does not matter, and with
      a file path and no upload the kind's fallback is never consulted. */
  lemma OneSourceUsed(u: Upload, p1: Option<string>, p2: Option<string>, path: string, k1: Kind, k2: Kind, env: Env)
    ensures FetchContent(Some(u), p1, k1, env).content == FetchContent(Some(u), p2, k2, env).content
    ensures FetchContent(None, Some(path), k1, env) == FetchContent(None, Some(path), k2, env)
  {
  }

  /** A résumé with neither an upload nor a path fails with "Resume requires a file". */
  lemma ResumeWithoutFileFails(env: Env)
    ensures LoadVerdict(Resume, FetchContent(None, None, Resume, env).content)
         == Err(ValueError("Resume requires a file"))
  {
  }

  /** A résumé that loads got its content from a PDF, text, Markdown or RTF file: the upload's
      temporary copy or the given path. */
  lemma LoadedResumeCameFromSupportedFile(file: Option<Upload>, filePath: Option<string>, env: Env)
    requires LoadVerdict(Resume, FetchContent(file, filePath, Resume, env).content).Ok?
    ensures file.Some? || filePath.Some?
    ensures FetchContent(file, filePath, Resume, env).filePath.Some?
    ensures AsciiLower(Suffix(FetchContent(file, filePath, Resume, env).filePath.value)) in ReadableTypes
    ensures file.Some? ==> UploadType(file.value) in ReadableTypes
  {
    if file.Some? {
      UploadTypeSurvivesTempPath(file.value, env);
    }
  }

  /** A job description without a title fails before the model is asked, whatever the model
      would have answered. */
  lemma JobDescriptionNeedsTitle(title: Option<string>, env: Env, env': Env)
    requires !Truthy(title)
    ensures FetchContent(None, None, JobDescription(title), env)
         == FetchContent(None, None, JobDescription(title), env')
         == Fetched(None, Err(ValueError("Job title is required when generating description")))
  {
  }

  /** A titled job description loads exactly when the model replies with non-empty text, and
      the reply becomes its content; an empty reply is refused. */
  lemma JobDescriptionReplyIsContent(title: string, env: Env)
    requires title != ""
    ensures var reply := env.gateway.chat(GeneratorRequest(title));
            var fetched := FetchContent(None, None, JobDescription(Some(title)), env);
            && fetched.content == reply
            && (LoadVerdict(JobDescription(Some(title)), fetched.content).Ok? <==> reply.Ok? && reply.value != "")
            && (reply == Ok("") ==> LoadVerdict(JobDescription(Some(title)), fetched.content)
                                    == Err(ValueError("Failed to load JobDescription content")))
  {
    assert "Failed to load " + JobDescription(Some(title)).ClassName() + " content"
        == "Failed to load JobDescription content";
  }

  /** A résumé without a file: loading fails, the résumé stays unloaded, reading its content is
      refused, and a second attempt fails the same way. */
  method ResumeWithoutFile(env: Env) returns (first: Result<()>, read: Result<string>, second: Result<()>)
    ensures first == second == Err(ValueError("Resume requires a file"))
    ensures read == Err(ValueError("Resume must be loaded before accessing content"))
  {
    var resume := new Document(Resume, None, None);
    ResumeWithoutFileFails(env);
    first := resume.Load(env);
    assert !resume.isLoaded && resume.file == None && resume.filePath == None;
    read := resume.Content();
    second := resume.Load(env);
  }

  /** Loading a loaded document changes nothing: a job description loaded from its title
      keeps the first reply even when asked to load again in another environment, whose
      model might answer differently or fail. */
  method LoadIsIdempotent(title: string, env: Env, env': Env) returns (first: Result<()>, second: Result<()>, read: Result<string>)
    requires title != ""
    requires env.gateway.chat(GeneratorRequest(title)).Ok?
    requires env.gateway.chat(GeneratorRequest(title)).value != ""
    ensures first == second == Ok(())
    ensures read == env.gateway.chat(GeneratorRequest(title))
  {
    var jd := new Document(JobDescription(Some(title)), None, None);
    first := jd.Load(env);
    second := jd.Load(env');
    read := jd.Content();
  }
}
