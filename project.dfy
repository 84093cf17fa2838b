/**
 * project.go: a project's settings, the paths derived from them, the
 * catalogue it keeps, and the helpers that load and write its snapshot and
 * its document.
 */
module Projects {
  import opened Wrappers
  import opened Errors
  import opened Capture
  import opened Catalogue
  import opened Files

  const DefaultDocument := "apidoc.html"
  const DefaultTemplate := "default.tpl.html"
  const AppName := "github.com/gotokatsuya/apidoc"

  /**
   * findAppPath: the package's source directory under the source root
   * go/build reports, or "" when the package cannot be found.
   */
  function FindAppPath(srcRoot: Option<string>): string {
    match srcRoot
    case None => ""
    case Some(root) => PathJoin(root, AppName)
  }

  class Project {
    var documentTitle: string
    var documentPath: string
    var templatePath: string
    var apis: seq<Api>

    /** A Project{...} literal. */
    constructor(documentTitle: string, documentPath: string, templatePath: string, apis: seq<Api>)
      ensures this.documentTitle == documentTitle && this.documentPath == documentPath
      ensures this.templatePath == templatePath && this.apis == apis
    {
      this.documentTitle := documentTitle;
      this.documentPath := documentPath;
      this.templatePath := templatePath;
      this.apis := apis;
    }

    predicate HasDocumentPath()
      reads this`documentPath
    {
      documentPath != ""
    }

    /** getDocumentPath: the configured path, or apidoc.html; never empty. */
    function DocumentPath(): (r: string)
      reads this`documentPath
      ensures r != ""
      ensures HasDocumentPath() ==> r == documentPath
      ensures !HasDocumentPath() ==> r == DefaultDocument
    {
      if HasDocumentPath() then documentPath else DefaultDocument
    }

    /** getDocumentJSONPath: the document path with ".json" added, so never the document itself. */
    function DocumentJsonPath(): (r: string)
      reads this`documentPath
      ensures r != DocumentPath()
      ensures |r| == |DocumentPath()| + 5 && r[..|DocumentPath()|] == DocumentPath()
    {
      DocumentPath() + ".json"
    }

    predicate HasTemplatePath()
      reads this`templatePath
    {
      templatePath != ""
    }

    /** getTemplatePath: the configured template, or default.tpl.html in the package's directory. */
    function TemplatePath(srcRoot: Option<string>): (r: string)
      reads this`templatePath
      ensures HasTemplatePath() ==> r == templatePath
      ensures !HasTemplatePath() && srcRoot.None? ==> r == DefaultTemplate
      ensures !HasTemplatePath() && srcRoot.Some? ==> r == PathJoin(PathJoin(srcRoot.value, AppName), DefaultTemplate)
    {
      if HasTemplatePath() then templatePath else PathJoin(FindAppPath(srcRoot), DefaultTemplate)
    }

    /**
     * What loadDocumentJSONFile reads: the open error when the snapshot
     * cannot be opened (a missing file included), else the decoded
     * catalogue or the decoder's error.
     */
    function Load(fs: Fs): (r: Result<seq<Api>, Error>)
      reads this`documentPath
      ensures DocumentJsonPath() !in fs.files ==> r == Failure(NotExist(DocumentJsonPath()))
      ensures r.Success? <==> (DocumentJsonPath() in fs.files && !Fails(fs, Op.Open, DocumentJsonPath())
                               && fs.files[DocumentJsonPath()].Snapshot?)
      ensures r.Success? ==> r.value == fs.files[DocumentJsonPath()].apis
      ensures (DocumentJsonPath() in fs.files && fs.files[DocumentJsonPath()] == Blank
               && !Fails(fs, Op.Open, DocumentJsonPath())) ==> r == Failure(Eof)
    {
      match OpenFile(fs, DocumentJsonPath())
      case Failure(e) => Failure(e)
      case Success(c) => DecodeApis(c, DocumentJsonPath())
    }

    /** loadDocumentJSONFile: the catalogue is replaced only by a successful decode. */
    method LoadDocumentJsonFile(fs: Fs) returns (err: Option<Error>)
      modifies this`apis
      ensures Load(fs).Success? ==> apis == Load(fs).value && err == None
      ensures Load(fs).Failure? ==> apis == old(apis) && err == Some(Load(fs).error)
    {
      var file := OpenFile(fs, DocumentJsonPath());
      if file.Failure? {
        return Some(file.error);
      }
      var decoded := DecodeApis(file.value, DocumentJsonPath());
      if decoded.Failure? {
        return Some(decoded.error);
      }
      apis := decoded.value;
      return None;
    }

    /**
     * writeDocumentJSONFile: create the snapshot, then marshal, indent and
     * write the catalogue. Only the snapshot file changes; a create failure
     * changes nothing, a marshal or indent failure leaves it empty.
     */
    function WriteDocumentJsonFile(fs: Fs): (e: Effect)
      reads this`documentPath, this`apis
      ensures e.fs.faults == fs.faults && e.fs.files - {DocumentJsonPath()} == fs.files - {DocumentJsonPath()}
      ensures Fails(fs, Op.Create, DocumentJsonPath()) ==> e == Effect(Some(Failed(Op.Create, DocumentJsonPath())), fs)
      ensures !Fails(fs, Op.Create, DocumentJsonPath()) && (Fails(fs, Op.Marshal, DocumentJsonPath()) || Fails(fs, Op.Indent, DocumentJsonPath())) ==>
        e.err.Some? && DocumentJsonPath() in e.fs.files && e.fs.files[DocumentJsonPath()] == Blank
      ensures e.err.None? <==> (!Fails(fs, Op.Create, DocumentJsonPath()) && !Fails(fs, Op.Marshal, DocumentJsonPath())
                               && !Fails(fs, Op.Indent, DocumentJsonPath()) && !Fails(fs, Op.Write, DocumentJsonPath()))
      ensures e.err.None? ==> DocumentJsonPath() in e.fs.files && e.fs.files[DocumentJsonPath()] == Snapshot(apis)
    {
      var created := CreateFile(fs, DocumentJsonPath());
      if created.err.Some? then created
      else WriteSnapshot(created.fs, DocumentJsonPath(), apis)
    }

    /**
     * writeDocumentFile: parse the template first (a failure panics before
     * anything is touched), then create the document and execute the
     * template into it with the title and the catalogue.
     */
    function WriteDocumentFile(fs: Fs, srcRoot: Option<string>): (e: Effect)
      reads this
      ensures e.fs.faults == fs.faults && e.fs.files - {DocumentPath()} == fs.files - {DocumentPath()}
      ensures ParseTemplateFile(fs, TemplatePath(srcRoot)).Some? ==> e == Effect(ParseTemplateFile(fs, TemplatePath(srcRoot)), fs)
      ensures ParseTemplateFile(fs, TemplatePath(srcRoot)).None? && Fails(fs, Op.Create, DocumentPath()) ==>
        e == Effect(Some(Failed(Op.Create, DocumentPath())), fs)
      ensures e.err.None? <==> (ParseTemplateFile(fs, TemplatePath(srcRoot)).None? && !Fails(fs, Op.Create, DocumentPath())
                               && !Fails(fs, Op.ExecuteTemplate, DocumentPath()))
      ensures e.err.None? ==> DocumentPath() in e.fs.files && e.fs.files[DocumentPath()] == Page(documentTitle, apis)
    {
      var parsed := ParseTemplateFile(fs, TemplatePath(srcRoot));
      if parsed.Some? then Effect(parsed, fs)
      else
        var created := CreateFile(fs, DocumentPath());
        if created.err.Some? then created
        else ExecuteInto(created.fs, DocumentPath(), documentTitle, apis)
    }

    /** deleteDocumentJSONFile: remove the snapshot; missing, it is an error. */
    function DeleteDocumentJsonFile(fs: Fs): (e: Effect)
      reads this`documentPath
      ensures e.fs.faults == fs.faults
      ensures DocumentJsonPath() !in fs.files ==> e == Effect(Some(NotExist(DocumentJsonPath())), fs)
      ensures e.err.None? <==> DocumentJsonPath() in fs.files && !Fails(fs, Op.Remove, DocumentJsonPath())
      ensures e.err.None? ==> e.fs.files == fs.files - {DocumentJsonPath()}
      ensures e.err.Some? ==> e.fs == fs
    {
      RemoveFile(fs, DocumentJsonPath())
    }

    /** deleteDocumentFile: remove the document; missing, it is an error. */
    function DeleteDocumentFile(fs: Fs): (e: Effect)
      reads this`documentPath
      ensures e.fs.faults == fs.faults
      ensures DocumentPath() !in fs.files ==> e == Effect(Some(NotExist(DocumentPath())), fs)
      ensures e.err.None? <==> DocumentPath() in fs.files && !Fails(fs, Op.Remove, DocumentPath())
      ensures e.err.None? ==> e.fs.files == fs.files - {DocumentPath()}
      ensures e.err.Some? ==> e.fs == fs
    {
      RemoveFile(fs, DocumentPath())
    }

    /** appendAPI: overwrite the first equal record in place, or append. */
    method AppendApi(newApi: Api)
      modifies this`apis
      ensures apis == Upsert(old(apis), newApi)
    {
      var i := 0;
      while i < |apis|
        invariant 0 <= i <= |apis| && apis == old(apis)
        invariant forall k :: 0 <= k < i ==> !Equal(newApi, apis[k])
      {
        if Equal(newApi, apis[i]) {
          apis := apis[i := newApi];
          return;
        }
        i := i + 1;
      }
      apis := apis + [newApi];
    }
  }

  /** The snapshot and the document of a project are two different files. */
  lemma SnapshotIsNotDocument(p: Project)
    ensures p.DocumentJsonPath() != p.DocumentPath()
  {
  }

  /** A snapshot just written loads back as the catalogue that was written. */
  lemma WrittenSnapshotLoads(p: Project, fs: Fs)
    requires p.WriteDocumentJsonFile(fs).err.None?
    requires !Fails(fs, Op.Open, p.DocumentJsonPath())
    ensures p.Load(p.WriteDocumentJsonFile(fs).fs) == Success(p.apis)
  {
  }
}
