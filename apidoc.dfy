/**
 * apidoc.go: the package-level state, a `disable` flag and the global
 * project `p`, and the entry points that sequence the project's steps.
 * Gen and Clear stop at the first error; Gen never looks at the flag,
 * which only its callers consult.
 */
module Apidoc {
  import opened Wrappers
  import opened Errors
  import opened Capture
  import opened Catalogue
  import opened Files
  import opened Projects

  /** The package's variables. */
  class Globals {
    var disable: bool
    const p: Project

    /** Zero values: generation enabled, an empty project. */
    constructor()
      ensures !disable && fresh(p)
      ensures p.documentTitle == "" && p.documentPath == "" && p.templatePath == "" && p.apis == []
    {
      disable := false;
      p := new Project("", "", "", []);
    }

    /** Enable: only the flag changes. */
    method Enable()
      modifies this`disable
      ensures !IsDisabled() && unchanged(p)
    {
      disable := false;
    }

    /** Disable: only the flag changes. */
    method Disable()
      modifies this`disable
      ensures IsDisabled() && unchanged(p)
    {
      disable := true;
    }

    predicate IsDisabled()
      reads this`disable
    {
      disable
    }

    /**
     * Init: take the new project's settings with an empty catalogue, load
     * the snapshot (its absence is an error), then render the document.
     */
    method Init(newProject: Project, fs: Fs, srcRoot: Option<string>) returns (err: Option<Error>, fs': Fs)
      modifies p
      ensures p.documentTitle == old(newProject.documentTitle) && p.documentPath == old(newProject.documentPath)
      ensures p.templatePath == old(newProject.templatePath)
      ensures p.Load(fs).Failure? ==> err == Some(p.Load(fs).error) && fs' == fs && p.apis == []
      ensures p.Load(fs).Success? ==> p.apis == p.Load(fs).value && Effect(err, fs') == p.WriteDocumentFile(fs, srcRoot)
    {
      var title, documentPath, templatePath := newProject.documentTitle, newProject.documentPath, newProject.templatePath;
      p.documentTitle, p.documentPath, p.templatePath := title, documentPath, templatePath;
      p.apis := [];
      err := p.LoadDocumentJsonFile(fs);
      if err.Some? {
        return err, fs;
      }
      var written := p.WriteDocumentFile(fs, srcRoot);
      return written.err, written.fs;
    }

    /**
     * Init as its own test expects it (apidoc_test.go): a snapshot that does
     * not exist yet is an empty catalogue, not an error; any other load
     * failure is still returned before the document is written.
     */
    method InitAllowingMissingSnapshot(newProject: Project, fs: Fs, srcRoot: Option<string>) returns (err: Option<Error>, fs': Fs)
      modifies p
      ensures p.documentTitle == old(newProject.documentTitle) && p.documentPath == old(newProject.documentPath)
      ensures p.templatePath == old(newProject.templatePath)
      ensures p.DocumentJsonPath() !in fs.files ==> p.apis == [] && Effect(err, fs') == p.WriteDocumentFile(fs, srcRoot)
      ensures p.DocumentJsonPath() in fs.files && p.Load(fs).Failure? ==>
        err == Some(p.Load(fs).error) && fs' == fs && p.apis == []
      ensures p.Load(fs).Success? ==> p.apis == p.Load(fs).value && Effect(err, fs') == p.WriteDocumentFile(fs, srcRoot)
    {
      var title, documentPath, templatePath := newProject.documentTitle, newProject.documentPath, newProject.templatePath;
      p.documentTitle, p.documentPath, p.templatePath := title, documentPath, templatePath;
      p.apis := [];
      err := p.LoadDocumentJsonFile(fs);
      if err.Some? && !err.value.NotExist? {
        return err, fs;
      }
      var written := p.WriteDocumentFile(fs, srcRoot);
      return written.err, written.fs;
    }

    /** Clear: delete the snapshot, then the document; the catalogue is emptied only when both go. */
    method Clear(fs: Fs) returns (err: Option<Error>, fs': Fs)
      modifies p`apis
      ensures p.DeleteDocumentJsonFile(fs).err.Some? ==>
        err == p.DeleteDocumentJsonFile(fs).err && fs' == fs && p.apis == old(p.apis)
      ensures p.DeleteDocumentJsonFile(fs).err.None? ==>
        Effect(err, fs') == p.DeleteDocumentFile(p.DeleteDocumentJsonFile(fs).fs)
      ensures p.apis == if err.None? then [] else old(p.apis)
    {
      var json := p.DeleteDocumentJsonFile(fs);
      if json.err.Some? {
        return json.err, json.fs;
      }
      var html := p.DeleteDocumentFile(json.fs);
      if html.err.Some? {
        return html.err, html.fs;
      }
      p.apis := [];
      return None, html.fs;
    }

    /**
     * Gen: record the API first, then write the snapshot, then the
     * document. A snapshot failure skips the document, but the catalogue
     * has already changed. The flag plays no part.
     */
    method Gen(api: Api, fs: Fs, srcRoot: Option<string>) returns (err: Option<Error>, fs': Fs)
      modifies p`apis
      ensures p.apis == Upsert(old(p.apis), api)
      ensures p.WriteDocumentJsonFile(fs).err.Some? ==> Effect(err, fs') == p.WriteDocumentJsonFile(fs)
      ensures p.WriteDocumentJsonFile(fs).err.None? ==>
        Effect(err, fs') == p.WriteDocumentFile(p.WriteDocumentJsonFile(fs).fs, srcRoot)
    {
      p.AppendApi(api);
      var json := p.WriteDocumentJsonFile(fs);
      if json.err.Some? {
        return json.err, json.fs;
      }
      var html := p.WriteDocumentFile(json.fs, srcRoot);
      return html.err, html.fs;
    }
  }

  /**
   * The project of apidoc_test.go's TestInit on a file system without its
   * snapshot: loading fails with NotExist, so Init returns that error.
   */
  lemma FreshProjectLoadFails(p: Project, fs: Fs)
    requires p.documentPath == "apidoc-test.html" && "apidoc-test.html.json" !in fs.files
    ensures p.Load(fs) == Failure(NotExist("apidoc-test.html.json"))
  {
    assert p.DocumentJsonPath() == "apidoc-test.html.json";
  }

  /**
   * After a successful Gen the snapshot holds the catalogue and loads back
   * as it, and the document shows it.
   */
  lemma GenWritesBoth(p: Project, fs: Fs, srcRoot: Option<string>)
    requires p.WriteDocumentJsonFile(fs).err.None?
    requires p.WriteDocumentFile(p.WriteDocumentJsonFile(fs).fs, srcRoot).err.None?
    requires !Fails(fs, Op.Open, p.DocumentJsonPath())
    ensures var after := p.WriteDocumentFile(p.WriteDocumentJsonFile(fs).fs, srcRoot).fs;
      p.Load(after) == Success(p.apis)
      && p.DocumentPath() in after.files && after.files[p.DocumentPath()] == Page(p.documentTitle, p.apis)
  {
    var json := p.WriteDocumentJsonFile(fs).fs;
    var after := p.WriteDocumentFile(json, srcRoot).fs;
    SnapshotIsNotDocument(p);
    assert p.DocumentJsonPath() in (json.files - {p.DocumentPath()});
    assert after.files[p.DocumentJsonPath()] == json.files[p.DocumentJsonPath()];
  }
}
