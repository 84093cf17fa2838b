/**
 * app.go: the App, which keeps a catalogue next to its HTML document and
 * the document's ".json" snapshot, and the ordering of its Init, Clear and
 * GenerateDocument steps.
 */
module Apps {
  import opened Wrappers
  import opened Errors
  import opened Capture
  import opened Catalogue
  import opened Files

  class App {
    var name: string
    var templateHtmlPath: string
    var outputHtmlPath: string
    var apiList: seq<Api>

    /** NewApp: the three strings as given and an empty catalogue. */
    constructor(name: string, templateHtmlPath: string, outputHtmlPath: string)
      ensures this.name == name && this.templateHtmlPath == templateHtmlPath
      ensures this.outputHtmlPath == outputHtmlPath && apiList == []
    {
      this.name := name;
      this.templateHtmlPath := templateHtmlPath;
      this.outputHtmlPath := outputHtmlPath;
      apiList := [];
    }

    /** OutputHTMLPathWithJSONExtension: the document path with ".json" added, never the document itself. */
    function JsonPath(): (r: string)
      reads this`outputHtmlPath
      ensures r != outputHtmlPath
      ensures |r| == |outputHtmlPath| + 5 && r[..|outputHtmlPath|] == outputHtmlPath
    {
      outputHtmlPath + ".json"
    }

    /** CreateJSONFile: the snapshot exists and is empty afterwards, or the create error is returned and nothing changes. */
    function CreateJsonFile(fs: Fs): (e: Effect)
      reads this`outputHtmlPath
      ensures e.fs.faults == fs.faults
      ensures e.err.None? <==> !Fails(fs, Op.Create, JsonPath())
      ensures e.err.None? ==> e.fs.files == fs.files[JsonPath() := Blank]
      ensures e.err.Some? ==> e.fs == fs
    {
      CreateFile(fs, JsonPath())
    }

    /** WriteAPIList: marshal, indent and write the catalogue into the created snapshot. */
    function WriteApiList(fs: Fs): (e: Effect)
      reads this`outputHtmlPath, this`apiList
      ensures e.fs.faults == fs.faults && e.fs.files - {JsonPath()} == fs.files - {JsonPath()}
      ensures e.err.None? <==> !Fails(fs, Op.Marshal, JsonPath()) && !Fails(fs, Op.Indent, JsonPath()) && !Fails(fs, Op.Write, JsonPath())
      ensures e.err.None? ==> JsonPath() in e.fs.files && e.fs.files[JsonPath()] == Snapshot(apiList)
    {
      WriteSnapshot(fs, JsonPath(), apiList)
    }

    /** CreateHTMLFile: the document exists and is empty afterwards, or the create error is returned and nothing changes. */
    function CreateHtmlFile(fs: Fs): (e: Effect)
      reads this`outputHtmlPath
      ensures e.fs.faults == fs.faults
      ensures e.err.None? <==> !Fails(fs, Op.Create, outputHtmlPath)
      ensures e.err.None? ==> e.fs.files == fs.files[outputHtmlPath := Blank]
      ensures e.err.Some? ==> e.fs == fs
    {
      CreateFile(fs, outputHtmlPath)
    }

    /** ExecuteTemplate: parse the template (a failure panics), then render the name and the catalogue. */
    function ExecuteTemplate(fs: Fs): (e: Effect)
      reads this
      ensures e.fs.faults == fs.faults && e.fs.files - {outputHtmlPath} == fs.files - {outputHtmlPath}
      ensures ParseTemplateFile(fs, templateHtmlPath).Some? ==> e == Effect(ParseTemplateFile(fs, templateHtmlPath), fs)
      ensures e.err.None? <==> (ParseTemplateFile(fs, templateHtmlPath).None? && !Fails(fs, Op.ExecuteTemplate, outputHtmlPath))
      ensures e.err.None? ==> outputHtmlPath in e.fs.files && e.fs.files[outputHtmlPath] == Page(name, apiList)
    {
      var parsed := ParseTemplateFile(fs, templateHtmlPath);
      if parsed.Some? then Effect(parsed, fs)
      else ExecuteInto(fs, outputHtmlPath, name, apiList)
    }

    /** RemoveJSONFile: missing, it is an error; otherwise only the snapshot goes, unless the removal fails. */
    function RemoveJsonFile(fs: Fs): (e: Effect)
      reads this`outputHtmlPath
      ensures e.fs.faults == fs.faults
      ensures JsonPath() !in fs.files ==> e == Effect(Some(NotExist(JsonPath())), fs)
      ensures e.err.None? <==> JsonPath() in fs.files && !Fails(fs, Op.Remove, JsonPath())
      ensures e.err.None? ==> e.fs.files == fs.files - {JsonPath()}
      ensures e.err.Some? ==> e.fs == fs
    {
      RemoveFile(fs, JsonPath())
    }

    /** RemoveHTMLFile: the same for the document. */
    function RemoveHtmlFile(fs: Fs): (e: Effect)
      reads this`outputHtmlPath
      ensures e.fs.faults == fs.faults
      ensures outputHtmlPath !in fs.files ==> e == Effect(Some(NotExist(outputHtmlPath)), fs)
      ensures e.err.None? <==> outputHtmlPath in fs.files && !Fails(fs, Op.Remove, outputHtmlPath)
      ensures e.err.None? ==> e.fs.files == fs.files - {outputHtmlPath}
      ensures e.err.Some? ==> e.fs == fs
    {
      RemoveFile(fs, outputHtmlPath)
    }

    /**
     * Init, as written: the snapshot is created, which truncates it, and
     * then decoded, which therefore always meets end-of-input and returns
     * nil. The whole call amounts to emptying the snapshot: the catalogue
     * is not loaded and the document is not rendered.
     */
    method Init(fs: Fs) returns (err: Option<Error>, fs': Fs)
      ensures Effect(err, fs') == CreateJsonFile(fs)
      ensures err.None? ==> JsonPath() in fs'.files && fs'.files[JsonPath()] == Blank
    {
      var created := CreateJsonFile(fs);
      if created.err.Some? {
        return created.err, created.fs;
      }
      match DecodeApis(created.fs.files[JsonPath()], JsonPath()) {
        case Failure(e) =>
          if e == Eof {
            return None, created.fs;
          }
          assert false;
        case Success(_) =>
          assert false;
      }
    }

    /**
     * Init as evidently intended: open the snapshot without truncating it
     * (create it only when it is missing), decode it into the catalogue,
     * then create and render the document. An empty snapshot still ends
     * the call with nil, as end-of-input does in Init.
     */
    method InitPreservingSnapshot(fs: Fs) returns (err: Option<Error>, fs': Fs)
      modifies this`apiList
      ensures fs'.faults == fs.faults
      ensures JsonPath() in fs.files ==> JsonPath() in fs'.files && fs'.files[JsonPath()] == fs.files[JsonPath()]
      ensures JsonPath() in fs.files && fs.files[JsonPath()].Snapshot? && !Fails(fs, Op.Open, JsonPath()) ==>
        apiList == fs.files[JsonPath()].apis
        && Effect(err, fs') == (if CreateHtmlFile(fs).err.Some? then CreateHtmlFile(fs) else ExecuteTemplate(CreateHtmlFile(fs).fs))
      ensures !(JsonPath() in fs.files && fs.files[JsonPath()].Snapshot? && !Fails(fs, Op.Open, JsonPath())) ==>
        apiList == old(apiList)
    {
      var path := JsonPath();
      var file: Result<Content, Error>;
      fs' := fs;
      if path in fs.files {
        file := OpenFile(fs, path);
      } else {
        var created := CreateJsonFile(fs);
        if created.err.Some? {
          return created.err, created.fs;
        }
        fs' := created.fs;
        file := Success(Blank);
      }
      if file.Failure? {
        return Some(file.error), fs';
      }
      match DecodeApis(file.value, path) {
        case Failure(e) =>
          if e == Eof {
            return None, fs';
          }
          return Some(e), fs';
        case Success(decoded) =>
          apiList := decoded;
      }
      var html := CreateHtmlFile(fs');
      if html.err.Some? {
        return html.err, html.fs;
      }
      var rendered := ExecuteTemplate(html.fs);
      return rendered.err, rendered.fs;
    }

    /** Clear: remove the snapshot, then the document; the catalogue is emptied only when both go. */
    method Clear(fs: Fs) returns (err: Option<Error>, fs': Fs)
      modifies this`apiList
      ensures RemoveJsonFile(fs).err.Some? ==> err == RemoveJsonFile(fs).err && fs' == fs && apiList == old(apiList)
      ensures RemoveJsonFile(fs).err.None? ==> Effect(err, fs') == RemoveHtmlFile(RemoveJsonFile(fs).fs)
      ensures apiList == if err.None? then [] else old(apiList)
    {
      var json := RemoveJsonFile(fs);
      if json.err.Some? {
        return json.err, json.fs;
      }
      var html := RemoveHtmlFile(json.fs);
      if html.err.Some? {
        return html.err, html.fs;
      }
      apiList := [];
      return None, html.fs;
    }

    /** AppendAPI: overwrite the first equal record in place, or append. */
    method AppendApi(newApi: Api)
      modifies this`apiList
      ensures apiList == Upsert(old(apiList), newApi)
    {
      var i := 0;
      while i < |apiList|
        invariant 0 <= i <= |apiList| && apiList == old(apiList)
        invariant forall k :: 0 <= k < i ==> !Equal(newApi, apiList[k])
      {
        if Equal(newApi, apiList[i]) {
          apiList := apiList[i := newApi];
          return;
        }
        i := i + 1;
      }
      apiList := apiList + [newApi];
    }

    /**
     * GenerateDocument: record the API first, so the catalogue changes even
     * when a file step fails; then create and write the snapshot, then
     * create and render the document, stopping at the first error.
     */
    method GenerateDocument(api: Api, fs: Fs) returns (err: Option<Error>, fs': Fs)
      modifies this`apiList
      ensures apiList == Upsert(old(apiList), api)
      ensures Effect(err, fs') == Generated(fs)
    {
      AppendApi(api);
      var json := CreateJsonFile(fs);
      if json.err.Some? {
        return json.err, json.fs;
      }
      var written := WriteApiList(json.fs);
      if written.err.Some? {
        return written.err, written.fs;
      }
      var html := CreateHtmlFile(written.fs);
      if html.err.Some? {
        return html.err, html.fs;
      }
      var rendered := ExecuteTemplate(html.fs);
      return rendered.err, rendered.fs;
    }

    /**
     * The file steps of GenerateDocument with the current catalogue: a
     * snapshot failure skips the document, and on success the snapshot and
     * the document both hold the catalogue.
     */
    function Generated(fs: Fs): (e: Effect)
      reads this
      ensures e.fs.faults == fs.faults
      ensures CreateJsonFile(fs).err.Some? ==> e == CreateJsonFile(fs)
      ensures CreateJsonFile(fs).err.None? && WriteApiList(CreateJsonFile(fs).fs).err.Some? ==>
        e == WriteApiList(CreateJsonFile(fs).fs) && (outputHtmlPath in e.fs.files <==> outputHtmlPath in fs.files)
      ensures e.err.None? ==> JsonPath() in e.fs.files && e.fs.files[JsonPath()] == Snapshot(apiList)
      ensures e.err.None? ==> outputHtmlPath in e.fs.files && e.fs.files[outputHtmlPath] == Page(name, apiList)
    {
      var json := CreateJsonFile(fs);
      if json.err.Some? then json
      else
        var written := WriteApiList(json.fs);
        if written.err.Some? then written
        else
          var html := CreateHtmlFile(written.fs);
          if html.err.Some? then html
          else ExecuteTemplate(html.fs)
    }
  }

  /**
   * What Init does to a snapshot that holds a catalogue: os.Create empties
   * it, the decoder then meets end-of-input, and the catalogue is gone.
   */
  lemma InitDiscardsSnapshot(app: App, fs: Fs, apis: seq<Api>)
    requires app.JsonPath() in fs.files && fs.files[app.JsonPath()] == Snapshot(apis) && apis != []
    requires !Fails(fs, Op.Create, app.JsonPath())
    ensures app.CreateJsonFile(fs).err.None?
    ensures app.CreateJsonFile(fs).fs.files[app.JsonPath()] == Blank
    ensures DecodeApis(app.CreateJsonFile(fs).fs.files[app.JsonPath()], app.JsonPath()) == Failure(Eof)
    ensures app.CreateJsonFile(fs).fs.files[app.JsonPath()] != fs.files[app.JsonPath()]
  {
  }
}
