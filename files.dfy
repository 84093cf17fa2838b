/**
 * The file system the library writes its snapshot and its document to, as
 * a value: what each path holds, and which operations on which paths fail.
 * The os calls, the JSON encoder and decoder and html/template are not
 * modelled beyond what reaches the library: each either succeeds with its
 * effect or fails with an error, as the fault set says.
 */
module Files {
  import opened Wrappers
  import opened Errors
  import opened Capture

  /** What a file holds. */
  datatype Content =
    | Blank                               // just created or truncated by os.Create
    | Snapshot(apis: seq<Api>)            // a marshalled and indented catalogue
    | Page(title: string, apis: seq<Api>) // a document rendered from the template
    | Damaged                             // a write or an execution that stopped part-way
    | Other                               // any other text, such as a template

  /** The files by absolute path, and the operations that fail on a path. */
  datatype Fs = Fs(files: map<string, Content>, faults: set<(Op, string)>)

  /** The error an effect returned, and the file system after it. */
  datatype Effect = Effect(err: Option<Error>, fs: Fs)

  predicate Fails(fs: Fs, op: Op, path: string) {
    (op, path) in fs.faults
  }

  /** os.Open. */
  function OpenFile(fs: Fs, path: string): Result<Content, Error> {
    if path !in fs.files then Failure(NotExist(path))
    else if Fails(fs, Op.Open, path) then Failure(Failed(Op.Open, path))
    else Success(fs.files[path])
  }

  /** os.Create: the file exists and is empty afterwards. */
  function CreateFile(fs: Fs, path: string): Effect {
    if Fails(fs, Op.Create, path) then Effect(Some(Failed(Op.Create, path)), fs)
    else Effect(None, fs.(files := fs.files[path := Blank]))
  }

  /** os.Remove. */
  function RemoveFile(fs: Fs, path: string): Effect {
    if path !in fs.files then Effect(Some(NotExist(path)), fs)
    else if Fails(fs, Op.Remove, path) then Effect(Some(Failed(Op.Remove, path)), fs)
    else Effect(None, fs.(files := fs.files - {path}))
  }

  function Put(fs: Fs, path: string, c: Content): Fs {
    fs.(files := fs.files[path := c])
  }

  /** json.NewDecoder(file).Decode(&apis): an empty file reads as io.EOF. */
  function DecodeApis(c: Content, path: string): Result<seq<Api>, Error> {
    match c
    case Blank => Failure(Eof)
    case Snapshot(apis) => Success(apis)
    case _ => Failure(Failed(Op.Decode, path))
  }

  /**
   * Marshal the catalogue, indent it and write it into the file at `path`,
   * which has just been created: a marshal or indent failure leaves the
   * file empty, a write failure leaves it damaged.
   */
  function WriteSnapshot(fs: Fs, path: string, apis: seq<Api>): (e: Effect)
    ensures e.fs.faults == fs.faults && e.fs.files - {path} == fs.files - {path}
    ensures e.err.None? <==> !Fails(fs, Op.Marshal, path) && !Fails(fs, Op.Indent, path) && !Fails(fs, Op.Write, path)
    ensures e.err.None? ==> path in e.fs.files && e.fs.files[path] == Snapshot(apis)
    ensures Fails(fs, Op.Marshal, path) || Fails(fs, Op.Indent, path) ==> e.fs == fs
  {
    if Fails(fs, Op.Marshal, path) then Effect(Some(Failed(Op.Marshal, path)), fs)
    else if Fails(fs, Op.Indent, path) then Effect(Some(Failed(Op.Indent, path)), fs)
    else if Fails(fs, Op.Write, path) then Effect(Some(Failed(Op.Write, path)), Put(fs, path, Damaged))
    else Effect(None, Put(fs, path, Snapshot(apis)))
  }

  /** template.ParseFiles on `path`, whose failure template.Must turns into a panic. */
  function ParseTemplateFile(fs: Fs, path: string): Option<Error> {
    if path !in fs.files || Fails(fs, Op.ParseTemplate, path) then Some(Panicked(Op.ParseTemplate, path))
    else None
  }

  /** Execute the parsed template into the file at `path` with the title and the catalogue. */
  function ExecuteInto(fs: Fs, path: string, title: string, apis: seq<Api>): (e: Effect)
    ensures e.fs.faults == fs.faults && e.fs.files - {path} == fs.files - {path} && path in e.fs.files
    ensures e.err.None? <==> !Fails(fs, Op.ExecuteTemplate, path)
    ensures e.fs.files[path] == if e.err.None? then Page(title, apis) else Damaged
  {
    if Fails(fs, Op.ExecuteTemplate, path) then Effect(Some(Failed(Op.ExecuteTemplate, path)), Put(fs, path, Damaged))
    else Effect(None, Put(fs, path, Page(title, apis)))
  }

  /** path.Join for a directory and a file name, without path.Clean's normalisation. */
  function PathJoin(dir: string, name: string): string {
    if dir == "" then name else dir + "/" + name
  }
}
