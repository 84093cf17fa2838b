# apidoc in Dafny

A model of the core of `apidoc`, a Go library that records HTTP exchanges
and renders them into an HTML API document. The model covers three parts:

- **Capture** (`api.go`). The `API` record and its identity predicate
  `equal`. The suppression sets. The three parsing loops that fill the
  record's flat maps: header lines split on `:`, URL query pairs split on
  `&` and `=`, and form bodies split the same way. The request path, cut
  at the first `?`. The content-type dispatch of the request body. The
  wrapping of the response body.
- **The catalogue** (`project.go` `appendAPI`, `app.go` `AppendAPI`). A
  new record replaces the first record `equal` to it, in place, or is
  appended when there is none.
- **The document drivers** (`project.go`, `app.go`, `apidoc.go`). The
  default paths. Loading and writing the JSON snapshot of the catalogue
  and the HTML document. The `disable` flag and the global project. The
  order and short-circuiting of `Init`, `Clear` and `Gen` /
  `GenerateDocument`.

How the model is built:

- **Modules.** Pure code is functions with characterising postconditions
  and lemmas. Code that updates a receiver is a class:
  - `Capture.ApiRef` is `*API`.
  - `Projects.Project` is `*Project`.
  - `Apps.App` is `*App`.
  - `Apidoc.Globals` holds the package variables `disable` and `p`.

  Each loop of the source is a `while` or `for` loop whose result is tied
  to a specification function:
  - `Pairs.ParsePairs` to `Pairs.Absorb`;
  - the suppression loops to `Capture.Suppression`;
  - `appendAPI` to `Catalogue.Upsert`.
- **Strings.** `strings.Split` is modelled exactly for a one-character
  separator (`GoStrings.Split`). `values[1]` is the text between the first
  and the second separator; anything after a second separator is dropped.
  `strings.TrimSpace` and `strings.Contains` are modelled too.
- **Header writing.** `http.Header.WriteSubset` writes one line
  `Key: value\r\n` per value. It leaves out every key whose entry in the
  exclude map is true, and every key that is not a valid field name (a
  non-empty token of RFC 7230 section 3.2.6). In a value it turns CR and LF into spaces and trims
  ASCII white space at both ends (`Headers.WriteSubset`). The stored value
  is what follows the `:` up to the next `:` or the end of the line, so it
  keeps the leading space and the trailing `\r`.
- **File system.** The file system is a value, `Files.Fs`, threaded
  through the drivers. It records what each path holds and a set of
  `(operation, path)` pairs that fail. Opening or removing a missing path
  gives `NotExist`. `os.Create` empties the file.
- **Outside calls.** The calls the library makes into code outside the
  model are parameters:
  - `url.Parse` followed by `Query().Encode()`, and the JSON
    pretty-printer, come in as functions `string -> Result<string, Error>`;
  - the source root that `go/build` would report comes in as an
    `Option<string>`;
  - the drained request body comes in as the text that was read, or the
    error reading it.
- **Panics.** A panic of `template.Must` is the error
  `Panicked(ParseTemplate, path)`. In `writeDocumentFile` the template is
  parsed before any file is touched. `App.GenerateDocument` is different:
  the document has already been created, and so emptied, when
  `ExecuteTemplate` parses (`app.go:194-199`), and the model keeps that
  emptied document.

Points where the code behaves differently than one might expect:

- A missing snapshot makes the package `Init` fail with the open error
  (`project.go:69-74`). It does not start an empty catalogue.
- Header values are stored untrimmed. The test at `api_test.go:18-28`
  trims them itself.
- A chunked request body is copied through a chunked writer, so the
  inspected text carries the chunk framing (`api.go:124-132`). The model
  takes the copied text as an input, whatever its framing.
- `Gen` does not look at the `disable` flag; only its callers do.

## Model

| member | source | states |
|---|---|---|
| Capture.NewApi | api.go:33-41 | all maps empty, all strings empty, status 0 |
| Capture.EqualIsSameIdentity | api.go:43-45 | `equal` holds iff method, path and status code agree; headers, parameters and bodies play no part |
| Capture.EqualIsEquivalence | api.go:43-45 | `equal` is reflexive, symmetric and transitive |
| Capture.Equal | api.go:43-45 | the identity predicate itself: method, path and status code agree |
| Capture.Suppression | api.go:48-53 | the keys are exactly the names given, each mapped to true |
| Capture.SuppressionExcludes | api.go:48-53 | a key is in the suppression set, and excluded by it, iff it was one of the names given |
| Capture.ApiRef.constructor | api.go:33-41 | a fresh pointer to a NewAPI value |
| Capture.ApiRef.SuppressedRequestHeaders | api.go:48-53 | the request suppression set becomes exactly `{h: true}` for the names given; no other field changes |
| Capture.ApiRef.SuppressedResponseHeaders | api.go:204-209 | the response suppression set becomes exactly `{h: true}` for the names given; no other field changes |
| Capture.ApiRef.ReadRequestHeader | api.go:56-73 | the request map becomes the old map with the parsed lines of the written header (suppressed keys left out); nothing else changes |
| Capture.ApiRef.ReadResponseHeader | api.go:212-229 | the same for the response map and the response suppression set |
| Capture.UrlParamsStep | api.go:76-93 | a parse error is returned and nothing changes; otherwise the parameter map becomes the old one with the `&`/`=` pairs of the encoded query absorbed, nothing else changes, and no key is lost |
| Capture.ApiRef.ReadRequestUrlParams | api.go:76-93 | the new record and the error are those of UrlParamsStep on the old record |
| Capture.KindOf | api.go:144-166 | Form iff the value contains the form type; JSON iff not form and it contains the JSON type; multipart iff neither and it contains the multipart type; trimming changes none of these |
| Capture.RequestBodyStep | api.go:135-168 | a read error is returned unchanged; with no Content-Type nothing changes; form fills only the post forms; JSON sets only the body or returns the printer's error; multipart and others change nothing |
| Capture.ApiRef.ReadRequestBody | api.go:109-168 | the new record and the error are those of RequestBodyStep on the old record |
| Capture.ResponseBodyStep | api.go:232-246 | a JSON response body is stored pretty-printed, or the printer's error is returned and nothing changes; any other body is stored verbatim; only the response body changes |
| Capture.ApiRef.WrapResponseBody | api.go:232-246 | the new record and the error are those of ResponseBodyStep on the old record |
| Capture.RequestUri | api.go:170-176 | the request line's URI when it is non-empty, else the URL's |
| Capture.PathOf | api.go:181 | the path is a prefix of the URI with no `?`, followed by `?` when shorter |
| Capture.ReadRequestStep | api.go:179-201 | method and path set from the request; headers parsed; without throwErr the error is always nil; with throwErr a URL error stops before the body; the response fields and suppression sets are untouched |
| Capture.ApiRef.ReadRequest | api.go:179-201 | the new record and the error are those of ReadRequestStep on the old record |
| Capture.QueryOfOnePair | api.go:81-91 | an encoded query `key=value` gives exactly the one parameter |
| Capture.UrlParamsExample | api_test.go:30-39 | `/hello?key=world` gives `{key: "world"}` |
| Capture.StoredExample | api_test.go:18-28 | the value `gotokatsuya` is stored as ` gotokatsuya\r` |
| Capture.TrimmedExample | api_test.go:25 | TrimSpace of the stored form gives `gotokatsuya` back |
| Capture.HeaderExample | api_test.go:18-28 | a header with only X-Name stores ` gotokatsuya\r` under X-Name, which trims to `gotokatsuya` |
| Pairs.Pair | api.go:62-70 | a stored key and value contain no separator |
| Pairs.PairParts | api.go:62-70 | a piece stores a pair iff it has a separator and does not start with one; the key is the text before the first separator, the value the text between the first and the second |
| Pairs.Store | api.go:62-70 | one loop body: the piece's pair, when it has one, is written over the map |
| Pairs.Absorb | api.go:61-71 | the map after the loop body has run on each piece in order |
| Pairs.StoreSplits | api.go:62-70 | one loop iteration: with at least two pieces and a non-empty key, the key is set to `values[1]`, else the map is unchanged |
| Pairs.ParsePairs | api.go:61-71 | the loop leaves exactly the map Absorb describes for the pieces of the split text |
| Pairs.AbsorbAppend | api.go:61-71 | processing `a` then `b` is processing `a + b` |
| Pairs.AbsorbKeepsKeys | api.go:61-71 | no key already in the map is removed |
| Pairs.AbsorbUntouched | api.go:61-71 | a key no piece sets keeps its presence and its value |
| Pairs.AbsorbLastWins | api.go:61-71 | a key ends with the value of the last piece that sets it |
| Pairs.AbsorbEmptyLast | api.go:61 | the empty piece after the final newline stores nothing |
| Pairs.PairIsLeadingSegment | api.go:62-70 | `key:value` is a prefix of the piece, ending there or followed by another separator |
| Pairs.PairOfJoined | api.go:82-90 | a piece written as key, separator, value stores exactly that pair |
| Pairs.PairOfKeyed | api.go:62-70 | a piece written as key, separator, rest stores the key with the rest up to its first separator |
| Pairs.PairOfUnkeyed | api.go:66-69 | a piece starting with the separator has an empty key and stores nothing |
| Pairs.SplitWhole | api.go:81 | a text without the piece separator is a single piece |
| GoStrings.Split | api.go:61-62 | at least one piece; no piece holds the separator; at least two pieces iff the text holds it |
| GoStrings.SplitFront | api.go:62-70 | `values[0]` is the text before the first separator, `values[1]` the text between the first and the second |
| GoStrings.SplitJoin | api.go:61 | joining the pieces of a split gives the text back |
| GoStrings.JoinSplit | api.go:61 | splitting joined pieces that hold no separator gives the pieces back |
| GoStrings.SplitTerminated | api.go:58-61 | splitting newline-terminated lines gives the lines and one empty piece |
| GoStrings.IsSpace | api.go:144 | the white space `unicode.IsSpace` accepts, which `strings.TrimSpace` removes |
| GoStrings.TrimSpace | api.go:144 | `strings.TrimSpace`: Trim with IsSpace |
| GoStrings.Contains | api.go:146-164 | `strings.Contains`: the pattern occurs at some index of the text |
| GoStrings.Trim | api.go:144 | the trimmed text is the slice after the leading run, followed only by trimmed characters, and neither starts nor ends with one |
| GoStrings.TrimKeepsContains | api.go:144-164 | trimming does not change whether a pattern that neither starts nor ends with white space occurs |
| GoStrings.TrimAround | api_test.go:25 | trimming removes exactly the white-space runs around a text with non-space ends |
| Headers.WriteSubset | api.go:58 | the text `http.Header.WriteSubset` writes: each line of the kept entries followed by a newline |
| Headers.ValidFieldNameSeparators | api.go:58 | a valid field name, a non-empty token, holds neither `:` nor a newline |
| Headers.InvalidKeyExample | api.go:58 | an entry `Cache-Control:x` gives no value to the suppressed key `Cache-Control` |
| Headers.ParseHeaders | api.go:57-71 | the request or response map after the written header text is split into lines and each line's `:` pair absorbed |
| Headers.StoredValue | api.go:70 | `values[1]` of a written line: the text after the colon, that is a space, the cleaned value and the CR, cut at its first `:` |
| Headers.CleanValue | api.go:58 | a written value holds no CR and no LF |
| Headers.CleanValueOfPlain | api.go:58 | a value without ASCII white space is written unchanged |
| Headers.LinePair | api.go:61-71 | the line `Key: value\r` stores the key with the stored form of the value; an empty key stores nothing |
| Headers.LinesHaveNoNewline | api.go:58-61 | for every header, no written line holds a newline, since neither the valid keys nor the written values do |
| Headers.ParseHeadersIsLines | api.go:57-71 | for every header, parsing the written text is absorbing its lines |
| Headers.HeaderSuppressed | api.go:58 | for every header, a suppressed key keeps whatever the map held before |
| Headers.HeaderAbsentKey | api.go:56-73 | for every header, a key it does not carry keeps whatever the map held before |
| Headers.LinesAvoidKey | api.go:58-71 | for every header, no line of entries with other keys, or of suppressed entries, sets a key |
| Headers.HeaderLastValueWins | api.go:61-71 | a kept entry with values leaves the stored form of its last value under its key |
| Headers.StoredValueWithoutColon | api.go:70 | a value without `:` is stored with the space before it and the CR after it |
| Catalogue.FirstEqual | project.go:161-162 | the index of the first equal record, or None iff there is none |
| Catalogue.Upsert | project.go:160-169 | same length iff an equal record exists, with the new record at the first such index and every other record in place; otherwise the old catalogue followed by the new record |
| Catalogue.UpsertKeepsOthers | project.go:161-164 | records not equal to the new one keep their places |
| Catalogue.UpsertKeepsDistinct | project.go:160-169 | no two equal records before means none after; the new record is present and is the only one equal to it |
| Catalogue.UpsertIdempotent | project.go:160-169 | recording a record twice gives the catalogue recording it once gives |
| Catalogue.AppendExample | project_test.go:5-34 | GET /users twice gives length 1; adding POST /users gives length 2 |
| Projects.Project.constructor | project.go:14-20 | a Project literal holds the four values given |
| Projects.Project.HasDocumentPath | project.go:22-24 | the configured document path is non-empty |
| Projects.Project.DocumentPath | project.go:26-31 | the configured path when non-empty, else `apidoc.html`; never empty |
| Projects.Project.DocumentJsonPath | project.go:33-35 | the document path followed by `.json`, so never the document itself |
| Projects.Project.HasTemplatePath | project.go:37-39 | the configured template path is non-empty |
| Projects.FindAppPath | project.go:41-48 | the package path `github.com/gotokatsuya/apidoc` joined to the source root `build.Import` reports, or the empty string when the package is not found |
| Projects.Project.TemplatePath | project.go:50-55 | the configured template when non-empty, else `default.tpl.html` joined to the package directory, or alone when the package is not found |
| Projects.Project.Load | project.go:57-79 | a missing snapshot is NotExist; success iff it opens and holds a catalogue, which is the result; an empty snapshot is end-of-input |
| Projects.Project.LoadDocumentJsonFile | project.go:69-79 | the catalogue is replaced only by a successful load; otherwise the load error is returned and the catalogue is unchanged |
| Projects.Project.WriteDocumentJsonFile | project.go:104-122 | only the snapshot changes; a create failure changes nothing; a marshal or indent failure leaves it empty; success iff no step fails, and then it holds the catalogue |
| Projects.Project.WriteDocumentFile | project.go:147-158 | a template failure panics before anything is touched; a create failure is returned; success iff no step fails, and then the document shows the title and the catalogue; only the document changes |
| Projects.Project.DeleteDocumentJsonFile | project.go:93-102 | success iff the snapshot exists and its removal does not fail, and then only the snapshot is gone; on failure nothing changes |
| Projects.Project.DeleteDocumentFile | project.go:136-145 | the same for the document |
| Projects.Project.AppendApi | project.go:160-169 | the catalogue becomes Upsert of the old one |
| Projects.SnapshotIsNotDocument | project.go:33-35 | the snapshot path and the document path differ |
| Projects.WrittenSnapshotLoads | project.go:104-122 | a snapshot just written loads back as the catalogue that was written |
| Files.DecodeApis | project.go:75 | the JSON decoder: an empty file is end-of-input, a snapshot gives its catalogue, anything else is a decode error |
| Files.ParseTemplateFile | project.go:148 | `template.Must(template.ParseFiles(...))`: a missing or unparsable template panics |
| Files.WriteSnapshot | project.go:110-121 | only the file written changes; success iff marshal, indent and write all succeed, and then it holds the catalogue; a marshal or indent failure leaves the file system as it was |
| Files.ExecuteInto | project.go:154-157 | only the target changes; it holds the rendered page on success and a damaged page otherwise |
| Apps.App.constructor | app.go:22-29 | the three strings as given and an empty catalogue |
| Apps.App.JsonPath | app.go:32-34 | the output path followed by `.json`, never the output path itself |
| Apps.App.CreateJsonFile | app.go:57-68 | success iff creating the snapshot does not fail, and then only the snapshot changes, to empty; on failure nothing changes |
| Apps.App.RemoveJsonFile | app.go:70-80 | a missing snapshot is NotExist; success iff it exists and its removal does not fail, and then only the snapshot is gone; on failure nothing changes |
| Apps.App.WriteApiList | app.go:82-96 | only the snapshot changes; success iff marshal, indent and write all succeed, and then it holds the catalogue |
| Apps.App.CreateHtmlFile | app.go:98-109 | success iff creating the document does not fail, and then only the document changes, to empty; on failure nothing changes |
| Apps.App.RemoveHtmlFile | app.go:111-121 | the same as RemoveJsonFile for the document |
| Apps.App.ExecuteTemplate | app.go:124-130 | a template failure panics with the file system untouched; success iff parsing and execution succeed, and then the document shows the name and the catalogue |
| Apps.App.Init | app.go:133-155 | the whole call amounts to creating the snapshot, which leaves it empty: the catalogue is unchanged and no document is written |
| Apps.InitDiscardsSnapshot | app.go:133-145 | on a snapshot holding a non-empty catalogue, Init's create empties it and the decode then meets end-of-input |
| Apps.App.InitPreservingSnapshot | app.go:133-155 | an existing snapshot is kept as it was; when it holds a catalogue, that catalogue is loaded and the document is created and rendered; otherwise the catalogue is unchanged |
| Apps.App.Clear | app.go:158-167 | the snapshot first: its failure is returned with nothing changed; then the document; the catalogue is emptied iff both removals succeed |
| Apps.App.AppendApi | app.go:170-179 | the catalogue becomes Upsert of the old one |
| Apps.App.Generated | app.go:182-203 | a create or write failure of the snapshot skips the document; on success the snapshot holds the catalogue and the document shows it |
| Apps.App.GenerateDocument | app.go:182-203 | the catalogue becomes Upsert of the old one whatever happens next; the file effects are those of Generated |
| Apidoc.Globals.constructor | apidoc.go:3-9 | the zero values: generation enabled, an empty project |
| Apidoc.Globals.Enable | apidoc.go:25-27 | IsDisabled is false afterwards; the project is unchanged |
| Apidoc.Globals.Disable | apidoc.go:30-32 | IsDisabled is true afterwards; the project is unchanged |
| Apidoc.Globals.IsDisabled | apidoc.go:35-37 | the value of the `disable` flag |
| Apidoc.Globals.Init | apidoc.go:12-22 | the settings of the new project with an empty catalogue; a load failure is returned with the file system unchanged and the document not written; otherwise the loaded catalogue and the effect of writing the document |
| Apidoc.Globals.Clear | apidoc.go:40-49 | the snapshot first, then the document; the first error is returned; the catalogue is emptied iff both deletions succeed |
| Apidoc.Globals.Gen | apidoc.go:52-61 | the catalogue becomes Upsert of the old one before any file step; a snapshot failure skips the document; the flag plays no part |
| Apidoc.FreshProjectLoadFails | apidoc_test.go:5-21 | TestInit's project on a file system without its snapshot fails to load with NotExist for `apidoc-test.html.json` |
| Apidoc.Globals.InitAllowingMissingSnapshot | apidoc.go:12-22 | a missing snapshot starts an empty catalogue and the document is written; any other load failure is returned with nothing changed; a loaded catalogue is kept as Init keeps it |
| Apidoc.GenWritesBoth | apidoc.go:52-61 | after a successful Gen the snapshot loads back as the catalogue and the document shows it |

## Left out

- Draining the request body, the save/restore of `req.Body`, and the copy into the buffer, chunked or not (`api.go:96-135`) are stream I/O. The model takes the copied text, or the read error, as an input. The copy error that the chunked branch overwrites with the writer's `Close` error is not modelled.
- `url.Parse` and `Query().Encode()` are library code. They enter as one function from the URI to the encoded query or an error.
- The JSON pretty-printer (`json.go`), `json.Marshal` and the JSON decoder are library code. Marshalling and indenting the catalogue fail as the fault set says. The decoder fails on content that is not a catalogue, and empty content is end-of-input; a written catalogue is assumed to decode back to itself. The body pretty-printer and the URL encoder are parameters, and their failures are passed on.
- `html/template` parsing and execution are library code: each succeeds or fails, and a successful render is a page with the title and the catalogue.
- `filepath.Abs`, `path.Clean` (`path.Join` is modelled only as a join with `/`) and `go/build`'s `build.Import` in `findAppPath` are environment calls. Paths are used as given, and the source root is an input.
- Headers.WriteSubset: writes keys in the order the header gives them, whereas Go sorts the keys. Its error result, always nil for a buffer, is not modelled.
- Headers.WriteSubset: skips keys that are not valid header field names, as current Go's `net/http` does; older Go versions wrote every key.
- Go's distinction between nil and empty maps or slices is not modelled.
- An `API` holds maps, which are reference values in Go. So `p.APIs[i] = newAPI` (`project.go:164`) and the append leave the stored record sharing its maps with the caller's record. `Capture.Api` is a value, so that aliasing is lost; no path of the library changes a record after it is stored.
- A Go panic unwinds rather than returns, whereas the model returns it as `Panicked`. Every caller here passes the error straight up without touching any file, so the file effects are the same.
- `log.Println`, closing files, and concurrency are not modelled; calls are sequential.
- Bytes are modelled as strings of characters.
- The HTTP and gin wiring under `example/` is not part of this model.
- Headers.HeaderLastValueWins: stated for headers whose keys are distinct, as the keys of an `http.Header` map are, and for an entry with a valid name (an invalid one writes nothing) and at least one value; suppressed keys are covered by Headers.HeaderSuppressed instead.
- The sources call `PrettyPrint` and `Equal`, which do not exist (`json.go` defines `JSONPrettyPrint`; `api.go:43` defines `equal`). The model has one pretty-printer parameter and the one identity predicate.

## Findings

| source | as written | input that shows it | evidently intended | confidence | as-written member | corrected member |
|---|---|---|---|---|---|---|
| app.go:133-145 | `Init` opens the snapshot with `os.Create`, which truncates it, and then decodes it; the decode always meets end-of-input, so `Init` returns nil without loading the catalogue or rendering the document | an existing snapshot holding a non-empty catalogue | open the snapshot without truncating it (create it only when missing), load its catalogue, then create and render the document | not executed | Apps.App.Init, Apps.InitDiscardsSnapshot | Apps.App.InitPreservingSnapshot |
| apidoc_test.go:5-21 with project.go:69-74 | `TestInit` expects `Init` to succeed on a fresh project, but a missing `apidoc-test.html.json` makes `loadDocumentJSONFile` return the open error, which `Init` passes on | the project of `TestInit` on a file system without `apidoc-test.html.json` | a missing snapshot starts an empty catalogue and `Init` goes on to write the document | not executed | Apidoc.Globals.Init, Apidoc.FreshProjectLoadFails | Apidoc.Globals.InitAllowingMissingSnapshot |
