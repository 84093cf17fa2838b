/**
 * The error values the library passes around. The Go code only ever
 * compares an error with `io.EOF`; every other error is returned as is,
 * so an error is modelled by the operation that raised it and its subject.
 */
module Errors {

  /** The fallible operations of the library and of the calls it makes. */
  datatype Op =
    | Open            // os.Open
    | Create          // os.Create (creates or truncates)
    | Remove          // os.Remove
    | Write           // (*os.File).Write
    | Marshal         // json.Marshal
    | Indent          // json.Indent, behind the pretty-printer
    | ParseTemplate   // template.ParseFiles
    | ExecuteTemplate // (*template.Template).Execute
    | ParseUrl        // url.Parse
    | Decode          // (*json.Decoder).Decode on text that is not a catalogue
    | ReadBody        // draining / copying the request body

  datatype Error =
    | Eof                                  // io.EOF
    | NotExist(path: string)               // an *os.PathError for a missing file
    | Failed(op: Op, subject: string)      // any other error of `op` on `subject`
    | Panicked(op: Op, subject: string)    // template.Must panicked: the call does not return normally
}
