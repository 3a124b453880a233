// What a route handler hands back to Next.js: a JSON reply with a status,
// or nothing at all when the handler returns `undefined`.

module Http {
  import opened Js
  import opened Schema

  /** The JSON bodies the modelled handlers produce. */
  datatype Body =
    | ErrorBody(error: string)                          // { error }
    | FileCreated(file: FileRecord)                     // { success: true, file }
    | FolderCreated(message: string, folder: FileRecord) // { success: true, message, folder }
    | FileList(files: seq<FileRecord>)                  // { files }
    | NewFileBody(newFile: FileRecord)                  // { newFile }

  datatype Response =
    | Reply(status: int, body: Body)   // NextResponse.json(body, { status }), 200 by default
    | NoResponse                       // the handler returned undefined

  /** The result of one step of a handler's validation chain: carry on with
      a value, or return early with a reply. */
  datatype Guard<T> = Continue(value: T) | Stop(response: Response)

  function Error(status: int, message: string): Response
  {
    Reply(status, ErrorBody(message))
  }

  /** A reply whose status signals success. */
  predicate IsOk(r: Response)
  {
    r.Reply? && 200 <= r.status < 300
  }

  /** `!userId` on the identity `auth()` returned: absent or empty. */
  predicate Authenticated(auth: Option<string>)
  {
    auth.Some? && auth.value != ""
  }
}
