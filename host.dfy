/**
 * The outside world the bridge talks to: Word over COM, the temporary-file
 * directory, the base64 decoder, and the WebSocket handle. None of it is
 * modelled; each call is an oracle whose answer the model does not
 * predict. Every call is recorded, with its answer, in the ghost `log`, so
 * that the bridge's behaviour can be stated as the sequence of calls it makes.
 */
module Host {
  import opened Base

  /** The buffer types WinHttpWebSocketReceive reports. */
  datatype FrameKind = Utf8Message | Utf8Fragment | BinaryMessage | BinaryFragment | CloseFrame

  /**
   * The size in bytes of the receive buffer in WebSocketClient::Receive. A
   * `string` here holds one char per byte, so `|s|` counts bytes.
   */
  const BufferSize: nat := 4096

  /** What one receive can deliver: at most a buffer's worth. */
  type Buffer = s: string | |s| <= BufferSize

  /** One return of WinHttpWebSocketReceive: an error, or a buffer of some kind. */
  datatype Chunk = ReceiveFailed | Frame(kind: FrameKind, data: Buffer)

  /** A call into Word, the file system or WinHTTP, with what it answered. */
  datatype Call =
    | Attach(ok: bool)                         // CLSIDFromProgID, GetActiveObject, QueryInterface
    | GetVersion(ok: bool)                     // Application.Version: the liveness probe
    | GetActiveDocument(ok: bool)              // a document dispatch, or failure
    | GetSaved(saved: Option<bool>)            // Document.Saved, None when the read fails
    | GetFullName(path: Option<string>)        // Document.FullName, one char per UTF-8 byte; None when the read fails
    | SaveDoc(ok: bool)                        // Document.Save
    | GetTempDir(dir: string)                  // GetTempPathA
    | DecodeBase64(content: string, ok: bool)  // CryptStringToBinaryA, sizing and decoding
    | WriteDecoded(file: string)               // the decoded bytes, written in binary mode
    | WriteText(file: string, content: string) // the content, written in text mode
    | GetContent(ok: bool)                     // Document.Content: the whole-document range
    | SetTrackRevisions(on: bool)              // Document.TrackRevisions := on
    | AcceptAllRevisions                       // Document.AcceptAllRevisions
    | DeleteContent                            // Range.Delete
    | InsertFile(file: string, ok: bool)       // Range.InsertFile
    | OpenSocket(ok: bool)                     // the WinHTTP session, request and upgrade chain
    | SendText(msg: string, ok: bool)          // WinHttpWebSocketSend of a UTF-8 message

  /**
   * The environment. `incoming` is what the server will deliver on the
   * socket, chunk by chunk, as far as the model looks ahead.
   */
  class Env {
    ghost var log: seq<Call>
    var incoming: seq<Chunk>

    constructor (incoming: seq<Chunk>)
      ensures log == [] && this.incoming == incoming
    {
      log := [];
      this.incoming := incoming;
    }

    method TryAttach() returns (ok: bool)
      modifies this`log
      ensures log == old(log) + [Attach(ok)]
    {
      ok :| true;
      log := log + [Attach(ok)];
    }

    method Version() returns (ok: bool)
      modifies this`log
      ensures log == old(log) + [GetVersion(ok)]
    {
      ok :| true;
      log := log + [GetVersion(ok)];
    }

    method ActiveDocument() returns (ok: bool)
      modifies this`log
      ensures log == old(log) + [GetActiveDocument(ok)]
    {
      ok :| true;
      log := log + [GetActiveDocument(ok)];
    }

    method Saved() returns (saved: Option<bool>)
      modifies this`log
      ensures log == old(log) + [GetSaved(saved)]
    {
      saved :| true;
      log := log + [GetSaved(saved)];
    }

    method FullName() returns (path: Option<string>)
      modifies this`log
      ensures log == old(log) + [GetFullName(path)]
    {
      path :| true;
      log := log + [GetFullName(path)];
    }

    method Save() returns (ok: bool)
      modifies this`log
      ensures log == old(log) + [SaveDoc(ok)]
    {
      ok :| true;
      log := log + [SaveDoc(ok)];
    }

    method TempDir() returns (dir: string)
      modifies this`log
      ensures log == old(log) + [GetTempDir(dir)]
    {
      dir :| true;
      log := log + [GetTempDir(dir)];
    }

    method Decode(content: string) returns (ok: bool)
      modifies this`log
      ensures log == old(log) + [DecodeBase64(content, ok)]
    {
      ok :| true;
      log := log + [DecodeBase64(content, ok)];
    }

    method WriteBinary(file: string)
      modifies this`log
      ensures log == old(log) + [WriteDecoded(file)]
    {
      log := log + [WriteDecoded(file)];
    }

    method Write(file: string, content: string)
      modifies this`log
      ensures log == old(log) + [WriteText(file, content)]
    {
      log := log + [WriteText(file, content)];
    }

    method Content() returns (ok: bool)
      modifies this`log
      ensures log == old(log) + [GetContent(ok)]
    {
      ok :| true;
      log := log + [GetContent(ok)];
    }

    method TrackRevisions(on: bool)
      modifies this`log
      ensures log == old(log) + [SetTrackRevisions(on)]
    {
      log := log + [SetTrackRevisions(on)];
    }

    method AcceptRevisions()
      modifies this`log
      ensures log == old(log) + [AcceptAllRevisions]
    {
      log := log + [AcceptAllRevisions];
    }

    method Delete()
      modifies this`log
      ensures log == old(log) + [DeleteContent]
    {
      log := log + [DeleteContent];
    }

    method Insert(file: string) returns (ok: bool)
      modifies this`log
      ensures log == old(log) + [InsertFile(file, ok)]
    {
      ok :| true;
      log := log + [InsertFile(file, ok)];
    }

    method Open() returns (ok: bool)
      modifies this`log
      ensures log == old(log) + [OpenSocket(ok)]
    {
      ok :| true;
      log := log + [OpenSocket(ok)];
    }

    method Send(msg: string) returns (ok: bool)
      modifies this`log
      ensures log == old(log) + [SendText(msg, ok)]
    {
      ok :| true;
      log := log + [SendText(msg, ok)];
    }

    /** The receiver takes the first n chunks off the stream. */
    method Consume(n: nat)
      requires n <= |incoming|
      modifies this`incoming
      ensures incoming == old(incoming)[n..]
    {
      incoming := incoming[n..];
    }
  }
}
