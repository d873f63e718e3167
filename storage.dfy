/**
 * Where the session token lives between runs: a plain-text file, and the
 * `CookieStore` of eero.py that keeps the token in memory and writes every
 * new value through to that file.
 */
module Storage {
  import opened Wrappers
  import opened Api

  /**
   * The session file. `contents` is `None` when the file is missing or cannot
   * be read; `writable` says whether an attempt to write it succeeds.
   */
  class SessionFile {
    var contents: Option<string>
    var writable: bool

    constructor(contents: Option<string>, writable: bool)
      ensures this.contents == contents && this.writable == writable
    {
      this.contents := contents;
      this.writable := writable;
    }

    /** `open(path, 'r').read()`; `None` where the source catches `IOError`. */
    method Read() returns (r: Option<string>)
      ensures r == contents
    {
      r := contents;
    }

    /** `open(path, 'w+').write(text)`; `false` where it raises `IOError`, leaving the file as it was. */
    method Write(text: string) returns (ok: bool)
      modifies this
      ensures ok == old(writable) && writable == old(writable)
      ensures contents == if ok then Some(text) else old(contents)
    {
      ok := writable;
      if ok {
        contents := Some(text);
      }
    }
  }

  /** The file-backed session storage of eero.py (`CookieStore`). */
  class CookieStore {
    var cookie: Option<string>
    const file: SessionFile

    /** Loads the token verbatim from the file; a missing file gives no token. */
    constructor(file: SessionFile)
      ensures this.file == file && cookie == file.contents
    {
      this.file := file;
      new;
      cookie := file.Read();
    }

    /**
     * The `cookie` setter: the in-memory token takes the new value first, then
     * the file is overwritten; a failed write raises but keeps the new token.
     */
    method SetCookie(c: string) returns (o: Outcome<Fault>)
      modifies this, file
      ensures cookie == Some(c)
      ensures file.writable == old(file.writable)
      ensures file.contents == if old(file.writable) then Some(c) else old(file.contents)
      ensures o == if old(file.writable) then Pass else Fail(IoError)
    {
      cookie := Some(c);
      var ok := file.Write(c);
      o := if ok then Pass else Fail(IoError);
    }
  }
}
