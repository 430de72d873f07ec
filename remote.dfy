/**
 * The two file operations `app/ssh_client.py` (`SecureSSHClient`) offers the checks,
 * modelled as a capability over a fake remote filesystem: a connection flag, the files,
 * the paths whose `stat` fails and the paths whose read fails.
 */
module Remote {
  import opened Wrappers

  /**
   * A client and the remote filesystem it sees. `files` are the readable-or-not files that
   * exist; `statFailing` are paths whose `sftp.stat` raises something other than
   * FileNotFoundError (swallowed by `file_exists`); `readFailing` are paths whose open or
   * read raises something other than FileNotFoundError (propagated by `read_file`). The two
   * are independent: a root-only file exists for `stat` and still fails to open.
   */
  datatype Remote = Remote(connected: bool, files: map<string, string>,
                           statFailing: set<string>, readFailing: map<string, Error>)

  const NotConnected := Error("RuntimeError", "Not connected. Call connect() first.")

  /**
   * `read_file`: raises when not connected or on a transport error, returns None for a
   * missing file, else the file's contents.
   */
  function ReadFile(r: Remote, path: string): (res: Result<Option<string>>)
    ensures !r.connected ==> res == Err(NotConnected)
    ensures r.connected && path in r.readFailing ==> res == Err(r.readFailing[path])
    ensures r.connected && path !in r.readFailing ==> res == Ok(if path in r.files then Some(r.files[path]) else None)
  {
    if !r.connected then Err(NotConnected)
    else if path in r.readFailing then Err(r.readFailing[path])
    else if path in r.files then Ok(Some(r.files[path]))
    else Ok(None)
  }

  /** `file_exists`: raises only when not connected; a failing `stat` reads as False. */
  function FileExists(r: Remote, path: string): (res: Result<bool>)
    ensures res.Err? <==> !r.connected
    ensures res.Ok? ==> (res.value <==> path in r.files && path !in r.statFailing)
  {
    if !r.connected then Err(NotConnected)
    else Ok(path in r.files && path !in r.statFailing)
  }

  /** A file that reads successfully exists, unless its `stat` fails. */
  lemma ReadableFileExists(r: Remote, path: string)
    requires ReadFile(r, path).Ok? && ReadFile(r, path).value.Some?
    ensures FileExists(r, path) == Ok(path !in r.statFailing)
  {
  }

  /** A file that `stat` finds and whose read does not fail reads as its contents. */
  lemma ExistingFileReads(r: Remote, path: string)
    requires FileExists(r, path) == Ok(true)
    ensures path !in r.readFailing ==> ReadFile(r, path) == Ok(Some(r.files[path]))
    ensures path in r.readFailing ==> ReadFile(r, path) == Err(r.readFailing[path])
  {
  }
}
