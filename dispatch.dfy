/**
 * What ClientHandler.processClientMessage does to one request line, as a
 * function of the request, the cache state and the stored files. The directory
 * listing, the bytes a store or update receives and whether a delete succeeds are
 * outside the server's control and come in through `Env`. The imperative
 * ClientHandler in module Server is proved to behave exactly as `Process` says.
 */
module Dispatch {
  import opened Wrappers
  import opened JavaText
  import opened LruModel
  import opened Counting

  /** One entry of programDirectory.listFiles(): its name and whether it is a regular file. */
  datatype DirEntry = DirEntry(name: string, isFile: bool)

  /** What storeFile/updateFile get when they open the file and read the upload. */
  datatype Upload =
    | Received(content: string)  // is.read returned data; it is written out
    | EndOfStream                // is.read returned -1; fos.write(buffer, 0, -1) throws
    | OpenFailed                 // new FileOutputStream threw: the file is left as it was
    | ReadFailed                 // is.read threw: the file has already been truncated

  /**
   * The world around one request: the directory listing (None when listFiles()
   * returns null), the upload, and whether File.delete() succeeds.
   */
  datatype Env = Env(listing: Option<seq<DirEntry>>, upload: Upload, deleteSucceeds: bool)

  /** The unchecked exceptions that escape processClientMessage. */
  datatype Fault = ArrayIndexOutOfBounds | IndexOutOfBounds

  /** A response string, or an exception that ends the handler thread without one. */
  datatype Outcome = Reply(text: string) | Uncaught(fault: Fault)

  /** The outcome of a request and the cache and files after it. */
  datatype Step = Step(outcome: Outcome, cache: Lru, files: map<string, string>)

  /** A response under construction and the cache state reached so far. */
  datatype Built = Built(text: string, cache: Lru)

  const InvalidFormat := "Invalid message format. Please provide the file name, option, and count option as prompted by the Client."
  const InvalidPrimaryOption := "\nInvalid option. Supported options: lines, words, characters, get_file_names, read_file_content, get_system_totals, exit, store"
  const InvalidCountOption := "Invalid count option."
  const InvalidOption := "Invalid option."
  const Termination := "Client termination requested."
  const NoFiles := "No files found."
  const ReadFailure := "Failed to read file."
  const Done := "\nDone."

  /** The first line of every successful response. */
  function Header(fileName: string): string
  {
    "Processing " + fileName + ": \n"
  }

  /** The cache key of an operation on a file. */
  function Key(fileName: string, op: string): string
  {
    fileName + "," + op
  }

  /** The response with a cached option of a three-field request echoed, unchanged on a miss. */
  function WithHit(response: string, fileName: string, op: string, cached: Option<string>): string
  {
    match cached
    case None => response
    case Some(v) => response + "\nCache hit for " + fileName + ", " + op + ": " + v
  }

  // ------------------------------------------------------------ files

  /** The names of the regular files in a listing, in listing order. */
  function RegularNames(entries: seq<DirEntry>): (r: seq<string>)
    ensures forall x :: x in r <==> exists e :: e in entries && e.isFile && e.name == x
    ensures |r| <= |entries|
  {
    if entries == [] then []
    else
      var init := entries[..|entries| - 1];
      var last := entries[|entries| - 1];
      assert entries == init + [last];
      if last.isFile then RegularNames(init) + [last.name] else RegularNames(init)
  }

  /** The names with ", " between them. */
  function JoinNames(names: seq<string>): (r: string)
    requires names != []
    ensures |names[0]| <= |r| && r[..|names[0]|] == names[0]
    ensures |names| >= 2 ==> |names[|names| - 1]| + 2 <= |r| && r[|r| - |names[|names| - 1]| - 2..] == ", " + names[|names| - 1]
  {
    if |names| == 1 then names[0] else JoinNames(names[..|names| - 1]) + ", " + names[|names| - 1]
  }

  /** getFileNames(): the regular files' names joined by ", ", or "No files found.". */
  function FileNames(listing: Option<seq<DirEntry>>): (r: string)
    ensures listing.None? ==> r == NoFiles
    ensures listing.Some? ==> var names := RegularNames(listing.value);
      (names == [] ==> r == NoFiles)
      && (|names| == 1 ==> r == names[0])
      && (names != [] ==> StartsWith(r, names[0]))
  {
    match listing
    case None => NoFiles
    case Some(entries) =>
      var names := RegularNames(entries);
      if names == [] then NoFiles else JoinNames(names)
  }

  /** readFileContent(fileName): the content, or the failure text for a file that cannot be read. */
  function FileContent(files: map<string, string>, fileName: string): string
  {
    if fileName in files then files[fileName] else ReadFailure
  }

  /** countLines/countWords/countCharacters: the count of the file's content, 0 when it cannot be read. */
  function CountFile(kind: CountKind, files: map<string, string>, fileName: string): (r: nat)
    ensures fileName !in files ==> r == 0
    ensures fileName in files && kind == Lines ==> (r == 0 <==> files[fileName] == [])
  {
    if fileName in files then CountOf(kind, files[fileName]) else 0
  }

  /** The count options a three-field request may name. */
  function ParseCountKind(s: string): (r: Option<CountKind>)
    ensures r.Some? <==> s in {"lines", "words", "characters"}
  {
    if s == "lines" then Some(Lines)
    else if s == "words" then Some(Words)
    else if s == "characters" then Some(Characters)
    else None
  }

  /** The text before a freshly computed count in a three-field response. */
  function CountLabel(kind: CountKind): string
  {
    match kind
    case Lines => "\nLine count for "
    case Words => "\nWord count for "
    case Characters => "\nCharacter count for "
  }

  // ------------------------------------------------------------ three-field requests

  /**
   * The option part of a three-field request after both lookups: nothing more on a
   * hit; on a miss, `get` and `read` append their text and cache the whole response
   * built so far under the option's key; any other option gives None.
   */
  function OptionStage(fileName: string, op: string, soFar: string, cached: Option<string>,
                       c: Lru, files: map<string, string>, listing: Option<seq<DirEntry>>): (r: Option<Built>)
    requires c.maxSize >= 1
    ensures r.Some? ==> r.value.cache.maxSize == c.maxSize
    ensures r.Some? && Valid(c) ==> Valid(r.value.cache)
    ensures r.None? <==> cached.None? && op != "get" && op != "read"
  {
    if cached.Some? then Some(Built(soFar, c))
    else if op == "get" then
      var text := soFar + "\nFiles on server: " + FileNames(listing);
      Some(Built(text, Written(c, Key(fileName, op), text)))
    else if op == "read" then
      var text := soFar + "\nContent of " + fileName + ": " + FileContent(files, fileName);
      Some(Built(text, Written(c, Key(fileName, op), text)))
    else None
  }

  /**
   * The count part: on a hit the response is complete; on a miss a known count
   * option computes the count, caches String.valueOf(count) and appends it; an
   * unknown one answers "Invalid count option.".
   */
  function CountStage(fileName: string, countOp: string, b: Built, cached: Option<string>,
                      files: map<string, string>): (r: Step)
    requires b.cache.maxSize >= 1
    ensures r.cache.maxSize == b.cache.maxSize && r.files == files
    ensures Valid(b.cache) ==> Valid(r.cache)
  {
    if cached.Some? then Step(Reply(b.text + Done), b.cache, files)
    else
      match ParseCountKind(countOp)
      case None => Step(Reply(InvalidCountOption), b.cache, files)
      case Some(kind) =>
        var n := NatToString(CountFile(kind, files, fileName));
        Step(Reply(b.text + CountLabel(kind) + fileName + ": " + n + Done), Written(b.cache, Key(fileName, countOp), n), files)
  }

  /** A request "file,option,countOption": both keys are looked up, the option's first. */
  function ThreeField(fileName: string, op: string, countOp: string, c: Lru,
                      files: map<string, string>, listing: Option<seq<DirEntry>>): (r: Step)
    requires c.maxSize >= 1
    ensures r.cache.maxSize == c.maxSize && r.files == files
    ensures WellFormed(c) ==> Valid(r.cache)
  {
    var first := Read(c, Key(fileName, op));
    var second := Read(first.after, Key(fileName, countOp));
    var soFar := WithHit(WithHit(Header(fileName), fileName, op, first.value), fileName, countOp, second.value);
    match OptionStage(fileName, op, soFar, first.value, second.after, files, listing)
    case None => Step(Reply(InvalidPrimaryOption), second.after, files)
    case Some(b) => CountStage(fileName, countOp, b, second.value, files)
  }

  // ------------------------------------------------------------ two-field requests

  /** storeFile(fileName): writes the upload; the cache is never touched. */
  function Stored(fileName: string, c: Lru, files: map<string, string>, upload: Upload): (r: Step)
    ensures r.cache == c
    ensures forall f :: f != fileName ==> (f in r.files <==> f in files) && (f in files ==> r.files[f] == files[f])
    ensures upload.ReadFailed? ==> fileName in r.files && r.files[fileName] == ""
  {
    match upload
    case Received(content) => Step(Reply("File stored successfully."), c, files[fileName := content])
    case EndOfStream => Step(Uncaught(IndexOutOfBounds), c, files[fileName := ""])
    case OpenFailed => Step(Reply("Failed to store the file."), c, files)
    case ReadFailed => Step(Reply("Failed to store the file."), c, files[fileName := ""])
  }

  /** updateFile(fileName): writes the upload, then invalidates the file's cached results. */
  function Updated(fileName: string, c: Lru, files: map<string, string>, upload: Upload): (r: Step)
    ensures r.cache.maxSize == c.maxSize
    ensures Valid(c) ==> Valid(r.cache)
    ensures forall f :: f != fileName ==> (f in r.files <==> f in files) && (f in files ==> r.files[f] == files[f])
    ensures upload.ReadFailed? ==> r.cache == c && fileName in r.files && r.files[fileName] == ""
  {
    match upload
    case Received(content) => Step(Reply("File updated successfully."), Invalidated(c, fileName), files[fileName := content])
    case EndOfStream => Step(Uncaught(IndexOutOfBounds), c, files[fileName := ""])
    case OpenFailed => Step(Reply("Failed to update the file."), c, files)
    case ReadFailed => Step(Reply("Failed to update the file."), c, files[fileName := ""])
  }

  /** removeFile(fileName): an existing file is deleted if the delete succeeds, and invalidated either way. */
  function Removed(fileName: string, c: Lru, files: map<string, string>, deleteSucceeds: bool): (r: Step)
    ensures r.cache.maxSize == c.maxSize
    ensures Valid(c) ==> Valid(r.cache)
    ensures r.outcome.Reply?
    ensures forall f :: f != fileName ==> (f in r.files <==> f in files) && (f in files ==> r.files[f] == files[f])
  {
    if fileName in files then
      if deleteSucceeds then Step(Reply("File removed successfully."), Invalidated(c, fileName), files - {fileName})
      else Step(Reply("Failed to remove the file."), Invalidated(c, fileName), files)
    else Step(Reply("File does not exist."), c, files)
  }

  /** The count options getSystemTotals visits, in order. */
  const TotalsOrder: seq<string> := ["lines", "words", "characters"]

  /** The count getSystemTotals computes for one option (its switch leaves 0 for any other). */
  function TotalCount(countOp: string, files: map<string, string>, fileName: string): nat
  {
    match ParseCountKind(countOp)
    case None => 0
    case Some(kind) => CountFile(kind, files, fileName)
  }

  /**
   * One round of getSystemTotals' loop: the key is looked up; a hit is echoed, a
   * miss is counted, cached as String.valueOf(count) and reported.
   */
  function TotalsStep(fileName: string, op: string, b: Built, files: map<string, string>): (r: Built)
    requires b.cache.maxSize >= 1
    ensures r.cache.maxSize == b.cache.maxSize
    ensures Valid(b.cache) ==> Valid(r.cache)
  {
    var key := Key(fileName, op);
    var r := Read(b.cache, key);
    match r.value
    case Some(v) => Built(b.text + "\nCache hit for " + key + ": " + v, r.after)
    case None =>
      var n := NatToString(TotalCount(op, files, fileName));
      Built(b.text + "\n" + op + " count for " + fileName + ": " + n, Written(r.after, key, n))
  }

  /** getSystemTotals over the options of `ops`, in order. */
  function TotalsOver(fileName: string, ops: seq<string>, c: Lru, files: map<string, string>): (r: Built)
    requires c.maxSize >= 1
    ensures r.cache.maxSize == c.maxSize
    ensures Valid(c) ==> Valid(r.cache)
    decreases |ops|
  {
    if ops == [] then Built("", c)
    else TotalsStep(fileName, ops[|ops| - 1], TotalsOver(fileName, ops[..|ops| - 1], c, files), files)
  }

  /** getSystemTotals(fileName): lines, words and characters, in that order. */
  function Totals(fileName: string, c: Lru, files: map<string, string>): (r: Built)
    requires c.maxSize >= 1
    ensures r.cache.maxSize == c.maxSize
    ensures Valid(c) ==> Valid(r.cache)
  {
    TotalsOver(fileName, TotalsOrder, c, files)
  }

  /** Visiting one more option of a list adds one round. */
  lemma TotalsOverSnoc(fileName: string, ops: seq<string>, i: nat, c: Lru, files: map<string, string>)
    requires c.maxSize >= 1 && i < |ops|
    ensures TotalsOver(fileName, ops[..i + 1], c, files) == TotalsStep(fileName, ops[i], TotalsOver(fileName, ops[..i], c, files), files)
  {
    assert ops[..i + 1][..i] == ops[..i];
  }

  /** A two-field request "file,option". */
  function TwoField(fileName: string, op: string, c: Lru, files: map<string, string>, env: Env): (r: Step)
    requires c.maxSize >= 1
    ensures r.cache.maxSize == c.maxSize
    ensures Valid(c) ==> Valid(r.cache)
  {
    if op == "update" then Finish(fileName, Updated(fileName, c, files, env.upload))
    else if op == "remove" then Finish(fileName, Removed(fileName, c, files, env.deleteSucceeds))
    else if op == "store" then Finish(fileName, Stored(fileName, c, files, env.upload))
    else if op == "totals" then
      var t := Totals(fileName, c, files);
      Step(Reply(Header(fileName) + "\nSystem totals: " + t.text + Done), t.cache, files)
    else if op == "exit" then Step(Reply(Termination), c, files)
    else Step(Reply(InvalidOption), c, files)
  }

  /** A file operation's reply framed by the header and "\nDone."; an exception passes through. */
  function Finish(fileName: string, s: Step): (r: Step)
    ensures r.cache == s.cache && r.files == s.files
    ensures r.outcome.Uncaught? <==> s.outcome.Uncaught?
  {
    match s.outcome
    case Reply(text) => Step(Reply(Header(fileName) + text + Done), s.cache, s.files)
    case Uncaught(_) => s
  }

  // ------------------------------------------------------------ the whole request

  /**
   * processClientMessage(message): split on ","; the file name is the trimmed first
   * field plus ".txt" and the option the trimmed second; fewer than two fields make
   * parts[1] (or parts[0]) throw; three fields are an option and a count option, two
   * a file operation, anything else a format error.
   */
  function Process(message: string, c: Lru, files: map<string, string>, env: Env): (r: Step)
    requires c.maxSize >= 1
    ensures r.cache.maxSize == c.maxSize
    ensures Valid(c) ==> Valid(r.cache)
  {
    var parts := Split(message, ',');
    if |parts| < 2 then Step(Uncaught(ArrayIndexOutOfBounds), c, files)
    else
      var fileName := Trim(parts[0]) + ".txt";
      var op := Trim(parts[1]);
      if |parts| == 3 then ThreeField(fileName, op, Trim(parts[2]), c, files, env.listing)
      else if |parts| == 2 then TwoField(fileName, op, c, files, env)
      else Step(Reply(InvalidFormat), c, files)
  }
}
