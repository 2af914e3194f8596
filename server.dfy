/**
 * ClientHandler: the server's per-connection request processing. It works on the
 * shared CacheService and on the storage directory, both updated in place, and
 * builds its response step by step; each method is proved to end in the state and
 * with the result that the matching function of module Dispatch gives.
 */
module Server {
  import opened Wrappers
  import opened JavaText
  import opened LruModel
  import opened Dispatch
  import opened Cache

  /** The storage directory src/storageFiles: file name to content. */
  class ProgramDirectory {
    var files: map<string, string>

    constructor (files: map<string, string>)
      ensures this.files == files
    {
      this.files := files;
    }
  }

  /** The cache all ClientHandlers share: a CacheService of at most 6 entries, empty at start. */
  method NewSharedCache() returns (cache: CacheService)
    ensures fresh(cache)
    ensures cache.maxSize == 6 && cache.State().order == [] && cache.State().values == map[]
    ensures cache.Valid()
  {
    cache := new CacheService(6);
  }

  class ClientHandler {
    const clientCache: CacheService
    const programDirectory: ProgramDirectory

    /** new ClientHandler(socket, semaphore, sharedCache), with the storage directory it uses. */
    constructor (sharedCache: CacheService, directory: ProgramDirectory)
      ensures clientCache == sharedCache && programDirectory == directory
    {
      clientCache := sharedCache;
      programDirectory := directory;
    }

    /** The cache can serve reads and writes: it keeps its invariant and has room for at least one entry. */
    ghost predicate Ready()
      reads this, clientCache
    {
      clientCache.Valid() && clientCache.maxSize >= 1
    }

    /** processClientMessage(message) */
    method ProcessClientMessage(message: string, env: Env) returns (out: Outcome)
      requires Ready()
      modifies clientCache, programDirectory
      ensures Ready()
      ensures Step(out, clientCache.State(), programDirectory.files)
           == Process(message, old(clientCache.State()), old(programDirectory.files), env)
    {
      var parts := Split(message, ',');
      if |parts| < 2 {
        return Uncaught(ArrayIndexOutOfBounds);
      }
      var fileName := Trim(parts[0]) + ".txt";
      var option := Trim(parts[1]);
      if |parts| == 3 {
        out := ProcessThreeFields(fileName, option, Trim(parts[2]), env.listing);
      } else if |parts| == 2 {
        out := ProcessTwoFields(fileName, option, env);
      } else {
        out := Reply(InvalidFormat);
      }
    }

    /** The `parts.length == 3` branch of processClientMessage. */
    method ProcessThreeFields(fileName: string, option: string, countOption: string, listing: Option<seq<DirEntry>>)
      returns (out: Outcome)
      requires Ready()
      modifies clientCache
      ensures Ready()
      ensures Step(out, clientCache.State(), programDirectory.files)
           == ThreeField(fileName, option, countOption, old(clientCache.State()), programDirectory.files, listing)
    {
      ghost var c := clientCache.State();
      var response := Header(fileName);
      var cachedOption := clientCache.HandleServerReadRequest(Key(fileName, option));
      ghost var first := Read(c, Key(fileName, option));
      var cachedCountOption := clientCache.HandleServerReadRequest(Key(fileName, countOption));
      ghost var second := Read(first.after, Key(fileName, countOption));
      assert cachedOption == first.value && cachedCountOption == second.value && clientCache.State() == second.after;
      response := WithHit(response, fileName, option, cachedOption);
      response := WithHit(response, fileName, countOption, cachedCountOption);
      out := FinishStages(fileName, option, countOption, response, cachedOption, cachedCountOption, listing);
    }

    /** What the three-field branch does once both keys have been looked up and the hits echoed. */
    method FinishStages(fileName: string, option: string, countOption: string, response: string,
                        cachedOption: Option<string>, cachedCountOption: Option<string>, listing: Option<seq<DirEntry>>)
      returns (out: Outcome)
      requires Ready()
      modifies clientCache
      ensures Ready()
      ensures Step(out, clientCache.State(), programDirectory.files)
           == match OptionStage(fileName, option, response, cachedOption, old(clientCache.State()), programDirectory.files, listing)
              case None => Step(Reply(InvalidPrimaryOption), old(clientCache.State()), programDirectory.files)
              case Some(b) => CountStage(fileName, countOption, b, cachedCountOption, programDirectory.files)
    {
      var optionDone := FinishOption(fileName, option, response, cachedOption, listing);
      if optionDone.None? {
        return Reply(InvalidPrimaryOption);
      }
      out := FinishCounting(fileName, countOption, optionDone.value, cachedCountOption);
    }

    /**
     * The option part of the three-field branch: on a miss, `get` and `read` append
     * their text and cache the response built so far; None stands for the early
     * return of the "Invalid option. Supported options: ..." text.
     */
    method FinishOption(fileName: string, option: string, response: string, cachedOption: Option<string>,
                        listing: Option<seq<DirEntry>>) returns (text: Option<string>)
      requires Ready()
      modifies clientCache
      ensures Ready()
      ensures text.None? ==> clientCache.State() == old(clientCache.State())
      ensures OptionStage(fileName, option, response, cachedOption, old(clientCache.State()), programDirectory.files, listing)
           == if text.None? then None else Some(Built(text.value, clientCache.State()))
    {
      if cachedOption.Some? {
        return Some(response);
      }
      if option != "get" && option != "read" {
        return None;
      }
      var t;
      if option == "get" {
        var names := GetFileNames(listing);
        t := response + "\nFiles on server: " + names;
      } else {
        t := response + "\nContent of " + fileName + ": " + FileContent(programDirectory.files, fileName);
      }
      ghost var c := clientCache.State();
      assert OptionStage(fileName, option, response, cachedOption, c, programDirectory.files, listing)
          == Some(Built(t, Written(c, Key(fileName, option), t)));
      clientCache.HandleServerWriteRequest(Key(fileName, option), t);
      text := Some(t);
    }

    /**
     * The rest of the three-field branch: on a count miss, count, cache
     * String.valueOf(count) and append it; then "\nDone.".
     */
    method FinishCounting(fileName: string, countOption: string, response: string, cachedCountOption: Option<string>)
      returns (out: Outcome)
      requires Ready()
      modifies clientCache
      ensures Ready()
      ensures Step(out, clientCache.State(), programDirectory.files)
           == CountStage(fileName, countOption, Built(response, old(clientCache.State())), cachedCountOption, programDirectory.files)
    {
      var text := response;
      if cachedCountOption.None? {
        var kind := ParseCountKind(countOption);
        if kind.None? {
          return Reply(InvalidCountOption);
        }
        var count := CountFile(kind.value, programDirectory.files, fileName);
        clientCache.HandleServerWriteRequest(Key(fileName, countOption), NatToString(count));
        text := text + CountLabel(kind.value) + fileName + ": " + NatToString(count);
      }
      text := text + Done;
      out := Reply(text);
    }

    /** The `parts.length == 2` branch of processClientMessage. */
    method ProcessTwoFields(fileName: string, option: string, env: Env) returns (out: Outcome)
      requires Ready()
      modifies clientCache, programDirectory
      ensures Ready()
      ensures Step(out, clientCache.State(), programDirectory.files)
           == TwoField(fileName, option, old(clientCache.State()), old(programDirectory.files), env)
    {
      var response := Header(fileName);
      if option == "update" {
        var updateResponse := UpdateFile(fileName, env.upload);
        if updateResponse.Uncaught? {
          return updateResponse;
        }
        response := response + updateResponse.text;
      } else if option == "remove" {
        var removeResponse := RemoveFile(fileName, env.deleteSucceeds);
        response := response + removeResponse.text;
      } else if option == "store" {
        var storeResponse := StoreFile(fileName, env.upload);
        if storeResponse.Uncaught? {
          return storeResponse;
        }
        response := response + storeResponse.text;
      } else if option == "totals" {
        var totals := GetSystemTotals(fileName);
        response := response + "\nSystem totals: " + totals;
      } else if option == "exit" {
        return Reply(Termination);
      } else {
        return Reply(InvalidOption);
      }
      response := response + Done;
      out := Reply(response);
    }

    /** storeFile(fileName): opens (and so truncates) the file, reads the upload and writes it. */
    method StoreFile(fileName: string, upload: Upload) returns (out: Outcome)
      modifies programDirectory
      ensures Step(out, clientCache.State(), programDirectory.files)
           == Stored(fileName, clientCache.State(), old(programDirectory.files), upload)
    {
      out := WriteUpload(fileName, upload, "File stored successfully.", "Failed to store the file.");
    }

    /**
     * updateFile(fileName): writes the upload as storeFile does and, once it is
     * written, removes the file's entries from the cache.
     */
    method UpdateFile(fileName: string, upload: Upload) returns (out: Outcome)
      requires clientCache.Valid()
      modifies programDirectory, clientCache
      ensures clientCache.Valid()
      ensures Step(out, clientCache.State(), programDirectory.files)
           == Updated(fileName, old(clientCache.State()), old(programDirectory.files), upload)
    {
      out := WriteUpload(fileName, upload, "File updated successfully.", "Failed to update the file.");
      if upload.Received? {
        clientCache.HandleServerRemovalRequest(fileName);
      }
    }

    /**
     * The body shared by storeFile and updateFile: `new FileOutputStream` empties the
     * file, then one `is.read` fills the buffer and `fos.write` writes what it read.
     */
    method WriteUpload(fileName: string, upload: Upload, success: string, failure: string) returns (out: Outcome)
      modifies programDirectory
      ensures upload.Received? ==> out == Reply(success) && programDirectory.files == old(programDirectory.files)[fileName := upload.content]
      ensures upload.EndOfStream? ==> out == Uncaught(IndexOutOfBounds) && programDirectory.files == old(programDirectory.files)[fileName := ""]
      ensures upload.OpenFailed? ==> out == Reply(failure) && programDirectory.files == old(programDirectory.files)
      ensures upload.ReadFailed? ==> out == Reply(failure) && programDirectory.files == old(programDirectory.files)[fileName := ""]
    {
      if upload.OpenFailed? {
        return Reply(failure);
      }
      programDirectory.files := programDirectory.files[fileName := ""];
      match upload
      case ReadFailed =>
        out := Reply(failure);
      case EndOfStream =>
        out := Uncaught(IndexOutOfBounds);
      case Received(content) =>
        programDirectory.files := programDirectory.files[fileName := content];
        out := Reply(success);
    }

    /** removeFile(fileName) */
    method RemoveFile(fileName: string, deleteSucceeds: bool) returns (out: Outcome)
      requires clientCache.Valid()
      modifies programDirectory, clientCache
      ensures clientCache.Valid()
      ensures Step(out, clientCache.State(), programDirectory.files)
           == Removed(fileName, old(clientCache.State()), old(programDirectory.files), deleteSucceeds)
    {
      if fileName in programDirectory.files {
        if deleteSucceeds {
          programDirectory.files := programDirectory.files - {fileName};
        }
        clientCache.HandleServerRemovalRequest(fileName);
        if deleteSucceeds {
          out := Reply("File removed successfully.");
        } else {
          out := Reply("Failed to remove the file.");
        }
      } else {
        out := Reply("File does not exist.");
      }
    }

    /** getSystemTotals(fileName): one lookup, and on a miss one count and one write, per count option. */
    method GetSystemTotals(fileName: string) returns (text: string)
      requires Ready()
      modifies clientCache
      ensures Ready()
      ensures Built(text, clientCache.State()) == Totals(fileName, old(clientCache.State()), programDirectory.files)
    {
      var countOptions := TotalsOrder;
      text := "";
      for i := 0 to |countOptions|
        invariant Ready()
        invariant Built(text, clientCache.State()) == TotalsOver(fileName, countOptions[..i], old(clientCache.State()), programDirectory.files)
      {
        TotalsOverSnoc(fileName, countOptions, i, old(clientCache.State()), programDirectory.files);
        ghost var before := Built(text, clientCache.State());
        var countOption := countOptions[i];
        var key := Key(fileName, countOption);
        var cachedValue := clientCache.HandleServerReadRequest(key);
        if cachedValue.None? {
          var count := TotalCount(countOption, programDirectory.files, fileName);
          clientCache.HandleServerWriteRequest(key, NatToString(count));
          text := text + "\n" + countOption + " count for " + fileName + ": " + NatToString(count);
        } else {
          text := text + "\nCache hit for " + key + ": " + cachedValue.value;
        }
        assert Built(text, clientCache.State()) == TotalsStep(fileName, countOption, before, programDirectory.files);
      }
      assert countOptions[..|countOptions|] == countOptions;
    }

    /**
     * getFileNames(): appends each regular file's name and ", " and cuts the last
     * separator off; "No files found." when there is none or the listing fails.
     */
    static method GetFileNames(listing: Option<seq<DirEntry>>) returns (names: string)
      ensures names == FileNames(listing)
    {
      if listing.Some? {
        var files := listing.value;
        var fileNames := "";
        for i := 0 to |files|
          invariant fileNames == if RegularNames(files[..i]) == [] then "" else JoinNames(RegularNames(files[..i])) + ", "
        {
          assert files[..i + 1][..i] == files[..i];
          if files[i].isFile {
            fileNames := fileNames + files[i].name + ", ";
          }
        }
        assert files[..|files|] == files;
        if |fileNames| > 0 {
          return fileNames[..|fileNames| - 2];
        }
      }
      return NoFiles;
    }
  }
}
