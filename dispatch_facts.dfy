/**
 * Properties of the request dispatcher: how a request line is parsed, which keys a
 * request reads, writes and invalidates, and what the fixed error answers are.
 */
module DispatchFacts {
  import opened Wrappers
  import opened JavaText
  import opened LruModel
  import opened Counting
  import opened Dispatch

  // ------------------------------------------------------------ parsing

  /** A line without a comma has one field, so reading parts[1] throws and nothing changes. */
  lemma NoCommaThrows(message: string, c: Lru, files: map<string, string>, env: Env)
    requires c.maxSize >= 1 && ',' !in message
    ensures Process(message, c, files, env) == Step(Uncaught(ArrayIndexOutOfBounds), c, files)
  {
    assert Split(message, ',') == [message];
  }

  /** "f,op" with comma-free fields and a non-empty option is a two-field request on f.txt. */
  lemma TwoFieldRequest(f: string, op: string, c: Lru, files: map<string, string>, env: Env)
    requires c.maxSize >= 1 && ',' !in f && ',' !in op && op != ""
    ensures Process(f + "," + op, c, files, env) == TwoField(Trim(f) + ".txt", Trim(op), c, files, env)
  {
    var parts := [f, op];
    assert JoinWith(parts, ',') == f + "," + op by {
      assert JoinWith(parts[1..], ',') == op;
    }
    SplitJoin(parts, ',');
  }

  /** "f,op,count" with comma-free fields and a non-empty count option is a three-field request on f.txt. */
  lemma ThreeFieldRequest(f: string, op: string, countOp: string, c: Lru, files: map<string, string>, env: Env)
    requires c.maxSize >= 1 && ',' !in f && ',' !in op && ',' !in countOp && countOp != ""
    ensures Process(f + "," + op + "," + countOp, c, files, env)
         == ThreeField(Trim(f) + ".txt", Trim(op), Trim(countOp), c, files, env.listing)
  {
    var parts := [f, op, countOp];
    assert JoinWith(parts, ',') == f + "," + op + "," + countOp by {
      assert parts[1..][1..] == [countOp];
      assert JoinWith(parts[1..], ',') == op + "," + countOp;
    }
    SplitJoin(parts, ',');
  }

  /** A line that splits into four or more fields is answered with the format error, cache and files untouched. */
  lemma TooManyFields(message: string, c: Lru, files: map<string, string>, env: Env)
    requires c.maxSize >= 1 && |Split(message, ',')| >= 4
    ensures Process(message, c, files, env) == Step(Reply(InvalidFormat), c, files)
  {
  }

  /** Four or more comma-free fields, the last non-empty, joined by commas, make such a line. */
  lemma FourFieldsSplit(parts: seq<string>)
    requires |parts| >= 4 && parts[|parts| - 1] != ""
    requires forall i :: 0 <= i < |parts| ==> ',' !in parts[i]
    ensures |Split(JoinWith(parts, ','), ',')| >= 4
  {
    SplitJoin(parts, ',');
  }

  // ------------------------------------------------------------ keys and invalidation

  /**
   * For comma-free file names a key of file f starts with g + "," exactly when f is
   * g: invalidating g drops g's results and no other file's.
   */
  lemma KeyPrefixExact(f: string, g: string, op: string)
    requires ',' !in f && ',' !in g
    ensures StartsWith(Key(f, op), g + ",") <==> f == g
  {
    var k := Key(f, op);
    var p := g + ",";
    assert forall i :: 0 <= i < |f| ==> k[i] == f[i];
    assert k[|f|] == ',';
    assert forall i :: 0 <= i < |g| ==> p[i] == g[i];
    assert p[|g|] == ',';
    assert StartsWith(k, p) ==> forall i :: 0 <= i < |p| ==> k[i] == p[i];
    assert f == g ==> k[..|p|] == p;
  }

  /**
   * After a successful update of g, a result of file f is still cached exactly when
   * it was before and f is not g; its value is unchanged.
   */
  lemma UpdateDropsOnlyItsFile(g: string, f: string, op: string, c: Lru, files: map<string, string>, content: string)
    requires ',' !in f && ',' !in g
    ensures var r := Updated(g, c, files, Received(content));
      (Key(f, op) in r.cache.values <==> Key(f, op) in c.values && f != g)
      && (Key(f, op) in r.cache.values ==> r.cache.values[Key(f, op)] == c.values[Key(f, op)])
      && r.files == files[g := content]
  {
    KeyPrefixExact(f, g, op);
  }

  /**
   * remove of an existing file invalidates its results whether or not the delete
   * succeeds; a missing file is answered "File does not exist." and nothing changes.
   */
  lemma RemoveInvalidatesOnlyExisting(fileName: string, c: Lru, files: map<string, string>, env: Env)
    requires c.maxSize >= 1
    ensures var r := TwoField(fileName, "remove", c, files, env);
      (fileName in files ==>
         r.cache == Invalidated(c, fileName) && r.files == if env.deleteSucceeds then files - {fileName} else files)
      && (fileName !in files ==> r == Step(Reply(Header(fileName) + "File does not exist." + Done), c, files))
  {
  }

  /**
   * exit and an unknown option answer with their fixed text and touch neither the
   * cache nor the files; store writes the file and never touches the cache.
   */
  lemma TwoFieldWithoutCacheEffect(fileName: string, op: string, c: Lru, files: map<string, string>, env: Env)
    requires c.maxSize >= 1
    ensures op == "exit" ==> TwoField(fileName, op, c, files, env) == Step(Reply(Termination), c, files)
    ensures op !in {"update", "remove", "store", "totals", "exit"} ==>
              TwoField(fileName, op, c, files, env) == Step(Reply(InvalidOption), c, files)
    ensures op == "store" ==> TwoField(fileName, op, c, files, env).cache == c
  {
  }

  // ------------------------------------------------------------ three-field requests

  /**
   * An option other than get and read that misses the cache gives the fixed
   * "Invalid option. Supported options: ..." answer; the two lookups (the option's
   * key first) are all that happened to the cache.
   */
  lemma UnknownOptionWritesNothing(fileName: string, op: string, countOp: string, c: Lru,
                                   files: map<string, string>, listing: Option<seq<DirEntry>>)
    requires c.maxSize >= 1 && op != "get" && op != "read"
    requires Read(c, Key(fileName, op)).value.None?
    ensures ThreeField(fileName, op, countOp, c, files, listing)
         == Step(Reply(InvalidPrimaryOption), Read(Read(c, Key(fileName, op)).after, Key(fileName, countOp)).after, files)
  {
  }

  /**
   * When the option misses, get or read caches its result before the count option
   * is checked: an unknown count option that misses is answered "Invalid count
   * option." yet the option's result stays cached.
   */
  lemma InvalidCountOptionAfterCaching(fileName: string, op: string, countOp: string, c: Lru,
                                       files: map<string, string>, listing: Option<seq<DirEntry>>)
    requires c.maxSize >= 1 && (op == "get" || op == "read")
    requires countOp !in {"lines", "words", "characters"}
    requires Read(c, Key(fileName, op)).value.None?
    requires Read(Read(c, Key(fileName, op)).after, Key(fileName, countOp)).value.None?
    ensures var r := ThreeField(fileName, op, countOp, c, files, listing);
      r.outcome == Reply(InvalidCountOption) && Key(fileName, op) in r.cache.values
  {
    var after := Read(Read(c, Key(fileName, op)).after, Key(fileName, countOp)).after;
    ThreeFieldBothMiss(fileName, op, countOp, c, files, listing);
    var stage := OptionStage(fileName, op, Header(fileName), None, after, files, listing);
    assert stage.Some? && Key(fileName, op) in stage.value.cache.values;
  }

  /**
   * A request "get" (or "read") with a known count option that misses on both keys
   * first caches the whole response built so far (header and the option's text)
   * under the option's key, then String.valueOf(count) under the count option's key,
   * and answers with both; SecondWriteKeepsFirst shows that with maxSize >= 2 both
   * entries are then in the cache.
   */
  lemma MissCachesBoth(fileName: string, op: string, kind: CountKind, countOp: string, c: Lru,
                       files: map<string, string>, listing: Option<seq<DirEntry>>)
    requires c.maxSize >= 1 && (op == "get" || op == "read")
    requires ParseCountKind(countOp) == Some(kind)
    requires Read(c, Key(fileName, op)).value.None?
    requires Read(Read(c, Key(fileName, op)).after, Key(fileName, countOp)).value.None?
    ensures var text := if op == "get" then Header(fileName) + "\nFiles on server: " + FileNames(listing)
                        else Header(fileName) + "\nContent of " + fileName + ": " + FileContent(files, fileName);
      var n := NatToString(CountFile(kind, files, fileName));
      var after := Read(Read(c, Key(fileName, op)).after, Key(fileName, countOp)).after;
      ThreeField(fileName, op, countOp, c, files, listing)
      == Step(Reply(text + CountLabel(kind) + fileName + ": " + n + Done),
              Written(Written(after, Key(fileName, op), text), Key(fileName, countOp), n), files)
  {
    var after := Read(Read(c, Key(fileName, op)).after, Key(fileName, countOp)).after;
    var text := if op == "get" then Header(fileName) + "\nFiles on server: " + FileNames(listing)
                else Header(fileName) + "\nContent of " + fileName + ": " + FileContent(files, fileName);
    var w := Written(after, Key(fileName, op), text);
    ThreeFieldBothMiss(fileName, op, countOp, c, files, listing);
    assert OptionStage(fileName, op, Header(fileName), None, after, files, listing) == Some(Built(text, w));
  }

  /** Two operations on one file have different keys. */
  lemma KeysOfOneFileDiffer(fileName: string, op: string, other: string)
    requires op != other
    ensures Key(fileName, op) != Key(fileName, other)
  {
    assert Key(fileName, op)[|fileName| + 1..] == op;
    assert Key(fileName, other)[|fileName| + 1..] == other;
  }

  /** When both lookups miss, no hit line is echoed: the option stage starts from the header alone. */
  lemma ThreeFieldBothMiss(fileName: string, op: string, countOp: string, c: Lru,
                           files: map<string, string>, listing: Option<seq<DirEntry>>)
    requires c.maxSize >= 1
    requires Read(c, Key(fileName, op)).value.None?
    requires Read(Read(c, Key(fileName, op)).after, Key(fileName, countOp)).value.None?
    ensures var after := Read(Read(c, Key(fileName, op)).after, Key(fileName, countOp)).after;
      ThreeField(fileName, op, countOp, c, files, listing)
      == match OptionStage(fileName, op, Header(fileName), None, after, files, listing)
         case None => Step(Reply(InvalidPrimaryOption), after, files)
         case Some(b) => CountStage(fileName, countOp, b, None, files)
  {
  }

  /**
   * An option of get or read that misses while the count option hits: the count's
   * "Cache hit for" line is already part of the response, so it is cached under the
   * option's key together with the option's text; the count option writes nothing.
   */
  lemma OptionMissAfterCountHit(fileName: string, op: string, countOp: string, c: Lru,
                                files: map<string, string>, listing: Option<seq<DirEntry>>)
    requires c.maxSize >= 1 && (op == "get" || op == "read")
    requires Read(c, Key(fileName, op)).value.None?
    requires Read(Read(c, Key(fileName, op)).after, Key(fileName, countOp)).value.Some?
    ensures var second := Read(Read(c, Key(fileName, op)).after, Key(fileName, countOp));
      var soFar := Header(fileName) + "\nCache hit for " + fileName + ", " + countOp + ": " + second.value.value;
      var text := if op == "get" then soFar + "\nFiles on server: " + FileNames(listing)
                  else soFar + "\nContent of " + fileName + ": " + FileContent(files, fileName);
      var r := ThreeField(fileName, op, countOp, c, files, listing);
      r == Step(Reply(text + Done), Written(second.after, Key(fileName, op), text), files)
      && Key(fileName, op) in r.cache.values && r.cache.values[Key(fileName, op)] == text
  {
  }

  /**
   * Both keys hit: the response is the header and the two "Cache hit for" lines,
   * and the cache only went through the two lookups; nothing is written.
   */
  lemma BothHitWriteNothing(fileName: string, op: string, countOp: string, c: Lru,
                            files: map<string, string>, listing: Option<seq<DirEntry>>)
    requires c.maxSize >= 1
    requires Read(c, Key(fileName, op)).value.Some?
    requires Read(Read(c, Key(fileName, op)).after, Key(fileName, countOp)).value.Some?
    ensures var first := Read(c, Key(fileName, op));
      var second := Read(first.after, Key(fileName, countOp));
      ThreeField(fileName, op, countOp, c, files, listing)
      == Step(Reply(Header(fileName) + "\nCache hit for " + fileName + ", " + op + ": " + first.value.value
                    + "\nCache hit for " + fileName + ", " + countOp + ": " + second.value.value + Done),
              second.after, files)
  {
  }

  /**
   * The option hits and a known count option misses: the count is computed, cached
   * as String.valueOf(count) under the count option's key and appended after the
   * option's hit line.
   */
  lemma CountMissAfterOptionHit(fileName: string, op: string, kind: CountKind, countOp: string, c: Lru,
                                files: map<string, string>, listing: Option<seq<DirEntry>>)
    requires c.maxSize >= 1 && ParseCountKind(countOp) == Some(kind)
    requires Read(c, Key(fileName, op)).value.Some?
    requires Read(Read(c, Key(fileName, op)).after, Key(fileName, countOp)).value.None?
    ensures var first := Read(c, Key(fileName, op));
      var second := Read(first.after, Key(fileName, countOp));
      var n := NatToString(CountFile(kind, files, fileName));
      var soFar := Header(fileName) + "\nCache hit for " + fileName + ", " + op + ": " + first.value.value;
      var r := ThreeField(fileName, op, countOp, c, files, listing);
      r == Step(Reply(soFar + CountLabel(kind) + fileName + ": " + n + Done), Written(second.after, Key(fileName, countOp), n), files)
      && Key(fileName, countOp) in r.cache.values && r.cache.values[Key(fileName, countOp)] == n
  {
  }

  /** "f,store" with a received upload replies that the file was stored, writes it and leaves the cache alone. */
  lemma StoreRequest(f: string, op: string, c: Lru, files: map<string, string>, env: Env, content: string)
    requires c.maxSize >= 1 && ',' !in f && op == "store" && env.upload == Received(content)
    ensures var fileName := Trim(f) + ".txt";
      Process(f + "," + op, c, files, env)
      == Step(Reply(Header(fileName) + "File stored successfully." + Done), c, files[fileName := content])
  {
    TwoFieldRequest(f, op, c, files, env);
    TrimUntrimmedEnds(op);
  }

  /** "f,read,<count option>" is the three-field request on f.txt with those very options. */
  lemma ReadRequestIsThreeField(f: string, op: string, countOp: string, kind: CountKind, c: Lru,
                                files: map<string, string>, env: Env)
    requires c.maxSize >= 1 && ',' !in f && op == "read" && ParseCountKind(countOp) == Some(kind)
    ensures Process(f + "," + op + "," + countOp, c, files, env) == ThreeField(Trim(f) + ".txt", op, countOp, c, files, env.listing)
  {
    CountOptionTrimmed(countOp);
    ReadOptionTrimmed(op);
    PlainThreeFieldRequest(f, op, countOp, c, files, env);
  }

  /** A count option the server recognises has no comma and is left as it is by trim. */
  lemma CountOptionTrimmed(countOp: string)
    requires ParseCountKind(countOp).Some?
    ensures countOp != [] && ',' !in countOp && Trim(countOp) == countOp
  {
    CountOptionIsPlain(countOp);
    TrimUntrimmedEnds(countOp);
  }

  /** The option "read" has no comma and is left as it is by trim. */
  lemma ReadOptionTrimmed(op: string)
    requires op == "read"
    ensures ',' !in op && Trim(op) == op
  {
    assert op == ['r', 'e', 'a', 'd'];
    TrimUntrimmedEnds(op);
  }

  /** "f,op,count" whose options trim leaves as they are is the three-field request with those options. */
  lemma PlainThreeFieldRequest(f: string, op: string, countOp: string, c: Lru, files: map<string, string>, env: Env)
    requires c.maxSize >= 1 && ',' !in f && ',' !in op && Trim(op) == op
    requires ',' !in countOp && countOp != [] && Trim(countOp) == countOp
    ensures Process(f + "," + op + "," + countOp, c, files, env) == ThreeField(Trim(f) + ".txt", op, countOp, c, files, env.listing)
  {
    ThreeFieldRequest(f, op, countOp, c, files, env);
  }

  /** "f,read,<count option>" whose two keys miss replies with the file's content and its count. */
  lemma ReadRequestBothMiss(f: string, op: string, countOp: string, kind: CountKind, c: Lru,
                            files: map<string, string>, env: Env)
    requires c.maxSize >= 1 && ',' !in f && op == "read" && ParseCountKind(countOp) == Some(kind)
    requires Read(c, Key(Trim(f) + ".txt", op)).value.None?
    requires Read(Read(c, Key(Trim(f) + ".txt", op)).after, Key(Trim(f) + ".txt", countOp)).value.None?
    ensures var fileName := Trim(f) + ".txt";
      Process(f + "," + op + "," + countOp, c, files, env).outcome
      == Reply(Header(fileName) + "\nContent of " + fileName + ": " + FileContent(files, fileName)
               + CountLabel(kind) + fileName + ": " + NatToString(CountFile(kind, files, fileName)) + Done)
  {
    var fileName := Trim(f) + ".txt";
    ReadRequestIsThreeField(f, op, countOp, kind, c, files, env);
    MissCachesBoth(fileName, op, kind, countOp, c, files, env.listing);
  }

  /** A count option is a non-empty word without a comma and without spaces at its ends. */
  lemma CountOptionIsPlain(countOp: string)
    requires ParseCountKind(countOp).Some?
    ensures countOp != [] && ',' !in countOp
    ensures !IsTrimmable(countOp[0]) && !IsTrimmable(countOp[|countOp| - 1])
  {
    if countOp == "lines" {
      assert countOp == ['l', 'i', 'n', 'e', 's'];
    } else if countOp == "words" {
      assert countOp == ['w', 'o', 'r', 'd', 's'];
    } else {
      assert countOp == ['c', 'h', 'a', 'r', 'a', 'c', 't', 'e', 'r', 's'];
    }
  }

  /**
   * A file stored from a received upload is what a later request reads: after
   * "f,store", the request "f,read,<count option>" whose two keys miss replies
   * with exactly the stored content and the count of it.
   */
  lemma StoreThenRead(f: string, store: string, read: string, countOp: string, kind: CountKind, c: Lru,
                      files: map<string, string>, env: Env, content: string, later: Env)
    requires c.maxSize >= 1 && ',' !in f && store == "store" && read == "read" && env.upload == Received(content)
    requires ParseCountKind(countOp) == Some(kind)
    requires Read(c, Key(Trim(f) + ".txt", read)).value.None?
    requires Read(Read(c, Key(Trim(f) + ".txt", read)).after, Key(Trim(f) + ".txt", countOp)).value.None?
    ensures var fileName := Trim(f) + ".txt";
      var stored := Process(f + "," + store, c, files, env);
      stored.cache == c && stored.files == files[fileName := content]
      && Process(f + "," + read + "," + countOp, stored.cache, stored.files, later).outcome
         == Reply(Header(fileName) + "\nContent of " + fileName + ": " + content
                  + CountLabel(kind) + fileName + ": " + NatToString(CountOf(kind, content)) + Done)
  {
    var fileName := Trim(f) + ".txt";
    var files' := files[fileName := content];
    StoreRequest(f, store, c, files, env, content);
    ReadRequestBothMiss(f, read, countOp, kind, c, files', later);
    assert FileContent(files', fileName) == content;
    assert CountFile(kind, files', fileName) == CountOf(kind, content);
  }

  /** With maxSize >= 2, a write right after a write of another key keeps the first key's value. */
  lemma SecondWriteKeepsFirst(c: Lru, k1: string, v1: string, k2: string, v2: string)
    requires Valid(c) && c.maxSize >= 2 && k1 != k2
    ensures var r := Written(Written(c, k1, v1), k2, v2);
      k1 in r.values && r.values[k1] == v1 && k2 in r.values && r.values[k2] == v2
  {
    var w := Written(c, k1, v1);
    CleanupKeepsLatest(w);
  }

  // ------------------------------------------------------------ totals

  /** A totals miss caches String.valueOf(count) under the option's key; a hit writes nothing. */
  lemma TotalsStepCaches(fileName: string, op: string, b: Built, files: map<string, string>)
    requires b.cache.maxSize >= 1
    ensures var r := TotalsStep(fileName, op, b, files);
      var seen := Read(b.cache, Key(fileName, op));
      (seen.value.None? ==>
         Key(fileName, op) in r.cache.values && r.cache.values[Key(fileName, op)] == NatToString(TotalCount(op, files, fileName)))
      && (seen.value.Some? ==> r.cache == seen.after)
  {
  }
}
