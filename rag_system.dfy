/**
 * The knowledge base: documents are loaded from a directory, tagged with
 * their file name, cut into chunks and stored in a vector index.  An
 * update run ingests the files waiting in `new_docs`: chunks of files
 * already ingested (found by name in `old_docs`) are deleted first, the new
 * chunks appended, and the files moved into `old_docs`.
 *
 * The directory loader, the text splitter and the embedder are oracles.
 * Directories are maps from a file's path relative to the directory to its
 * contents; a document's `source` is its path relative to the directory it
 * was loaded from.
 */
module KnowledgeBase {
  import opened Outcomes
  import opened PyText

  type Metadata = map<string, string>

  /** A loaded document or a chunk of one: text and metadata. */
  datatype Document = Document(pageContent: string, metadata: Metadata)

  const SourceKey: string := "source"
  const FileNameKey: string := "file_name"

  /** What `os.path.basename(None)` raises. */
  const NoneSourceError: Exception := Exception("expected str, bytes or os.PathLike object, not NoneType")

  /** What `shutil.move` raises for a source that does not exist. */
  function NotFoundError(path: string): Exception
  {
    Exception("[Errno 2] No such file or directory: '" + path + "'")
  }

  /** `chunk.metadata.get("file_name")` */
  function FileNameOf(c: Document): Option<string>
  {
    if FileNameKey in c.metadata then Some(c.metadata[FileNameKey]) else None
  }

  /** `doc.metadata.get("source")` */
  function SourceOf(d: Document): Option<string>
  {
    if SourceKey in d.metadata then Some(d.metadata[SourceKey]) else None
  }

  predicate NoDuplicates<T(==)>(xs: seq<T>)
  {
    forall i, j :: 0 <= i < j < |xs| ==> xs[i] != xs[j]
  }

  // ---------------------------------------------------------------------------
  // Loading and chunking

  /** The tag the loading loop puts on one document. */
  function Tag(d: Document): Document
  {
    if SourceKey in d.metadata
    then d.(metadata := d.metadata[FileNameKey := Basename(d.metadata[SourceKey])])
    else d
  }

  /** `split_documents`: each document's text is cut by the splitter, and every piece keeps the document's metadata. */
  function SplitDocuments(docs: seq<Document>, splitText: string -> seq<string>): (chunks: seq<Document>)
    ensures forall k :: 0 <= k < |chunks| ==> exists j :: 0 <= j < |docs| && chunks[k].metadata == docs[j].metadata
  {
    if docs == [] then []
    else
      var pieces := splitText(docs[0].pageContent);
      var first := seq(|pieces|, k requires 0 <= k < |pieces| => Document(pieces[k], docs[0].metadata));
      var rest := SplitDocuments(docs[1..], splitText);
      assert forall k :: 0 <= k < |rest| ==> exists j :: 1 <= j < |docs| && rest[k].metadata == docs[j].metadata by {
        forall k | 0 <= k < |rest| ensures exists j :: 1 <= j < |docs| && rest[k].metadata == docs[j].metadata {
          var j :| 0 <= j < |docs[1..]| && rest[k].metadata == docs[1..][j].metadata;
          assert docs[1..][j] == docs[j + 1];
        }
      }
      first + rest
  }

  /** `list(set(xs))`, keeping each value at its first occurrence. */
  function Dedup(xs: seq<Option<string>>): (r: seq<Option<string>>)
    ensures NoDuplicates(r)
    ensures forall x :: x in r <==> x in xs
  {
    if xs == [] then []
    else
      var front := xs[..|xs| - 1];
      var r := Dedup(front);
      assert forall x :: x in xs <==> x in front || x == xs[|xs| - 1] by {
        assert xs == front + [xs[|xs| - 1]];
      }
      if xs[|xs| - 1] in r then r else r + [xs[|xs| - 1]]
  }

  function Sources(docs: seq<Document>): (r: seq<Option<string>>)
    ensures |r| == |docs| && forall i :: 0 <= i < |docs| ==> r[i] == SourceOf(docs[i])
  {
    seq(|docs|, i requires 0 <= i < |docs| => SourceOf(docs[i]))
  }

  /** What `load_and_process_documents` returns: the chunks and the list of source files. */
  datatype Loaded = Loaded(chunks: seq<Document>, sourceFiles: seq<Option<string>>)

  /**
   * `load_and_process_documents` on what the loader produced: nothing for
   * a failed or empty load, otherwise the chunks of the tagged documents
   * and their distinct sources.
   */
  function Process(load: Result<seq<Document>>, splitText: string -> seq<string>): Loaded
  {
    if load.Err? || load.value == [] then Loaded([], [])
    else
      var docs := load.value;
      var tagged := seq(|docs|, i requires 0 <= i < |docs| => Tag(docs[i]));
      Loaded(SplitDocuments(tagged, splitText), Dedup(Sources(docs)))
  }

  /**
   * Every chunk whose document had a source is tagged with that source's
   * basename, and the source list has no duplicates.
   */
  lemma ProcessTagsChunks(load: Result<seq<Document>>, splitText: string -> seq<string>)
    ensures var r := Process(load, splitText);
            && NoDuplicates(r.sourceFiles)
            && (forall k :: 0 <= k < |r.chunks| && SourceKey in r.chunks[k].metadata ==>
                  FileNameOf(r.chunks[k]) == Some(Basename(r.chunks[k].metadata[SourceKey])))
            && (load.Ok? ==> forall x :: x in r.sourceFiles <==> exists d :: d in load.value && x == SourceOf(d))
  {
    if load.Ok? && load.value != [] {
      var docs := load.value;
      var tagged := seq(|docs|, i requires 0 <= i < |docs| => Tag(docs[i]));
      var chunks := SplitDocuments(tagged, splitText);
      forall k | 0 <= k < |chunks| && SourceKey in chunks[k].metadata
        ensures FileNameOf(chunks[k]) == Some(Basename(chunks[k].metadata[SourceKey]))
      {
        var j :| 0 <= j < |tagged| && chunks[k].metadata == tagged[j].metadata;
      }
      var sources := Sources(docs);
      forall x ensures x in sources <==> exists d :: d in docs && x == SourceOf(d) {
        if x in sources {
          var i :| 0 <= i < |sources| && sources[i] == x;
          assert docs[i] in docs;
        }
      }
    }
  }

  /** `load_and_process_documents(docs_dir)`, given what `DirectoryLoader(...).load()` produced. */
  method LoadAndProcessDocuments(load: Result<seq<Document>>, splitText: string -> seq<string>)
    returns (chunks: seq<Document>, sourceFiles: seq<Option<string>>)
    ensures Loaded(chunks, sourceFiles) == Process(load, splitText)
    ensures load.Err? || load == Ok([]) ==> chunks == [] && sourceFiles == []
  {
    if load.Err? {
      return [], [];
    }
    var documents := load.value;
    if documents == [] {
      return [], [];
    }
    var i := 0;
    while i < |documents|
      invariant 0 <= i <= |documents|
      invariant |documents| == |load.value|
      invariant forall k :: 0 <= k < i ==> documents[k] == Tag(load.value[k])
      invariant forall k :: i <= k < |documents| ==> documents[k] == load.value[k]
    {
      var doc := documents[i];
      if SourceKey in doc.metadata {
        doc := doc.(metadata := doc.metadata[FileNameKey := Basename(doc.metadata[SourceKey])]);
      }
      documents := documents[i := doc];
      i := i + 1;
    }
    assert documents == seq(|load.value|, k requires 0 <= k < |load.value| => Tag(load.value[k]));
    chunks := SplitDocuments(documents, splitText);
    sourceFiles := Dedup(Sources(load.value));
  }

  // ---------------------------------------------------------------------------
  // The vector index

  /** `c` is tagged with one of `names`. */
  predicate TaggedIn(c: Document, names: set<string>)
  {
    FileNameKey in c.metadata && c.metadata[FileNameKey] in names
  }

  /** `chunks` without those tagged with one of `names`, in order. */
  function WithoutFiles(chunks: seq<Document>, names: set<string>): seq<Document>
  {
    if chunks == [] then []
    else if TaggedIn(chunks[0], names) then WithoutFiles(chunks[1..], names)
    else [chunks[0]] + WithoutFiles(chunks[1..], names)
  }

  /** The chunks of `chunks` tagged with `name`, in order. */
  function ChunksOf(chunks: seq<Document>, name: string): seq<Document>
  {
    if chunks == [] then []
    else if FileNameOf(chunks[0]) == Some(name) then [chunks[0]] + ChunksOf(chunks[1..], name)
    else ChunksOf(chunks[1..], name)
  }

  /** Deleting by file name keeps exactly the chunks not tagged with one of the names. */
  lemma {:induction false} WithoutFilesMembers(chunks: seq<Document>, names: set<string>)
    ensures forall c :: c in WithoutFiles(chunks, names) <==> c in chunks && !TaggedIn(c, names)
  {
    if chunks != [] {
      WithoutFilesMembers(chunks[1..], names);
      assert chunks == [chunks[0]] + chunks[1..];
    }
  }

  /** Deleting one set of names after another is deleting both; deleting a name twice is deleting it once. */
  lemma {:induction false} WithoutFilesTwice(chunks: seq<Document>, a: set<string>, b: set<string>)
    ensures WithoutFiles(WithoutFiles(chunks, a), b) == WithoutFiles(chunks, a + b)
  {
    if chunks != [] {
      WithoutFilesTwice(chunks[1..], a, b);
    }
  }

  lemma {:induction false} WithoutFilesNothing(chunks: seq<Document>)
    ensures WithoutFiles(chunks, {}) == chunks
  {
    if chunks != [] {
      WithoutFilesNothing(chunks[1..]);
    }
  }

  lemma {:induction false} ChunksOfAppend(a: seq<Document>, b: seq<Document>, name: string)
    ensures ChunksOf(a + b, name) == ChunksOf(a, name) + ChunksOf(b, name)
  {
    if a != [] {
      assert (a + b)[1..] == a[1..] + b;
      ChunksOfAppend(a[1..], b, name);
    } else {
      assert a + b == b;
    }
  }

  /** After deleting a name, no chunk with that name is left. */
  lemma {:induction false} ChunksOfWithout(chunks: seq<Document>, names: set<string>, name: string)
    ensures name in names ==> ChunksOf(WithoutFiles(chunks, names), name) == []
    ensures name !in names ==> ChunksOf(WithoutFiles(chunks, names), name) == ChunksOf(chunks, name)
  {
    if chunks != [] {
      ChunksOfWithout(chunks[1..], names, name);
      if !TaggedIn(chunks[0], names) {
        assert ([chunks[0]] + WithoutFiles(chunks[1..], names))[1..] == WithoutFiles(chunks[1..], names);
      }
    }
  }

  /** The set `new_file_names`: every `file_name` tag among `chunks`. */
  function FileNames(chunks: seq<Document>): (names: set<string>)
    ensures forall c :: c in chunks && FileNameKey in c.metadata ==> c.metadata[FileNameKey] in names
    ensures forall x :: x in names ==> exists c :: c in chunks && FileNameOf(c) == Some(x)
  {
    if chunks == [] then {}
    else
      var front := chunks[..|chunks| - 1];
      var last := chunks[|chunks| - 1];
      assert chunks == front + [last];
      var names := FileNames(front) + (if FileNameKey in last.metadata then {last.metadata[FileNameKey]} else {});
      assert forall x :: x in names ==> exists c :: c in chunks && FileNameOf(c) == Some(x) by {
        forall x | x in names ensures exists c :: c in chunks && FileNameOf(c) == Some(x) {
          if x in FileNames(front) {
            var c :| c in front && FileNameOf(c) == Some(x);
            assert c in chunks;
          } else {
            assert last in chunks && FileNameOf(last) == Some(x);
          }
        }
      }
      names
  }

  lemma FileNamesStep(chunks: seq<Document>, i: nat)
    requires i < |chunks|
    ensures FileNames(chunks[..i + 1])
            == FileNames(chunks[..i]) + (if FileNameKey in chunks[i].metadata then {chunks[i].metadata[FileNameKey]} else {})
  {
    assert chunks[..i + 1][..i] == chunks[..i];
  }

  /** A Chroma collection. */
  class VectorStore {
    var chunks: seq<Document>

    constructor (chunks: seq<Document>)
      ensures this.chunks == chunks
    {
      this.chunks := chunks;
    }

    /** `delete(where={"file_name": name})` */
    method Delete(name: string)
      modifies this
      ensures chunks == WithoutFiles(old(chunks), {name})
    {
      chunks := WithoutFiles(chunks, {name});
    }

    /** `add_documents(docs)`; the new chunks are embedded first, so a failing embedder adds nothing. */
    method AddDocuments(docs: seq<Document>, embedFailure: Option<Exception>) returns (failure: Option<Exception>)
      modifies this
      ensures failure == embedFailure
      ensures chunks == if embedFailure.Some? then old(chunks) else old(chunks) + docs
    {
      if embedFailure.Some? {
        return embedFailure;
      }
      chunks := chunks + docs;
      return None;
    }
  }

  // ---------------------------------------------------------------------------
  // Directories

  /** A directory tree: each file's path relative to the directory, and its contents. */
  class Folder {
    var present: bool
    var files: map<string, string>

    constructor (present: bool, files: map<string, string>)
      ensures this.present == present && this.files == files
    {
      this.present := present;
      this.files := files;
    }
  }

  /**
   * A file that `glob(join(dir, "**", "*.*"), recursive=True)` lists: its
   * name contains a dot, and neither it nor a directory on its path is
   * hidden (starts with a dot).
   */
  predicate MatchesGlob(path: string)
  {
    && '.' in Basename(path)
    && forall i :: 0 <= i < |path| && path[i] == '.' ==> i > 0 && path[i - 1] != '/'
  }

  /** `old_files`: the basenames of the files the glob finds under `old_docs`. */
  function OldFiles(oldDocs: map<string, string>): set<string>
  {
    set p | p in oldDocs && MatchesGlob(p) :: Basename(p)
  }

  /** `existing`: the stored basenames that are also among the new chunks' file names. */
  function Conflicts(oldDocs: map<string, string>, names: set<string>): set<string>
  {
    OldFiles(oldDocs) * names
  }

  /** A name without a dot never counts as already stored. */
  lemma DotlessNeverConflicts(oldDocs: map<string, string>, names: set<string>, name: string)
    requires '.' !in name
    ensures name !in Conflicts(oldDocs, names)
  {
  }

  // ---------------------------------------------------------------------------
  // Moving files into old_docs

  datatype Dirs = Dirs(oldDocs: map<string, string>, newDocs: map<string, string>)
  datatype Moved = Moved(dirs: Dirs, failure: Option<Exception>)

  /**
   * One turn of the moving loop: the destination `old_docs/<basename>` is
   * removed if it exists, then the file is moved there.
   */
  function MoveOne(d: Dirs, src: Option<string>): Moved
  {
    if src.None? then Moved(d, Some(NoneSourceError))
    else
      var name := Basename(src.value);
      var cleared := d.oldDocs - {name};
      if src.value !in d.newDocs then Moved(Dirs(cleared, d.newDocs), Some(NotFoundError(src.value)))
      else Moved(Dirs(cleared[name := d.newDocs[src.value]], d.newDocs - {src.value}), None)
  }

  /** The moving loop over `processed_files`, stopped by the first exception. */
  function MoveAll(d: Dirs, srcs: seq<Option<string>>): Moved
  {
    if srcs == [] then Moved(d, None)
    else
      var m := MoveAll(d, srcs[..|srcs| - 1]);
      if m.failure.Some? then m else MoveOne(m.dirs, srcs[|srcs| - 1])
  }

  lemma MoveAllStep(d: Dirs, srcs: seq<Option<string>>, i: nat)
    requires i < |srcs|
    ensures MoveAll(d, srcs[..i + 1])
            == var m := MoveAll(d, srcs[..i]); if m.failure.Some? then m else MoveOne(m.dirs, srcs[i])
  {
    assert srcs[..i + 1][..i] == srcs[..i];
  }

  /** The basenames of the given sources. */
  function Basenames(srcs: seq<Option<string>>): set<string>
  {
    set i | 0 <= i < |srcs| && srcs[i].Some? :: Basename(srcs[i].value)
  }

  /** Source `srcs[i]` is the last one with its basename. */
  predicate LastOfName(srcs: seq<Option<string>>, i: nat)
    requires i < |srcs| && srcs[i].Some?
  {
    forall j :: i < j < |srcs| && srcs[j].Some? ==> Basename(srcs[j].value) != Basename(srcs[i].value)
  }

  /** Every source is present and none repeats. */
  predicate Movable(d: Dirs, srcs: seq<Option<string>>)
  {
    && NoDuplicates(srcs)
    && forall i :: 0 <= i < |srcs| ==> srcs[i].Some? && srcs[i].value in d.newDocs
  }

  lemma MovableFront(d: Dirs, srcs: seq<Option<string>>)
    requires Movable(d, srcs) && srcs != []
    ensures Movable(d, srcs[..|srcs| - 1]) && Some(srcs[|srcs| - 1].value) !in srcs[..|srcs| - 1]
  {
    var n := |srcs| - 1;
    assert forall j :: 0 <= j < n ==> srcs[..n][j] == srcs[j];
  }

  /** Moving distinct existing sources succeeds, and exactly they leave `new_docs`. */
  lemma {:induction false} MoveAllSucceeds(d: Dirs, srcs: seq<Option<string>>)
    requires Movable(d, srcs)
    ensures var m := MoveAll(d, srcs);
            && m.failure.None?
            && (forall p :: p in m.dirs.newDocs <==> p in d.newDocs && Some(p) !in srcs)
            && (forall p :: p in m.dirs.newDocs ==> m.dirs.newDocs[p] == d.newDocs[p])
  {
    if srcs != [] {
      var n := |srcs| - 1;
      MovableFront(d, srcs);
      MoveAllSucceeds(d, srcs[..n]);
      assert srcs == srcs[..n] + [srcs[n]];
    }
  }

  /**
   * Moving distinct existing sources adds their basenames to `old_docs`
   * and leaves every other file of `old_docs` untouched.
   */
  lemma {:induction false} MoveAllFillsOldDocs(d: Dirs, srcs: seq<Option<string>>)
    requires Movable(d, srcs)
    ensures var m := MoveAll(d, srcs);
            && (forall k :: k in m.dirs.oldDocs <==> k in d.oldDocs || k in Basenames(srcs))
            && (forall k :: k in d.oldDocs && k !in Basenames(srcs) ==> m.dirs.oldDocs[k] == d.oldDocs[k])
  {
    if srcs != [] {
      var n := |srcs| - 1;
      MovableFront(d, srcs);
      MoveAllSucceeds(d, srcs[..n]);
      MoveAllFillsOldDocs(d, srcs[..n]);
      BasenamesStep(srcs);
    }
  }

  lemma BasenamesStep(srcs: seq<Option<string>>)
    requires srcs != [] && srcs[|srcs| - 1].Some?
    ensures Basenames(srcs) == Basenames(srcs[..|srcs| - 1]) + {Basename(srcs[|srcs| - 1].value)}
  {
    var n := |srcs| - 1;
    assert forall j :: 0 <= j < n ==> srcs[..n][j] == srcs[j];
  }

  /** When two sources share a basename, the file moved last is the one `old_docs` keeps. */
  lemma {:induction false} MoveAllLastWins(d: Dirs, srcs: seq<Option<string>>, i: nat)
    requires Movable(d, srcs)
    requires i < |srcs| && LastOfName(srcs, i)
    ensures Basename(srcs[i].value) in MoveAll(d, srcs).dirs.oldDocs
    ensures MoveAll(d, srcs).dirs.oldDocs[Basename(srcs[i].value)] == d.newDocs[srcs[i].value]
  {
    var n := |srcs| - 1;
    var front := srcs[..n];
    MovableFront(d, srcs);
    MoveAllSucceeds(d, front);
    var m := MoveAll(d, front);
    var src := srcs[n].value;
    assert src in m.dirs.newDocs;
    assert MoveAll(d, srcs).dirs.oldDocs == (m.dirs.oldDocs - {Basename(src)})[Basename(src) := m.dirs.newDocs[src]];
    if i < n {
      assert Basename(src) != Basename(srcs[i].value);
      assert front[i] == srcs[i];
      assert LastOfName(front, i) by {
        assert forall j :: i < j < n ==> front[j] == srcs[j];
      }
      MoveAllLastWins(d, front, i);
    }
  }

  /** The moving loop stops at a source that is None or has already gone from `new_docs`. */
  lemma {:induction false} MoveAllFails(d: Dirs, srcs: seq<Option<string>>)
    requires MoveAll(d, srcs).failure.Some?
    ensures exists i :: 0 <= i < |srcs| && (srcs[i].None? || srcs[i].value !in d.newDocs
                                              || Some(srcs[i].value) in srcs[..i])
  {
    var n := |srcs| - 1;
    var front := srcs[..n];
    assert forall j :: 0 <= j < n ==> front[j] == srcs[j];
    if MoveAll(d, front).failure.Some? {
      MoveAllFails(d, front);
      var i :| 0 <= i < |front| && (front[i].None? || front[i].value !in d.newDocs
                                     || Some(front[i].value) in front[..i]);
      assert front[..i] == srcs[..i];
    } else {
      if srcs[n].Some? && srcs[n].value in d.newDocs && Some(srcs[n].value) !in front {
        MoveAllKeepsOthers(d, front, srcs[n].value);
        assert false;
      }
      assert front == srcs[..n];
    }
  }

  /** A file of `new_docs` that is not among the sources moved is still there. */
  lemma {:induction false} MoveAllKeepsOthers(d: Dirs, srcs: seq<Option<string>>, p: string)
    requires p in d.newDocs && Some(p) !in srcs
    ensures p in MoveAll(d, srcs).dirs.newDocs
  {
    if srcs != [] {
      var n := |srcs| - 1;
      assert forall j :: 0 <= j < n ==> srcs[..n][j] == srcs[j];
      MoveAllKeepsOthers(d, srcs[..n], p);
    }
  }

  // ---------------------------------------------------------------------------
  // The update run

  /** What an update run did, as its messages report it. */
  datatype UpdateOutcome =
    | NothingToUpdate        // new_docs is missing or empty
    | NoValidDocuments       // nothing loaded, or no chunks
    | Cancelled              // the user answered "0"
    | Updated
    | Failed(error: Exception)

  /** The state an update run reads and writes. */
  datatype KbState = KbState(index: seq<Document>, oldDocs: map<string, string>,
                             newDocsPresent: bool, newDocs: map<string, string>)

  datatype UpdateResult = UpdateResult(state: KbState, outcome: UpdateOutcome)

  /**
   * `check_and_update_database`: `reply` is what the user typed at the
   * prompt, `addFailure` the outcome of embedding the new chunks.
   */
  function Update(s: KbState, loader: map<string, string> -> Result<seq<Document>>,
                  splitText: string -> seq<string>, reply: string,
                  addFailure: Option<Exception>): UpdateResult
  {
    if !s.newDocsPresent || s.newDocs == map[] then UpdateResult(s, NothingToUpdate)
    else
      var loaded := Process(loader(s.newDocs), splitText);
      if loaded.chunks == [] then UpdateResult(s, NoValidDocuments)
      else
        var existing := Conflicts(s.oldDocs, FileNames(loaded.chunks));
        if existing != {} && Strip(reply) == "0" then UpdateResult(s, Cancelled)
        else
          var purged := WithoutFiles(s.index, existing);
          if addFailure.Some? then UpdateResult(s.(index := purged), Failed(addFailure.value))
          else
            var m := MoveAll(Dirs(s.oldDocs, s.newDocs), loaded.sourceFiles);
            UpdateResult(KbState(purged + loaded.chunks, m.dirs.oldDocs, true, m.dirs.newDocs),
                         if m.failure.None? then Updated else Failed(m.failure.value))
  }

  /** A run that proceeds past the prompt. */
  predicate Proceeds(s: KbState, loader: map<string, string> -> Result<seq<Document>>,
                     splitText: string -> seq<string>, reply: string)
  {
    && s.newDocsPresent && s.newDocs != map[]
    && var loaded := Process(loader(s.newDocs), splitText);
    && loaded.chunks != []
    && (Conflicts(s.oldDocs, FileNames(loaded.chunks)) == {} || Strip(reply) != "0")
  }

  /** Every run that stops before the index is touched leaves the whole state as it was. */
  lemma UpdateStopsEarly(s: KbState, loader: map<string, string> -> Result<seq<Document>>,
                         splitText: string -> seq<string>, reply: string, addFailure: Option<Exception>)
    requires !Proceeds(s, loader, splitText, reply)
    ensures var r := Update(s, loader, splitText, reply, addFailure);
            r.state == s && r.outcome in {NothingToUpdate, NoValidDocuments, Cancelled}
  {
  }

  /**
   * A run that proceeds deletes every old chunk of a conflicting file,
   * keeps every other old chunk, and appends all the new chunks.
   */
  lemma UpdateIndex(s: KbState, loader: map<string, string> -> Result<seq<Document>>,
                    splitText: string -> seq<string>, reply: string, addFailure: Option<Exception>)
    requires Proceeds(s, loader, splitText, reply) && addFailure.None?
    ensures var loaded := Process(loader(s.newDocs), splitText);
            var existing := Conflicts(s.oldDocs, FileNames(loaded.chunks));
            var index := Update(s, loader, splitText, reply, addFailure).state.index;
            && index[|index| - |loaded.chunks|..] == loaded.chunks
            && (forall c :: c in s.index && !TaggedIn(c, existing) ==> c in index)
            && (forall c :: c in index ==> c in loaded.chunks || (c in s.index && !TaggedIn(c, existing)))
  {
    var loaded := Process(loader(s.newDocs), splitText);
    var existing := Conflicts(s.oldDocs, FileNames(loaded.chunks));
    WithoutFilesMembers(s.index, existing);
  }

  /**
   * Replacing a stored file leaves exactly one generation of its chunks:
   * those of the new run.
   */
  lemma UpdateReplaces(s: KbState, loader: map<string, string> -> Result<seq<Document>>,
                       splitText: string -> seq<string>, reply: string, addFailure: Option<Exception>,
                       name: string)
    requires Proceeds(s, loader, splitText, reply) && addFailure.None?
    requires name in OldFiles(s.oldDocs)
    ensures var loaded := Process(loader(s.newDocs), splitText);
            var index := Update(s, loader, splitText, reply, addFailure).state.index;
            ChunksOf(index, name) == if name in FileNames(loaded.chunks) then ChunksOf(loaded.chunks, name)
                                     else ChunksOf(s.index, name)
  {
    var loaded := Process(loader(s.newDocs), splitText);
    var existing := Conflicts(s.oldDocs, FileNames(loaded.chunks));
    ChunksOfAppend(WithoutFiles(s.index, existing), loaded.chunks, name);
    ChunksOfWithout(s.index, existing, name);
    if name !in FileNames(loaded.chunks) {
      ChunksOfNone(loaded.chunks, name);
    }
  }

  lemma {:induction false} ChunksOfNone(chunks: seq<Document>, name: string)
    requires name !in FileNames(chunks)
    ensures ChunksOf(chunks, name) == []
  {
    if chunks != [] {
      assert chunks[0] in chunks;
      assert FileNames(chunks[1..]) <= FileNames(chunks) by {
        forall x | x in FileNames(chunks[1..]) ensures x in FileNames(chunks) {
          var c :| c in chunks[1..] && FileNameOf(c) == Some(x);
          assert c in chunks;
        }
      }
      ChunksOfNone(chunks[1..], name);
    }
  }

  /**
   * A file whose name has no dot is never recognised as stored: its old
   * chunks stay beside the new ones.
   */
  lemma UpdateDuplicatesDotless(s: KbState, loader: map<string, string> -> Result<seq<Document>>,
                                splitText: string -> seq<string>, reply: string,
                                addFailure: Option<Exception>, name: string)
    requires Proceeds(s, loader, splitText, reply) && addFailure.None?
    requires '.' !in name
    ensures var loaded := Process(loader(s.newDocs), splitText);
            var index := Update(s, loader, splitText, reply, addFailure).state.index;
            ChunksOf(index, name) == ChunksOf(s.index, name) + ChunksOf(loaded.chunks, name)
  {
    var loaded := Process(loader(s.newDocs), splitText);
    var existing := Conflicts(s.oldDocs, FileNames(loaded.chunks));
    ChunksOfAppend(WithoutFiles(s.index, existing), loaded.chunks, name);
    ChunksOfWithout(s.index, existing, name);
  }

  /**
   * A completed run moves every processed file to `old_docs/<basename>`,
   * where the glob of the next run finds it when its name has a dot and
   * is not hidden.
   */
  lemma UpdateMovesFiles(s: KbState, loader: map<string, string> -> Result<seq<Document>>,
                         splitText: string -> seq<string>, reply: string, addFailure: Option<Exception>)
    requires Update(s, loader, splitText, reply, addFailure).outcome == Updated
    ensures var loaded := Process(loader(s.newDocs), splitText);
            var after := Update(s, loader, splitText, reply, addFailure).state;
            forall i :: 0 <= i < |loaded.sourceFiles| ==>
              && loaded.sourceFiles[i].Some?
              && loaded.sourceFiles[i].value !in after.newDocs
              && Basename(loaded.sourceFiles[i].value) in after.oldDocs
              && (MatchesGlob(Basename(loaded.sourceFiles[i].value)) ==>
                    Basename(loaded.sourceFiles[i].value) in OldFiles(after.oldDocs))
  {
    var loaded := Process(loader(s.newDocs), splitText);
    var srcs := loaded.sourceFiles;
    var d := Dirs(s.oldDocs, s.newDocs);
    ProcessTagsChunks(loader(s.newDocs), splitText);
    if exists i :: 0 <= i < |srcs| && (srcs[i].None? || srcs[i].value !in d.newDocs) {
      var i :| 0 <= i < |srcs| && (srcs[i].None? || srcs[i].value !in d.newDocs);
      MoveAllNeedsSources(d, srcs, i);
      assert false;
    }
    MoveAllSucceeds(d, srcs);
    MoveAllFillsOldDocs(d, srcs);
    var after := MoveAll(d, srcs).dirs;
    forall i | 0 <= i < |srcs|
      ensures Basename(srcs[i].value) in after.oldDocs
      ensures MatchesGlob(Basename(srcs[i].value)) ==> Basename(srcs[i].value) in OldFiles(after.oldDocs)
    {
      var name := Basename(srcs[i].value);
      assert name in Basenames(srcs);
      BasenameShape(srcs[i].value);
      BasenameOfName(name);
    }
  }

  /** A source that is None or missing from `new_docs` makes the moving loop fail. */
  lemma {:induction false} MoveAllNeedsSources(d: Dirs, srcs: seq<Option<string>>, i: nat)
    requires i < |srcs| && (srcs[i].None? || srcs[i].value !in d.newDocs)
    ensures MoveAll(d, srcs).failure.Some?
    decreases |srcs|
  {
    var n := |srcs| - 1;
    var front := srcs[..n];
    if i < n {
      MoveAllNeedsSources(d, front, i);
      MoveAllStops(d, srcs, n);
    } else if srcs[n].Some? {
      MoveAllShrinks(d, front);
    }
  }

  /** The moving loop only ever takes files out of `new_docs`. */
  lemma {:induction false} MoveAllShrinks(d: Dirs, srcs: seq<Option<string>>)
    ensures MoveAll(d, srcs).dirs.newDocs.Keys <= d.newDocs.Keys
  {
    if srcs != [] {
      MoveAllShrinks(d, srcs[..|srcs| - 1]);
    }
  }

  // ---------------------------------------------------------------------------
  // The imperative run

  /** The loop that fills `new_file_names`. */
  method CollectFileNames(chunks: seq<Document>) returns (names: set<string>)
    ensures names == FileNames(chunks)
  {
    names := {};
    var i := 0;
    while i < |chunks|
      invariant 0 <= i <= |chunks|
      invariant names == FileNames(chunks[..i])
    {
      FileNamesStep(chunks, i);
      if FileNameKey in chunks[i].metadata {
        names := names + {chunks[i].metadata[FileNameKey]};
      }
      i := i + 1;
    }
    assert chunks[..i] == chunks;
  }

  /** The loop that deletes, chunk by chunk, every file name in `existing`. */
  method DeleteConflicting(store: VectorStore, newChunks: seq<Document>, existing: set<string>)
    requires existing <= FileNames(newChunks)
    modifies store
    ensures store.chunks == WithoutFiles(old(store.chunks), existing)
  {
    var i := 0;
    WithoutFilesNothing(store.chunks);
    assert FileNames(newChunks[..0]) * existing == {} by {
      assert newChunks[..0] == [];
    }
    while i < |newChunks|
      invariant 0 <= i <= |newChunks|
      invariant store.chunks == WithoutFiles(old(store.chunks), FileNames(newChunks[..i]) * existing)
    {
      FileNamesStep(newChunks, i);
      var chunk := newChunks[i];
      if FileNameKey in chunk.metadata && chunk.metadata[FileNameKey] in existing {
        var name := chunk.metadata[FileNameKey];
        WithoutFilesTwice(old(store.chunks), FileNames(newChunks[..i]) * existing, {name});
        assert FileNames(newChunks[..i + 1]) * existing == FileNames(newChunks[..i]) * existing + {name};
        store.Delete(name);
      } else {
        assert FileNames(newChunks[..i + 1]) * existing == FileNames(newChunks[..i]) * existing;
      }
      i := i + 1;
    }
    assert newChunks[..i] == newChunks;
    assert FileNames(newChunks) * existing == existing;
  }

  /**
   * One turn of the moving loop: `os.remove` of an existing destination,
   * then `shutil.move` from `new_docs` into `old_docs`.
   */
  method MoveFile(filePath: Option<string>, newDocs: Folder, oldDocs: Folder) returns (failure: Option<Exception>)
    requires newDocs != oldDocs
    modifies newDocs, oldDocs
    ensures newDocs.present == old(newDocs.present) && oldDocs.present == old(oldDocs.present)
    ensures MoveOne(Dirs(old(oldDocs.files), old(newDocs.files)), filePath)
            == Moved(Dirs(oldDocs.files, newDocs.files), failure)
  {
    if filePath.None? {
      return Some(NoneSourceError);
    }
    var fileName := Basename(filePath.value);
    if fileName in oldDocs.files {
      oldDocs.files := oldDocs.files - {fileName};
    } else {
      assert oldDocs.files - {fileName} == oldDocs.files;
    }
    if filePath.value !in newDocs.files {
      return Some(NotFoundError(filePath.value));
    }
    oldDocs.files := oldDocs.files[fileName := newDocs.files[filePath.value]];
    newDocs.files := newDocs.files - {filePath.value};
    return None;
  }

  /** The loop that moves each processed file into `old_docs`. */
  method MoveToOldDocs(processedFiles: seq<Option<string>>, newDocs: Folder, oldDocs: Folder)
    returns (failure: Option<Exception>)
    requires newDocs != oldDocs
    modifies newDocs, oldDocs
    ensures newDocs.present == old(newDocs.present) && oldDocs.present == old(oldDocs.present)
    ensures MoveAll(Dirs(old(oldDocs.files), old(newDocs.files)), processedFiles)
            == Moved(Dirs(oldDocs.files, newDocs.files), failure)
  {
    ghost var start := Dirs(oldDocs.files, newDocs.files);
    var i := 0;
    while i < |processedFiles|
      invariant 0 <= i <= |processedFiles|
      invariant newDocs.present == old(newDocs.present) && oldDocs.present == old(oldDocs.present)
      invariant MoveAll(start, processedFiles[..i]) == Moved(Dirs(oldDocs.files, newDocs.files), None)
    {
      MoveAllStep(start, processedFiles, i);
      failure := MoveFile(processedFiles[i], newDocs, oldDocs);
      if failure.Some? {
        MoveAllStops(start, processedFiles, i + 1);
        return;
      }
      i := i + 1;
    }
    assert processedFiles[..i] == processedFiles;
    return None;
  }

  /** Once the moving loop has failed on a prefix, the later sources change nothing. */
  lemma {:induction false} MoveAllStops(d: Dirs, srcs: seq<Option<string>>, i: nat)
    requires i <= |srcs| && MoveAll(d, srcs[..i]).failure.Some?
    ensures MoveAll(d, srcs) == MoveAll(d, srcs[..i])
    decreases |srcs| - i
  {
    if i < |srcs| {
      MoveAllStep(d, srcs, i);
      MoveAllStops(d, srcs, i + 1);
    } else {
      assert srcs[..i] == srcs;
    }
  }

  /**
   * `check_and_update_database(vector_store, new_docs_dir, old_docs_dir)`:
   * `loader` stands for `DirectoryLoader` over `new_docs`, `reply` for the
   * answer typed at the prompt, `addFailure` for the outcome of embedding
   * the new chunks.
   */
  method CheckAndUpdateDatabase(store: VectorStore, newDocs: Folder, oldDocs: Folder,
                                loader: map<string, string> -> Result<seq<Document>>,
                                splitText: string -> seq<string>, reply: string,
                                addFailure: Option<Exception>)
    returns (outcome: UpdateOutcome)
    requires newDocs != oldDocs
    modifies store, newDocs, oldDocs
    ensures var r := Update(KbState(old(store.chunks), old(oldDocs.files), old(newDocs.present), old(newDocs.files)),
                            loader, splitText, reply, addFailure);
            && r.state == KbState(store.chunks, oldDocs.files, newDocs.present, newDocs.files)
            && r.outcome == outcome
    ensures oldDocs.present == old(oldDocs.present)
  {
    if !newDocs.present || newDocs.files == map[] {
      return NothingToUpdate;
    }
    var newChunks, processedFiles := LoadAndProcessDocuments(loader(newDocs.files), splitText);
    if newChunks == [] {
      return NoValidDocuments;
    }
    var newFileNames := CollectFileNames(newChunks);
    var existing := Conflicts(oldDocs.files, newFileNames);
    if existing != {} {
      if Strip(reply) == "0" {
        return Cancelled;
      }
      DeleteConflicting(store, newChunks, existing);
    } else {
      WithoutFilesNothing(store.chunks);
    }
    var addError := store.AddDocuments(newChunks, addFailure);
    if addError.Some? {
      return Failed(addError.value);
    }
    var moveError := MoveToOldDocs(processedFiles, newDocs, oldDocs);
    if moveError.Some? {
      return Failed(moveError.value);
    }
    return Updated;
  }

  /**
   * `initialize_vector_store`: an existing store at the database path is
   * opened as it is; otherwise a new one is built from the documents of
   * `docs_dir`, empty when they give no chunks.  A failure while embedding
   * ends the process (`Err`).
   */
  method InitializeVectorStore(persisted: Option<seq<Document>>, load: Result<seq<Document>>,
                               splitText: string -> seq<string>, embedFailure: Option<Exception>)
    returns (r: Result<VectorStore>)
    ensures persisted.Some? ==> r.Ok? && r.value.chunks == persisted.value
    ensures persisted.None? ==>
              var chunks := Process(load, splitText).chunks;
              && (chunks == [] ==> r.Ok? && r.value.chunks == [])
              && (chunks != [] && embedFailure.Some? ==> r == Err(embedFailure.value))
              && (chunks != [] && embedFailure.None? ==> r.Ok? && r.value.chunks == chunks)
  {
    if persisted.Some? {
      var store := new VectorStore(persisted.value);
      return Ok(store);
    }
    var chunks, _ := LoadAndProcessDocuments(load, splitText);
    if chunks == [] {
      var store := new VectorStore([]);
      return Ok(store);
    }
    if embedFailure.Some? {
      return Err(embedFailure.value);
    }
    var store := new VectorStore(chunks);
    return Ok(store);
  }
}
