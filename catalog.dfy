/**
  The catalog: the one-time pass that walks the chains data directory and
  indexes every chain file by the id in its name (the `CHAINS` initializer),
  `Chain::from_file`, and the lookup `Chain::get`.

  The file system is an input: `Listing` is what `read_dir` yields, and
  `Env.open` is what `File::open` followed by reading gives for a path.
  A failed open is a `File` error; a failed read happens inside serde_json's
  reader and so, like a parse or decode failure, is a `Json` error.
  serde_json's text-to-document parser is `Env.parse`; the mapping from a
  document to a record is `Records.DecodeChain`. Every `expect`/`panic!` of
  the initializer is an `Abort` result.
 */
module Catalog {
  import opened Wrappers
  import opened DecimalU64
  import opened Errors
  import opened ChainFiles
  import opened Records

  /**
    Opening one path with `File::open` and reading it through serde_json's reader:
    its text, a failure of the open, or a failure of a read after a successful open.
   */
  datatype OpenOutcome = Opened(text: string) | OpenFailed(ioError: string) | ReadFailed(ioError: string)

  datatype Env = Env(open: string -> OpenOutcome, parse: string -> Result<Json, string>)

  /** What `DirEntry::file_type` reports; it does not follow symbolic links. */
  datatype FileType = RegularFile | Directory | SymbolicLink | OtherType

  /** `DirEntry::file_name` converted with `into_string`; a non-Unicode name keeps only its debug text. */
  datatype EntryName = Unicode(text: string) | NotUnicode(debug: string)

  datatype DirEntry =
    | UnreadableEntry(ioError: string)                              // the iterator yielded an `Err`
    | Entry(fileType: Result<FileType, string>, name: EntryName)

  /** `read_dir` of the data directory. */
  datatype Listing = Unlistable(ioError: string) | Listed(entries: seq<DirEntry>)

  /** The reasons the initializer panics, in the order it checks them. */
  datatype Abort =
    | DirectoryUnreadable(ioError: string)
    | EntryUnreadable(ioError: string)
    | FileTypeUnavailable(ioError: string)
    | NameNotUnicode(debug: string)
    | MalformedName(name: string)
    | InvalidChainId(name: string, kind: IntErrorKind)
    | LoadFailed(name: string, error: Error)
    | DuplicateChainId(id: u64)

  type Catalog = map<u64, Chain>

  /** `Chain::from_file`: open the id's canonical path, parse it, decode it. */
  function FromFile(env: Env, id: u64): (r: Result<Chain, Error>)
    ensures r.Err? ==> r.error.source.Some?
    ensures r.Err? ==> (r.error.kind == File <==> env.open(ChainPath(id)).OpenFailed?)
    ensures env.open(ChainPath(id)).OpenFailed? ==> r == Err(OpenFile(env.open(ChainPath(id)).ioError))
    ensures env.open(ChainPath(id)).ReadFailed? ==> r == Err(Deserialize(env.open(ChainPath(id)).ioError))
    ensures r.Ok? <==> ReadDocument(env, id).Some? && DecodeChain(ReadDocument(env, id).value).Ok?
    ensures r.Ok? ==> DecodeChain(ReadDocument(env, id).value) == Ok(r.value)
  {
    match env.open(ChainPath(id))
    case OpenFailed(ioError) => Err(OpenFile(ioError))
    case ReadFailed(ioError) => Err(Deserialize(ioError))
    case Opened(text) =>
      match env.parse(text)
      case Err(syntaxError) => Err(Deserialize(syntaxError))
      case Ok(document) =>
        match DecodeChain(document)
        case Err(e) => Err(Deserialize(DecodeErrorText(e)))
        case Ok(chain) => Ok(chain)
  }

  /** The parsed document at the id's canonical path, when it can be opened and parsed. */
  function ReadDocument(env: Env, id: u64): Option<Json> {
    match env.open(ChainPath(id))
    case OpenFailed(_) => None
    case ReadFailed(_) => None
    case Opened(text) =>
      match env.parse(text)
      case Err(_) => None
      case Ok(document) => Some(document)
  }

  /** The message a decoding failure carries as its cause (serde_json's position suffix is not modelled). */
  function DecodeErrorText(e: DecodeError): string {
    match e
    case ExpectedObject(what) => "invalid type: expected struct " + what
    case MissingField(field) => "missing field `" + field + "`"
    case InvalidType(field) => "invalid type for field `" + field + "`"
  }

  /** One iteration of the initializer's loop, on the map built so far. */
  function Step(env: Env, entry: DirEntry, chains: Catalog): Result<Catalog, Abort> {
    match entry
    case UnreadableEntry(ioError) => Err(EntryUnreadable(ioError))
    case Entry(fileType, name) =>
      if fileType.Err? then Err(FileTypeUnavailable(fileType.error))
      else if name.NotUnicode? then Err(NameNotUnicode(name.debug))
      else if fileType.value != RegularFile then Ok(chains)
      else
        match ChainIdFromName(name.text)
        case Err(MissingAffixes) => Err(MalformedName(name.text))
        case Err(BadChainId(kind)) => Err(InvalidChainId(name.text, kind))
        case Ok(id) =>
          match FromFile(env, id)
          case Err(error) => Err(LoadFailed(name.text, error))
          case Ok(chain) =>
            if id in chains then Err(DuplicateChainId(id)) else Ok(chains[id := chain])
  }

  /** The loop over the remaining entries, from the map built so far. */
  function BuildFrom(env: Env, entries: seq<DirEntry>, chains: Catalog): Result<Catalog, Abort>
    decreases |entries|
  {
    if entries == [] then Ok(chains)
    else
      match Step(env, entries[0], chains)
      case Err(abort) => Err(abort)
      case Ok(next) => BuildFrom(env, entries[1..], next)
  }

  /** The whole initializer, as a specification. */
  function Build(env: Env, listing: Listing): Result<Catalog, Abort> {
    match listing
    case Unlistable(ioError) => Err(DirectoryUnreadable(ioError))
    case Listed(entries) => BuildFrom(env, entries, map[])
  }

  /** The `CHAINS` initializer: a loop over the entries that inserts into a mutable map. */
  method BuildCatalog(env: Env, listing: Listing) returns (r: Result<Catalog, Abort>)
    ensures r == Build(env, listing)
  {
    if listing.Unlistable? {
      return Err(DirectoryUnreadable(listing.ioError));
    }
    var entries := listing.entries;
    var chains: Catalog := map[];
    var i := 0;
    while i < |entries|
      invariant 0 <= i <= |entries|
      invariant BuildFrom(env, entries[i..], chains) == Build(env, listing)
    {
      assert entries[i..][1..] == entries[i + 1..];
      var entry := entries[i];
      if entry.UnreadableEntry? {
        return Err(EntryUnreadable(entry.ioError));
      }
      if entry.fileType.Err? {
        return Err(FileTypeUnavailable(entry.fileType.error));
      }
      if entry.name.NotUnicode? {
        return Err(NameNotUnicode(entry.name.debug));
      }
      var fileName := entry.name.text;
      if entry.fileType.value != RegularFile {
        i := i + 1;
        continue;
      }
      var parsed := ChainIdFromName(fileName);
      if parsed.Err? {
        if parsed.error.MissingAffixes? {
          return Err(MalformedName(fileName));
        }
        return Err(InvalidChainId(fileName, parsed.error.kind));
      }
      var chainId := parsed.value;
      var chain := FromFile(env, chainId);
      if chain.Err? {
        return Err(LoadFailed(fileName, chain.error));
      }
      if chainId in chains {
        return Err(DuplicateChainId(chainId));
      }
      chains := chains[chainId := chain.value];
      i := i + 1;
    }
    r := Ok(chains);
  }

  /** `Chain::get` on the built catalog: the stored record, or `None` for an absent id. */
  function Get(catalog: Catalog, id: u64): (r: Option<Chain>)
    ensures r.Some? <==> id in catalog
    ensures r.Some? ==> r.value == catalog[id]
  {
    if id in catalog then Some(catalog[id]) else None
  }

  // Which entries the build indexes, and which stop it

  /** An entry that aborts the build whatever its type: unreadable, type unknown, or a non-Unicode name. */
  predicate EntryFault(e: DirEntry) {
    e.UnreadableEntry? || e.fileType.Err? || e.name.NotUnicode?
  }

  /** A regular file with a Unicode name: an entry the build indexes. */
  predicate IsChainFile(e: DirEntry) {
    e.Entry? && e.fileType == Ok(RegularFile) && e.name.Unicode?
  }

  /** The id a chain file's name gives, if it gives one. */
  function ChainFileId(e: DirEntry): Option<u64> {
    if IsChainFile(e) && ChainIdFromName(e.name.text).Ok? then Some(ChainIdFromName(e.name.text).value) else None
  }

  /** An entry the build gets past: no fault, and a chain file's name gives an id whose file loads. */
  predicate Passes(env: Env, e: DirEntry) {
    && !EntryFault(e)
    && (IsChainFile(e) ==> ChainFileId(e).Some? && FromFile(env, ChainFileId(e).value).Ok?)
  }

  predicate AllPass(env: Env, entries: seq<DirEntry>) {
    forall i :: 0 <= i < |entries| ==> Passes(env, entries[i])
  }

  /** No two chain files give the same id. */
  predicate DistinctIds(entries: seq<DirEntry>) {
    forall i, j :: 0 <= i < j < |entries| && ChainFileId(entries[i]).Some? ==>
      ChainFileId(entries[i]) != ChainFileId(entries[j])
  }

  /** The ids the chain files' names give. */
  function FileIds(entries: seq<DirEntry>): set<u64>
    decreases |entries|
  {
    if entries == [] then {}
    else
      (match ChainFileId(entries[0]) case Some(id) => {id} case None => {}) + FileIds(entries[1..])
  }

  lemma {:induction false} FileIdsIndex(entries: seq<DirEntry>, id: u64)
    ensures id in FileIds(entries) <==> exists i :: 0 <= i < |entries| && ChainFileId(entries[i]) == Some(id)
    decreases |entries|
  {
    if entries != [] {
      FileIdsIndex(entries[1..], id);
      if exists i :: 0 <= i < |entries[1..]| && ChainFileId(entries[1..][i]) == Some(id) {
        var i :| 0 <= i < |entries[1..]| && ChainFileId(entries[1..][i]) == Some(id);
        assert ChainFileId(entries[i + 1]) == Some(id);
      }
      if exists i :: 0 <= i < |entries| && ChainFileId(entries[i]) == Some(id) {
        var i :| 0 <= i < |entries| && ChainFileId(entries[i]) == Some(id);
        if i > 0 {
          assert ChainFileId(entries[1..][i - 1]) == Some(id);
        }
      }
    }
  }

  /** One iteration succeeds exactly when its entry passes and gives no id already inserted; it inserts that id's record. */
  lemma StepSpec(env: Env, e: DirEntry, chains: Catalog)
    ensures Step(env, e, chains).Ok? <==>
              Passes(env, e) && (ChainFileId(e).Some? ==> ChainFileId(e).value !in chains)
    ensures Step(env, e, chains).Ok? ==>
              Step(env, e, chains).value ==
                match ChainFileId(e)
                case Some(id) => chains[id := FromFile(env, id).value]
                case None => chains
  {
  }

  lemma {:induction false} AllPassCons(env: Env, entries: seq<DirEntry>)
    requires entries != []
    ensures AllPass(env, entries) <==> Passes(env, entries[0]) && AllPass(env, entries[1..])
  {
    if Passes(env, entries[0]) && AllPass(env, entries[1..]) {
      forall i | 0 <= i < |entries| ensures Passes(env, entries[i]) {
        if i > 0 { assert entries[i] == entries[1..][i - 1]; }
      }
    }
  }

  lemma {:induction false} DistinctIdsCons(entries: seq<DirEntry>)
    requires entries != []
    ensures DistinctIds(entries) <==>
              && DistinctIds(entries[1..])
              && (ChainFileId(entries[0]).Some? ==> ChainFileId(entries[0]).value !in FileIds(entries[1..]))
  {
    var e, rest := entries[0], entries[1..];
    if ChainFileId(e).Some? {
      FileIdsIndex(rest, ChainFileId(e).value);
    }
    if DistinctIds(entries) {
      forall i, j | 0 <= i < j < |rest| && ChainFileId(rest[i]).Some?
        ensures ChainFileId(rest[i]) != ChainFileId(rest[j])
      {
        assert rest[i] == entries[i + 1] && rest[j] == entries[j + 1];
      }
      if ChainFileId(e).Some? {
        forall j | 0 <= j < |rest| ensures ChainFileId(rest[j]) != ChainFileId(e) {
          assert rest[j] == entries[j + 1];
        }
      }
    }
    if DistinctIds(rest) && (ChainFileId(e).Some? ==> ChainFileId(e).value !in FileIds(rest)) {
      forall i, j | 0 <= i < j < |entries| && ChainFileId(entries[i]).Some?
        ensures ChainFileId(entries[i]) != ChainFileId(entries[j])
      {
        if i == 0 {
          assert entries[j] == rest[j - 1];
        } else {
          assert entries[i] == rest[i - 1] && entries[j] == rest[j - 1];
        }
      }
    }
  }

  /** The loop runs to the end exactly when every entry passes, ids are distinct, and none was already inserted. */
  lemma {:induction false} BuildFromSucceedsIff(env: Env, entries: seq<DirEntry>, chains: Catalog)
    ensures BuildFrom(env, entries, chains).Ok? <==>
              AllPass(env, entries) && DistinctIds(entries) && chains.Keys !! FileIds(entries)
    decreases |entries|
  {
    if entries != [] {
      var e, rest := entries[0], entries[1..];
      AllPassCons(env, entries);
      DistinctIdsCons(entries);
      StepSpec(env, e, chains);
      assert FileIds(entries) == (match ChainFileId(e) case Some(id) => {id} case None => {}) + FileIds(rest);
      if Step(env, e, chains).Ok? {
        BuildFromSucceedsIff(env, rest, Step(env, e, chains).value);
      }
    }
  }

  /** What a finished loop holds: the map it started from, plus each chain file's id mapped to that id's loaded record. */
  lemma {:induction false} BuildFromContents(env: Env, entries: seq<DirEntry>, chains: Catalog, catalog: Catalog)
    requires BuildFrom(env, entries, chains) == Ok(catalog)
    ensures catalog.Keys == chains.Keys + FileIds(entries)
    ensures forall id :: id in chains ==> catalog[id] == chains[id]
    ensures forall id :: id in catalog && id !in chains ==> FromFile(env, id) == Ok(catalog[id])
    decreases |entries|
  {
    if entries != [] {
      StepSpec(env, entries[0], chains);
      var next := Step(env, entries[0], chains).value;
      BuildFromContents(env, entries[1..], next, catalog);
    }
  }

  /**
    The build succeeds exactly when the directory can be listed, every entry passes
    and no two chain files give the same id.
   */
  lemma BuildSucceedsIff(env: Env, listing: Listing)
    ensures Build(env, listing).Ok? <==>
              listing.Listed? && AllPass(env, listing.entries) && DistinctIds(listing.entries)
  {
    if listing.Listed? {
      BuildFromSucceedsIff(env, listing.entries, map[]);
    }
  }

  /**
    A built catalog's keys are exactly the ids in the chain files' names, and each
    key maps to what `Chain::from_file` loads for it.
   */
  lemma CatalogContents(env: Env, entries: seq<DirEntry>, catalog: Catalog)
    requires Build(env, Listed(entries)) == Ok(catalog)
    ensures catalog.Keys == FileIds(entries)
    ensures forall id :: id in catalog ==> FromFile(env, id) == Ok(catalog[id])
  {
    BuildFromContents(env, entries, map[], catalog);
  }

  /** Two chain files whose names give the same id abort the build: insertion never overwrites. */
  lemma DuplicateIdAborts(env: Env, entries: seq<DirEntry>, i: nat, j: nat)
    requires i < j < |entries|
    requires ChainFileId(entries[i]).Some? && ChainFileId(entries[i]) == ChainFileId(entries[j])
    ensures Build(env, Listed(entries)).Err?
  {
    BuildSucceedsIff(env, Listed(entries));
  }

  /**
    An unreadable entry, an unknown file type or a non-Unicode name aborts the build,
    even on an entry that is not a regular file: those checks come before the type test.
   */
  lemma EntryFaultAborts(env: Env, entries: seq<DirEntry>, i: nat)
    requires i < |entries| && EntryFault(entries[i])
    ensures Build(env, Listed(entries)).Err?
  {
    BuildSucceedsIff(env, Listed(entries));
  }

  /** An entry the loop skips: a well-formed entry that is not a regular file. */
  predicate Skipped(e: DirEntry) {
    !EntryFault(e) && e.fileType.value != RegularFile
  }

  function WithoutSkipped(entries: seq<DirEntry>): seq<DirEntry>
    decreases |entries|
  {
    if entries == [] then []
    else if Skipped(entries[0]) then WithoutSkipped(entries[1..])
    else [entries[0]] + WithoutSkipped(entries[1..])
  }

  lemma {:induction false} BuildFromIgnoresSkipped(env: Env, entries: seq<DirEntry>, chains: Catalog)
    ensures BuildFrom(env, entries, chains) == BuildFrom(env, WithoutSkipped(entries), chains)
    decreases |entries|
  {
    if entries != [] {
      var kept := WithoutSkipped(entries);
      if !Skipped(entries[0]) {
        assert kept[0] == entries[0] && kept[1..] == WithoutSkipped(entries[1..]);
        match Step(env, entries[0], chains)
        case Err(_) =>
        case Ok(next) => BuildFromIgnoresSkipped(env, entries[1..], next);
      } else {
        BuildFromIgnoresSkipped(env, entries[1..], chains);
      }
    }
  }

  /** Directories, symbolic links and other non-regular entries leave the result unchanged. */
  lemma NonFilesAreSkipped(env: Env, entries: seq<DirEntry>)
    ensures Build(env, Listed(entries)) == Build(env, Listed(WithoutSkipped(entries)))
  {
    BuildFromIgnoresSkipped(env, entries, map[]);
  }

  /**
    On a built catalog `get` finds exactly the ids the chain files' names give,
    and what it returns is that id's loaded record.
   */
  lemma GetAfterBuild(env: Env, entries: seq<DirEntry>, catalog: Catalog, id: u64)
    requires Build(env, Listed(entries)) == Ok(catalog)
    ensures Get(catalog, id).Some? <==> exists i :: 0 <= i < |entries| && ChainFileId(entries[i]) == Some(id)
    ensures Get(catalog, id).Some? ==> FromFile(env, id) == Ok(Get(catalog, id).value)
  {
    CatalogContents(env, entries, catalog);
    FileIdsIndex(entries, id);
  }

  /**
    The key is the id in the file name; the record's own `chainId` is never compared
    with it. Whatever record the file `eip155-1.json` holds is stored under 1.
   */
  lemma ChainIdNotCrossChecked(c: Chain)
    ensures Build(
              Env((path: string) => Opened(""), (text: string) => Ok(EncodeChain(c))),
              Listed([Entry(Ok(RegularFile), Unicode("eip155-1.json"))]))
         == Ok(map[1 := c])
  {
    var env := Env((path: string) => Opened(""), (text: string) => Ok(EncodeChain(c)));
    var entries := [Entry(Ok(RegularFile), Unicode("eip155-1.json"))];
    assert Decimal(1) == "1";
    FileNameRoundTrip(1);
    assert FileName(1) == "eip155-1.json";
    DecodeEncode(c);
    assert FromFile(env, 1) == Ok(c);
    assert entries[1..] == [];
  }
}
