# evm-chains catalog, modelled in Dafny

This project models the core of the `evm-chains` Rust crate, a read-only catalog
of EVM-compatible blockchain networks. The crate's data directory
`ethereum-list/chains/_data/chains/` holds one JSON file per chain, named
`eip155-<chain id>.json`. On first use the crate builds the process-wide map
`CHAINS` from chain id to `Chain` record, and `Chain::get` looks ids up in it.
`Chain::from_file` reads one chain's file by id.

Modules (one per concern of `src/lib.rs`):

- `Errors` (errors.dfy) models the `error` module. An error has two kinds,
  `Json` and `File`, and an optional cause. Its display text is
  `"<kind text>: <cause>"`, or just the kind text when there is no cause.
- `DecimalU64` (decimal_u64.dfy) models how `u64` values are read from and
  written into file names. It covers Rust's `str::parse::<u64>` (an optional
  leading `+`, the digit check before the overflow check, and the `Empty`,
  `InvalidDigit` and `PosOverflow` errors) and the `{}` rendering.
- `ChainFiles` (chain_files.dfy) models the naming convention. It strips the
  `eip155-` prefix and the `.json` suffix, parses the id, and builds the path
  `from_file` opens.
- `Records` (records.dfy) models the `Chain`, `NativeCurrency`, `Ens` and
  `Explorer` records. It also models how the derived serde code maps them to
  and from a parsed JSON document.
- `Catalog` (catalog.dfy) models the `CHAINS` initializer, `Chain::from_file`
  and `Chain::get`.
  - The directory listing is an input.
  - Opening a path and parsing JSON text are parameters (`Env`).
  - Every `expect`/`panic!` becomes an `Abort` result.
  - The initializer is the method `BuildCatalog`, which loops over the entries
    and updates a map in place. It is proved equal to the recursive
    specification `Build`, and the lemmas state the build's properties about
    `Build`.

The build loop does not decode the directory entry it is visiting. It extracts
the id from the entry's name and then calls `Chain::from_file(id)`, which
reopens `eip155-{id}.json` by path. Rust's `parse::<u64>` accepts a leading `+`
and leading zeros, so an entry named `eip155-01.json` is indexed under 1, but
its record is read from `eip155-1.json`. The model keeps this behaviour.
`OpensOwnFileIffCanonical` proves that the file read is the entry itself
exactly when the entry's digits are canonical.

A record's own `chainId` is never compared with the id in its file name: the
key is always the file-name id. `ChainIdNotCrossChecked` shows a build that
stores a record under 1 whatever its `chainId` is.

## Model

| member | source | states |
|---|---|---|
| `Errors.KindText` | src/lib.rs:153-160 | `Json` displays as "Deserializing json" and `File` as "Reading file", and each text belongs to exactly one kind |
| `Errors.Display` | src/lib.rs:144-151 | the text starts with the kind text; it is exactly the kind text iff there is no cause; otherwise the kind text is followed by ": " and the cause |
| `Errors.NewError` | src/lib.rs:161-170 | `Error::new` keeps the given kind and cause |
| `Errors.OpenFile` | src/lib.rs:178-180 | an I/O failure always becomes kind `File` with a cause present, displayed as "Reading file: <cause>" |
| `Errors.Deserialize` | src/lib.rs:182-184 | a serde_json failure always becomes kind `Json` with a cause present, displayed as "Deserializing json: <cause>" |
| `Errors.KindTextsUnrelated` | src/lib.rs:155-158 | neither kind text is a prefix of the other |
| `Errors.DisplayInjective` | src/lib.rs:144-160 | two errors with the same display text are equal, so kind and cause can be read back from the text |
| `DecimalU64.ScanDigitsValue` | src/lib.rs:42 | the digit loop of `parse::<u64>` succeeds exactly on all-digit text whose value is below 2^64, and returns that value; on all-digit text it can only fail with `PosOverflow` |
| `DecimalU64.ParseU64Spec` | src/lib.rs:42 | `parse::<u64>` accepts exactly an optional `+` followed by one or more digits whose value fits in 64 bits, and returns that value; it reports `Empty` exactly for empty text |
| `DecimalU64.Decimal` | src/lib.rs:89 | the `{}` rendering of an id is a non-empty digit string with no leading zero unless the id is 0 |
| `DecimalU64.ParseDecimal` | src/lib.rs:42 | parsing the `{}` rendering of any `u64` returns that number |
| `DecimalU64.DecimalOfCanonical` | src/lib.rs:42 | every digit string without a leading zero is the rendering of its own value |
| `ChainFiles.ChainPath` | src/lib.rs:89 | the path `from_file` opens is the data directory followed by `eip155-<id>.json` |
| `ChainFiles.StripAffixes` | src/lib.rs:38-41 | stripping succeeds exactly when the name has the `eip155-` prefix and the `.json` suffix, and the name is then prefix + result + suffix |
| `ChainFiles.ChainIdFromNameSpec` | src/lib.rs:38-43 | a name yields an id iff it has both affixes and the text between them is accepted by `parse::<u64>`; the id is that text's value; without the affixes the error is `MissingAffixes` |
| `ChainFiles.FileNameRoundTrip` | src/lib.rs:38-43 | for every `u64` n, the name `eip155-{n}.json` that `from_file` (line 89) asks for extracts back to exactly n |
| `ChainFiles.OpensOwnFileIffCanonical` | src/lib.rs:38-45 | when a name yields id n, `from_file(n)` opens that same name iff the digits are canonical (no `+`, no leading zero) |
| `ChainFiles.LeadingZeroNameReadsOtherFile` | src/lib.rs:38-45 | `eip155-01.json` is indexed under 1, while the file read for 1 is `eip155-1.json` |
| `Records.StringItems` | src/lib.rs:72-74 | a `Vec<String>` decodes iff every item is a string, and keeps the items in order |
| `Records.ExplorerItems` | src/lib.rs:84 | an explorer list decodes iff every item decodes; the result keeps the items in order, each the decoding of its item |
| `Records.DecodeNativeCurrency` | src/lib.rs:102-108 | a native currency decodes iff the value is an object whose `name` and `symbol` are strings and whose `decimals` is an integer in the `i64` range; each decoded field is the value under its key |
| `Records.DecodeEns` | src/lib.rs:110-115 | an ENS descriptor decodes iff the value is an object whose `registry` is a string, and the decoded registry is that string |
| `Records.DecodeExplorer` | src/lib.rs:117-123 | an explorer decodes iff the value is an object whose `name`, `url` and `standard` are strings; each decoded field is the value under its key |
| `Records.DecodeChain` | src/lib.rs:60-85 | a chain decodes only from an object holding every required key; `chainId` and `infoURL` come from those keys; without `explorers` the list is empty; without `icon` the icon is `None`; without `chainId` decoding fails |
| `Records.StringsRoundTrip` | src/lib.rs:72-74 | a list of strings written as JSON decodes back to itself |
| `Records.ExplorersRoundTrip` | src/lib.rs:84 | a list of explorers written as JSON decodes back to itself |
| `Records.DecodeChainOnlyIf` | src/lib.rs:60-85 | a document decodes to a record only if each of its fields decodes to that record's field; with `DecodeFromFields` this is an iff |
| `Records.DecodeFromFields` | src/lib.rs:60-85 | a document whose fields each decode to the fields of a record decodes to that record |
| `Records.WrittenTextFields` | src/lib.rs:64-78 | each text field and the native currency that `Serialize` writes, if not left out, decodes back to the record's value |
| `Records.WrittenListFields` | src/lib.rs:72-84 | written `rpc`, `faucets` and `explorers` decode back; left-out `explorers` decode as empty |
| `Records.WrittenNumberAndOptionalFields` | src/lib.rs:70-82 | written `chainId` and `networkId` decode back; each optional field decodes back, or as `None` when left out |
| `Records.DecodeWrittenFields` | src/lib.rs:60-85 | a serialized record from which any of `icon`, `slip44`, `ens`, `explorers` are left out decodes to the record with those as `None` or empty |
| `Records.DecodeEncode` | src/lib.rs:60-61 | the derived `Serialize` followed by the derived `Deserialize` gives back every record |
| `Records.MissingExplorersDefaultToEmpty` | src/lib.rs:83-84 | a document without `explorers` decodes with an empty explorer list |
| `Records.MissingOptionalsDecodeAsNone` | src/lib.rs:70-82 | a document without `icon`, `slip44` and `ens` decodes with all three `None` |
| `Records.MissingRequiredKeyFails` | src/lib.rs:60-85 | leaving any one required key out of an otherwise complete document fails with `MissingField` naming that key |
| `Records.MissingChainIdFails` | src/lib.rs:79 | a document without `chainId` fails with `MissingField("chainId")` |
| `Records.InfoUrlKeyIsRenamed` | src/lib.rs:76-77 | the info URL is read only from `infoURL`: a document that gives it under `infoUrl` fails, naming `infoURL` |
| `Records.IgnoresUnknownKeys` | src/lib.rs:60-61 | adding a key that `Chain` does not declare does not change the decoding result |
| `Catalog.FromFile` | src/lib.rs:88-95 | the result is a `File` error exactly when `File::open` of the id's canonical path fails; a read failure after a successful open, a syntax failure and a decode failure are `Json` errors; every error carries a cause; it succeeds exactly when the path opens and reads, its text parses and the document decodes, and then it returns that record |
| `Catalog.BuildCatalog` | src/lib.rs:14-58 | the initializer's loop over the entries, inserting into a mutable map, returns exactly what the recursive specification `Build` gives |
| `Catalog.Get` | src/lib.rs:97-99 | `get` returns a record exactly when the id is a key, and that record is the stored one; otherwise `None`, never an error |
| `Catalog.StepSpec` | src/lib.rs:21-54 | one iteration succeeds iff its entry is readable, has a type and a Unicode name, and, for a regular file, its name gives an id whose file loads and that is not yet a key; it inserts exactly that id's record and leaves the map unchanged for a non-file |
| `Catalog.FileIdsIndex` | src/lib.rs:38-43 | an id is among the ids from file names iff some regular-file entry's name gives it |
| `Catalog.AllPassCons` | src/lib.rs:20-55 | every entry passes iff the first one does and every later one does |
| `Catalog.DistinctIdsCons` | src/lib.rs:51-54 | the file ids are pairwise distinct iff the later ones are and the first one is not among them |
| `Catalog.BuildFromSucceedsIff` | src/lib.rs:20-55 | from any partial map, the loop finishes iff every remaining entry passes, their ids are distinct, and none is already a key |
| `Catalog.BuildFromContents` | src/lib.rs:20-57 | a finished loop keeps the entries it started with and adds exactly the ids from file names, each mapped to that id's loaded record |
| `Catalog.BuildSucceedsIff` | src/lib.rs:14-58 | the build succeeds iff the directory can be listed, every entry passes and no two regular files give the same id |
| `Catalog.CatalogContents` | src/lib.rs:38-57 | a built catalog's key set is exactly the set of ids from regular-file names, and each key maps to what `from_file` loads for it |
| `Catalog.DuplicateIdAborts` | src/lib.rs:51-54 | two regular files whose names give the same id abort the build; insertion never silently overwrites |
| `Catalog.EntryFaultAborts` | src/lib.rs:20-36 | an unreadable entry, an unknown file type or a non-Unicode name aborts the build, even for a directory, because these checks run before the file-type test |
| `Catalog.BuildFromIgnoresSkipped` | src/lib.rs:33-36 | from any partial map, removing the skipped non-file entries does not change the loop's result |
| `Catalog.NonFilesAreSkipped` | src/lib.rs:33-36 | directories, symbolic links and other non-regular entries leave the build's result unchanged |
| `Catalog.GetAfterBuild` | src/lib.rs:97-99 | on a built catalog, `get(id)` finds a record iff some regular file's name gives id, and returns what `from_file(id)` loads |
| `Catalog.ChainIdNotCrossChecked` | src/lib.rs:38-52 | whatever record the file `eip155-1.json` holds, including its own `chainId`, is stored under key 1 |

## Left out

- Filesystem I/O is not modelled. This covers `read_dir`, `DirEntry::file_type`, `File::open` and `BufReader`. The listing is an input, and opening and reading a path is the `Env.open` parameter, which tells a failed open from a failed read.
- The `once_cell::sync::Lazy` one-time, thread-safe initialization is concurrency, so it is left out. The build is a function called once. `Get` works on the catalog it returns. A `Lazy` poisoned by a panic in the build is not modelled.
- serde_json's text parser is a foreign library, so it is the `Env.parse` parameter. The field mapping is modelled on a parsed-document datatype.
- Documents are modelled with integer numbers only. Floating-point numbers are left out.
- Document objects are maps. serde's error for a repeated key is not modelled, and neither is its reading of a struct from a JSON array.
- DecodeChain: when several fields are wrong, it reports the first one in declaration order. serde reports type errors in document order and missing fields after them. Only which of several errors is named differs.
- serde_json's exact error wording and its line/column suffix are left out. `DecodeErrorText` gives a plain rendering of the failing field.
- An error's boxed cause (`Box<dyn Error>`) is kept only as the text it displays. The `thiserror` derive and the `Debug`, `Clone`, `PartialEq` and `Serialize` attributes other than the field mapping are left out.
- The panic messages of the initializer's `expect`/`panic!` calls are left out. Each `Abort` carries the data those messages show.
- Rust parses the id text byte by byte, while the model works on characters. A non-ASCII character is rejected as `InvalidDigit` at the same position either way.
- The crate's unit tests are left out. They read data files that are not part of this model.
