/**
  The chain record (`Chain` and the structs it holds) and how serde's derived
  `Deserialize`/`Serialize` map it to and from a parsed JSON document: keys in
  lower camel case, `infoURL` renamed explicitly, `icon`, `slip44` and `ens`
  optional, `explorers` defaulting to an empty list when absent.
 */
module Records {
  import opened Wrappers
  import opened DecimalU64

  const I64_LIMIT: int := 0x8000_0000_0000_0000

  type i64 = n: int | -I64_LIMIT <= n < I64_LIMIT

  datatype NativeCurrency = NativeCurrency(name: string, symbol: string, decimals: i64)

  /** `registry` is a `0x`-prefixed, checksummed address, kept as text. */
  datatype Ens = Ens(registry: string)

  datatype Explorer = Explorer(name: string, url: string, standard: string)

  datatype Chain = Chain(
    name: string,
    chain: string,
    network: string,
    icon: Option<string>,
    rpc: seq<string>,
    faucets: seq<string>,
    nativeCurrency: NativeCurrency,
    infoUrl: string,
    shortName: string,
    chainId: u64,
    networkId: u64,
    slip44: Option<u64>,
    ens: Option<Ens>,
    explorers: seq<Explorer>)

  /** A parsed JSON document; numbers are integers (floating point is not modelled). */
  datatype Json =
    | JNull
    | JBool(b: bool)
    | JNumber(n: int)
    | JString(s: string)
    | JArray(items: seq<Json>)
    | JObject(fields: map<string, Json>)

  /** Why a parsed document is not a chain record. */
  datatype DecodeError =
    | ExpectedObject(what: string)  // a struct was expected and something else was found
    | MissingField(field: string)   // a required key is absent
    | InvalidType(field: string)    // a key holds a value of the wrong shape or range

  /** The wire keys of `Chain`: `rename_all = "camelCase"`, except `info_url`, renamed to `infoURL`. */
  const NAME := "name"
  const CHAIN := "chain"
  const NETWORK := "network"
  const ICON := "icon"
  const RPC := "rpc"
  const FAUCETS := "faucets"
  const NATIVE_CURRENCY := "nativeCurrency"
  const INFO_URL := "infoURL"
  const SHORT_NAME := "shortName"
  const CHAIN_ID := "chainId"
  const NETWORK_ID := "networkId"
  const SLIP44 := "slip44"
  const ENS := "ens"
  const EXPLORERS := "explorers"

  /** The keys without which a `Chain` cannot be decoded. */
  const REQUIRED_KEYS: set<string> :=
    {NAME, CHAIN, NETWORK, RPC, FAUCETS, NATIVE_CURRENCY, INFO_URL, SHORT_NAME, CHAIN_ID, NETWORK_ID}

  /** Every key `Chain` reads; any other key is ignored. */
  const KNOWN_KEYS: set<string> := REQUIRED_KEYS + {ICON, SLIP44, ENS, EXPLORERS}

  // Values

  function StringValue(field: string, j: Json): (r: Result<string, DecodeError>)
    ensures r.Ok? ==> j == JString(r.value)
    ensures r.Err? ==> !j.JString?
  {
    if j.JString? then Ok(j.s) else Err(InvalidType(field))
  }

  function U64Value(field: string, j: Json): (r: Result<u64, DecodeError>)
    ensures r.Ok? ==> j == JNumber(r.value)
    ensures r.Err? ==> !(j.JNumber? && 0 <= j.n < U64_LIMIT)
  {
    if j.JNumber? && 0 <= j.n < U64_LIMIT then Ok(j.n) else Err(InvalidType(field))
  }

  function I64Value(field: string, j: Json): (r: Result<i64, DecodeError>)
    ensures r.Ok? ==> j == JNumber(r.value)
    ensures r.Err? ==> !(j.JNumber? && -I64_LIMIT <= j.n < I64_LIMIT)
  {
    if j.JNumber? && -I64_LIMIT <= j.n < I64_LIMIT then Ok(j.n) else Err(InvalidType(field))
  }

  /** `Vec<String>`: every item must be a string. */
  function StringItems(field: string, items: seq<Json>): (r: Result<seq<string>, DecodeError>)
    ensures r.Ok? ==> |r.value| == |items| && forall i :: 0 <= i < |items| ==> items[i] == JString(r.value[i])
    ensures r.Err? ==> exists i :: 0 <= i < |items| && !items[i].JString?
  {
    if items == [] then Ok([])
    else if !items[0].JString? then Err(InvalidType(field))
    else
      match StringItems(field, items[1..])
      case Err(e) => Err(e)
      case Ok(rest) => Ok([items[0].s] + rest)
  }

  function StringsValue(field: string, j: Json): Result<seq<string>, DecodeError> {
    if j.JArray? then StringItems(field, j.items) else Err(InvalidType(field))
  }

  // Fields of an object

  function RequiredString(m: map<string, Json>, key: string): (r: Result<string, DecodeError>)
    ensures key !in m ==> r == Err(MissingField(key))
    ensures r.Ok? ==> key in m && m[key] == JString(r.value)
  {
    if key in m then StringValue(key, m[key]) else Err(MissingField(key))
  }

  function RequiredU64(m: map<string, Json>, key: string): (r: Result<u64, DecodeError>)
    ensures key !in m ==> r == Err(MissingField(key))
    ensures r.Ok? ==> key in m && m[key] == JNumber(r.value)
  {
    if key in m then U64Value(key, m[key]) else Err(MissingField(key))
  }

  function RequiredI64(m: map<string, Json>, key: string): (r: Result<i64, DecodeError>)
    ensures key !in m ==> r == Err(MissingField(key))
    ensures r.Ok? ==> key in m && m[key] == JNumber(r.value)
  {
    if key in m then I64Value(key, m[key]) else Err(MissingField(key))
  }

  function RequiredStrings(m: map<string, Json>, key: string): (r: Result<seq<string>, DecodeError>)
    ensures key !in m ==> r == Err(MissingField(key))
  {
    if key in m then StringsValue(key, m[key]) else Err(MissingField(key))
  }

  /** `Option<T>`: an absent key and an explicit `null` both give `None`. */
  function OptionalString(m: map<string, Json>, key: string): (r: Result<Option<string>, DecodeError>)
    ensures key !in m ==> r == Ok(None)
  {
    if key !in m || m[key] == JNull then Ok(None)
    else
      match StringValue(key, m[key])
      case Ok(v) => Ok(Some(v))
      case Err(e) => Err(e)
  }

  function OptionalU64(m: map<string, Json>, key: string): (r: Result<Option<u64>, DecodeError>)
    ensures key !in m ==> r == Ok(None)
  {
    if key !in m || m[key] == JNull then Ok(None)
    else
      match U64Value(key, m[key])
      case Ok(v) => Ok(Some(v))
      case Err(e) => Err(e)
  }

  // Nested structs

  function DecodeNativeCurrency(j: Json): (r: Result<NativeCurrency, DecodeError>)
    ensures r.Ok? <==>
              && j.JObject? && {NAME, "symbol", "decimals"} <= j.fields.Keys
              && j.fields[NAME].JString? && j.fields["symbol"].JString?
              && j.fields["decimals"].JNumber? && -I64_LIMIT <= j.fields["decimals"].n < I64_LIMIT
    ensures r.Ok? ==>
              && j.fields[NAME] == JString(r.value.name)
              && j.fields["symbol"] == JString(r.value.symbol)
              && j.fields["decimals"] == JNumber(r.value.decimals)
  {
    if !j.JObject? then Err(ExpectedObject("NativeCurrency"))
    else
      var name :- RequiredString(j.fields, NAME);
      var symbol :- RequiredString(j.fields, "symbol");
      var decimals :- RequiredI64(j.fields, "decimals");
      Ok(NativeCurrency(name, symbol, decimals))
  }

  function DecodeEns(j: Json): (r: Result<Ens, DecodeError>)
    ensures r.Ok? <==> j.JObject? && "registry" in j.fields && j.fields["registry"].JString?
    ensures r.Ok? ==> j.fields["registry"] == JString(r.value.registry)
  {
    if !j.JObject? then Err(ExpectedObject("Ens"))
    else
      var registry :- RequiredString(j.fields, "registry");
      Ok(Ens(registry))
  }

  function OptionalEns(m: map<string, Json>, key: string): (r: Result<Option<Ens>, DecodeError>)
    ensures key !in m ==> r == Ok(None)
  {
    if key !in m || m[key] == JNull then Ok(None)
    else
      match DecodeEns(m[key])
      case Ok(v) => Ok(Some(v))
      case Err(e) => Err(e)
  }

  function DecodeExplorer(j: Json): (r: Result<Explorer, DecodeError>)
    ensures r.Ok? <==>
              && j.JObject? && {NAME, "url", "standard"} <= j.fields.Keys
              && j.fields[NAME].JString? && j.fields["url"].JString? && j.fields["standard"].JString?
    ensures r.Ok? ==>
              && j.fields[NAME] == JString(r.value.name)
              && j.fields["url"] == JString(r.value.url)
              && j.fields["standard"] == JString(r.value.standard)
  {
    if !j.JObject? then Err(ExpectedObject("Explorer"))
    else
      var name :- RequiredString(j.fields, NAME);
      var url :- RequiredString(j.fields, "url");
      var standard :- RequiredString(j.fields, "standard");
      Ok(Explorer(name, url, standard))
  }

  function ExplorerItems(items: seq<Json>): (r: Result<seq<Explorer>, DecodeError>)
    ensures r.Ok? ==> |r.value| == |items| && forall i :: 0 <= i < |items| ==> DecodeExplorer(items[i]) == Ok(r.value[i])
    ensures (forall i :: 0 <= i < |items| ==> DecodeExplorer(items[i]).Ok?) ==> r.Ok?
  {
    if items == [] then Ok([])
    else
      match DecodeExplorer(items[0])
      case Err(e) => Err(e)
      case Ok(first) =>
        match ExplorerItems(items[1..])
        case Err(e) => Err(e)
        case Ok(rest) => Ok([first] + rest)
  }

  /** `#[serde(default)] explorers`: an absent key gives the empty list; a present one must be an array. */
  function DefaultExplorers(m: map<string, Json>, key: string): (r: Result<seq<Explorer>, DecodeError>)
    ensures key !in m ==> r == Ok([])
  {
    if key !in m then Ok([])
    else if m[key].JArray? then ExplorerItems(m[key].items)
    else Err(InvalidType(key))
  }

  /** The derived `Deserialize for Chain`, applied to a parsed document. */
  function DecodeChain(j: Json): (r: Result<Chain, DecodeError>)
    ensures r.Ok? ==> j.JObject? && REQUIRED_KEYS <= j.fields.Keys
    ensures r.Ok? ==> j.fields[CHAIN_ID] == JNumber(r.value.chainId)
    ensures r.Ok? ==> j.fields[INFO_URL] == JString(r.value.infoUrl)
    ensures r.Ok? && EXPLORERS !in j.fields ==> r.value.explorers == []
    ensures r.Ok? && ICON !in j.fields ==> r.value.icon.None?
    ensures j.JObject? && CHAIN_ID !in j.fields ==> r.Err?
  {
    if !j.JObject? then Err(ExpectedObject("Chain"))
    else
      var m := j.fields;
      var name :- RequiredString(m, NAME);
      var chain :- RequiredString(m, CHAIN);
      var network :- RequiredString(m, NETWORK);
      var icon :- OptionalString(m, ICON);
      var rpc :- RequiredStrings(m, RPC);
      var faucets :- RequiredStrings(m, FAUCETS);
      var nativeCurrency :-
        if NATIVE_CURRENCY in m then DecodeNativeCurrency(m[NATIVE_CURRENCY]) else Err(MissingField(NATIVE_CURRENCY));
      var infoUrl :- RequiredString(m, INFO_URL);
      var shortName :- RequiredString(m, SHORT_NAME);
      var chainId :- RequiredU64(m, CHAIN_ID);
      var networkId :- RequiredU64(m, NETWORK_ID);
      var slip44 :- OptionalU64(m, SLIP44);
      var ens :- OptionalEns(m, ENS);
      var explorers :- DefaultExplorers(m, EXPLORERS);
      Ok(Chain(name, chain, network, icon, rpc, faucets, nativeCurrency, infoUrl, shortName,
               chainId, networkId, slip44, ens, explorers))
  }

  // Encoding: the derived `Serialize`, the inverse direction

  function EncodeOption(o: Option<string>): Json {
    match o
    case None => JNull
    case Some(v) => JString(v)
  }

  function EncodeStrings(xs: seq<string>): (items: seq<Json>)
    ensures |items| == |xs|
  {
    seq(|xs|, i requires 0 <= i < |xs| => JString(xs[i]))
  }

  function EncodeExplorer(e: Explorer): Json {
    JObject(map[NAME := JString(e.name), "url" := JString(e.url), "standard" := JString(e.standard)])
  }

  function EncodeExplorers(xs: seq<Explorer>): (items: seq<Json>)
    ensures |items| == |xs|
  {
    seq(|xs|, i requires 0 <= i < |xs| => EncodeExplorer(xs[i]))
  }

  /** The object the derived `Serialize` writes; `None` is written as `null`. */
  function ChainFields(c: Chain): map<string, Json> {
    map[
      NAME := JString(c.name),
      CHAIN := JString(c.chain),
      NETWORK := JString(c.network),
      ICON := EncodeOption(c.icon),
      RPC := JArray(EncodeStrings(c.rpc)),
      FAUCETS := JArray(EncodeStrings(c.faucets)),
      NATIVE_CURRENCY := JObject(map[
        NAME := JString(c.nativeCurrency.name),
        "symbol" := JString(c.nativeCurrency.symbol),
        "decimals" := JNumber(c.nativeCurrency.decimals)]),
      INFO_URL := JString(c.infoUrl),
      SHORT_NAME := JString(c.shortName),
      CHAIN_ID := JNumber(c.chainId),
      NETWORK_ID := JNumber(c.networkId),
      SLIP44 := match c.slip44 case None => JNull case Some(v) => JNumber(v),
      ENS := match c.ens case None => JNull case Some(e) => JObject(map["registry" := JString(e.registry)]),
      EXPLORERS := JArray(EncodeExplorers(c.explorers))
    ]
  }

  function EncodeChain(c: Chain): Json {
    JObject(ChainFields(c))
  }

  lemma {:induction false} StringsRoundTrip(field: string, xs: seq<string>)
    ensures StringItems(field, EncodeStrings(xs)) == Ok(xs)
  {
    if xs != [] {
      assert EncodeStrings(xs)[1..] == EncodeStrings(xs[1..]);
      StringsRoundTrip(field, xs[1..]);
      assert [xs[0]] + xs[1..] == xs;
    }
  }

  lemma {:induction false} ExplorersRoundTrip(xs: seq<Explorer>)
    ensures ExplorerItems(EncodeExplorers(xs)) == Ok(xs)
  {
    if xs != [] {
      assert EncodeExplorers(xs)[1..] == EncodeExplorers(xs[1..]);
      ExplorersRoundTrip(xs[1..]);
      assert [xs[0]] + xs[1..] == xs;
    }
  }

  /** Each field of `m` decodes to the corresponding field of `c`. */
  predicate FieldsDecodeTo(m: map<string, Json>, c: Chain) {
    && RequiredString(m, NAME) == Ok(c.name)
    && RequiredString(m, CHAIN) == Ok(c.chain)
    && RequiredString(m, NETWORK) == Ok(c.network)
    && OptionalString(m, ICON) == Ok(c.icon)
    && RequiredStrings(m, RPC) == Ok(c.rpc)
    && RequiredStrings(m, FAUCETS) == Ok(c.faucets)
    && NATIVE_CURRENCY in m && DecodeNativeCurrency(m[NATIVE_CURRENCY]) == Ok(c.nativeCurrency)
    && RequiredString(m, INFO_URL) == Ok(c.infoUrl)
    && RequiredString(m, SHORT_NAME) == Ok(c.shortName)
    && RequiredU64(m, CHAIN_ID) == Ok(c.chainId)
    && RequiredU64(m, NETWORK_ID) == Ok(c.networkId)
    && OptionalU64(m, SLIP44) == Ok(c.slip44)
    && OptionalEns(m, ENS) == Ok(c.ens)
    && DefaultExplorers(m, EXPLORERS) == Ok(c.explorers)
  }

  lemma DecodeFromFields(m: map<string, Json>, c: Chain)
    requires FieldsDecodeTo(m, c)
    ensures DecodeChain(JObject(m)) == Ok(c)
  {
  }

  /** Conversely, a document decodes to a record only if each of its fields decodes to that record's field. */
  lemma DecodeChainOnlyIf(m: map<string, Json>, c: Chain)
    requires DecodeChain(JObject(m)) == Ok(c)
    ensures FieldsDecodeTo(m, c)
  {
  }

  /** The optional fields and `explorers`, each possibly left out of the document. */
  function Dropping(c: Chain, dropped: set<string>): Chain {
    c.(icon := if ICON in dropped then None else c.icon,
       slip44 := if SLIP44 in dropped then None else c.slip44,
       ens := if ENS in dropped then None else c.ens,
       explorers := if EXPLORERS in dropped then [] else c.explorers)
  }

  lemma WrittenTextFields(c: Chain, m: map<string, Json>, dropped: set<string>)
    requires m == ChainFields(c) - dropped
    ensures NAME !in dropped ==> RequiredString(m, NAME) == Ok(c.name)
    ensures CHAIN !in dropped ==> RequiredString(m, CHAIN) == Ok(c.chain)
    ensures NETWORK !in dropped ==> RequiredString(m, NETWORK) == Ok(c.network)
    ensures INFO_URL !in dropped ==> RequiredString(m, INFO_URL) == Ok(c.infoUrl)
    ensures SHORT_NAME !in dropped ==> RequiredString(m, SHORT_NAME) == Ok(c.shortName)
    ensures NATIVE_CURRENCY !in dropped ==>
              NATIVE_CURRENCY in m && DecodeNativeCurrency(m[NATIVE_CURRENCY]) == Ok(c.nativeCurrency)
  {
  }

  lemma WrittenListFields(c: Chain, m: map<string, Json>, dropped: set<string>)
    requires m == ChainFields(c) - dropped
    ensures RPC !in dropped ==> RequiredStrings(m, RPC) == Ok(c.rpc)
    ensures FAUCETS !in dropped ==> RequiredStrings(m, FAUCETS) == Ok(c.faucets)
    ensures DefaultExplorers(m, EXPLORERS) == Ok(Dropping(c, dropped).explorers)
  {
    StringsRoundTrip(RPC, c.rpc);
    StringsRoundTrip(FAUCETS, c.faucets);
    ExplorersRoundTrip(c.explorers);
  }

  lemma WrittenNumberAndOptionalFields(c: Chain, m: map<string, Json>, dropped: set<string>)
    requires m == ChainFields(c) - dropped
    ensures CHAIN_ID !in dropped ==> RequiredU64(m, CHAIN_ID) == Ok(c.chainId)
    ensures NETWORK_ID !in dropped ==> RequiredU64(m, NETWORK_ID) == Ok(c.networkId)
    ensures OptionalString(m, ICON) == Ok(Dropping(c, dropped).icon)
    ensures OptionalU64(m, SLIP44) == Ok(Dropping(c, dropped).slip44)
    ensures OptionalEns(m, ENS) == Ok(Dropping(c, dropped).ens)
  {
  }

  /**
    A document in which every field of `c` is written as `Serialize` writes it, except
    that some of the optional fields and `explorers` may be left out, decodes to `c`
    with the left-out optional fields `None` and, if left out, no explorers.
   */
  lemma DecodeWrittenFields(c: Chain, dropped: set<string>)
    requires dropped <= {ICON, SLIP44, ENS, EXPLORERS}
    ensures DecodeChain(JObject(ChainFields(c) - dropped)) == Ok(Dropping(c, dropped))
  {
    var m := ChainFields(c) - dropped;
    assert NAME !in dropped && CHAIN !in dropped && NETWORK !in dropped && INFO_URL !in dropped;
    assert SHORT_NAME !in dropped && NATIVE_CURRENCY !in dropped && RPC !in dropped && FAUCETS !in dropped;
    assert CHAIN_ID !in dropped && NETWORK_ID !in dropped;
    WrittenTextFields(c, m, dropped);
    WrittenListFields(c, m, dropped);
    WrittenNumberAndOptionalFields(c, m, dropped);
    DecodeFromFields(m, Dropping(c, dropped));
  }

  /** `Serialize` then `Deserialize` gives the record back. */
  lemma DecodeEncode(c: Chain)
    ensures DecodeChain(EncodeChain(c)) == Ok(c)
  {
    DecodeWrittenFields(c, {});
    assert ChainFields(c) - {} == ChainFields(c);
  }

  /** A document without `explorers` decodes, with an empty explorer list. */
  lemma MissingExplorersDefaultToEmpty(c: Chain)
    ensures DecodeChain(JObject(ChainFields(c) - {EXPLORERS})) == Ok(c.(explorers := []))
  {
    DecodeWrittenFields(c, {EXPLORERS});
  }

  /** A document without `icon`, `slip44` and `ens` decodes, with all three `None`. */
  lemma MissingOptionalsDecodeAsNone(c: Chain)
    ensures DecodeChain(JObject(ChainFields(c) - {ICON, SLIP44, ENS}))
         == Ok(c.(icon := None, slip44 := None, ens := None))
  {
    DecodeWrittenFields(c, {ICON, SLIP44, ENS});
  }

  /** Leaving any one required key out of an otherwise complete document makes decoding fail, naming that key. */
  lemma MissingRequiredKeyFails(c: Chain, key: string)
    requires key in REQUIRED_KEYS
    ensures DecodeChain(JObject(ChainFields(c) - {key})) == Err(MissingField(key))
  {
    var m := ChainFields(c) - {key};
    WrittenTextFields(c, m, {key});
    WrittenListFields(c, m, {key});
    WrittenNumberAndOptionalFields(c, m, {key});
  }

  /** In particular a document without `chainId` is rejected. */
  lemma MissingChainIdFails(c: Chain)
    ensures DecodeChain(JObject(ChainFields(c) - {CHAIN_ID})) == Err(MissingField(CHAIN_ID))
  {
    MissingRequiredKeyFails(c, CHAIN_ID);
  }

  /** The wire key of `info_url` is `infoURL`: the default camel-case key `infoUrl` does not stand in for it. */
  lemma InfoUrlKeyIsRenamed(c: Chain)
    ensures DecodeChain(JObject((ChainFields(c) - {INFO_URL})["infoUrl" := JString(c.infoUrl)]))
         == Err(MissingField(INFO_URL))
  {
    IgnoresUnknownKeys(ChainFields(c) - {INFO_URL}, "infoUrl", JString(c.infoUrl));
    MissingRequiredKeyFails(c, INFO_URL);
  }

  /** Keys that `Chain` does not declare are ignored. */
  lemma IgnoresUnknownKeys(m: map<string, Json>, key: string, v: Json)
    requires key !in KNOWN_KEYS
    ensures DecodeChain(JObject(m[key := v])) == DecodeChain(JObject(m))
  {
    var m' := m[key := v];
    forall k | k in KNOWN_KEYS ensures (k in m' <==> k in m) && (k in m ==> m'[k] == m[k]) {
      assert k != key;
    }
    assert RequiredString(m', NAME) == RequiredString(m, NAME);
    assert RequiredString(m', CHAIN) == RequiredString(m, CHAIN);
    assert RequiredString(m', NETWORK) == RequiredString(m, NETWORK);
    assert OptionalString(m', ICON) == OptionalString(m, ICON);
    assert RequiredStrings(m', RPC) == RequiredStrings(m, RPC);
    assert RequiredStrings(m', FAUCETS) == RequiredStrings(m, FAUCETS);
    assert (NATIVE_CURRENCY in m') == (NATIVE_CURRENCY in m);
    assert NATIVE_CURRENCY in m ==> m'[NATIVE_CURRENCY] == m[NATIVE_CURRENCY];
    assert RequiredString(m', INFO_URL) == RequiredString(m, INFO_URL);
    assert RequiredString(m', SHORT_NAME) == RequiredString(m, SHORT_NAME);
    assert RequiredU64(m', CHAIN_ID) == RequiredU64(m, CHAIN_ID);
    assert RequiredU64(m', NETWORK_ID) == RequiredU64(m, NETWORK_ID);
    assert OptionalU64(m', SLIP44) == OptionalU64(m, SLIP44);
    assert OptionalEns(m', ENS) == OptionalEns(m, ENS);
    assert DefaultExplorers(m', EXPLORERS) == DefaultExplorers(m, EXPLORERS);
  }
}
