/**
  The file-naming convention of the chains data directory: one file per chain,
  named `eip155-<chain id>.json`, under a fixed relative directory.
 */
module ChainFiles {
  import opened Wrappers
  import opened DecimalU64

  const DATA_DIR: string := "ethereum-list/chains/_data/chains/"
  const PREFIX: string := "eip155-"
  const SUFFIX: string := ".json"

  /** Why a directory entry's name yields no chain id. */
  datatype NameError =
    | MissingAffixes                  // the name lacks the `eip155-` prefix or the `.json` suffix
    | BadChainId(kind: IntErrorKind)  // the text between them is not a `u64`

  /** The file name `Chain::from_file` asks for: `eip155-{}.json` with the id's `{}` rendering. */
  function FileName(id: u64): string {
    PREFIX + Decimal(id) + SUFFIX
  }

  /** The path `Chain::from_file` opens. */
  function ChainPath(id: u64): (path: string)
    ensures DATA_DIR <= path && path[|DATA_DIR|..] == FileName(id)
  {
    DATA_DIR + PREFIX + Decimal(id) + SUFFIX
  }

  /** The name carries the prefix and, after it, the suffix. */
  predicate HasAffixes(name: string) {
    |name| >= |PREFIX| + |SUFFIX| && PREFIX <= name && name[|name| - |SUFFIX|..] == SUFFIX
  }

  /** `strip_prefix("eip155-")` followed by `strip_suffix(".json")`. */
  function StripAffixes(name: string): (r: Option<string>)
    ensures r.Some? <==> HasAffixes(name)
    ensures r.Some? ==> name == PREFIX + r.value + SUFFIX
  {
    if PREFIX <= name then
      var rest := name[|PREFIX|..];
      if |rest| >= |SUFFIX| && rest[|rest| - |SUFFIX|..] == SUFFIX then
        var middle := rest[..|rest| - |SUFFIX|];
        assert name == PREFIX + middle + SUFFIX;
        Some(middle)
      else
        assert !HasAffixes(name) by {
          if |name| >= |PREFIX| + |SUFFIX| {
            assert rest[|rest| - |SUFFIX|..] == name[|name| - |SUFFIX|..];
          }
        }
        None
    else None
  }

  /** The build loop's id extraction: strip the affixes, then `parse::<u64>` what is left. */
  function ChainIdFromName(name: string): Result<u64, NameError> {
    match StripAffixes(name)
    case None => Err(MissingAffixes)
    case Some(middle) =>
      match ParseU64(middle)
      case Ok(id) => Ok(id)
      case Err(kind) => Err(BadChainId(kind))
  }

  /** The text between prefix and suffix of a name that has both. */
  function Middle(name: string): string
    requires HasAffixes(name)
  {
    name[|PREFIX|..|name| - |SUFFIX|]
  }

  /**
    A name yields an id exactly when it has the prefix and the suffix and the text
    between them is an optional `+` followed by decimal digits whose value is below 2^64;
    the id is that value.
   */
  lemma ChainIdFromNameSpec(name: string)
    ensures ChainIdFromName(name).Ok? <==> HasAffixes(name) && AcceptedU64(Middle(name))
    ensures ChainIdFromName(name).Ok? ==>
              ChainIdFromName(name).value == Accumulate(0, UnsignedDigits(Middle(name)))
    ensures !HasAffixes(name) ==> ChainIdFromName(name) == Err(MissingAffixes)
  {
    if HasAffixes(name) {
      var middle := StripAffixes(name).value;
      assert middle == Middle(name) by {
        assert name == PREFIX + middle + SUFFIX;
        assert name[|PREFIX|..|name| - |SUFFIX|] == middle;
      }
      ParseU64Spec(middle);
    }
  }

  /** Every id's file name extracts back to that id. */
  lemma FileNameRoundTrip(id: u64)
    ensures ChainIdFromName(FileName(id)) == Ok(id)
  {
    var name := FileName(id);
    assert StripAffixes(name) == Some(Decimal(id)) by {
      assert name == PREFIX + Decimal(id) + SUFFIX;
      var middle := StripAffixes(name).value;
      assert PREFIX + middle + SUFFIX == PREFIX + Decimal(id) + SUFFIX;
      assert middle == (PREFIX + middle + SUFFIX)[|PREFIX|..|name| - |SUFFIX|];
      assert Decimal(id) == (PREFIX + Decimal(id) + SUFFIX)[|PREFIX|..|name| - |SUFFIX|];
    }
    ParseDecimal(id);
  }

  /**
    When a name yields id n, `Chain::from_file(n)` opens that same name exactly when
    the digits are written canonically (no `+`, no leading zero); otherwise it opens
    the canonical name of n, a different file.
   */
  lemma {:induction false} OpensOwnFileIffCanonical(name: string, n: u64)
    requires ChainIdFromName(name) == Ok(n)
    ensures HasAffixes(name)
    ensures FileName(n) == name <==> Canonical(Middle(name))
  {
    ChainIdFromNameSpec(name);
    var middle := Middle(name);
    assert name == PREFIX + middle + SUFFIX by {
      assert StripAffixes(name).Some?;
      ChainIdFromNameSpec(name);
    }
    if FileName(n) == name {
      assert middle == Decimal(n) by {
        assert PREFIX + middle + SUFFIX == PREFIX + Decimal(n) + SUFFIX;
        assert middle == (PREFIX + middle + SUFFIX)[|PREFIX|..|name| - |SUFFIX|];
        assert Decimal(n) == (PREFIX + Decimal(n) + SUFFIX)[|PREFIX|..|name| - |SUFFIX|];
      }
    }
    if Canonical(middle) {
      assert UnsignedDigits(middle) == middle;
      DecimalOfCanonical(middle);
    }
  }

  /** A leading zero is accepted: `eip155-01.json` is indexed under 1, yet the file read for it is `eip155-1.json`. */
  lemma LeadingZeroNameReadsOtherFile()
    ensures ChainIdFromName("eip155-01.json") == Ok(1)
    ensures FileName(1) == "eip155-1.json" != "eip155-01.json"
  {
    var name := "eip155-01.json";
    ChainIdFromNameSpec(name);
    assert Middle(name) == "01";
    assert Accumulate(0, "01") == 1 by {
      assert "01"[1..] == "1";
      assert "1"[1..] == [];
    }
    assert Decimal(1) == "1";
  }
}
