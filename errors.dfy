/**
  The crate's error type (module `error` of src/lib.rs): a kind and an optional
  underlying cause. The boxed `std::error::Error` cause is kept only as the
  text it displays.
 */
module Errors {
  import opened Wrappers

  /** What went wrong: the JSON could not be deserialized, or the file could not be read. */
  datatype Kind = Json | File

  /** `Error { inner: Box<Inner { kind, source }> }`, with the box flattened. */
  datatype Error = Error(kind: Kind, source: Option<string>)

  const JSON_TEXT: string := "Deserializing json"
  const FILE_TEXT: string := "Reading file"
  const SEPARATOR: string := ": "

  /** `impl Display for Kind`. */
  function KindText(kind: Kind): (text: string)
    ensures |text| > 0
    ensures text == JSON_TEXT <==> kind == Json
    ensures text == FILE_TEXT <==> kind == File
  {
    match kind
    case Json => JSON_TEXT
    case File => FILE_TEXT
  }

  /** `impl Display for Inner`, which `Error` displays through `#[error("{inner}")]`. */
  function Display(e: Error): (text: string)
    ensures KindText(e.kind) <= text
    ensures e.source.None? <==> text == KindText(e.kind)
    ensures e.source.Some? ==> text[|KindText(e.kind)|..] == SEPARATOR + e.source.value
  {
    match e.source
    case Some(source) => KindText(e.kind) + SEPARATOR + source
    case None => KindText(e.kind)
  }

  /** `Error::new`: keeps the kind and the cause as given. */
  function NewError(kind: Kind, source: Option<string>): (e: Error)
    ensures e.kind == kind && e.source == source
  {
    Error(kind, source)
  }

  /** `open_file`: an I/O failure becomes a `File` error carrying its cause. */
  function OpenFile(ioError: string): (e: Error)
    ensures e.kind == File && e.source == Some(ioError)
    ensures Display(e) == FILE_TEXT + SEPARATOR + ioError
  {
    NewError(File, Some(ioError))
  }

  /** `deserialize`: a serde_json failure becomes a `Json` error carrying its cause. */
  function Deserialize(jsonError: string): (e: Error)
    ensures e.kind == Json && e.source == Some(jsonError)
    ensures Display(e) == JSON_TEXT + SEPARATOR + jsonError
  {
    NewError(Json, Some(jsonError))
  }

  /** Neither kind text is a prefix of the other, so a displayed text starts with exactly one of them. */
  lemma KindTextsUnrelated()
    ensures !(JSON_TEXT <= FILE_TEXT) && !(FILE_TEXT <= JSON_TEXT)
  {
    assert JSON_TEXT[0] != FILE_TEXT[0];
  }

  /** The displayed text determines the error: kind and cause can be read back from it. */
  lemma {:induction false} DisplayInjective(a: Error, b: Error)
    requires Display(a) == Display(b)
    ensures a == b
  {
    KindTextsUnrelated();
    assert a.kind == b.kind by {
      var ta, tb := KindText(a.kind), KindText(b.kind);
      assert ta <= Display(a) && tb <= Display(a);
      assert ta <= tb || tb <= ta;
    }
    if a.source.Some? && b.source.Some? {
      var sa, sb := a.source.value, b.source.value;
      assert sa == (SEPARATOR + sa)[|SEPARATOR|..];
      assert sb == (SEPARATOR + sb)[|SEPARATOR|..];
    }
  }
}
