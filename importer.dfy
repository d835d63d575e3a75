/**
 * Importer::execute: picks the handler for the setting's file type. The
 * parsers are parameters (functions from the bytes to a document or a parser
 * status), as is the face-normal computation the face loops use.
 */
module Importer {
  import opened Wrappers
  import opened Vectors
  import opened Integers
  import opened ImporterTypes
  import opened ImporterDirectX
  import opened ImporterMetasequoia

  /** The Wavefront OBJ handler does nothing and reports failure without an error. */
  function WavefrontObjOutcome(): (r: Outcome)
    ensures !r.ok && r.error.None? && r.output == EmptyOutput
  {
    Outcome(false, None, EmptyOutput)
  }

  /** The outcome for a file type no handler takes. */
  function UnsupportedOutcome(): (r: Outcome)
    ensures !r.ok && r.output == EmptyOutput
    ensures r.error == Some(Error(NotSupportedFileType, None, DomainApplication))
  {
    Outcome(false, Some(Error(NotSupportedFileType, None, DomainApplication)), EmptyOutput)
  }

  /**
   * The import of `bytes` as `fileType`: the DirectX and Metasequoia handlers
   * run on what their parser makes of the bytes; a Wavefront OBJ import
   * fails without an error; no type or an unknown one is "Not supported file
   * type". Success is never reported with an error.
   */
  method Execute(
    bytes: seq<uint8>, fileType: FileType,
    parseDirectX: seq<uint8> -> ParseResult<DxDocument>,
    parseMetasequoia: seq<uint8> -> ParseResult<MqoDocument>,
    tn: (Vec3, Vec3, Vec3) -> Option<Vec3>)
    returns (r: Outcome)
    requires fileType.FileTypeDirectX? && parseDirectX(bytes).Parsed? ==> DxReadable(parseDirectX(bytes).document)
    requires fileType.FileTypeMetasequoia? && parseMetasequoia(bytes).Parsed? ==>
      MqoReadable(parseMetasequoia(bytes).document)
    ensures r.ok ==> r.error.None?
    ensures (fileType.FileTypeNone? || fileType.FileTypeOther?) ==> r == UnsupportedOutcome()
    ensures fileType.FileTypeWaveFrontObj? ==> r == WavefrontObjOutcome()
    ensures fileType.FileTypeDirectX? ==> DirectXOutcome(parseDirectX(bytes), tn, r)
    ensures fileType.FileTypeMetasequoia? ==> MetasequoiaOutcome(parseMetasequoia(bytes), tn, r)
  {
    match fileType {
      case FileTypeWaveFrontObj =>
        r := WavefrontObjOutcome();
      case FileTypeDirectX =>
        r := HandleDirectX(parseDirectX(bytes), tn);
      case FileTypeMetasequoia =>
        r := HandleMetasequoia(parseMetasequoia(bytes), tn);
      case FileTypeNone =>
        r := UnsupportedOutcome();
      case FileTypeOther(_) =>
        r := UnsupportedOutcome();
    }
  }
}
