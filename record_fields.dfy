/**
 * The four fields each create handler fills from a post record, and the
 * specification of filling them.
 */
module RecordFields {
  import opened Int32
  import opened Wrappers
  import opened Records

  datatype HandlerState = HandlerState(
    text: seq<byte>,
    length: u32,
    hasImage: bool,
    imageHasAltText: bool)

  /** The fields of a freshly constructed handler. */
  const INITIAL: HandlerState := HandlerState([], 0, false, false)

  /** Every image carries non-empty alt text (vacuously so for no images). */
  predicate AllHaveAlt(images: seq<Image>)
  {
    forall i :: 0 <= i < |images| ==> images[i].alt != []
  }

  /** The fields after handling `record`, starting from `s`. */
  function Handled(s: HandlerState, record: KnownRecord): (r: HandlerState)
    ensures !record.Post? ==> r == s
    ensures record.Post? ==> r.text == record.text && r.length == |record.text| % U32_LIMIT
    ensures HasImagesEmbed(record) ==>
      r.hasImage && (r.imageHasAltText <==> AllHaveAlt(record.embed.value.images))
    ensures !HasImagesEmbed(record) ==>
      r.hasImage == s.hasImage && r.imageHasAltText == s.imageHasAltText
  {
    match record
    case Post(text, embed) =>
      var withText := s.(text := text, length := |text| % U32_LIMIT);
      if embed.Some? && embed.value.Images? then
        withText.(hasImage := true, imageHasAltText := AllHaveAlt(embed.value.images))
      else
        withText
    case _ => s
  }

  /** Handling the same record a second time changes nothing more. */
  lemma HandledIdempotent(s: HandlerState, record: KnownRecord)
    ensures Handled(Handled(s, record), record) == Handled(s, record)
  {
  }

  /** A post's text length is its byte count whenever that fits in a `u32`. */
  lemma HandledLengthIsByteCount(s: HandlerState, record: KnownRecord)
    requires record.Post? && |record.text| < U32_LIMIT
    ensures Handled(s, record).length == |record.text|
  {
  }

  /** The search over the images for one without alt text: the index of the first such image, if any. */
  method FindEmptyAlt(images: seq<Image>) returns (found: Option<nat>)
    ensures found.None? <==> AllHaveAlt(images)
    ensures found.Some? ==>
              found.value < |images| && images[found.value].alt == [] && AllHaveAlt(images[..found.value])
  {
    var i := 0;
    while i < |images|
      invariant 0 <= i <= |images|
      invariant AllHaveAlt(images[..i])
    {
      if images[i].alt == [] {
        return Some(i);
      }
      i := i + 1;
    }
    assert images[..i] == images;
    return None;
  }
}
