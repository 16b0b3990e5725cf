/**
 * The commit records the handlers read: a post (its text as UTF-8 bytes and
 * an optional embed), a like, a repost, or any other record kind.
 */
module Records {
  import opened Int32
  import opened Wrappers

  datatype Image = Image(alt: seq<byte>)

  datatype Embed =
    | Images(images: seq<Image>)
    | OtherEmbed

  datatype KnownRecord =
    | Post(text: seq<byte>, embed: Option<Embed>)
    | Like
    | Repost
    | OtherRecord

  predicate HasImagesEmbed(record: KnownRecord)
  {
    record.Post? && record.embed.Some? && record.embed.value.Images?
  }
}
