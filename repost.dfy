/** The repost handler: fills the same fields as the post handler, but awards a flat 10 XP. */
module Repost {
  import opened Int32
  import opened Wrappers
  import opened Records
  import opened RecordFields

  class RepostEvent {
    var text: seq<byte>
    var length: u32
    var hasImage: bool
    var imageHasAltText: bool

    function State(): HandlerState
      reads this
    {
      HandlerState(text, length, hasImage, imageHasAltText)
    }

    /** `RepostEvent::new`: empty text, length 0, both flags false. */
    constructor ()
      ensures State() == INITIAL
    {
      text := [];
      length := 0;
      hasImage := false;
      imageHasAltText := false;
    }

    /** Fills the fields from a post record; any other record changes nothing. */
    method Handle(record: KnownRecord)
      modifies this
      ensures State() == Handled(old(State()), record)
    {
      if !record.Post? {
        return;
      }
      text := record.text;
      length := |record.text| % U32_LIMIT;
      if record.embed.Some? && record.embed.value.Images? {
        hasImage := true;
        var missing := FindEmptyAlt(record.embed.value.images);
        imageHasAltText := missing.None?;
      }
    }

    /** `calculate_exp`: 10 XP whatever the fields hold. */
    function CalculateExp(): (r: i32)
      ensures r == 10
    {
      10
    }
  }
}
