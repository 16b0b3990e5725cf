/** The post handler: fills its fields from a post record and awards XP from them. */
module CreatePost {
  import opened Int32
  import opened Wrappers
  import opened Records
  import opened RecordFields

  /** The XP of a post as a mathematical integer: byte length, +100 with an image, +50 with alt text. */
  function PostExp(s: HandlerState): int
  {
    s.length + (if s.hasImage then 100 else 0) + (if s.imageHasAltText then 50 else 0)
  }

  class CreatePostEvent {
    var text: seq<byte>
    var length: u32
    var hasImage: bool
    var imageHasAltText: bool

    function State(): HandlerState
      reads this
    {
      HandlerState(text, length, hasImage, imageHasAltText)
    }

    /** `CreatePostEvent::new`: empty text, length 0, both flags false. */
    constructor ()
      ensures State() == INITIAL
    {
      text := [];
      length := 0;
      hasImage := false;
      imageHasAltText := false;
    }

    /** Fills the fields from a post record; any other record changes nothing. */
    method Handle(record: KnownRecord)
      modifies this
      ensures State() == Handled(old(State()), record)
    {
      if !record.Post? {
        return;
      }
      text := record.text;
      length := |record.text| % U32_LIMIT;
      if record.embed.Some? && record.embed.value.Images? {
        hasImage := true;
        var missing := FindEmptyAlt(record.embed.value.images);
        imageHasAltText := missing.None?;
      }
    }

    /**
     * `calculate_exp`: the accumulator starts at `length as i32` and adds
     * 100 and 50 with `i32` wrap-around; the result is the post's XP wrapped
     * once, and exactly the post's XP when that fits in an `i32`.
     */
    function CalculateExp(): (r: i32)
      reads this
      ensures r == Wrap(PostExp(State()))
      ensures PostExp(State()) <= I32_MAX ==> r == PostExp(State()) >= length
    {
      var exp := Wrap(length);
      var exp := if hasImage then Wrap(exp + 100) else exp;
      var exp := if imageHasAltText then Wrap(exp + 50) else exp;
      WrapAddLeft(length, if hasImage then 100 else 0);
      WrapAddLeft(length + (if hasImage then 100 else 0), if imageHasAltText then 50 else 0);
      exp
    }
  }

  /** A 42-byte post with one image that has alt text is worth 42 + 100 + 50. */
  method PostExample(text: seq<byte>, alt: seq<byte>) returns (xp: i32)
    requires |text| == 42 && alt != []
    ensures xp == 192
  {
    var handler := new CreatePostEvent();
    handler.Handle(Post(text, Some(Images([Image(alt)]))));
    xp := handler.CalculateExp();
  }
}
