/**
 * The stored rows: a character, its experience counter and an event of the
 * ledger, shaped after the table structs of the source.
 */
module Models {
  import opened Int32
  import opened Leveling

  /** A user's DID, the partition key of every table. */
  type UserId = string
  /** The record key of a commit, the id of a ledger event. */
  type RecordKey = string

  datatype Character = Character(
    userId: UserId,
    name: string,
    currentExperience: i32,
    experienceToNextLevel: i32,
    level: i32)

  /** A ledger event: whose it is, the XP it awarded and the response persisted with it. */
  datatype Event = Event(userId: UserId, xp: i32, leveling: LevelResponse)

  /** A row of the experience-counter table; the counter is unbounded here. */
  datatype CharacterExperience = CharacterExperience(userId: UserId, currentExperience: int)
  {
    /**
     * The counter as a non-negative `i32`: truncated by `as i32`, then
     * clamped to 0 when negative.
     */
    function GetExperience(): (r: i32)
      ensures r >= 0
      ensures I32_MIN <= currentExperience <= I32_MAX ==> r == Max(0, currentExperience)
      ensures r == 0 || r == Wrap(currentExperience)
      ensures Wrap(currentExperience) >= 0 ==> r == Wrap(currentExperience)
    {
      var exp := Wrap(currentExperience);
      if exp < 0 then 0 else exp
    }
  }
}
