/**
 * The delete path: an unknown record key gets a zero placeholder event;
 * a known one recomputes the character from the counter minus what the
 * collection's branch subtracts, always against a new total of 0.
 */
module Delete {
  import opened Int32
  import opened Wrappers
  import opened Leveling
  import opened Models
  import opened Events
  import opened Repositories

  /** The first argument each branch passes to `calculate_experience`. */
  function DeletionBase(kind: EventRecord, counter: int, experienceLost: i32): (r: i32)
    ensures kind == FeedPost ==>
      var difference := Wrap(Wrap(counter) - experienceLost);
      r >= 0 && (r == 0 <==> difference == 0) && (difference >= 0 ==> r == difference)
    ensures kind == FeedLike && I32_MIN + 15 <= counter <= I32_MAX ==> r == counter - 15
    ensures kind == FeedRepost && I32_MIN + 5 <= counter <= I32_MAX ==> r == counter - 5
  {
    match kind
    case FeedPost =>
      var currentExperience := Wrap(Wrap(counter) - experienceLost);
      if currentExperience < 0 then 1 else currentExperience
    case FeedRepost => Wrap(Wrap(counter) - 5)
    case FeedLike => Wrap(Wrap(counter) - 15)
  }

  /**
   * The post branch floors at 1 only a strictly negative difference: the
   * result is never negative, is 0 exactly when the difference is 0, and
   * keeps any non-negative difference.
   */
  lemma PostFloor(counter: int, experienceLost: i32)
    ensures var difference := Wrap(Wrap(counter) - experienceLost);
      var r := DeletionBase(FeedPost, counter, experienceLost);
      && r >= 0
      && (r == 0 <==> difference == 0)
      && (difference >= 0 ==> r == difference)
      && (difference < 0 ==> r == 1)
  {
  }

  /** With counter and difference in the `i32` range, the post branch is `counter - lost` floored at 1 when negative. */
  lemma PostFloorInRange(counter: int, experienceLost: i32)
    requires I32_MIN <= counter <= I32_MAX && I32_MIN <= counter - experienceLost <= I32_MAX
    ensures DeletionBase(FeedPost, counter, experienceLost)
         == if counter - experienceLost < 0 then 1 else counter - experienceLost
  {
  }

  /**
   * The like and repost branches subtract 15 and 5 from any counter in the
   * `i32` range, whatever the event's XP, and apply no floor: an empty
   * counter goes negative.
   */
  lemma LikeAndRepostHaveNoFloor(counter: int, experienceLost: i32)
    requires I32_MIN + 15 <= counter <= I32_MAX
    ensures DeletionBase(FeedLike, counter, experienceLost) == counter - 15
    ensures DeletionBase(FeedRepost, counter, experienceLost) == counter - 5
    ensures DeletionBase(FeedLike, 0, experienceLost) < 0 && DeletionBase(FeedRepost, 0, experienceLost) < 0
  {
  }

  /** What every branch persists: the response for a new total of 0. */
  const RESET_RESPONSE: LevelResponse := LevelResponse(1, 0, 150, 0, Progress(-50, 100))

  /**
   * Because every branch passes 0 as the new total, the persisted response
   * does not depend on the collection, the counter or the event's XP.
   */
  lemma DeletedResponseIsReset(kind: EventRecord, counter: int, experienceLost: i32)
    ensures CalculateExperience(DeletionBase(kind, counter, experienceLost), 0) == RESET_RESPONSE
  {
  }

  /** The character the delete path updates: the stored one, or a default row for the user. */
  function CharacterOrDefault(characters: map<UserId, Character>, user: UserId): Character
  {
    if user in characters then characters[user] else Character(user, "", 0, 0, 0)
  }

  /**
   * `persist_character_changes`: adds `increment` to the counter (this
   * revision passes a response where an amount is expected, so the amount
   * is left open) and overwrites the character from the response.
   */
  method PersistCharacterChanges(
    repo: Repository, character: Character, characterExperience: CharacterExperience,
    response: LevelResponse, increment: int)
    requires repo.Valid()
    modifies repo
    ensures repo.Valid()
    ensures repo.counters == old(repo.counters)[characterExperience.userId :=
                                                old(repo.CounterOf(characterExperience.userId)) + increment]
    ensures repo.characters == old(repo.characters)[character.userId := Leveled(character, response)]
    ensures repo.events == old(repo.events)
  {
    repo.IncrementCharacterExperience(characterExperience, increment);
    var _ := repo.UpdateCharacter(character, response);
  }

  /** `delete_event_handler`. */
  method DeleteEventHandler(repo: Repository, info: EventInfo, commit: DeleteCommit, increment: int)
    requires repo.Valid()
    modifies repo
    ensures repo.Valid()
    ensures commit.rkey !in old(repo.events) ==>
      && repo.events == old(repo.events)[commit.rkey := Event(info.did, 0, DEFAULT_RESPONSE)]
      && repo.characters == old(repo.characters)
      && repo.counters == old(repo.counters)
    ensures commit.rkey in old(repo.events) ==>
      && repo.events == old(repo.events)
      && repo.counters == old(repo.counters)[info.did := old(repo.CounterOf(info.did)) + increment]
      && repo.characters == old(repo.characters)[info.did :=
           Leveled(CharacterOrDefault(old(repo.characters), info.did),
                   CalculateExperience(DeletionBase(FromString(commit.collection),
                                                    old(repo.CounterOf(info.did)),
                                                    old(repo.events)[commit.rkey].xp), 0))]
  {
    var character := repo.FindCharacter(info.did);
    var characterExperience := repo.FindCharacterExperience(info.did);
    var event := repo.FindEvent(commit.rkey);

    if event.None? {
      repo.InsertEvent(commit.rkey, Event(info.did, 0, DEFAULT_RESPONSE));
      return;
    }

    var counter := if characterExperience.Some? then characterExperience.value.currentExperience else 0;
    var experienceLost := event.value.xp;
    var currentExperience := Wrap(Wrap(counter) - experienceLost);
    currentExperience := if currentExperience < 0 then 1 else currentExperience;

    var response: LevelResponse;
    match FromString(commit.collection) {
      case FeedPost =>
        response := CalculateExperience(currentExperience, 0);
      case FeedRepost =>
        var lostExperience := 5;
        response := CalculateExperience(Wrap(Wrap(counter) - lostExperience), 0);
      case FeedLike =>
        var lostExperience := 15;
        response := CalculateExperience(Wrap(Wrap(counter) - lostExperience), 0);
    }

    var updating := if character.Some? then character.value else Character(info.did, "", 0, 0, 0);
    PersistCharacterChanges(repo, updating, CharacterExperience(info.did, counter), response, increment);
  }
}
