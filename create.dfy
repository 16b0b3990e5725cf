/**
 * The create path: select the handler for the record kind, let it compute
 * the XP, then seed the counter if needed, compute the new level, overwrite
 * the character, record the event and increment the counter.
 */
module Create {
  import opened Int32
  import opened Wrappers
  import opened Leveling
  import opened Models
  import opened Records
  import opened RecordFields
  import opened CreatePost
  import opened LikePost
  import opened Repost
  import opened Repositories

  datatype HandlerKind = PostHandler | LikeHandler | RepostHandler

  datatype CreateError = UnknownEventType

  /** `select_event_handler`: any record that is not a post, like or repost is an error. */
  function SelectEventHandler(record: KnownRecord): (r: Result<HandlerKind, CreateError>)
    ensures r == Ok(PostHandler) <==> record.Post?
    ensures r == Ok(LikeHandler) <==> record.Like?
    ensures r == Ok(RepostHandler) <==> record.Repost?
    ensures r.Err? <==> record.OtherRecord?
  {
    match record
    case Post(_, _) => Ok(PostHandler)
    case Like => Ok(LikeHandler)
    case Repost => Ok(RepostHandler)
    case OtherRecord => Err(UnknownEventType)
  }

  /** The XP a freshly selected handler of `kind` awards once it has handled `record`. */
  function Award(kind: HandlerKind, record: KnownRecord): i32
  {
    match kind
    case PostHandler => Wrap(PostExp(Handled(INITIAL, record)))
    case _ => 10
  }

  /** What a create commit carries into the handler. */
  datatype NewEvent = NewEvent(userId: UserId, eventId: RecordKey, record: KnownRecord)

  /** The stored character, or the one bootstrapped from the user's profile. */
  function StartingCharacter(characters: map<UserId, Character>, user: UserId, bootstrap: Character): Character
  {
    if user in characters then characters[user] else bootstrap
  }

  /** The stored counter, or the seed: an empty counter incremented by the character's experience. */
  function StartingCounter(counters: map<UserId, int>, user: UserId, character: Character): int
  {
    if user in counters then counters[user] else character.currentExperience
  }

  /**
   * The store before and after handling `payload` with `gained` XP, and the
   * response returned: computed from the clamped counter and the saturating
   * new total, written to the character and the event, and the counter
   * grown by exactly `gained`.
   */
  ghost predicate CreateStep(
    characters: map<UserId, Character>, counters: map<UserId, int>, events: map<RecordKey, Event>,
    characters': map<UserId, Character>, counters': map<UserId, int>, events': map<RecordKey, Event>,
    payload: NewEvent, gained: i32, bootstrap: Character, response: LevelResponse)
  {
    var user := payload.userId;
    var character := StartingCharacter(characters, user, bootstrap);
    var start := StartingCounter(counters, user, character);
    var current := CharacterExperience(user, start).GetExperience();
    && response == CalculateExperience(current, SaturatingAdd(current, gained))
    && characters' == characters[user := Leveled(character, response)]
    && counters' == counters[user := start + gained]
    && events' == events[payload.eventId := Event(user, gained, response)]
  }

  /** The body of `CreateEventHandler::handle`, given the XP the handler computed. */
  method HandleCreate(repo: Repository, payload: NewEvent, gained: i32, bootstrap: Character)
    returns (response: LevelResponse)
    requires repo.Valid() && bootstrap.userId == payload.userId
    modifies repo
    ensures repo.Valid()
    ensures CreateStep(old(repo.characters), old(repo.counters), old(repo.events),
                       repo.characters, repo.counters, repo.events,
                       payload, gained, bootstrap, response)
  {
    var found := repo.FindCharacter(payload.userId);
    var character := if found.Some? then found.value else bootstrap;

    var stored := repo.FindCharacterExperience(payload.userId);
    var characterExperience: CharacterExperience;
    if stored.Some? {
      characterExperience := stored.value;
    } else {
      repo.IncrementCharacterExperience(CharacterExperience(payload.userId, 0), character.currentExperience);
      characterExperience := CharacterExperience(payload.userId, character.currentExperience);
    }

    var currentExperience := characterExperience.GetExperience();
    var newExperience := SaturatingAdd(currentExperience, gained);
    response := CalculateExperience(currentExperience, newExperience);

    var _ := repo.UpdateCharacter(character, response);
    repo.InsertEvent(payload.eventId, Event(payload.userId, gained, response));
    repo.IncrementCharacterExperience(characterExperience, gained);
  }

  /**
   * `create_event_handler` run to completion: select the handler, let it
   * handle the record and compute its XP, then persist. An unknown record
   * kind fails before anything is written.
   */
  method CreateEventHandler(repo: Repository, payload: NewEvent, bootstrap: Character)
    returns (r: Result<LevelResponse, CreateError>)
    requires repo.Valid() && bootstrap.userId == payload.userId
    modifies repo
    ensures repo.Valid()
    ensures r.Err? <==> SelectEventHandler(payload.record).Err?
    ensures r.Err? ==> unchanged(repo)
    ensures r.Ok? ==>
      CreateStep(old(repo.characters), old(repo.counters), old(repo.events),
                 repo.characters, repo.counters, repo.events,
                 payload, Award(SelectEventHandler(payload.record).value, payload.record),
                 bootstrap, r.value)
  {
    var selected := SelectEventHandler(payload.record);
    if selected.Err? {
      return Err(selected.error);
    }
    var gained: i32;
    match selected.value {
      case PostHandler =>
        var handler := new CreatePostEvent();
        handler.Handle(payload.record);
        gained := handler.CalculateExp();
      case LikeHandler =>
        var handler := new LikePostEvent();
        handler.Handle(payload.record);
        gained := handler.CalculateExp();
      case RepostHandler =>
        var handler := new RepostEvent();
        handler.Handle(payload.record);
        gained := handler.CalculateExp();
    }
    var response := HandleCreate(repo, payload, gained, bootstrap);
    r := Ok(response);
  }

  /** A post's award is at least its byte length, and images add exactly 100 plus 50 with alt text. */
  lemma PostAwardBounds(record: KnownRecord)
    requires record.Post? && |record.text| <= I32_MAX - 150
    ensures Award(PostHandler, record) >= |record.text|
    ensures Award(PostHandler, record) == |record.text| +
      (if HasImagesEmbed(record) then 100 + (if AllHaveAlt(record.embed.value.images) then 50 else 0) else 0)
  {
  }

  /**
   * When the counter and the new total stay within `0 ..= i32::MAX`, the
   * character's stored experience equals the counter after the create.
   */
  lemma CreateKeepsCharacterAndCounterInStep(
    characters: map<UserId, Character>, counters: map<UserId, int>, events: map<RecordKey, Event>,
    characters': map<UserId, Character>, counters': map<UserId, int>, events': map<RecordKey, Event>,
    payload: NewEvent, gained: i32, bootstrap: Character, response: LevelResponse)
    requires CreateStep(characters, counters, events, characters', counters', events',
                        payload, gained, bootstrap, response)
    requires var start := StartingCounter(counters, payload.userId,
                                          StartingCharacter(characters, payload.userId, bootstrap));
             0 <= start <= I32_MAX && 0 <= start + gained <= I32_MAX
    ensures characters'[payload.userId].currentExperience == counters'[payload.userId]
  {
  }
}
