/**
 * An in-memory store standing in for the database: the characters table, the
 * experience-counter table and the event ledger, with the overwrite and
 * increment semantics of the character and event repositories.
 */
module Repositories {
  import opened Int32
  import opened Wrappers
  import opened Leveling
  import opened Models

  /**
   * The character after `update_character`: level, current experience and
   * experience to the next level come from the response, nothing else moves.
   */
  function Leveled(c: Character, response: LevelResponse): (r: Character)
    ensures r.level == response.level && r.currentExperience == response.experience
    ensures r.experienceToNextLevel == response.experienceToNextLevel
    ensures r.(level := c.level, currentExperience := c.currentExperience,
               experienceToNextLevel := c.experienceToNextLevel) == c
  {
    c.(level := response.level,
       currentExperience := response.experience,
       experienceToNextLevel := response.experienceToNextLevel)
  }

  class Repository {
    var characters: map<UserId, Character>
    var counters: map<UserId, int>
    var events: map<RecordKey, Event>

    /** Every character row is stored under its own user id. */
    ghost predicate Valid()
      reads this
    {
      forall u :: u in characters ==> characters[u].userId == u
    }

    constructor ()
      ensures Valid()
      ensures characters == map[] && counters == map[] && events == map[]
    {
      characters, counters, events := map[], map[], map[];
    }

    /** A counter that was never incremented reads as 0. */
    function CounterOf(user: UserId): int
      reads this
    {
      if user in counters then counters[user] else 0
    }

    method FindCharacter(user: UserId) returns (c: Option<Character>)
      requires Valid()
      ensures c.None? <==> user !in characters
      ensures c.Some? ==> c.value == characters[user] && c.value.userId == user
    {
      c := if user in characters then Some(characters[user]) else None;
    }

    method FindCharacterExperience(user: UserId) returns (ce: Option<CharacterExperience>)
      ensures ce.None? <==> user !in counters
      ensures ce.Some? ==> ce.value == CharacterExperience(user, counters[user])
    {
      ce := if user in counters then Some(CharacterExperience(user, counters[user])) else None;
    }

    method FindEvent(rkey: RecordKey) returns (e: Option<Event>)
      ensures e.None? <==> rkey !in events
      ensures e.Some? ==> e.value == events[rkey]
    {
      e := if rkey in events then Some(events[rkey]) else None;
    }

    /** `increment_character_experience`: adds to the counter, creating it at 0 first. */
    method IncrementCharacterExperience(ce: CharacterExperience, amount: int)
      modifies this
      ensures counters == old(counters)[ce.userId := old(CounterOf(ce.userId)) + amount]
      ensures characters == old(characters) && events == old(events)
    {
      counters := counters[ce.userId := CounterOf(ce.userId) + amount];
    }

    /** `update_character`: overwrites three fields and writes the whole row. */
    method UpdateCharacter(c: Character, response: LevelResponse) returns (updated: Character)
      requires Valid()
      modifies this
      ensures Valid()
      ensures updated == Leveled(c, response)
      ensures characters == old(characters)[c.userId := updated]
      ensures counters == old(counters) && events == old(events)
    {
      updated := Leveled(c, response);
      characters := characters[c.userId := updated];
    }

    /** `insert_event`: writes the ledger row under its record key. */
    method InsertEvent(rkey: RecordKey, e: Event)
      modifies this
      ensures events == old(events)[rkey := e]
      ensures characters == old(characters) && counters == old(counters)
    {
      events := events[rkey := e];
    }
  }
}
