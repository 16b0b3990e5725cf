/** `events_handler`: runs the handler the commit's kind routes to. */
module Dispatch {
  import opened Models
  import opened Events
  import opened Repositories
  import Leveling
  import Create
  import Delete

  /**
   * Creates run the create handler (with `bootstrap` as the character built
   * from the author's profile), deletes run the delete handler (with
   * `increment` as the counter write), and any other commit changes nothing.
   */
  method EventsHandler(repo: Repository, commit: CommitEvent, bootstrap: Character, increment: int)
    requires repo.Valid()
    requires commit.Create? ==> bootstrap.userId == commit.info.did
    modifies repo
    ensures repo.Valid()
    ensures Route(commit) == NoAction ==> unchanged(repo)
    ensures Route(commit) == RunCreate && Create.SelectEventHandler(commit.create.record).Err? ==> unchanged(repo)
    ensures Route(commit) == RunCreate && Create.SelectEventHandler(commit.create.record).Ok? ==>
      && repo.events.Keys == old(repo.events.Keys) + {commit.create.rkey}
      && repo.events[commit.create.rkey].userId == commit.info.did
      && commit.info.did in repo.characters && commit.info.did in repo.counters
    ensures Route(commit) == RunCreate && Create.SelectEventHandler(commit.create.record).Ok? ==>
      exists response :: Create.CreateStep(
        old(repo.characters), old(repo.counters), old(repo.events),
        repo.characters, repo.counters, repo.events,
        Create.NewEvent(commit.info.did, commit.create.rkey, commit.create.record),
        Create.Award(Create.SelectEventHandler(commit.create.record).value, commit.create.record),
        bootstrap, response)
    ensures Route(commit) == RunDelete ==>
      && repo.events.Keys == old(repo.events.Keys) + {commit.delete.rkey}
      && (commit.delete.rkey in old(repo.events) ==> repo.events == old(repo.events))
    ensures Route(commit) == RunDelete && commit.delete.rkey !in old(repo.events) ==>
      && repo.events == old(repo.events)[commit.delete.rkey := Event(commit.info.did, 0, Leveling.DEFAULT_RESPONSE)]
      && repo.characters == old(repo.characters)
      && repo.counters == old(repo.counters)
    ensures Route(commit) == RunDelete && commit.delete.rkey in old(repo.events) ==>
      && repo.counters == old(repo.counters)[commit.info.did := old(repo.CounterOf(commit.info.did)) + increment]
      && repo.characters == old(repo.characters)[commit.info.did :=
           Leveled(Delete.CharacterOrDefault(old(repo.characters), commit.info.did),
                   Leveling.CalculateExperience(
                     Delete.DeletionBase(FromString(commit.delete.collection),
                                         old(repo.CounterOf(commit.info.did)),
                                         old(repo.events)[commit.delete.rkey].xp), 0))]
  {
    match Route(commit) {
      case RunCreate =>
        var payload := Create.NewEvent(commit.info.did, commit.create.rkey, commit.create.record);
        var result := Create.CreateEventHandler(repo, payload, bootstrap);
      case RunDelete =>
        Delete.DeleteEventHandler(repo, commit.info, commit.delete, increment);
      case NoAction =>
    }
  }
}
