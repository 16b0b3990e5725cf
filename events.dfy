/**
 * Classification of collection NSIDs and routing of commits: creates go to
 * the create handler, deletes to the delete handler, anything else is
 * ignored.
 */
module Events {
  import opened Models
  import opened Records

  const POST_COLLECTION: string := "app.bsky.feed.post"
  const LIKE_COLLECTION: string := "app.bsky.feed.like"
  const REPOST_COLLECTION: string := "app.bsky.feed.repost"

  datatype EventRecord = FeedPost | FeedLike | FeedRepost

  /** `EventRecord::from_string`: an unknown collection falls back to a post. */
  function FromString(collection: string): (r: EventRecord)
    ensures r == FeedLike <==> collection == LIKE_COLLECTION
    ensures r == FeedRepost <==> collection == REPOST_COLLECTION
    ensures r == FeedPost <==> collection != LIKE_COLLECTION && collection != REPOST_COLLECTION
  {
    if collection == POST_COLLECTION then FeedPost
    else if collection == LIKE_COLLECTION then FeedLike
    else if collection == REPOST_COLLECTION then FeedRepost
    else FeedPost
  }

  /** The parts of a stream event the handlers read: the author's DID. */
  datatype EventInfo = EventInfo(did: UserId)

  datatype CreateCommit = CreateCommit(rkey: RecordKey, record: KnownRecord)

  datatype DeleteCommit = DeleteCommit(rkey: RecordKey, collection: string)

  datatype CommitEvent =
    | Create(info: EventInfo, create: CreateCommit)
    | Delete(info: EventInfo, delete: DeleteCommit)
    | Update(info: EventInfo)

  datatype Action = RunCreate | RunDelete | NoAction

  /** The match of `events_handler`. */
  function Route(commit: CommitEvent): (a: Action)
    ensures a == RunCreate <==> commit.Create?
    ensures a == RunDelete <==> commit.Delete?
    ensures a == NoAction <==> !commit.Create? && !commit.Delete?
  {
    match commit
    case Create(_, _) => RunCreate
    case Delete(_, _) => RunDelete
    case _ => NoAction
  }
}
