# Experience and levels of the Bluesky Jetstream RPG

A Dafny model of the progression core of `bluesky-jetstream-rpg`: every
watched Bluesky user has a character whose experience grows with the posts,
likes and reposts they create and is recomputed when they delete one.

- `Int32` (`int32.dfy`): the `i32` range, the wrap-around of `as i32` and of
  release-build `i32` arithmetic (`Wrap`), and `saturating_add`/`saturating_sub`.
- `Leveling` (`leveling.dfy`): the thresholds `XpForLevel` (base 50, step 100),
  their inverse `GetLevelFromXp`, and `CalculateExperience`, which builds the
  `LevelResponse` persisted after every event (level capped at 1000, XP to the
  next level, levels gained). The `f32` progress is kept as its integer
  numerator and denominator.
- `Models` (`models.dfy`): the character, the ledger event and the
  experience-counter rows, with `CharacterExperience.GetExperience`, the
  counter truncated to `i32` and clamped at 0.
- `Records` and `RecordFields` (`records.dfy`, `record_fields.dfy`): a post
  record (text as UTF-8 bytes, optional embed that is either a list of images
  with alt texts or something else), likes, reposts and other records; the
  four fields a create handler fills (`Handled`), and the search for an image
  without alt text (`FindEmptyAlt`, the source's `iter().find`).
- `CreatePost`, `LikePost`, `Repost`: the three handler structs as classes
  whose `Handle` updates their fields in place and whose `CalculateExp` awards
  the XP (post: byte length, +100 with an image, +50 when every image has alt
  text; like and repost: 10).
- `Events` (`events.dfy`): collection NSIDs to record kinds (unknown ones fall
  back to post) and the routing of commits.
- `Repositories` (`repository.dfy`): an in-memory store with three maps
  (characters, experience counters, ledger events) whose operations follow
  the repositories: `update_character` overwrites three fields and writes the
  whole row, `increment_character_experience` adds to a counter that starts at 0.
- `Create`, `Delete`, `Dispatch`: the create handler (select handler, seed
  the counter, compute, overwrite the character, insert the event, increment
  the counter), the delete handler (placeholder for an unknown record key,
  otherwise recompute the character) and `events_handler`.

Where descriptions of the system and the code disagree, the model follows the code:

- The doc comment of `calculate_experience` (src/leveling.rs:35-40) says
  `calculate_experience(0, 30)` gives 20 XP to the next level and progress
  0.6. The code gives 120 (the threshold of level 2 minus 30) and a progress
  of -20/100, since `saturating_sub` does not stop at 0
  (`Leveling.DocumentedExampleAsComputed`).
- The delete path floors the post branch's difference at 1 only when it is
  strictly negative; a difference of 0 stays 0. The like and repost branches
  subtract 15 and 5 with no floor. Every branch then passes 0 as the new
  total, so the persisted response is always level 1, experience 0, 150 to
  the next level and no levels gained (`Delete.DeletedResponseIsReset`).
- The second argument of `calculate_experience` is the new total; the
  create path passes `current + gained` computed with `saturating_add`.

The source at this commit mixes several revisions; these choices were made:

- `character.leveling_state.experience` is read as the character's current
  experience.
- `select_event_handler` returns a fresh handler whose own `handle(record)` is
  never called in this revision; the model calls `Handle` on the commit's
  record and then `CalculateExp`, which is what the trait's
  `calculate_exp(payload)` evidently stands for.
- A ledger event keeps the XP the create awarded (`xp`) beside the response;
  the delete path reads that `xp`. The placeholder event has `xp` 0 and the
  default response.
- In the delete path a missing counter reads as 0 and a missing character
  is the default row for the user (empty name, all numbers 0).
- `persist_character_changes` passes a response where an increment is
  expected; the amount added to the counter after a delete is a parameter
  of the model with no asserted value.

## Model

| member | source | states |
|---|---|---|
| Leveling.XpForLevel | src/leveling.rs:100-106 | the threshold is 50 for any level up to 1 and never below 50 |
| Leveling.XpForLevelStep | src/leveling.rs:100-106 | from level 1 on, each threshold is exactly 100 above the previous one |
| Leveling.XpForLevelOrder | src/leveling.rs:100-106 | from level 1 on, a higher level has a strictly higher threshold |
| Leveling.GetLevelFromXp | src/leveling.rs:108-130 | the level is at least 1, is 1 for every total below 50 (negative ones included), and otherwise satisfies `XpForLevel(n) <= xp < XpForLevel(n + 1)` |
| Leveling.LevelIsUnique | src/leveling.rs:108-113 | any level whose threshold bracket contains the total is the level `GetLevelFromXp` returns |
| Leveling.LevelOfThreshold | src/leveling.rs:108-130 | for every level from 1 whose threshold fits in `i32`, the level of its threshold is that level |
| Leveling.ThresholdRoundTrip | src/leveling.rs:108-130 | the level of the threshold of a total's level is that level |
| Leveling.LevelMonotone | src/leveling.rs:115-130 | the level never decreases as the total grows |
| Leveling.CalculateExperience | src/leveling.rs:42-81 | the response's experience is the new total, its level is the new total's level capped at 1000 (so between 1 and 1000), and levels gained is the non-negative part of new level minus old level, both uncapped |
| Leveling.ExperienceToNextLevel | src/leveling.rs:51-69 | XP to the next level is 0 exactly at the cap; below it, it is the next threshold minus the total (clamped to `i32`), is positive, and the progress denominator is 100 |
| Leveling.NoLevelsGainedWithoutGain | src/leveling.rs:45-72 | a new total not above the current one reports no level gained |
| Leveling.CapReachedAtThreshold | src/leveling.rs:49-53 | the capped level is 1000 exactly when the total reaches the threshold of level 1000 |
| Leveling.DocumentedExampleAsComputed | src/leveling.rs:33-69 | `(0, 30)` gives level 1, experience 30, 120 to the next level, no gain and progress -20/100 |
| Models.CharacterExperience.GetExperience | src/models/mod.rs:53-61 | the result is never negative; for counters in `i32` range it is the counter clamped below at 0; for any counter it is the counter truncated to `i32` whenever that truncation is non-negative, and 0 otherwise |
| RecordFields.Handled | src/events/create/create_post.rs:25-42 | a non-post record changes nothing; a post sets the text and its byte length (mod 2^32); an images embed sets `has_image` and makes the alt flag true iff no image has empty alt text (vacuously true for none); without one both flags keep their values |
| RecordFields.HandledIdempotent | src/events/create/create_post.rs:25-42 | handling the same record twice gives the same fields as handling it once |
| RecordFields.HandledLengthIsByteCount | src/events/create/create_post.rs:31-32 | a post's length field is its byte count when that fits in `u32` |
| RecordFields.FindEmptyAlt | src/events/create/create_post.rs:39 | returns nothing exactly when every image has alt text, and otherwise the first image whose alt text is empty |
| CreatePost.CreatePostEvent.constructor | src/events/create/create_post.rs:14-21 | empty text, length 0, both flags false |
| CreatePost.CreatePostEvent.Handle | src/events/create/create_post.rs:25-42 | the new fields are `Handled` of the old fields and the record |
| CreatePost.CreatePostEvent.CalculateExp | src/events/create/create_post.rs:44-53 | the step-by-step wrapping accumulator equals length + 100 with an image + 50 with alt text, wrapped once to `i32`, and equals it exactly (so is at least the length) when it fits |
| CreatePost.PostExample | src/events/create/create_post.rs:25-53 | a new handler that handles a 42-byte post with one image with alt text awards 192 |
| LikePost.LikePostEvent.constructor | src/events/create/like_post.rs:15-22 | empty text, length 0, both flags false |
| LikePost.LikePostEvent.Handle | src/events/create/like_post.rs:26-44 | the new fields are `Handled` of the old fields and the record |
| LikePost.LikePostEvent.CalculateExp | src/events/create/like_post.rs:46-48 | 10, whatever the fields hold |
| Repost.RepostEvent.constructor | src/events/create/repost.rs:14-21 | empty text, length 0, both flags false |
| Repost.RepostEvent.Handle | src/events/create/repost.rs:25-44 | the new fields are `Handled` of the old fields and the record |
| Repost.RepostEvent.CalculateExp | src/events/create/repost.rs:46-48 | 10, whatever the fields hold |
| Events.FromString | src/events/mod.rs:18-28 | the like and repost NSIDs map to like and repost, and every other string, the post NSID included, maps to post |
| Events.Route | src/events/mod.rs:32-42 | creates and only creates go to the create handler, deletes and only deletes to the delete handler, anything else to no action |
| Repositories.Leveled | src/repositories/character_repository.rs:60-63 | level, current experience and XP to the next level come from the response; every other field is unchanged |
| Repositories.Repository.FindCharacter | src/repositories/character_repository.rs:19-30 | the stored character for the user, if any, stored under its own id |
| Repositories.Repository.FindCharacterExperience | src/repositories/character_repository.rs:32-46 | the user's counter row, if any |
| Repositories.Repository.FindEvent | src/events/delete/mod.rs:13 | the ledger event for the record key, if any |
| Repositories.Repository.IncrementCharacterExperience | src/repositories/character_repository.rs:48-58 | the user's counter (0 when absent) grows by the amount; nothing else changes |
| Repositories.Repository.UpdateCharacter | src/repositories/character_repository.rs:60-69 | the character row under its id becomes `Leveled(c, response)`; nothing else changes |
| Repositories.Repository.InsertEvent | src/repositories/event_repository.rs:21-36 | the ledger row for the key is written; nothing else changes |
| Create.SelectEventHandler | src/events/create/mod.rs:125-132 | posts, likes and reposts select their own handler; every other record kind is an error |
| Create.HandleCreate | src/events/create/mod.rs:24-98 | starting from the stored or bootstrapped character and the stored or seeded counter, the response is computed from the clamped counter and its saturating sum with the XP gained; the character is overwritten from it, one event carrying it is written, the counter grows by exactly the XP gained, and the returned response is the persisted one |
| Create.CreateEventHandler | src/events/create/mod.rs:103-132 | an unknown record kind fails with the store unchanged; otherwise the create step above runs with the XP the selected handler awards for the record |
| Create.PostAwardBounds | src/events/create/create_post.rs:31-53 | a post's award is its byte length plus 100 with an images embed plus 50 when every image has alt text, so never below the length |
| Create.CreateKeepsCharacterAndCounterInStep | src/events/create/mod.rs:76-95 | when the counter and its sum with the gain stay within `0 ..= i32::MAX`, the character's experience equals the counter after the create |
| Delete.PostFloor | src/events/delete/mod.rs:29-35 | the post branch's value is never negative, is 0 exactly when the difference is 0, keeps a non-negative difference and is 1 for a negative one |
| Delete.PostFloorInRange | src/events/delete/mod.rs:29-40 | in `i32` range the post branch is counter minus the event's XP, replaced by 1 when negative |
| Delete.DeletionBase | src/events/delete/mod.rs:29-58 | the post branch is never negative, is 0 exactly when the truncated difference is 0 and keeps a non-negative difference; for counters in `i32` range, like subtracts 15 and repost subtracts 5 |
| Delete.LikeAndRepostHaveNoFloor | src/events/delete/mod.rs:46-60 | for every counter in `i32` range and every event XP, like gives the counter minus 15 and repost the counter minus 5; an empty counter goes negative under both |
| Delete.DeletedResponseIsReset | src/events/delete/mod.rs:37-63 | every branch persists level 1, experience 0, 150 to the next level and no levels gained, whatever the counter, the event's XP and the collection |
| Delete.PersistCharacterChanges | src/events/delete/mod.rs:68-84 | the counter grows by the given amount and the character is overwritten from the response; the ledger is unchanged |
| Delete.DeleteEventHandler | src/events/delete/mod.rs:10-65 | an unknown record key gets a placeholder event with XP 0 and the default response, and counters and characters stay unchanged; a known one leaves the ledger unchanged and overwrites the character from the response of its collection's branch |
| Dispatch.EventsHandler | src/events/mod.rs:32-42 | commits other than create and delete change nothing; a create of an unknown record kind changes nothing; a handled create adds exactly its record key to the ledger, leaves a character and a counter for the user and performs exactly the create step (counter raised by the handler's award, character re-levelled, event recorded); a delete of an unknown key records a zero-XP event with the default response and changes nothing else; a delete of a known key keeps the ledger, adds the increment to the user's counter and re-levels the character from the deletion base |

## Left out

- Concurrency: the semaphore permit, `tokio::spawn` and `Arc` sharing of `create_event_handler`; the model runs each handler to completion, one at a time.
- `progress_percentage` as an `f32`: kept as the integer numerator and denominator of the quotient (1/1 at the cap, 0/1 by default).
- The sentiment and spell-check services (`src/events/create/services.rs`): foreign libraries; the code scores no alignment from them.
- Building a character from a Bluesky profile (`src/models/character.rs`, `get_base_level_from_bsky_profile`): the bootstrapped character is an input of the create path.
- The stream subscription, the HTTP server, the crawler and process startup (`src/main.rs`, `src/jetstream.rs`, `src/http/`, `src/crawler.rs`).
- The Scylla tables: replaced by three in-memory maps; the event's timestamp, type and context map are not stored.
- Logging and the `expect`/`unwrap` panics on store failures: every store operation succeeds.
- Leveling.XpForLevel: the `i32` overflow of thresholds for levels above 21474836 is not modelled; every caller passes at most level 1001.
- Models.CharacterExperience.GetExperience: the counter is an unbounded integer, so 64-bit overflow of the Scylla counter is not modelled.
- Create.HandleCreate: the counter increments are unbounded, so `i64` overflow of the counter is not modelled.
- Delete.DeleteEventHandler: the value added to the counter after a delete is a parameter, because this revision passes a `LevelResponse` where an increment is expected.
- Overflow panics of debug builds: `i32` arithmetic that is not saturating wraps around, as in a release build.
