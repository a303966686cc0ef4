# Comment and reaction materializer: the batch merge logic

This project models the batch merge logic of a change-data-capture
materializer. The materializer tails two ingress feeds, one of chat comments
and one of reactions to comments. It folds each batch of events into
per-conversation aggregate documents. An aggregate document holds a `comments`
sequence. Each entry has `content`, `sender_id` and five reaction counters:
loveface, lol, smile, sad and angry. An entry's position in the sequence is its
identity, because reaction events name comments by index.

The model has four modules:

- `Aggregate` (`aggregate.dfy`) holds the data model: `ReactionKind`, `Reactions`,
  `Entry`, and `Comments = seq<Entry>`. It also holds the shared aggregate store,
  a class `Store` with `docs: map<string, Comments>` and a `log` of every fetch
  and write. The batch gate is a class `Gate` that counts its completion
  signals. `Distinct` models the key order of a dictionary filled in arrival order.
- `CommentPipeline` (`comment_pipeline.dfy`) models the comment subscriber.
  `GroupComments` is the grouping loop. `AppendNewEntries` is the
  append-merge. `CommentCycle` runs one whole cycle against the store: group,
  fetch every distinct conversation, append, write back, signal the gate.
  `CommentsApplied` is the value-level specification of a cycle.
- `ReactionPipeline` (`reaction_pipeline.dfy`) models the reaction subscriber.
  `CountReaction` and `TallyReactions` build the nested tally
  conversation → kind → index → count. `AddKind` and `ApplyTally` add one
  conversation's tally to its fetched comments. `ReactionCycle` runs a whole
  cycle. `ReactionsApplied` is the value-level specification.
- `Pipelines` (`pipelines.dfy`) relates the two pipelines on the shared store.

Both cycle methods are proved against their specification functions. They
also state the exact access log: one fetch per distinct conversation, in
first-arrival order, then one write per distinct conversation. An empty batch
touches no document. Every cycle signals its gate exactly once. Lemmas prove
these properties of those functions:

- append-only growth with stable indices;
- lengths equal to the initial length plus the number of events, across any
  number of cycles;
- reaction counts equal to the old count plus the number of matching events;
- two cycles compose into one over the concatenated batch;
- a comment cycle and a reaction cycle commute when reactions target comments
  that already exist.

Two behaviours of the code shape the model:

- A missing `comments` field is not initialised. At src/server.ts:112 the
  code calls `.concat` on the field directly, so a document without one makes
  the subscriber throw. In the model every document has a `comments`
  sequence, and every conversation of a batch must have a document
  (`DocumentsExist`, `IndicesInRange`).
- The reaction pipeline does not handle conversations one at a time. It
  fetches all of a batch's documents through one `zip`, then merges them all
  and writes them all through a second `zip`, exactly like the comment
  pipeline (src/server.ts:162-186). Both cycle methods therefore fetch all
  documents first and then write all of them.

## Model

| member | source | states |
|---|---|---|
| `Aggregate.Reactions.Add` | src/server.ts:172 | Adding `n` reactions of kind `k` raises that counter by exactly `n` and leaves the other four counters unchanged. |
| `Aggregate.Distinct` | src/server.ts:104 | The conversation ids a batch visits: no id appears twice, and an id is listed if and only if some event carries it. |
| `Aggregate.DistinctInArrivalOrder` | src/server.ts:104 | The key order is first-arrival order: an id listed before another first occurs in the batch before the other does. |
| `Aggregate.Store.Get` | src/server.ts:105 | A fetch returns the stored `comments` of an existing document, appends one fetch to the log, and changes no document. |
| `Aggregate.Store.Put` | src/server.ts:113 | A write replaces exactly that one document and appends one write to the log. |
| `Aggregate.Store.GetAll` | src/server.ts:104-110 | Fetching a batch's conversations yields each one's current comments, keyed by id. The log grows by those fetches in order, and no document changes. |
| `Aggregate.Store.PutAll` | src/server.ts:111-118 | Writing back a batch's documents replaces exactly those documents. Every other document is unchanged, and the log grows by those writes in order. |
| `Aggregate.Gate.constructor` | src/server.ts:74 | A new gate has fired no completion signal yet. |
| `Aggregate.Gate.Signal` | src/server.ts:119 | Re-arming the gate adds exactly one completion signal. |
| `CommentPipeline.EntriesFor` | src/server.ts:80-99 | A conversation's list of new entries has exactly one entry per event of that conversation. |
| `CommentPipeline.GroupComments` | src/server.ts:79-99 | The grouping dictionary has an entry for a conversation if and only if some event carries it. Its keys come in first-arrival order without repeats, and each list is exactly that conversation's new entries, never empty. |
| `CommentPipeline.EntriesForAt` | src/server.ts:83-97 | Event `j` lands in its own conversation's list, at the position equal to the number of earlier events of that conversation. The entry there has the event's content and sender and all five counts at 0. |
| `CommentPipeline.EntriesForFrom` | src/server.ts:80-97 | Every position of a conversation's list is filled by some event of that conversation. No entry comes from nowhere. |
| `CommentPipeline.EntriesForOrder` | src/server.ts:83-87 | Two events of one conversation keep their batch order in its list, because `push` appends in arrival order. |
| `CommentPipeline.EntriesForConcat` | src/server.ts:80-99 | Grouping a concatenated batch gives each conversation its entries from the first part followed by its entries from the second. |
| `CommentPipeline.TotalEntries` | src/server.ts:80-99 | Summed over the batch's distinct conversations, the new entries number exactly the events of the batch. No event is lost or duplicated. |
| `CommentPipeline.MergeAppendsOnly` | src/server.ts:112 | After a merge, a document's entries below its old length are unchanged. Its length grows by exactly its conversation's event count, and a conversation absent from the batch keeps its document unchanged. |
| `CommentPipeline.EmptyBatchChangesNothing` | src/server.ts:124-127 | An empty batch leaves every document unchanged. |
| `CommentPipeline.CyclesCompose` | src/server.ts:112 | Two successive comment cycles equal one cycle over the concatenated batch. |
| `CommentPipeline.AppendOnlyAcrossCycles` | src/server.ts:112 | After any run of cycles, a document is its initial comments followed by the entries of all its events. Its length is the initial length plus its total event count. |
| `CommentPipeline.AppendNewEntries` | src/server.ts:111-112 | Each fetched document becomes its old comments followed by its conversation's new entries, and no other document is produced. |
| `CommentPipeline.CommentCycle` | src/server.ts:78-129 | The store becomes the merged documents. The log gains one fetch, then one write, per distinct conversation in first-arrival order. An empty batch reads and writes nothing, and the gate is signalled exactly once. |
| `CommentPipeline.TwoCommentsScenario` | src/server.ts:80-112 | Comments "hi" and "yo" of c1, applied to an empty c1, give two entries in that order with all reaction counts at 0. |
| `ReactionPipeline.CountReaction` | src/server.ts:141-155 | Counting one event creates the conversation's tally with all five kinds on first sight. It raises that event's triple by exactly 1, leaves every other triple unchanged, and keeps every present count at least 1. |
| `ReactionPipeline.TallyReactions` | src/server.ts:138-157 | The tally of `(conversation, kind, index)` equals the number of events with exactly that triple. A triple has an entry if and only if it has an event, and the conversation keys come in first-arrival order. |
| `ReactionPipeline.AddKind` | src/server.ts:171-173 | Adding one kind's counts raises that kind's counter of every tallied index by its count. Length, content, sender and the other kinds are unchanged. |
| `ReactionPipeline.ApplyTally` | src/server.ts:170-175 | Each counter becomes its old value plus the tallied count for its index and kind. Length, content and sender are unchanged. |
| `ReactionPipeline.ApplyTallies` | src/server.ts:169-178 | Each fetched document becomes the merged document for the batch, and no other document is produced. |
| `ReactionPipeline.OccurrencesInRange` | src/server.ts:172 | If every event names an existing comment, every tallied triple names an existing document and an index inside its comments. |
| `ReactionPipeline.ReactionMerge` | src/server.ts:169-175 | After a merge, a document keeps its length and each entry's content and sender. Each counter equals its old value plus the number of matching events, so no counter decreases, and a conversation absent from the batch keeps its document unchanged. |
| `ReactionPipeline.ReactionCycle` | src/server.ts:137-193 | The store becomes the merged documents. The log gains one fetch, then one write, per distinct conversation in first-arrival order. An empty batch reads and writes nothing, and the gate is signalled exactly once. |
| `ReactionPipeline.ReactionCyclesCompose` | src/server.ts:169-175 | Two successive reaction cycles equal one cycle over the concatenated batch. |
| `ReactionPipeline.TwoLolsScenario` | src/server.ts:151-172 | Two "lol" events on comment 0 of c1 raise a lol count of 1 to 3. |
| `Pipelines.CommentsKeepReactionTargets` | src/server.ts:112 | A comment cycle only appends, so a reaction batch whose indices were in range stays in range. |
| `Pipelines.CyclesCommute` | src/server.ts:104-177 | When every reaction names an existing comment, either order of a comment cycle and a reaction cycle gives the same documents. |

## Left out

- CouchDB client construction, environment variables and credentials (src/server.ts:6-50): configuration over a client library that is not part of this model.
- The `changes` reconnect function (src/server.ts:52-69): feed subscription and resubscription. It is I/O over a library that is not part of this model.
- The `BehaviorSubject`/`buffer` batch gate and the `zip`/`take(1)` fan-out. A batch is given as a sequence of events. Fetches are issued one after another, as are writes. Each cycle runs to completion before the next, which is what the gate guarantees. Interleaved in-flight requests are not modelled.
- `setTimeout` re-arm timing and `console.log` (src/server.ts:125-127, 180, 191-193): timing and logging. The empty-batch branch is modelled as an immediate signal.
- The commented-out debug subscriptions and hot-feed seeder (src/server.ts:200-220), and `process.stdin.resume()`: dead code and process lifetime.
- Failing fetches and writes: the code registers no error handler on them, so the gate is never re-armed. The model has no failure outcome for a store access. Write conflicts and lost updates between the two pipelines are not modelled. `Pipelines.CyclesCommute` assumes each cycle's fetch-merge-write takes effect as one step.
- Inputs that make the code throw are excluded by preconditions, not given invented recovery. These are a missing aggregate document or `comments` field, a comment index at or beyond the comments' length, and a conversation id that names a property every object inherits from `Object.prototype`.
- Reaction kinds outside the five: `ReactionKind` is an enumeration, so the model cannot express them. In the code, an unknown kind such as `"wow"` makes the lookup at src/server.ts:151 index `undefined`, and the subscriber throws. A kind that names an inherited property does not throw:
  - With `"toString"`, `"constructor"`, `"valueOf"` or `"hasOwnProperty"`, the lookup at :151 yields the inherited function, and :152 stores the count on that function, which every object shares. :170 enumerates only the five own kinds, so the reaction is silently dropped. A later reaction of the same kind on the same index, in any batch, finds that count and increments it.
  - With `"__proto__"`, the lookup yields `Object.prototype` itself, and :152 stores `1` at `Object.prototype[commentIndex]`. From then on every fresh tally array inherits that 1. A first real reaction on that index reads it at :151 and is counted as 2 at :154.
- Conversation ids such as `"constructor"`, `"toString"`, `"valueOf"`, `"hasOwnProperty"` or `"__proto__"` (the set `Aggregate.INHERITED_NAMES`): on a fresh `{}` such a key already reads as a function or as the prototype. The presence test at src/server.ts:83 therefore skips the `= []`, and the `push` at :87 fails. The test at :141 skips the five-kind initialisation, and the lookup at :151 indexes `undefined`. Either way the subscriber throws and its gate is never re-armed. `DocumentsExist` and `IndicesInRange` exclude these ids.
- A stored entry whose `reactions` object lacks one of the five keys (the code would compute `NaN`): every modelled entry has all five counters.
- Key order of JavaScript objects: integer-like keys are enumerated first in ascending order. The model uses first-arrival order for all keys. The final store does not depend on this order, because each document is fetched and written once per batch.
- `ApplyTally`, `AddKind`: kinds and indices are visited in an arbitrary order, not ascending index order. Addition commutes, so the result is the same.
- Counts are unbounded naturals. JavaScript numbers are exact only up to 2^53, a bound no realistic batch reaches.
