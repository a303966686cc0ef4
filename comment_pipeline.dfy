/**
 The comment pipeline: a batch of ingress comment events is grouped by
 conversation into lists of new comment entries, one aggregate document is
 fetched per distinct conversation, each document's `comments` becomes its
 old comments followed by that conversation's new entries, the documents are
 written back and the gate is re-armed.
 */
module CommentPipeline {
  import opened Aggregate

  /** One change of the ingress comments feed. */
  datatype CommentEvent = CommentEvent(conversation: string, content: string, sender: string)

  /** The entry a comment event becomes: its content and sender, every reaction count at 0. */
  function NewEntry(e: CommentEvent): Entry
  {
    Entry(NO_REACTIONS, e.content, e.sender)
  }

  /** The conversation id of every event of the batch, in batch order. */
  function Ids(batch: seq<CommentEvent>): (r: seq<string>)
    ensures |r| == |batch|
    ensures forall j :: 0 <= j < |batch| ==> r[j] == batch[j].conversation
  {
    if batch == [] then [] else Ids(batch[..|batch| - 1]) + [batch[|batch| - 1].conversation]
  }

  /** The distinct conversations of a batch, in order of first appearance. */
  function Conversations(batch: seq<CommentEvent>): seq<string>
  {
    Distinct(Ids(batch))
  }

  /** The number of events of the batch that belong to conversation `c`. */
  function Count(batch: seq<CommentEvent>, c: string): nat
  {
    if batch == [] then 0
    else Count(batch[..|batch| - 1], c) + (if batch[|batch| - 1].conversation == c then 1 else 0)
  }

  /** The new entries of conversation `c`: the entries of its events, in batch order. */
  function EntriesFor(batch: seq<CommentEvent>, c: string): (r: seq<Entry>)
    ensures |r| == Count(batch, c)
  {
    if batch == [] then []
    else
      var last := batch[|batch| - 1];
      EntriesFor(batch[..|batch| - 1], c) + (if last.conversation == c then [NewEntry(last)] else [])
  }

  /**
   Groups a batch by conversation. `keys` lists the conversations in the
   order in which the grouping dictionary received them; `groups[c]` is the
   list of new entries of conversation `c`.
   */
  method GroupComments(batch: seq<CommentEvent>) returns (keys: seq<string>, groups: map<string, seq<Entry>>)
    ensures keys == Conversations(batch)
    ensures forall c :: c in groups <==> c in Ids(batch)
    ensures forall c :: c in groups ==> groups[c] == EntriesFor(batch, c) && groups[c] != []
  {
    keys, groups := [], map[];
    var i := 0;
    while i < |batch|
      invariant 0 <= i <= |batch|
      invariant keys == Conversations(batch[..i])
      invariant forall c :: c in groups <==> c in Ids(batch[..i])
      invariant forall c :: c in groups ==> groups[c] == EntriesFor(batch[..i], c) && groups[c] != []
    {
      var e := batch[i];
      assert batch[..i + 1][..i] == batch[..i];
      if e.conversation !in groups {
        EntriesForUnseen(batch[..i], e.conversation);
        groups := groups[e.conversation := []];
        keys := keys + [e.conversation];
      }
      groups := groups[e.conversation := groups[e.conversation] + [NewEntry(e)]];
      i := i + 1;
    }
    assert batch[..i] == batch;
  }

  /** A conversation with no event in the batch gets no new entries. */
  lemma {:induction false} EntriesForUnseen(batch: seq<CommentEvent>, c: string)
    requires c !in Ids(batch)
    ensures EntriesFor(batch, c) == []
  {
    if batch != [] {
      var init := batch[..|batch| - 1];
      assert Ids(batch) == Ids(init) + [batch[|batch| - 1].conversation];
      EntriesForUnseen(init, c);
    }
  }

  /**
   The event at position `j` lands in its own conversation's list, at the
   position given by the number of earlier events of that conversation.
   */
  lemma {:induction false} EntriesForAt(batch: seq<CommentEvent>, j: nat)
    requires j < |batch|
    ensures Count(batch[..j], batch[j].conversation) < |EntriesFor(batch, batch[j].conversation)|
    ensures EntriesFor(batch, batch[j].conversation)[Count(batch[..j], batch[j].conversation)] == NewEntry(batch[j])
  {
    var init := batch[..|batch| - 1];
    if j < |batch| - 1 {
      assert init[j] == batch[j] && init[..j] == batch[..j];
      EntriesForAt(init, j);
    } else {
      assert init == batch[..j];
    }
  }

  /** Every new entry of `c` comes from an event of `c`, and the positions match. */
  lemma {:induction false} EntriesForFrom(batch: seq<CommentEvent>, c: string, p: nat)
    requires p < |EntriesFor(batch, c)|
    ensures exists j :: 0 <= j < |batch| && batch[j].conversation == c && Count(batch[..j], c) == p
  {
    var init := batch[..|batch| - 1];
    if p < |EntriesFor(init, c)| {
      EntriesForFrom(init, c, p);
      var j :| 0 <= j < |init| && init[j].conversation == c && Count(init[..j], c) == p;
      assert init[..j] == batch[..j];
    } else {
      var j := |batch| - 1;
      assert batch[..j] == init;
    }
  }

  /** Grouping distributes over concatenation of batches. */
  lemma {:induction false} EntriesForConcat(a: seq<CommentEvent>, b: seq<CommentEvent>, c: string)
    ensures EntriesFor(a + b, c) == EntriesFor(a, c) + EntriesFor(b, c)
  {
    if b != [] {
      var initB := b[..|b| - 1];
      assert (a + b)[..|a + b| - 1] == a + initB;
      EntriesForConcat(a, initB, c);
    } else {
      assert a + b == a;
    }
  }

  /** Events of one conversation keep their batch order among the new entries. */
  lemma EntriesForOrder(batch: seq<CommentEvent>, j1: nat, j2: nat)
    requires j1 < j2 < |batch|
    requires batch[j1].conversation == batch[j2].conversation
    ensures Count(batch[..j1], batch[j1].conversation) < Count(batch[..j2], batch[j2].conversation)
  {
    var c := batch[j1].conversation;
    assert batch[..j2] == batch[..j1 + 1] + batch[j1 + 1..j2];
    EntriesForConcat(batch[..j1 + 1], batch[j1 + 1..j2], c);
    assert batch[..j1 + 1][..j1] == batch[..j1];
  }

  /** The number of new entries over the conversations `keys`. */
  function GroupedTotal(batch: seq<CommentEvent>, keys: seq<string>): nat
  {
    if keys == [] then 0 else Count(batch, keys[0]) + GroupedTotal(batch, keys[1..])
  }

  /** How often `x` occurs in `keys`. */
  function Multiplicity(keys: seq<string>, x: string): nat
  {
    if keys == [] then 0 else (if keys[0] == x then 1 else 0) + Multiplicity(keys[1..], x)
  }

  lemma {:induction false} OccursOnce(keys: seq<string>, x: string)
    requires NoDuplicates(keys) && x in keys
    ensures Multiplicity(keys, x) == 1
  {
    if keys[0] != x {
      OccursOnce(keys[1..], x);
    } else {
      OccursNever(keys[1..], x);
    }
  }

  lemma {:induction false} OccursNever(keys: seq<string>, x: string)
    requires x !in keys
    ensures Multiplicity(keys, x) == 0
  {
    if keys != [] {
      OccursNever(keys[1..], x);
    }
  }

  lemma {:induction false} GroupedTotalSnoc(batch: seq<CommentEvent>, e: CommentEvent, keys: seq<string>)
    ensures GroupedTotal(batch + [e], keys) == GroupedTotal(batch, keys) + Multiplicity(keys, e.conversation)
  {
    if keys != [] {
      assert (batch + [e])[..|batch|] == batch;
      GroupedTotalSnoc(batch, e, keys[1..]);
    }
  }

  lemma {:induction false} GroupedTotalCovering(batch: seq<CommentEvent>, keys: seq<string>)
    requires NoDuplicates(keys)
    requires forall c :: c in Ids(batch) ==> c in keys
    ensures GroupedTotal(batch, keys) == |batch|
  {
    if batch == [] {
      GroupedTotalEmpty(keys);
    } else {
      var init := batch[..|batch| - 1];
      var e := batch[|batch| - 1];
      assert Ids(batch) == Ids(init) + [e.conversation];
      GroupedTotalCovering(init, keys);
      assert init + [e] == batch;
      GroupedTotalSnoc(init, e, keys);
      OccursOnce(keys, e.conversation);
    }
  }

  lemma {:induction false} GroupedTotalEmpty(keys: seq<string>)
    ensures GroupedTotal([], keys) == 0
  {
    if keys != [] {
      GroupedTotalEmpty(keys[1..]);
    }
  }

  /**
   Grouping loses and duplicates nothing: the new entries of all the batch's
   conversations together number exactly the events of the batch.
   */
  lemma TotalEntries(batch: seq<CommentEvent>)
    ensures GroupedTotal(batch, Conversations(batch)) == |batch|
  {
    GroupedTotalCovering(batch, Conversations(batch));
  }

  /** The aggregate documents after one comment cycle over `batch`. */
  function CommentsApplied(docs: map<string, Comments>, batch: seq<CommentEvent>): map<string, Comments>
  {
    map c | c in docs :: docs[c] + EntriesFor(batch, c)
  }

  /**
   A comment merge only appends: every document keeps its entries at their
   indices and grows by exactly the number of its conversation's events;
   a document whose conversation is not in the batch is unchanged.
   */
  lemma MergeAppendsOnly(docs: map<string, Comments>, batch: seq<CommentEvent>, c: string)
    requires c in docs
    ensures c in CommentsApplied(docs, batch)
    ensures |CommentsApplied(docs, batch)[c]| == |docs[c]| + Count(batch, c)
    ensures forall j :: 0 <= j < |docs[c]| ==> CommentsApplied(docs, batch)[c][j] == docs[c][j]
    ensures c !in Ids(batch) ==> CommentsApplied(docs, batch)[c] == docs[c]
  {
    if c !in Ids(batch) {
      EntriesForUnseen(batch, c);
    }
  }

  /** An empty batch leaves every document as it was. */
  lemma EmptyBatchChangesNothing(docs: map<string, Comments>)
    ensures CommentsApplied(docs, []) == docs
  {
    forall c | c in docs
      ensures CommentsApplied(docs, [])[c] == docs[c]
    {
      assert docs[c] + [] == docs[c];
    }
  }

  /** Two successive comment cycles have the effect of one cycle over the concatenated batch. */
  lemma CyclesCompose(docs: map<string, Comments>, b1: seq<CommentEvent>, b2: seq<CommentEvent>)
    ensures CommentsApplied(CommentsApplied(docs, b1), b2) == CommentsApplied(docs, b1 + b2)
  {
    forall c | c in docs
      ensures CommentsApplied(CommentsApplied(docs, b1), b2)[c] == CommentsApplied(docs, b1 + b2)[c]
    {
      EntriesForConcat(b1, b2, c);
    }
  }

  /** The documents after a run of comment cycles, one per batch, in order. */
  function CommentCycles(docs: map<string, Comments>, batches: seq<seq<CommentEvent>>): map<string, Comments>
  {
    if batches == [] then docs
    else CommentsApplied(CommentCycles(docs, batches[..|batches| - 1]), batches[|batches| - 1])
  }

  /** All the events of a run of batches, in order. */
  function Flatten(batches: seq<seq<CommentEvent>>): seq<CommentEvent>
  {
    if batches == [] then [] else Flatten(batches[..|batches| - 1]) + batches[|batches| - 1]
  }

  /**
   Append-only across cycles: after any run of batches a document holds its
   initial entries followed by the entries of all its events, so its length
   is the initial length plus the number of its events over all cycles.
   */
  lemma {:induction false} AppendOnlyAcrossCycles(docs: map<string, Comments>, batches: seq<seq<CommentEvent>>)
    ensures CommentCycles(docs, batches) == CommentsApplied(docs, Flatten(batches))
    ensures forall c :: c in docs ==>
      && c in CommentCycles(docs, batches)
      && |CommentCycles(docs, batches)[c]| == |docs[c]| + Count(Flatten(batches), c)
      && CommentCycles(docs, batches)[c][..|docs[c]|] == docs[c]
  {
    if batches == [] {
      EmptyBatchChangesNothing(docs);
    } else {
      var init := batches[..|batches| - 1];
      AppendOnlyAcrossCycles(docs, init);
      CyclesCompose(docs, Flatten(init), batches[|batches| - 1]);
    }
  }

  /**
   Every conversation of the batch has an aggregate document, and no
   conversation id is a name every object inherits (such an id makes the
   grouping step fail).
   */
  predicate DocumentsExist(docs: map<string, Comments>, batch: seq<CommentEvent>)
  {
    forall c :: c in Ids(batch) ==> c in docs && c !in INHERITED_NAMES
  }

  /**
   Appends to each fetched document the new entries of its conversation, as
   the merge does for every document of the batch before writing them back.
   */
  method AppendNewEntries(fetched: map<string, Comments>, keys: seq<string>, groups: map<string, seq<Entry>>)
    returns (updated: map<string, Comments>)
    requires forall c :: c in fetched <==> c in keys
    requires forall c :: c in keys ==> c in groups
    ensures forall c :: c in updated <==> c in keys
    ensures forall c :: c in updated ==> updated[c] == fetched[c] + groups[c]
  {
    updated := map[];
    var i := 0;
    while i < |keys|
      invariant 0 <= i <= |keys|
      invariant forall c :: c in updated <==> c in keys[..i]
      invariant forall c :: c in updated ==> updated[c] == fetched[c] + groups[c]
    {
      updated := updated[keys[i] := fetched[keys[i]] + groups[keys[i]]];
      assert keys[..i + 1] == keys[..i] + [keys[i]];
      i := i + 1;
    }
    assert keys[..i] == keys;
  }

  /** Documents written back for the conversations of the batch, and untouched otherwise, are the merged documents. */
  lemma MergedDocuments(
    docs0: map<string, Comments>, docs1: map<string, Comments>, batch: seq<CommentEvent>,
    groups: map<string, seq<Entry>>)
    requires forall c :: c in groups ==> groups[c] == EntriesFor(batch, c)
    requires forall c :: c in Ids(batch) ==> c in groups
    requires docs1.Keys == docs0.Keys
    requires forall c :: c in docs1 ==> docs1[c] == if c in Ids(batch) then docs0[c] + groups[c] else docs0[c]
    ensures docs1 == CommentsApplied(docs0, batch)
  {
    forall c | c in docs0
      ensures docs1[c] == docs0[c] + EntriesFor(batch, c)
    {
      MergedDocument(docs0[c], docs1[c], batch, c, c in Ids(batch), if c in groups then groups[c] else []);
    }
  }

  /** One document of `MergedDocuments`. */
  lemma MergedDocument(old0: Comments, new0: Comments, batch: seq<CommentEvent>, c: string, seen: bool, group: seq<Entry>)
    requires seen <==> c in Ids(batch)
    requires seen ==> group == EntriesFor(batch, c)
    requires new0 == if seen then old0 + group else old0
    ensures new0 == old0 + EntriesFor(batch, c)
  {
    if !seen {
      EntriesForUnseen(batch, c);
    }
  }

  /**
   One comment cycle. A non-empty batch is grouped, the document of every
   distinct conversation is fetched, then each is written back with its new
   entries appended; an empty batch touches no document. Either way the gate
   is signalled once.
   */
  method CommentCycle(store: Store, gate: Gate, batch: seq<CommentEvent>)
    requires DocumentsExist(store.docs, batch)
    modifies store, gate
    ensures store.docs == CommentsApplied(old(store.docs), batch)
    ensures store.log == old(store.log) + Fetches(Conversations(batch)) + Writes(Conversations(batch))
    ensures batch == [] ==> store.docs == old(store.docs) && store.log == old(store.log)
    ensures gate.signals == old(gate.signals) + 1
  {
    if |batch| > 0 {
      var keys, groups := GroupComments(batch);
      ghost var docs0 := store.docs;
      var fetched := store.GetAll(keys);
      var updated := AppendNewEntries(fetched, keys, groups);
      store.PutAll(keys, updated);
      MergedDocuments(docs0, store.docs, batch, groups);
    } else {
      EmptyBatchChangesNothing(store.docs);
    }
    gate.Signal();
  }

  /**
   The worked example: two comments of conversation c1 against an empty
   aggregate give two entries, in batch order, with no reactions.
   */
  lemma TwoCommentsScenario()
    ensures CommentsApplied(
      map["c1" := []],
      [CommentEvent("c1", "hi", "u1"), CommentEvent("c1", "yo", "u2")])
      == map["c1" := [Entry(NO_REACTIONS, "hi", "u1"), Entry(NO_REACTIONS, "yo", "u2")]]
  {
    var batch := [CommentEvent("c1", "hi", "u1"), CommentEvent("c1", "yo", "u2")];
    assert batch[..1] == [batch[0]];
    assert batch[..1][..0] == [];
    assert EntriesFor(batch[..1], "c1") == [NewEntry(batch[0])];
    assert EntriesFor(batch, "c1") == [NewEntry(batch[0]), NewEntry(batch[1])];
    var docs: map<string, Comments> := map["c1" := []];
    assert CommentsApplied(docs, batch).Keys == docs.Keys;
    assert CommentsApplied(docs, batch)["c1"] == [] + EntriesFor(batch, "c1");
    var expected := map["c1" := [Entry(NO_REACTIONS, "hi", "u1"), Entry(NO_REACTIONS, "yo", "u2")]];
    assert CommentsApplied(docs, batch)["c1"] == expected["c1"];
    assert CommentsApplied(docs, batch) == expected;
  }
}
