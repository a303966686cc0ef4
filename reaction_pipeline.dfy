/**
 The reaction pipeline: a batch of ingress reaction events is tallied into a
 nested dictionary conversation -> reaction kind -> comment index -> count,
 one aggregate document is fetched per distinct conversation, every tallied
 count is added to the matching counter of the matching comment entry, the
 documents are written back and the gate is re-armed.
 */
module ReactionPipeline {
  import opened Aggregate

  /** One change of the ingress reactions feed: one more reaction of `kind` on comment `index`. */
  datatype ReactionEvent = ReactionEvent(conversation: string, kind: ReactionKind, index: nat)

  /** The conversation id of every event of the batch, in batch order. */
  function Ids(batch: seq<ReactionEvent>): (r: seq<string>)
    ensures |r| == |batch|
    ensures forall j :: 0 <= j < |batch| ==> r[j] == batch[j].conversation
  {
    if batch == [] then [] else Ids(batch[..|batch| - 1]) + [batch[|batch| - 1].conversation]
  }

  /** The distinct conversations of a batch, in order of first appearance. */
  function Conversations(batch: seq<ReactionEvent>): seq<string>
  {
    Distinct(Ids(batch))
  }

  /** The number of events of the batch that react with `k` to comment `i` of conversation `c`. */
  function Occurrences(batch: seq<ReactionEvent>, c: string, k: ReactionKind, i: nat): nat
  {
    if batch == [] then 0
    else
      Occurrences(batch[..|batch| - 1], c, k, i)
        + (if batch[|batch| - 1] == ReactionEvent(c, k, i) then 1 else 0)
  }

  /** The tally of one conversation: reaction kind -> comment index -> count. */
  type KindTally = map<ReactionKind, map<nat, nat>>

  /** The tally of a batch: conversation -> its tally. */
  type Tally = map<string, KindTally>

  /** The tally a conversation starts with: every kind present, no index counted. */
  const EMPTY_KINDS: KindTally := map[Loveface := map[], Lol := map[], Smile := map[], Sad := map[], Angry := map[]]

  /** The count held for comment index `i`, 0 when none is held. */
  function CountAt(byIndex: map<nat, nat>, i: nat): nat
  {
    if i in byIndex then byIndex[i] else 0
  }

  /** The count a conversation's tally holds for `(k, i)`, 0 when it holds none. */
  function Delta(byKind: KindTally, k: ReactionKind, i: nat): nat
  {
    if k in byKind then CountAt(byKind[k], i) else 0
  }

  /** The count the tally holds for `(c, k, i)`, 0 when it holds none. */
  function Tallied(tally: Tally, c: string, k: ReactionKind, i: nat): nat
  {
    if c in tally then Delta(tally[c], k, i) else 0
  }

  /** A conversation with no event in the batch has no reactions counted. */
  lemma {:induction false} OccurrencesUnseen(batch: seq<ReactionEvent>, c: string)
    requires c !in Ids(batch)
    ensures forall k, i :: Occurrences(batch, c, k, i) == 0
  {
    if batch != [] {
      var init := batch[..|batch| - 1];
      assert Ids(batch) == Ids(init) + [batch[|batch| - 1].conversation];
      OccurrencesUnseen(init, c);
    }
  }

  /**
   Counts one reaction event into the tally: a conversation seen for the first
   time gets an entry for every kind, and the count of the event's triple
   becomes 1 or goes up by 1.
   */
  method CountReaction(tally: Tally, e: ReactionEvent) returns (t: Tally)
    requires forall c, k :: c in tally ==> k in tally[c]
    requires forall c, k, i :: c in tally && k in tally[c] && i in tally[c][k] ==> tally[c][k][i] >= 1
    ensures forall c :: c in t <==> c in tally || c == e.conversation
    ensures forall c, k :: c in t ==> k in t[c]
    ensures forall c, k, i :: Tallied(t, c, k, i) == Tallied(tally, c, k, i) + (if e == ReactionEvent(c, k, i) then 1 else 0)
    ensures forall c, k, i :: c in t && k in t[c] && i in t[c][k] ==> t[c][k][i] >= 1
  {
    var byKind: KindTally := EMPTY_KINDS;
    if e.conversation in tally {
      byKind := tally[e.conversation];
    }
    assert forall k :: k in byKind by {
      forall k
        ensures k in byKind
      {
        match k
        case Loveface =>
        case Lol =>
        case Smile =>
        case Sad =>
        case Angry =>
      }
    }
    var byIndex: map<nat, nat> := byKind[e.kind];
    if e.index !in byIndex {
      byIndex := byIndex[e.index := 1];
    } else {
      byIndex := byIndex[e.index := byIndex[e.index] + 1];
    }
    t := tally[e.conversation := byKind[e.kind := byIndex]];
  }

  /**
   Tallies a batch. `keys` lists the conversations in the order in which the
   tally dictionary received them; the tally of `(c, k, i)` is the number of
   events with exactly that triple, and a triple without events has no entry.
   */
  method TallyReactions(batch: seq<ReactionEvent>) returns (keys: seq<string>, tally: Tally)
    ensures keys == Conversations(batch)
    ensures forall c :: c in tally <==> c in Ids(batch)
    ensures forall c, k :: c in tally ==> k in tally[c]
    ensures forall c, k, i :: Tallied(tally, c, k, i) == Occurrences(batch, c, k, i)
    ensures forall c, k, i :: c in tally && k in tally[c] ==> (i in tally[c][k] <==> Occurrences(batch, c, k, i) > 0)
  {
    keys, tally := [], map[];
    var n := 0;
    while n < |batch|
      invariant 0 <= n <= |batch|
      invariant keys == Conversations(batch[..n])
      invariant forall c :: c in tally <==> c in Ids(batch[..n])
      invariant forall c, k :: c in tally ==> k in tally[c]
      invariant forall c, k, i :: Tallied(tally, c, k, i) == Occurrences(batch[..n], c, k, i)
      invariant forall c, k, i :: c in tally && k in tally[c] && i in tally[c][k] ==> tally[c][k][i] >= 1
    {
      var e := batch[n];
      assert Ids(batch[..n + 1]) == Ids(batch[..n]) + [e.conversation] by {
        assert batch[..n + 1][..n] == batch[..n];
      }
      if e.conversation !in tally {
        keys := keys + [e.conversation];
      }
      ghost var before := tally;
      tally := CountReaction(tally, e);
      TallyStep(batch, n, before, tally);
      n := n + 1;
    }
    assert batch[..n] == batch;
  }

  /** Counting event `n` into the tally of the first `n` events gives the tally of the first `n + 1`. */
  lemma TallyStep(batch: seq<ReactionEvent>, n: nat, before: Tally, after: Tally)
    requires n < |batch|
    requires forall c, k, i :: Tallied(before, c, k, i) == Occurrences(batch[..n], c, k, i)
    requires forall c, k, i :: Tallied(after, c, k, i) == Tallied(before, c, k, i) + (if batch[n] == ReactionEvent(c, k, i) then 1 else 0)
    ensures forall c, k, i :: Tallied(after, c, k, i) == Occurrences(batch[..n + 1], c, k, i)
  {
    assert batch[..n + 1][..n] == batch[..n];
    forall c, k, i
      ensures Tallied(after, c, k, i) == Occurrences(batch[..n + 1], c, k, i)
    {
      assert Occurrences(batch[..n + 1], c, k, i)
        == Occurrences(batch[..n], c, k, i) + (if batch[n] == ReactionEvent(c, k, i) then 1 else 0);
    }
  }

  /**
   Adds the counts tallied for one kind to the comments, as the innermost loop
   of the merge does: the counter of that kind of every tallied index grows by
   its count, and nothing else changes.
   */
  method AddKind(comments: Comments, k: ReactionKind, byIndex: map<nat, nat>) returns (r: Comments)
    requires forall i :: i in byIndex ==> i < |comments|
    ensures |r| == |comments|
    ensures forall j :: 0 <= j < |r| ==> r[j].content == comments[j].content && r[j].sender == comments[j].sender
    ensures forall j, k' :: 0 <= j < |r| ==>
      r[j].reactions.Get(k') == comments[j].reactions.Get(k') + (if k' == k then CountAt(byIndex, j) else 0)
  {
    r := comments;
    var indices := byIndex.Keys;
    ghost var bumped: set<nat> := {};
    while indices != {}
      invariant indices + bumped == byIndex.Keys && indices !! bumped
      invariant |r| == |comments|
      invariant forall j :: 0 <= j < |r| ==> r[j].content == comments[j].content && r[j].sender == comments[j].sender
      invariant forall j, k' :: 0 <= j < |r| ==>
        r[j].reactions.Get(k') == comments[j].reactions.Get(k') + (if k' == k && j in bumped then byIndex[j] else 0)
      decreases indices
    {
      var i :| i in indices;
      r := r[i := r[i].(reactions := r[i].reactions.Add(k, byIndex[i]))];
      indices := indices - {i};
      bumped := bumped + {i};
    }
  }

  /**
   Adds one conversation's tally to its fetched comments, counter by counter:
   every entry keeps its content and sender, and each of its counters grows by
   the count tallied for its index and kind.
   */
  method ApplyTally(comments: Comments, byKind: KindTally) returns (r: Comments)
    requires forall k, i :: k in byKind && i in byKind[k] ==> i < |comments|
    ensures |r| == |comments|
    ensures forall j :: 0 <= j < |r| ==> r[j].content == comments[j].content && r[j].sender == comments[j].sender
    ensures forall j, k :: 0 <= j < |r| ==> r[j].reactions.Get(k) == comments[j].reactions.Get(k) + Delta(byKind, k, j)
  {
    r := comments;
    var kinds := byKind.Keys;
    ghost var done: set<ReactionKind> := {};
    while kinds != {}
      invariant kinds + done == byKind.Keys && kinds !! done
      invariant |r| == |comments|
      invariant forall j :: 0 <= j < |r| ==> r[j].content == comments[j].content && r[j].sender == comments[j].sender
      invariant forall j, k :: 0 <= j < |r| ==>
        r[j].reactions.Get(k) == comments[j].reactions.Get(k) + (if k in done then Delta(byKind, k, j) else 0)
      decreases kinds
    {
      var k :| k in kinds;
      r := AddKind(r, k, byKind[k]);
      kinds := kinds - {k};
      done := done + {k};
    }
  }

  /** The counters of one entry after the batch: each grows by its matching events. */
  function Bumped(rs: Reactions, batch: seq<ReactionEvent>, c: string, j: nat): Reactions
  {
    Reactions(
      rs.loveface + Occurrences(batch, c, Loveface, j),
      rs.lol + Occurrences(batch, c, Lol, j),
      rs.smile + Occurrences(batch, c, Smile, j),
      rs.sad + Occurrences(batch, c, Sad, j),
      rs.angry + Occurrences(batch, c, Angry, j))
  }

  /** The comments of conversation `c` after the batch's reactions are added. */
  function DocApplied(comments: Comments, batch: seq<ReactionEvent>, c: string): Comments
  {
    seq(|comments|, j requires 0 <= j < |comments| => comments[j].(reactions := Bumped(comments[j].reactions, batch, c, j)))
  }

  /** The aggregate documents after one reaction cycle over `batch`. */
  function ReactionsApplied(docs: map<string, Comments>, batch: seq<ReactionEvent>): map<string, Comments>
  {
    map c | c in docs :: DocApplied(docs[c], batch, c)
  }

  /**
   A reaction merge changes counters only: every document keeps its length and
   the content and sender of each entry, each counter becomes its old value
   plus the number of matching events (so no counter decreases), and the
   document of a conversation not in the batch is unchanged.
   */
  lemma ReactionMerge(docs: map<string, Comments>, batch: seq<ReactionEvent>, c: string)
    requires c in docs
    ensures c in ReactionsApplied(docs, batch)
    ensures |ReactionsApplied(docs, batch)[c]| == |docs[c]|
    ensures forall j :: 0 <= j < |docs[c]| ==>
      && ReactionsApplied(docs, batch)[c][j].content == docs[c][j].content
      && ReactionsApplied(docs, batch)[c][j].sender == docs[c][j].sender
    ensures forall j, k :: 0 <= j < |docs[c]| ==>
      ReactionsApplied(docs, batch)[c][j].reactions.Get(k) == docs[c][j].reactions.Get(k) + Occurrences(batch, c, k, j)
    ensures forall j, k :: 0 <= j < |docs[c]| ==>
      ReactionsApplied(docs, batch)[c][j].reactions.Get(k) >= docs[c][j].reactions.Get(k)
    ensures c !in Ids(batch) ==> ReactionsApplied(docs, batch)[c] == docs[c]
  {
    if c !in Ids(batch) {
      OccurrencesUnseen(batch, c);
      var r := ReactionsApplied(docs, batch)[c];
      forall j | 0 <= j < |docs[c]|
        ensures r[j] == docs[c][j]
      {
        assert r[j].reactions == Bumped(docs[c][j].reactions, batch, c, j);
      }
    }
  }

  /** Tallies of a batch that hold its events apply to the documents as the merged documents say. */
  lemma TallyIsMerge(comments: Comments, r: Comments, byKind: KindTally, batch: seq<ReactionEvent>, c: string)
    requires |r| == |comments|
    requires forall j :: 0 <= j < |r| ==> r[j].content == comments[j].content && r[j].sender == comments[j].sender
    requires forall j, k :: 0 <= j < |r| ==> r[j].reactions.Get(k) == comments[j].reactions.Get(k) + Delta(byKind, k, j)
    requires forall k, i :: Delta(byKind, k, i) == Occurrences(batch, c, k, i)
    ensures r == DocApplied(comments, batch, c)
  {
    var want := DocApplied(comments, batch, c);
    forall j | 0 <= j < |r|
      ensures r[j] == want[j]
    {
      var b := Bumped(comments[j].reactions, batch, c, j);
      forall k
        ensures r[j].reactions.Get(k) == b.Get(k)
      {
        assert Delta(byKind, k, j) == Occurrences(batch, c, k, j);
      }
      ReactionsExtensional(r[j].reactions, b);
    }
  }

  /**
   Every conversation of the batch has a document, every reacted-to comment
   exists, and no conversation id is a name every object inherits (such an id
   makes the tallying step fail).
   */
  predicate IndicesInRange(docs: map<string, Comments>, batch: seq<ReactionEvent>)
  {
    forall e :: e in batch ==>
      e.conversation in docs && e.index < |docs[e.conversation]| && e.conversation !in INHERITED_NAMES
  }

  /** A triple that some event of the batch carries names an existing comment. */
  lemma {:induction false} OccurrencesInRange(docs: map<string, Comments>, batch: seq<ReactionEvent>, c: string, k: ReactionKind, i: nat)
    requires IndicesInRange(docs, batch)
    requires Occurrences(batch, c, k, i) > 0
    ensures c in docs && i < |docs[c]|
  {
    var init := batch[..|batch| - 1];
    var last := batch[|batch| - 1];
    if last == ReactionEvent(c, k, i) {
      assert last in batch;
    } else {
      assert forall e :: e in init ==> e in batch;
      OccurrencesInRange(docs, init, c, k, i);
    }
  }

  lemma ConversationsHaveDocuments(docs: map<string, Comments>, batch: seq<ReactionEvent>)
    requires IndicesInRange(docs, batch)
    ensures forall c :: c in Ids(batch) ==> c in docs
  {
    forall c | c in Ids(batch)
      ensures c in docs
    {
      var j :| 0 <= j < |batch| && Ids(batch)[j] == c;
      assert batch[j] in batch;
    }
  }

  /**
   Adds the tally of each fetched document's conversation to it, as the merge
   does for every document of the batch before writing them back.
   */
  method ApplyTallies(fetched: map<string, Comments>, keys: seq<string>, tally: Tally, ghost batch: seq<ReactionEvent>)
    returns (updated: map<string, Comments>)
    requires forall c :: c in fetched <==> c in keys
    requires forall c :: c in keys ==> c in tally
    requires forall c, k, i :: Tallied(tally, c, k, i) == Occurrences(batch, c, k, i)
    requires forall c, k, i :: c in tally && k in tally[c] && i in tally[c][k] ==> c in fetched && i < |fetched[c]|
    ensures forall c :: c in updated <==> c in keys
    ensures forall c :: c in updated ==> updated[c] == DocApplied(fetched[c], batch, c)
  {
    updated := map[];
    var n := 0;
    while n < |keys|
      invariant 0 <= n <= |keys|
      invariant forall c :: c in updated <==> c in keys[..n]
      invariant forall c :: c in updated ==> updated[c] == DocApplied(fetched[c], batch, c)
    {
      var c := keys[n];
      var merged := ApplyTally(fetched[c], tally[c]);
      assert forall k, i :: Delta(tally[c], k, i) == Tallied(tally, c, k, i);
      TallyIsMerge(fetched[c], merged, tally[c], batch, c);
      updated := updated[c := merged];
      assert keys[..n + 1] == keys[..n] + [c];
      n := n + 1;
    }
    assert keys[..n] == keys;
  }

  /** Documents written back for the conversations of the batch, and untouched otherwise, are the merged documents. */
  lemma MergedDocuments(docs0: map<string, Comments>, docs1: map<string, Comments>, batch: seq<ReactionEvent>)
    requires docs1.Keys == docs0.Keys
    requires forall c :: c in docs1 ==> docs1[c] == if c in Ids(batch) then DocApplied(docs0[c], batch, c) else docs0[c]
    ensures docs1 == ReactionsApplied(docs0, batch)
  {
    forall c | c in docs0
      ensures docs1[c] == ReactionsApplied(docs0, batch)[c]
    {
      if c !in Ids(batch) {
        ReactionMerge(docs0, batch, c);
      }
    }
  }

  /**
   One reaction cycle. A non-empty batch is tallied, the document of every
   distinct conversation is fetched, then each is written back with its
   tallied counts added; an empty batch touches no document. Either way the
   gate is signalled once.
   */
  method ReactionCycle(store: Store, gate: Gate, batch: seq<ReactionEvent>)
    requires IndicesInRange(store.docs, batch)
    modifies store, gate
    ensures store.docs == ReactionsApplied(old(store.docs), batch)
    ensures store.log == old(store.log) + Fetches(Conversations(batch)) + Writes(Conversations(batch))
    ensures batch == [] ==> store.docs == old(store.docs) && store.log == old(store.log)
    ensures gate.signals == old(gate.signals) + 1
  {
    if |batch| > 0 {
      var keys, tally := TallyReactions(batch);
      ConversationsHaveDocuments(store.docs, batch);
      ghost var docs0 := store.docs;
      var fetched := store.GetAll(keys);
      forall c, k, i | c in tally && k in tally[c] && i in tally[c][k]
        ensures c in fetched && i < |fetched[c]|
      {
        OccurrencesInRange(docs0, batch, c, k, i);
      }
      var updated := ApplyTallies(fetched, keys, tally, batch);
      store.PutAll(keys, updated);
      MergedDocuments(docs0, store.docs, batch);
    } else {
      MergedDocuments(store.docs, store.docs, batch);
    }
    gate.Signal();
  }

  lemma {:induction false} OccurrencesConcat(a: seq<ReactionEvent>, b: seq<ReactionEvent>, c: string, k: ReactionKind, i: nat)
    ensures Occurrences(a + b, c, k, i) == Occurrences(a, c, k, i) + Occurrences(b, c, k, i)
  {
    if b != [] {
      var initB := b[..|b| - 1];
      assert (a + b)[..|a + b| - 1] == a + initB;
      OccurrencesConcat(a, initB, c, k, i);
    } else {
      assert a + b == a;
    }
  }

  /** Two successive reaction cycles have the effect of one cycle over the concatenated batch. */
  lemma ReactionCyclesCompose(docs: map<string, Comments>, b1: seq<ReactionEvent>, b2: seq<ReactionEvent>)
    ensures ReactionsApplied(ReactionsApplied(docs, b1), b2) == ReactionsApplied(docs, b1 + b2)
  {
    var once := ReactionsApplied(docs, b1);
    forall c | c in docs
      ensures ReactionsApplied(once, b2)[c] == ReactionsApplied(docs, b1 + b2)[c]
    {
      var twice := DocApplied(once[c], b2, c);
      var whole := DocApplied(docs[c], b1 + b2, c);
      forall j | 0 <= j < |docs[c]|
        ensures twice[j] == whole[j]
      {
        forall k
          ensures Occurrences(b1 + b2, c, k, j) == Occurrences(b1, c, k, j) + Occurrences(b2, c, k, j)
        {
          OccurrencesConcat(b1, b2, c, k, j);
        }
      }
    }
  }

  /**
   The worked example: comment 0 of c1 has one "lol"; two "lol" reactions on
   it bring the count to 3.
   */
  lemma TwoLolsScenario(other: Reactions)
    requires other.lol == 1
    ensures ReactionsApplied(
      map["c1" := [Entry(other, "hi", "u1")]],
      [ReactionEvent("c1", Lol, 0), ReactionEvent("c1", Lol, 0)])["c1"][0].reactions.lol == 3
  {
    var batch := [ReactionEvent("c1", Lol, 0), ReactionEvent("c1", Lol, 0)];
    assert batch[..1] == [batch[0]];
    assert batch[..1][..0] == [];
    assert Occurrences(batch, "c1", Lol, 0) == 2;
  }
}
