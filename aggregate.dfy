/**
 The shared data model of the comment materializer: the per-conversation
 aggregate documents, the document store that holds them (with a log of the
 fetches and writes issued against it), and the batch gate that a pipeline
 signals once it has finished a batch.
 */
module Aggregate {

  /** The five reaction kinds every comment entry counts. */
  datatype ReactionKind = Loveface | Lol | Smile | Sad | Angry

  /** The reaction counters of one comment entry, one per kind. */
  datatype Reactions = Reactions(loveface: nat, lol: nat, smile: nat, sad: nat, angry: nat)
  {
    function Get(k: ReactionKind): nat
    {
      match k
      case Loveface => loveface
      case Lol => lol
      case Smile => smile
      case Sad => sad
      case Angry => angry
    }

    /** The counters after `n` more reactions of kind `k`. */
    function Add(k: ReactionKind, n: nat): (r: Reactions)
      ensures r.Get(k) == Get(k) + n
      ensures forall j :: j != k ==> r.Get(j) == Get(j)
    {
      match k
      case Loveface => this.(loveface := loveface + n)
      case Lol => this.(lol := lol + n)
      case Smile => this.(smile := smile + n)
      case Sad => this.(sad := sad + n)
      case Angry => this.(angry := angry + n)
    }
  }

  /** Two reaction records that agree on every kind are the same record. */
  lemma ReactionsExtensional(a: Reactions, b: Reactions)
    requires forall k :: a.Get(k) == b.Get(k)
    ensures a == b
  {
    assert a.Get(Loveface) == b.Get(Loveface) && a.Get(Lol) == b.Get(Lol);
    assert a.Get(Smile) == b.Get(Smile) && a.Get(Sad) == b.Get(Sad) && a.Get(Angry) == b.Get(Angry);
  }

  const NO_REACTIONS := Reactions(0, 0, 0, 0, 0)

  /** One element of an aggregate document's `comments` sequence. */
  datatype Entry = Entry(reactions: Reactions, content: string, sender: string)

  /** The `comments` sequence of one aggregate document; an entry's index is its identity. */
  type Comments = seq<Entry>

  /**
   The property names every JavaScript object inherits from `Object.prototype`.
   Used as a key of a fresh `{}`, such a name already yields a function (or the
   prototype itself), so a grouping step that tests the key for presence skips
   its initialisation and then fails on the inherited value.
   */
  const INHERITED_NAMES: set<string> := {
    "constructor", "hasOwnProperty", "isPrototypeOf", "propertyIsEnumerable",
    "toString", "toLocaleString", "valueOf", "__proto__",
    "__defineGetter__", "__defineSetter__", "__lookupGetter__", "__lookupSetter__"
  }

  /** One round trip against the aggregate store. */
  datatype Access = Fetch(id: string) | Write(id: string)

  /** The fetches of the documents `ids`, in that order. */
  function Fetches(ids: seq<string>): seq<Access>
  {
    if ids == [] then [] else Fetches(ids[..|ids| - 1]) + [Fetch(ids[|ids| - 1])]
  }

  /** The writes of the documents `ids`, in that order. */
  function Writes(ids: seq<string>): seq<Access>
  {
    if ids == [] then [] else Writes(ids[..|ids| - 1]) + [Write(ids[|ids| - 1])]
  }

  /** The aggregate store: documents by conversation id, and every access made so far. */
  class Store {
    var docs: map<string, Comments>
    var log: seq<Access>

    constructor (initial: map<string, Comments>)
      ensures docs == initial && log == []
    {
      docs := initial;
      log := [];
    }

    /** Fetches the `comments` of document `id`; the document must exist. */
    method Get(id: string) returns (comments: Comments)
      requires id in docs
      modifies this`log
      ensures comments == docs[id]
      ensures log == old(log) + [Fetch(id)]
    {
      comments := docs[id];
      log := log + [Fetch(id)];
    }

    /** Writes `comments` back as the new content of document `id`. */
    method Put(id: string, comments: Comments)
      modifies this
      ensures docs == old(docs)[id := comments]
      ensures log == old(log) + [Write(id)]
    {
      docs := docs[id := comments];
      log := log + [Write(id)];
    }

    /** Fetches the documents `ids`, one after the other, as a batch does before merging. */
    method GetAll(ids: seq<string>) returns (fetched: map<string, Comments>)
      requires forall id :: id in ids ==> id in docs
      modifies this`log
      ensures forall id :: id in fetched <==> id in ids
      ensures forall id :: id in fetched ==> fetched[id] == docs[id]
      ensures log == old(log) + Fetches(ids)
    {
      fetched := map[];
      var i := 0;
      while i < |ids|
        invariant 0 <= i <= |ids|
        invariant forall id :: id in fetched <==> id in ids[..i]
        invariant forall id :: id in fetched ==> fetched[id] == docs[id]
        invariant log == old(log) + Fetches(ids[..i])
      {
        var comments := Get(ids[i]);
        fetched := fetched[ids[i] := comments];
        assert ids[..i + 1] == ids[..i] + [ids[i]];
        assert Fetches(ids[..i + 1]) == Fetches(ids[..i]) + [Fetch(ids[i])];
        i := i + 1;
      }
      assert ids[..i] == ids;
    }

    /** Writes `updated[id]` back as document `id`, for every `id` of `ids`, in that order. */
    method PutAll(ids: seq<string>, updated: map<string, Comments>)
      requires forall id :: id in ids ==> id in docs && id in updated
      modifies this
      ensures docs.Keys == old(docs).Keys
      ensures forall id :: id in docs ==> docs[id] == if id in ids then updated[id] else old(docs)[id]
      ensures log == old(log) + Writes(ids)
    {
      var i := 0;
      while i < |ids|
        invariant 0 <= i <= |ids|
        invariant docs.Keys == old(docs).Keys
        invariant forall id :: id in docs ==> docs[id] == if id in ids[..i] then updated[id] else old(docs)[id]
        invariant log == old(log) + Writes(ids[..i])
      {
        Put(ids[i], updated[ids[i]]);
        assert ids[..i + 1] == ids[..i] + [ids[i]];
        assert Writes(ids[..i + 1]) == Writes(ids[..i]) + [Write(ids[i])];
        i := i + 1;
      }
      assert ids[..i] == ids;
    }
  }

  /** The batch gate of one pipeline; `signals` counts the completion signals fired. */
  class Gate {
    var signals: nat

    constructor ()
      ensures signals == 0
    {
      signals := 0;
    }

    /** Re-arms the gate so that the next batch may be released. */
    method Signal()
      modifies this
      ensures signals == old(signals) + 1
    {
      signals := signals + 1;
    }
  }

  predicate NoDuplicates<T(==)>(s: seq<T>)
  {
    forall i, j :: 0 <= i < j < |s| ==> s[i] != s[j]
  }

  /**
   The distinct elements of `s` in order of first appearance: the keys of a
   dictionary filled by walking `s` and adding each key the first time it is seen.
   */
  function Distinct(s: seq<string>): (r: seq<string>)
    ensures NoDuplicates(r)
    ensures forall x :: x in r <==> x in s
  {
    if s == [] then []
    else
      var r0 := Distinct(s[..|s| - 1]);
      if s[|s| - 1] in r0 then r0 else r0 + [s[|s| - 1]]
  }

  /** The position of the first occurrence of `x` in `s`. */
  function FirstIndex(s: seq<string>, x: string): (n: nat)
    requires x in s
    ensures n < |s| && s[n] == x
    ensures forall k :: 0 <= k < n ==> s[k] != x
  {
    if s[0] == x then 0 else 1 + FirstIndex(s[1..], x)
  }

  /** An element that occurs in the first `m` elements of `s` first occurs at the same position in both. */
  lemma FirstIndexOfPrefix(s: seq<string>, m: nat, x: string)
    requires m <= |s| && x in s[..m]
    ensures FirstIndex(s, x) == FirstIndex(s[..m], x)
  {
    var n := FirstIndex(s[..m], x);
    assert s[n] == x;
    assert forall k :: 0 <= k < n ==> s[k] == s[..m][k];
  }

  /** The last element of `s`, absent from the rest, first occurs at the end. */
  lemma FirstIndexOfNewLast(s: seq<string>)
    requires s != [] && s[|s| - 1] !in s[..|s| - 1]
    ensures FirstIndex(s, s[|s| - 1]) == |s| - 1
  {
  }

  /**
   `Distinct` lists the elements in the order of their first arrival: an
   element listed before another first occurs in `s` before the other does.
   */
  lemma {:induction false} DistinctInArrivalOrder(s: seq<string>, i: nat, j: nat)
    requires i < j < |Distinct(s)|
    ensures FirstIndex(s, Distinct(s)[i]) < FirstIndex(s, Distinct(s)[j])
  {
    assert s != [];
    var init := s[..|s| - 1];
    var last := s[|s| - 1];
    var r0 := Distinct(init);
    assert Distinct(s) == if last in r0 then r0 else r0 + [last];
    FirstIndexOfPrefix(s, |s| - 1, r0[i]);
    if j < |r0| {
      DistinctInArrivalOrder(init, i, j);
      FirstIndexOfPrefix(s, |s| - 1, r0[j]);
    } else {
      FirstIndexOfNewLast(s);
    }
  }

}
