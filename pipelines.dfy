/**
 How the two pipelines meet on the shared aggregate store. Each pipeline has
 its own gate, so comment cycles and reaction cycles interleave freely; these
 lemmas state what that interleaving preserves when every cycle's
 fetch-merge-write takes effect as one step.
 */
module Pipelines {
  import opened Aggregate
  import CommentPipeline
  import ReactionPipeline

  /**
   A comment cycle only appends, so a reaction batch whose comments all exist
   still names existing comments after it.
   */
  lemma CommentsKeepReactionTargets(
    docs: map<string, Comments>, comments: seq<CommentPipeline.CommentEvent>, reactions: seq<ReactionPipeline.ReactionEvent>)
    requires ReactionPipeline.IndicesInRange(docs, reactions)
    ensures ReactionPipeline.IndicesInRange(CommentPipeline.CommentsApplied(docs, comments), reactions)
  {
    forall e | e in reactions
      ensures e.conversation in CommentPipeline.CommentsApplied(docs, comments)
      ensures e.index < |CommentPipeline.CommentsApplied(docs, comments)[e.conversation]|
    {
      CommentPipeline.MergeAppendsOnly(docs, comments, e.conversation);
    }
  }

  /**
   When every reaction of a batch names a comment that already exists, the
   order in which a comment cycle and a reaction cycle reach the store does
   not matter: both orders give the same documents.
   */
  lemma CyclesCommute(
    docs: map<string, Comments>, comments: seq<CommentPipeline.CommentEvent>, reactions: seq<ReactionPipeline.ReactionEvent>)
    requires ReactionPipeline.IndicesInRange(docs, reactions)
    ensures ReactionPipeline.ReactionsApplied(CommentPipeline.CommentsApplied(docs, comments), reactions)
      == CommentPipeline.CommentsApplied(ReactionPipeline.ReactionsApplied(docs, reactions), comments)
  {
    var commentsFirst := ReactionPipeline.ReactionsApplied(CommentPipeline.CommentsApplied(docs, comments), reactions);
    var reactionsFirst := CommentPipeline.CommentsApplied(ReactionPipeline.ReactionsApplied(docs, reactions), comments);
    forall c | c in docs
      ensures commentsFirst[c] == reactionsFirst[c]
    {
      var added := CommentPipeline.EntriesFor(comments, c);
      var n := |docs[c]|;
      var lhs := ReactionPipeline.DocApplied(docs[c] + added, reactions, c);
      var rhs := ReactionPipeline.DocApplied(docs[c], reactions, c) + added;
      assert |lhs| == |rhs|;
      forall j | 0 <= j < |lhs|
        ensures lhs[j] == rhs[j]
      {
        if j >= n {
          forall k
            ensures ReactionPipeline.Occurrences(reactions, c, k, j) == 0
          {
            if ReactionPipeline.Occurrences(reactions, c, k, j) > 0 {
              ReactionPipeline.OccurrencesInRange(docs, reactions, c, k, j);
            }
          }
          assert lhs[j] == added[j - n].(reactions := ReactionPipeline.Bumped(added[j - n].reactions, reactions, c, j));
        }
      }
      assert commentsFirst[c] == lhs;
    }
  }
}
