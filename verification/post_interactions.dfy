/** The post-list mutations of hooks/use-post-interactions.ts: reaction and
    share toggles with saturating counters, de-duplication by id, and
    replacement and removal by id. Each hook callback is a pure function from
    the previous list to the next one. */
module PostInteractions {
  import opened Models

  /** Which of a post's two toggles an update is about. */
  datatype Toggle = Reaction | Share

  /** The flag a toggle sets: `is_liked` or `is_shared`. */
  function Flag(p: PostItem, kind: Toggle): bool {
    match kind
    case Reaction => p.isLiked
    case Share => p.isShared
  }

  /** The counter a toggle moves: `reactions_count` or `shares_count`. */
  function Count(p: PostItem, kind: Toggle): int {
    match kind
    case Reaction => p.reactionsCount
    case Share => p.sharesCount
  }

  /** `p` with the toggle's flag and counter overwritten. */
  function SetToggle(p: PostItem, kind: Toggle, flag: bool, count: int): PostItem {
    match kind
    case Reaction => p.(isLiked := flag, reactionsCount := count)
    case Share => p.(isShared := flag, sharesCount := count)
  }

  /** The counter rule: one up when switched on, one down but never below 0 when switched off. */
  function StepCount(count: int, on: bool): int {
    if on then count + 1 else if count - 1 > 0 then count - 1 else 0
  }

  /** The record spread `{...post, is_liked: newState, reactions_count: ...}` and its share twin. */
  function ApplyToggle(p: PostItem, kind: Toggle, on: bool): (q: PostItem)
    ensures Flag(q, kind) == on
    ensures on ==> Count(q, kind) == Count(p, kind) + 1
    ensures !on ==> Count(q, kind) >= 0
    ensures !on && Count(p, kind) >= 1 ==> Count(q, kind) == Count(p, kind) - 1
    ensures !on && Count(p, kind) <= 0 ==> Count(q, kind) == 0
    ensures SetToggle(q, kind, Flag(p, kind), Count(p, kind)) == p
  {
    SetToggle(p, kind, on, StepCount(Count(p, kind), on))
  }

  /** `updatePostReaction` / `updatePostShare`: every post carrying `postId`
      gets the toggle applied; every other post is returned as it was. */
  function UpdateToggle(posts: seq<PostItem>, kind: Toggle, postId: int, newState: bool): (r: seq<PostItem>)
    ensures |r| == |posts|
    ensures forall i :: 0 <= i < |posts| && posts[i].id != postId ==> r[i] == posts[i]
    ensures forall i :: 0 <= i < |posts| && posts[i].id == postId ==> r[i] == ApplyToggle(posts[i], kind, newState)
    ensures forall i :: 0 <= i < |posts| && posts[i].id == postId ==>
              && Flag(r[i], kind) == newState
              && (newState ==> Count(r[i], kind) == Count(posts[i], kind) + 1)
              && (!newState ==> Count(r[i], kind) >= 0)
              && (!newState && Count(posts[i], kind) >= 1 ==> Count(r[i], kind) == Count(posts[i], kind) - 1)
              && (!newState && Count(posts[i], kind) <= 0 ==> Count(r[i], kind) == 0)
              && SetToggle(r[i], kind, Flag(posts[i], kind), Count(posts[i], kind)) == posts[i]
  {
    seq(|posts|, i requires 0 <= i < |posts| =>
      if posts[i].id == postId then ApplyToggle(posts[i], kind, on := newState) else posts[i])
  }

  /** Switching a toggle on and then off again restores every post whose
      toggle was off with a non-negative counter: the two updates are inverse. */
  lemma OnThenOffRestores(posts: seq<PostItem>, kind: Toggle, postId: int)
    requires forall i :: 0 <= i < |posts| && posts[i].id == postId ==>
               !Flag(posts[i], kind) && Count(posts[i], kind) >= 0
    ensures UpdateToggle(UpdateToggle(posts, kind, postId, true), kind, postId, false) == posts
  {
    var once := UpdateToggle(posts, kind, postId, true);
    var twice := UpdateToggle(once, kind, postId, false);
    forall i | 0 <= i < |posts|
      ensures twice[i] == posts[i]
    {
      if posts[i].id == postId {
        assert SetToggle(once[i], kind, false, Count(posts[i], kind)) == posts[i];
      }
    }
  }

  // ---------------------------------------------------------------------
  // updatePosts: de-duplication by id

  /** `posts.findIndex(p => p.id === id)`: the first position holding `id`, or -1. */
  function FindIndex(posts: seq<PostItem>, id: int): (r: int)
    ensures -1 <= r < |posts|
    ensures r >= 0 ==> posts[r].id == id
    ensures forall j :: 0 <= j < |posts| && (r == -1 || j < r) ==> posts[j].id != id
    decreases |posts|
  {
    if |posts| == 0 then -1
    else if posts[0].id == id then 0
    else
      var k := FindIndex(posts[1..], id);
      if k == -1 then -1 else k + 1
  }

  /** The ids occurring in `posts`. */
  function Ids(posts: seq<PostItem>): set<int> {
    set i | 0 <= i < |posts| :: posts[i].id
  }

  /** Appending a post adds exactly its id. */
  lemma IdsSnoc(posts: seq<PostItem>, p: PostItem)
    ensures Ids(posts + [p]) == Ids(posts) + {p.id}
  {
    var s := posts + [p];
    forall id | id in Ids(posts) ensures id in Ids(s) {
      var i :| 0 <= i < |posts| && posts[i].id == id;
      assert s[i].id == id;
    }
    assert s[|posts|].id == p.id;
  }

  /** No id occurs twice. */
  predicate DistinctIds(posts: seq<PostItem>) {
    forall i, j :: 0 <= i < j < |posts| ==> posts[i].id != posts[j].id
  }

  /** The source's filter `index === self.findIndex(p => p.id === post.id)`
      applied to the first `n` posts. */
  function KeepFirstUpTo(posts: seq<PostItem>, n: nat): seq<PostItem>
    requires n <= |posts|
  {
    if n == 0 then []
    else
      KeepFirstUpTo(posts, n - 1)
      + (if FindIndex(posts, posts[n - 1].id) == n - 1 then [posts[n - 1]] else [])
  }

  /** The list `updatePosts` stores: the source's filter over all of `posts`. */
  function KeepFirst(posts: seq<PostItem>): seq<PostItem> {
    KeepFirstUpTo(posts, |posts|)
  }

  /** A post sits at the first position of its id exactly when its id does
      not occur earlier. */
  lemma FirstIndexIffUnseen(posts: seq<PostItem>, i: nat)
    requires i < |posts|
    ensures FindIndex(posts, posts[i].id) == i <==> posts[i].id !in Ids(posts[..i])
  {
    var k := FindIndex(posts, posts[i].id);
    if posts[i].id in Ids(posts[..i]) {
      var j :| 0 <= j < i && posts[..i][j].id == posts[i].id;
      assert posts[j].id == posts[i].id;
    } else {
      forall j | 0 <= j < i ensures posts[j].id != posts[i].id {
        assert posts[..i][j].id in Ids(posts[..i]);
      }
    }
  }

  /** What the filter keeps among the first `n` posts: each kept post is the
      first occurrence of its id, kept posts appear in the order of those
      first occurrences, and every id of the prefix is kept. */
  lemma {:induction false} KeepFirstUpToFacts(posts: seq<PostItem>, n: nat)
    requires n <= |posts|
    ensures var r := KeepFirstUpTo(posts, n);
      && (forall k :: 0 <= k < |r| ==>
            0 <= FindIndex(posts, r[k].id) < n && r[k] == posts[FindIndex(posts, r[k].id)])
      && (forall a, b :: 0 <= a < b < |r| ==> FindIndex(posts, r[a].id) < FindIndex(posts, r[b].id))
      && Ids(r) == Ids(posts[..n])
  {
    if n > 0 {
      KeepFirstUpToFacts(posts, n - 1);
      var prev := KeepFirstUpTo(posts, n - 1);
      var r := KeepFirstUpTo(posts, n);
      var p := posts[n - 1];
      assert posts[..n] == posts[..n - 1] + [p];
      IdsSnoc(posts[..n - 1], p);
      if FindIndex(posts, p.id) == n - 1 {
        assert r == prev + [p];
        IdsSnoc(prev, p);
      } else {
        assert r == prev;
        FirstIndexIffUnseen(posts, n - 1);
      }
    }
  }

  /** The de-duplicated list holds each id once. */
  lemma KeepFirstDistinct(posts: seq<PostItem>)
    ensures DistinctIds(KeepFirst(posts))
  {
    KeepFirstUpToFacts(posts, |posts|);
  }

  /** Every id of the input survives, and only ids of the input. */
  lemma KeepFirstSameIds(posts: seq<PostItem>)
    ensures Ids(KeepFirst(posts)) == Ids(posts)
  {
    KeepFirstUpToFacts(posts, |posts|);
    assert posts[..|posts|] == posts;
  }

  /** Each kept post is the first occurrence of its id in the input. */
  lemma KeepFirstKeepsFirstOccurrence(posts: seq<PostItem>)
    ensures forall k :: 0 <= k < |KeepFirst(posts)| ==>
              var f := FindIndex(posts, KeepFirst(posts)[k].id);
              0 <= f < |posts| && KeepFirst(posts)[k] == posts[f]
  {
    KeepFirstUpToFacts(posts, |posts|);
  }

  /** Kept posts keep their relative input order. */
  lemma KeepFirstPreservesOrder(posts: seq<PostItem>)
    ensures forall a, b :: 0 <= a < b < |KeepFirst(posts)| ==>
              FindIndex(posts, KeepFirst(posts)[a].id) < FindIndex(posts, KeepFirst(posts)[b].id)
  {
    KeepFirstUpToFacts(posts, |posts|);
  }

  /** On a list without repeated ids the filter keeps everything. */
  lemma {:induction false} KeepFirstOfDistinct(posts: seq<PostItem>, n: nat)
    requires n <= |posts| && DistinctIds(posts)
    ensures KeepFirstUpTo(posts, n) == posts[..n]
  {
    if n > 0 {
      KeepFirstOfDistinct(posts, n - 1);
      var k := FindIndex(posts, posts[n - 1].id);
      assert k == n - 1;
      assert posts[..n] == posts[..n - 1] + [posts[n - 1]];
    }
  }

  /** Calling `updatePosts` with its own output changes nothing. */
  lemma KeepFirstIdempotent(posts: seq<PostItem>)
    ensures KeepFirst(KeepFirst(posts)) == KeepFirst(posts)
  {
    var r := KeepFirst(posts);
    KeepFirstDistinct(posts);
    KeepFirstOfDistinct(r, |r|);
    assert r[..|r|] == r;
  }

  /** `updatePosts(newPosts)`: one pass with a set of seen ids, computing
      exactly the source's first-occurrence filter. */
  method UpdatePosts(newPosts: seq<PostItem>) returns (unique: seq<PostItem>)
    ensures unique == KeepFirst(newPosts)
    ensures DistinctIds(unique)
    ensures Ids(unique) == Ids(newPosts)
  {
    var seen: set<int> := {};
    unique := [];
    var i := 0;
    while i < |newPosts|
      invariant 0 <= i <= |newPosts|
      invariant unique == KeepFirstUpTo(newPosts, i)
      invariant seen == Ids(newPosts[..i])
    {
      FirstIndexIffUnseen(newPosts, i);
      assert newPosts[..i + 1] == newPosts[..i] + [newPosts[i]];
      IdsSnoc(newPosts[..i], newPosts[i]);
      if newPosts[i].id !in seen {
        unique := unique + [newPosts[i]];
      }
      seen := seen + {newPosts[i].id};
      i := i + 1;
    }
    KeepFirstDistinct(newPosts);
    KeepFirstSameIds(newPosts);
  }

  // ---------------------------------------------------------------------
  // updatePost and removePost

  /** `updatePost(updatedPost)`: every post with the updated id becomes the
      updated post; positions and all other posts are kept. */
  function UpdatePost(posts: seq<PostItem>, updated: PostItem): (r: seq<PostItem>)
    ensures |r| == |posts|
    ensures forall i :: 0 <= i < |posts| ==> r[i] == (if posts[i].id == updated.id then updated else posts[i])
    ensures Ids(r) == Ids(posts)
  {
    seq(|posts|, i requires 0 <= i < |posts| => if posts[i].id == updated.id then updated else posts[i])
  }

  /** `removePost(postId)`: the posts without `postId`, in their order. */
  function RemovePost(posts: seq<PostItem>, postId: int): (r: seq<PostItem>)
    ensures forall p :: p in r <==> p in posts && p.id != postId
    ensures postId !in Ids(r)
    ensures postId !in Ids(posts) ==> r == posts
    decreases |posts|
  {
    if |posts| == 0 then []
    else (if posts[0].id == postId then [] else [posts[0]]) + RemovePost(posts[1..], postId)
  }

  /** Removal works piecewise: what remains of a concatenation is what
      remains of each part, in the same order. */
  lemma {:induction false} RemovePostDistributes(a: seq<PostItem>, b: seq<PostItem>, postId: int)
    ensures RemovePost(a + b, postId) == RemovePost(a, postId) + RemovePost(b, postId)
    decreases |a|
  {
    if |a| > 0 {
      assert (a + b)[1..] == a[1..] + b;
      RemovePostDistributes(a[1..], b, postId);
    } else {
      assert a + b == b;
    }
  }

  /** Replacing a post and then removing its id is the same as removing it. */
  lemma {:induction false} RemoveAfterUpdate(posts: seq<PostItem>, updated: PostItem)
    ensures RemovePost(UpdatePost(posts, updated), updated.id) == RemovePost(posts, updated.id)
    decreases |posts|
  {
    if |posts| > 0 {
      var u := UpdatePost(posts, updated);
      assert u[1..] == UpdatePost(posts[1..], updated);
      RemoveAfterUpdate(posts[1..], updated);
    }
  }

  /** Replacing with the same post twice is replacing it once. */
  lemma UpdatePostIdempotent(posts: seq<PostItem>, updated: PostItem)
    ensures UpdatePost(UpdatePost(posts, updated), updated) == UpdatePost(posts, updated)
  {
  }
}
