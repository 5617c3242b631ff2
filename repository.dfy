/** The relational view of the two stored collections. Posts and comments
    are keyed by store-assigned ids; a comment points at its post by id.
    These functions give the orders in which the store lists its rows. */
module Repository {
  import opened Wrappers
  import opened Model

  /** The ids in `keys` below `n`, ascending: the order `findAll` lists posts in. */
  function IdsBelow(keys: set<int>, n: nat): (r: seq<int>)
    ensures forall x :: x in r <==> x in keys && 0 <= x < n
    ensures forall i, j :: 0 <= i < j < |r| ==> r[i] < r[j]
  {
    if n == 0 then []
    else
      var prev := IdsBelow(keys, n - 1);
      assert forall i :: 0 <= i < |prev| ==> prev[i] in prev;
      prev + (if n - 1 in keys then [n - 1] else [])
  }

  /** The listing depends only on the keys below `n`. */
  lemma {:induction false} IdsBelowAgree(a: set<int>, b: set<int>, n: nat)
    requires forall x :: 0 <= x < n ==> (x in a <==> x in b)
    ensures IdsBelow(a, n) == IdsBelow(b, n)
  {
    if n > 0 {
      IdsBelowAgree(a, b, n - 1);
    }
  }

  /** When every key is below `n`, the listing has one entry per key. */
  lemma {:induction false} IdsBelowCount(keys: set<int>, n: nat)
    requires forall x :: x in keys ==> 0 <= x < n
    ensures |IdsBelow(keys, n)| == |keys|
  {
    if n == 0 {
      assert keys == {};
    } else {
      var rest := keys - {n - 1};
      IdsBelowCount(rest, n - 1);
      IdsBelowAgree(keys, rest, n - 1);
      if n - 1 in keys {
        assert keys == rest + {n - 1};
      } else {
        assert keys == rest;
      }
    }
  }

  /** The comments with id below `n` that reference post `postId`, ascending
      by id: the post's comment collection as the store holds it. */
  function CommentsOf(cm: map<int, Comment>, postId: int, n: nat): (r: seq<Comment>)
    ensures forall c :: c in r ==> c.blogPost == Some(postId)
  {
    if n == 0 then []
    else CommentsOf(cm, postId, n - 1)
         + (if n - 1 in cm && cm[n - 1].blogPost == Some(postId) then [cm[n - 1]] else [])
  }

  /** A comment is in a post's collection exactly when the store holds it
      under some id below `n` and it references that post. */
  lemma {:induction false} CommentsOfMembers(cm: map<int, Comment>, postId: int, n: nat, k: int)
    requires 0 <= k < n && k in cm && cm[k].blogPost == Some(postId)
    ensures cm[k] in CommentsOf(cm, postId, n)
  {
    if k < n - 1 {
      CommentsOfMembers(cm, postId, n - 1, k);
    }
  }

  /** When each comment is stored under its own id, a post's collection is
      ordered by id, that is by insertion, and every id in it is below `n`. */
  lemma {:induction false} CommentsOfOrdered(cm: map<int, Comment>, postId: int, n: nat)
    requires forall k :: k in cm ==> cm[k].id == Some(k)
    ensures forall c :: c in CommentsOf(cm, postId, n) ==> c.id.Some? && 0 <= c.id.value < n
    ensures forall i, j :: 0 <= i < j < |CommentsOf(cm, postId, n)| ==>
              CommentsOf(cm, postId, n)[i].id.value < CommentsOf(cm, postId, n)[j].id.value
  {
    if n > 0 {
      CommentsOfOrdered(cm, postId, n - 1);
      var prev := CommentsOf(cm, postId, n - 1);
      forall c | c in prev ensures c.id.Some? && 0 <= c.id.value < n - 1 {
      }
    }
  }

  /** A post's collection depends only on the comments stored below `n`. */
  lemma {:induction false} CommentsOfAgree(a: map<int, Comment>, b: map<int, Comment>, postId: int, n: nat)
    requires forall k :: 0 <= k < n ==> (k in a <==> k in b) && (k in a ==> a[k] == b[k])
    ensures CommentsOf(a, postId, n) == CommentsOf(b, postId, n)
  {
    if n > 0 {
      CommentsOfAgree(a, b, postId, n - 1);
    }
  }

  /** Saving comment `c` under the next id `n` appends it to the collection
      of the post it references, and leaves every other collection alone. */
  lemma CommentsOfAppend(cm: map<int, Comment>, postId: int, n: nat, c: Comment)
    requires forall k :: k in cm ==> k < n
    ensures CommentsOf(cm[n := c], postId, n + 1)
            == CommentsOf(cm, postId, n) + (if c.blogPost == Some(postId) then [c] else [])
  {
    CommentsOfAgree(cm[n := c], cm, postId, n);
  }

  /** A post no stored comment references has an empty collection. */
  lemma {:induction false} CommentsOfUnreferenced(cm: map<int, Comment>, postId: int, n: nat)
    requires forall k :: k in cm ==> cm[k].blogPost != Some(postId)
    ensures CommentsOf(cm, postId, n) == []
  {
    if n > 0 {
      CommentsOfUnreferenced(cm, postId, n - 1);
    }
  }

  /** The comment rows left after post `postId` is deleted together with
      every comment it owns. */
  function RemoveOwnedBy(cm: map<int, Comment>, postId: int): (r: map<int, Comment>)
    ensures forall k :: k in r <==> k in cm && cm[k].blogPost != Some(postId)
    ensures forall k :: k in r ==> r[k] == cm[k]
  {
    map k | k in cm && cm[k].blogPost != Some(postId) :: cm[k]
  }

  /** Deleting a post empties its collection and leaves every other post's
      collection as it was. */
  lemma {:induction false} CommentsOfCascade(cm: map<int, Comment>, postId: int, other: int, n: nat)
    ensures CommentsOf(RemoveOwnedBy(cm, postId), postId, n) == []
    ensures other != postId ==> CommentsOf(RemoveOwnedBy(cm, postId), other, n) == CommentsOf(cm, other, n)
  {
    CommentsOfUnreferenced(RemoveOwnedBy(cm, postId), postId, n);
    if n > 0 {
      CommentsOfCascade(cm, postId, other, n - 1);
    }
  }
}
