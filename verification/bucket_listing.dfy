/**
 * The bucket listing: for every bucket of the project, its size, its public
 * id and its tags folded from the storage client's `TagSet` into a
 * dictionary; plus the bucket count and the total size. The client calls
 * (list, size, tags) are inputs here, one entry per bucket.
 */
module BucketListing {
  import opened Wrappers
  import BucketIds

  datatype Tag = Tag(key: string, value: string)

  /** One element of the listing's `rows`; `size` is the raw byte count. */
  datatype Row = Row(name: string, size: int, id: string, tags: map<string, string>)

  datatype Listing = Listing(total: nat, totalSize: int, rows: seq<Row>)

  /** No tag after position `i` has the key of tag `i`. */
  ghost predicate LastWithKey(tags: seq<Tag>, i: int)
    requires 0 <= i < |tags|
  {
    forall j :: i < j < |tags| ==> tags[j].key != tags[i].key
  }

  /** The keys occurring in a tag list. */
  ghost function KeySet(tags: seq<Tag>): set<string>
  {
    set i | 0 <= i < |tags| :: tags[i].key
  }

  /** Every key maps to the value of its last occurrence. */
  ghost predicate LastWins(tags: seq<Tag>, m: map<string, string>)
  {
    forall i :: 0 <= i < |tags| && LastWithKey(tags, i) ==> tags[i].key in m && m[tags[i].key] == tags[i].value
  }

  /**
   * The dict comprehension over a TagSet: keys are the tags' keys and, for a
   * repeated key, the value of its last occurrence wins.
   */
  function FoldTags(tags: seq<Tag>): (m: map<string, string>)
    ensures m.Keys == KeySet(tags)
    ensures LastWins(tags, m)
    decreases |tags|
  {
    if |tags| == 0 then map[]
    else
      var init, last := tags[..|tags| - 1], tags[|tags| - 1];
      var m0 := FoldTags(init);
      FoldStep(tags, m0);
      m0[last.key := last.value]
  }

  /** One step of the fold keeps the key set and the last-occurrence property. */
  lemma FoldStep(tags: seq<Tag>, m0: map<string, string>)
    requires |tags| > 0
    requires m0.Keys == KeySet(tags[..|tags| - 1]) && LastWins(tags[..|tags| - 1], m0)
    ensures var last := tags[|tags| - 1];
            var m := m0[last.key := last.value];
            m.Keys == KeySet(tags) && LastWins(tags, m)
  {
    var init, last := tags[..|tags| - 1], tags[|tags| - 1];
    assert tags == init + [last];
    KeySetSnoc(init, last);
    LastWinsSnoc(init, last, m0);
  }

  lemma KeySetSnoc(init: seq<Tag>, last: Tag)
    ensures KeySet(init + [last]) == KeySet(init) + {last.key}
  {
    var tags := init + [last];
    forall k | k in KeySet(tags) ensures k in KeySet(init) + {last.key} {
      var i :| 0 <= i < |tags| && tags[i].key == k;
      if i < |init| {
        assert init[i] == tags[i];
      }
    }
    forall k | k in KeySet(init) + {last.key} ensures k in KeySet(tags) {
      if k != last.key {
        var i :| 0 <= i < |init| && init[i].key == k;
        assert tags[i] == init[i];
      } else {
        assert tags[|init|] == last;
      }
    }
  }

  lemma LastWinsSnoc(init: seq<Tag>, last: Tag, m0: map<string, string>)
    requires LastWins(init, m0)
    ensures LastWins(init + [last], m0[last.key := last.value])
  {
    var tags := init + [last];
    var m := m0[last.key := last.value];
    forall i | 0 <= i < |tags| && LastWithKey(tags, i) ensures tags[i].key in m && m[tags[i].key] == tags[i].value {
      if i < |init| {
        assert tags[i] == init[i] && tags[|init|] == last;
        forall j | i < j < |init| ensures init[j].key != init[i].key {
          assert tags[j] == init[j];
        }
        assert LastWithKey(init, i);
      } else {
        assert tags[i] == last;
      }
    }
  }

  /** Folding a concatenation is the second fold overriding the first. */
  lemma {:induction false} FoldTagsAppend(a: seq<Tag>, b: seq<Tag>)
    ensures FoldTags(a + b) == FoldTags(a) + FoldTags(b)
    decreases |b|
  {
    if |b| == 0 {
      assert a + b == a;
    } else {
      var b', last := b[..|b| - 1], b[|b| - 1];
      assert (a + b)[..|a + b| - 1] == a + b' && (a + b)[|a + b| - 1] == last;
      assert FoldTags(a + b) == FoldTags(a + b')[last.key := last.value];
      assert FoldTags(b) == FoldTags(b')[last.key := last.value];
      FoldTagsAppend(a, b');
      UnionUpdate(FoldTags(a), FoldTags(b'), last.key, last.value);
    }
  }

  lemma UnionUpdate(m1: map<string, string>, m2: map<string, string>, k: string, v: string)
    ensures (m1 + m2)[k := v] == m1 + m2[k := v]
  {
  }

  /** `{…} if response else {}`: a falsy tag response (None or empty) gives no tags. */
  function BucketTags(response: Option<seq<Tag>>): (m: map<string, string>)
    ensures response.None? ==> m == map[]
    ensures response.Some? ==> m.Keys == KeySet(response.value) && LastWins(response.value, m)
  {
    if response.Some? then FoldTags(response.value) else map[]
  }

  ghost function Sum(xs: seq<int>): int
  {
    if |xs| == 0 then 0 else Sum(xs[..|xs| - 1]) + xs[|xs| - 1]
  }

  lemma SumPrefixStep(xs: seq<int>, k: nat)
    requires k < |xs|
    ensures Sum(xs[..k + 1]) == Sum(xs[..k]) + xs[k]
  {
    assert xs[..k + 1][..k] == xs[..k];
  }

  /** The row the listing shows for one bucket. */
  function BucketRow(projectId: nat, bucket: string, size: int, response: Option<seq<Tag>>): Row
  {
    Row(bucket, size, BucketIds.BucketId(projectId, bucket), BucketTags(response))
  }

  /**
   * The `get` handler's loop. `sizes[k]` and `tagResponses[k]` are what the
   * storage client reports for `buckets[k]`.
   */
  method ListBuckets(projectId: nat, buckets: seq<string>, sizes: seq<int>, tagResponses: seq<Option<seq<Tag>>>)
    returns (listing: Listing)
    requires |sizes| == |buckets| && |tagResponses| == |buckets|
    ensures listing.total == |buckets|
    ensures listing.totalSize == Sum(sizes)
    ensures |listing.rows| == |buckets|
    ensures forall k :: 0 <= k < |buckets| ==>
              listing.rows[k] == Row(buckets[k], sizes[k], BucketIds.BucketId(projectId, buckets[k]), BucketTags(tagResponses[k]))
  {
    var rows: seq<Row> := [];
    var totalSize := 0;
    var k := 0;
    while k < |buckets|
      invariant 0 <= k <= |buckets|
      invariant |rows| == k
      invariant totalSize == Sum(sizes[..k])
      invariant forall j :: 0 <= j < k ==> rows[j] == BucketRow(projectId, buckets[j], sizes[j], tagResponses[j])
    {
      SumPrefixStep(sizes, k);
      totalSize := totalSize + sizes[k];
      rows := rows + [BucketRow(projectId, buckets[k], sizes[k], tagResponses[k])];
      k := k + 1;
    }
    assert sizes[..k] == sizes;
    listing := Listing(|buckets|, totalSize, rows);
  }

  lemma FoldTagsExample()
    ensures FoldTags([Tag("env", "dev"), Tag("team", "qa"), Tag("env", "prod")]) == map["env" := "prod", "team" := "qa"]
  {
  }
}
