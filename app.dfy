/** The post-list page: the tag cloud built by `renderTags` (tag counts, sorted by
    count), the mapping from a tag button to the tag filter, and the excerpt line. */
module App {
  import opened Text
  import opened Search

  /** Every tag of every post, post after post, each post's tags in their order. */
  function AllTags(posts: seq<Post>): seq<string>
    decreases |posts|
  {
    if posts == [] then [] else AllTags(posts[..|posts| - 1]) + posts[|posts| - 1].tags
  }

  /** Number of times `t` occurs in `s`. */
  function Occurrences(s: seq<string>, t: string): nat
    decreases |s|
  {
    if s == [] then 0 else Occurrences(s[..|s| - 1], t) + (if s[|s| - 1] == t then 1 else 0)
  }

  predicate Distinct(s: seq<string>) {
    forall i, j :: 0 <= i < j < |s| ==> s[i] != s[j]
  }

  /** Each string of `s` once, in the order it is first met: the insertion order that
      `Object.keys(tagCounts)` reports. */
  function FirstSeen(s: seq<string>): (r: seq<string>)
    ensures forall t :: t in r <==> t in s
    ensures Distinct(r)
    decreases |s|
  {
    if s == [] then []
    else
      var d := FirstSeen(s[..|s| - 1]);
      assert forall t :: t in s <==> t in s[..|s| - 1] || t == s[|s| - 1];
      if s[|s| - 1] in d then d else d + [s[|s| - 1]]
  }

  /** `tagCounts[t]`, where an absent key counts 0. */
  function CountOf(counts: map<string, nat>, t: string): nat {
    if t in counts then counts[t] else 0
  }

  lemma AllTagsStep(posts: seq<Post>, i: nat)
    requires i < |posts|
    ensures AllTags(posts[..i + 1]) == AllTags(posts[..i]) + posts[i].tags
  {
    assert posts[..i + 1][..i] == posts[..i];
  }

  /** What one more tag does to the first-met order and to the occurrence counts. */
  lemma SeenStep(seen: seq<string>, tag: string, t: string)
    ensures FirstSeen(seen + [tag]) == if tag in seen then FirstSeen(seen) else FirstSeen(seen) + [tag]
    ensures Occurrences(seen + [tag], t) == Occurrences(seen, t) + (if t == tag then 1 else 0)
    ensures t in seen + [tag] <==> t in seen || t == tag
  {
    assert (seen + [tag])[..|seen|] == seen;
  }

  /** The counting loops of `renderTags`: one increment per occurrence of a tag, so a tag
      listed twice by one post counts twice. `keys` is the order in which the keys were
      created. */
  method CountTags(posts: seq<Post>) returns (tagCounts: map<string, nat>, keys: seq<string>)
    ensures keys == FirstSeen(AllTags(posts))
    ensures forall t :: t in tagCounts <==> t in AllTags(posts)
    ensures forall t :: t in tagCounts ==> tagCounts[t] == Occurrences(AllTags(posts), t)
    ensures SumOf(keys, tagCounts) == TagTotal(posts)
  {
    tagCounts := map[];
    keys := [];
    var i := 0;
    while i < |posts|
      invariant 0 <= i <= |posts|
      invariant (tagCounts, keys) == TallyAll(AllTags(posts[..i]))
    {
      tagCounts, keys := CountPostTags(tagCounts, keys, AllTags(posts[..i]), posts[i].tags);
      AllTagsStep(posts, i);
      i := i + 1;
    }
    assert posts[..i] == posts;
    TallyAllCounted(AllTags(posts));
    CountedAll(tagCounts, keys, posts);
  }

  /** The inner loop: one increment of `tagCounts[tag]` for each tag of one post, and a
      new key for a tag not met before. */
  method CountPostTags(tagCounts: map<string, nat>, keys: seq<string>, ghost seen: seq<string>, tags: seq<string>)
    returns (tagCounts': map<string, nat>, keys': seq<string>)
    requires (tagCounts, keys) == TallyAll(seen)
    ensures (tagCounts', keys') == TallyAll(seen + tags)
  {
    tagCounts', keys' := tagCounts, keys;
    ghost var now := seen;
    var j := 0;
    while j < |tags|
      invariant 0 <= j <= |tags|
      invariant now == seen + tags[..j]
      invariant (tagCounts', keys') == TallyAll(now)
    {
      var tag := tags[j];
      TallyAllStep(now, tag);
      if tag !in tagCounts' {
        keys' := keys' + [tag];
      }
      tagCounts' := tagCounts'[tag := CountOf(tagCounts', tag) + 1];
      now := now + [tag];
      assert seen + tags[..j + 1] == seen + tags[..j] + [tag];
      j := j + 1;
    }
    assert tags[..j] == tags;
  }

  /** One pass of the loop body, `tagCounts[tag] = (tagCounts[tag] || 0) + 1`, with the
      key recorded when it is new. */
  function Tally(state: (map<string, nat>, seq<string>), tag: string): (map<string, nat>, seq<string>) {
    (state.0[tag := CountOf(state.0, tag) + 1], if tag in state.0 then state.1 else state.1 + [tag])
  }

  /** The counts and the key order after the loop body has run for each of `s` in turn. */
  function TallyAll(s: seq<string>): (map<string, nat>, seq<string>)
    decreases |s|
  {
    if s == [] then (map[], []) else Tally(TallyAll(s[..|s| - 1]), s[|s| - 1])
  }

  lemma TallyAllStep(s: seq<string>, tag: string)
    ensures TallyAll(s + [tag]) == Tally(TallyAll(s), tag)
  {
    assert (s + [tag])[..|s|] == s;
  }

  /** Tallying gives every tag its number of occurrences, and the keys in first-met order. */
  lemma {:induction false} TallyAllCounted(s: seq<string>)
    ensures Counted(TallyAll(s).0, TallyAll(s).1, s)
    decreases |s|
  {
    if s != [] {
      var init := s[..|s| - 1];
      var tag := s[|s| - 1];
      var st := TallyAll(init);
      TallyAllCounted(init);
      CountedStep(st.0, st.1, init, tag);
      assert s == init + [tag];
      assert TallyAll(s) == Tally(st, tag);
    }
  }

  /** A count of all the tags of `posts` has the properties `CountTags` promises. */
  lemma CountedAll(tagCounts: map<string, nat>, keys: seq<string>, posts: seq<Post>)
    requires Counted(tagCounts, keys, AllTags(posts))
    ensures keys == FirstSeen(AllTags(posts))
    ensures forall t :: t in tagCounts <==> t in AllTags(posts)
    ensures forall t :: t in tagCounts ==> tagCounts[t] == Occurrences(AllTags(posts), t)
    ensures SumOf(keys, tagCounts) == TagTotal(posts)
  {
    CountedSum(tagCounts, keys, AllTags(posts));
    AllTagsLength(posts);
  }

  /** One increment keeps the counts and the key order in step with the tags seen. */
  lemma CountedStep(tagCounts: map<string, nat>, keys: seq<string>, seen: seq<string>, tag: string)
    requires Counted(tagCounts, keys, seen)
    ensures Counted(tagCounts[tag := CountOf(tagCounts, tag) + 1],
                    if tag in tagCounts then keys else keys + [tag], seen + [tag])
  {
    var counts' := tagCounts[tag := CountOf(tagCounts, tag) + 1];
    var seen' := seen + [tag];
    SeenStep(seen, tag, tag);
    forall t
      ensures t in counts' <==> t in seen'
      ensures t in counts' ==> counts'[t] == Occurrences(seen', t)
    {
      SeenStep(seen, tag, t);
      if t == tag && tag !in seen {
        OccurrencesAbsent(seen, tag);
      }
    }
  }

  /** `tagCounts` and `keys` after the loop has seen the tags `seen`. */
  ghost predicate Counted(tagCounts: map<string, nat>, keys: seq<string>, seen: seq<string>) {
    && keys == FirstSeen(seen)
    && (forall t :: t in tagCounts <==> t in seen)
    && (forall t :: t in tagCounts ==> tagCounts[t] == Occurrences(seen, t))
  }

  /** The number of tags the posts list altogether. */
  function TagTotal(posts: seq<Post>): nat
    decreases |posts|
  {
    if posts == [] then 0 else TagTotal(posts[..|posts| - 1]) + |posts[|posts| - 1].tags|
  }

  lemma {:induction false} AllTagsLength(posts: seq<Post>)
    ensures |AllTags(posts)| == TagTotal(posts)
    decreases |posts|
  {
    if posts != [] {
      AllTagsLength(posts[..|posts| - 1]);
    }
  }

  /** The sum of `tagCounts[k]` over the keys `keys`. */
  function SumOf(keys: seq<string>, counts: map<string, nat>): nat
    decreases |keys|
  {
    if keys == [] then 0 else SumOf(keys[..|keys| - 1], counts) + CountOf(counts, keys[|keys| - 1])
  }

  /** Counts that agree with the occurrences add up to the number of tags seen. */
  lemma CountedSum(tagCounts: map<string, nat>, keys: seq<string>, seen: seq<string>)
    requires Counted(tagCounts, keys, seen)
    ensures SumOf(keys, tagCounts) == |seen|
  {
    SumAgrees(keys, tagCounts, seen);
    CountsAddUp(seen);
  }

  lemma {:induction false} SumAgrees(keys: seq<string>, counts: map<string, nat>, s: seq<string>)
    requires forall t :: t in keys ==> t in counts && counts[t] == Occurrences(s, t)
    ensures SumOf(keys, counts) == SumOccurrences(keys, s)
    decreases |keys|
  {
    if keys != [] {
      var init := keys[..|keys| - 1];
      assert forall t :: t in init ==> t in keys;
      SumAgrees(init, counts, s);
      assert keys[|keys| - 1] in keys;
    }
  }

  /** The sum of the counts of the distinct strings `d` in `s`. */
  function SumOccurrences(d: seq<string>, s: seq<string>): nat
    decreases |d|
  {
    if d == [] then 0 else SumOccurrences(d[..|d| - 1], s) + Occurrences(s, d[|d| - 1])
  }

  lemma {:induction false} OccurrencesAbsent(s: seq<string>, t: string)
    requires t !in s
    ensures Occurrences(s, t) == 0
    decreases |s|
  {
    if s != [] {
      OccurrencesAbsent(s[..|s| - 1], t);
    }
  }

  lemma {:induction false} SumOccurrencesStep(d: seq<string>, s: seq<string>, x: string)
    requires Distinct(d)
    ensures SumOccurrences(d, s + [x]) == SumOccurrences(d, s) + (if x in d then 1 else 0)
    decreases |d|
  {
    if d != [] {
      var init := d[..|d| - 1];
      assert (s + [x])[..|s|] == s;
      SumOccurrencesStep(init, s, x);
      assert x in d <==> x in init || x == d[|d| - 1];
    }
  }

  /** The counts of all keys add up to the total number of tag occurrences. */
  lemma {:induction false} CountsAddUp(s: seq<string>)
    ensures SumOccurrences(FirstSeen(s), s) == |s|
    decreases |s|
  {
    if s != [] {
      var init := s[..|s| - 1];
      var x := s[|s| - 1];
      var d := FirstSeen(init);
      CountsAddUp(init);
      assert s == init + [x];
      SumOccurrencesStep(d, init, x);
      if x !in d {
        OccurrencesAbsent(init, x);
        assert (d + [x])[..|d|] == d;
      }
    }
  }

  /** `a` (first met at `pa`) sorts before `b` (first met at `pb`): the larger count
      first, equal counts in the order they were first met. */
  predicate Before(counts: map<string, nat>, a: string, pa: nat, b: string, pb: nat) {
    CountOf(counts, a) > CountOf(counts, b) || (CountOf(counts, a) == CountOf(counts, b) && pa < pb)
  }

  lemma BeforeTransitive(counts: map<string, nat>, a: string, pa: nat, b: string, pb: nat, c: string, pc: nat)
    requires Before(counts, a, pa, b, pb) && Before(counts, b, pb, c, pc)
    ensures Before(counts, a, pa, c, pc)
  {
  }

  /** `s` is `orig` rearranged: `perm[k]` is the position in `orig` that `s[k]` came
      from, and no two positions came from the same one. */
  ghost predicate Rearranged(s: seq<string>, orig: seq<string>, perm: seq<nat>) {
    && |perm| == |s| == |orig|
    && (forall k :: 0 <= k < |s| ==> perm[k] < |orig| && s[k] == orig[perm[k]])
    && (forall k, l :: 0 <= k < l < |s| ==> perm[k] != perm[l])
  }

  /** `s[..hi]` is in sort order: descending counts, ties by original position. */
  ghost predicate SortedPrefix(counts: map<string, nat>, s: seq<string>, perm: seq<nat>, hi: nat)
    requires hi <= |s| && hi <= |perm|
  {
    forall k, l :: 0 <= k < l < hi ==> Before(counts, s[k], perm[k], s[l], perm[l])
  }

  lemma SwapRearranged(s: seq<string>, orig: seq<string>, perm: seq<nat>, j: nat)
    requires Rearranged(s, orig, perm) && 0 < j < |s|
    ensures Rearranged(s[j - 1 := s[j]][j := s[j - 1]], orig, perm[j - 1 := perm[j]][j := perm[j - 1]])
  {
  }

  /** Partway through inserting the element that started at position `i`: it now sits
      at `j`, around it the first `i + 1` positions are in sort order, and everything it
      has passed has a smaller count. */
  ghost predicate Inserting(counts: map<string, nat>, s: seq<string>, orig: seq<string>, perm: seq<nat>, i: nat, j: nat) {
    && j <= i < |s|
    && Rearranged(s, orig, perm)
    && perm[j] == i
    && (forall k :: 0 <= k <= i && k != j ==> perm[k] < i)
    && (forall k, l :: 0 <= k < l <= i && k != j && l != j ==> Before(counts, s[k], perm[k], s[l], perm[l]))
    && (forall l :: j < l <= i ==> CountOf(counts, s[j]) > CountOf(counts, s[l]))
  }

  lemma InsertingStart(counts: map<string, nat>, s: seq<string>, orig: seq<string>, perm: seq<nat>, i: nat)
    requires i < |s| && Rearranged(s, orig, perm) && SortedPrefix(counts, s, perm, i)
    requires (forall k :: 0 <= k < i ==> perm[k] < i) && perm[i] == i
    ensures Inserting(counts, s, orig, perm, i, i)
  {
  }

  lemma InsertingSwap(counts: map<string, nat>, s: seq<string>, orig: seq<string>, perm: seq<nat>, i: nat, j: nat)
    requires Inserting(counts, s, orig, perm, i, j)
    requires 0 < j && CountOf(counts, s[j - 1]) < CountOf(counts, s[j])
    ensures Inserting(counts, s[j - 1 := s[j]][j := s[j - 1]], orig, perm[j - 1 := perm[j]][j := perm[j - 1]], i, j - 1)
  {
    SwapRearranged(s, orig, perm, j);
  }

  lemma InsertingDone(counts: map<string, nat>, s: seq<string>, orig: seq<string>, perm: seq<nat>, i: nat, j: nat)
    requires Inserting(counts, s, orig, perm, i, j)
    requires j == 0 || CountOf(counts, s[j - 1]) >= CountOf(counts, s[j])
    ensures SortedPrefix(counts, s, perm, i + 1)
    ensures forall k :: 0 <= k <= i ==> perm[k] <= i
  {
    forall k, l | 0 <= k < l <= i
      ensures Before(counts, s[k], perm[k], s[l], perm[l])
    {
      if l == j && k < j - 1 {
        BeforeTransitive(counts, s[k], perm[k], s[j - 1], perm[j - 1], s[j], perm[j]);
      }
    }
  }

  lemma SwapMultiset(s: seq<string>, j: nat)
    requires 0 < j < |s|
    ensures multiset(s[j - 1 := s[j]][j := s[j - 1]]) == multiset(s)
  {
  }

  /** One pass of insertion: moves `a[i]` down past every element with a smaller count,
      and stops at the first one whose count is at least as large, so that ties stay in
      their original order. */
  method Insert(a: array<string>, counts: map<string, nat>, i: nat, ghost orig: seq<string>, ghost perm: seq<nat>)
    returns (ghost perm': seq<nat>)
    modifies a
    requires i < a.Length
    requires Rearranged(a[..], orig, perm)
    requires SortedPrefix(counts, a[..], perm, i)
    requires forall k :: 0 <= k < i ==> perm[k] < i
    requires perm[i] == i
    ensures Rearranged(a[..], orig, perm')
    ensures SortedPrefix(counts, a[..], perm', i + 1)
    ensures forall k :: 0 <= k <= i ==> perm'[k] <= i
    ensures a[i + 1..] == old(a[i + 1..]) && perm'[i + 1..] == perm[i + 1..]
    ensures multiset(a[..]) == multiset(old(a[..]))
  {
    perm' := perm;
    var j: nat := i;
    InsertingStart(counts, a[..], orig, perm, i);
    while j > 0 && CountOf(counts, a[j - 1]) < CountOf(counts, a[j])
      invariant Inserting(counts, a[..], orig, perm', i, j)
      invariant a[i + 1..] == old(a[i + 1..]) && perm'[i + 1..] == perm[i + 1..]
      invariant multiset(a[..]) == multiset(old(a[..]))
    {
      ghost var s := a[..];
      InsertingSwap(counts, s, orig, perm', i, j);
      SwapMultiset(s, j);
      a[j - 1], a[j] := a[j], a[j - 1];
      assert a[..] == s[j - 1 := s[j]][j := s[j - 1]];
      perm' := perm'[j - 1 := perm'[j]][j := perm'[j - 1]];
      j := j - 1;
    }
    InsertingDone(counts, a[..], orig, perm', i, j);
  }

  /** `keys.sort((a, b) => tagCounts[b] - tagCounts[a])`, in place and stable. The ghost
      `perm` says where each element came from: the result is a rearrangement of the
      input, by descending count, and equal counts keep their original order. */
  method SortByCount(a: array<string>, counts: map<string, nat>) returns (ghost perm: seq<nat>)
    modifies a
    ensures Rearranged(a[..], old(a[..]), perm)
    ensures SortedPrefix(counts, a[..], perm, a.Length)
    ensures multiset(a[..]) == multiset(old(a[..]))
  {
    ghost var orig := a[..];
    perm := seq(a.Length, k requires 0 <= k < a.Length => k);
    var i := 0;
    while i < a.Length
      invariant 0 <= i <= a.Length
      invariant Rearranged(a[..], orig, perm)
      invariant SortedPrefix(counts, a[..], perm, i)
      invariant forall k :: 0 <= k < i ==> perm[k] < i
      invariant forall k :: i <= k < a.Length ==> perm[k] == k
      invariant multiset(a[..]) == multiset(orig)
    {
      perm := Insert(a, counts, i, orig, perm);
      i := i + 1;
    }
  }

  /** The position of `t` in `s`. */
  function IndexIn(s: seq<string>, t: string): (r: nat)
    requires t in s
    ensures r < |s| && s[r] == t && t !in s[..r]
    decreases |s|
  {
    if s[0] == t then 0
    else
      var k := IndexIn(s[1..], t);
      assert s[1..][..k] == s[1..k + 1];
      k + 1
  }

  lemma {:induction false} AllTagsEmpty(posts: seq<Post>)
    ensures AllTags(posts) == [] <==> forall p :: p in posts ==> p.tags == []
    decreases |posts|
  {
    if posts != [] {
      var init := posts[..|posts| - 1];
      AllTagsEmpty(init);
      assert forall p :: p in posts <==> p in init || p == posts[|posts| - 1];
    }
  }

  /** The tag section of `renderTags`: the counts, and the keys by descending count with
      ties in first-met order. The list is empty, and the tag container hidden, exactly
      when no post has a tag. */
  method SortedTags(posts: seq<Post>) returns (tagCounts: map<string, nat>, sortedTags: seq<string>)
    ensures forall t :: t in tagCounts <==> t in AllTags(posts)
    ensures forall t :: t in tagCounts ==> tagCounts[t] == Occurrences(AllTags(posts), t)
    ensures multiset(sortedTags) == multiset(FirstSeen(AllTags(posts)))
    ensures forall t :: t in sortedTags <==> t in tagCounts
    ensures forall k, l :: 0 <= k < l < |sortedTags| ==> CountOf(tagCounts, sortedTags[k]) >= CountOf(tagCounts, sortedTags[l])
    ensures forall k, l :: (0 <= k < l < |sortedTags| && CountOf(tagCounts, sortedTags[k]) == CountOf(tagCounts, sortedTags[l]))
                ==> (IndexIn(AllTags(posts), sortedTags[k]) < IndexIn(AllTags(posts), sortedTags[l]))
    ensures sortedTags == [] <==> forall p :: p in posts ==> p.tags == []
  {
    var keys;
    tagCounts, keys := CountTags(posts);
    var a := new string[|keys|](i requires 0 <= i < |keys| => keys[i]);
    assert a[..] == keys;
    ghost var perm := SortByCount(a, tagCounts);
    sortedTags := a[..];
    TagCloud(posts, tagCounts, keys, sortedTags, perm);
  }

  /** What counting and then sorting give together. */
  lemma TagCloud(posts: seq<Post>, tagCounts: map<string, nat>, keys: seq<string>, sorted: seq<string>, perm: seq<nat>)
    requires keys == FirstSeen(AllTags(posts))
    requires forall t :: t in tagCounts <==> t in AllTags(posts)
    requires Rearranged(sorted, keys, perm)
    requires SortedPrefix(tagCounts, sorted, perm, |sorted|)
    requires multiset(sorted) == multiset(keys)
    ensures forall t :: t in sorted <==> t in tagCounts
    ensures forall k, l :: 0 <= k < l < |sorted| ==> CountOf(tagCounts, sorted[k]) >= CountOf(tagCounts, sorted[l])
    ensures forall k, l :: (0 <= k < l < |sorted| && CountOf(tagCounts, sorted[k]) == CountOf(tagCounts, sorted[l]))
                ==> (IndexIn(AllTags(posts), sorted[k]) < IndexIn(AllTags(posts), sorted[l]))
    ensures sorted == [] <==> forall p :: p in posts ==> p.tags == []
  {
    SortedOrder(tagCounts, AllTags(posts), sorted, perm);
    SameMembers(sorted, keys);
    AllTagsEmpty(posts);
  }

  lemma SameMembers(s: seq<string>, t: seq<string>)
    requires multiset(s) == multiset(t)
    ensures forall x :: x in s <==> x in t
    ensures s == [] <==> t == []
  {
    assert forall x :: x in s <==> x in multiset(s);
    assert forall x :: x in t <==> x in multiset(t);
    assert |s| == |multiset(s)|;
    assert |t| == |multiset(t)|;
  }

  /** The sorted keys run by descending count, and equal counts in the order the tags
      were first met. */
  lemma SortedOrder(counts: map<string, nat>, s: seq<string>, sorted: seq<string>, perm: seq<nat>)
    requires Rearranged(sorted, FirstSeen(s), perm)
    requires SortedPrefix(counts, sorted, perm, |sorted|)
    ensures forall k, l :: 0 <= k < l < |sorted| ==> CountOf(counts, sorted[k]) >= CountOf(counts, sorted[l])
    ensures forall k, l :: (0 <= k < l < |sorted| && CountOf(counts, sorted[k]) == CountOf(counts, sorted[l]))
                ==> (IndexIn(s, sorted[k]) < IndexIn(s, sorted[l]))
  {
    forall k, l | 0 <= k < l < |sorted| && CountOf(counts, sorted[k]) == CountOf(counts, sorted[l])
      ensures IndexIn(s, sorted[k]) < IndexIn(s, sorted[l])
    {
      assert Before(counts, sorted[k], perm[k], sorted[l], perm[l]);
      FirstSeenOrder(s, perm[k], perm[l]);
    }
  }

  /** Strings earlier in the first-met order are first met earlier. */
  lemma {:induction false} FirstSeenOrder(s: seq<string>, p: nat, q: nat)
    requires p < q < |FirstSeen(s)|
    ensures IndexIn(s, FirstSeen(s)[p]) < IndexIn(s, FirstSeen(s)[q])
    decreases |s|
  {
    var init := s[..|s| - 1];
    var d := FirstSeen(init);
    var x := FirstSeen(s)[p];
    var y := FirstSeen(s)[q];
    IndexInPrefix(s, init, x);
    if q < |d| {
      FirstSeenOrder(init, p, q);
      IndexInPrefix(s, init, y);
    } else {
      assert y == s[|s| - 1] && y !in init;
      assert s[..|s| - 1] == init;
    }
  }

  lemma IndexInPrefix(s: seq<string>, init: seq<string>, t: string)
    requires s != [] && init == s[..|s| - 1]
    requires t in FirstSeen(s) && (t in init || t in FirstSeen(init))
    ensures t in init && IndexIn(s, t) == IndexIn(init, t) < |init|
  {
    var i := IndexIn(init, t);
    assert s[..i] == init[..i];
  }

  /** `e.target.dataset.tag || null`: the "all" button (an empty tag) switches the tag
      filter off; every other button filters by its tag. */
  function TagFilterOf(dataTag: string): (r: Option<string>)
    ensures r.None? <==> dataTag == ""
    ensures r.Some? ==> r.value == dataTag
    ensures TagFilterOn(r) <==> dataTag != ""
  {
    if dataTag == "" then None else Some(dataTag)
  }

  /** Clicking the "all" button shows every post (before any search). */
  lemma AllButtonShowsEverything(posts: seq<Post>)
    ensures Filter(posts, TagFilterOf(""), "") == posts
  {
    FilterPassThrough(posts, TagFilterOf(""));
  }

  lemma {:induction false} AllTagsMember(posts: seq<Post>, t: string)
    requires t in AllTags(posts)
    ensures exists p :: p in posts && t in p.tags
    decreases |posts|
  {
    var init := posts[..|posts| - 1];
    if t in AllTags(init) {
      AllTagsMember(init, t);
      var p :| p in init && t in p.tags;
      assert p in posts;
    } else {
      assert posts[|posts| - 1] in posts;
    }
  }

  /** Clicking any button of the tag cloud shows at least one post (before any search),
      when the button's `data-tag` reads back as its tag: with `"` escaped in the
      attribute as well, which the escaping as written does not do. */
  lemma TagButtonShowsSomething(posts: seq<Post>, t: string)
    requires t in AllTags(posts)
    ensures Filter(posts, TagFilterOf(t), "") != []
  {
    AllTagsMember(posts, t);
    var p :| p in posts && t in p.tags;
    FilterMembership(posts, TagFilterOf(t), "", p);
  }

  /** The `data-tag` value a browser reads back from `data-tag="${escapeHtml(tag)}"`.
      The escaping writes `&`, `<` and `>` as entities, which the attribute decodes
      again, but leaves `"` as it is, so the quoted value ends at the tag's first `"`. */
  function DataTagAsWritten(tag: string): (r: string)
    ensures r <= tag
    ensures '"' !in r
    ensures '"' !in tag ==> r == tag
    ensures '"' in tag ==> |r| < |tag| && tag[|r|] == '"'
  {
    var i := IndexOf(tag, '"');
    if i < 0 then tag else tag[..i]
  }

  /** As written, a tag without `"` gives a button that shows at least one post. */
  lemma TagButtonAsWrittenWithoutQuote(posts: seq<Post>, t: string)
    requires t in AllTags(posts) && '"' !in t
    ensures Filter(posts, TagFilterOf(DataTagAsWritten(t)), "") != []
  {
    TagButtonShowsSomething(posts, t);
  }

  /** As written, the button of a tag holding `"` filters by the text before the quote:
      for a single post tagged `a"b`, that button shows no post at all. */
  lemma QuotedTagShowsNothing(posts: seq<Post>, p: Post)
    requires p.tags == ["a\"b"] && posts == [p]
    ensures "a\"b" in AllTags(posts)
    ensures DataTagAsWritten("a\"b") == "a"
    ensures Filter(posts, TagFilterOf(DataTagAsWritten("a\"b")), "") == []
  {
    assert posts[..0] == [];
    var tag := "a\"b";
    assert tag[0] == 'a' && tag[1] == '"' && tag[2] == 'b';
    var i := IndexOf(tag, '"');
    assert i == 1;
    assert tag[..1] == "a";
    var r := Filter(posts, Some("a"), "");
    assert !Keep(p, Some("a"), "");
  }

  /** `post.excerpt || post.description`: the excerpt line, falling back to the
      description when the excerpt is empty. */
  function ExcerptText(p: Post): (r: string)
    ensures p.excerpt != "" ==> r == p.excerpt
    ensures p.excerpt == "" ==> r == p.description
  {
    if p.excerpt != "" then p.excerpt else p.description
  }

  /** Whatever the excerpt line shows can be searched for: a query found in it (after
      lower-casing) makes the post match. */
  lemma ExcerptSearchable(p: Post, query: string)
    requires Contains(Lower(ExcerptText(p)), query)
    ensures MatchesQuery(p, query)
  {
  }

  // The counting loop as written, on a plain object literal `{}`.

  /** The values a property of `tagCounts` can hold in the loop as written. */
  datatype JsValue = Undefined | Num(n: int) | JsStr(s: string) | NativeFunction(name: string) | PrototypeObject

  /** Methods every object literal inherits from `Object.prototype`. */
  const InheritedMethods: set<string> := {
    "constructor", "hasOwnProperty", "isPrototypeOf", "propertyIsEnumerable",
    "toLocaleString", "toString", "valueOf",
    "__defineGetter__", "__defineSetter__", "__lookupGetter__", "__lookupSetter__"
  }

  /** `tagCounts[key]` on an object literal whose own properties are `own`. An inherited
      method is the function of that name, except `constructor`, which is `Object`. */
  function Get(own: map<string, JsValue>, key: string): (r: JsValue)
    ensures key == "__proto__" ==> r == PrototypeObject
    ensures key != "__proto__" && key in own ==> r == own[key]
    ensures key != "__proto__" && key !in own ==> (r == Undefined <==> key !in InheritedMethods)
    ensures key == "constructor" && key !in own ==> r == NativeFunction("Object")
  {
    if key == "__proto__" then PrototypeObject
    else if key in own then own[key]
    else if key in InheritedMethods then NativeFunction(if key == "constructor" then "Object" else key)
    else Undefined
  }

  /** The text a built-in method converts to. */
  function FunctionSource(name: string): string {
    "function " + name + "() { [native code] }"
  }

  /** `(v || 0) + 1`; a non-empty string or an object is truthy, and `+` on it
      concatenates. */
  function OrZeroPlusOne(v: JsValue): (r: JsValue)
    ensures r.Num? <==> v.Undefined? || v.Num? || v == JsStr("")
    ensures v.Num? ==> r == Num(v.n + 1)
    ensures v.Undefined? ==> r == Num(1)
  {
    match v
    case Undefined => Num(1)
    case Num(n) => Num(n + 1)
    case JsStr(s) => if s == "" then Num(1) else JsStr(s + "1")
    case NativeFunction(name) => JsStr(FunctionSource(name) + "1")
    case PrototypeObject => JsStr("[object Object]1")
  }

  /** `tagCounts[key] = v`; assigning a primitive to `__proto__` is ignored. */
  function Put(own: map<string, JsValue>, key: string, v: JsValue): (r: map<string, JsValue>)
    ensures key == "__proto__" ==> r == own
    ensures key != "__proto__" ==> key in r && r[key] == v
    ensures forall k :: k != key ==> (k in r <==> k in own)
    ensures forall k :: k != key && k in own ==> r[k] == own[k]
  {
    if key == "__proto__" then own else own[key := v]
  }

  /** The own properties of `tagCounts` after the loop as written has seen `tags`. */
  function CountAsWritten(tags: seq<string>): map<string, JsValue>
    decreases |tags|
  {
    if tags == [] then map[]
    else
      var own := CountAsWritten(tags[..|tags| - 1]);
      var tag := tags[|tags| - 1];
      Put(own, tag, OrZeroPlusOne(Get(own, tag)))
  }

  /** The loop as written miscounts tags named like inherited members: a single
      `toString` tag gets a text count instead of 1, and a `__proto__` tag never becomes a
      key; the corrected count (`CountTags`) gives both the count 1. */
  lemma PrototypeNamesMiscounted(tags: seq<string>)
    requires tags == ["toString", "__proto__"]
    ensures "toString" in CountAsWritten(tags)
    ensures CountAsWritten(tags)["toString"] == JsStr(FunctionSource("toString") + "1")
    ensures "__proto__" !in CountAsWritten(tags)
    ensures Occurrences(tags, "toString") == 1 && Occurrences(tags, "__proto__") == 1
  {
    var first := tags[..1];
    assert first == ["toString"];
    assert first[..0] == [];
    var own := CountAsWritten(first);
    assert "toString" != "__proto__";
    assert "toString" in InheritedMethods;
    assert Get(map[], "toString") == NativeFunction("toString");
    assert CountAsWritten(first[..0]) == map[];
    assert first[|first| - 1] == "toString";
    assert OrZeroPlusOne(NativeFunction("toString")) == JsStr(FunctionSource("toString") + "1");
    assert own == map["toString" := JsStr(FunctionSource("toString") + "1")];
    assert CountAsWritten(tags) == own;
    assert Occurrences(first, "toString") == 1;
    assert Occurrences(first, "__proto__") == 0;
  }

  /** `tagCounts.constructor` is the function `Object`, so a single `constructor` tag is
      counted as that function's text with `1` appended. */
  lemma ConstructorTagMiscounted(tags: seq<string>)
    requires tags == ["constructor"]
    ensures CountAsWritten(tags) == map["constructor" := JsStr(FunctionSource("Object") + "1")]
  {
    assert tags[..0] == [];
    assert Get(map[], "constructor") == NativeFunction("Object");
  }
}
