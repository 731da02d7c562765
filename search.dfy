/** The client-side search module: the post list, the active tag and the committed
    search query, the filter they drive, and the debounced search input. */
module Search {
  import opened Text

  /** One record of the post index. */
  datatype Post = Post(
    title: string,
    excerpt: string,
    description: string,
    date: string,
    tags: seq<string>,
    category: Option<string>,
    file: string)

  /** JavaScript truthiness of the active tag: both null and "" switch the tag filter off. */
  predicate TagFilterOn(activeTag: Option<string>) {
    activeTag.Some? && activeTag.value != ""
  }

  /** The tag test: with the tag filter on, the post must list the tag exactly. */
  predicate PassesTag(p: Post, activeTag: Option<string>) {
    !TagFilterOn(activeTag) || activeTag.value in p.tags
  }

  /** `query` occurs in the lower-cased title, excerpt, description or some tag. */
  predicate MatchesQuery(p: Post, query: string) {
    || Contains(Lower(p.title), query)
    || Contains(Lower(p.excerpt), query)
    || Contains(Lower(p.description), query)
    || exists t :: t in p.tags && Contains(Lower(t), query)
  }

  /** The filter's predicate: the tag test, then the search test when the query is non-empty. */
  predicate Keep(p: Post, activeTag: Option<string>, query: string) {
    PassesTag(p, activeTag) && (query == "" || MatchesQuery(p, query))
  }

  /** `filterPosts`: the posts that pass both tests, in their original order. */
  function Filter(posts: seq<Post>, activeTag: Option<string>, query: string): (r: seq<Post>)
    ensures |r| <= |posts|
    ensures forall p :: p in r ==> p in posts && Keep(p, activeTag, query)
  {
    if posts == [] then []
    else
      var head := if Keep(posts[0], activeTag, query) then [posts[0]] else [];
      head + Filter(posts[1..], activeTag, query)
  }

  /** `xs` is obtained from `ys` by deleting elements, without reordering. */
  ghost predicate IsSubsequence<T>(xs: seq<T>, ys: seq<T>)
    decreases |ys|
  {
    || xs == []
    || (ys != [] && ((xs[0] == ys[0] && IsSubsequence(xs[1..], ys[1..])) || IsSubsequence(xs, ys[1..])))
  }

  /** The filter only deletes posts: nothing is reordered or duplicated. */
  lemma {:induction false} FilterIsSubsequence(posts: seq<Post>, activeTag: Option<string>, query: string)
    ensures IsSubsequence(Filter(posts, activeTag, query), posts)
  {
    if posts != [] {
      var rest := Filter(posts[1..], activeTag, query);
      FilterIsSubsequence(posts[1..], activeTag, query);
      if Keep(posts[0], activeTag, query) {
        assert Filter(posts, activeTag, query) == [posts[0]] + rest;
        assert ([posts[0]] + rest)[1..] == rest;
      } else {
        assert Filter(posts, activeTag, query) == rest;
      }
    }
  }

  /** Every post that passes is kept as often as it occurs; every other post is dropped. */
  lemma {:induction false} FilterMultiplicity(posts: seq<Post>, activeTag: Option<string>, query: string, p: Post)
    ensures multiset(Filter(posts, activeTag, query))[p]
         == if Keep(p, activeTag, query) then multiset(posts)[p] else 0
  {
    if posts != [] {
      var head := if Keep(posts[0], activeTag, query) then [posts[0]] else [];
      FilterMultiplicity(posts[1..], activeTag, query, p);
      assert posts == [posts[0]] + posts[1..];
      assert multiset(posts)[p] == multiset([posts[0]])[p] + multiset(posts[1..])[p];
      assert Filter(posts, activeTag, query) == head + Filter(posts[1..], activeTag, query);
    }
  }

  /** Soundness and completeness of the filter: a post is returned exactly when it is in
      the list, passes the tag test and, for a non-empty query, matches the query. */
  lemma FilterMembership(posts: seq<Post>, activeTag: Option<string>, query: string, p: Post)
    ensures p in Filter(posts, activeTag, query)
        <==> p in posts && PassesTag(p, activeTag) && (query == "" || MatchesQuery(p, query))
  {
    FilterMultiplicity(posts, activeTag, query, p);
  }

  /** With the tag filter off and an empty query, the list is returned unchanged. */
  lemma {:induction false} FilterPassThrough(posts: seq<Post>, activeTag: Option<string>)
    requires !TagFilterOn(activeTag)
    ensures Filter(posts, activeTag, "") == posts
  {
    if posts != [] {
      FilterPassThrough(posts[1..], activeTag);
    }
  }

  /** With the tag filter on, every returned post lists that exact tag. */
  lemma FilterTagSound(posts: seq<Post>, tag: string, query: string)
    requires tag != ""
    ensures forall p :: p in Filter(posts, Some(tag), query) ==> tag in p.tags
  {
  }

  /** Filtering the result again with the same tag and query changes nothing. */
  lemma {:induction false} FilterIdempotent(posts: seq<Post>, activeTag: Option<string>, query: string)
    ensures Filter(Filter(posts, activeTag, query), activeTag, query) == Filter(posts, activeTag, query)
  {
    if posts != [] {
      var rest := Filter(posts[1..], activeTag, query);
      var f := Filter(posts, activeTag, query);
      FilterIdempotent(posts[1..], activeTag, query);
      if Keep(posts[0], activeTag, query) {
        assert f == [posts[0]] + rest;
        assert f[0] == posts[0] && f[1..] == rest;
        assert Filter(f, activeTag, query) == [f[0]] + Filter(f[1..], activeTag, query);
      } else {
        assert f == rest;
      }
    }
  }

  /** Tag filter and search combine by conjunction: filtering by tag alone and then by
      query alone gives the combined result, in the same order. */
  lemma {:induction false} FilterComposes(posts: seq<Post>, activeTag: Option<string>, query: string)
    ensures Filter(posts, activeTag, query) == Filter(Filter(posts, activeTag, ""), None, query)
  {
    if posts != [] {
      var rest := Filter(posts[1..], activeTag, "");
      var g := Filter(posts, activeTag, "");
      FilterComposes(posts[1..], activeTag, query);
      assert Keep(posts[0], activeTag, query) <==> Keep(posts[0], activeTag, "") && Keep(posts[0], None, query);
      if Keep(posts[0], activeTag, "") {
        assert g == [posts[0]] + rest;
        assert g[0] == posts[0] && g[1..] == rest;
        assert Filter(g, None, query) == (if Keep(g[0], None, query) then [g[0]] else []) + Filter(g[1..], None, query);
      } else {
        assert g == rest;
      }
    }
  }

  /** `query.toLowerCase().trim()`: no upper-case letter and no white space at either end. */
  function Normalize(query: string): (r: string)
    ensures forall i :: 0 <= i < |r| ==> !IsUpper(r[i])
    ensures r == "" || (!IsSpace(r[0]) && !IsSpace(r[|r| - 1]))
  {
    TrimNoUpper(Lower(query));
    Trim(Lower(query))
  }

  /** A query that is already normalized is stored as it is, so storing the stored
      query again changes nothing. */
  lemma NormalizeIdempotent(query: string)
    ensures Normalize(Normalize(query)) == Normalize(query)
  {
    LowerTrim(Lower(query));
    LowerIdempotent(query);
    TrimIdempotent(Lower(query));
  }

  /** The module's state, which the three setters reassign. */
  class SearchState {
    var posts: seq<Post>
    var activeTag: Option<string>
    var searchQuery: string

    constructor ()
      ensures posts == [] && activeTag == None && searchQuery == ""
    {
      posts := [];
      activeTag := None;
      searchQuery := "";
    }

    /** `filterPosts()` over the current state. */
    function FilterPosts(): (r: seq<Post>)
      reads this
      ensures IsSubsequence(r, posts)
      ensures forall p :: p in r <==> p in posts && Keep(p, activeTag, searchQuery)
    {
      FilterIsSubsequence(posts, activeTag, searchQuery);
      forall p ensures p in Filter(posts, activeTag, searchQuery) <==> p in posts && Keep(p, activeTag, searchQuery) {
        FilterMembership(posts, activeTag, searchQuery, p);
      }
      Filter(posts, activeTag, searchQuery)
    }

    /** `setPosts(data)`: replaces the list wholesale; a missing list becomes empty. */
    method SetPosts(data: Option<seq<Post>>)
      modifies this
      ensures posts == (if data.Some? then data.value else [])
      ensures activeTag == old(activeTag) && searchQuery == old(searchQuery)
    {
      posts := if data.Some? then data.value else [];
    }

    /** `setActiveTag(tag)`: stores the tag and returns the list handed to the renderer. */
    method SetActiveTag(tag: Option<string>) returns (shown: seq<Post>)
      modifies this
      ensures activeTag == tag
      ensures posts == old(posts) && searchQuery == old(searchQuery)
      ensures shown == Filter(posts, tag, searchQuery)
    {
      activeTag := tag;
      shown := FilterPosts();
    }

    /** `setSearchQuery(query)`: stores the normalized query and returns the list handed
        to the renderer. */
    method SetSearchQuery(query: string) returns (shown: seq<Post>)
      modifies this
      ensures searchQuery == Normalize(query)
      ensures posts == old(posts) && activeTag == old(activeTag)
      ensures shown == Filter(posts, activeTag, Normalize(query))
    {
      searchQuery := Normalize(query);
      shown := FilterPosts();
    }
  }

  /** Quiet period, in milliseconds, after the last keystroke before the query is committed. */
  const DebounceDelay: int := 300

  /** One call of `setSearchQuery` made by the search input, with the time it happened. */
  datatype Commit = Commit(time: int, value: string)

  /** The search input of `initSearch`, with an explicit clock in place of the browser's
      timers. `timer` is the due time of the one pending commit, if there is one; the
      commit uses the input's text as it is when the commit runs. */
  class SearchBox {
    const search: SearchState
    var value: string
    var now: int
    var timer: Option<int>
    ghost var commits: seq<Commit>

    /** A pending commit always lies in the next `DebounceDelay` milliseconds, and every
        commit made so far lies in the past. */
    ghost predicate Valid()
      reads this
    {
      && (timer.Some? ==> now < timer.value <= now + DebounceDelay)
      && (forall i :: 0 <= i < |commits| ==> commits[i].time <= now)
    }

    constructor (search: SearchState, start: int)
      ensures Valid()
      ensures this.search == search && value == "" && now == start && timer == None && commits == []
    {
      this.search := search;
      value := "";
      now := start;
      timer := None;
      commits := [];
    }

    /** Commits the input's current text right now. */
    method CommitNow()
      requires Valid()
      modifies this`commits, search
      ensures Valid()
      ensures commits == old(commits) + [Commit(now, value)]
      ensures search.searchQuery == Normalize(value)
      ensures search.posts == old(search.posts) && search.activeTag == old(search.activeTag)
    {
      commits := commits + [Commit(now, value)];
      var _ := search.SetSearchQuery(value);
    }

    /** Lets the clock run to `t`; the pending commit runs if it falls due by then. */
    method AdvanceTo(t: int)
      requires Valid() && now <= t
      modifies this, search
      ensures Valid() && now == t && value == old(value)
      ensures timer == if old(timer).Some? && old(timer).value <= t then None else old(timer)
      ensures if old(timer).Some? && old(timer).value <= t then
          && commits == old(commits) + [Commit(old(timer).value, value)]
          && search.searchQuery == Normalize(value)
        else
          && commits == old(commits)
          && search.searchQuery == old(search.searchQuery)
      ensures search.posts == old(search.posts) && search.activeTag == old(search.activeTag)
    {
      if timer.Some? && timer.value <= t {
        now := timer.value;
        timer := None;
        CommitNow();
      }
      now := t;
    }

    /** The `input` event at time `t`: the text becomes `v`, any pending commit is
        cancelled and a new one is scheduled `DebounceDelay` later. */
    method Input(v: string, t: int)
      requires Valid() && now <= t
      modifies this, search
      ensures Valid() && now == t && value == v
      ensures timer == Some(t + DebounceDelay)
      ensures if old(timer).Some? && old(timer).value <= t then
          && commits == old(commits) + [Commit(old(timer).value, old(value))]
          && search.searchQuery == Normalize(old(value))
        else
          && commits == old(commits)
          && search.searchQuery == old(search.searchQuery)
      ensures search.posts == old(search.posts) && search.activeTag == old(search.activeTag)
    {
      AdvanceTo(t);
      value := v;
      timer := Some(t + DebounceDelay);
    }

    /** The `keydown` event at time `t`: Enter cancels the pending commit and commits the
        current text at once; any other key does nothing. */
    method KeyDown(key: string, t: int)
      requires Valid() && now <= t
      modifies this, search
      ensures Valid() && now == t && value == old(value)
      ensures var fired := old(timer).Some? && old(timer).value <= t;
        var before := if fired then old(commits) + [Commit(old(timer).value, value)] else old(commits);
        if key == "Enter" then
          && timer == None
          && commits == before + [Commit(t, value)]
          && search.searchQuery == Normalize(value)
        else
          && timer == (if fired then None else old(timer))
          && commits == before
          && search.searchQuery == (if fired then Normalize(value) else old(search.searchQuery))
      ensures search.posts == old(search.posts) && search.activeTag == old(search.activeTag)
    {
      AdvanceTo(t);
      if key == "Enter" {
        timer := None;
        CommitNow();
      }
    }
  }

  /** Keystrokes at 0, 100 and 200 and nothing after: exactly one commit, at 500, with
      the text of the last keystroke. */
  method TypingScenario() returns (ghost log: seq<Commit>, query: string)
    ensures log == [Commit(500, "abc")]
    ensures query == "abc"
  {
    var s := new SearchState();
    var box := new SearchBox(s, 0);
    box.Input("a", 0);
    assert box.timer == Some(300) && box.commits == [];
    box.Input("ab", 100);
    assert box.timer == Some(400) && box.commits == [];
    box.Input("abc", 200);
    assert box.timer == Some(500) && box.commits == [] && box.value == "abc";
    box.AdvanceTo(1000);
    log := box.commits;
    query := s.searchQuery;
    NormalizeLiteral("abc");
  }

  /** A keystroke at 100 and Enter at 150: one commit, at 150, and none from the
      cancelled timer. */
  method EnterScenario() returns (ghost log: seq<Commit>, query: string)
    ensures log == [Commit(150, "abc ")]
    ensures query == "abc"
  {
    var s := new SearchState();
    var box := new SearchBox(s, 0);
    box.Input("abc ", 100);
    assert box.timer == Some(400) && box.commits == [] && box.value == "abc ";
    box.KeyDown("Enter", 150);
    assert box.timer == None && box.commits == [Commit(150, "abc ")];
    box.AdvanceTo(1000);
    log := box.commits;
    query := s.searchQuery;
    NormalizeLiteral("abc ");
  }

  /** The normalized forms of the two scenario inputs. */
  lemma NormalizeLiteral(q: string)
    requires q == "abc" || q == "abc "
    ensures Normalize(q) == "abc"
  {
    assert forall i :: 0 <= i < |q| ==> !IsUpper(q[i]);
    LowerFixed(q);
    assert !IsSpace('a') && !IsSpace('c');
    assert SkipSpace(q, 0) == 0;
    if q == "abc " {
      assert IsSpace(' ');
      assert SkipSpaceBack(q, 0, 4) == SkipSpaceBack(q, 0, 3);
    }
    assert SkipSpaceBack(q, 0, 3) == 3;
    assert q[0..3] == "abc";
  }
}
