/** What a run of the generator promises about its output: the files each stage
    writes, the order of the posts the listings see, and the template context it
    leaves behind. */
module OakProperties {
  import opened Wrappers
  import opened PyOps
  import opened Files
  import opened Config
  import opened Tags
  import opened Authors
  import opened Posts
  import opened PostOrder
  import opened OakSite

  // ---------------------------------------------------------------- tag and author pages

  /** Every key of `order` names a group. */
  predicate Covered<G>(groups: map<string, G>, order: seq<string>) {
    forall i :: 0 <= i < |order| ==> order[i] in groups
  }

  /** The tag pages for `order`: each tag's path with its page. */
  function TagWrites(site: Site, ctx: Ctx, tags: map<string, Tag<Post>>, order: seq<string>): (w: seq<(string, string)>)
    requires Covered(tags, order)
    ensures |w| == |order|
  {
    seq(|order|, i requires 0 <= i < |order| => (tags[order[i]].path, TagPage(site, ctx, tags[order[i]])))
  }

  /** The author pages for `order`: each author's path with its page. */
  function AuthorWrites(site: Site, ctx: Ctx, authors: map<string, Author<Post>>, order: seq<string>): (w: seq<(string, string)>)
    requires Covered(authors, order)
    ensures |w| == |order|
  {
    seq(|order|, i requires 0 <= i < |order| =>
      (AuthorPath(site.settings, authors[order[i]].author), AuthorPage(site, ctx, authors[order[i]])))
  }

  /** Chaining the writes of a fold: the writes up to `prev`, then one more page. */
  lemma {:induction false} WritesStep(d: Disk, prev: Disk, next: Disk, w: seq<(string, string)>,
                                      page: (string, string), all: seq<(string, string)>)
    requires Writes(prev.log) == Writes(d.log) + w
    requires Writes(next.log) == Writes(prev.log) + [page]
    requires all == w + [page]
    ensures Writes(next.log) == Writes(d.log) + all
  {
  }

  /** One more key adds its page at the end. */
  lemma {:induction false} TagWritesSnoc(site: Site, ctx: Ctx, tags: map<string, Tag<Post>>, order: seq<string>)
    requires Covered(tags, order) && order != []
    ensures var k := order[|order| - 1];
      TagWrites(site, ctx, tags, order) == TagWrites(site, ctx, tags, order[..|order| - 1]) + [(tags[k].path, TagPage(site, ctx, tags[k]))]
  {
    var w := TagWrites(site, ctx, tags, order);
    assert w[..|order| - 1] == TagWrites(site, ctx, tags, order[..|order| - 1]);
  }

  /** `_do_tag` for each key of `order` writes exactly one page per tag, in that order. */
  lemma {:induction false} TagPagesWrites(site: Site, d: Disk, ctx: Ctx, tags: map<string, Tag<Post>>, order: seq<string>)
    requires Covered(tags, order)
    ensures Writes(TagPages(site, d, ctx, tags, order).log) == Writes(d.log) + TagWrites(site, ctx, tags, order)
    decreases |order|
  {
    if order != [] {
      var init := order[..|order| - 1];
      var k := order[|order| - 1];
      assert order == init + [k];
      TagPagesNext(site, d, ctx, tags, init, k);
      TagPagesWrites(site, d, ctx, tags, init);
      TagWritesSnoc(site, ctx, tags, order);
      WritesStep(d, TagPages(site, d, ctx, tags, init), TagPages(site, d, ctx, tags, order),
                 TagWrites(site, ctx, tags, init), (tags[k].path, TagPage(site, ctx, tags[k])),
                 TagWrites(site, ctx, tags, order));
    }
  }

  /** One more key adds its page at the end. */
  lemma {:induction false} AuthorWritesSnoc(site: Site, ctx: Ctx, authors: map<string, Author<Post>>, order: seq<string>)
    requires Covered(authors, order) && order != []
    ensures var k := order[|order| - 1];
      AuthorWrites(site, ctx, authors, order) == AuthorWrites(site, ctx, authors, order[..|order| - 1]) +
                                                 [(AuthorPath(site.settings, authors[k].author), AuthorPage(site, ctx, authors[k]))]
  {
    var w := AuthorWrites(site, ctx, authors, order);
    assert w[..|order| - 1] == AuthorWrites(site, ctx, authors, order[..|order| - 1]);
  }

  /** `_do_author` for each key of `order` writes exactly one page per author, in that order. */
  lemma {:induction false} AuthorPagesWrites(site: Site, d: Disk, ctx: Ctx, authors: map<string, Author<Post>>, order: seq<string>)
    requires Covered(authors, order)
    ensures Writes(AuthorPages(site, d, ctx, authors, order).log) == Writes(d.log) + AuthorWrites(site, ctx, authors, order)
    decreases |order|
  {
    if order != [] {
      var init := order[..|order| - 1];
      var k := order[|order| - 1];
      assert order == init + [k];
      AuthorPagesNext(site, d, ctx, authors, init, k);
      AuthorPagesWrites(site, d, ctx, authors, init);
      AuthorWritesSnoc(site, ctx, authors, order);
      WritesStep(d, AuthorPages(site, d, ctx, authors, init), AuthorPages(site, d, ctx, authors, order),
                 AuthorWrites(site, ctx, authors, init),
                 (AuthorPath(site.settings, authors[k].author), AuthorPage(site, ctx, authors[k])),
                 AuthorWrites(site, ctx, authors, order));
    }
  }

  /** `_do_tags` writes the tag list, rendered with every tag, and then one page per
      tag in the order the tags are visited; each page sees the context without the
      `tags` key, and the tags directory exists afterwards. */
  lemma {:induction false} TagsStageWrites(site: Site, s: State, order: seq<string>)
    requires Covered(s.tags, order)
    ensures var r := TagsStage(site, s, order);
      var settings := site.settings;
      Writes(r.disk.log) ==
        Writes(s.disk.log) +
        [(TagIndexPath(settings), site.render(settings.templates.taglist, s.tplVars[TagsKey := TagsCtx(s.tags)]))] +
        TagWrites(site, s.tplVars - {TagsKey}, s.tags, order) &&
      TagPath(settings.physicalPaths.output, settings.urlPaths.tags, "") in r.disk.dirs
  {
    var settings := site.settings;
    var dir := TagPath(settings.physicalPaths.output, settings.urlPaths.tags, "");
    var d1 := EnsureDir(s.disk, dir);
    var ctx1 := s.tplVars[TagsKey := TagsCtx(s.tags)];
    var d2 := WriteFile(d1, TagIndexPath(settings), site.render(settings.templates.taglist, ctx1));
    assert ctx1 - {TagsKey} == s.tplVars - {TagsKey};
    TagPagesWrites(site, d2, s.tplVars - {TagsKey}, s.tags, order);
    TagPagesGrow(site, d2, s.tplVars - {TagsKey}, s.tags, order);
  }

  /** Writing tag pages never removes a directory. */
  lemma {:induction false} TagPagesGrow(site: Site, d: Disk, ctx: Ctx, tags: map<string, Tag<Post>>, order: seq<string>)
    ensures d.dirs <= TagPages(site, d, ctx, tags, order).dirs
    decreases |order|
  {
    if order != [] {
      TagPagesGrow(site, d, ctx, tags, order[..|order| - 1]);
    }
  }

  /** Writing author pages never removes a directory. */
  lemma {:induction false} AuthorPagesGrow(site: Site, d: Disk, ctx: Ctx, authors: map<string, Author<Post>>, order: seq<string>)
    ensures d.dirs <= AuthorPages(site, d, ctx, authors, order).dirs
    decreases |order|
  {
    if order != [] {
      AuthorPagesGrow(site, d, ctx, authors, order[..|order| - 1]);
    }
  }

  /** `_do_authors` writes the author list and then one page per author in the order
      the authors are visited; the authors directory exists afterwards. */
  lemma {:induction false} AuthorsStageWrites(site: Site, s: State, order: seq<string>)
    requires Covered(s.authors, order)
    ensures var r := AuthorsStage(site, s, order);
      var settings := site.settings;
      Writes(r.disk.log) ==
        Writes(s.disk.log) +
        [(AuthorIndexPath(settings), site.render(settings.templates.authorlist, s.tplVars[AuthorsKey := AuthorsCtx(s.authors)]))] +
        AuthorWrites(site, s.tplVars - {AuthorsKey}, s.authors, order) &&
      AuthorPath(settings, "") in r.disk.dirs
  {
    var settings := site.settings;
    var d1 := EnsureDir(s.disk, AuthorPath(settings, ""));
    var ctx1 := s.tplVars[AuthorsKey := AuthorsCtx(s.authors)];
    var d2 := WriteFile(d1, AuthorIndexPath(settings), site.render(settings.templates.authorlist, ctx1));
    assert ctx1 - {AuthorsKey} == s.tplVars - {AuthorsKey};
    AuthorPagesWrites(site, d2, s.tplVars - {AuthorsKey}, s.authors, order);
    AuthorPagesGrow(site, d2, s.tplVars - {AuthorsKey}, s.authors, order);
  }

  /** When the tags are visited once each, as `_do_tags` does, every tag gets its page. */
  lemma {:induction false} TagsStageCovers(site: Site, s: State, order: seq<string>, k: string)
    requires forall j :: j in order <==> j in s.tags
    requires k in s.tags
    ensures (s.tags[k].path, TagPage(site, s.tplVars - {TagsKey}, s.tags[k])) in Writes(TagsStage(site, s, order).disk.log)
  {
    assert Covered(s.tags, order) && k in order;
    var w := Writes(TagsStage(site, s, order).disk.log);
    var pre := Writes(s.disk.log) + [(TagIndexPath(site.settings), site.render(site.settings.templates.taglist, s.tplVars[TagsKey := TagsCtx(s.tags)]))];
    assert w == pre + TagWrites(site, s.tplVars - {TagsKey}, s.tags, order) by {
      TagsStageWrites(site, s, order);
    }
    TagWritten(w, pre, site, s.tplVars - {TagsKey}, s.tags, order, k);
  }

  /** When the authors are visited once each, every author gets its page. */
  lemma {:induction false} AuthorsStageCovers(site: Site, s: State, order: seq<string>, a: string)
    requires forall j :: j in order <==> j in s.authors
    requires a in s.authors
    ensures (AuthorPath(site.settings, s.authors[a].author), AuthorPage(site, s.tplVars - {AuthorsKey}, s.authors[a]))
            in Writes(AuthorsStage(site, s, order).disk.log)
  {
    assert Covered(s.authors, order) && a in order;
    var w := Writes(AuthorsStage(site, s, order).disk.log);
    var pre := Writes(s.disk.log) + [(AuthorIndexPath(site.settings), site.render(site.settings.templates.authorlist, s.tplVars[AuthorsKey := AuthorsCtx(s.authors)]))];
    assert w == pre + AuthorWrites(site, s.tplVars - {AuthorsKey}, s.authors, order) by {
      AuthorsStageWrites(site, s, order);
    }
    AuthorWritten(w, pre, site, s.tplVars - {AuthorsKey}, s.authors, order, a);
  }

  /** A tag visited by the loop has its page among the files written. */
  lemma {:induction false} TagWritten(w: seq<(string, string)>, pre: seq<(string, string)>, site: Site, ctx: Ctx,
                                      tags: map<string, Tag<Post>>, order: seq<string>, k: string)
    requires Covered(tags, order) && k in order
    requires w == pre + TagWrites(site, ctx, tags, order)
    ensures k in tags && (tags[k].path, TagPage(site, ctx, tags[k])) in w
  {
    var i :| 0 <= i < |order| && order[i] == k;
    InAppended(w, pre, TagWrites(site, ctx, tags, order), i);
  }

  /** An author visited by the loop has its page among the files written. */
  lemma {:induction false} AuthorWritten(w: seq<(string, string)>, pre: seq<(string, string)>, site: Site, ctx: Ctx,
                                         authors: map<string, Author<Post>>, order: seq<string>, a: string)
    requires Covered(authors, order) && a in order
    requires w == pre + AuthorWrites(site, ctx, authors, order)
    ensures a in authors && (AuthorPath(site.settings, authors[a].author), AuthorPage(site, ctx, authors[a])) in w
  {
    var i :| 0 <= i < |order| && order[i] == a;
    InAppended(w, pre, AuthorWrites(site, ctx, authors, order), i);
  }

  /** An item of the appended part of a sequence is in the sequence. */
  lemma InAppended<T>(w: seq<T>, pre: seq<T>, ws: seq<T>, i: nat)
    requires w == pre + ws && i < |ws|
    ensures ws[i] in w
  {
    assert w[|pre| + i] == ws[i];
  }

  // ---------------------------------------------------------------- posts

  /** The pages `_do_posts` writes for `posts`: each post's output path with the post
      template rendered from `ctx` plus that post under `post`. */
  function PostWrites(site: Site, ctx: Ctx, posts: seq<Post>): (w: seq<(string, string)>)
    ensures |w| == |posts|
  {
    seq(|posts|, i requires 0 <= i < |posts| =>
      (posts[i].outputPath, site.render(site.settings.templates.post, ctx[PostKey := PostCtx(posts[i])])))
  }

  /** The post stage of a run that succeeds keeps the posts it had, appends one post
      per source file in `glob`'s order, each the post read from that file, and writes
      exactly those posts' pages, in the same order. */
  lemma {:induction false} PostsStagePosts(site: Site, s: State)
    requires PostsStage(site, s).Ok?
    ensures var r := PostsStage(site, s).value;
      var files := site.env.glob(PostPattern(site.settings));
      |r.posts| == |s.posts| + |files| && r.posts[..|s.posts|] == s.posts &&
      (forall i :: 0 <= i < |files| ==>
         ReadPost(site.env, files[i], BaseUrl(site.settings), site.settings) == Ok(r.posts[|s.posts| + i])) &&
      Writes(r.disk.log) == Writes(s.disk.log) + PostWrites(site, s.tplVars, r.posts[|s.posts|..])
  {
    var ps := PostsPassOf(site, s.tplVars);
    var files := site.env.glob(PostPattern(site.settings));
    var start := Acorns([], Groups(s.tags, s.authors));
    var st := Discover(start, files, ps).value;
    var r := PostsStage(site, s).value;
    DiscoverLength(start, files, ps);
    assert r.posts[|s.posts|..] == st.posts;
    forall i | 0 <= i < |files|
      ensures ReadPost(site.env, files[i], BaseUrl(site.settings), site.settings) == Ok(r.posts[|s.posts| + i])
    {
      DiscoverPosts(start, files, ps, i);
    }
    PublishWrites(s.disk, st.posts, ps);
    assert PageWrites(st.posts, ps) == PostWrites(site, s.tplVars, st.posts);
  }

  /** After a successful post stage each tag group holds its old posts followed by the
      new posts that name the tag, and likewise for each author; a group exists exactly
      when it existed before or a new post belongs to it. */
  lemma {:induction false} PostsStageGroups(site: Site, s: State, k: string)
    requires PostsStage(site, s).Ok?
    ensures var r := PostsStage(site, s).value;
      |s.posts| <= |r.posts| &&
      TagGroup(r.tags, k) == TagGroup(s.tags, k) + TaggedWith(r.posts[|s.posts|..], k) &&
      AuthorGroup(r.authors, k) == AuthorGroup(s.authors, k) + ByAuthor(r.posts[|s.posts|..], k) &&
      (k in r.tags <==> k in s.tags || TaggedWith(r.posts[|s.posts|..], k) != []) &&
      (k in r.authors <==> k in s.authors || ByAuthor(r.posts[|s.posts|..], k) != [])
  {
    var ps := PostsPassOf(site, s.tplVars);
    var files := site.env.glob(PostPattern(site.settings));
    var start := Acorns([], Groups(s.tags, s.authors));
    var st := Discover(start, files, ps).value;
    var r := PostsStage(site, s).value;
    assert r.posts[|s.posts|..] == st.posts == Added(start, st);
    DiscoverTagGroup(start, files, ps, k);
    DiscoverAuthorGroup(start, files, ps, k);
    DiscoverTagKey(start, files, ps, k);
    DiscoverAuthorKey(start, files, ps, k);
  }

  // ---------------------------------------------------------------- index, feed, archive

  /** The index stage fails exactly when a post has no `pub_date`, when there are no
      posts, or when two or more posts are to be compared and one date is not a date. */
  lemma {:induction false} IndexStageSucceeds(site: Site, s: State)
    requires BlogReady(s.tplVars)
    ensures IndexStage(site, s).Ok? <==> AllHaveDates(s.posts) && s.posts != [] && (|s.posts| == 1 || AllDated(s.posts))
    ensures !AllHaveDates(s.posts) ==> IndexStage(site, s) == Err(KeyError(PubDate))
  {
  }

  /** The `last_updated` the index records is the `pub_date` of one of the posts, and
      the earliest one when every post is dated. */
  lemma {:induction false} LastUpdatedEarliest(ps: seq<Post>)
    requires ps != [] && AllHaveDates(ps) && (|ps| == 1 || AllDated(ps))
    ensures AllDated(ps) ==>
      LastUpdated(ps).Date? && forall i :: 0 <= i < |ps| ==> LastUpdated(ps).stamp <= DateKey(ps[i])
  {
    if AllDated(ps) {
      SortAscending(ps);
      var first := SortByDate(ps)[0];
      assert first in multiset(ps);
      var j :| 0 <= j < |ps| && ps[j] == first;
      assert Dated(ps[j]);
      forall i | 0 <= i < |ps|
        ensures LastUpdated(ps).stamp <= DateKey(ps[i])
      {
        SortFirstIsEarliest(ps, ps[i]);
      }
    }
  }

  /** A successful index stage's new state: the posts in index order, the context
      with the new `last_updated` and without the transient `posts` key, and one more
      write, the index rendered with the first `max_posts` posts in that order. */
  lemma {:induction false} IndexStageState(site: Site, s: State)
    requires BlogReady(s.tplVars) && IndexStage(site, s).Ok?
    ensures var pagination := site.settings.posts.pagination;
      var arranged := Arranged(s.posts, pagination.sortReverse);
      var ctx := s.tplVars[BlogKey := BlogCtx(s.tplVars[BlogKey].blog.(lastUpdated := Some(LastUpdated(s.posts))))]
                          [PostsKey := PostsCtx(PrefixSlice(arranged, pagination.maxPosts))];
      IndexStage(site, s).value ==
        s.(posts := arranged, tplVars := ctx - {PostsKey},
           disk := WriteFile(s.disk, IndexPath(site.settings), site.render(site.settings.templates.index, ctx)))
  {
    var pagination := site.settings.posts.pagination;
    var arranged := Arranged(s.posts, pagination.sortReverse);
    IndexStageSucceeds(site, s);
    IndexStageOk(site, s, arranged, s.tplVars[BlogKey := BlogCtx(s.tplVars[BlogKey].blog.(lastUpdated := Some(LastUpdated(s.posts))))]
                                             [PostsKey := PostsCtx(PrefixSlice(arranged, pagination.maxPosts))]);
  }

  /** A successful index stage leaves the same posts in date order: newest first when
      `sort_reverse` is set, oldest first otherwise. */
  lemma {:induction false} IndexStageOrder(site: Site, s: State)
    requires BlogReady(s.tplVars) && IndexStage(site, s).Ok?
    ensures var r := IndexStage(site, s).value;
      var reverse := site.settings.posts.pagination.sortReverse;
      multiset(r.posts) == multiset(s.posts) &&
      (reverse ==> Descending(r.posts)) && (!reverse ==> Ascending(r.posts))
  {
    IndexStageState(site, s);
    ArrangedOrder(s.posts, site.settings.posts.pagination.sortReverse);
  }

  /** A successful index stage sets the blog's `last_updated` and nothing else in the
      context, and writes the index once, rendered with the first `max_posts` posts in
      the order the stage leaves them. */
  lemma {:induction false} IndexStageResult(site: Site, s: State)
    requires BlogReady(s.tplVars) && IndexStage(site, s).Ok?
    ensures var r := IndexStage(site, s).value;
      var pagination := site.settings.posts.pagination;
      r.tplVars == s.tplVars[BlogKey := BlogCtx(s.tplVars[BlogKey].blog.(lastUpdated := Some(LastUpdated(s.posts))))] - {PostsKey} &&
      Writes(r.disk.log) == Writes(s.disk.log) +
        [(IndexPath(site.settings),
          site.render(site.settings.templates.index, r.tplVars[PostsKey := PostsCtx(PrefixSlice(r.posts, pagination.maxPosts))]))]
  {
    var pagination := site.settings.posts.pagination;
    var arranged := Arranged(s.posts, pagination.sortReverse);
    var ctx := s.tplVars[BlogKey := BlogCtx(s.tplVars[BlogKey].blog.(lastUpdated := Some(LastUpdated(s.posts))))]
                        [PostsKey := PostsCtx(PrefixSlice(arranged, pagination.maxPosts))];
    IndexStageState(site, s);
    var r := IndexStage(site, s).value;
    assert r.posts == arranged && r.tplVars == ctx - {PostsKey};
    RestoreKey(ctx, PostsKey);
  }

  /** Putting a key back with the value it had undoes its removal. */
  lemma {:induction false} RestoreKey<V>(m: map<string, V>, k: string)
    requires k in m
    ensures (m - {k})[k := m[k]] == m
  {
    assert (m - {k})[k := m[k]].Keys == m.Keys;
  }

  /** The feed and the archive each write one page, rendered with every post in the
      order the state holds them, and give the context back when it has no `posts` key. */
  lemma {:induction false} ListingStageResult(s: State, path: string, page: Ctx -> string)
    requires PostsKey !in s.tplVars
    ensures var r := ListingStage(s, path, page);
      r.posts == s.posts && r.tplVars == s.tplVars &&
      Writes(r.disk.log) == Writes(s.disk.log) + [(path, page(s.tplVars[PostsKey := PostsCtx(s.posts)]))]
  {
    assert s.tplVars[PostsKey := PostsCtx(s.posts)] - {PostsKey} == s.tplVars;
  }

  // ---------------------------------------------------------------- a whole run

  /** A context with no transient key that a stage keeps comes back unchanged. */
  lemma {:induction false} KeptCleanContext(ctx: Ctx, ctx': Ctx)
    requires Clean(ctx) && KeepsContext(ctx, ctx')
    ensures ctx' == ctx
  {
    assert ctx'.Keys == ctx.Keys;
  }

  /** The stages of a run between the posts and the index. */
  function BeforeIndex(site: Site, s1: State, tagOrder: seq<string>, authorOrder: seq<string>): State {
    StaticsStage(site, AuthorsStage(site, TagsStage(site, s1, tagOrder), authorOrder))
  }

  /** The stages of a run after the index. */
  function AfterIndex(site: Site, s5: State): State {
    ArchiveStage(site, if site.settings.blog.generateFeed then FeedStage(site, s5) else s5)
  }

  /** The states a successful run goes through before the index. */
  lemma {:induction false} GenerateBeforeIndex(site: Site, s: State, tagOrder: seq<string>, authorOrder: seq<string>)
    requires BlogReady(s.tplVars) && Clean(s.tplVars) && PostsStage(site, s).Ok?
    ensures var s4 := BeforeIndex(site, PostsStage(site, s).value, tagOrder, authorOrder);
      s4.tplVars == s.tplVars && s4.posts == PostsStage(site, s).value.posts
  {
    var s1 := PostsStage(site, s).value;
    var s2 := TagsStage(site, s1, tagOrder);
    var s3 := AuthorsStage(site, s2, authorOrder);
    PostsStageContext(site, s);
    KeptCleanContext(s.tplVars, s1.tplVars);
    TagsStageContext(site, s1, tagOrder);
    KeptCleanContext(s1.tplVars, s2.tplVars);
    AuthorsStageContext(site, s2, authorOrder);
    KeptCleanContext(s2.tplVars, s3.tplVars);
  }

  /** A successful run is the post stage, the stages up to the index, the index, and
      the stages after it. */
  lemma {:induction false} GenerateSteps(site: Site, s: State, tagOrder: seq<string>, authorOrder: seq<string>)
    requires BlogReady(s.tplVars) && Clean(s.tplVars)
    requires GenerateSpec(site, s, tagOrder, authorOrder).Ok?
    ensures PostsStage(site, s).Ok?
    ensures var s4 := BeforeIndex(site, PostsStage(site, s).value, tagOrder, authorOrder);
      s4.tplVars == s.tplVars && s4.posts == PostsStage(site, s).value.posts &&
      IndexStage(site, s4).Ok? &&
      GenerateSpec(site, s, tagOrder, authorOrder).value == AfterIndex(site, IndexStage(site, s4).value)
  {
    GenerateBeforeIndex(site, s, tagOrder, authorOrder);
  }

  /** The index and the stages after it give back a context without transient keys
      with only the blog's `last_updated` set, and leave the same posts in index
      order. */
  lemma {:induction false} IndexAndAfter(site: Site, s4: State)
    requires BlogReady(s4.tplVars) && Clean(s4.tplVars) && IndexStage(site, s4).Ok?
    ensures var r := AfterIndex(site, IndexStage(site, s4).value);
      var reverse := site.settings.posts.pagination.sortReverse;
      s4.posts != [] &&
      r.tplVars == s4.tplVars[BlogKey := BlogCtx(s4.tplVars[BlogKey].blog.(lastUpdated := Some(LastUpdated(s4.posts))))] &&
      multiset(r.posts) == multiset(s4.posts) &&
      (reverse ==> Descending(r.posts)) && (!reverse ==> Ascending(r.posts))
  {
    IndexStageSucceeds(site, s4);
    var s5 := IndexStage(site, s4).value;
    IndexStageResult(site, s4);
    IndexStageOrder(site, s4);
    var ctx := s4.tplVars[BlogKey := BlogCtx(s4.tplVars[BlogKey].blog.(lastUpdated := Some(LastUpdated(s4.posts))))];
    assert PostsKey !in ctx by {
      LastingKeys();
      assert PostsKey in Transient && BlogKey !in Transient;
    }
    AfterIndexFrom(site, s5, ctx);
  }

  /** The stages after the index give back the context the index left, when it took
      its `posts` key out of a context that had none before. */
  lemma {:induction false} AfterIndexFrom(site: Site, s5: State, ctx: Ctx)
    requires PostsKey !in ctx && s5.tplVars == ctx - {PostsKey}
    ensures AfterIndex(site, s5).tplVars == ctx && AfterIndex(site, s5).posts == s5.posts
  {
    assert ctx - {PostsKey} == ctx;
    AfterIndexKeeps(site, s5);
  }

  /** A successful run gives back the template context it started from, with only the
      blog's `last_updated` set, and leaves the posts in index order, a permutation of
      the posts the post stage collected. */
  lemma {:induction false} GenerateContext(site: Site, s: State, tagOrder: seq<string>, authorOrder: seq<string>)
    requires BlogReady(s.tplVars) && Clean(s.tplVars)
    requires GenerateSpec(site, s, tagOrder, authorOrder).Ok?
    ensures PostsStage(site, s).Ok?
    ensures var collected := PostsStage(site, s).value.posts;
      collected != [] && AllHaveDates(collected) && (|collected| == 1 || AllDated(collected))
    ensures var r := GenerateSpec(site, s, tagOrder, authorOrder).value;
      var collected := PostsStage(site, s).value.posts;
      var reverse := site.settings.posts.pagination.sortReverse;
      collected != [] &&
      r.tplVars == s.tplVars[BlogKey := BlogCtx(s.tplVars[BlogKey].blog.(lastUpdated := Some(LastUpdated(collected))))] &&
      multiset(r.posts) == multiset(collected) &&
      (reverse ==> Descending(r.posts)) && (!reverse ==> Ascending(r.posts))
  {
    GenerateSteps(site, s, tagOrder, authorOrder);
    var s4 := BeforeIndex(site, PostsStage(site, s).value, tagOrder, authorOrder);
    IndexStageSucceeds(site, s4);
    IndexAndAfter(site, s4);
  }

  /** A successful run ends by writing the archive, preceded by the feed when and only
      when `generate_feed` is set, both rendered with the final context and every post
      in index order; nothing else is written after the index stage. */
  lemma {:induction false} GenerateListings(site: Site, s: State, tagOrder: seq<string>, authorOrder: seq<string>)
    requires BlogReady(s.tplVars) && Clean(s.tplVars)
    requires GenerateSpec(site, s, tagOrder, authorOrder).Ok?
    ensures var r := GenerateSpec(site, s, tagOrder, authorOrder).value;
      var listing := r.tplVars[PostsKey := PostsCtx(r.posts)];
      var w := Writes(r.disk.log);
      |w| >= 1 && w[|w| - 1] == (ArchivePath(site.settings), site.render(site.settings.templates.archive, listing)) &&
      (site.settings.blog.generateFeed ==>
         |w| >= 2 && w[|w| - 2] == (FeedPath(site.settings), site.render(site.settings.templates.feed, listing)))
    ensures PostsStage(site, s).Ok?
    ensures BeforeIndex(site, PostsStage(site, s).value, tagOrder, authorOrder).tplVars == s.tplVars
    ensures var s5 := IndexStage(site, BeforeIndex(site, PostsStage(site, s).value, tagOrder, authorOrder));
      s5.Ok? && PostsKey !in s5.value.tplVars &&
      Writes(GenerateSpec(site, s, tagOrder, authorOrder).value.disk.log) ==
      Writes(s5.value.disk.log) + ListingWrites(site, s5.value)
  {
    GenerateSteps(site, s, tagOrder, authorOrder);
    var s4 := BeforeIndex(site, PostsStage(site, s).value, tagOrder, authorOrder);
    IndexStageResult(site, s4);
    IndexStageOrder(site, s4);
    var s5 := IndexStage(site, s4).value;
    assert PostsKey !in s5.tplVars;
    AfterIndexKeeps(site, s5);
    AfterIndexWrites(site, s5);
  }

  /** The stages after the index change neither the posts nor a context without `posts`. */
  lemma {:induction false} AfterIndexKeeps(site: Site, s5: State)
    requires PostsKey !in s5.tplVars
    ensures AfterIndex(site, s5).posts == s5.posts && AfterIndex(site, s5).tplVars == s5.tplVars
  {
    var s6 := if site.settings.blog.generateFeed then FeedStage(site, s5) else s5;
    ListingStageResult(s5, FeedPath(site.settings), c => site.render(site.settings.templates.feed, c));
    ListingStageResult(s6, ArchivePath(site.settings), c => site.render(site.settings.templates.archive, c));
  }

  /** The writes after the index: the feed page only when `generate_feed` is set, then
      the archive page, both rendered with every post in the order the index left them. */
  function ListingWrites(site: Site, s5: State): seq<(string, string)> {
    var listing := s5.tplVars[PostsKey := PostsCtx(s5.posts)];
    (if site.settings.blog.generateFeed
     then [(FeedPath(site.settings), site.render(site.settings.templates.feed, listing))]
     else []) +
    [(ArchivePath(site.settings), site.render(site.settings.templates.archive, listing))]
  }

  /** The stages after the index write exactly the archive, preceded by the feed when
      and only when `generate_feed` is set, both rendered with every post in the order
      the index left them. */
  lemma {:induction false} AfterIndexWrites(site: Site, s5: State)
    requires PostsKey !in s5.tplVars
    ensures Writes(AfterIndex(site, s5).disk.log) == Writes(s5.disk.log) + ListingWrites(site, s5)
    ensures var r := AfterIndex(site, s5);
      var listing := s5.tplVars[PostsKey := PostsCtx(s5.posts)];
      var w := Writes(r.disk.log);
      |w| >= 1 && w[|w| - 1] == (ArchivePath(site.settings), site.render(site.settings.templates.archive, listing)) &&
      (site.settings.blog.generateFeed ==>
         |w| >= 2 && w[|w| - 2] == (FeedPath(site.settings), site.render(site.settings.templates.feed, listing)))
  {
    AfterIndexListing(site, s5);
    var listing := s5.tplVars[PostsKey := PostsCtx(s5.posts)];
    EndsWithListing(Writes(AfterIndex(site, s5).disk.log), Writes(s5.disk.log),
                    (FeedPath(site.settings), site.render(site.settings.templates.feed, listing)),
                    (ArchivePath(site.settings), site.render(site.settings.templates.archive, listing)),
                    site.settings.blog.generateFeed);
  }

  /** The writes after the index, in full. */
  lemma {:induction false} AfterIndexListing(site: Site, s5: State)
    requires PostsKey !in s5.tplVars
    ensures Writes(AfterIndex(site, s5).disk.log) == Writes(s5.disk.log) + ListingWrites(site, s5)
  {
    var archive := c => site.render(site.settings.templates.archive, c);
    if site.settings.blog.generateFeed {
      var s6 := FeedStage(site, s5);
      ListingStageResult(s5, FeedPath(site.settings), c => site.render(site.settings.templates.feed, c));
      ListingStageResult(s6, ArchivePath(site.settings), archive);
    } else {
      ListingStageResult(s5, ArchivePath(site.settings), archive);
    }
  }

  /** A log that ends with an optional `f` and then `a` has `a` last and `f` just before. */
  lemma {:induction false} EndsWithListing<T>(w: seq<T>, pre: seq<T>, f: T, a: T, withF: bool)
    requires w == pre + ((if withF then [f] else []) + [a])
    ensures |w| >= 1 && w[|w| - 1] == a
    ensures withF ==> |w| >= 2 && w[|w| - 2] == f
  {
  }
}
