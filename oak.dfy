/** The generator of `oak/__init__.py`: the site's URLs and output paths, the template
    context, the stages of a run as functions of the generator's state, and the `Oak`
    class whose methods perform them. */
module OakSite {
  import opened Wrappers
  import opened PyOps
  import opened PosixPath
  import opened Files
  import opened Config
  import opened Tags
  import opened Authors
  import opened Posts
  import opened PostOrder

  // ---------------------------------------------------------------- URLs and paths

  /** The site's base URL: `http://domain/base_path`, each part stripped of '/', or
      `http://domain` when no base path is set. */
  function BaseUrl(settings: Settings): (r: string)
    ensures StartsWith(r, "http://")
    ensures var host := "http://" + Strip(settings.blog.domain, '/');
      StartsWith(r, host) &&
      (settings.urlPaths.basePath == "" ==> r == host) &&
      (settings.urlPaths.basePath != "" ==> r[|host|..] == "/" + Strip(settings.urlPaths.basePath, '/'))
  {
    var host := "http://" + Strip(settings.blog.domain, '/');
    if settings.urlPaths.basePath != "" then
      Suffixed(host, "/" + Strip(settings.urlPaths.basePath, '/'))
    else
      host
  }

  /** `a + b` starts with `a`, and `b` follows it. */
  function Suffixed(a: string, b: string): (r: string)
    ensures StartsWith(r, a) && r[|a|..] == b
  {
    assert (a + b)[..|a|] == a;
    a + b
  }

  /** Slashes around the domain and the base path do not change the base URL, as long
      as a base path made of slashes only is not reduced to an empty one. */
  lemma {:induction false} BaseUrlIgnoresSlashes(settings: Settings, domain: string, basePath: string)
    requires Strip(domain, '/') == Strip(settings.blog.domain, '/')
    requires Strip(basePath, '/') == Strip(settings.urlPaths.basePath, '/')
    requires (basePath == "") == (settings.urlPaths.basePath == "")
    ensures BaseUrl(settings.(blog := settings.blog.(domain := domain),
                              urlPaths := settings.urlPaths.(basePath := basePath))) == BaseUrl(settings)
  {
  }

  /** The base URL never ends in '/' when the domain and any base path hold more than
      slashes; then joining a page to it with '/' puts exactly one '/' in between. */
  lemma {:induction false} BaseUrlNoTrailingSlash(settings: Settings)
    requires Strip(settings.blog.domain, '/') != ""
    requires settings.urlPaths.basePath == "" || Strip(settings.urlPaths.basePath, '/') != ""
    ensures BaseUrl(settings)[|BaseUrl(settings)| - 1] != '/'
  {
    var domain := Strip(settings.blog.domain, '/');
    var path := Strip(settings.urlPaths.basePath, '/');
    NoTrailingSlash(BaseUrl(settings), domain, path, settings.urlPaths.basePath != "");
  }

  /** `http://domain`, possibly followed by `/path`, ends as `domain` or `path` does. */
  lemma {:induction false} NoTrailingSlash(u: string, domain: string, path: string, hasPath: bool)
    requires domain != "" && domain[|domain| - 1] != '/'
    requires StartsWith(u, "http://" + domain)
    requires !hasPath ==> u == "http://" + domain
    requires hasPath ==> path != "" && path[|path| - 1] != '/' && u[|"http://" + domain|..] == "/" + path
    ensures u[|u| - 1] != '/'
  {
    if hasPath {
      LastOfConcat("/" + path, "/", path);
      LastOfSuffix(u, |"http://" + domain|, "/" + path);
    } else {
      LastOfConcat(u, "http://", domain);
    }
  }

  /** The last character of `u` is the last of its non-empty suffix `b`. */
  lemma {:induction false} LastOfSuffix(u: string, n: nat, b: string)
    requires n <= |u| && u[n..] == b && b != ""
    ensures u[|u| - 1] == b[|b| - 1]
  {
    assert u[|u| - 1] == u[n..][|u| - 1 - n];
  }

  /** The last character of `u == a + b` is the last of `b` when `b` is not empty. */
  lemma {:induction false} LastOfConcat(u: string, a: string, b: string)
    requires u == a + b && b != ""
    ensures u[|u| - 1] == b[|b| - 1]
  {
  }

  /** `_get_complete_url`: a path starting with '/' is kept, any other is joined to
      the base URL. */
  function CompleteUrl(baseUrl: string, path: string): (r: string)
    ensures EndsWith(r, path)
    ensures r == path <==> StartsWith(path, "/")
    ensures !StartsWith(path, "/") ==> r == baseUrl + "/" + path
  {
    JoinSmall(baseUrl, path, "", "/");
    if StartsWith(path, "/") then path else Join([baseUrl, path], "/")
  }

  /** `_get_complete_path`: the path under the output directory. */
  function CompletePath(settings: Settings, path: string): (r: string)
    ensures r == settings.physicalPaths.output + "/" + path
  {
    JoinSmall(settings.physicalPaths.output, path, "", "/");
    Join([settings.physicalPaths.output, path], "/")
  }

  /** `_author_path`: the page `output/prefix/name.html`, or the directory
      `output/prefix` when the name is empty or omitted. */
  function AuthorPath(settings: Settings, name: string): (r: string)
    ensures name == "" ==> r == settings.physicalPaths.output + "/" + settings.urlPaths.authors
    ensures name != "" ==> r == settings.physicalPaths.output + "/" + settings.urlPaths.authors + "/" + name + ".html"
  {
    JoinSmall(settings.physicalPaths.output, settings.urlPaths.authors, name + ".html", "/");
    if name != "" then Join([settings.physicalPaths.output, settings.urlPaths.authors, name + ".html"], "/")
    else Join([settings.physicalPaths.output, settings.urlPaths.authors], "/")
  }

  /** `_index_path` */
  function IndexPath(settings: Settings): string {
    CompletePath(settings, settings.pages.index)
  }

  /** `_tag_index_path` */
  function TagIndexPath(settings: Settings): string {
    CompletePath(settings, settings.pages.taglist)
  }

  /** `_author_index_path` */
  function AuthorIndexPath(settings: Settings): string {
    CompletePath(settings, settings.pages.authorlist)
  }

  /** `_archive_path` */
  function ArchivePath(settings: Settings): string {
    CompletePath(settings, settings.pages.archive)
  }

  /** The feed's file name, fixed whatever the `pages` settings say. */
  const FeedFile := "atom.xml"

  /** `_feed_path` */
  function FeedPath(settings: Settings): string {
    CompletePath(settings, FeedFile)
  }

  /** `_index_url`: joining the single page name gives the name itself. */
  function IndexUrl(settings: Settings): (r: string)
    ensures r == settings.pages.index
  {
    Join([settings.pages.index], "/")
  }

  /** `_tag_index_url` */
  function TagIndexUrl(settings: Settings): (r: string)
    ensures r == settings.pages.taglist
  {
    Join([settings.pages.taglist], "/")
  }

  /** `_author_index_url` */
  function AuthorIndexUrl(settings: Settings): (r: string)
    ensures r == settings.pages.authorlist
  {
    Join([settings.pages.authorlist], "/")
  }

  /** `_archive_url` */
  function ArchiveUrl(settings: Settings): (r: string)
    ensures r == settings.pages.archive
  {
    Join([settings.pages.archive], "/")
  }

  /** Pages named without '/' land directly in the output directory, so writing them
      creates no directory once it exists, and differently named pages never share
      a file. */
  lemma {:induction false} OutputPages(settings: Settings, a: string, b: string)
    requires settings.physicalPaths.output != []
    requires settings.physicalPaths.output[|settings.physicalPaths.output| - 1] != '/'
    requires '/' !in a && '/' !in b
    ensures Dirname(CompletePath(settings, a)) == settings.physicalPaths.output
    ensures CompletePath(settings, a) == CompletePath(settings, b) ==> a == b
  {
    var out := settings.physicalPaths.output;
    DirnameOfChild(out, a);
    if CompletePath(settings, a) == CompletePath(settings, b) {
      assert (out + "/" + a)[|out| + 1..] == a;
      assert (out + "/" + b)[|out| + 1..] == b;
    }
  }

  /** The author directory is a prefix of every named author page, and distinct names
      get distinct pages. */
  lemma {:induction false} AuthorPathsUnderDirectory(settings: Settings, a: string, b: string)
    requires a != "" && b != ""
    ensures StartsWith(AuthorPath(settings, a), AuthorPath(settings, "") + "/")
    ensures AuthorPath(settings, a) == AuthorPath(settings, b) ==> a == b
  {
    var dir := AuthorPath(settings, "") + "/";
    if AuthorPath(settings, a) == AuthorPath(settings, b) {
      assert (dir + a + ".html")[|dir|..|dir| + |a|] == a;
      assert (dir + b + ".html")[|dir|..|dir| + |b|] == b;
    }
  }

  // ---------------------------------------------------------------- template context

  /** The `blog` entry of the context. */
  datatype BlogInfo = BlogInfo(
    title: string, url: string, id: string, lastUpdated: Option<Value>, author: string, email: string)

  /** The `links` entry of the context. */
  datatype Links = Links(
    site: string, taglist: string, archive: string, authorlist: string, feed: string, css: string)

  /** A value of the template context. */
  datatype CtxValue =
    | BlogCtx(blog: BlogInfo)
    | TextCtx(text: string)
    | LinksCtx(links: Links)
    | PostCtx(post: Post)
    | TagCtx(tag: Tag<Post>)
    | TagsCtx(tags: map<string, Tag<Post>>)
    | AuthorCtx(author: Author<Post>)
    | AuthorsCtx(authors: map<string, Author<Post>>)
    | PostsCtx(posts: seq<Post>)

  type Ctx = map<string, CtxValue>

  const BlogKey := "blog"
  const LicenseKey := "license_text"
  const LinksKey := "links"
  const TagKey := "tag"
  const TagsKey := "tags"
  const AuthorKey := "author"
  const AuthorsKey := "authors"
  const PostsKey := "posts"

  /** The keys a stage adds for one page and pops again. */
  const Transient: set<string> := {PostKey, TagKey, TagsKey, AuthorKey, AuthorsKey, PostsKey}

  /** The context holds the `blog` mapping the index stage updates. */
  predicate BlogReady(ctx: Ctx) {
    BlogKey in ctx && ctx[BlogKey].BlogCtx?
  }

  /** The context holds none of the transient keys. */
  predicate Clean(ctx: Ctx) {
    ctx.Keys !! Transient
  }

  /** The lasting keys of the context are not transient. */
  lemma {:induction false} LastingKeys()
    ensures {BlogKey, LicenseKey, LinksKey} !! Transient
  {
    assert BlogKey[0] != PostKey[0] && BlogKey[0] != TagsKey[0] && LinksKey[0] != PostsKey[0];
    assert |BlogKey| == 4 && |LicenseKey| == 12 && |LinksKey| == 5;
    assert |PostKey| == 4 && |TagKey| == 3 && |TagsKey| == 4 && |AuthorKey| == 6 && |AuthorsKey| == 7 && |PostsKey| == 5;
  }

  /** `self.tpl_vars` as `__init__` builds it. */
  function InitialContext(settings: Settings): (ctx: Ctx)
    ensures BlogReady(ctx) && Clean(ctx)
    ensures ctx.Keys == {BlogKey, LicenseKey, LinksKey}
    ensures ctx[BlogKey].blog.lastUpdated == None
    ensures ctx[BlogKey].blog.id == ctx[BlogKey].blog.url + "/" + FeedFile
  {
    var baseUrl := BaseUrl(settings);
    JoinSmall(baseUrl, FeedFile, "", "/");
    LastingKeys();
    map[BlogKey := BlogCtx(BlogInfo(settings.blog.title, baseUrl, Join([baseUrl, FeedFile], "/"), None,
                                    settings.author.name, settings.author.email)),
        LicenseKey := TextCtx(settings.blog.licenseText),
        LinksKey := LinksCtx(Links(baseUrl,
                                   CompleteUrl(baseUrl, settings.pages.taglist),
                                   CompleteUrl(baseUrl, settings.pages.archive),
                                   CompleteUrl(baseUrl, settings.pages.authorlist),
                                   CompleteUrl(baseUrl, settings.pages.feed),
                                   CompleteUrl(baseUrl, settings.pages.css)))]
  }

  /** The link to `page`: the page itself when it starts with '/', otherwise the base
      URL, '/' and the page. */
  predicate LinkTo(baseUrl: string, page: string, link: string) {
    if StartsWith(page, "/") then link == page else link == baseUrl + "/" + page
  }

  /** The site link is the base URL, and every other link of the initial context is
      its page made absolute: kept when it starts with '/', else put under the base
      URL; so each link ends with its page's name. */
  lemma {:induction false} InitialLinks(settings: Settings)
    ensures var l := InitialContext(settings)[LinksKey].links;
      var b := BaseUrl(settings);
      l.site == b &&
      LinkTo(b, settings.pages.taglist, l.taglist) && LinkTo(b, settings.pages.archive, l.archive) &&
      LinkTo(b, settings.pages.authorlist, l.authorlist) && LinkTo(b, settings.pages.feed, l.feed) &&
      LinkTo(b, settings.pages.css, l.css) &&
      EndsWith(l.taglist, settings.pages.taglist) && EndsWith(l.archive, settings.pages.archive) &&
      EndsWith(l.authorlist, settings.pages.authorlist) && EndsWith(l.feed, settings.pages.feed) &&
      EndsWith(l.css, settings.pages.css) &&
      (l.css == settings.pages.css <==> StartsWith(settings.pages.css, "/"))
  {
  }

  // ---------------------------------------------------------------- stages

  /** What a run works with and never changes: the settings, the collaborators posts
      are read with, and the Jinja environment, which renders a named template with a
      context. */
  datatype Site = Site(settings: Settings, env: Env, render: (string, Ctx) -> string)

  /** What a run changes: the posts, the tag and author groups, the template context
      and the output disk. */
  datatype State = State(
    posts: seq<Post>, tags: map<string, Tag<Post>>, authors: map<string, Author<Post>>, tplVars: Ctx, disk: Disk)

  /** The glob pattern of the post sources. */
  function PostPattern(settings: Settings): string {
    AcornPattern(settings.physicalPaths.content, settings.posts.extension)
  }

  /** The post loop of `_do_posts`, started from the context `ctx`. */
  function PostsPassOf(site: Site, ctx: Ctx): (ps: Pass<CtxValue>)
    ensures ReadsPosts(ps) && ps.ctx == ctx && ps.settings == site.settings
  {
    PostPass(site.env, BaseUrl(site.settings), site.settings, ctx,
             p => PostCtx(p), c => site.render(site.settings.templates.post, c))
  }

  /** `_do_posts`: read every post source and file the posts by tag and author into
      the groups already held, append them to the posts already held, and write each
      post's page. */
  function PostsStage(site: Site, s: State): Result<State>
  {
    var ps := PostsPassOf(site, s.tplVars);
    var files := site.env.glob(PostPattern(site.settings));
    var r := Discover(Acorns([], Groups(s.tags, s.authors)), files, ps);
    if r.Err? then Err(r.error)
    else
      Ok(State(s.posts + r.value.posts, r.value.groups.tags, r.value.groups.authors,
               if files == [] then s.tplVars else s.tplVars - {PostKey},
               PublishPosts(s.disk, r.value.posts, ps)))
  }

  /** The post stage fails with the first failure of its loop. */
  lemma {:induction false} PostsStageErr(site: Site, s: State, e: Error)
    requires Discover(Acorns([], Groups(s.tags, s.authors)), site.env.glob(PostPattern(site.settings)),
                      PostsPassOf(site, s.tplVars)) == Err(e)
    ensures PostsStage(site, s) == Err(e)
  {
  }

  /** The post stage, given the outcome of its loop. */
  lemma {:induction false} PostsStageOk(site: Site, s: State, files: seq<string>, ps: Pass<CtxValue>, st: Acorns, ctx: Ctx, d: Disk)
    requires files == site.env.glob(PostPattern(site.settings))
    requires ps == PostsPassOf(site, s.tplVars)
    requires Discover(Acorns([], Groups(s.tags, s.authors)), files, ps) == Ok(st)
    requires ctx == if files == [] then s.tplVars else s.tplVars - {PostKey}
    requires d == PublishPosts(s.disk, st.posts, ps)
    ensures PostsStage(site, s) == Ok(State(s.posts + st.posts, st.groups.tags, st.groups.authors, ctx, d))
  {
  }

  /** The post stage, given what its loop returned: an error ends the stage with
      that error, otherwise the collected posts, groups, disk and context are the
      new state. */
  lemma {:induction false} PostsStageOutcome(site: Site, s: State, files: seq<string>, ps: Pass<CtxValue>, err: Option<Error>,
                          postList: seq<Post>, tagMap: map<string, Tag<Post>>,
                          authorMap: map<string, Author<Post>>, d: Disk, ctx: Ctx)
    requires files == site.env.glob(PostPattern(site.settings))
    requires ps == PostsPassOf(site, s.tplVars)
    requires var r := Discover(Acorns([], Groups(s.tags, s.authors)), files, ps);
             if err.None?
             then r == Ok(Acorns(postList, Groups(tagMap, authorMap))) && d == PublishPosts(s.disk, postList, ps) &&
                  ctx == (if files == [] then s.tplVars else s.tplVars - {PostKey})
             else r == Err(err.value)
    ensures PostsStage(site, s) == if err.None? then Ok(State(s.posts + postList, tagMap, authorMap, ctx, d))
                                   else Err(err.value)
  {
    if err.Some? {
      PostsStageErr(site, s, err.value);
    } else {
      PostsStageOk(site, s, files, ps, Acorns(postList, Groups(tagMap, authorMap)), ctx, d);
    }
  }

  /** A tag's page. */
  function TagPage(site: Site, ctx: Ctx, t: Tag<Post>): string {
    site.render(site.settings.templates.tag, ctx[TagKey := TagCtx(t)])
  }

  /** `_do_tag` for the tags named by `order`, in that order. */
  function TagPages(site: Site, d: Disk, ctx: Ctx, tags: map<string, Tag<Post>>, order: seq<string>): Disk
    decreases |order|
  {
    if order == [] then d
    else
      var prev := TagPages(site, d, ctx, tags, order[..|order| - 1]);
      var k := order[|order| - 1];
      if k in tags then WriteFile(prev, tags[k].path, TagPage(site, ctx, tags[k])) else prev
  }

  /** `_do_tags`, visiting the tags in the order `order` (the order of `dict.keys()`,
      which Python leaves open). */
  function TagsStage(site: Site, s: State, order: seq<string>): State
  {
    var settings := site.settings;
    var d1 := EnsureDir(s.disk, TagPath(settings.physicalPaths.output, settings.urlPaths.tags, ""));
    var ctx1 := s.tplVars[TagsKey := TagsCtx(s.tags)];
    var d2 := WriteFile(d1, TagIndexPath(settings), site.render(settings.templates.taglist, ctx1));
    var ctx2 := ctx1 - {TagsKey};
    s.(tplVars := if order == [] then ctx2 else ctx2 - {TagKey},
       disk := TagPages(site, d2, ctx2, s.tags, order))
  }

  /** An author's page. */
  function AuthorPage(site: Site, ctx: Ctx, a: Author<Post>): string {
    site.render(site.settings.templates.author, ctx[AuthorKey := AuthorCtx(a)])
  }

  /** `_do_author` for the authors named by `order`, in that order. */
  function AuthorPages(site: Site, d: Disk, ctx: Ctx, authors: map<string, Author<Post>>, order: seq<string>): Disk
    decreases |order|
  {
    if order == [] then d
    else
      var prev := AuthorPages(site, d, ctx, authors, order[..|order| - 1]);
      var k := order[|order| - 1];
      if k in authors then WriteFile(prev, AuthorPath(site.settings, authors[k].author), AuthorPage(site, ctx, authors[k]))
      else prev
  }

  /** `_do_authors`, visiting the authors in the order `order`. */
  function AuthorsStage(site: Site, s: State, order: seq<string>): State
  {
    var settings := site.settings;
    var d1 := EnsureDir(s.disk, AuthorPath(settings, ""));
    var ctx1 := s.tplVars[AuthorsKey := AuthorsCtx(s.authors)];
    var d2 := WriteFile(d1, AuthorIndexPath(settings), site.render(settings.templates.authorlist, ctx1));
    var ctx2 := ctx1 - {AuthorsKey};
    s.(tplVars := if order == [] then ctx2 else ctx2 - {AuthorKey},
       disk := AuthorPages(site, d2, ctx2, s.authors, order))
  }

  /** One more tag page. */
  lemma {:induction false} TagPagesNext(site: Site, d: Disk, ctx: Ctx, tags: map<string, Tag<Post>>, order: seq<string>, t: string)
    requires t in tags
    ensures TagPages(site, d, ctx, tags, order + [t]) ==
            WriteFile(TagPages(site, d, ctx, tags, order), tags[t].path, TagPage(site, ctx, tags[t]))
  {
    assert (order + [t])[..|order|] == order;
  }

  /** One more author page. */
  lemma {:induction false} AuthorPagesNext(site: Site, d: Disk, ctx: Ctx, authors: map<string, Author<Post>>, order: seq<string>, a: string)
    requires a in authors
    ensures AuthorPages(site, d, ctx, authors, order + [a]) ==
            WriteFile(AuthorPages(site, d, ctx, authors, order), AuthorPath(site.settings, authors[a].author),
                      AuthorPage(site, ctx, authors[a]))
  {
    assert (order + [a])[..|order|] == order;
  }

  /** A tag page does not depend on whether the previous page's `tag` key was popped. */
  lemma {:induction false} TagPageAgain(site: Site, ctx: Ctx, cur: Ctx, t: Tag<Post>)
    requires cur == ctx || cur == ctx - {TagKey}
    ensures TagPage(site, cur, t) == TagPage(site, ctx, t) && cur - {TagKey} == ctx - {TagKey}
  {
    TransientKey(TagKey, ctx, cur, TagCtx(t));
  }

  /** An author page does not depend on whether the previous page's `author` key was popped. */
  lemma {:induction false} AuthorPageAgain(site: Site, ctx: Ctx, cur: Ctx, a: Author<Post>)
    requires cur == ctx || cur == ctx - {AuthorKey}
    ensures AuthorPage(site, cur, a) == AuthorPage(site, ctx, a) && cur - {AuthorKey} == ctx - {AuthorKey}
  {
    TransientKey(AuthorKey, ctx, cur, AuthorCtx(a));
  }

  /** The static directory of the default layout. */
  function LayoutStatic(settings: Settings): string {
    Join([settings.physicalPaths.layouts, settings.blog.defaultLayout, settings.physicalPaths.staticDir], "/")
  }

  /** `_copy_statics`: copy the static directory into the output, then the layout's
      static directory when it is an existing directory. */
  function StaticsStage(site: Site, s: State): State
  {
    var settings := site.settings;
    var staticPath := CompletePath(settings, settings.physicalPaths.staticDir);
    var d1 := CopyTree(s.disk, settings.physicalPaths.staticDir, staticPath);
    var layoutStatic := LayoutStatic(settings);
    s.(disk := if layoutStatic in d1.dirs then CopyTree(d1, layoutStatic, staticPath) else d1)
  }

  /** The key `_do_index` sorts by. */
  const PubDate := "pub_date"

  /** The message of the `TypeError` a comparison of a date with text raises. */
  const Uncomparable := "can't compare datetime.datetime to str"

  /** Every post has a `pub_date`. */
  predicate AllHaveDates(ps: seq<Post>) {
    forall i :: 0 <= i < |ps| ==> PubDate in ps[i].metadata
  }

  /** The `pub_date` of the first post in date order, the index's `last_updated`. */
  function LastUpdated(ps: seq<Post>): (v: Value)
    requires ps != [] && AllHaveDates(ps)
    requires |ps| == 1 || AllDated(ps)
    ensures exists i :: 0 <= i < |ps| && v == ps[i].metadata[PubDate]
  {
    SortAscending(ps);
    var first := SortByDate(ps)[0];
    assert first in multiset(ps);
    var i :| 0 <= i < |ps| && ps[i] == first;
    first.metadata[PubDate]
  }

  /** `_do_index`: sort the posts by date, record the first date as the blog's last
      update, reverse them when `sort_reverse` is set, and write the index with the
      first `max_posts` of them. The posts stay in that order. */
  function IndexStage(site: Site, s: State): Result<State>
    requires BlogReady(s.tplVars)
  {
    var settings := site.settings;
    if !AllHaveDates(s.posts) then Err(KeyError(PubDate))
    else if s.posts == [] then Err(IndexError("list index out of range"))
    else if |s.posts| >= 2 && !AllDated(s.posts) then Err(TypeError(Uncomparable))
    else
      var arranged := Arranged(s.posts, settings.posts.pagination.sortReverse);
      var blog := s.tplVars[BlogKey].blog.(lastUpdated := Some(LastUpdated(s.posts)));
      var ctx := s.tplVars[BlogKey := BlogCtx(blog)]
                          [PostsKey := PostsCtx(PrefixSlice(arranged, settings.posts.pagination.maxPosts))];
      Ok(s.(posts := arranged,
            tplVars := ctx - {PostsKey},
            disk := WriteFile(s.disk, IndexPath(settings), site.render(settings.templates.index, ctx))))
  }

  /** The index stage when every post has a comparable date. */
  lemma {:induction false} IndexStageOk(site: Site, s: State, arranged: seq<Post>, ctx: Ctx)
    requires BlogReady(s.tplVars) && AllHaveDates(s.posts) && s.posts != []
    requires |s.posts| == 1 || AllDated(s.posts)
    requires arranged == Arranged(s.posts, site.settings.posts.pagination.sortReverse)
    requires ctx == s.tplVars[BlogKey := BlogCtx(s.tplVars[BlogKey].blog.(lastUpdated := Some(LastUpdated(s.posts))))]
                             [PostsKey := PostsCtx(PrefixSlice(arranged, site.settings.posts.pagination.maxPosts))]
    ensures IndexStage(site, s) ==
            Ok(s.(posts := arranged, tplVars := ctx - {PostsKey},
                  disk := WriteFile(s.disk, IndexPath(site.settings), site.render(site.settings.templates.index, ctx))))
  {
  }

  /** A page listing every post: the feed and the archive. */
  function ListingStage(s: State, path: string, page: Ctx -> string): State
  {
    var ctx := s.tplVars[PostsKey := PostsCtx(s.posts)];
    s.(tplVars := ctx - {PostsKey}, disk := WriteFile(s.disk, path, page(ctx)))
  }

  /** `_do_feed` */
  function FeedStage(site: Site, s: State): State {
    ListingStage(s, FeedPath(site.settings), c => site.render(site.settings.templates.feed, c))
  }

  /** `_do_archive` */
  function ArchiveStage(site: Site, s: State): State {
    ListingStage(s, ArchivePath(site.settings), c => site.render(site.settings.templates.archive, c))
  }

  /** The context a stage leaves: the one it was given, less some transient keys. */
  predicate KeepsContext(ctx: Ctx, ctx': Ctx) {
    ctx'.Keys <= ctx.Keys &&
    (forall k :: k in ctx' ==> ctx'[k] == ctx[k]) &&
    (forall k :: k in ctx && k !in Transient ==> k in ctx')
  }

  /** Removing transient keys keeps the context. */
  lemma {:induction false} DropTransient(ctx: Ctx, x: set<string>)
    requires x <= Transient
    ensures KeepsContext(ctx, ctx - x)
  {
  }

  /** The post stage adds and pops the post key only. */
  lemma {:induction false} PostsStageContext(site: Site, s: State)
    requires PostsStage(site, s).Ok?
    ensures KeepsContext(s.tplVars, PostsStage(site, s).value.tplVars)
  {
    assert s.tplVars - {} == s.tplVars;
    DropTransient(s.tplVars, {});
    DropTransient(s.tplVars, {PostKey});
  }

  /** The tag stage adds and pops its two keys only. */
  lemma {:induction false} TagsStageContext(site: Site, s: State, order: seq<string>)
    ensures KeepsContext(s.tplVars, TagsStage(site, s, order).tplVars)
  {
    var ctx2 := s.tplVars[TagsKey := TagsCtx(s.tags)] - {TagsKey};
    assert ctx2 == s.tplVars - {TagsKey};
    assert ctx2 - {TagKey} == s.tplVars - {TagsKey, TagKey};
    DropTransient(s.tplVars, {TagsKey});
    DropTransient(s.tplVars, {TagsKey, TagKey});
  }

  /** The author stage adds and pops its two keys only. */
  lemma {:induction false} AuthorsStageContext(site: Site, s: State, order: seq<string>)
    ensures KeepsContext(s.tplVars, AuthorsStage(site, s, order).tplVars)
  {
    var ctx2 := s.tplVars[AuthorsKey := AuthorsCtx(s.authors)] - {AuthorsKey};
    assert ctx2 == s.tplVars - {AuthorsKey};
    assert ctx2 - {AuthorKey} == s.tplVars - {AuthorsKey, AuthorKey};
    DropTransient(s.tplVars, {AuthorsKey});
    DropTransient(s.tplVars, {AuthorsKey, AuthorKey});
  }

  /** Keeping the context keeps the `blog` mapping ready. */
  lemma {:induction false} KeepsContextBlog(ctx: Ctx, ctx': Ctx)
    requires BlogReady(ctx) && KeepsContext(ctx, ctx')
    ensures BlogReady(ctx') && ctx'[BlogKey] == ctx[BlogKey]
  {
    assert BlogKey !in Transient;
  }

  /** `generate`: posts, tags, authors, statics, the index, the feed when
      `generate_feed` is set, and the archive. The first failure ends the run. */
  function GenerateSpec(site: Site, s: State, tagOrder: seq<string>, authorOrder: seq<string>): Result<State>
    requires BlogReady(s.tplVars)
  {
    var r1 := PostsStage(site, s);
    if r1.Err? then Err(r1.error)
    else
      var s2 := TagsStage(site, r1.value, tagOrder);
      var s3 := AuthorsStage(site, s2, authorOrder);
      var s4 := StaticsStage(site, s3);
      PostsStageContext(site, s);
      TagsStageContext(site, r1.value, tagOrder);
      AuthorsStageContext(site, s2, authorOrder);
      KeepsContextBlog(s.tplVars, r1.value.tplVars);
      KeepsContextBlog(r1.value.tplVars, s2.tplVars);
      KeepsContextBlog(s2.tplVars, s3.tplVars);
      var r5 := IndexStage(site, s4);
      if r5.Err? then Err(r5.error)
      else
        var s6 := if site.settings.blog.generateFeed then FeedStage(site, r5.value) else r5.value;
        Ok(ArchiveStage(site, s6))
  }

  /** No key occurs twice. */
  predicate Distinct(order: seq<string>) {
    forall i, j :: 0 <= i < j < |order| ==> order[i] != order[j]
  }

  /** Part way through a loop over the keys of a dict: `order` lists the keys visited
      so far, once each, and `keys` holds the others. */
  predicate Visiting(dom: set<string>, keys: set<string>, order: seq<string>) {
    keys <= dom &&
    (forall k :: k in dom ==> (k in keys <==> k !in order)) &&
    (forall i :: 0 <= i < |order| ==> order[i] in dom) &&
    Distinct(order)
  }

  /** Visiting one more key. */
  lemma {:induction false} VisitNext(dom: set<string>, keys: set<string>, order: seq<string>, k: string)
    requires Visiting(dom, keys, order) && k in keys
    ensures Visiting(dom, keys - {k}, order + [k])
  {
  }

  /** At the end of the loop every key was visited once. */
  lemma {:induction false} VisitDone(dom: set<string>, order: seq<string>)
    requires Visiting(dom, {}, order)
    ensures Distinct(order) && forall k :: k in order <==> k in dom
  {
  }

  // ---------------------------------------------------------------- the generator

  /** The generator: its settings, collaborators and Jinja environment, and the state
      a run builds up. The output filesystem is a field of the model. */
  class Oak {
    const settings: Settings
    const env: Env
    const jenv: (string, Ctx) -> string
    const baseUrl: string := BaseUrl(settings)
    var posts: seq<Post>
    var tags: map<string, Tag<Post>>
    var authors: map<string, Author<Post>>
    var tplVars: Ctx
    var disk: Disk

    function SiteOf(): Site {
      Site(settings, env, jenv)
    }

    function Snapshot(): State
      reads this
    {
      State(posts, tags, authors, tplVars, disk)
    }

    /** `Oak(settings)`: no posts or groups yet, and the initial template context. */
    constructor(settings: Settings, env: Env, jenv: (string, Ctx) -> string, disk: Disk)
      ensures this.settings == settings && this.env == env && this.jenv == jenv
      ensures Snapshot() == State([], map[], map[], InitialContext(settings), disk)
    {
      this.settings := settings;
      this.env := env;
      this.jenv := jenv;
      posts := [];
      tags := map[];
      authors := map[];
      tplVars := InitialContext(settings);
      this.disk := disk;
    }

    /** The loop of `_do_posts` over the post files `files`: it reads each post, caches
        its tags and author in `tagMap` and `authorMap`, and renders its page with the
        `post` context entry set for that one page. It stops at the first failure, and
        returns what it collected up to there. */
    method ReadAndPublish(files: seq<string>, ps: Pass<CtxValue>, tags0: map<string, Tag<Post>>,
                          authors0: map<string, Author<Post>>, disk0: Disk, ctx0: Ctx)
      returns (err: Option<Error>, postList: seq<Post>, tagMap: map<string, Tag<Post>>,
               authorMap: map<string, Author<Post>>, d: Disk, ctx: Ctx)
      requires ps == PostsPassOf(SiteOf(), ctx0)
      ensures var r := Discover(Acorns([], Groups(tags0, authors0)), files, ps);
              if err.None?
              then r == Ok(Acorns(postList, Groups(tagMap, authorMap))) && d == PublishPosts(disk0, postList, ps) &&
                   ctx == (if files == [] then ctx0 else ctx0 - {PostKey})
              else r == Err(err.value)
    {
      ghost var start := Acorns([], Groups(tags0, authors0));
      postList := [];
      tagMap, authorMap, d, ctx := tags0, authors0, disk0, ctx0;
      var i := 0;
      err := None;
      while i < |files|
        invariant 0 <= i <= |files|
        invariant Discover(start, files[..i], ps) == Ok(Acorns(postList, Groups(tagMap, authorMap)))
        invariant d == PublishPosts(disk0, postList, ps)
        invariant ctx == if i == 0 then ps.ctx else ps.ctx - {PostKey}
      {
        ghost var s := Acorns(postList, Groups(tagMap, authorMap));
        // read the file into a post and file it under its tags and author
        var taken := TakeAcorn(ps, files[i], Groups(tagMap, authorMap));
        if taken.Err? {
          err := Some(taken.error);
          DiscoverFailsAt(start, files, i, ps, s, taken.error);
          return;
        }
        var (post, filed) := taken.value;
        DiscoverNext(start, files, i, ps, s, post, filed);
        PublishNext(disk0, postList, post, ps, d, ctx);
        postList, tagMap, authorMap := postList + [post], filed.tags, filed.authors;
        // the page's directory first, then the page
        d := EnsureDir(d, Dirname(post.outputPath));
        ctx := ctx[PostKey := PostCtx(post)];
        var output := jenv(settings.templates.post, ctx);
        d := WriteFile(d, post.outputPath, output);
        ctx := ctx - {PostKey};
        i := i + 1;
      }
      assert files[..i] == files;
    }

    /** `_do_posts` on the state `s`: the stage's error, or its new state. */
    method CollectPosts(s: State) returns (err: Option<Error>, r: State)
      ensures PostsStage(SiteOf(), s) == if err.None? then Ok(r) else Err(err.value)
    {
      var ps := PostsPassOf(SiteOf(), s.tplVars);
      var files := env.glob(PostPattern(settings));
      var postList, tagMap, authorMap, d, ctx;
      err, postList, tagMap, authorMap, d, ctx := ReadAndPublish(files, ps, s.tags, s.authors, s.disk, s.tplVars);
      PostsStageOutcome(SiteOf(), s, files, ps, err, postList, tagMap, authorMap, d, ctx);
      r := State(s.posts + postList, tagMap, authorMap, ctx, d);
    }

    /** `_do_posts`: the fields take what the loop collected, also when a post fails. */
    method DoPosts() returns (err: Option<Error>)
      modifies this
      ensures PostsStage(SiteOf(), old(Snapshot())) == if err.None? then Ok(Snapshot()) else Err(err.value)
    {
      var r;
      err, r := CollectPosts(Snapshot());
      posts, tags, authors, disk, tplVars := r.posts, r.tags, r.authors, r.disk, r.tplVars;
    }

    /** `_do_tag` */
    method DoTag(tag: Tag<Post>)
      modifies this
      ensures posts == old(posts) && tags == old(tags) && authors == old(authors)
      ensures tplVars == old(tplVars) - {TagKey}
      ensures disk == WriteFile(old(disk), tag.path, TagPage(SiteOf(), old(tplVars), tag))
    {
      tplVars := tplVars[TagKey := TagCtx(tag)];
      var output := jenv(settings.templates.tag, tplVars);
      disk := WriteFile(disk, tag.path, output);
      tplVars := tplVars - {TagKey};
    }

    /** `_do_tags`; returns the order it visited the tags in. */
    method DoTags() returns (order: seq<string>)
      modifies this
      ensures Distinct(order) && forall k :: k in order <==> k in old(tags)
      ensures Snapshot() == TagsStage(SiteOf(), old(Snapshot()), order)
    {
      ghost var s0 := Snapshot();
      disk := EnsureDir(disk, TagPath(settings.physicalPaths.output, settings.urlPaths.tags, ""));
      tplVars := tplVars[TagsKey := TagsCtx(tags)];
      var output := jenv(settings.templates.taglist, tplVars);
      disk := WriteFile(disk, TagIndexPath(settings), output);
      tplVars := tplVars - {TagsKey};
      ghost var d2, ctx2 := disk, tplVars;
      order := WriteTagPages();
      assert Snapshot() == s0.(tplVars := if order == [] then ctx2 else ctx2 - {TagKey},
                               disk := TagPages(SiteOf(), d2, ctx2, s0.tags, order));
    }

    /** The loop of `_do_tags`: `_do_tag` for each tag, in the order it returns. */
    method WriteTagPages() returns (order: seq<string>)
      modifies this
      ensures Distinct(order) && forall k :: k in order <==> k in tags
      ensures posts == old(posts) && tags == old(tags) && authors == old(authors)
      ensures disk == TagPages(SiteOf(), old(disk), old(tplVars), tags, order)
      ensures tplVars == if order == [] then old(tplVars) else old(tplVars) - {TagKey}
    {
      ghost var d2, ctx2 := disk, tplVars;
      var keys := tags.Keys;
      order := [];
      while keys != {}
        invariant Visiting(tags.Keys, keys, order)
        invariant posts == old(posts) && tags == old(tags) && authors == old(authors)
        invariant disk == TagPages(SiteOf(), d2, ctx2, tags, order)
        invariant tplVars == if order == [] then ctx2 else ctx2 - {TagKey}
        decreases keys
      {
        var t :| t in keys;
        TagPageAgain(SiteOf(), ctx2, tplVars, tags[t]);
        DoTag(tags[t]);
        VisitNext(tags.Keys, keys, order, t);
        TagPagesNext(SiteOf(), d2, ctx2, tags, order, t);
        order := order + [t];
        keys := keys - {t};
      }
      VisitDone(tags.Keys, order);
    }

    /** `_do_author` */
    method DoAuthor(author: Author<Post>)
      modifies this
      ensures posts == old(posts) && tags == old(tags) && authors == old(authors)
      ensures tplVars == old(tplVars) - {AuthorKey}
      ensures disk == WriteFile(old(disk), AuthorPath(settings, author.author), AuthorPage(SiteOf(), old(tplVars), author))
    {
      tplVars := tplVars[AuthorKey := AuthorCtx(author)];
      var output := jenv(settings.templates.author, tplVars);
      disk := WriteFile(disk, AuthorPath(settings, author.author), output);
      tplVars := tplVars - {AuthorKey};
    }

    /** `_do_authors`; returns the order it visited the authors in. */
    method DoAuthors() returns (order: seq<string>)
      modifies this
      ensures Distinct(order) && forall k :: k in order <==> k in old(authors)
      ensures Snapshot() == AuthorsStage(SiteOf(), old(Snapshot()), order)
    {
      ghost var s0 := Snapshot();
      disk := EnsureDir(disk, AuthorPath(settings, ""));
      tplVars := tplVars[AuthorsKey := AuthorsCtx(authors)];
      var output := jenv(settings.templates.authorlist, tplVars);
      disk := WriteFile(disk, AuthorIndexPath(settings), output);
      tplVars := tplVars - {AuthorsKey};
      ghost var d2, ctx2 := disk, tplVars;
      order := WriteAuthorPages();
      assert Snapshot() == s0.(tplVars := if order == [] then ctx2 else ctx2 - {AuthorKey},
                               disk := AuthorPages(SiteOf(), d2, ctx2, s0.authors, order));
    }

    /** The loop of `_do_authors`: `_do_author` for each author, in the order it returns. */
    method WriteAuthorPages() returns (order: seq<string>)
      modifies this
      ensures Distinct(order) && forall k :: k in order <==> k in authors
      ensures posts == old(posts) && tags == old(tags) && authors == old(authors)
      ensures disk == AuthorPages(SiteOf(), old(disk), old(tplVars), authors, order)
      ensures tplVars == if order == [] then old(tplVars) else old(tplVars) - {AuthorKey}
    {
      ghost var d2, ctx2 := disk, tplVars;
      var keys := authors.Keys;
      order := [];
      while keys != {}
        invariant Visiting(authors.Keys, keys, order)
        invariant posts == old(posts) && tags == old(tags) && authors == old(authors)
        invariant disk == AuthorPages(SiteOf(), d2, ctx2, authors, order)
        invariant tplVars == if order == [] then ctx2 else ctx2 - {AuthorKey}
        decreases keys
      {
        var a :| a in keys;
        AuthorPageAgain(SiteOf(), ctx2, tplVars, authors[a]);
        DoAuthor(authors[a]);
        VisitNext(authors.Keys, keys, order, a);
        AuthorPagesNext(SiteOf(), d2, ctx2, authors, order, a);
        order := order + [a];
        keys := keys - {a};
      }
      VisitDone(authors.Keys, order);
    }

    /** `_copy_statics` */
    method CopyStatics()
      modifies this
      ensures Snapshot() == StaticsStage(SiteOf(), old(Snapshot()))
    {
      var staticPath := CompletePath(settings, settings.physicalPaths.staticDir);
      disk := CopyTree(disk, settings.physicalPaths.staticDir, staticPath);
      var layoutStatic := LayoutStatic(settings);
      // the layout's own static files, when it has any
      if layoutStatic in disk.dirs {
        disk := CopyTree(disk, layoutStatic, staticPath);
      }
    }

    /** `_do_index` on the state `s`: the stage's error, or its new state. */
    method IndexOf(s: State) returns (err: Option<Error>, r: State)
      requires BlogReady(s.tplVars)
      ensures IndexStage(SiteOf(), s) == if err.None? then Ok(r) else Err(err.value)
    {
      r := s;
      // the sort and `posts[0]` look up every post's date
      if !AllHaveDates(s.posts) {
        err := Some(KeyError(PubDate));
        return;
      }
      if s.posts == [] {
        err := Some(IndexError("list index out of range"));
        return;
      }
      if |s.posts| >= 2 && !AllDated(s.posts) {
        err := Some(TypeError(Uncomparable));
        return;
      }
      var sorted := SortByDate(s.posts);
      SortAscending(s.posts);
      assert sorted[0] in multiset(s.posts);
      var blog := s.tplVars[BlogKey].blog;
      assert sorted[0].metadata[PubDate] == LastUpdated(s.posts);
      var ctx := s.tplVars[BlogKey := BlogCtx(blog.(lastUpdated := Some(sorted[0].metadata[PubDate])))];
      var arranged := sorted;
      if settings.posts.pagination.sortReverse {
        arranged := Reversed(sorted);
      }
      ctx := ctx[PostsKey := PostsCtx(PrefixSlice(arranged, settings.posts.pagination.maxPosts))];
      var output := jenv(settings.templates.index, ctx);
      IndexStageOk(SiteOf(), s, arranged, ctx);
      r := s.(posts := arranged, tplVars := ctx - {PostsKey}, disk := WriteFile(s.disk, IndexPath(settings), output));
      err := None;
    }

    /** `_do_index`: the fields take their new values together once the page is written. */
    method DoIndex() returns (err: Option<Error>)
      requires BlogReady(tplVars)
      modifies this
      ensures IndexStage(SiteOf(), old(Snapshot())) == if err.None? then Ok(Snapshot()) else Err(err.value)
    {
      var r;
      err, r := IndexOf(Snapshot());
      if err.None? {
        posts, tplVars, disk := r.posts, r.tplVars, r.disk;
      }
    }

    /** `_do_feed` */
    method DoFeed()
      modifies this
      ensures Snapshot() == FeedStage(SiteOf(), old(Snapshot()))
    {
      tplVars := tplVars[PostsKey := PostsCtx(posts)];
      var output := jenv(settings.templates.feed, tplVars);
      disk := WriteFile(disk, FeedPath(settings), output);
      tplVars := tplVars - {PostsKey};
    }

    /** `_do_archive` */
    method DoArchive()
      modifies this
      ensures Snapshot() == ArchiveStage(SiteOf(), old(Snapshot()))
    {
      tplVars := tplVars[PostsKey := PostsCtx(posts)];
      var output := jenv(settings.templates.archive, tplVars);
      disk := WriteFile(disk, ArchivePath(settings), output);
      tplVars := tplVars - {PostsKey};
    }

    /** `generate`; also returns the orders the tag and author pages were written in. */
    method Generate() returns (err: Option<Error>, tagOrder: seq<string>, authorOrder: seq<string>)
      requires BlogReady(tplVars)
      modifies this
      ensures GenerateSpec(SiteOf(), old(Snapshot()), tagOrder, authorOrder) ==
              if err.None? then Ok(Snapshot()) else Err(err.value)
      ensures err.None? ==> PostsStage(SiteOf(), old(Snapshot())).Ok?
      ensures err.None? ==> var s1 := PostsStage(SiteOf(), old(Snapshot())).value;
        Distinct(tagOrder) && (forall k :: k in tagOrder <==> k in s1.tags) &&
        Distinct(authorOrder) && (forall k :: k in authorOrder <==> k in s1.authors)
    {
      tagOrder, authorOrder := [], [];
      ghost var s0 := Snapshot();
      err := DoPosts();
      if err.Some? {
        return;
      }
      ghost var s1 := Snapshot();
      PostsStageContext(SiteOf(), s0);
      tagOrder := DoTags();
      ghost var s2 := Snapshot();
      TagsStageContext(SiteOf(), s1, tagOrder);
      authorOrder := DoAuthors();
      ghost var s3 := Snapshot();
      AuthorsStageContext(SiteOf(), s2, authorOrder);
      KeepsContextBlog(s0.tplVars, s1.tplVars);
      KeepsContextBlog(s1.tplVars, s2.tplVars);
      KeepsContextBlog(s2.tplVars, s3.tplVars);
      CopyStatics();
      err := DoIndex();
      if err.Some? {
        return;
      }
      // the feed is rendered from the posts in the order the index stage left them
      if settings.blog.generateFeed {
        DoFeed();
      }
      DoArchive();
    }
  }
}
