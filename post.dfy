/** The post record of `oak/models/post.py`: reading a post file, its paths and URL,
    and the discovery loop that groups posts by tag and author. */
module Posts {
  import opened Wrappers
  import opened PyOps
  import opened PosixPath
  import opened Files
  import opened Config
  import opened Tags
  import opened Authors

  /** The mark that opens and closes a post's header. */
  const HeaderMark := "---"

  /** The template-context key a post page is rendered with. */
  const PostKey := "post"

  /** A post: merged metadata, raw body, processed body (when a processor ran),
      output path, URL and feed id. */
  datatype Post = Post(
    metadata: Meta, raw: string, content: Option<string>, outputPath: string, url: string, id: string)

  /** The collaborators a post is read with: the source files by path, `glob`, the YAML
      parser (`None` for a header that is not a mapping), the body processor and
      `Atom.gen_id`. */
  datatype Env = Env(
    sources: map<string, string>,
    glob: string -> seq<string>,
    yaml: string -> Option<Meta>,
    process: Option<string -> string>,
    genId: Post -> string)

  // ---------------------------------------------------------------- header

  /** The header and the body: the text cut at the first two header marks, which must
      give exactly three pieces. */
  function SplitHeader(text: string): Result<(string, string)>
  {
    var parts := Split(text, HeaderMark, 2);
    if |parts| == 3 then Ok((parts[1], parts[2]))
    else Err(ValueError("need more than 2 values to unpack"))
  }

  /** For text that opens with the mark, the split has an empty preamble; it succeeds
      exactly when a second mark follows, and then the header is the text between the
      first two marks and the body everything after the second, later marks included. */
  lemma {:induction false} HeaderSplit(text: string)
    requires StartsWith(text, HeaderMark)
    ensures Split(text, HeaderMark, 2)[0] == ""
    ensures SplitHeader(text).Ok? <==> Find(text, HeaderMark, 3).Some?
    ensures SplitHeader(text).Ok? ==>
      var j := Find(text, HeaderMark, 3).value;
      SplitHeader(text).value == (text[3..j], text[j + 3..])
  {
    assert OccursAt(text, HeaderMark, 0);
    assert Find(text, HeaderMark, 0) == Some(0);
    var g := Find(text, HeaderMark, 3);
    if g.Some? {
      SplitTwice(text, HeaderMark, 0, g.value);
    } else {
      SplitOnce(text, HeaderMark, 0);
    }
  }

  /** A file written as mark, header, mark, body splits back into that header and
      body, provided no mark starts inside the header (even one running into the
      closing mark). */
  lemma {:induction false} HeaderRoundTrip(header: string, body: string)
    requires forall k :: 0 <= k < |header| ==> !OccursAt(header + HeaderMark, HeaderMark, k)
    ensures SplitHeader(HeaderMark + header + HeaderMark + body) == Ok((header, body))
  {
    var text := HeaderMark + header + HeaderMark + body;
    var j := 3 + |header|;
    assert text[3..] == header + HeaderMark + body;
    assert OccursAt(text, HeaderMark, j);
    forall k | 3 <= k < j
      ensures !OccursAt(text, HeaderMark, k)
    {
      assert !OccursAt(header + HeaderMark, HeaderMark, k - 3);
      if k + 3 <= |text| {
        assert text[k..k + 3] == (header + HeaderMark)[k - 3..k];
      }
    }
    assert Find(text, HeaderMark, 3) == Some(j);
    HeaderSplit(text);
    assert text[3..j] == header;
    assert text[j + 3..] == body;
  }

  // ---------------------------------------------------------------- paths

  /** The year and the month: the first two '-' separated fields of the post's name. */
  function YearMonth(name: string): Result<(string, string)>
  {
    var fields := Split(name, "-", -1);
    if |fields| >= 2 then Ok((fields[0], fields[1]))
    else Err(ValueError("need more than 1 value to unpack"))
  }

  /** The year is the text before the first '-', the month the first piece of the rest. */
  lemma {:induction false} YearMonthCut(name: string, i: nat)
    requires Find(name, "-", 0) == Some(i)
    ensures YearMonth(name) == Ok((name[..i], Split(name[i + 1..], "-", -1)[0]))
  {
    SplitHead(name, "-", -1);
  }

  /** The fields cut at a '-' with none before it: the year before it, the month the
      first piece of the rest. */
  lemma {:induction false} YearMonthPieces(name: string, i: nat)
    requires i < |name| && name[i] == '-' && '-' !in name[..i]
    ensures var y, m := name[..i], Split(name[i + 1..], "-", -1)[0];
      StartsWith(name, y + "-" + m) && '-' !in m &&
      (|name| == |y| + 1 + |m| || name[|y| + 1 + |m|] == '-')
  {
    var rest := name[i + 1..];
    assert "-" == ['-'];
    SplitFirstPiece(rest, '-');
    var y, m := name[..i], Split(rest, "-", -1)[0];
    assert name == y + "-" + rest by {
      assert name[i..] == [name[i]] + rest;
      assert name == name[..i] + name[i..];
    }
    assert |m| == |rest| || name[|y| + 1 + |m|] == rest[|m|];
  }

  /** The date fields exist exactly when the name holds a '-'; they are the text
      before the first '-' and the text from there up to the next '-' or the end. */
  lemma {:induction false} YearMonthFields(name: string)
    ensures YearMonth(name).Ok? <==> '-' in name
    ensures YearMonth(name).Ok? ==>
      var (y, m) := YearMonth(name).value;
      StartsWith(name, y + "-" + m) && '-' !in y && '-' !in m &&
      (|name| == |y| + 1 + |m| || name[|y| + 1 + |m|] == '-')
  {
    assert "-" == ['-'];
    FindChar(name, '-');
    var f := Find(name, "-", 0);
    if f.Some? {
      YearMonthCut(name, f.value);
      YearMonthPieces(name, f.value);
    } else {
      SplitHead(name, "-", -1);
    }
  }

  /** `_post_url(name)`: `/year/month/name.html`. */
  function PostUrl(name: string): Result<string>
  {
    match YearMonth(name)
    case Err(e) => Err(e)
    case Ok((year, month)) => Ok(Join(["", year, month, name + ".html"], "/"))
  }

  /** `_post_path(name, output_path)`: `output_path/year/month/name.html`. */
  function PostPath(name: string, outputPath: string): Result<string>
  {
    match YearMonth(name)
    case Err(e) => Err(e)
    case Ok((year, month)) => Ok(Join([outputPath, year, month, name + ".html"], "/"))
  }

  /** The post's path and URL fail together, on a name without a '-'; otherwise they
      share the same (year, month, name.html) triple and the path is the output
      directory followed by the URL. */
  lemma {:induction false} PostPathAndUrl(name: string, outputPath: string)
    ensures PostPath(name, outputPath).Ok? <==> '-' in name
    ensures PostUrl(name).Ok? <==> '-' in name
    ensures '-' in name ==>
      var (y, m) := YearMonth(name).value;
      PostUrl(name).value == "/" + y + "/" + m + "/" + name + ".html" &&
      PostPath(name, outputPath).value == outputPath + PostUrl(name).value
  {
    YearMonthFields(name);
    if '-' in name {
      var (y, m) := YearMonth(name).value;
      JoinFour("", y, m, name + ".html", "/");
      JoinFour(outputPath, y, m, name + ".html", "/");
      UnderOutput(outputPath, PostUrl(name).value, y, m, name + ".html");
    }
  }

  /** A path joined from the output directory is that directory followed by the URL
      joined from "". */
  lemma {:induction false} UnderOutput(o: string, url: string, y: string, m: string, page: string)
    requires url == "" + "/" + y + "/" + m + "/" + page
    ensures o + "/" + y + "/" + m + "/" + page == o + url
  {
    assert url == "/" + y + "/" + m + "/" + page;
  }

  // ---------------------------------------------------------------- reading a post

  /** `metadata.copy()` then `update(header)`: every default key is present, the
      header's keys override, and the defaults themselves are left as they were. */
  function MergeDefaults(defaults: Meta, header: Meta): (m: Meta)
    ensures forall k :: k in m <==> k in defaults || k in header
    ensures forall k :: k in header ==> m[k] == header[k]
    ensures forall k :: k in defaults && k !in header ==> m[k] == defaults[k]
  {
    defaults + header
  }

  const CannotOpen := "Unable to open file. Hint: isn't it UTF-8 encoded?"
  const NoHeader := "Post file invalid, no header found."

  /** `Post(f, url, settings, processor)`: opening the file. */
  function ReadPost(env: Env, f: string, url: string, settings: Settings): Result<Post>
  {
    if f !in env.sources then Err(PostError(CannotOpen))
    else ParsePost(env, f, env.sources[f], url, settings)
  }

  /** The header check and the split into header and body. */
  function ParsePost(env: Env, f: string, text: string, url: string, settings: Settings): Result<Post>
  {
    if !StartsWith(text, HeaderMark) then Err(PostError(NoHeader))
    else match SplitHeader(text)
      case Err(e) => Err(e)
      case Ok((header, raw)) => BuildPost(env, f, header, raw, url, settings)
  }

  /** The metadata merge, the processor, and the path, URL and id of the post. */
  function BuildPost(env: Env, f: string, header: string, raw: string, url: string, settings: Settings): Result<Post>
  {
    match env.yaml(header)
    case None => Err(TypeError("'NoneType' object is not iterable"))
    case Some(fields) =>
      var metadata := MergeDefaults(settings.posts.defaultInfo, fields);
      var content := if env.process.Some? then Some(env.process.value(raw)) else None;
      var name := Stem(f);
      match PostPath(name, settings.physicalPaths.output)
      case Err(e) => Err(e)
      case Ok(path) =>
        var post := Post(metadata, raw, content, path, url + PostUrl(name).value, "");
        Ok(post.(id := env.genId(post)))
  }

  /** How reading a post fails: an unreadable file or a missing opening mark raise
      PostError; a missing closing mark fails the unpacking with ValueError, which is
      not a PostError. */
  lemma {:induction false} ReadPostFailures(env: Env, f: string, url: string, settings: Settings)
    ensures f !in env.sources ==> ReadPost(env, f, url, settings) == Err(PostError(CannotOpen))
    ensures (f in env.sources && !StartsWith(env.sources[f], HeaderMark)) ==>
      ReadPost(env, f, url, settings) == Err(PostError(NoHeader))
    ensures (f in env.sources && StartsWith(env.sources[f], HeaderMark) &&
             Find(env.sources[f], HeaderMark, 3).None?) ==>
      ReadPost(env, f, url, settings) == Err(ValueError("need more than 2 values to unpack"))
  {
    if f in env.sources && StartsWith(env.sources[f], HeaderMark) {
      HeaderSplit(env.sources[f]);
    }
  }

  /** Once the header is parsed, a file name without a '-' fails the date unpacking
      with ValueError; with one, the post is built. */
  lemma {:induction false} BuildPostNeedsDate(env: Env, f: string, header: string, raw: string, url: string, settings: Settings)
    requires env.yaml(header).Some?
    ensures BuildPost(env, f, header, raw, url, settings).Ok? <==> '-' in Stem(f)
    ensures '-' !in Stem(f) ==>
      BuildPost(env, f, header, raw, url, settings) == Err(ValueError("need more than 1 value to unpack"))
  {
    PostPathAndUrl(Stem(f), settings.physicalPaths.output);
    YearMonthFields(Stem(f));
  }

  /** A post built from a header and body has the defaults merged under its header,
      that body and its processed form; its id is `gen_id` of the post before the id
      is set. */
  lemma {:induction false} BuildPostFields(env: Env, f: string, header: string, raw: string, url: string, settings: Settings)
    requires BuildPost(env, f, header, raw, url, settings).Ok?
    ensures var p := BuildPost(env, f, header, raw, url, settings).value;
      env.yaml(header).Some? &&
      p.metadata == MergeDefaults(settings.posts.defaultInfo, env.yaml(header).value) &&
      p.raw == raw &&
      p.content == (if env.process.Some? then Some(env.process.value(raw)) else None) &&
      p.id == env.genId(p.(id := ""))
  {
  }

  /** A post built successfully has a file name with a '-'; its URL is the base URL
      followed by `_post_url` of that name (`/year/month/name.html`, see
      `PostPathAndUrl`) and its path the output directory followed by the same. */
  lemma {:induction false} BuildPostPlace(env: Env, f: string, header: string, raw: string, url: string, settings: Settings)
    requires BuildPost(env, f, header, raw, url, settings).Ok?
    ensures var p := BuildPost(env, f, header, raw, url, settings).value;
      var name := Stem(f);
      '-' in name && PostUrl(name).Ok? &&
      p.outputPath == settings.physicalPaths.output + PostUrl(name).value &&
      p.url == url + PostUrl(name).value
  {
    PostPathAndUrl(Stem(f), settings.physicalPaths.output);
  }

  /** A post that reads successfully comes from a file that opens with the mark and
      has a second one; it is built from the text between the first two marks and
      the text after the second. */
  lemma {:induction false} ReadPostParts(env: Env, f: string, url: string, settings: Settings)
    requires ReadPost(env, f, url, settings).Ok?
    ensures f in env.sources && StartsWith(env.sources[f], HeaderMark)
    ensures var text := env.sources[f];
      Find(text, HeaderMark, 3).Some? &&
      var j := Find(text, HeaderMark, 3).value;
      ReadPost(env, f, url, settings) == BuildPost(env, f, text[3..j], text[j + 3..], url, settings)
  {
    HeaderSplit(env.sources[f]);
  }

  // ---------------------------------------------------------------- grouping

  /** The tag and author groups, keyed by name. */
  datatype Groups = Groups(tags: map<string, Tag<Post>>, authors: map<string, Author<Post>>)

  /** `post['metadata']['tags']`, iterated: a missing key raises KeyError, a text
      iterates as its characters, a list gives its items. */
  function TagNames(meta: Meta): Result<seq<string>>
  {
    if "tags" !in meta then Err(KeyError("tags"))
    else match meta["tags"]
      case Str(s) => Ok(seq(|s|, i requires 0 <= i < |s| => [s[i]]))
      case List(items) =>
        if forall i :: 0 <= i < |items| ==> items[i].Str? then
          Ok(seq(|items|, i requires 0 <= i < |items| => items[i].s))
        else Err(TypeError("unhashable or non-text tag"))
      case Date(_) => Err(TypeError("'datetime.datetime' object is not iterable"))
  }

  /** `post['metadata']['author']` */
  function AuthorName(meta: Meta): Result<string>
  {
    if "author" !in meta then Err(KeyError("author"))
    else match meta["author"]
      case Str(s) => Ok(s)
      case List(_) => Err(TypeError("unhashable type: 'list'"))
      case Date(_) => Err(TypeError("non-text author"))
  }

  /** The posts of the group `k`, or none when there is no such group. */
  function TagGroup(tags: map<string, Tag<Post>>, k: string): seq<Post> {
    if k in tags then tags[k].posts else []
  }

  function AuthorGroup(authors: map<string, Author<Post>>, k: string): seq<Post> {
    if k in authors then authors[k].posts else []
  }

  /** One tag of a post: create the group with `[post]`, or append to it. */
  function AddTag(tags: map<string, Tag<Post>>, t: string, p: Post, settings: Settings): map<string, Tag<Post>>
  {
    if t !in tags then tags[t := NewTag(t, settings, [p])]
    else tags[t := tags[t].(posts := tags[t].posts + [p])]
  }

  /** The `for t in tags` loop over one post's tags. */
  function AddTags(tags: map<string, Tag<Post>>, names: seq<string>, p: Post, settings: Settings): map<string, Tag<Post>>
    decreases |names|
  {
    if names == [] then tags
    else AddTag(AddTags(tags, names[..|names| - 1], p, settings), names[|names| - 1], p, settings)
  }

  /** The author of a post: create the group with `[post]`, or append to it. */
  function AddAuthor(authors: map<string, Author<Post>>, a: string, p: Post, settings: Settings): map<string, Author<Post>>
  {
    if a !in authors then authors[a := Author(a, AuthorUrl(settings.urlPaths.authors, a), [p])]
    else authors[a := authors[a].(posts := authors[a].posts + [p])]
  }

  /** Every tag group is keyed by its own name and carries that name's URL and path. */
  ghost predicate TagsWellFormed(tags: map<string, Tag<Post>>, settings: Settings) {
    forall k :: k in tags ==>
      tags[k].tag == k && tags[k].url == TagUrl(settings.urlPaths.tags, k) &&
      tags[k].path == TagPath(settings.physicalPaths.output, settings.urlPaths.tags, k)
  }

  ghost predicate AuthorsWellFormed(authors: map<string, Author<Post>>, settings: Settings) {
    forall k :: k in authors ==>
      authors[k].author == k && authors[k].url == AuthorUrl(settings.urlPaths.authors, k)
  }

  /** Adding one more copy of an item to a run of copies. */
  lemma {:induction false} RepeatOneMore<T>(x: T, n: nat)
    ensures Repeat(x, n) + [x] == Repeat(x, n + 1)
  {
    assert (Repeat(x, n) + [x])[n] == x;
  }

  /** After a post's tags are added, each group gains the post once per mention of
      its name, at its end. */
  lemma {:induction false} AddTagsGroup(tags: map<string, Tag<Post>>, names: seq<string>, p: Post,
                                        settings: Settings, k: string)
    ensures TagGroup(AddTags(tags, names, p, settings), k) == TagGroup(tags, k) + Repeat(p, Count(names, k))
    decreases |names|
  {
    if names == [] {
      assert Repeat(p, 0) == [];
    } else {
      var init := names[..|names| - 1];
      AddTagsGroup(tags, init, p, settings, k);
      if k == names[|names| - 1] {
        RepeatOneMore(p, Count(init, k));
      }
    }
  }

  /** Adding a post's tags creates exactly the groups it names that were missing and
      leaves the groups it does not name untouched. */
  lemma {:induction false} AddTagsKey(tags: map<string, Tag<Post>>, names: seq<string>, p: Post,
                                      settings: Settings, k: string)
    ensures var r := AddTags(tags, names, p, settings);
      (k in r <==> k in tags || k in names) &&
      (k in tags && k !in names ==> r[k] == tags[k])
    decreases |names|
  {
    if names != [] {
      var init := names[..|names| - 1];
      AddTagsKey(tags, init, p, settings, k);
      assert names == init + [names[|names| - 1]];
    }
  }

  /** Two posts sharing a tag: tags `[a, b]` on the first and `[b]` on the second put
      both posts in the group of `b`, in discovery order, and only the first in the
      group of `a`. */
  lemma {:induction false} SharedTagExample(p1: Post, p2: Post, settings: Settings)
    ensures var g := AddTags(AddTags(map[], ["a", "b"], p1, settings), ["b"], p2, settings);
      "a" in g && "b" in g && g["a"].posts == [p1] && g["b"].posts == [p1, p2]
  {
    var first, second := ["a", "b"], ["b"];
    var g1 := AddTags(map[], first, p1, settings);
    assert first[..1] == ["a"] && ["a"][..0] == [] && second[..0] == [];
    assert Count(first, "a") == 1 && Count(first, "b") == 1;
    assert Count(second, "a") == 0 && Count(second, "b") == 1;
    AddTagsGroup(map[], first, p1, settings, "a");
    AddTagsGroup(map[], first, p1, settings, "b");
    AddTagsGroup(g1, second, p2, settings, "a");
    AddTagsGroup(g1, second, p2, settings, "b");
  }

  /** Every group that adding a post's tags creates or extends stays well formed. */
  lemma {:induction false} AddTagsWellFormed(tags: map<string, Tag<Post>>, names: seq<string>, p: Post,
                                             settings: Settings)
    requires TagsWellFormed(tags, settings)
    ensures TagsWellFormed(AddTags(tags, names, p, settings), settings)
    decreases |names|
  {
    if names != [] {
      AddTagsWellFormed(tags, names[..|names| - 1], p, settings);
    }
  }

  /** A post's author group gains the post at its end; other groups are untouched. */
  lemma {:induction false} AddAuthorSpec(authors: map<string, Author<Post>>, a: string, p: Post, settings: Settings)
    ensures var r := AddAuthor(authors, a, p, settings);
      (forall k :: k in r <==> k in authors || k == a) &&
      (forall k :: k in authors && k != a ==> r[k] == authors[k]) &&
      AuthorGroup(r, a) == AuthorGroup(authors, a) + [p] &&
      (AuthorsWellFormed(authors, settings) ==> AuthorsWellFormed(r, settings))
  {
  }

  /** Accumulating one post: its tags in order, then its author. */
  function Register(g: Groups, p: Post, settings: Settings): Result<Groups>
  {
    match TagNames(p.metadata)
    case Err(e) => Err(e)
    case Ok(names) =>
      var tags := AddTags(g.tags, names, p, settings);
      match AuthorName(p.metadata)
      case Err(e) => Err(e)
      case Ok(a) => Ok(Groups(tags, AddAuthor(g.authors, a, p, settings)))
  }

  /** The tags a post names, or none when they cannot be read. */
  function TagList(p: Post): seq<string> {
    match TagNames(p.metadata)
    case Ok(names) => names
    case Err(_) => []
  }

  /** The posts of `ps` filed under tag `k`, in order, once per mention. */
  function TaggedWith(ps: seq<Post>, k: string): seq<Post>
  {
    if ps == [] then []
    else TaggedWith(ps[..|ps| - 1], k) + Repeat(ps[|ps| - 1], Count(TagList(ps[|ps| - 1]), k))
  }

  /** The posts of `ps` by author `a`, in order. */
  function ByAuthor(ps: seq<Post>, a: string): seq<Post>
  {
    if ps == [] then []
    else
      var last := ps[|ps| - 1];
      ByAuthor(ps[..|ps| - 1], a) + (if AuthorName(last.metadata) == Ok(a) then [last] else [])
  }

  // ---------------------------------------------------------------- discovery loop

  /** What the discovery loop collects: the posts, in the order `glob` listed their
      files, and the tag and author groups. */
  datatype Acorns = Acorns(posts: seq<Post>, groups: Groups)

  /** What stays fixed over the loop: the collaborators, the base URL and settings,
      the post reader, the template context, how a post enters the context, and the
      post template. */
  datatype Pass<!C> = Pass(env: Env, baseUrl: string, settings: Settings, read: string -> Result<Post>,
                           ctx: map<string, C>, wrap: Post -> C, page: map<string, C> -> string)

  /** The reader of a pass is `Post(f, url, settings, processor)` with the pass's own
      collaborators, URL and settings. */
  ghost predicate ReadsPosts<C>(ps: Pass<C>) {
    forall f :: ps.read(f) == ReadPost(ps.env, f, ps.baseUrl, ps.settings)
  }

  /** The pass the generator runs the loop with. */
  function PostPass<C>(env: Env, baseUrl: string, settings: Settings, ctx: map<string, C>,
                       wrap: Post -> C, page: map<string, C> -> string): (ps: Pass<C>)
    ensures ReadsPosts(ps)
    ensures ps.env == env && ps.baseUrl == baseUrl && ps.settings == settings
    ensures ps.ctx == ctx && ps.wrap == wrap && ps.page == page
  {
    Pass(env, baseUrl, settings, f => ReadPost(env, f, baseUrl, settings), ctx, wrap, page)
  }

  /** The glob pattern for every file with the extension in the directory. */
  function AcornPattern(dir: string, extension: string): string {
    Join([dir, "*." + extension], "/")
  }

  /** The reading side of the loop over `files`, in order; the first failure stops it. */
  function Discover<C>(st: Acorns, files: seq<string>, ps: Pass<C>): Result<Acorns>
    decreases |files|, 1
  {
    if files == [] then Ok(st) else DiscoverLast(st, files, ps)
  }

  /** The last iteration: after the files before it, read the post and file it under
      its tags and author. */
  function DiscoverLast<C>(st: Acorns, files: seq<string>, ps: Pass<C>): Result<Acorns>
    requires files != []
    decreases |files|, 0
  {
    match Discover(st, files[..|files| - 1], ps)
    case Err(e) => Err(e)
    case Ok(s) =>
      match ps.read(files[|files| - 1])
      case Err(e) => Err(e)
      case Ok(p) =>
        match Register(s.groups, p, ps.settings)
        case Err(e) => Err(e)
        case Ok(g) => Ok(Acorns(s.posts + [p], g))
  }

  /** The page of a post: the template rendered with the post under the transient key. */
  function PostPage<C>(ps: Pass<C>, p: Post): string {
    ps.page(ps.ctx[PostKey := ps.wrap(p)])
  }

  /** The writing side of the loop over the posts read. Reading never looks at the
      output disk, so the loop's disk is this fold over its posts. */
  function PublishPosts<C>(d: Disk, posts: seq<Post>, ps: Pass<C>): Disk
    decreases |posts|, 1
  {
    if posts == [] then d else PublishLast(d, posts, ps)
  }

  /** The last iteration's writing: create the post's directory when it is missing,
      then write its page. */
  function PublishLast<C>(d: Disk, posts: seq<Post>, ps: Pass<C>): Disk
    requires posts != []
    decreases |posts|, 0
  {
    var p := posts[|posts| - 1];
    WriteFile(EnsureDir(PublishPosts(d, posts[..|posts| - 1], ps), Dirname(p.outputPath)), p.outputPath, PostPage(ps, p))
  }

  /** A successful loop over a non-empty list succeeds on the files before the last,
      then appends the post read from the last file and files it by `Register`. */
  lemma {:induction false} DiscoverStep<C>(st: Acorns, files: seq<string>, ps: Pass<C>)
    requires files != [] && Discover(st, files, ps).Ok?
    ensures var s := Discover(st, files[..|files| - 1], ps);
      var r := ps.read(files[|files| - 1]);
      s.Ok? && r.Ok? && Register(s.value.groups, r.value, ps.settings).Ok? &&
      Discover(st, files, ps).value ==
        Acorns(s.value.posts + [r.value], Register(s.value.groups, r.value, ps.settings).value)
  {
  }

  /** A failure on a prefix of the files is the failure of the whole loop. */
  lemma {:induction false} DiscoverStops<C>(st: Acorns, files: seq<string>, n: nat, ps: Pass<C>)
    requires n <= |files|
    requires Discover(st, files[..n], ps).Err?
    ensures Discover(st, files, ps) == Discover(st, files[..n], ps)
    decreases |files| - n
  {
    if n < |files| {
      var files' := files[..|files| - 1];
      assert files'[..n] == files[..n];
      if n < |files'| {
        DiscoverStops(st, files', n, ps);
      } else {
        assert files[..n] == files';
      }
    } else {
      assert files[..n] == files;
    }
  }

  /** The posts the loop added to those it started from. */
  function Added(st: Acorns, st': Acorns): seq<Post>
    requires |st.posts| <= |st'.posts|
  {
    st'.posts[|st.posts|..]
  }

  /** A successful loop keeps the posts it started from and adds one per file. */
  lemma {:induction false} DiscoverLength<C>(st: Acorns, files: seq<string>, ps: Pass<C>)
    requires Discover(st, files, ps).Ok?
    ensures var st' := Discover(st, files, ps).value;
      |st'.posts| == |st.posts| + |files| && st'.posts[..|st.posts|] == st.posts
    decreases |files|
  {
    if files != [] {
      var init := files[..|files| - 1];
      DiscoverLength(st, init, ps);
      var s := Discover(st, init, ps).value;
      DiscoverStep(st, files, ps);
      var st' := Discover(st, files, ps).value;
      assert st'.posts[..|s.posts|] == s.posts;
    }
  }

  /** A successful loop adds the posts in file order, each the post read from its
      file. */
  lemma {:induction false} DiscoverPosts<C>(st: Acorns, files: seq<string>, ps: Pass<C>, i: nat)
    requires Discover(st, files, ps).Ok? && i < |files|
    ensures var st' := Discover(st, files, ps).value;
      |st'.posts| == |st.posts| + |files| &&
      ps.read(files[i]) == Ok(st'.posts[|st.posts| + i])
    decreases |files|
  {
    var init := files[..|files| - 1];
    DiscoverLength(st, init, ps);
    DiscoverLength(st, files, ps);
    var s := Discover(st, init, ps).value;
    DiscoverStep(st, files, ps);
    if i < |init| {
      DiscoverPosts(st, init, ps, i);
      assert files[i] == init[i];
    }
  }

  /** The posts added by a loop that went one post further. */
  lemma {:induction false} AddedSnoc(st: Acorns, s: Acorns, p: Post, g: Groups)
    requires |st.posts| <= |s.posts|
    ensures Added(st, Acorns(s.posts + [p], g)) == Added(st, s) + [p]
  {
  }

  /** The step of the group lemmas below: after the files before the last one, the
      loop's result is `s`, and the last file adds `p` and regroups to `g`. */
  lemma {:induction false} DiscoverLastStep<C>(st: Acorns, files: seq<string>, ps: Pass<C>)
    returns (s: Acorns, p: Post)
    requires files != [] && Discover(st, files, ps).Ok?
    ensures Discover(st, files[..|files| - 1], ps) == Ok(s)
    ensures |st.posts| <= |s.posts|
    ensures TagNames(p.metadata).Ok? && AuthorName(p.metadata).Ok?
    ensures var g := Discover(st, files, ps).value.groups;
      Discover(st, files, ps).value.posts == s.posts + [p] &&
      g.tags == AddTags(s.groups.tags, TagNames(p.metadata).value, p, ps.settings) &&
      g.authors == AddAuthor(s.groups.authors, AuthorName(p.metadata).value, p, ps.settings)
  {
    DiscoverStep(st, files, ps);
    DiscoverLength(st, files[..|files| - 1], ps);
    s := Discover(st, files[..|files| - 1], ps).value;
    p := ps.read(files[|files| - 1]).value;
  }

  /** The step of `DiscoverTagGroup`, apart from the loop: filing one more post
      under its tags keeps a group equal to its old posts followed by the new posts
      naming it. */
  lemma {:induction false} TagGroupStep(st: Acorns, s: Acorns, p: Post, g: Groups, settings: Settings, k: string)
    requires |st.posts| <= |s.posts|
    requires TagGroup(s.groups.tags, k) == TagGroup(st.groups.tags, k) + TaggedWith(Added(st, s), k)
    requires TagNames(p.metadata).Ok? && g.tags == AddTags(s.groups.tags, TagNames(p.metadata).value, p, settings)
    ensures TagGroup(g.tags, k) == TagGroup(st.groups.tags, k) + TaggedWith(Added(st, Acorns(s.posts + [p], g)), k)
  {
    AddTagsGroup(s.groups.tags, TagNames(p.metadata).value, p, settings, k);
    AddedSnoc(st, s, p, g);
    var added := Added(st, s) + [p];
    assert added[..|added| - 1] == Added(st, s);
  }

  /** A successful loop files the new posts under each tag in discovery order,
      without sorting: a group is its old posts followed by the new posts naming it. */
  lemma {:induction false} DiscoverTagGroup<C>(st: Acorns, files: seq<string>, ps: Pass<C>, k: string)
    requires Discover(st, files, ps).Ok?
    ensures var st' := Discover(st, files, ps).value;
      |st.posts| <= |st'.posts| &&
      TagGroup(st'.groups.tags, k) == TagGroup(st.groups.tags, k) + TaggedWith(Added(st, st'), k)
    decreases |files|
  {
    DiscoverLength(st, files, ps);
    if files != [] {
      var s, p := DiscoverLastStep(st, files, ps);
      DiscoverTagGroup(st, files[..|files| - 1], ps, k);
      TagGroupStep(st, s, p, Discover(st, files, ps).value.groups, ps.settings, k);
    } else {
      assert Added(st, st) == [];
    }
  }

  /** Filing a post under author `n` appends it to that author's group and leaves the
      other groups as they were. */
  lemma {:induction false} AddAuthorGroup(authors: map<string, Author<Post>>, n: string, p: Post, settings: Settings, a: string)
    ensures AuthorGroup(AddAuthor(authors, n, p, settings), a) == AuthorGroup(authors, a) + (if n == a then [p] else [])
  {
  }

  /** The step of `DiscoverAuthorGroup`, apart from the loop. */
  lemma {:induction false} AuthorGroupStep(st: Acorns, s: Acorns, p: Post, g: Groups, settings: Settings, a: string)
    requires |st.posts| <= |s.posts|
    requires AuthorGroup(s.groups.authors, a) == AuthorGroup(st.groups.authors, a) + ByAuthor(Added(st, s), a)
    requires AuthorName(p.metadata).Ok?
    requires g.authors == AddAuthor(s.groups.authors, AuthorName(p.metadata).value, p, settings)
    ensures AuthorGroup(g.authors, a) == AuthorGroup(st.groups.authors, a) + ByAuthor(Added(st, Acorns(s.posts + [p], g)), a)
  {
    AddAuthorGroup(s.groups.authors, AuthorName(p.metadata).value, p, settings, a);
    AddedSnoc(st, s, p, g);
    var added := Added(st, s) + [p];
    assert added[..|added| - 1] == Added(st, s);
  }

  /** The same for authors: a group is its old posts followed by the new posts by
      that author. */
  lemma {:induction false} DiscoverAuthorGroup<C>(st: Acorns, files: seq<string>, ps: Pass<C>, a: string)
    requires Discover(st, files, ps).Ok?
    ensures var st' := Discover(st, files, ps).value;
      |st.posts| <= |st'.posts| &&
      AuthorGroup(st'.groups.authors, a) == AuthorGroup(st.groups.authors, a) + ByAuthor(Added(st, st'), a)
    decreases |files|
  {
    DiscoverLength(st, files, ps);
    if files != [] {
      var s, p := DiscoverLastStep(st, files, ps);
      DiscoverAuthorGroup(st, files[..|files| - 1], ps, a);
      AuthorGroupStep(st, s, p, Discover(st, files, ps).value.groups, ps.settings, a);
    } else {
      assert Added(st, st) == [];
    }
  }

  /** The step of `DiscoverTagKey`, apart from the loop: filing one more post under
      its tags creates the groups it names. */
  lemma {:induction false} TagKeyStep(st: Acorns, s: Acorns, p: Post, g: Groups, settings: Settings, k: string)
    requires |st.posts| <= |s.posts|
    requires k in s.groups.tags <==> k in st.groups.tags || TaggedWith(Added(st, s), k) != []
    requires TagNames(p.metadata).Ok? && g.tags == AddTags(s.groups.tags, TagNames(p.metadata).value, p, settings)
    ensures k in g.tags <==> k in st.groups.tags || TaggedWith(Added(st, Acorns(s.posts + [p], g)), k) != []
  {
    var names := TagNames(p.metadata).value;
    AddTagsKey(s.groups.tags, names, p, settings, k);
    CountPositive(names, k);
    AddedSnoc(st, s, p, g);
    var added := Added(st, s) + [p];
    assert added[..|added| - 1] == Added(st, s);
    assert TaggedWith(added, k) == TaggedWith(Added(st, s), k) + Repeat(p, Count(names, k));
  }

  /** A tag group exists after the loop exactly when it existed before or an added
      post names the tag. */
  lemma {:induction false} DiscoverTagKey<C>(st: Acorns, files: seq<string>, ps: Pass<C>, k: string)
    requires Discover(st, files, ps).Ok?
    ensures var st' := Discover(st, files, ps).value;
      |st.posts| <= |st'.posts| &&
      (k in st'.groups.tags <==> k in st.groups.tags || TaggedWith(Added(st, st'), k) != [])
    decreases |files|
  {
    DiscoverLength(st, files, ps);
    if files != [] {
      var s, p := DiscoverLastStep(st, files, ps);
      DiscoverTagKey(st, files[..|files| - 1], ps, k);
      TagKeyStep(st, s, p, Discover(st, files, ps).value.groups, ps.settings, k);
    } else {
      assert Added(st, st) == [];
    }
  }

  /** The step of `DiscoverAuthorKey`, apart from the loop. */
  lemma {:induction false} AuthorKeyStep(st: Acorns, s: Acorns, p: Post, g: Groups, settings: Settings, a: string)
    requires |st.posts| <= |s.posts|
    requires a in s.groups.authors <==> a in st.groups.authors || ByAuthor(Added(st, s), a) != []
    requires AuthorName(p.metadata).Ok?
    requires g.authors == AddAuthor(s.groups.authors, AuthorName(p.metadata).value, p, settings)
    ensures a in g.authors <==> a in st.groups.authors || ByAuthor(Added(st, Acorns(s.posts + [p], g)), a) != []
  {
    AddedSnoc(st, s, p, g);
    var added := Added(st, s) + [p];
    assert added[..|added| - 1] == Added(st, s);
  }

  /** An author group exists after the loop exactly when it existed before or an
      added post is by that author. */
  lemma {:induction false} DiscoverAuthorKey<C>(st: Acorns, files: seq<string>, ps: Pass<C>, a: string)
    requires Discover(st, files, ps).Ok?
    ensures var st' := Discover(st, files, ps).value;
      |st.posts| <= |st'.posts| &&
      (a in st'.groups.authors <==> a in st.groups.authors || ByAuthor(Added(st, st'), a) != [])
    decreases |files|
  {
    DiscoverLength(st, files, ps);
    if files != [] {
      var s, p := DiscoverLastStep(st, files, ps);
      DiscoverAuthorKey(st, files[..|files| - 1], ps, a);
      AuthorKeyStep(st, s, p, Discover(st, files, ps).value.groups, ps.settings, a);
    } else {
      assert Added(st, st) == [];
    }
  }

  /** Every group the loop creates or extends is well formed. */
  lemma {:induction false} DiscoverWellFormed<C>(st: Acorns, files: seq<string>, ps: Pass<C>)
    requires Discover(st, files, ps).Ok?
    requires TagsWellFormed(st.groups.tags, ps.settings) && AuthorsWellFormed(st.groups.authors, ps.settings)
    ensures var st' := Discover(st, files, ps).value;
      TagsWellFormed(st'.groups.tags, ps.settings) && AuthorsWellFormed(st'.groups.authors, ps.settings)
    decreases |files|
  {
    if files != [] {
      var init := files[..|files| - 1];
      DiscoverWellFormed(st, init, ps);
      DiscoverStep(st, files, ps);
      var s := Discover(st, init, ps).value;
      var p := ps.read(files[|files| - 1]).value;
      AddTagsWellFormed(s.groups.tags, TagNames(p.metadata).value, p, ps.settings);
      AddAuthorSpec(s.groups.authors, AuthorName(p.metadata).value, p, ps.settings);
    }
  }

  /** The pages written for `posts`, in order: each post's path with the page
      rendered from the context holding that post. */
  function PageWrites<C>(posts: seq<Post>, ps: Pass<C>): (w: seq<(string, string)>)
    ensures |w| == |posts|
  {
    seq(|posts|, i requires 0 <= i < |posts| => (posts[i].outputPath, PostPage(ps, posts[i])))
  }

  /** Publishing one more post adds exactly its page to the files written, keeps every
      directory, and leaves the post's directory in place. */
  lemma {:induction false} PublishStep<C>(d: Disk, posts: seq<Post>, ps: Pass<C>)
    requires posts != []
    ensures var p := posts[|posts| - 1];
      var d0 := PublishPosts(d, posts[..|posts| - 1], ps);
      var d' := PublishPosts(d, posts, ps);
      Writes(d'.log) == Writes(d0.log) + [(p.outputPath, PostPage(ps, p))] &&
      d0.dirs <= d'.dirs &&
      (Dirname(p.outputPath) != "" ==> Dirname(p.outputPath) in d'.dirs)
  {
  }

  /** The pages of one more post end with that post's page. */
  lemma {:induction false} PageWritesSnoc<C>(posts: seq<Post>, ps: Pass<C>)
    requires posts != []
    ensures var p := posts[|posts| - 1];
      PageWrites(posts, ps) == PageWrites(posts[..|posts| - 1], ps) + [(p.outputPath, PostPage(ps, p))]
  {
  }

  /** Publishing writes exactly one page per post, in the posts' order. */
  lemma {:induction false} PublishWrites<C>(d: Disk, posts: seq<Post>, ps: Pass<C>)
    ensures Writes(PublishPosts(d, posts, ps).log) == Writes(d.log) + PageWrites(posts, ps)
    decreases |posts|
  {
    if posts != [] {
      var init := posts[..|posts| - 1];
      PublishWrites(d, init, ps);
      PublishStep(d, posts, ps);
      PageWritesSnoc(posts, ps);
    }
  }

  /** Publishing never removes a directory. */
  lemma {:induction false} PublishGrows<C>(d: Disk, posts: seq<Post>, ps: Pass<C>)
    ensures d.dirs <= PublishPosts(d, posts, ps).dirs
    decreases |posts|
  {
    if posts != [] {
      PublishGrows(d, posts[..|posts| - 1], ps);
      PublishStep(d, posts, ps);
    }
  }

  /** Publishing more posts never removes a directory the first ones left. */
  lemma {:induction false} PublishKeeps<C>(d: Disk, posts: seq<Post>, n: nat, ps: Pass<C>)
    requires n <= |posts|
    ensures PublishPosts(d, posts[..n], ps).dirs <= PublishPosts(d, posts, ps).dirs
    decreases |posts|
  {
    if n < |posts| {
      var init := posts[..|posts| - 1];
      PublishKeeps(d, init, n, ps);
      assert init[..n] == posts[..n];
      PublishAddsDirs(d, posts, ps);
    } else {
      assert posts[..n] == posts;
    }
  }

  /** Publishing one more post keeps every directory. */
  lemma {:induction false} PublishAddsDirs<C>(d: Disk, posts: seq<Post>, ps: Pass<C>)
    requires posts != []
    ensures PublishPosts(d, posts[..|posts| - 1], ps).dirs <= PublishPosts(d, posts, ps).dirs
  {
    PublishStep(d, posts, ps);
  }

  /** After publishing, every post's directory is in place. */
  lemma {:induction false} PublishDirs<C>(d: Disk, posts: seq<Post>, ps: Pass<C>, i: nat)
    requires i < |posts| && Dirname(posts[i].outputPath) != ""
    ensures Dirname(posts[i].outputPath) in PublishPosts(d, posts, ps).dirs
  {
    PublishStep(d, posts[..i + 1], ps);
    PublishKeeps(d, posts, i + 1, ps);
  }

  /** Adding the tags one at a time: one more name adds one more tag. */
  lemma {:induction false} AddTagsSnoc(tags: map<string, Tag<Post>>, names: seq<string>, j: nat, p: Post, settings: Settings)
    requires j < |names|
    ensures AddTags(tags, names[..j + 1], p, settings) == AddTag(AddTags(tags, names[..j], p, settings), names[j], p, settings)
  {
    assert names[..j + 1][..j] == names[..j];
  }

  /** Setting the transient key and popping it again leaves the context without it. */
  lemma {:induction false} TransientKey<V>(key: string, ctx: map<string, V>, cur: map<string, V>, v: V)
    requires cur == ctx || cur == ctx - {key}
    ensures cur[key := v] == ctx[key := v]
    ensures cur[key := v] - {key} == ctx - {key}
  {
  }

  /** Registering a post whose tags and author can be read adds it under both. */
  lemma {:induction false} RegisterOk(g: Groups, p: Post, settings: Settings, names: seq<string>, a: string)
    requires TagNames(p.metadata) == Ok(names) && AuthorName(p.metadata) == Ok(a)
    ensures Register(g, p, settings) == Ok(Groups(AddTags(g.tags, names, p, settings), AddAuthor(g.authors, a, p, settings)))
  {
  }

  /** One more file, read and registered, extends the loop's result by its post. */
  lemma {:induction false} DiscoverNext<C>(st: Acorns, files: seq<string>, i: nat, ps: Pass<C>, s: Acorns, p: Post, g: Groups)
    requires i < |files|
    requires Discover(st, files[..i], ps) == Ok(s)
    requires ps.read(files[i]) == Ok(p) && Register(s.groups, p, ps.settings) == Ok(g)
    ensures Discover(st, files[..i + 1], ps) == Ok(Acorns(s.posts + [p], g))
  {
    assert files[..i + 1][..i] == files[..i];
    assert Discover(st, files[..i + 1], ps) == DiscoverLast(st, files[..i + 1], ps);
  }

  /** One more file whose post cannot be read or registered fails the loop there. */
  lemma {:induction false} DiscoverFailsAt<C>(st: Acorns, files: seq<string>, i: nat, ps: Pass<C>, s: Acorns, e: Error)
    requires i < |files|
    requires Discover(st, files[..i], ps) == Ok(s)
    requires ps.read(files[i]) == Err(e) ||
             (ps.read(files[i]).Ok? && Register(s.groups, ps.read(files[i]).value, ps.settings) == Err(e))
    ensures Discover(st, files, ps) == Err(e)
  {
    assert files[..i + 1][..i] == files[..i];
    assert Discover(st, files[..i + 1], ps) == DiscoverLast(st, files[..i + 1], ps);
    DiscoverStops(st, files, i + 1, ps);
  }

  /** Unfolding the writing side by one post. */
  lemma {:induction false} PublishUnfold<C>(d: Disk, posts: seq<Post>, ps: Pass<C>)
    requires posts != []
    ensures PublishPosts(d, posts, ps) == PublishLast(d, posts, ps)
  {
  }

  /** One more post published after the ones before it: its directory is made and
      its page rendered with the context holding the post under the transient key,
      which is taken out again afterwards. */
  lemma {:induction false} PublishNext<C>(d0: Disk, posts: seq<Post>, p: Post, ps: Pass<C>, d: Disk, cur: map<string, C>)
    requires d == PublishPosts(d0, posts, ps)
    requires cur == ps.ctx || cur == ps.ctx - {PostKey}
    ensures PublishPosts(d0, posts + [p], ps) ==
            WriteFile(EnsureDir(d, Dirname(p.outputPath)), p.outputPath, ps.page(cur[PostKey := ps.wrap(p)]))
    ensures cur[PostKey := ps.wrap(p)] - {PostKey} == ps.ctx - {PostKey}
  {
    PublishUnfold(d0, posts + [p], ps);
    assert (posts + [p])[..|posts|] == posts;
    TransientKey(PostKey, ps.ctx, cur, ps.wrap(p));
  }

  /** The caching part of `pick_up_acorns` for one post: its tags, then its author;
      fails where `Register` does. */
  method FileUnder(g: Groups, post: Post, settings: Settings) returns (r: Result<Groups>)
    ensures r == Register(g, post, settings)
  {
    // the tag groups first
    var tagNames := TagNames(post.metadata);
    if tagNames.Err? {
      return Err(tagNames.error);
    }
    var tags := CacheTags(g.tags, tagNames.value, post, settings);
    // then the author's group
    var authorName := AuthorName(post.metadata);
    if authorName.Err? {
      return Err(authorName.error);
    }
    var authors := CacheAuthor(g.authors, authorName.value, post, settings);
    RegisterOk(g, post, settings, tagNames.value, authorName.value);
    r := Ok(Groups(tags, authors));
  }

  /** The loop `for tag in post['metadata']['tags']` of `pick_up_acorns`: a new tag
      gets a group holding the post, a known tag's group gets the post appended. */
  method CacheTags(tags: map<string, Tag<Post>>, names: seq<string>, post: Post, settings: Settings)
    returns (tags': map<string, Tag<Post>>)
    ensures tags' == AddTags(tags, names, post, settings)
  {
    tags' := tags;
    var j := 0;
    while j < |names|
      invariant 0 <= j <= |names|
      invariant tags' == AddTags(tags, names[..j], post, settings)
    {
      AddTagsSnoc(tags, names, j, post, settings);
      var t := names[j];
      if t !in tags' {
        tags' := tags'[t := NewTag(t, settings, [post])];
      } else {
        tags' := tags'[t := tags'[t].(posts := tags'[t].posts + [post])];
      }
      j := j + 1;
    }
    assert names[..j] == names;
  }

  /** The author cache of the loop: a new group for a new author, else the post is
      appended to the author's group. */
  method CacheAuthor(authors: map<string, Author<Post>>, a: string, post: Post, settings: Settings)
    returns (authors': map<string, Author<Post>>)
    ensures authors' == AddAuthor(authors, a, post, settings)
  {
    if a !in authors {
      authors' := authors[a := Author(a, AuthorUrl(settings.urlPaths.authors, a), [post])];
    } else {
      authors' := authors[a := authors[a].(posts := authors[a].posts + [post])];
    }
  }

  /** One pass of the loop of `pick_up_acorns` without its writing: read the post of
      `f`, then cache it under its tags and author; fails where either step does. */
  method TakeAcorn<C>(ps: Pass<C>, f: string, g: Groups) returns (res: Result<(Post, Groups)>)
    ensures ps.read(f).Err? ==> res == Err(ps.read(f).error)
    ensures ps.read(f).Ok? ==>
      var r := Register(g, ps.read(f).value, ps.settings);
      if r.Ok? then res == Ok((ps.read(f).value, r.value)) else res == Err(r.error)
  {
    // reading builds the post from the file
    var read := ps.read(f);
    if read.Err? {
      return Err(read.error);
    }
    var filed := FileUnder(g, read.value, ps.settings);
    if filed.Err? {
      return Err(filed.error);
    }
    res := Ok((read.value, filed.value));
  }

  /** The writing part of one pass of `pick_up_acorns`: create the post's directory
      when it is missing, render the post template with the post under `post`, write
      the page, and pop `post` again. */
  method RenderAcorn<C>(ps: Pass<C>, post: Post, d: Disk, ctx: map<string, C>) returns (d': Disk, ctx': map<string, C>)
    ensures d' == WriteFile(EnsureDir(d, Dirname(post.outputPath)), post.outputPath, ps.page(ctx[PostKey := ps.wrap(post)]))
    ensures ctx' == ctx[PostKey := ps.wrap(post)] - {PostKey}
  {
    // the page's directory first, then the page
    d' := EnsureDir(d, Dirname(post.outputPath));
    ctx' := ctx[PostKey := ps.wrap(post)];
    var output := ps.page(ctx');
    d' := WriteFile(d', post.outputPath, output);
    ctx' := ctx' - {PostKey};
  }

  /** One turn of the loop of `pick_up_acorns`: reads the `i`th file, files the post
      under its groups, and renders and writes its page; or stops with the error. */
  method GatherNext<C>(ghost start: Acorns, files: seq<string>, i: nat, ps: Pass<C>, disk: Disk,
                       postList: seq<Post>, groups: Groups, d: Disk, ctx: map<string, C>)
    returns (err: Option<Error>, postList': seq<Post>, groups': Groups, d': Disk, ctx': map<string, C>)
    requires i < |files| && Discover(start, files[..i], ps) == Ok(Acorns(postList, groups))
    requires d == PublishPosts(disk, postList, ps) && (ctx == ps.ctx || ctx == ps.ctx - {PostKey})
    ensures err.Some? ==> Discover(start, files, ps) == Err(err.value)
    ensures err.None? ==> Discover(start, files[..i + 1], ps) == Ok(Acorns(postList', groups')) &&
                          d' == PublishPosts(disk, postList', ps) && ctx' == ps.ctx - {PostKey}
  {
    postList', groups', d', ctx' := postList, groups, d, ctx;
    var taken := TakeAcorn(ps, files[i], groups);
    if taken.Err? {
      err := Some(taken.error);
      DiscoverFailsAt(start, files, i, ps, Acorns(postList, groups), taken.error);
      return;
    }
    err := None;
    var (post, filed) := taken.value;
    DiscoverNext(start, files, i, ps, Acorns(postList, groups), post, filed);
    PublishNext(disk, postList, post, ps, d, ctx);
    postList', groups' := postList + [post], filed;
    d', ctx' := RenderAcorn(ps, post, d, ctx);
  }

  /** The loop of `pick_up_acorns` over the files `files`, from the groups `g0`: the
      posts and groups `Discover` collects, the disk `PublishPosts` writes, and the
      context with the transient key taken out again; or the first error. */
  method GatherAcorns<C>(files: seq<string>, ps: Pass<C>, g0: Groups, disk: Disk)
    returns (err: Option<Error>, postList: seq<Post>, groups: Groups, disk': Disk, tplVars: map<string, C>)
    ensures var r := Discover(Acorns([], g0), files, ps);
      if err.None?
      then r == Ok(Acorns(postList, groups)) && disk' == PublishPosts(disk, postList, ps) &&
           tplVars == (if files == [] then ps.ctx else ps.ctx - {PostKey})
      else r == Err(err.value)
  {
    ghost var start := Acorns([], g0);
    postList, groups, disk', tplVars := [], g0, disk, ps.ctx;
    err := None;
    var i := 0;
    while i < |files|
      invariant 0 <= i <= |files| && err.None?
      invariant Discover(start, files[..i], ps) == Ok(Acorns(postList, groups))
      invariant disk' == PublishPosts(disk, postList, ps)
      invariant tplVars == if i == 0 then ps.ctx else ps.ctx - {PostKey}
    {
      err, postList, groups, disk', tplVars := GatherNext(start, files, i, ps, disk, postList, groups, disk', tplVars);
      if err.Some? {
        return;
      }
      i := i + 1;
    }
    assert files[..i] == files;
  }

  /** `Post.pick_up_acorns`: reads every file `glob` finds in `acorn_dir`, groups the
      posts, renders and writes each post page, and returns the posts and groups,
      the disk, and the template context with the transient key removed again. */
  method PickUpAcorns<C>(acornDir: string, acornExtension: string, ps: Pass<C>, disk: Disk)
    returns (r: Result<Acorns>, disk': Disk, tplVars: map<string, C>)
    ensures r == Discover(Acorns([], Groups(map[], map[])), ps.env.glob(AcornPattern(acornDir, acornExtension)), ps)
    ensures r.Ok? ==> disk' == PublishPosts(disk, r.value.posts, ps)
    ensures r.Ok? ==> tplVars == if ps.env.glob(AcornPattern(acornDir, acornExtension)) == [] then ps.ctx
                                 else ps.ctx - {PostKey}
  {
    var files := ps.env.glob(AcornPattern(acornDir, acornExtension));
    var err, postList, groups;
    err, postList, groups, disk', tplVars := GatherAcorns(files, ps, Groups(map[], map[]), disk);
    r := if err.None? then Ok(Acorns(postList, groups)) else Err(err.value);
  }
}
