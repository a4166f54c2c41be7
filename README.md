# oak, modelled in Dafny

oak is a static blog generator. It reads a directory of post files, each a YAML
header between two `---` marks followed by a Markdown body. It groups the posts by
tag and by author. It then renders, through Jinja templates, one page per post, a
tag list, one page per tag, an author list, one page per author, an index, an
optional Atom feed and an archive, and copies the static files.

This project models the generation pipeline:

- the `Oak` class of `oak/__init__.py`: its constructor, path and URL helpers, and
  the stages `_do_posts`, `_do_tags`/`_do_tag`, `_do_authors`/`_do_author`,
  `_copy_statics`, `_do_index`, `_do_feed`, `_do_archive` and `generate`;
- the post record of `oak/models/post.py`: reading and splitting a post file,
  merging its metadata, its path and URL, and the `pick_up_acorns` loop;
- the tag record of `oak/models/tag.py`.

The model is laid out as follows:

- `wrappers.dfy`: `Option`, `Result`, and the Python exceptions a run can raise.
- `pyops.dfy`: the Python string and list operations the source relies on:
  - `str.find`, `str.split` with `maxsplit`, `str.join` and `str.strip`;
  - list slicing with a possibly negative bound, `list.count`, and `[x] * n`.
- `posixpath.dfy`: `os.path.basename`, `dirname` and `splitext`, with `/` as the
  separator.
- `files.dfy`: the output filesystem, as a set of existing directories and a log of
  operations, with `os.makedirs`, the `exists`/`isdir` guard, `_write_file` and
  `copytree_`.
- `config.dfy`: the settings mapping and the values of a post header.
- `tag.dfy`, `author.dfy`: the tag and author records.
- `post.dfy`: the post record, `Post.__init__`, and the discovery loop of
  `pick_up_acorns`, with its methods and the functions that specify them.
- `ordering.dfy`: the date sort of `_do_index` (stable, like Python's `list.sort`) and
  `list.reverse`.
- `oak.dfy`:
  - the helpers and the template context;
  - each stage as a function from the generator's state to its new state;
  - the `Oak` class, whose methods update its fields and are proved to compute
    those functions.
- `properties.dfy`: what the stages and a whole run guarantee.

How the outside world is represented:

- The template engine is a function `(template name, context) -> text`.
- The YAML parser is a function from header text to a metadata mapping. It returns
  `None` for a header that is not a mapping.
- The Markdown processor and `Atom.gen_id` are functions.
- The contents of the post files are a map from path to text. A path missing from
  the map cannot be opened.
- `glob` is a function from pattern to a list of paths, in whatever order it returns
  them.
- The template context `tpl_vars` is a map from key to a small datatype of the values
  the stages put in it.

## Model

| member | source | states |
|---|---|---|
| PyOps.Find | oak/models/post.py:66 | `find` returns the first occurrence at or after the start, with none before it, or none when the separator does not occur there |
| PyOps.Join | oak/__init__.py:94 | `sep.join(parts)`: the parts with the separator between neighbours; its values are stated by `PyOps.JoinSmall` and `PyOps.JoinSplit` |
| PyOps.Split | oak/models/post.py:66 | `str.split(sep, maxsplit)`: at least one piece, and at most `maxsplit + 1` when `maxsplit` is not negative |
| PyOps.JoinSplit | oak/models/post.py:66 | joining the pieces of `s.split(sep, maxsplit)` with `sep` gives `s` back, for every `maxsplit` |
| PyOps.SplitPiecesFree | oak/models/post.py:66 | no piece of a split except the last holds the separator |
| PyOps.SplitTwice | oak/models/post.py:66 | `split(sep, 2)` cuts at the first two occurrences of `sep` into exactly three pieces |
| PyOps.SplitOnce | oak/models/post.py:66 | with a single occurrence, `split(sep, 2)` yields only two pieces |
| PyOps.SplitFirstPiece | oak/models/post.py:91 | the first piece of `name.split('-')` is the longest prefix of `name` free of `-` |
| PyOps.Strip | oak/__init__.py:53 | `strip('/')` is a slice of its input that neither starts nor ends with `/`, and everything cut from either end of the input is `/` |
| PyOps.StripStable | oak/__init__.py:53 | stripping a text that does not start or end with the character changes nothing |
| PyOps.PrefixSlice | oak/__init__.py:306 | `s[:n]` is a prefix of `s` of length `min(n, len(s))` for `n >= 0`, and drops `-n` items from the end for a negative `n` |
| PyOps.CountPositive | oak/models/post.py:146-150 | an item is in a list exactly when the list counts it at least once |
| PosixPath.Basename | oak/models/post.py:75 | `basename` is a suffix of the path holding no `/` |
| PosixPath.BasenameOfChild | oak/models/post.py:75 | the basename of `dir/leaf` is `leaf` |
| PosixPath.Dirname | oak/__init__.py:240 | `os.path.dirname(p)` is a prefix of `p` |
| PosixPath.DirnameOfChild | oak/__init__.py:240 | the dirname of `dir/leaf` is `dir` when `dir` does not end in `/` |
| PosixPath.SplitExt | oak/models/post.py:76 | `splitext` cuts the path into two parts that concatenate back to it; the extension is empty or a `.` with no `/` after it |
| PosixPath.SplitExtOfLeaf | oak/models/post.py:76 | `name.ext` splits into `name` and `.ext` |
| PosixPath.StemOfSource | oak/models/post.py:75-76 | the name of a source `dir/name.ext` without directory and extension is `name` |
| Files.EnsureDir | oak/__init__.py:240-242 | after the `exists`/`isdir` guard the directory exists; an existing one leaves the disk as it was; no file is written |
| Files.WriteFile | oak/__init__.py:180-196 | writing appends exactly one `(path, content)` write; the file's directory exists afterwards when the name holds a `/`; no directory is removed |
| Files.WritesAppend | oak/__init__.py:180-196 | the files written by two runs of operations are those of the first followed by those of the second |
| Files.CopyTree | oak/__init__.py:203 | copying a tree neither writes a page nor changes the set of directories |
| Tags.TagPath | oak/models/tag.py:12-22 | `_tag_path` is `output/prefix/name.html` for a non-empty name and the directory `output/prefix` for an empty one |
| Tags.TagUrl | oak/models/tag.py:24-32 | `_tag_url` is `prefix/name.html` |
| Tags.TagPathsUnderDirectory | oak/models/tag.py:12-22 | the tag directory followed by `/` is a prefix of every named tag page, and distinct names get distinct pages |
| Tags.NewTagFields | oak/models/tag.py:6-10 | `Tag(name, settings, posts)` keeps the name and the very post list given, and its URL and path both end in `/name.html` |
| Authors.AuthorUrl | oak/__init__.py:111-119 | `_author_url` is `prefix/name.html` |
| Posts.SplitHeader | oak/models/post.py:66 | the three-way cut of the post text at the header marks, or ValueError when it does not give three pieces; stated by `Posts.HeaderSplit` and `Posts.HeaderRoundTrip` |
| Posts.HeaderSplit | oak/models/post.py:66 | for a text starting with `---`: the preamble is empty; the split succeeds exactly when a second mark follows; the metadata is the text between the first two marks and the body everything after the second, later marks included |
| Posts.HeaderRoundTrip | oak/models/post.py:66 | splitting `--- header --- body` gives `(header, body)` back when the header holds no mark |
| Posts.YearMonth | oak/models/post.py:91 | the first two `-` fields of the name, or ValueError; stated by `Posts.YearMonthFields` |
| Posts.YearMonthFields | oak/models/post.py:91 | year and month exist exactly when the name holds a `-`; the year is the text before the first `-` and the month runs from there to the next `-` or the end |
| Posts.PostUrl | oak/models/post.py:83-93 | `_post_url(name)`: `/year/month/name.html`; stated by `Posts.PostPathAndUrl` |
| Posts.PostPath | oak/models/post.py:95-105 | `_post_path(name, output_path)`: `output_path/year/month/name.html`; stated by `Posts.PostPathAndUrl` |
| Posts.PostPathAndUrl | oak/models/post.py:83-105 | `_post_url` and `_post_path` succeed exactly when the name holds a `-`; the URL is `/y/m/name.html` and the path is the output directory followed by that URL |
| Posts.MergeDefaults | oak/models/post.py:59-68 | the metadata holds every default key and every header key; the header overrides; the other keys keep their default values |
| Posts.ReadPost | oak/models/post.py:54-57 | opening the post file, or PostError when it cannot be opened; stated by `Posts.ReadPostFailures` and `Posts.ReadPostParts` |
| Posts.ParsePost | oak/models/post.py:63-66 | the header check and the split of the text; stated by `Posts.ReadPostFailures` and `Posts.ReadPostParts` |
| Posts.BuildPost | oak/models/post.py:59-81 | the metadata merge, the processor, and the path, URL and id of the post; stated by `Posts.BuildPostNeedsDate`, `Posts.BuildPostFields` and `Posts.BuildPostPlace` |
| Posts.ReadPostFailures | oak/models/post.py:54-66 | a file that cannot be opened or lacks the opening mark raises PostError; a missing closing mark raises ValueError from the unpacking |
| Posts.ReadPostParts | oak/models/post.py:54-68 | a post that is read comes from a file that starts with `---` and has a second mark, and it is built from the two pieces between and after the marks |
| Posts.BuildPostNeedsDate | oak/models/post.py:75-79 | once the header is parsed, a post is built exactly when its file name holds a `-`; otherwise unpacking the date fields raises ValueError |
| Posts.BuildPostFields | oak/models/post.py:59-81 | the post's metadata is the merge of defaults and header, its raw body is kept, its content is the processor's output, and its id is `gen_id` of the post |
| Posts.BuildPostPlace | oak/models/post.py:75-80 | the output path is the output directory followed by `_post_url(name)`, and the URL is the base URL followed by it |
| Posts.TagNames | oak/models/post.py:146 | the tags a post names, with KeyError when it has none and TypeError when they cannot be iterated as text |
| Posts.AuthorName | oak/models/post.py:153 | the post's author, with KeyError when it has none and TypeError when it is not text |
| Posts.AddTagsGroup | oak/models/post.py:146-150 | after a post's tags are cached, every group has gained the post at its end once per mention of its name |
| Posts.AddTagsKey | oak/models/post.py:146-150 | caching a post's tags creates exactly the missing groups it names, and leaves the groups it does not name untouched |
| Posts.AddTagsWellFormed | oak/models/post.py:146-150 | every tag group stays keyed by its own name with that name's URL and path |
| Posts.SharedTagExample | oak/__init__.py:222-231 | a worked example, not a general property: tags `[a, b]` on a first post and `[b]` on a second give group `b` the posts `[first, second]`, unsorted, and group `a` the first post only |
| Posts.AddAuthorSpec | oak/models/post.py:153-159 | caching the author adds the author's group when missing, appends the post to it, keeps the other groups, and keeps every group well formed |
| Posts.AddAuthorGroup | oak/models/post.py:153-159 | the author's group gains the post at its end; any other author's group is unchanged |
| Posts.Register | oak/models/post.py:145-159 | caching one post: its tags, then its author, failing where either lookup fails; stated by `Posts.RegisterOk` |
| Posts.RegisterOk | oak/models/post.py:145-159 | a post whose tags and author can be read is cached under its tags, then under its author |
| Posts.Discover | oak/models/post.py:138-159 | the reading and caching side of the `pick_up_acorns` loop over the globbed files; stated by the `Posts.Discover*` lemmas |
| Posts.DiscoverStep | oak/models/post.py:139-159 | a successful loop is the loop over the files before the last, followed by reading the last post, appending it and caching it |
| Posts.DiscoverStops | oak/models/post.py:139-142 | a failure on the first files is the failure of the whole loop |
| Posts.DiscoverLength | oak/models/post.py:139-143 | a successful loop keeps the posts it started from and adds one post per file |
| Posts.DiscoverPosts | oak/models/post.py:139-143 | the posts are appended in the order of the file list, each the post read from its file |
| Posts.DiscoverTagGroup | oak/models/post.py:146-150 | after the loop, a tag group is its old posts followed by the new posts naming the tag, in discovery order |
| Posts.DiscoverAuthorGroup | oak/models/post.py:153-159 | after the loop, an author group is its old posts followed by the new posts by that author, in discovery order |
| Posts.DiscoverTagKey | oak/models/post.py:146-150 | a tag group exists after the loop exactly when it existed before or a new post names the tag |
| Posts.DiscoverAuthorKey | oak/models/post.py:153-159 | an author group exists after the loop exactly when it existed before or a new post is by that author |
| Posts.DiscoverWellFormed | oak/models/post.py:146-159 | every group the loop creates or extends is well formed |
| Posts.PublishPosts | oak/models/post.py:161-171 | the writing side of the same loop: each post's directory, then its page; stated by the `Posts.Publish*` lemmas |
| Posts.PublishStep | oak/models/post.py:161-171 | publishing one more post writes exactly its page, rendered with the post under the `post` key, keeps every directory, and leaves the post's directory in place |
| Posts.PublishWrites | oak/models/post.py:161-171 | publishing writes one page per post, in the posts' order |
| Posts.PublishGrows | oak/models/post.py:161-164 | publishing never removes a directory |
| Posts.PublishKeeps | oak/models/post.py:161-164 | publishing more posts never removes a directory the first ones left |
| Posts.PublishDirs | oak/models/post.py:161-164 | after publishing, every post's directory exists |
| Posts.CacheTags | oak/models/post.py:146-150 | the `for tag in ...` loop computes the tag caching |
| Posts.CacheAuthor | oak/models/post.py:153-159 | the author cache creates the group or appends to it |
| Posts.FileUnder | oak/models/post.py:145-159 | caching one post under its tags and author succeeds or fails as the caching rule says |
| Posts.TakeAcorn | oak/models/post.py:142-159 | one pass reads the post, then caches it; it fails with the first failure of either step |
| Posts.GatherAcorns | oak/models/post.py:135-171 | the loop's post list and groups are those of the discovery loop; its disk is the one the pages are published to; the context has the `post` key popped; on failure, the loop's error |
| Posts.PickUpAcorns | oak/models/post.py:126-173 | `pick_up_acorns` returns the posts in the order of the globbed files, with groups built by create-or-append, having written every post's page and popped `post` from the context |
| PostOrder.Insert | oak/__init__.py:301 | one insertion step of the date sort adds exactly one post; its order is stated by `PostOrder.InsertAscending` |
| PostOrder.SortByDate | oak/__init__.py:301 | the date sort keeps the number of posts; its order is stated by `PostOrder.SortAscending` and `PostOrder.SortStable` |
| PostOrder.InsertAscending | oak/__init__.py:301 | inserting into an ascending list keeps it ascending and adds exactly the new post |
| PostOrder.SortAscending | oak/__init__.py:301 | the date sort yields the same posts, oldest first |
| PostOrder.SortStable | oak/__init__.py:301 | the date sort keeps posts of the same date in their order |
| PostOrder.SortFirstIsEarliest | oak/__init__.py:301-303 | the first post after sorting is no later than any post |
| PostOrder.Reversed | oak/__init__.py:305 | `reverse` puts item `i` at position `len - 1 - i` |
| PostOrder.ReversedDescending | oak/__init__.py:304-305 | reversing an ascending list gives the same posts, newest first |
| PostOrder.ReversedPermutation | oak/__init__.py:305 | reversing keeps the same posts |
| PostOrder.ArrangedOrder | oak/__init__.py:301-305 | the index order holds the same posts, newest first when `sort_reverse` is set and oldest first otherwise |
| OakSite.BaseUrl | oak/__init__.py:52-55 | the base URL is `http://` and the stripped domain, followed by nothing when no base path is set and otherwise by `/` and the stripped base path |
| OakSite.BaseUrlIgnoresSlashes | oak/__init__.py:52-55 | slashes around the domain and the base path do not change the base URL |
| OakSite.BaseUrlNoTrailingSlash | oak/__init__.py:52-55 | the base URL does not end in `/` when the domain, and any base path, hold more than slashes |
| OakSite.CompleteUrl | oak/__init__.py:90-94 | `_get_complete_url(p)` is `p` itself exactly when `p` starts with `/`, and otherwise the base URL, `/` and `p` |
| OakSite.CompletePath | oak/__init__.py:96-97 | `_get_complete_path(p)` is the output directory, a `/`, then `p` |
| OakSite.AuthorPath | oak/__init__.py:99-109 | `_author_path` is `output/prefix/name.html` for a non-empty name and the directory `output/prefix` otherwise |
| OakSite.AuthorPathsUnderDirectory | oak/__init__.py:99-109 | the author directory followed by `/` is a prefix of every named author page, and distinct names get distinct pages |
| OakSite.OutputPages | oak/__init__.py:121-175 | a page name without `/` lands directly in the output directory, and distinct names land on distinct paths |
| OakSite.IndexUrl | oak/__init__.py:128-133 | the index URL is the index page name (a one-item join) |
| OakSite.TagIndexUrl | oak/__init__.py:135-140 | the tag list URL is the tag list page name |
| OakSite.AuthorIndexUrl | oak/__init__.py:142-147 | the author list URL is the author list page name |
| OakSite.ArchiveUrl | oak/__init__.py:177-178 | the archive URL is the archive page name |
| OakSite.InitialContext | oak/__init__.py:70-88 | the initial context holds exactly `blog`, `license_text` and `links`, none of them transient; `last_updated` is unset; the blog id is the URL followed by `/atom.xml` |
| OakSite.InitialLinks | oak/__init__.py:80-87 | the site link is the base URL; every other link is its page when the page starts with `/`, and otherwise the base URL, `/` and the page |
| OakSite.LastUpdated | oak/__init__.py:301-303 | `last_updated` is the `pub_date` of one of the posts |
| OakSite.PostsStage | oak/__init__.py:215-249 | `_do_posts` as a function of the state; stated by `OakSite.PostsStageErr`, `OakProperties.PostsStagePosts` and `OakProperties.PostsStageGroups` |
| OakSite.TagsStage | oak/__init__.py:251-273 | `_do_tags` with its `_do_tag` calls, for a given order of the keys; stated by `OakProperties.TagsStageWrites` and `OakProperties.TagsStageCovers` |
| OakSite.AuthorsStage | oak/__init__.py:275-296 | `_do_authors` with its `_do_author` calls, for a given order of the keys; stated by `OakProperties.AuthorsStageWrites` and `OakProperties.AuthorsStageCovers` |
| OakSite.StaticsStage | oak/__init__.py:198-213 | `_copy_statics`: the static copy, then the layout's when its directory exists; stated by `OakSite.Oak.CopyStatics` |
| OakSite.IndexStage | oak/__init__.py:298-310 | `_do_index` as a function of the state; stated by the `OakProperties.IndexStage*` lemmas |
| OakSite.FeedStage | oak/__init__.py:319-328 | `_do_feed`; stated by `OakProperties.ListingStageResult` |
| OakSite.ArchiveStage | oak/__init__.py:312-317 | `_do_archive`; stated by `OakProperties.ListingStageResult` |
| OakSite.GenerateSpec | oak/__init__.py:330-345 | `generate` as a function of the state and the key orders; stated by `OakProperties.GenerateSteps`, `OakProperties.GenerateContext` and `OakProperties.GenerateListings` |
| OakSite.PostsStageErr | oak/__init__.py:222-237 | the post stage fails with the first failure of its loop |
| OakSite.PostsStageContext | oak/__init__.py:244-249 | the post stage adds no key, leaves every key it keeps with its value, and drops only transient keys such as `post`; the context comes back equal only when it held no transient key (`OakProperties.KeptCleanContext`) |
| OakSite.TagsStageContext | oak/__init__.py:254-271 | the tag stage adds and pops `tags` and `tag` only |
| OakSite.AuthorsStageContext | oak/__init__.py:278-294 | the author stage adds and pops `authors` and `author` only |
| OakSite.VisitDone | oak/__init__.py:272-273 | a finished loop over a dict's keys has visited every key exactly once |
| OakSite.Oak.constructor | oak/__init__.py:40-88 | a new generator has no posts and no groups, and the initial context |
| OakSite.Oak.ReadAndPublish | oak/__init__.py:222-249 | the loop of `_do_posts` computes the discovery loop's posts and groups, writes their pages, and pops `post` again; on failure it returns the loop's error |
| OakSite.Oak.CollectPosts | oak/__init__.py:215-249 | `_do_posts` on a state yields the post stage's new state or its error |
| OakSite.Oak.DoPosts | oak/__init__.py:215-249 | `_do_posts` updates the fields to the post stage's new state, or returns the stage's error |
| OakSite.Oak.DoTag | oak/__init__.py:251-259 | `_do_tag` writes the tag's page, rendered with the tag under `tag`, and pops the key |
| OakSite.Oak.WriteTagPages | oak/__init__.py:272-273 | the loop writes one tag page per tag, visiting every tag once |
| OakSite.Oak.DoTags | oak/__init__.py:261-273 | `_do_tags` computes the tag stage for the order it visits the tags in, which holds every tag once |
| OakSite.Oak.DoAuthor | oak/__init__.py:275-283 | `_do_author` writes the author's page at `_author_path(name)` and pops the key |
| OakSite.Oak.WriteAuthorPages | oak/__init__.py:295-296 | the loop writes one author page per author, visiting every author once |
| OakSite.Oak.DoAuthors | oak/__init__.py:285-296 | `_do_authors` computes the author stage for the order it visits the authors in |
| OakSite.Oak.CopyStatics | oak/__init__.py:198-213 | `_copy_statics` copies the static directory, then the layout's static directory when it exists |
| OakSite.Oak.IndexOf | oak/__init__.py:298-310 | `_do_index` on a state yields the index stage's new state or its error |
| OakSite.Oak.DoIndex | oak/__init__.py:298-310 | `_do_index` updates the fields to the index stage's new state, or returns the stage's error |
| OakSite.Oak.DoFeed | oak/__init__.py:319-328 | `_do_feed` writes the feed with every post under `posts` and pops the key |
| OakSite.Oak.DoArchive | oak/__init__.py:312-317 | `_do_archive` writes the archive with every post under `posts` and pops the key |
| OakSite.Oak.Generate | oak/__init__.py:330-345 | `generate` runs posts, tags, authors, statics, index, the feed only when enabled, then the archive; the first failure ends the run; on success the tag and author pages were written for every group the post stage collected, each once |
| OakProperties.TagPagesWrites | oak/__init__.py:272-273 | the tag loop writes exactly one page per visited tag, in visiting order |
| OakProperties.AuthorPagesWrites | oak/__init__.py:295-296 | the author loop writes exactly one page per visited author, in visiting order |
| OakProperties.TagPagesGrow | oak/__init__.py:272-273 | writing tag pages never removes a directory |
| OakProperties.AuthorPagesGrow | oak/__init__.py:295-296 | writing author pages never removes a directory |
| OakProperties.TagsStageWrites | oak/__init__.py:261-273 | `_do_tags` writes the tag list, rendered with the groups under `tags`, and then the tag pages; the tags directory exists afterwards |
| OakProperties.AuthorsStageWrites | oak/__init__.py:285-296 | `_do_authors` writes the author list and then the author pages; the authors directory exists afterwards |
| OakProperties.TagsStageCovers | oak/__init__.py:272-273 | every tag gets its page |
| OakProperties.AuthorsStageCovers | oak/__init__.py:295-296 | every author gets its page |
| OakProperties.PostsStagePosts | oak/__init__.py:222-249 | the post stage appends one post per globbed file, in file order, each read from its file, and writes exactly those posts' pages in the same order |
| OakProperties.PostsStageGroups | oak/__init__.py:227-237 | after the post stage each tag and author group is its old posts followed by the new posts that belong to it, and it exists exactly when it did before or a new post belongs to it |
| OakProperties.IndexStageSucceeds | oak/__init__.py:301-303 | the index stage fails when a post lacks `pub_date` (KeyError, reported before any comparison), when there are no posts (IndexError), or when two or more posts are compared and a date is not a date; which of KeyError and TypeError comes first is stated under Left out |
| OakProperties.LastUpdatedEarliest | oak/__init__.py:301-303 | when every post is dated, `last_updated` is the earliest `pub_date`, whatever `sort_reverse` says |
| OakProperties.IndexStageState | oak/__init__.py:298-310 | the index stage leaves the posts in index order, records `last_updated`, writes the index with the first `max_posts` posts, and pops `posts` |
| OakProperties.IndexStageOrder | oak/__init__.py:301-305 | the index stage leaves the same posts, newest first when `sort_reverse` is set and oldest first otherwise |
| OakProperties.IndexStageResult | oak/__init__.py:303-310 | the context after the index differs from before only in `last_updated`, and the index page is rendered with the first `max_posts` posts in the order the stage leaves them |
| OakProperties.ListingStageResult | oak/__init__.py:312-327 | the feed and the archive each write one page, rendered with every post in the order held, and give the context back |
| OakProperties.KeptCleanContext | oak/__init__.py:244-294 | a stage that only pops the keys it added gives back a context without transient keys unchanged |
| OakProperties.GenerateBeforeIndex | oak/__init__.py:337-340 | the tag, author and static stages change neither the posts nor the context |
| OakProperties.GenerateSteps | oak/__init__.py:337-345 | a successful run is the post stage, the stages up to the index, the index, then the stages after it |
| OakProperties.IndexAndAfter | oak/__init__.py:341-345 | after the index, feed and archive, the posts are those the index received, in index order, and only `last_updated` changed in the context |
| OakProperties.GenerateContext | oak/__init__.py:330-345 | a successful run leaves the collected posts in index order and the initial context with `last_updated` set |
| OakProperties.GenerateListings | oak/__init__.py:312-345 | after the index stage a successful run writes exactly the feed, only when `generate_feed` is set, and then the archive, both listing every post in index order |
| OakProperties.AfterIndexKeeps | oak/__init__.py:342-345 | the feed and archive stages change neither the posts nor the context |
| OakProperties.AfterIndexWrites | oak/__init__.py:312-345 | after the index, exactly the feed page, only when `generate_feed` is set, and then the archive page are written, both with every post in index order |

## Left out

- Jinja rendering, the template filters and the loader path are a function parameter. `yaml.load`, the Markdown processor and `Atom.gen_id` are functions in the environment. Their own code is not part of this model.
- `oak/models/author.py` and `oak/utils.py` are not part of this model. The author record holds the three fields its callers pass. `copytree_` only records the copy: `Files.CopyTree` states no directories or pages it creates.
- Logging, `oak/launcher.py`, `oak/scripts/manage.py`, `settings.py` and the Markdown processor module are not modelled: they are command-line plumbing and foreign libraries.
- The filesystem keeps directories and a log of operations. A path "exists" exactly when it is a known directory, so `os.path.exists` and `os.path.isdir` coincide, and a file never blocks a directory.
- `posts`, `tags` and `authors` are class attributes in the source, shared by every `Oak` instance. The model gives each instance fresh, empty fields.
- `Tag(..., posts=[post])` aliases the list it is given. Records are values here, so appending to a group builds a new record with the longer list. No two groups share a list in the source, so the aliasing is not observable.
- The order of `dict.keys()` is left open. `DoTags` and `DoAuthors` pick an order and return it, and the stages take the order as a parameter.
- OakSite.IndexStage: two or more posts whose `pub_date` values are not all dates fail with TypeError. Python 2 compares two texts lexicographically and two lists item by item without error. A header written as `pub_date: '2010-05-02 17:00:00'`, quoted as in the example of `oak/models/post.py`, loads as text, so a blog written that way is indexed by Python but fails in the model. `OakSite.Oak.DoIndex`, `OakSite.Oak.IndexOf` and `OakProperties.IndexStageSucceeds` inherit this.
- OakSite.IndexStage: when a post lacks `pub_date`, the model always reports KeyError, before any comparison. Python sorts first, and its sort compares the posts in an order of its own choosing. If it compares two posts whose dates cannot be compared, such as a datetime and a quoted text, before it reaches the post without a date, Python raises TypeError instead. Which of the two errors Python raises therefore depends on that order, and the model does not follow it. `OakProperties.IndexStageSucceeds`, `OakSite.Oak.IndexOf` and `OakSite.Oak.DoIndex` inherit this.
- OakSite.LastUpdated: requires a single post or posts that all carry dates, the same restriction as `OakSite.IndexStage`.
- `Value.Date` holds one time stamp for both YAML dates and datetimes. Python 2 raises TypeError when the sort compares a date with a datetime, where the model sorts them by their stamps.
- `Value` has no YAML null, number or boolean. An empty `author:` loads as `None` in Python, which becomes a group key; the model cannot express that header.
- Files.WriteFile: writing to a path that is a known directory succeeds in the model, where `codecs.open(path, 'w')` raises IOError and ends the run. This happens for an empty tag name, whose page path is the tags directory itself, and for an empty author name, whose page path is the authors directory. The model then writes a page there and the run goes on.
- OakSite.Oak.DoTag: for an empty tag name the page is written onto the tags directory, where Python raises IOError (see `Files.WriteFile`). `OakSite.TagsStage` and `OakSite.Oak.DoTags` inherit this.
- OakSite.Oak.DoAuthor: for an empty author name the page is written onto the authors directory, where Python raises IOError (see `Files.WriteFile`). `OakSite.AuthorsStage` and `OakSite.Oak.DoAuthors` inherit this.
- Posts.BuildPost: the YAML header is either a mapping or nothing, and nothing fails with TypeError. Python's `dict.update` raises ValueError for a text header and accepts a list of key/value pairs, which the model does not represent.
- Posts.BuildPost: the processor is a function from the raw body to the content. In the source it receives the whole post, and its result is bound to the local name `self`, so what reaches the caller depends on the processor changing the post in place. The processor module is not part of this model.
- Posts.ReadPost: a file is either missing or a text. Reading happens outside the `try` in the source, so a decoding error while reading raises UnicodeDecodeError rather than PostError; the model has no undecodable file.
- Posts.TagNames: a tag list with an item that is not text fails with TypeError. Python would also accept other hashable items, such as dates.
- Posts.AuthorName: an author given as a date fails with TypeError. Python would use the date as a dictionary key.
- OakSite.Oak.DoPosts: on failure the contract states only the error. By then Python has written the pages of every earlier post. When reading the post fails, nothing of it has been appended. When caching its tags or its author fails, Python has already appended it to `self.posts`, along with any tag groups cached before the failure. An exception ends the run either way.
- OakSite.Oak.DoIndex: on failure the fields are left unchanged. Python may already have sorted `self.posts`, and an exception ends the run.
- OakSite.Oak.Generate: on failure the contract states only the error, since the exception ends the run.
- Idempotence of a second run is not stated. Every stage is a function of its inputs, but the model does not compare two runs over a disk that already holds the output.
