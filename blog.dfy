/** The slug allocation and the orchestration of `BlogService`
    (src/blog/blog.service.ts): `ensureUniqueSlug` over the blog table, the
    slug bases of create and update, the view/read counters, `generateWithAi`
    (AI post, cover upload, unique slug, create, LinkedIn text, social posts)
    and the batch loop `generateManyWithAi`.

    The blog table is a map from id to record held by a class; the database
    outcomes that the model cannot compute (the id a create assigns, whether
    it succeeds, the stored file id of an upload, whether the access log
    insert succeeds) are inputs. */
module BlogService {
  import opened Wrappers
  import opened Text
  import opened Slug
  import Ai = AiService
  import Social = SocialPostService

  datatype Error = BadRequest(message: string) | InternalServerError(message: string)

  const AccessFailed := "Failed to add blog access"
  const SlugRequired := "slug is required"
  const GenerateFailed := "Failed to generate blog with AI"
  const DefaultFrontUrl := "https://houser.com/blog"
  const DefaultStatus := "DRAFT"

  /** A row of the blog table, with the columns the core reads or writes. */
  datatype Blog = Blog(
    title: string, slug: Option<string>, description: string, content: string,
    metaTags: seq<string>, status: string, authorId: string, coverId: Option<string>,
    viewsCount: nat, readsCount: nat)

  /** No two rows share a slug; rows without a slug do not collide. */
  predicate SlugsUnique(blogs: map<string, Blog>) {
    forall a, b :: a in blogs && b in blogs && a != b && blogs[a].slug.Some? ==> blogs[a].slug != blogs[b].slug
  }

  // ------------------------------------------------------------ slug allocation

  /** `id: excludeId ? { not: excludeId } : undefined`: a falsy id excludes
      nothing. */
  predicate Excluded(id: string, excludeId: Option<string>) {
    Truthy(excludeId) && id == excludeId.value
  }

  /** The query of `ensureUniqueSlug`: the slugs starting with `clean` of the
      rows other than the excluded one. A row without a slug never matches a
      `startsWith` filter. */
  function Observed(blogs: map<string, Blog>, clean: string, excludeId: Option<string>): (s: set<string>)
    ensures forall x :: x in s ==> StartsWith(x, clean)
  {
    set id | id in blogs && !Excluded(id, excludeId) && blogs[id].slug.Some? && StartsWith(blogs[id].slug.value, clean)
      :: blogs[id].slug.value
  }

  /** Every slug of the rows other than the excluded one. */
  function AllSlugs(blogs: map<string, Blog>, excludeId: Option<string>): set<string> {
    set id | id in blogs && !Excluded(id, excludeId) && blogs[id].slug.Some? :: blogs[id].slug.value
  }

  /** `ensureUniqueSlug` after the slugify: keep `clean` or probe `-2`,
      `-3`, ... against the observed slugs. */
  function UniqueSlugIn(blogs: map<string, Blog>, clean: string, excludeId: Option<string>): string {
    UniqueSlug(clean, Observed(blogs, clean, excludeId))
  }

  /** `ensureUniqueSlug(base, excludeId)`: slugify `base` again, then
      allocate. */
  function UniqueSlugFor(blogs: map<string, Blog>, base: string, excludeId: Option<string>): string {
    UniqueSlugIn(blogs, Slugify(base), excludeId)
  }

  /** The allocated slug differs from the slug of every row that is not
      excluded, starts with `clean`, and is `clean` itself when no such row
      has it. */
  lemma UniqueSlugInFresh(blogs: map<string, Blog>, clean: string, excludeId: Option<string>)
    ensures var slug := UniqueSlugIn(blogs, clean, excludeId);
      && slug !in AllSlugs(blogs, excludeId)
      && StartsWith(slug, clean)
      && (clean !in AllSlugs(blogs, excludeId) ==> slug == clean)
  {
    UniqueSlugSpec(clean, Observed(blogs, clean, excludeId));
  }

  /** Querying only the slugs with the prefix loses nothing: probing all
      slugs of the other rows gives the same answer, since every candidate
      starts with the prefix. */
  lemma QueryPrefixSufficient(blogs: map<string, Blog>, clean: string, excludeId: Option<string>)
    ensures UniqueSlugIn(blogs, clean, excludeId) == UniqueSlug(clean, AllSlugs(blogs, excludeId))
  {
    var seen := Observed(blogs, clean, excludeId);
    var all := AllSlugs(blogs, excludeId);
    var other := all - seen;
    assert seen + other == all;
    UniqueSlugPrefixSufficient(clean, seen, other);
  }

  /** The slug base of `create`: the trimmed given slug when it is non-empty,
      otherwise the slugified title. */
  function CreateSlugBase(slug: Option<string>, title: string): string {
    if slug.Some? && Trim(slug.value) != "" then Trim(slug.value) else Slugify(title)
  }

  /** The slug `create` stores: the slug base slugified once more inside
      `ensureUniqueSlug`, then allocated. */
  function CreateSlug(blogs: map<string, Blog>, slug: Option<string>, title: string): string {
    UniqueSlugIn(blogs, Slugify(CreateSlugBase(slug, title)), None)
  }

  /** The slug `create` stores is fresh; a non-blank given slug whose trim
      is a canonical slug that no row has is stored as trimmed, and without
      one the slug is the (twice) slugified title when that is free. */
  lemma CreateSlugSpec(blogs: map<string, Blog>, slug: Option<string>, title: string)
    ensures CreateSlug(blogs, slug, title) !in AllSlugs(blogs, None)
    ensures (slug.Some? && Trim(slug.value) != "" && IsCanonicalSlug(Trim(slug.value))
             && Trim(slug.value) !in AllSlugs(blogs, None))
      ==> CreateSlug(blogs, slug, title) == Trim(slug.value)
    ensures ((slug.None? || Trim(slug.value) == "") && Slugify(Slugify(title)) !in AllSlugs(blogs, None))
      ==> CreateSlug(blogs, slug, title) == Slugify(Slugify(title))
  {
    var base := CreateSlugBase(slug, title);
    if slug.Some? && Trim(slug.value) != "" && IsCanonicalSlug(Trim(slug.value)) {
      SlugifyCanonical(Trim(slug.value));
    }
    UniqueSlugInFresh(blogs, Slugify(base), None);
  }

  /** The slug `update` writes for a row, when the given slug is truthy:
      slugified, then allocated with the row itself excluded. */
  function UpdateSlug(blogs: map<string, Blog>, id: string, slug: string): string {
    UniqueSlugIn(blogs, Slugify(Slugify(slug)), Some(id))
  }

  /** An update that passes a row's own canonical slug keeps it: the row is
      excluded from its own query, and no other row has that slug. */
  lemma UpdateKeepsOwnSlug(blogs: map<string, Blog>, id: string, s: string)
    requires SlugsUnique(blogs)
    requires id in blogs && blogs[id].slug == Some(s) && id != "" && IsCanonicalSlug(s)
    ensures UpdateSlug(blogs, id, s) == s
  {
    SlugifyCanonical(s);
    OwnSlugNotElsewhere(blogs, id, s);
    UniqueSlugInFresh(blogs, s, Some(id));
  }

  /** With unique slugs, a row's own slug is not among the slugs of the
      other rows. */
  lemma OwnSlugNotElsewhere(blogs: map<string, Blog>, id: string, s: string)
    requires SlugsUnique(blogs)
    requires id in blogs && blogs[id].slug == Some(s) && id != ""
    ensures s !in AllSlugs(blogs, Some(id))
  {
    forall j | j in blogs && !Excluded(j, Some(id)) && blogs[j].slug.Some?
      ensures blogs[j].slug.value != s
    {
      assert j != id;
    }
  }

  // ------------------------------------------------------------ counters

  /** The access stored in the `blog_access` collection. */
  datatype AccessEntry = AccessEntry(blogId: string, kind: string)

  /** The `select` of the counter update; only the by-slug update also
      selects the slug. */
  datatype Counters = Counters(id: string, viewsCount: nat, readsCount: nat, slug: Option<string>)

  /** `type === 'read'` increments `readsCount`, anything else `viewsCount`;
      nothing else changes. */
  function Bump(b: Blog, kind: string): (r: Blog)
    ensures kind == "read" ==> r.readsCount == b.readsCount + 1 && r.viewsCount == b.viewsCount
    ensures kind != "read" ==> r.viewsCount == b.viewsCount + 1 && r.readsCount == b.readsCount
    ensures r.(viewsCount := b.viewsCount, readsCount := b.readsCount) == b
  {
    if kind == "read" then b.(readsCount := b.readsCount + 1) else b.(viewsCount := b.viewsCount + 1)
  }

  /** Counting an access leaves every slug where it was. */
  lemma BumpKeepsUnique(blogs: map<string, Blog>, id: string, kind: string)
    requires SlugsUnique(blogs) && id in blogs
    ensures SlugsUnique(blogs[id := Bump(blogs[id], kind)])
  {
    var after := blogs[id := Bump(blogs[id], kind)];
    forall a, b | a in after && b in after && a != b && after[a].slug.Some?
      ensures after[a].slug != after[b].slug
    {
      assert after[a].slug == blogs[a].slug && after[b].slug == blogs[b].slug;
    }
  }

  // ------------------------------------------------------------ generation

  /** `GenerateBlogDto` without the prompt-independent `publishedAt`. */
  datatype GenerateRequest = GenerateRequest(prompt: string, authorId: string, status: Option<string>)

  /** The outcomes of one `generateWithAi` that come from outside: the AI
      service's, the stored file id of the cover upload, the id and success
      of the blog create, and each social post create. */
  datatype Foreign = Foreign(
    ai: Ai.Outcomes, upload: Result<string, string>, newId: string, createOk: bool,
    socialCreate: Social.PostData -> Result<Social.SocialPost, string>)

  datatype Created = Created(id: string, blog: Blog)

  /** What one `generateWithAi` does: the new table, its result, the cover
      upload it requested (base64 and file name) and the social posts
      request it issued. */
  datatype Step = Step(
    blogs: map<string, Blog>, result: Result<Created, Error>,
    upload: Option<(string, string)>, social: Option<Social.CreateManyForBlogDto>)

  /** `socialLinkedin ? (socialLinkedin + "\n\n" + (permalink ?? '')).trim() : undefined`. */
  function LinkedInText(social: Option<string>, permalink: Option<string>): Option<string> {
    if Truthy(social) then Some(Trim(social.value + "\n\n" + permalink.GetOr(""))) else None
  }

  /** `created.slug ? baseUrl + '/' + created.slug : undefined`. */
  function Permalink(frontUrl: Option<string>, slug: string): Option<string> {
    if slug != "" then Some(OrElse(frontUrl, DefaultFrontUrl) + "/" + slug) else None
  }

  /** The request `generateWithAi` sends to the social posts service. */
  function SocialRequest(newId: string, p: Ai.GeneratedPost, permalink: Option<string>): (d: Social.CreateManyForBlogDto)
    ensures d.blogId == newId && d.socialInstagram == p.socialInstagram
    ensures d.socialLinkedin.Some? <==> Truthy(p.socialLinkedin)
  {
    Social.CreateManyForBlogDto(newId, LinkedInText(p.socialLinkedin, permalink), p.socialInstagram)
  }

  /** The slug base of `generateWithAi`: `generated.slug || generated.title`,
      where a title that is not a string cannot be slugified. */
  function AiSlugBase(p: Ai.GeneratedPost): Option<string> {
    if p.slug != "" then Some(p.slug) else p.title.AsString()
  }

  /** `generateWithAi` after the cover stage: the slug, the create and the
      social posts request. */
  function Publish(blogs: map<string, Blog>, frontUrl: Option<string>, req: GenerateRequest,
                   p: Ai.GeneratedPost, upload: Option<(string, string)>, coverId: Option<string>, f: Foreign): (s: Step)
    ensures s.upload == upload
    ensures s.result.Failure? ==> s.result.error == InternalServerError(GenerateFailed) && s.blogs == blogs
    ensures s.result.Success? ==>
      (s.blogs == blogs[f.newId := s.result.value.blog] && s.result.value.id == f.newId && f.newId !in blogs
       && AiSlugBase(p).Some?
       && s.result.value.blog.slug == Some(UniqueSlugIn(blogs, Slugify(Slugify(AiSlugBase(p).value)), None))
       && s.result.value.blog.coverId == coverId)
    ensures s.social.Some? <==> s.result.Success?
    ensures s.social.Some? ==>
      s.social.value == SocialRequest(f.newId, p, Permalink(frontUrl, s.result.value.blog.slug.value))
  {
    var base := AiSlugBase(p);
    if base.None? || !(p.title.Str? && p.description.Str? && p.content.Str?) || !f.createOk || f.newId in blogs then
      Step(blogs, Failure(InternalServerError(GenerateFailed)), upload, None)
    else
      var slug := UniqueSlugIn(blogs, Slugify(Slugify(base.value)), None);
      var blog := Blog(p.title.s, Some(slug), p.description.s, p.content.s, p.metaTags,
                       req.status.GetOr(DefaultStatus), req.authorId, coverId, 0, 0);
      Step(blogs[f.newId := blog], Success(Created(f.newId, blog)), upload,
           Some(SocialRequest(f.newId, p, Permalink(frontUrl, slug))))
  }

  /** `generateWithAi` for a given AI result. Every failure is the same
      internal error and leaves the table as it was. */
  function GenerateStep(blogs: map<string, Blog>, frontUrl: Option<string>, req: GenerateRequest,
                        generated: Result<Ai.GeneratedPost, string>, f: Foreign): (s: Step)
    ensures s.result.Failure? ==> s.result.error == InternalServerError(GenerateFailed) && s.blogs == blogs
    ensures s.result.Success? ==>
      (generated.Success? && s.blogs == blogs[f.newId := s.result.value.blog]
       && s.result.value.id == f.newId && f.newId !in blogs)
    ensures s.social.Some? <==> s.result.Success?
  {
    if generated.Failure? then Step(blogs, Failure(InternalServerError(GenerateFailed)), None, None)
    else
      var p := generated.value;
      var wantsCover := Truthy(p.imageBase64) && Truthy(p.imageFilename);
      var upload := if wantsCover then Some((p.imageBase64.value, p.imageFilename.value)) else None;
      if wantsCover && f.upload.Failure? then Step(blogs, Failure(InternalServerError(GenerateFailed)), upload, None)
      else Publish(blogs, frontUrl, req, p, upload, if wantsCover then Some(f.upload.value) else None, f)
  }

  /** A new row whose slug no row has keeps the slugs unique. */
  lemma InsertKeepsUnique(blogs: map<string, Blog>, n: string, blog: Blog)
    requires SlugsUnique(blogs) && n !in blogs
    requires blog.slug.Some? ==> blog.slug.value !in AllSlugs(blogs, None)
    ensures SlugsUnique(blogs[n := blog])
  {
    var after := blogs[n := blog];
    forall a, b | a in after && b in after && a != b && after[a].slug.Some?
      ensures after[a].slug != after[b].slug
    {
      if a == n {
        if after[b].slug.Some? {
          assert after[b].slug.value in AllSlugs(blogs, None);
        }
      } else if b == n {
        assert after[a].slug.value in AllSlugs(blogs, None);
      }
    }
  }

  /** A generation keeps the slugs unique. */
  lemma GenerateStepKeepsUnique(blogs: map<string, Blog>, frontUrl: Option<string>, req: GenerateRequest,
                                generated: Result<Ai.GeneratedPost, string>, f: Foreign)
    requires SlugsUnique(blogs)
    ensures SlugsUnique(GenerateStep(blogs, frontUrl, req, generated, f).blogs)
  {
    var s := GenerateStep(blogs, frontUrl, req, generated, f);
    if s.result.Success? {
      var p := generated.value;
      var base := if p.slug != "" then p.slug else p.title.s;
      var clean := Slugify(Slugify(base));
      UniqueSlugInFresh(blogs, clean, None);
      assert s.result.value.blog.slug == Some(UniqueSlugIn(blogs, clean, None));
      InsertKeepsUnique(blogs, f.newId, s.result.value.blog);
    }
  }

  /** The cover is uploaded exactly when the AI post carries both image data
      and a file name, and then with exactly those. */
  lemma CoverUploadedIff(blogs: map<string, Blog>, frontUrl: Option<string>, req: GenerateRequest,
                         generated: Result<Ai.GeneratedPost, string>, f: Foreign)
    ensures var s := GenerateStep(blogs, frontUrl, req, generated, f);
      s.upload.Some? <==> generated.Success? && Truthy(generated.value.imageBase64) && Truthy(generated.value.imageFilename)
    ensures var s := GenerateStep(blogs, frontUrl, req, generated, f);
      s.upload.Some? ==> s.upload.value == (generated.value.imageBase64.value, generated.value.imageFilename.value)
    ensures var s := GenerateStep(blogs, frontUrl, req, generated, f);
      s.result.Success? ==> (s.result.value.blog.coverId.Some? <==> s.upload.Some?)
  {
  }

  /** The LinkedIn text ends with the permalink when there is one (and the
      base URL does not start with white space). */
  lemma LinkedInEndsWithPermalink(social: string, frontUrl: Option<string>, slug: string)
    requires social != "" && slug != "" && !IsWhite(OrElse(frontUrl, DefaultFrontUrl)[0])
    requires !IsWhite(slug[|slug| - 1])
    ensures var link := Permalink(frontUrl, slug).value;
      LinkedInText(Some(social), Some(link)) == Some(Trim(social + "\n\n" + link))
      && EndsWith(LinkedInText(Some(social), Some(link)).value, link)
  {
    var base := OrElse(frontUrl, DefaultFrontUrl);
    var link := base + "/" + slug;
    assert link[0] == base[0] && link[|link| - 1] == slug[|slug| - 1];
    TrimKeepsSuffix(social + "\n\n", link);
    assert social + "\n\n" + link == (social + "\n\n") + link;
  }

  /** An allocated slug ends like `clean` or in a digit of its suffix,
      never in white space. */
  lemma AllocatedSlugEnd(blogs: map<string, Blog>, clean: string)
    requires clean == [] || !IsWhite(clean[|clean| - 1])
    ensures var s := UniqueSlugIn(blogs, clean, None); s == [] || !IsWhite(s[|s| - 1])
  {
    var seen := Observed(blogs, clean, None);
    var s := UniqueSlugIn(blogs, clean, None);
    if clean in seen {
      var k := FirstFree(clean, seen, 2);
      assert s == clean + "-" + NatToString(k);
      var digits := NatToString(k);
      assert s[|s| - 1] == digits[|digits| - 1];
    }
  }

  /** A slugified text ends in a slug character, never in white space. */
  lemma SlugEnd(text: string)
    ensures var s := Slugify(text); s == [] || !IsWhite(s[|s| - 1])
  {
    SlugifyShape(text);
  }

  /** The LinkedIn text sent to the social posts ends with the new post's
      permalink whenever the AI post has LinkedIn text and the new slug is
      not empty. */
  lemma GeneratedLinkedInLinks(blogs: map<string, Blog>, frontUrl: Option<string>, req: GenerateRequest,
                               generated: Result<Ai.GeneratedPost, string>, f: Foreign)
    requires !IsWhite(OrElse(frontUrl, DefaultFrontUrl)[0])
    requires GenerateStep(blogs, frontUrl, req, generated, f).result.Success?
    requires Truthy(generated.value.socialLinkedin)
    ensures var s := GenerateStep(blogs, frontUrl, req, generated, f);
      var slug := s.result.value.blog.slug.value;
      slug != "" ==>
        s.social.value.socialLinkedin.Some?
        && EndsWith(s.social.value.socialLinkedin.value, Permalink(frontUrl, slug).value)
  {
    var s := GenerateStep(blogs, frontUrl, req, generated, f);
    var p := generated.value;
    var base := if p.slug != "" then p.slug else p.title.s;
    var clean := Slugify(Slugify(base));
    var slug := UniqueSlugIn(blogs, clean, None);
    assert s.result.value.blog.slug == Some(slug);
    assert s.social.value.socialLinkedin == LinkedInText(p.socialLinkedin, Permalink(frontUrl, slug));
    if slug != "" {
      SlugEnd(Slugify(base));
      AllocatedSlugEnd(blogs, clean);
      LinkedInEndsWithPermalink(p.socialLinkedin.value, frontUrl, slug);
    }
  }

  // ------------------------------------------------------------ the table

  class BlogStore {
    var blogs: map<string, Blog>
    var accessLog: seq<AccessEntry>

    predicate Valid()
      reads this
    {
      SlugsUnique(blogs)
    }

    constructor(initial: map<string, Blog>)
      requires SlugsUnique(initial)
      ensures Valid() && blogs == initial && accessLog == []
    {
      blogs := initial;
      accessLog := [];
    }

    /** `ensureUniqueSlug`: the query, the empty-result shortcut, then the
        probe loop. */
    method EnsureUniqueSlug(base: string, excludeId: Option<string>) returns (slug: string)
      ensures slug == UniqueSlugIn(blogs, Slugify(base), excludeId)
      ensures slug !in AllSlugs(blogs, excludeId)
    {
      var clean := Slugify(base);
      UniqueSlugInFresh(blogs, clean, excludeId);
      var existing := Observed(blogs, clean, excludeId);
      if |existing| == 0 {
        assert clean !in existing;
        return clean;
      }
      slug := Probe(clean, existing);
    }

    /** `addAccessById`: a missing row is an internal error and changes
        nothing; otherwise one counter is incremented and the access is
        logged when the log insert succeeds (a failed insert is only
        warned about). */
    method AddAccessById(id: string, kind: string, logOk: bool) returns (r: Result<Counters, Error>)
      requires Valid()
      modifies this
      ensures Valid()
      ensures id !in old(blogs) ==>
        r == Failure(InternalServerError(AccessFailed)) && blogs == old(blogs) && accessLog == old(accessLog)
      ensures id in old(blogs) ==>
        && blogs == old(blogs)[id := Bump(old(blogs)[id], kind)]
        && r == Success(Counters(id, blogs[id].viewsCount, blogs[id].readsCount, None))
        && accessLog == old(accessLog) + (if logOk then [AccessEntry(id, kind)] else [])
    {
      if id !in blogs {
        return Failure(InternalServerError(AccessFailed));
      }
      BumpKeepsUnique(blogs, id, kind);
      blogs := blogs[id := Bump(blogs[id], kind)];
      if logOk {
        accessLog := accessLog + [AccessEntry(id, kind)];
      }
      r := Success(Counters(id, blogs[id].viewsCount, blogs[id].readsCount, None));
    }

    /** `addAccessBySlug`: an empty slug is rejected before anything is
        touched; an unknown slug is an internal error; otherwise the row
        with that slug is counted as in `addAccessById`. */
    method AddAccessBySlug(slug: string, kind: string, logOk: bool) returns (r: Result<Counters, Error>)
      requires Valid()
      modifies this
      ensures Valid()
      ensures slug == "" ==> r == Failure(BadRequest(SlugRequired)) && blogs == old(blogs) && accessLog == old(accessLog)
      ensures slug != "" && (forall id :: id in old(blogs) ==> old(blogs)[id].slug != Some(slug)) ==>
        r == Failure(InternalServerError(AccessFailed)) && blogs == old(blogs) && accessLog == old(accessLog)
      ensures forall id :: slug != "" && id in old(blogs) && old(blogs)[id].slug == Some(slug) ==>
        && blogs == old(blogs)[id := Bump(old(blogs)[id], kind)]
        && r == Success(Counters(id, blogs[id].viewsCount, blogs[id].readsCount, Some(slug)))
        && accessLog == old(accessLog) + (if logOk then [AccessEntry(id, kind)] else [])
    {
      if slug == "" {
        return Failure(BadRequest(SlugRequired));
      }
      if !exists id :: id in blogs && blogs[id].slug == Some(slug) {
        return Failure(InternalServerError(AccessFailed));
      }
      var id :| id in blogs && blogs[id].slug == Some(slug);
      assert forall other :: other in blogs && blogs[other].slug == Some(slug) ==> other == id;
      r := AddAccessById(id, kind, logOk);
      r := Success(r.value.(slug := Some(slug)));
    }

    /** `generateWithAi`: the AI post, the cover upload, then the create
        stage, as `GenerateStep` describes. */
    method GenerateWithAi(env: Ai.AiEnv, frontUrl: Option<string>, req: GenerateRequest, f: Foreign)
      returns (result: Result<Created, Error>, upload: Option<(string, string)>,
               social: Option<Social.CreateManyForBlogDto>)
      requires Valid()
      modifies this`blogs
      ensures Valid()
      ensures Step(blogs, result, upload, social)
        == GenerateStep(old(blogs), frontUrl, req, Ai.Generate(req.prompt, env, f.ai).result, f)
    {
      GenerateStepKeepsUnique(blogs, frontUrl, req, Ai.Generate(req.prompt, env, f.ai).result, f);
      var generated, _ := Ai.GenerateBlogPost(req.prompt, env, f.ai);
      upload, social := None, None;
      if generated.Failure? {
        return Failure(InternalServerError(GenerateFailed)), upload, social;
      }
      var p := generated.value;
      var coverId: Option<string> := None;
      if Truthy(p.imageBase64) && Truthy(p.imageFilename) {
        upload := Some((p.imageBase64.value, p.imageFilename.value));
        if f.upload.Failure? {
          return Failure(InternalServerError(GenerateFailed)), upload, social;
        }
        coverId := Some(f.upload.value);
      }
      result, social := CreateFromAi(frontUrl, req, p, upload, coverId, f);
    }

    /** The create stage of `generateWithAi`: the unique slug of the AI slug
        or title, the create, the permalink and the social posts request. */
    method CreateFromAi(frontUrl: Option<string>, req: GenerateRequest, p: Ai.GeneratedPost,
                        upload: Option<(string, string)>, coverId: Option<string>, f: Foreign)
      returns (result: Result<Created, Error>, social: Option<Social.CreateManyForBlogDto>)
      modifies this`blogs
      ensures Step(blogs, result, upload, social) == Publish(old(blogs), frontUrl, req, p, upload, coverId, f)
    {
      var base := AiSlugBase(p);
      if base.None? || !(p.title.Str? && p.description.Str? && p.content.Str?) || !f.createOk || f.newId in blogs {
        return Failure(InternalServerError(GenerateFailed)), None;
      }
      var slug := EnsureUniqueSlug(Slugify(base.value), None);
      var blog := Blog(p.title.s, Some(slug), p.description.s, p.content.s, p.metaTags,
                       req.status.GetOr(DefaultStatus), req.authorId, coverId, 0, 0);
      var dto := SocialRequest(f.newId, p, Permalink(frontUrl, slug));
      assert Publish(blogs, frontUrl, req, p, upload, coverId, f)
        == Step(blogs[f.newId := blog], Success(Created(f.newId, blog)), upload, Some(dto));
      blogs := blogs[f.newId := blog];
      var _, _ := Social.CreateManyForBlog(dto, f.socialCreate);
      social := Some(dto);
      result := Success(Created(f.newId, blog));
    }

    /** `generateManyWithAi`: the prompts in order, each with its own
        foreign outcomes; a success is appended, a failure is skipped. */
    method GenerateManyWithAi(env: Ai.AiEnv, frontUrl: Option<string>, authorId: string, status: Option<string>,
                              prompts: seq<string>, fs: seq<Foreign>)
      returns (results: seq<Created>)
      requires Valid() && |fs| == |prompts|
      modifies this`blogs
      ensures Valid()
      ensures var b := Batch(old(blogs), env, frontUrl, authorId, status, prompts, fs);
        blogs == b.0 && results == Successes(b.1)
    {
      results := [];
      for i := 0 to |prompts|
        invariant Valid()
        invariant blogs == Batch(old(blogs), env, frontUrl, authorId, status, prompts[..i], fs[..i]).0
        invariant results == Successes(Batch(old(blogs), env, frontUrl, authorId, status, prompts[..i], fs[..i]).1)
      {
        results := GenerateNext(env, frontUrl, authorId, status, prompts, fs, i, old(blogs), results);
      }
      assert prompts[..|prompts|] == prompts && fs[..|fs|] == fs;
    }

    /** One turn of the batch loop: prompt `i` is generated on the table the
        earlier prompts left, and its success, if any, is appended. */
    method GenerateNext(env: Ai.AiEnv, frontUrl: Option<string>, authorId: string, status: Option<string>,
                        prompts: seq<string>, fs: seq<Foreign>, i: nat, ghost start: map<string, Blog>,
                        results: seq<Created>)
      returns (results': seq<Created>)
      requires Valid() && |fs| == |prompts| && i < |prompts|
      requires blogs == Batch(start, env, frontUrl, authorId, status, prompts[..i], fs[..i]).0
      requires results == Successes(Batch(start, env, frontUrl, authorId, status, prompts[..i], fs[..i]).1)
      modifies this`blogs
      ensures Valid()
      ensures blogs == Batch(start, env, frontUrl, authorId, status, prompts[..i + 1], fs[..i + 1]).0
      ensures results' == Successes(Batch(start, env, frontUrl, authorId, status, prompts[..i + 1], fs[..i + 1]).1)
    {
      var r, upload, social := GenerateWithAi(env, frontUrl, GenerateRequest(prompts[i], authorId, status), fs[i]);
      BatchAdvance(start, env, frontUrl, authorId, status, prompts, fs, i, Step(blogs, r, upload, social));
      results' := results;
      if r.Success? {
        results' := results + [r.value];
      }
    }
  }

  /** The batch: the table after each prompt is the next prompt's table, and
      the outcomes are collected in prompt order. */
  function Batch(blogs: map<string, Blog>, env: Ai.AiEnv, frontUrl: Option<string>, authorId: string,
                 status: Option<string>, prompts: seq<string>, fs: seq<Foreign>): (b: (map<string, Blog>, seq<Result<Created, Error>>))
    requires |fs| == |prompts|
    ensures |b.1| == |prompts|
    decreases |prompts|
  {
    if prompts == [] then (blogs, [])
    else
      var n := |prompts| - 1;
      var before := Batch(blogs, env, frontUrl, authorId, status, prompts[..n], fs[..n]);
      var s := GenerateStep(before.0, frontUrl, GenerateRequest(prompts[n], authorId, status),
                            Ai.Generate(prompts[n], env, fs[n].ai).result, fs[n]);
      (s.blogs, before.1 + [s.result])
  }

  /** One more prompt adds one step on the table the earlier prompts left. */
  lemma BatchSnoc(blogs: map<string, Blog>, env: Ai.AiEnv, frontUrl: Option<string>, authorId: string,
                  status: Option<string>, prompts: seq<string>, fs: seq<Foreign>, i: nat)
    requires |fs| == |prompts| && i < |prompts|
    ensures var before := Batch(blogs, env, frontUrl, authorId, status, prompts[..i], fs[..i]);
      var s := GenerateStep(before.0, frontUrl, GenerateRequest(prompts[i], authorId, status),
                            Ai.Generate(prompts[i], env, fs[i].ai).result, fs[i]);
      Batch(blogs, env, frontUrl, authorId, status, prompts[..i + 1], fs[..i + 1]) == (s.blogs, before.1 + [s.result])
  {
    assert prompts[..i + 1][..i] == prompts[..i] && fs[..i + 1][..i] == fs[..i];
  }

  /** The loop step of `generateManyWithAi`: a prompt's step taken on the
      table of the earlier prompts gives the batch of one more prompt. */
  lemma BatchAdvance(blogs: map<string, Blog>, env: Ai.AiEnv, frontUrl: Option<string>, authorId: string,
                     status: Option<string>, prompts: seq<string>, fs: seq<Foreign>, i: nat, step: Step)
    requires |fs| == |prompts| && i < |prompts|
    requires step == GenerateStep(Batch(blogs, env, frontUrl, authorId, status, prompts[..i], fs[..i]).0, frontUrl,
                                  GenerateRequest(prompts[i], authorId, status), Ai.Generate(prompts[i], env, fs[i].ai).result, fs[i])
    ensures var after := Batch(blogs, env, frontUrl, authorId, status, prompts[..i + 1], fs[..i + 1]);
      var before := Batch(blogs, env, frontUrl, authorId, status, prompts[..i], fs[..i]);
      && after.0 == step.blogs
      && Successes(after.1) == Successes(before.1) + (if step.result.Success? then [step.result.value] else [])
  {
    BatchSnoc(blogs, env, frontUrl, authorId, status, prompts, fs, i);
    SuccessesSnoc(Batch(blogs, env, frontUrl, authorId, status, prompts[..i], fs[..i]).1, step.result);
  }

  /** The batch keeps slugs unique; its result is no longer than the prompt
      list and holds the successes in prompt order. */
  lemma {:induction false} BatchKeepsUnique(blogs: map<string, Blog>, env: Ai.AiEnv, frontUrl: Option<string>,
                                    authorId: string, status: Option<string>, prompts: seq<string>, fs: seq<Foreign>)
    requires SlugsUnique(blogs) && |fs| == |prompts|
    ensures SlugsUnique(Batch(blogs, env, frontUrl, authorId, status, prompts, fs).0)
    ensures |Successes(Batch(blogs, env, frontUrl, authorId, status, prompts, fs).1)| <= |prompts|
    decreases |prompts|
  {
    if prompts != [] {
      var n := |prompts| - 1;
      BatchKeepsUnique(blogs, env, frontUrl, authorId, status, prompts[..n], fs[..n]);
      var before := Batch(blogs, env, frontUrl, authorId, status, prompts[..n], fs[..n]);
      GenerateStepKeepsUnique(before.0, frontUrl, GenerateRequest(prompts[n], authorId, status),
                              Ai.Generate(prompts[n], env, fs[n].ai).result, fs[n]);
    }
  }

  /** The batch never removes a row. */
  lemma BatchNewIdsFresh(blogs: map<string, Blog>, env: Ai.AiEnv, frontUrl: Option<string>,
                         authorId: string, status: Option<string>, prompts: seq<string>, fs: seq<Foreign>)
    requires |fs| == |prompts|
    ensures blogs.Keys <= Batch(blogs, env, frontUrl, authorId, status, prompts, fs).0.Keys
    decreases |prompts|
  {
    if prompts != [] {
      var n := |prompts| - 1;
      BatchNewIdsFresh(blogs, env, frontUrl, authorId, status, prompts[..n], fs[..n]);
    }
  }
}
