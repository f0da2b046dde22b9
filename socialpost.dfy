/** `SocialPostService.createManyForBlog` (src/social-post/social-post.service.ts):
    one create per truthy social text, LinkedIn first, issued together and
    settled; only the fulfilled creates are returned. The database create is
    an input function from the data sent to its outcome. */
module SocialPostService {
  import opened Wrappers
  import opened Text

  datatype Platform = LinkedIn | Instagram

  /** `CreateManyForBlogDto`. */
  datatype CreateManyForBlogDto = CreateManyForBlogDto(
    blogId: string, socialLinkedin: Option<string>, socialInstagram: Option<string>)

  /** The `data` of one `socialPost.create`. */
  datatype PostData = PostData(blogId: string, platform: Platform, content: string)

  /** A stored social post. */
  datatype SocialPost = SocialPost(id: string, blogId: string, platform: Platform, content: string)

  /** The creates `createManyForBlog` issues, in order: one per truthy text,
      LinkedIn before Instagram, each with the blog id and the text
      unchanged. */
  function Requests(dto: CreateManyForBlogDto): (ops: seq<PostData>)
    ensures |ops| == (if Truthy(dto.socialLinkedin) then 1 else 0) + (if Truthy(dto.socialInstagram) then 1 else 0)
    ensures forall i :: 0 <= i < |ops| ==> ops[i].blogId == dto.blogId
    ensures Truthy(dto.socialLinkedin) ==> ops[0] == PostData(dto.blogId, LinkedIn, dto.socialLinkedin.value)
    ensures Truthy(dto.socialInstagram) ==> ops[|ops| - 1] == PostData(dto.blogId, Instagram, dto.socialInstagram.value)
  {
    (if Truthy(dto.socialLinkedin) then [PostData(dto.blogId, LinkedIn, dto.socialLinkedin.value)] else [])
    + (if Truthy(dto.socialInstagram) then [PostData(dto.blogId, Instagram, dto.socialInstagram.value)] else [])
  }

  /** The settled outcomes of the issued creates, in issue order. */
  function Settle(ops: seq<PostData>, create: PostData -> Result<SocialPost, string>): (rs: seq<Result<SocialPost, string>>)
    ensures |rs| == |ops|
    ensures forall i :: 0 <= i < |ops| ==> rs[i] == create(ops[i])
  {
    seq(|ops|, i requires 0 <= i < |ops| => create(ops[i]))
  }

  /** `createManyForBlog`: `ops` is built by pushing, then settled and
      filtered to the fulfilled values. A rejected create is dropped and
      never raised. */
  method CreateManyForBlog(dto: CreateManyForBlogDto, create: PostData -> Result<SocialPost, string>)
    returns (issued: seq<PostData>, created: seq<SocialPost>)
    ensures issued == Requests(dto)
    ensures created == Successes(Settle(issued, create))
  {
    var ops: seq<PostData> := [];
    if Truthy(dto.socialLinkedin) {
      ops := ops + [PostData(dto.blogId, LinkedIn, dto.socialLinkedin.value)];
    }
    if Truthy(dto.socialInstagram) {
      ops := ops + [PostData(dto.blogId, Instagram, dto.socialInstagram.value)];
    }
    issued := ops;
    if |ops| == 0 {
      return issued, [];
    }
    created := Successes(Settle(ops, create));
  }

  /** Nothing is issued and nothing returned when neither text is truthy. */
  lemma NothingToPost(dto: CreateManyForBlogDto, create: PostData -> Result<SocialPost, string>)
    requires !Truthy(dto.socialLinkedin) && !Truthy(dto.socialInstagram)
    ensures Requests(dto) == [] && Successes(Settle(Requests(dto), create)) == []
  {
  }

  /** The result is never longer than what was issued, and every post is
      the outcome of one of the issued creates (`Successes` keeps their
      order). */
  lemma CreatedFromIssued(dto: CreateManyForBlogDto, create: PostData -> Result<SocialPost, string>)
    ensures var ops := Requests(dto);
      var posts := Successes(Settle(ops, create));
      && |posts| <= |ops| <= 2
      && forall p :: p in posts ==> exists i :: 0 <= i < |ops| && create(ops[i]) == Success(p)
  {
    var ops := Requests(dto);
    var rs := Settle(ops, create);
    forall p | p in Successes(rs)
      ensures exists i :: 0 <= i < |ops| && create(ops[i]) == Success(p)
    {
      var i :| 0 <= i < |rs| && rs[i] == Success(p);
      assert create(ops[i]) == Success(p);
    }
  }

  /** When every create is fulfilled, all of them are returned, in order. */
  lemma AllFulfilled(dto: CreateManyForBlogDto, create: PostData -> Result<SocialPost, string>)
    requires forall d :: create(d).Success?
    ensures var ops := Requests(dto);
      |Successes(Settle(ops, create))| == |ops|
      && forall i :: 0 <= i < |ops| ==> Successes(Settle(ops, create))[i] == create(ops[i]).value
  {
    SuccessesAllSucceed(Settle(Requests(dto), create));
  }

  /** When every create is rejected, the result is empty. */
  lemma AllRejected(dto: CreateManyForBlogDto, create: PostData -> Result<SocialPost, string>)
    requires forall d :: create(d).Failure?
    ensures Successes(Settle(Requests(dto), create)) == []
  {
    SuccessesAllFail(Settle(Requests(dto), create));
  }
}
