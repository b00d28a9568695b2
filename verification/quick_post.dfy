/**
 * The quick-post webhook: a token check, a content check, hashtag
 * extraction and the draft record it stores. The secret, the default
 * author lookup and the database insert are parameters.
 */
module QuickPost {
  import opened Wrappers
  import opened Text

  // ---------------------------------------------------------------------------
  // Hashtags
  // ---------------------------------------------------------------------------

  predicate WordOnly(s: string) {
    forall i :: 0 <= i < |s| ==> IsWordChar(s[i])
  }

  /** `content.match(/#[\w]+/g)` with the `#` of each match dropped, in order of appearance. */
  function Hashtags(s: string): (tags: seq<string>)
    ensures forall t <- tags :: t != [] && WordOnly(t)
    decreases |s|
  {
    if s == [] then []
    else if s[0] == '#' && |s| > 1 && IsWordChar(s[1]) then
      var n := LeadingCount(s[1..], IsWordChar);
      [s[1..1 + n]] + Hashtags(s[1 + n..])
    else Hashtags(s[1..])
  }

  /** A text without `#` has no hashtags. */
  lemma {:induction false} NoHash(s: string)
    requires '#' !in s
    ensures Hashtags(s) == []
    decreases |s|
  {
    if s != [] {
      assert '#' !in s[1..];
      NoHash(s[1..]);
    }
  }

  /** A `#` and a maximal run of word characters give exactly one tag. */
  lemma HashtagFirst(w: string, rest: string)
    requires w != [] && WordOnly(w)
    requires rest == [] || !IsWordChar(rest[0])
    ensures Hashtags("#" + w + rest) == [w] + Hashtags(rest)
  {
    var s := "#" + w + rest;
    assert s[1..] == w + rest;
    assert forall i :: 0 <= i < |w| ==> s[1..][i] == w[i];
    assert rest != [] ==> s[1..][|w|] == rest[0];
    var n := LeadingCount(s[1..], IsWordChar);
    assert n == |w|;
    assert s[1..1 + n] == w && s[1 + n..] == rest;
  }

  /** Tags written as `#tag ` one after another. */
  function Tagged(tags: seq<string>): string
    decreases |tags|
  {
    if tags == [] then "" else "#" + tags[0] + " " + Tagged(tags[1..])
  }

  /** Tags written out with `#` are read back in the same order. */
  lemma {:induction false} HashtagsOfTagged(tags: seq<string>)
    requires forall t <- tags :: t != [] && WordOnly(t)
    ensures Hashtags(Tagged(tags)) == tags
    decreases |tags|
  {
    if tags != [] {
      var rest := " " + Tagged(tags[1..]);
      assert Tagged(tags) == "#" + tags[0] + rest;
      assert rest[0] == ' ';
      assert tags[0] in tags;
      HashtagFirst(tags[0], rest);
      assert forall t <- tags[1..] :: t in tags;
      assert rest[1..] == Tagged(tags[1..]);
      HashtagsOfTagged(tags[1..]);
    }
  }

  // ---------------------------------------------------------------------------
  // The webhook
  // ---------------------------------------------------------------------------

  /** The JSON body; an absent field is `None`. */
  datatype Payload = Payload(content: Option<string>, mediaUrl: Option<string>, authorId: Option<string>)

  /**
   * The header `x-quick-post-token` and the query parameter `token`, `None`
   * when missing; the body is `None` when it does not parse as a JSON object.
   */
  datatype Request = Request(headerToken: Option<string>, queryToken: Option<string>, body: Option<Payload>)

  predicate Truthy(o: Option<string>) {
    o.Some? && o.value != ""
  }

  /** The header token, or else the query token. */
  function Token(req: Request): Option<string> {
    if Truthy(req.headerToken) then req.headerToken else req.queryToken
  }

  /** The row inserted into `quick_posts`. */
  datatype QuickPostRecord = QuickPostRecord(
    authorId: string,
    content: string,
    mediaUrl: Option<string>,
    hashtags: seq<string>,
    source: string,
    status: string)

  datatype Response = Response(code: nat, error: Option<string>, post: Option<QuickPostRecord>)

  function Fail(code: nat, error: string): Response {
    Response(code, Some(error), None)
  }

  /**
   * `POST`. `secret` is `QUICK_POST_SECRET`, `defaultAuthor` the first
   * admin or publisher found, `insertError` the database's error, if any.
   */
  function Post(req: Request, secret: Option<string>, defaultAuthor: Option<string>, insertError: Option<string>)
    : (r: Response)
    ensures r.code in {201, 400, 401, 500}
    ensures r.post.Some? <==> r.code == 201
  {
    var token := Token(req);
    if !Truthy(token) then Fail(401, "Authentication token required")
    else if Some(token.value) != secret then Fail(401, "Invalid authentication token")
    else if req.body.None? then Fail(500, "Internal server error")
    else
      var body := req.body.value;
      if !Truthy(body.content) || Trim(body.content.value) == "" then Fail(400, "Content is required")
      else
        var content := body.content.value;
        var hashtags := Hashtags(content);
        var authorId := if Truthy(body.authorId) then body.authorId else defaultAuthor;
        if authorId.None? then Fail(500, "No author found for post")
        else if insertError.Some? then Fail(500, "Failed to create post")
        else
          var mediaUrl := if Truthy(body.mediaUrl) then body.mediaUrl else None;
          Response(201, None, Some(QuickPostRecord(authorId.value, Trim(content), mediaUrl, hashtags, "drafts", "draft")))
  }

  /** The request is refused with 401 exactly when no non-empty token is given or it is not the secret. */
  lemma Unauthorized(req: Request, secret: Option<string>, defaultAuthor: Option<string>, insertError: Option<string>)
    ensures Post(req, secret, defaultAuthor, insertError).code == 401
            <==> !Truthy(Token(req)) || Token(req) != secret
  {
  }

  /** With a valid token, a body that is not JSON is answered with the catch-all 500. */
  lemma UnparsableBody(req: Request, secret: Option<string>, defaultAuthor: Option<string>, insertError: Option<string>)
    requires Truthy(Token(req)) && Token(req) == secret
    ensures req.body.None? ==> Post(req, secret, defaultAuthor, insertError) == Fail(500, "Internal server error")
    ensures Post(req, secret, defaultAuthor, insertError).error == Some("Internal server error") ==> req.body.None?
  {
  }

  /** With a valid token and a JSON body, the request is refused with 400 exactly when the content is missing or blank. */
  lemma BlankContent(req: Request, secret: Option<string>, defaultAuthor: Option<string>, insertError: Option<string>)
    requires Truthy(Token(req)) && Token(req) == secret && req.body.Some?
    ensures Post(req, secret, defaultAuthor, insertError).code == 400
            <==> req.body.value.content.None? || Trim(req.body.value.content.value) == ""
  {
  }

  /**
   * A stored post is a trimmed, non-empty draft with the content's
   * hashtags, by the given author or else the default one.
   */
  lemma StoredDraft(req: Request, secret: Option<string>, defaultAuthor: Option<string>, insertError: Option<string>)
    requires Post(req, secret, defaultAuthor, insertError).code == 201
    ensures req.body.Some? && req.body.value.content.Some?
    ensures var p := Post(req, secret, defaultAuthor, insertError).post.value;
      var body := req.body.value;
      p.content == Trim(body.content.value) && p.content != ""
      && p.hashtags == Hashtags(body.content.value)
      && p.status == "draft" && p.source == "drafts"
      && (p.mediaUrl.None? <==> !Truthy(body.mediaUrl))
      && (Some(p.authorId) == body.authorId || (!Truthy(body.authorId) && Some(p.authorId) == defaultAuthor))
  {
  }

  /**
   * `GET`: the health check only compares the token with the secret; a
   * missing token (`null`) never equals a missing secret (`undefined`).
   */
  function Get(req: Request, secret: Option<string>): (code: nat)
    ensures code == 200 <==> Token(req).Some? && Token(req) == secret
    ensures code == 200 || code == 401
  {
    if Token(req).None? || Token(req) != secret then 401 else 200
  }

  /** A token `POST` accepts is accepted by `GET`; `GET` also accepts an empty token equal to an empty secret. */
  lemma GetAcceptsMore(req: Request, secret: Option<string>, defaultAuthor: Option<string>, insertError: Option<string>)
    ensures Post(req, secret, defaultAuthor, insertError).code != 401 ==> Get(req, secret) == 200
    ensures Get(req, secret) == 200 && Post(req, secret, defaultAuthor, insertError).code == 401
            ==> secret == Some("")
  {
  }
}
