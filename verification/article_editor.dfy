/**
 * The new-article editor's form logic: the slug and excerpt it fills in
 * while the author types, the tag list, the read-time estimate and the
 * payload it posts to the admin articles route.
 */
module ArticleEditor {
  import opened Wrappers
  import opened Text
  import opened Lists
  import opened Slugs
  import AdminArticlesRoute

  datatype EditorStatus = Draft | Scheduled | Published

  datatype FormData = FormData(
    title: string,
    slug: string,
    content: string,
    excerpt: string,
    category: string,
    tags: seq<string>,
    featuredImageUrl: string,
    seoTitle: string,
    seoDescription: string,
    status: EditorStatus,
    scheduledFor: string)

  const EmptyForm := FormData("", "", "", "", "", [], "", "", "", Draft, "")

  // ---------------------------------------------------------------------------
  // Slug
  // ---------------------------------------------------------------------------

  /** The slug effect: a slug is generated only for a non-empty title and an empty slug. */
  function SlugEffect(f: FormData): (g: FormData)
    ensures g == f.(slug := g.slug)
    ensures g.slug != f.slug ==> f.title != "" && f.slug == "" && IsSlug(g.slug)
    ensures f.title != "" && f.slug == "" ==> g.slug == Kebab(f.title)
  {
    if f.title != "" && f.slug == "" then f.(slug := Kebab(f.title)) else f
  }

  /** Running the slug effect again changes nothing, so it settles after one run. */
  lemma SlugEffectSettles(f: FormData)
    ensures SlugEffect(SlugEffect(f)) == SlugEffect(f)
  {
  }

  /** A title that already is a slug is taken over unchanged. */
  lemma SlugOfSlugTitle(f: FormData)
    requires f.title != "" && f.slug == "" && IsSlug(f.title)
    ensures SlugEffect(f).slug == f.title
  {
    KebabFixed(f.title);
  }

  // ---------------------------------------------------------------------------
  // Excerpt
  // ---------------------------------------------------------------------------

  /** `s.replace(/<[^>]*>/g, '')`: every `<` with a later `>` is removed together with everything up to that `>`. */
  function StripTags(s: string): (r: string)
    ensures |r| <= |s|
    decreases |s|
  {
    if s == [] then []
    else if s[0] == '<' && '>' in s[1..] then StripTags(s[IndexOf(s[1..], '>') + 2..])
    else [s[0]] + StripTags(s[1..])
  }

  /** Stripping only removes characters. */
  lemma {:induction false} StripTagsChars(s: string)
    ensures forall c :: c in StripTags(s) ==> c in s
    decreases |s|
  {
    if s != [] {
      if s[0] == '<' && '>' in s[1..] {
        var k := IndexOf(s[1..], '>') + 2;
        StripTagsChars(s[k..]);
        forall c | c in s[k..] ensures c in s {
          var i :| 0 <= i < |s[k..]| && s[k..][i] == c;
          assert s[k + i] == c;
        }
      } else {
        StripTagsChars(s[1..]);
      }
    }
  }

  /** No tag is left: no kept `<` is followed by a `>`. */
  predicate NoTags(s: string) {
    forall i, j :: 0 <= i < j < |s| && s[i] == '<' ==> s[j] != '>'
  }

  lemma {:induction false} StripTagsNoTags(s: string)
    ensures NoTags(StripTags(s))
    decreases |s|
  {
    if s != [] {
      if s[0] == '<' && '>' in s[1..] {
        StripTagsNoTags(s[IndexOf(s[1..], '>') + 2..]);
      } else {
        var rest := StripTags(s[1..]);
        StripTagsNoTags(s[1..]);
        StripTagsChars(s[1..]);
        var r := [s[0]] + rest;
        forall i, j | 0 <= i < j < |r| && r[i] == '<' ensures r[j] != '>' {
          if i == 0 {
            assert r[j] == rest[j - 1] && rest[j - 1] in rest;
          } else {
            assert r[i] == rest[i - 1] && r[j] == rest[j - 1];
          }
        }
      }
    }
  }

  /** A text without `<` passes unchanged. */
  lemma {:induction false} StripTagsPlain(s: string)
    requires '<' !in s
    ensures StripTags(s) == s
    decreases |s|
  {
    if s != [] {
      assert '<' !in s[1..];
      StripTagsPlain(s[1..]);
    }
  }

  /** `plain.substring(0, 160) + (plain.length > 160 ? '...' : '')` */
  function Excerpt(plain: string): (r: string)
    ensures |r| <= 163
    ensures |plain| <= 160 ==> r == plain
    ensures |plain| > 160 ==> |r| == 163 && r[..160] == plain[..160] && r[160..] == "..."
  {
    if |plain| > 160 then plain[..160] + "..." else plain
  }

  /** The excerpt effect: an excerpt is generated only for non-empty content and an empty excerpt. */
  function ExcerptEffect(f: FormData): (g: FormData)
    ensures g == f.(excerpt := g.excerpt)
    ensures g.excerpt != f.excerpt ==> f.content != "" && f.excerpt == "" && NoTags(g.excerpt[..Min(|g.excerpt|, 160)])
    ensures f.content != "" && f.excerpt == "" ==> g.excerpt == Excerpt(StripTags(f.content))
    ensures !(f.content != "" && f.excerpt == "") ==> g == f
  {
    if f.content != "" && f.excerpt == "" then
      var plain := StripTags(f.content);
      StripTagsNoTags(f.content);
      assert plain[..Min(|plain|, 160)] == Excerpt(plain)[..Min(|Excerpt(plain)|, 160)];
      f.(excerpt := Excerpt(plain))
    else f
  }

  /** Running the excerpt effect again changes nothing. */
  lemma ExcerptEffectSettles(f: FormData)
    ensures ExcerptEffect(ExcerptEffect(f)) == ExcerptEffect(f)
  {
  }

  // ---------------------------------------------------------------------------
  // Tags
  // ---------------------------------------------------------------------------

  /** `addTag`'s change to the list: the trimmed input, appended when non-empty and new. */
  function WithTag(tags: seq<string>, input: string): (r: seq<string>)
    ensures forall x :: x in r <==> x in tags || (x == Trim(input) && x != "")
    ensures NoDup(tags) ==> NoDup(r)
    ensures |tags| <= |r| <= |tags| + 1 && r[..|tags|] == tags
  {
    var t := Trim(input);
    if t != "" && t !in tags then tags + [t] else tags
  }

  function NotTag(tag: string): string -> bool {
    x => x != tag
  }

  /** `removeTag`'s change to the list: every copy of `tag` goes, the others keep their order. */
  function WithoutTag(tags: seq<string>, tag: string): (r: seq<string>)
    ensures forall x :: x in r <==> x in tags && x != tag
    ensures NoDup(tags) ==> NoDup(r)
  {
    var r := Filter(tags, NotTag(tag));
    forall x ensures x in r <==> x in tags && x != tag {
      FilterMembers(tags, NotTag(tag), x);
    }
    FilterNoDup(tags, NotTag(tag));
    r
  }

  lemma {:induction false} FilterNoDup(s: seq<string>, f: string -> bool)
    ensures NoDup(s) ==> NoDup(Filter(s, f))
    decreases |s|
  {
    if s != [] && NoDup(s) {
      var init := s[..|s| - 1];
      assert NoDup(init);
      FilterNoDup(init, f);
      FilterMembers(init, f, s[|s| - 1]);
    }
  }

  /** Removing a tag that was just added restores the list. */
  lemma AddThenRemove(tags: seq<string>, input: string)
    requires Trim(input) != "" && Trim(input) !in tags
    ensures WithoutTag(WithTag(tags, input), Trim(input)) == tags
  {
    var t := Trim(input);
    FilterConcat(tags, [t], NotTag(t));
    FilterAll(tags, NotTag(t));
    assert Filter([t], NotTag(t)) == [];
  }

  // ---------------------------------------------------------------------------
  // Saving
  // ---------------------------------------------------------------------------

  datatype SaveAction = SaveDraft | Schedule | Publish

  /** `schedule` → scheduled, `publish` → published, anything else → draft. */
  function StatusFor(action: SaveAction): string {
    match action
    case Schedule => "scheduled"
    case Publish => "published"
    case SaveDraft => "draft"
  }

  /**
   * `handleSave`'s payload: the form data with the status of the action and
   * a publication time (`now`) only when publishing.
   */
  function Payload(f: FormData, action: SaveAction, now: string): (body: AdminArticlesRoute.ArticleBody)
    ensures body.status == Some(StatusFor(action))
    ensures body.publishedAt.Some? <==> action == Publish
  {
    AdminArticlesRoute.ArticleBody(
      None, Some(f.title), Some(f.slug), Some(f.content), Some(f.excerpt), Some(StatusFor(action)),
      Some(f.category), Some(f.tags), Some(f.featuredImageUrl), Some(f.seoTitle), Some(f.seoDescription),
      Some(f.scheduledFor), if action == Publish then Some(now) else None)
  }

  /**
   * What the route does with the editor's payload: it is refused exactly
   * when title, slug or content is empty; otherwise the inserted row carries
   * the action's status, and a publication time only when publishing.
   */
  lemma PayloadAtRoute(f: FormData, action: SaveAction, now: string, randomId: string, stamp: string)
    requires now != ""
    ensures var r := AdminArticlesRoute.Post(Payload(f, action, now), true, randomId, stamp);
      (r.Rejected? <==> f.title == "" || f.slug == "" || f.content == "")
      && (r.Insert? ==> r.row.status == StatusFor(action) && (r.row.publishedAt.Some? <==> action == Publish)
                        && r.row.tags == f.tags && r.row.title == f.title)
  {
  }

  // ---------------------------------------------------------------------------
  // The page state
  // ---------------------------------------------------------------------------

  /** The editor page's state: the form and the tag being typed. */
  class Editor {
    var formData: FormData
    var tagInput: string

    /** The tag list never holds a tag twice. */
    predicate Valid()
      reads this
    {
      NoDup(formData.tags)
    }

    constructor()
      ensures formData == EmptyForm && tagInput == "" && Valid()
    {
      formData := EmptyForm;
      tagInput := "";
    }

    /** The effect that fills in the slug from the title. */
    method SyncSlug()
      requires Valid()
      modifies this
      ensures formData == SlugEffect(old(formData)) && tagInput == old(tagInput) && Valid()
    {
      if formData.title != "" && formData.slug == "" {
        var generatedSlug := Kebab(formData.title);
        formData := formData.(slug := generatedSlug);
      }
    }

    /** The effect that fills in the excerpt from the content. */
    method SyncExcerpt()
      requires Valid()
      modifies this
      ensures formData == ExcerptEffect(old(formData)) && tagInput == old(tagInput) && Valid()
    {
      if formData.content != "" && formData.excerpt == "" {
        var plainText := StripTags(formData.content);
        var excerpt := Excerpt(plainText);
        formData := formData.(excerpt := excerpt);
      }
    }

    /** `addTag`: the input is cleared only when the tag was added. */
    method AddTag()
      requires Valid()
      modifies this
      ensures formData == old(formData).(tags := WithTag(old(formData.tags), old(tagInput)))
      ensures tagInput == if |formData.tags| > |old(formData.tags)| then "" else old(tagInput)
      ensures Valid()
    {
      var tag := Trim(tagInput);
      if tag != "" && tag !in formData.tags {
        formData := formData.(tags := formData.tags + [tag]);
        tagInput := "";
      }
    }

    /** `removeTag` */
    method RemoveTag(tagToRemove: string)
      requires Valid()
      modifies this
      ensures formData == old(formData).(tags := WithoutTag(old(formData.tags), tagToRemove))
      ensures tagInput == old(tagInput) && Valid()
    {
      formData := formData.(tags := Filter(formData.tags, NotTag(tagToRemove)));
    }

    /** `calculateReadTime`: the route's estimate, one minute per started 200 words. */
    function CalculateReadTime(): (minutes: nat)
      reads this
      ensures minutes >= 1
      ensures (minutes - 1) * 200 < AdminArticlesRoute.WordCount(formData.content) <= minutes * 200
    {
      AdminArticlesRoute.ReadTime(formData.content)
    }
  }
}
