/**
 * The client for a FreshRSS server speaking the Google Reader API: login
 * token extraction, the query of the reading-list request, the unread-count
 * lookup, the item shaping with its defaults, and the module-wide client
 * that is created once from three environment variables.
 *
 * Every HTTP exchange is an input here: the caller passes what the server
 * answered (or `None` when the request failed).
 */
module FreshRss {
  import opened Wrappers
  import opened Text

  // ---------------------------------------------------------------------------
  // Items and their shaping
  // ---------------------------------------------------------------------------

  datatype Origin = Origin(streamId: string, title: string, htmlUrl: string)

  /**
   * An item of a stream. `canonical` holds the `href` of each canonical
   * link (an absent list is the empty one); `published` is a Unix time in
   * seconds.
   */
  datatype Item = Item(
    id: string,
    title: string,
    summary: Option<string>,
    canonical: seq<string>,
    author: Option<string>,
    published: Option<int>,
    categories: seq<string>,
    origin: Option<Origin>)

  /** A JavaScript `Date` or `null`, as milliseconds since the epoch. */
  type Millis = Option<int>

  /** The item in the shape the site shows. */
  datatype Paper = Paper(
    title: string,
    link: string,
    description: string,
    author: Option<string>,
    publishedAt: Millis,
    feedName: string,
    feedUrl: string)

  /** `published` counts only when it is there and not zero (JavaScript truthiness). */
  predicate HasPublished(item: Item) {
    item.published.Some? && item.published.value != 0
  }

  /** `item.canonical?.[0]?.href || ''` */
  function LinkOf(item: Item): (link: string)
    ensures item.canonical == [] ==> link == ""
    ensures item.canonical != [] ==> link == item.canonical[0]
  {
    if item.canonical == [] then "" else item.canonical[0]
  }

  /** `item.origin?.title || 'Unknown Feed'` */
  function FeedNameOf(item: Item): (name: string)
    ensures name != ""
    ensures item.origin.Some? && item.origin.value.title != "" ==> name == item.origin.value.title
    ensures item.origin.None? || item.origin.value.title == "" ==> name == "Unknown Feed"
  {
    if item.origin.Some? then OrElse(item.origin.value.title, "Unknown Feed") else "Unknown Feed"
  }

  /** `item.published ? new Date(item.published * 1000) : null` */
  function PublishedMillis(item: Item): (t: Millis)
    ensures t.Some? <==> HasPublished(item)
    ensures t.Some? ==> t.value == item.published.value * 1000
  {
    if HasPublished(item) then Some(item.published.value * 1000) else None
  }

  /** `FreshRSSClient.transformItem`. */
  function TransformItem(item: Item): (p: Paper)
    ensures p.title == item.title && p.author == item.author
    ensures p.link == LinkOf(item) && p.feedName == FeedNameOf(item)
    ensures p.description == (if item.summary.Some? then item.summary.value else "")
    ensures p.feedUrl == (if item.origin.Some? then item.origin.value.htmlUrl else "")
    ensures p.publishedAt == PublishedMillis(item)
  {
    Paper(
      item.title,
      LinkOf(item),
      if item.summary.Some? then item.summary.value else "",
      item.author,
      PublishedMillis(item),
      FeedNameOf(item),
      if item.origin.Some? then item.origin.value.htmlUrl else "")
  }

  /** An item with nothing but an id and a title gets every default. */
  lemma TransformMinimal(id: string, title: string)
    ensures TransformItem(Item(id, title, None, [], None, None, [], None))
         == Paper(title, "", "", None, None, "Unknown Feed", "")
  {
  }

  /** The date is the publication second scaled to milliseconds, and scaling back gives the second. */
  lemma PublishedRoundTrip(item: Item)
    requires HasPublished(item)
    ensures TransformItem(item).publishedAt.Some?
    ensures TransformItem(item).publishedAt.value / 1000 == item.published.value
    ensures TransformItem(item).publishedAt.value % 1000 == 0
  {
    var ms := item.published.value * 1000;
    assert ms == item.published.value * 1000;
  }

  // ---------------------------------------------------------------------------
  // The login answer: `text.match(/Auth=(.+)/)`
  // ---------------------------------------------------------------------------

  /** The characters `.` does not match in a JavaScript regular expression. */
  predicate IsLineTerminator(c: char) {
    c == '\n' || c == '\r' || c == '\U{2028}' || c == '\U{2029}'
  }

  predicate NotLineTerminator(c: char) { !IsLineTerminator(c) }

  /** `Auth=` at `i`, followed by at least one character of the same line. */
  predicate AuthAt(text: string, i: int) {
    0 <= i && i + 5 < |text| && text[i..i + 5] == "Auth=" && !IsLineTerminator(text[i + 5])
  }

  /** The leftmost position from `from` on where the pattern matches. */
  function FindAuth(text: string, from: nat): (r: Option<nat>)
    ensures r.Some? ==> from <= r.value && AuthAt(text, r.value)
    ensures r.Some? ==> forall j :: from <= j < r.value ==> !AuthAt(text, j)
    ensures r.None? ==> forall j :: from <= j ==> !AuthAt(text, j)
    decreases |text| - from
  {
    if from + 5 >= |text| then None
    else if AuthAt(text, from) then Some(from)
    else FindAuth(text, from + 1)
  }

  /** The captured group: the rest of the line after the leftmost `Auth=` that is followed by one. */
  function AuthToken(text: string): (token: Option<string>)
    ensures token.None? <==> forall i :: !AuthAt(text, i)
    ensures token.Some? ==> token.value != ""
    ensures token.Some? ==> forall k :: 0 <= k < |token.value| ==> !IsLineTerminator(token.value[k])
  {
    match FindAuth(text, 0)
    case None => None
    case Some(i) =>
      var rest := text[i + 5..];
      Some(rest[..LeadingCount(rest, NotLineTerminator)])
  }

  /**
   * The token is what follows the leftmost match of `Auth=`, and it runs to
   * the end of that line.
   */
  lemma AuthTokenPlace(text: string) returns (i: nat)
    requires AuthToken(text).Some?
    ensures AuthAt(text, i) && forall j :: 0 <= j < i ==> !AuthAt(text, j)
    ensures var t := AuthToken(text).value;
      i + 5 + |t| <= |text| && text[i + 5..i + 5 + |t|] == t
      && (i + 5 + |t| == |text| || IsLineTerminator(text[i + 5 + |t|]))
  {
    i := FindAuth(text, 0).value;
    var rest := text[i + 5..];
    var n := LeadingCount(rest, NotLineTerminator);
    assert AuthToken(text).value == rest[..n];
    assert text[i + 5..i + 5 + n] == rest[..n];
    if i + 5 + n < |text| {
      assert text[i + 5 + n] == rest[n];
    }
  }

  /** A login answer without `Auth=` gives no token (the malformed-answer case). */
  lemma NoAuthNoToken(text: string)
    requires !Contains(text, "Auth=")
    ensures AuthToken(text).None?
  {
    forall i ensures !AuthAt(text, i) {
      if AuthAt(text, i) {
        assert OccursAt(text, "Auth=", i);
      }
    }
  }

  // ---------------------------------------------------------------------------
  // The reading-list request and the unread counts
  // ---------------------------------------------------------------------------

  const ReadState: string := "user/-/state/com.google/read"
  const ReadingList: string := "user/-/state/com.google/reading-list"

  datatype Param = Param(name: string, value: string)

  /** The options of `getItems`, each possibly left out. */
  datatype ItemOptions = ItemOptions(count: Option<int>, excludeRead: Option<bool>, newerThan: Option<int>)

  /** The query string of the reading-list request, once the defaults are applied. */
  function ItemParams(count: int, excludeRead: bool, newerThan: Option<int>): (ps: seq<Param>)
    ensures 1 <= |ps| <= 3 && ps[0] == Param("n", IntToString(count))
  {
    [Param("n", IntToString(count))]
    + (if excludeRead then [Param("xt", ReadState)] else [])
    + (if newerThan.Some? && newerThan.value != 0 then [Param("ot", IntToString(newerThan.value))] else [])
  }

  predicate HasParam(ps: seq<Param>, name: string) {
    exists i :: 0 <= i < |ps| && ps[i].name == name
  }

  /**
   * `n` is always sent; `xt` exactly when read items are excluded; `ot`
   * exactly when a (non-zero) time is given, and it carries that time.
   */
  lemma ItemParamsSent(count: int, excludeRead: bool, newerThan: Option<int>)
    ensures var ps := ItemParams(count, excludeRead, newerThan);
      HasParam(ps, "n")
      && (HasParam(ps, "xt") <==> excludeRead)
      && (HasParam(ps, "ot") <==> newerThan.Some? && newerThan.value != 0)
      && (forall i :: 0 <= i < |ps| && ps[i].name == "xt" ==> ps[i].value == ReadState)
      && (forall i :: 0 <= i < |ps| && ps[i].name == "ot" ==> ps[i].value == IntToString(newerThan.value))
  {
    var ps := ItemParams(count, excludeRead, newerThan);
    assert ps[0].name == "n";
    assert "n" != "xt" && "n" != "ot" && "xt" != "ot";
    if excludeRead {
      assert ps[1].name == "xt";
    }
    if newerThan.Some? && newerThan.value != 0 {
      assert ps[|ps| - 1].name == "ot";
    }
  }

  /** With no options, the request asks for 20 items and nothing else. */
  lemma DefaultParams()
    ensures ItemParams(ItemOptions(None, None, None).count.GetOr(20), false, None) == [Param("n", "20")]
  {
    assert IntToString(20) == "20" by {
      assert NatToString(20) == NatToString(2) + [DigitChar(0)];
    }
  }

  datatype UnreadEntry = UnreadEntry(id: string, count: int)

  /** `unreadCounts.find(c => c.id === reading-list)?.count || 0` */
  function ReadingListCount(counts: seq<UnreadEntry>): (n: int)
    ensures (forall i :: 0 <= i < |counts| ==> counts[i].id != ReadingList) ==> n == 0
    decreases |counts|
  {
    if counts == [] then 0
    else if counts[0].id == ReadingList then counts[0].count
    else ReadingListCount(counts[1..])
  }

  /** The count is the one of the first reading-list entry. */
  lemma {:induction false} ReadingListFirst(counts: seq<UnreadEntry>, i: nat)
    requires i < |counts| && counts[i].id == ReadingList
    requires forall j :: 0 <= j < i ==> counts[j].id != ReadingList
    ensures ReadingListCount(counts) == counts[i].count
    decreases i
  {
    if i > 0 {
      ReadingListFirst(counts[1..], i - 1);
    }
  }

  // ---------------------------------------------------------------------------
  // The client
  // ---------------------------------------------------------------------------

  datatype Config = Config(apiUrl: string, username: string, password: string)

  /** What the login request came back with; a failed request is `ok == false`. */
  datatype LoginAnswer = LoginAnswer(ok: bool, text: string)

  /** The token a login answer yields, if any. */
  function LoginToken(login: LoginAnswer): (t: Option<string>)
    ensures t.Some? ==> login.ok && t == AuthToken(login.text)
    ensures login.ok ==> t == AuthToken(login.text)
  {
    if login.ok then AuthToken(login.text) else None
  }

  /** The outcome of `getItems`: the thrown error, or the query sent and the items received. */
  datatype ItemsResult = AuthenticationRequired | Fetched(params: seq<Param>, items: seq<Item>)

  class Client {
    const config: Config
    var authToken: Option<string>

    constructor(config: Config)
      ensures this.config == config && authToken == None
    {
      this.config := config;
      authToken := None;
    }

    /** `!this.authToken` in the source: no token, or the empty one. */
    predicate NeedsLogin()
      reads this
    {
      authToken.None? || authToken.value == ""
    }

    /** `authenticate`: a token is stored only when the answer holds one; otherwise nothing changes. */
    method Authenticate(login: LoginAnswer) returns (ok: bool)
      modifies this
      ensures ok <==> LoginToken(login).Some?
      ensures ok ==> authToken == LoginToken(login) && !NeedsLogin()
      ensures !ok ==> authToken == old(authToken)
    {
      if !login.ok {
        return false;
      }
      var authMatch := AuthToken(login.text);
      if authMatch.Some? {
        authToken := authMatch;
        return true;
      }
      return false;
    }

    /**
     * `getItems`: logs in first when there is no token and gives up when
     * that fails; otherwise sends the query and returns what came back
     * (`None` for a failed request, which yields no items).
     */
    method GetItems(opts: ItemOptions, login: LoginAnswer, answer: Option<seq<Item>>) returns (r: ItemsResult)
      modifies this
      ensures old(NeedsLogin()) && LoginToken(login).None? <==> r.AuthenticationRequired?
      ensures !old(NeedsLogin()) ==> authToken == old(authToken)
      ensures old(NeedsLogin()) ==> authToken == (if LoginToken(login).Some? then LoginToken(login) else old(authToken))
      ensures r.Fetched? ==> !NeedsLogin()
      ensures r.Fetched? ==> r.params == ItemParams(opts.count.GetOr(20), opts.excludeRead.GetOr(false), opts.newerThan)
      ensures r.Fetched? ==> r.items == answer.GetOr([])
    {
      var count := opts.count.GetOr(20);
      var excludeRead := opts.excludeRead.GetOr(false);
      if NeedsLogin() {
        var authenticated := Authenticate(login);
        if !authenticated {
          return AuthenticationRequired;
        }
      }
      var params := ItemParams(count, excludeRead, opts.newerThan);
      r := Fetched(params, answer.GetOr([]));
    }

    /**
     * `getUnreadCount`: logs in first when there is no token (whatever
     * comes of it), then reads the reading-list entry; a failed request
     * gives 0.
     */
    method GetUnreadCount(login: LoginAnswer, answer: Option<seq<UnreadEntry>>) returns (n: int)
      modifies this
      ensures answer.None? ==> n == 0
      ensures answer.Some? ==> n == ReadingListCount(answer.value)
      ensures !old(NeedsLogin()) ==> authToken == old(authToken)
      ensures old(NeedsLogin()) ==> authToken == (if LoginToken(login).Some? then LoginToken(login) else old(authToken))
    {
      if NeedsLogin() {
        var _ := Authenticate(login);
      }
      if answer.None? {
        return 0;
      }
      n := ReadingListCount(answer.value);
    }
  }

  // ---------------------------------------------------------------------------
  // The module-wide client
  // ---------------------------------------------------------------------------

  /** The three environment variables; `None` when unset. */
  datatype Env = Env(apiUrl: Option<string>, username: Option<string>, password: Option<string>)

  predicate IsSet(v: Option<string>) { v.Some? && v.value != "" }

  predicate Configured(env: Env) {
    IsSet(env.apiUrl) && IsSet(env.username) && IsSet(env.password)
  }

  /** The holder of the module's `freshRSSClient` variable. */
  class Registry {
    var client: Client?

    constructor()
      ensures client == null
    {
      client := null;
    }

    /**
     * `getFreshRSSClient`: nothing without all three variables; otherwise the
     * client made on the first such call, every time.
     */
    method GetClient(env: Env) returns (c: Client?)
      modifies this
      ensures !Configured(env) ==> c == null && client == old(client)
      ensures Configured(env) ==> c != null && c == client
      ensures Configured(env) && old(client) != null ==> c == old(client)
      ensures Configured(env) && old(client) == null ==>
        fresh(c) && c.config == Config(env.apiUrl.value, env.username.value, env.password.value) && c.authToken == None
    {
      if !Configured(env) {
        return null;
      }
      if client == null {
        client := new Client(Config(env.apiUrl.value, env.username.value, env.password.value));
      }
      c := client;
    }
  }

  /** Two calls with the variables set give the same client. */
  method SameClientTwice(registry: Registry, env: Env) returns (first: Client?, second: Client?)
    requires Configured(env)
    modifies registry
    ensures first != null && first == second
  {
    first := registry.GetClient(env);
    second := registry.GetClient(env);
  }
}
