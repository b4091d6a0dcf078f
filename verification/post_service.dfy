/** The normalisation services/post.ts applies to server replies before the
    hooks see them: the query parameters of `getPosts`, the page it returns,
    and the `response.data || response` unwrapping of the single-item calls.
    The HTTP requests themselves are not modelled: a reply is an input. */
module PostService {
  import opened Wrappers
  import opened Text
  import opened Models

  /** The methods services/post.ts defines on `PostService`. */
  const ServiceMethods: set<string> := {"getPosts", "getPostById", "getComments", "addComment", "toggleLike"}

  /** The message of the `TypeError` thrown by calling a method the service
      does not define. */
  const NotAFunction: string := "undefined is not a function"

  /** `await PostService[name](...)` inside a `try`: the request's outcome
      when the service defines the method `name`; otherwise the call throws before any
      request is made, and the `catch` branch runs whatever the server would
      have answered. */
  function Call<T>(name: string, reply: Result<T, string>): (r: Result<T, string>)
    ensures name in ServiceMethods ==> r == reply
    ensures name !in ServiceMethods ==> r == Failure(NotAFunction)
  {
    if name in ServiceMethods then reply else Failure(NotAFunction)
  }

  /** The methods the forms and the post card call but the service lacks:
      every call to them fails, for every reply. */
  lemma UndefinedMethodsThrow<T>(reply: Result<T, string>)
    ensures Call("reportPost", reply).Failure? && Call("editPost", reply).Failure?
    ensures Call("addPost", reply).Failure?
    ensures Call("toggleReaction", reply).Failure? && Call("toggleShare", reply).Failure?
  {
    assert "reportPost" !in ServiceMethods && "editPost" !in ServiceMethods;
    assert "addPost" !in ServiceMethods;
    assert "toggleReaction" !in ServiceMethods && "toggleShare" !in ServiceMethods;
  }

  /** The default page size of `getPosts`. */
  const DefaultLimit: int := 20

  /** The decimal digit for a value below ten. */
  function DigitChar(d: nat): char
    requires d < 10
  {
    ('0' as int + d) as char
  }

  /** The value of a decimal digit character. */
  function DigitValue(c: char): int {
    c as int - '0' as int
  }

  /** The decimal digits of `n`, most significant first, without leading zeros. */
  function Digits(n: nat): (s: string)
    ensures |s| > 0
    ensures forall i :: 0 <= i < |s| ==> '0' <= s[i] <= '9'
    decreases n
  {
    if n < 10 then [DigitChar(n)] else Digits(n / 10) + [DigitChar(n % 10)]
  }

  /** `n.toString()` for an integer `n`. */
  function DecimalString(n: int): (s: string)
    ensures |s| > 0
    ensures n < 0 <==> s[0] == '-'
  {
    if n < 0 then "-" + Digits(-n) else Digits(n)
  }

  /** Reads a string of decimal digits back as a number. */
  function ParseDigits(s: string): int
    decreases |s|
  {
    if |s| == 0 then 0 else ParseDigits(s[..|s| - 1]) * 10 + DigitValue(s[|s| - 1])
  }

  /** Reads an optionally signed decimal string back as a number. */
  function ParseDecimal(s: string): int {
    if |s| > 0 && s[0] == '-' then -ParseDigits(s[1..]) else ParseDigits(s)
  }

  lemma {:induction false} DigitsRoundTrip(n: nat)
    ensures ParseDigits(Digits(n)) == n
    decreases n
  {
    if n >= 10 {
      DigitsRoundTrip(n / 10);
      var s := Digits(n);
      assert s[..|s| - 1] == Digits(n / 10);
    }
  }

  /** The `limit` parameter is the exact decimal rendering of the limit:
      reading it back yields the limit. */
  lemma DecimalStringRoundTrip(n: int)
    ensures ParseDecimal(DecimalString(n)) == n
  {
    if n < 0 {
      DigitsRoundTrip(-n);
      assert DecimalString(n)[1..] == Digits(-n);
    } else {
      DigitsRoundTrip(n);
    }
  }

  /** The query of `getPosts(cursor, limit)`: always `limit`, and `cursor`
      only when a truthy cursor is passed. */
  function PostsParams(cursor: Option<string>, limit: int): (params: map<string, string>)
    ensures "limit" in params && ParseDecimal(params["limit"]) == limit
    ensures "cursor" in params <==> cursor.Some? && Truthy(cursor.value)
    ensures "cursor" in params ==> params["cursor"] == cursor.value
    ensures params.Keys <= {"limit", "cursor"}
  {
    DecimalStringRoundTrip(limit);
    var base := map["limit" := DecimalString(limit)];
    if cursor.Some? && Truthy(cursor.value) then base["cursor" := cursor.value] else base
  }

  /** With no cursor and the default limit the query is exactly `limit=20`. */
  lemma DefaultParams()
    ensures PostsParams(None, DefaultLimit) == map["limit" := "20"]
  {
    assert DigitChar(2) == '2' && DigitChar(0) == '0';
    assert Digits(2) == "2";
    assert Digits(20) == Digits(2) + ['0'] == "20";
    assert DecimalString(20) == "20";
  }

  /** The body the posts endpoint replies with: `{ data, next_cursor }`,
      either field possibly absent or null. */
  datatype RawPage = RawPage(data: Option<seq<PostItem>>, nextCursor: Option<string>)

  /** `PostsResponse`: what `getPosts` resolves with. */
  datatype PostsResponse = PostsResponse(data: seq<PostItem>, nextCursor: Option<string>, hasMore: bool)

  /** The page `getPosts` builds from the body: missing data becomes `[]`,
      the cursor passes through, and more pages exist iff the cursor is truthy. */
  function NormalizePage(raw: RawPage): (page: PostsResponse)
    ensures raw.data.Some? ==> page.data == raw.data.value
    ensures raw.data.None? ==> page.data == []
    ensures page.nextCursor == raw.nextCursor
    ensures page.hasMore <==> raw.nextCursor.Some? && Truthy(raw.nextCursor.value)
  {
    PostsResponse(raw.data.GetOr([]), raw.nextCursor, raw.nextCursor.Some? && Truthy(raw.nextCursor.value))
  }

  /** The cursor a page hands back is sent with the next request exactly
      when the page says more pages exist, so paging never repeats a request
      without a cursor while `hasMore` holds. */
  lemma NextRequestCarriesCursorIffMore(raw: RawPage, limit: int)
    ensures var page := NormalizePage(raw);
            "cursor" in PostsParams(page.nextCursor, limit) <==> page.hasMore
  {
  }

  /** A reply body as `response.data || response` sees it: an envelope with a
      truthy `data` member, a truthy body without one, or a falsy body. */
  datatype Reply<T> = WithData(data: T) | Plain(body: T) | FalsyBody

  /** `response.data || response`, None standing for the falsy body it returns
      when both are falsy. Used by `getPostById` and `addComment`. */
  function Unwrap<T>(reply: Reply<T>): (v: Option<T>)
    ensures reply.WithData? ==> v == Some(reply.data)
    ensures reply.Plain? ==> v == Some(reply.body)
    ensures v.None? <==> reply.FalsyBody?
  {
    match reply
    case WithData(d) => Some(d)
    case Plain(b) => Some(b)
    case FalsyBody => None
  }

  /** `getComments`: `response.data || response || []`. */
  function CommentsOf(reply: Reply<seq<Comment>>): (comments: seq<Comment>)
    ensures reply.WithData? ==> comments == reply.data
    ensures reply.Plain? ==> comments == reply.body
    ensures reply.FalsyBody? ==> comments == []
  {
    Unwrap(reply).GetOr([])
  }

  /** The envelope does not matter: a value sent inside `{ data }` and the
      same value sent bare unwrap alike, for single items and comment lists. */
  lemma UnwrapIgnoresEnvelope<T>(x: T, cs: seq<Comment>)
    ensures Unwrap(WithData(x)) == Unwrap(Plain(x)) == Some(x)
    ensures CommentsOf(WithData(cs)) == CommentsOf(Plain(cs)) == cs
  {
  }
}
