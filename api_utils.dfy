/** The backend's helper library: ids, response shaping, pagination, image types,
    file names, bearer tokens, ownership and date checks. */
module ApiUtils {
  import opened Wrappers

  /** JavaScript truthiness of an optional string: present and non-empty. */
  predicate Truthy(s: Option<string>) {
    s.Some? && s.value != ""
  }

  predicate StartsWith(s: string, p: string) {
    |p| <= |s| && s[..|p|] == p
  }

  // ---------------------------------------------------------------- ids

  /** An id from a random `nano` suffix, prefixed with `prefix_` when a prefix is given. */
  function GenerateId(prefix: Option<string>, nano: string): (id: string)
    ensures |nano| <= |id| && id[|id| - |nano|..] == nano
    ensures Truthy(prefix) ==> StartsWith(id, prefix.value + "_")
  {
    if Truthy(prefix) then prefix.value + "_" + nano else nano
  }

  /** Under one prefix, distinct random suffixes give distinct ids. */
  lemma GenerateIdInjective(prefix: Option<string>, n1: string, n2: string)
    requires GenerateId(prefix, n1) == GenerateId(prefix, n2)
    ensures n1 == n2
  {
    var i1, i2 := GenerateId(prefix, n1), GenerateId(prefix, n2);
    var p := if Truthy(prefix) then prefix.value + "_" else "";
    assert i1 == p + n1 && i2 == p + n2;
    assert n1 == i1[|p|..] && n2 == i2[|p|..];
  }

  // ---------------------------------------------------------- responses

  /** The body `{ error: { message, status } }` of every error response. */
  datatype ErrorBody = ErrorBody(message: string, status: int)

  /** The body `{ success: true, message?, data }` of every success response. */
  datatype SuccessBody<T> = SuccessBody(success: bool, message: Option<string>, data: T)

  /** `formatError`: the status defaults to 400. */
  function FormatError(message: string, status: Option<int>): (r: ErrorBody)
    ensures r.message == message
    ensures r.status == if status.Some? then status.value else 400
  {
    ErrorBody(message, status.GetOr(400))
  }

  /** `formatSuccess`: the message key is present only for a non-empty message. */
  function FormatSuccess<T>(data: T, message: Option<string>): (r: SuccessBody<T>)
    ensures r.success && r.data == data
    ensures r.message.Some? <==> Truthy(message)
    ensures r.message.Some? ==> r.message == message
  {
    SuccessBody(true, if Truthy(message) then message else None, data)
  }

  /** What a handler sends back: an error body, a success body, or the list of fields
      the request-schema middleware rejected. */
  datatype Body<T> = Failed(error: ErrorBody) | Succeeded(ok: SuccessBody<T>)
                   | SchemaRejected(fields: seq<string>)

  /** An HTTP status with its JSON body. */
  datatype Reply<T> = Reply(status: int, body: Body<T>)

  /** `c.json(formatError(message, status), status)` */
  function Fail<T>(message: string, status: int): (r: Reply<T>)
    ensures r.status == status && r.body == Failed(ErrorBody(message, status))
  {
    Reply(status, Failed(FormatError(message, Some(status))))
  }

  /** `c.json(formatSuccess(data, message), status)` */
  function Done<T>(status: int, data: T, message: string): (r: Reply<T>)
    ensures r.status == status && r.body.Succeeded? && r.body.ok.success && r.body.ok.data == data
    ensures message != "" ==> r.body.ok.message == Some(message)
  {
    Reply(status, Succeeded(FormatSuccess(data, Some(message))))
  }

  // --------------------------------------------------------- pagination

  /** The window `{ limit, offset }` of one page. */
  datatype Window = Window(limit: int, offset: int)

  function Paginate(page: int, limit: int): (w: Window)
    ensures w.limit == limit
    ensures page == 1 ==> w.offset == 0
  {
    Window(limit, (page - 1) * limit)
  }

  /** Page `page + 1` starts where page `page` ends. */
  lemma PagesAdjacent(page: int, limit: int)
    ensures Paginate(page, limit).offset + limit == Paginate(page + 1, limit).offset
  {
  }

  /** A JavaScript number as `Math.ceil(total / limit)` can produce it. */
  datatype PageCount = Finite(n: int) | Infinity | NaN

  /** JavaScript `page < totalPages`. */
  predicate LessThan(page: int, c: PageCount) {
    match c
    case Finite(n) => page < n
    case Infinity => true
    case NaN => false
  }

  /** `Math.ceil(a / b)` for a positive divisor. */
  function CeilDiv(a: nat, b: int): (q: nat)
    requires b > 0
    ensures a == 0 ==> q == 0
    ensures a > 0 ==> (q - 1) * b < a <= q * b
  {
    var q := (a + b - 1) / b;
    DivBounds(a + b - 1, b);
    q
  }

  lemma DivBounds(x: nat, b: int)
    requires b > 0
    ensures b * (x / b) <= x < b * (x / b) + b
  {
    assert x == b * (x / b) + x % b;
  }

  /** `Math.ceil(total / limit)` for every limit, including the Infinity/NaN of a zero limit. */
  function TotalPages(total: nat, limit: int): (c: PageCount)
    ensures limit > 0 ==> c == Finite(CeilDiv(total, limit))
    ensures limit == 0 ==> c == if total == 0 then NaN else Infinity
    ensures limit < 0 ==> c.Finite? && c.n <= 0 && c.n * limit <= total < (c.n - 1) * limit
  {
    if limit > 0 then Finite(CeilDiv(total, limit))
    else if limit < 0 then Finite(-(total / -limit))
    else if total == 0 then NaN
    else Infinity
  }

  datatype PaginationMeta = PaginationMeta(total: nat, page: int, limit: int,
                                           totalPages: PageCount, hasNext: bool, hasPrev: bool)

  function Meta(total: nat, page: int, limit: int): (m: PaginationMeta)
    ensures m.total == total && m.page == page && m.limit == limit
    ensures limit > 0 ==> m.totalPages.Finite? && (total == 0 ==> m.totalPages.n == 0)
    ensures limit > 0 && total > 0 ==> (m.totalPages.n - 1) * limit < total <= m.totalPages.n * limit
    ensures m.hasNext <==> LessThan(page, m.totalPages)
    ensures m.hasPrev <==> page > 1
  {
    var pages := TotalPages(total, limit);
    PaginationMeta(total, page, limit, pages, LessThan(page, pages), page > 1)
  }

  /** On page `p` of a positive limit there is a next page exactly when some row
      lies past the rows of pages 1..p. */
  lemma {:induction false} HasNextIffRowsRemain(total: nat, page: int, limit: int)
    requires limit > 0 && page >= 1
    ensures Meta(total, page, limit).hasNext <==> page * limit < total
  {
    var n := CeilDiv(total, limit);
    if total == 0 {
    } else if page < n {
      assert page <= n - 1;
      MulMonotone(page, n - 1, limit);
    } else {
      MulMonotone(n, page, limit);
    }
  }

  lemma MulMonotone(a: int, b: int, c: int)
    requires a <= b && c > 0
    ensures a * c <= b * c
  {
    assert b * c - a * c == (b - a) * c;
  }

  // -------------------------------------------------------- image types

  const ValidImageTypes: seq<string> := ["image/jpeg", "image/png", "image/webp", "image/gif"]

  function IsValidImageType(mimeType: string): (b: bool)
    ensures b <==> mimeType == "image/jpeg" || mimeType == "image/png"
                   || mimeType == "image/webp" || mimeType == "image/gif"
  {
    mimeType in ValidImageTypes
  }

  // ---------------------------------------------------------- file names

  /** `s.split('.').pop()`: the text after the last '.', or all of `s` when it has none. */
  function LastSegment(s: string): (seg: string)
    ensures '.' !in seg
    ensures |seg| <= |s| && s[|s| - |seg|..] == seg
    ensures |seg| < |s| ==> s[|s| - |seg| - 1] == '.'
  {
    if '.' !in s then s else LastSegment(s[1..])
  }

  /** The extension kept by `generateSafeFilename`: the last segment, or "jpg" when it is empty. */
  function Extension(name: string): (ext: string)
    ensures ext != "" && '.' !in ext
    ensures ext == "jpg" || (|ext| <= |name| && name[|name| - |ext|..] == ext)
    ensures LastSegment(name) != "" ==> ext == LastSegment(name)
  {
    var seg := LastSegment(name);
    if seg == "" then "jpg" else seg
  }

  /** `generateSafeFilename(originalName, prefix)` with the random part `nano` given. */
  function GenerateSafeFilename(originalName: string, prefix: Option<string>, nano: string): (f: string)
    ensures var ext := Extension(originalName);
            |ext| + 1 <= |f| && f[|f| - |ext| - 1..] == "." + ext
    ensures Truthy(prefix) ==> StartsWith(f, prefix.value + "_")
  {
    var tail := "." + Extension(originalName);
    if Truthy(prefix) then
      var p := prefix.value + "_";
      ConcatParts(p, nano + tail);
      ConcatParts(p + nano, tail);
      assert (p + nano) + tail == p + (nano + tail);
      (p + nano) + tail
    else
      ConcatParts(nano, tail);
      nano + tail
  }

  lemma ConcatParts(a: string, b: string)
    ensures (a + b)[..|a|] == a && (a + b)[|a|..] == b
  {
  }

  /** A prefix of `name`, behind `q`, is a prefix of `q + name`. */
  lemma PrefixBehind(q: string, name: string, r: string)
    requires StartsWith(name, r)
    ensures StartsWith(q + name, q + r)
  {
    assert (q + name)[..|q + r|] == q + name[..|r|];
  }

  /** A name without any '.' is kept whole as the extension: "photo" gives "<id>.photo". */
  lemma NoDotKeepsWholeName(name: string)
    requires name != "" && '.' !in name
    ensures Extension(name) == name
  {
  }

  /** A name ending in '.' falls back to "jpg". */
  lemma TrailingDotGivesJpg(name: string)
    requires name != "" && name[|name| - 1] == '.'
    ensures Extension(name) == "jpg"
  {
  }

  // ------------------------------------------------------ bearer tokens

  const BearerPrefix: string := "Bearer "

  /** `extractBearerToken`: the text after "Bearer ", or null. */
  function ExtractBearerToken(authHeader: Option<string>): (token: Option<string>)
    ensures token.Some? <==> authHeader.Some? && StartsWith(authHeader.value, BearerPrefix)
    ensures token.Some? ==> authHeader.value == BearerPrefix + token.value
  {
    if !Truthy(authHeader) || !StartsWith(authHeader.value, BearerPrefix) then None
    else Some(authHeader.value[|BearerPrefix|..])
  }

  lemma BearerRoundTrip(t: string)
    ensures ExtractBearerToken(Some(BearerPrefix + t)) == Some(t)
  {
    var h := BearerPrefix + t;
    assert StartsWith(h, BearerPrefix);
    assert h[|BearerPrefix|..] == t;
  }

  // ------------------------------------------------- ownership and dates

  /** `checkOwnership`: ids compare as strings, so the order of the two ids does not
      matter, and it agrees with a handler that compares `createdBy` with the caller. */
  predicate CheckOwnership(userId: string, resourceOwnerId: string): (owns: bool)
    ensures owns <==> resourceOwnerId == userId
  {
    userId == resourceOwnerId
  }

  /** `isFutureDate`, with the wall clock passed in as `now`: strictly later than now, so
      the present instant is not in the future. */
  predicate IsFutureDate(date: int, now: int): (future: bool)
    ensures future <==> now < date
    ensures date <= now ==> !future
  {
    date > now
  }
}
