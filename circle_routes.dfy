/** The circle router (routes/circle.js): `POST /create` founds a circle
    under a name no other circle has; `GET /` lists circles most active
    first; `GET /search` lists the circles whose name or description
    matches a keyword.

    `CURRENT_URL` is the parameter `base`. The calendar fields of a stored
    timestamp in the server's time zone (`getFullYear()`, `getMonth()`, ...)
    come from the parameter `localTime`; the case-insensitive `RegExp` test
    is the parameter `matches(keyword, text)`. */
module CircleRoutes {
  import opened Common
  import opened Paging
  import opened AuthMiddleware
  import opened Database
  import opened CircleModel

  // ---------------------------------------------------------------------
  // POST /create

  const AvatarDir: string := "/uploads/avatar/circle/"
  const DefaultAvatar: string := "/uploads/avatar/circle/default-circle-avatar.jpeg"

  /** The first uploaded file becomes the avatar; without upload the
      default avatar is used. */
  function AvatarPath(files: seq<string>): (r: string)
    ensures StartsWith(r, AvatarDir)
    ensures |files| > 0 ==> r[|AvatarDir|..] == files[0]
    ensures |files| == 0 ==> r == DefaultAvatar
  {
    if |files| > 0 then
      var r := AvatarDir + files[0];
      assert r[..|AvatarDir|] == AvatarDir && r[|AvatarDir|..] == files[0];
      r
    else
      assert DefaultAvatar[..|AvatarDir|] == AvatarDir;
      DefaultAvatar
  }

  /** The multipart body of `POST /create`. */
  datatype CircleBody = CircleBody(name: Option<string>, description: Option<string>)

  datatype CreateCircleOutcome =
    | CircleAuthFailed(auth: AuthOutcome)
    | NameMissing                                          // 400
    | NameTaken                                            // 400
    | CircleCreated(id: Id, circle: Circle, avatarUrl: string)  // 201
  {
    function Status(): nat {
      match this
      case CircleAuthFailed(a) => a.Status()
      case NameMissing | NameTaken => 400
      case CircleCreated(_, _, _) => 201
    }
  }

  /** Some stored circle already has this name. */
  predicate NameInUse(db: Db, name: string) {
    exists k | k in db.circles :: db.circles[k].name == name
  }

  /** The refusals before anything is saved, in their order: a missing name,
      then a name some circle already has; `None` lets the creation go on.
      The uploaded files are removed first and the refusal is answered
      whatever was uploaded. */
  function CircleRefusal(db: Db, body: CircleBody): (r: Option<CreateCircleOutcome>)
    ensures r == Some(NameMissing) <==> !Present(body.name)
    ensures r == Some(NameTaken) <==> Present(body.name) && NameInUse(db, body.name.value)
    ensures r.None? <==> Present(body.name) && !NameInUse(db, body.name.value)
  {
    if !Present(body.name) then Some(NameMissing)
    else if NameInUse(db, body.name.value) then Some(NameTaken)
    else None
  }

  /** How a refusal ends as written. */
  datatype RefusalEnd =
    | Answered(out: CreateCircleOutcome)
    | NoAnswer   // the handler throws and no response is sent

  /** The refusals as written: routes/circle.js never imports `fs`, so with a
      file uploaded the `fs.unlinkSync` of the refusal branch throws; the
      catch block calls `fs.unlinkSync` again, throws out of the handler, and
      the request is never answered. Without files the refusal is sent. */
  function CircleRefusalAsWritten(db: Db, body: CircleBody, files: seq<string>): (r: Option<RefusalEnd>)
    ensures r.None? <==> CircleRefusal(db, body).None?
    ensures r == Some(NoAnswer) <==> CircleRefusal(db, body).Some? && files != []
    ensures r.Some? && r.value.Answered? ==> files == [] && Some(r.value.out) == CircleRefusal(db, body)
  {
    match CircleRefusal(db, body)
    case None => None
    case Some(refusal) => if files != [] then Some(NoAnswer) else Some(Answered(refusal))
  }

  /** An avatar uploaded with a nameless form: as written no answer comes
      back; the intended answer is 400 with the name reported missing. */
  lemma NamelessUploadUnanswered(db: Db)
    ensures CircleRefusalAsWritten(db, CircleBody(None, None), ["a.png"]) == Some(NoAnswer)
    ensures CircleRefusal(db, CircleBody(None, None)) == Some(NameMissing)
    ensures NameMissing.Status() == 400
  {
  }

  /** `POST /create`: a missing or taken name is refused and nothing is
      saved; otherwise the circle is stored with the creator as its only
      member, and answered with its avatar made absolute. The unique index
      on names therefore holds afterwards as it did before. */
  method CreateCircle(store: Store, header: Option<string>, body: CircleBody, files: seq<string>,
                      verify: string -> Option<Claims>, base: string, newId: Id, now: int)
    returns (out: CreateCircleOutcome)
    requires Valid(store.View()) && newId !in store.circles
    modifies store
    ensures Valid(store.View())
    ensures old(CountersConsistent(store.View())) ==> CountersConsistent(store.View())
    ensures old(PostCountsConsistent(store.View())) ==> PostCountsConsistent(store.View())
    ensures var auth := Authenticate(header, verify);
      !auth.Authenticated? ==> out == CircleAuthFailed(auth) && store.View() == old(store.View())
    ensures Authenticate(header, verify).Authenticated? ==>
      && (out == NameMissing <==> !Present(body.name))
      && (out == NameTaken <==> Present(body.name) && NameInUse(old(store.View()), body.name.value))
      && (out.CircleCreated? <==> CircleRefusal(old(store.View()), body).None?)
      && (!out.CircleCreated? ==> store.View() == old(store.View()))
    ensures out.CircleCreated? ==>
      var creator := Authenticate(header, verify).user.id;
      && Present(body.name) && !NameInUse(old(store.View()), body.name.value)
      && out.id == newId
      && out.circle == Circle(body.name.value, AvatarPath(files), OrElse(body.description, ""),
                              [creator], 0, creator, now)
      && out.avatarUrl == base + AvatarPath(files)
      && store.View() == WithCircle(old(store.View()), newId, out.circle)
  {
    var auth := Authenticate(header, verify);
    if !auth.Authenticated? {
      return CircleAuthFailed(auth);
    }
    var refusal := CircleRefusal(store.View(), body);
    if refusal.Some? {
      return refusal.value;
    }
    var name := body.name.value;
    var avatar := AvatarPath(files);
    var creator := auth.user.id;
    var made := NewCircle(name, OrElse(body.description, ""), avatar, creator, [creator], now);
    ghost var before := store.View();
    NewCircleKeeps(before, newId, made.value);
    if PostCountsConsistent(before) {
      NewCircleCounted(before, newId, made.value);
    }
    store.InsertCircle(newId, made.value);
    out := CircleCreated(newId, made.value, base + avatar);
  }

  // ---------------------------------------------------------------------
  // Dates: `${year}-${month}-${day} ${hours}:${minutes}:${seconds}`

  /** The local calendar fields of a timestamp; `month0` counts from 0 as
      `getMonth()` does. */
  datatype DateParts = DateParts(year: nat, month0: nat, day: nat, hours: nat, minutes: nat, seconds: nat)

  predicate IsDigit(c: char) { '0' <= c <= '9' }

  function DigitChar(d: nat): (c: char)
    requires d < 10
    ensures IsDigit(c)
  {
    "0123456789"[d]
  }

  function DigitValue(c: char): nat
    requires IsDigit(c)
  {
    (c as int - '0' as int) as nat
  }

  /** `String(n)` for a natural number: its decimal digits, no leading
      zero. */
  function Decimal(n: nat): (s: string)
    ensures |s| >= 1 && forall i | 0 <= i < |s| :: IsDigit(s[i])
    ensures n < 10 <==> |s| == 1
  {
    if n < 10 then [DigitChar(n)] else Decimal(n / 10) + [DigitChar(n % 10)]
  }

  /** Reads a string of decimal digits. */
  function ParseDecimal(s: string): nat
    requires forall i | 0 <= i < |s| :: IsDigit(s[i])
  {
    if s == [] then 0 else ParseDecimal(s[..|s| - 1]) * 10 + DigitValue(s[|s| - 1])
  }

  /** Reading back the decimal form of `n` gives `n`. */
  lemma {:induction false} DecimalRoundTrip(n: nat)
    ensures ParseDecimal(Decimal(n)) == n
  {
    if n >= 10 {
      DecimalRoundTrip(n / 10);
      var s := Decimal(n);
      assert s[..|s| - 1] == Decimal(n / 10);
    }
  }

  /** The number of decimal digits of `n`. */
  lemma {:induction false} DecimalLength(n: nat)
    ensures 10 <= n < 100 ==> |Decimal(n)| == 2
    ensures 1000 <= n < 10000 ==> |Decimal(n)| == 4
  {
    if n >= 10 {
      DecimalLength(n / 10);
    }
  }

  /** `String(n).padStart(2, '0')`. */
  function Pad2(n: nat): (s: string)
    ensures forall i | 0 <= i < |s| :: IsDigit(s[i])
  {
    var d := Decimal(n);
    if |d| < 2 then "0" + d else d
  }

  /** A field below 100 pads to exactly two digits that read back as it. */
  lemma Pad2RoundTrip(n: nat)
    requires n < 100
    ensures |Pad2(n)| == 2 && ParseDecimal(Pad2(n)) == n
  {
    DecimalLength(n);
    DecimalRoundTrip(n);
    if n < 10 {
      var s := Pad2(n);
      assert s[..1] == "0";
      assert s[1] == Decimal(n)[0];
    }
  }

  /** The list's `createdAt`: year, then month + 1, day, hours, minutes and
      seconds, each padded to two digits. */
  function FormatDate(d: DateParts): string {
    Decimal(d.year) + "-" + Pad2(d.month0 + 1) + "-" + Pad2(d.day) + " "
      + Pad2(d.hours) + ":" + Pad2(d.minutes) + ":" + Pad2(d.seconds)
  }

  /** Where the six fields and five separators of the date fall. */
  lemma DateSlots(y: string, mo: string, d: string, h: string, mi: string, s: string)
    requires |y| == 4 && |mo| == 2 && |d| == 2 && |h| == 2 && |mi| == 2 && |s| == 2
    ensures var t := y + "-" + mo + "-" + d + " " + h + ":" + mi + ":" + s;
      && |t| == 19
      && t[4] == '-' && t[7] == '-' && t[10] == ' ' && t[13] == ':' && t[16] == ':'
      && t[..4] == y && t[5..7] == mo && t[8..10] == d
      && t[11..13] == h && t[14..16] == mi && t[17..19] == s
  {
    var t := y + "-" + mo + "-" + d + " " + h + ":" + mi + ":" + s;
    assert forall i | 0 <= i < 4 :: t[i] == y[i];
    assert forall i | 0 <= i < 2 :: t[5 + i] == mo[i] && t[8 + i] == d[i];
    assert forall i | 0 <= i < 2 :: t[11 + i] == h[i] && t[14 + i] == mi[i] && t[17 + i] == s[i];
    assert t[..4] == y;
    assert t[5..7] == mo && t[8..10] == d;
    assert t[11..13] == h && t[14..16] == mi && t[17..19] == s;
  }

  /** For a four-digit year and in-range fields the date is 19 characters
      `YYYY-MM-DD HH:MM:SS`, with each field readable back at its place and
      the month shown one above `getMonth()`. */
  lemma FormatDateLayout(d: DateParts)
    requires 1000 <= d.year < 10000 && d.month0 < 12 && d.day < 100
    requires d.hours < 100 && d.minutes < 100 && d.seconds < 100
    ensures var s := FormatDate(d);
      && |s| == 19
      && s[4] == '-' && s[7] == '-' && s[10] == ' ' && s[13] == ':' && s[16] == ':'
      && s[..4] == Decimal(d.year) && ParseDecimal(s[..4]) == d.year
      && s[5..7] == Pad2(d.month0 + 1) && ParseDecimal(s[5..7]) == d.month0 + 1
      && s[8..10] == Pad2(d.day) && ParseDecimal(s[8..10]) == d.day
      && s[11..13] == Pad2(d.hours) && ParseDecimal(s[11..13]) == d.hours
      && s[14..16] == Pad2(d.minutes) && ParseDecimal(s[14..16]) == d.minutes
      && s[17..19] == Pad2(d.seconds) && ParseDecimal(s[17..19]) == d.seconds
  {
    DecimalLength(d.year);
    DecimalRoundTrip(d.year);
    Pad2RoundTrip(d.month0 + 1);
    Pad2RoundTrip(d.day);
    Pad2RoundTrip(d.hours);
    Pad2RoundTrip(d.minutes);
    Pad2RoundTrip(d.seconds);
    DateSlots(Decimal(d.year), Pad2(d.month0 + 1), Pad2(d.day), Pad2(d.hours), Pad2(d.minutes), Pad2(d.seconds));
  }

  // ---------------------------------------------------------------------
  // Ordering and paging of circles

  datatype CircleOrder =
    | Popular     // postCount descending, then createdAt ascending (the list)
    | MostPosts   // postCount descending (search, `sortType=postCount`)
    | Newest      // createdAt descending (search, `sortType=createdAt`)

  predicate CircleInOrder(o: CircleOrder, a: Circle, b: Circle) {
    match o
    case Popular => a.postCount > b.postCount || (a.postCount == b.postCount && a.createdAt <= b.createdAt)
    case MostPosts => a.postCount >= b.postCount
    case Newest => a.createdAt >= b.createdAt
  }

  function CircleKey(db: Db, o: CircleOrder, id: Id): Key {
    if id !in db.circles then (0, 0)
    else
      var c := db.circles[id];
      match o
      case Popular => (-c.postCount, c.createdAt)
      case MostPosts => (-c.postCount, 0)
      case Newest => (-c.createdAt, 0)
  }

  /** Circles `ids` in order `o`, ties in their given order. */
  function SortedCircles(db: Db, ids: seq<Id>, o: CircleOrder): (r: seq<Id>)
    requires forall i | 0 <= i < |ids| :: ids[i] in db.circles
    ensures multiset(r) == multiset(ids)
    ensures forall i | 0 <= i < |r| :: r[i] in db.circles
    ensures forall i, j | 0 <= i < j < |r| :: CircleInOrder(o, db.circles[r[i]], db.circles[r[j]])
  {
    var sorted := SortBy(ids, id => CircleKey(db, o, id));
    forall i | 0 <= i < |sorted| ensures sorted[i] in db.circles {
      assert sorted[i] in multiset(ids);
    }
    forall i, j | 0 <= i < j < |sorted|
      ensures CircleInOrder(o, db.circles[sorted[i]], db.circles[sorted[j]])
    {
      assert KeyLe(CircleKey(db, o, sorted[i]), CircleKey(db, o, sorted[j]));
    }
    sorted
  }

  /** The paging parameters of both listings. */
  datatype CirclePaging = CirclePaging(page: Option<nat>, limit: Option<nat>)

  function CirclePage(p: CirclePaging): (n: nat)
    ensures n >= 1
  {
    OrDefault(p.page, 1)
  }

  /** `Math.min(parseInt(limit) || 10, 50)`: never more than 50 per page. */
  function CircleLimit(p: CirclePaging): (n: nat)
    ensures 1 <= n <= 50
    ensures n == Min(OrDefault(p.limit, 10), 50)
  {
    Min(OrDefault(p.limit, 10), 50)
  }

  /** The circles of the requested page. */
  function CircleWindow(db: Db, ids: seq<Id>, o: CircleOrder, p: CirclePaging): (w: seq<Id>)
    requires forall i | 0 <= i < |ids| :: ids[i] in db.circles
    ensures var sorted, skip := SortedCircles(db, ids, o), Skip(CirclePage(p), CircleLimit(p));
      && |w| <= CircleLimit(p) <= 50
      && |w| == (if skip < |sorted| then Min(CircleLimit(p), |sorted| - skip) else 0)
      && forall i | 0 <= i < |w| :: skip + i < |sorted| && w[i] == sorted[skip + i]
  {
    Page(SortedCircles(db, ids, o), Skip(CirclePage(p), CircleLimit(p)), CircleLimit(p))
  }

  /** A page holds only circles that were candidates. */
  lemma CircleWindowFrom(db: Db, ids: seq<Id>, o: CircleOrder, p: CirclePaging)
    requires forall i | 0 <= i < |ids| :: ids[i] in db.circles
    ensures var w := CircleWindow(db, ids, o, p);
      forall i | 0 <= i < |w| :: w[i] in ids
  {
    PageDrawnFrom(SortedCircles(db, ids, o), Skip(CirclePage(p), CircleLimit(p)), CircleLimit(p), ids);
  }

  lemma CircleWindowOrdered(db: Db, ids: seq<Id>, o: CircleOrder, p: CirclePaging)
    requires forall i | 0 <= i < |ids| :: ids[i] in db.circles
    ensures var w := CircleWindow(db, ids, o, p);
      forall i, j | 0 <= i < j < |w| ::
        w[i] in db.circles && w[j] in db.circles && CircleInOrder(o, db.circles[w[i]], db.circles[w[j]])
  {
    var sorted, skip := SortedCircles(db, ids, o), Skip(CirclePage(p), CircleLimit(p));
    var w := CircleWindow(db, ids, o, p);
    forall i, j | 0 <= i < j < |w|
      ensures w[i] in db.circles && w[j] in db.circles
      ensures CircleInOrder(o, db.circles[w[i]], db.circles[w[j]])
    {
      assert skip + i < skip + j < |sorted|;
    }
  }

  // ---------------------------------------------------------------------
  // Presentation

  datatype CreatorView = CreatorView(id: Id, username: string, avatar: string)

  /** A listed circle: `members` dropped, `memberCount` added, `createdAt`
      formatted. */
  datatype CircleSummary = CircleSummary(
    id: Id,
    name: string,
    avatar: string,
    description: string,
    postCount: int,
    createdAt: string,
    creator: Option<CreatorView>,
    memberCount: nat)

  /** The creator populated with name and avatar, or null when gone. */
  function Creator(db: Db, c: Circle): (v: Option<CreatorView>)
    ensures v.Some? <==> c.creator in db.users
    ensures v.Some? ==> v.value == CreatorView(c.creator, db.users[c.creator].username, db.users[c.creator].avatar)
  {
    if c.creator in db.users then
      Some(CreatorView(c.creator, db.users[c.creator].username, db.users[c.creator].avatar))
    else None
  }

  function Summarize(db: Db, localTime: int -> DateParts, id: Id): (v: CircleSummary)
    requires id in db.circles
    ensures var c := db.circles[id];
      && v.id == id && v.name == c.name && v.avatar == c.avatar && v.description == c.description
      && v.postCount == c.postCount && v.memberCount == |c.members|
      && v.createdAt == FormatDate(localTime(c.createdAt))
      && v.creator == Creator(db, c)
  {
    var c := db.circles[id];
    CircleSummary(id, c.name, c.avatar, c.description, c.postCount,
                  FormatDate(localTime(c.createdAt)), Creator(db, c), |c.members|)
  }

  function SummarizeAll(db: Db, localTime: int -> DateParts, ids: seq<Id>): (vs: seq<CircleSummary>)
    requires forall i | 0 <= i < |ids| :: ids[i] in db.circles
    ensures |vs| == |ids|
    ensures forall i | 0 <= i < |ids| :: vs[i] == Summarize(db, localTime, ids[i])
  {
    seq(|ids|, i requires 0 <= i < |ids| => Summarize(db, localTime, ids[i]))
  }

  // ---------------------------------------------------------------------
  // GET /

  /** `GET /`: the requested page of all circles, most posts first and,
      among equals, oldest first; at most 50 circles. `natural` is the
      collection's natural order. */
  function ListCircles(db: Db, natural: seq<Id>, p: CirclePaging, localTime: int -> DateParts)
    : (r: seq<CircleSummary>)
    requires Enumerates(natural, db.circles)
    ensures |r| <= 50
    ensures var w := CircleWindow(db, natural, Popular, p);
      |r| == |w| && forall i | 0 <= i < |w| :: r[i] == Summarize(db, localTime, w[i])
  {
    SummarizeAll(db, localTime, CircleWindow(db, natural, Popular, p))
  }

  // ---------------------------------------------------------------------
  // GET /search

  datatype SearchQuery = SearchQuery(keyword: Option<string>, sortType: Option<string>, paging: CirclePaging)

  datatype SearchOutcome =
    | KeywordMissing                        // 400
    | InvalidSortType                       // 400
    | SearchFailed                          // 500: a listed circle's creator is gone
    | Found(circles: seq<CircleSummary>)    // 200
  {
    function Status(): nat {
      match this
      case KeywordMissing | InvalidSortType => 400
      case SearchFailed => 500
      case Found(_) => 200
    }
  }

  /** `sortType = 'postCount'` by default; `postCount` and `createdAt` are
      the only accepted values. */
  function ChooseSearchOrder(sortType: Option<string>): (r: Option<CircleOrder>)
    ensures r == Some(MostPosts) <==> sortType.None? || sortType == Some("postCount")
    ensures r == Some(Newest) <==> sortType == Some("createdAt")
    ensures r.None? <==> sortType.Some? && sortType.value != "postCount" && sortType.value != "createdAt"
  {
    var t := if sortType.Some? then sortType.value else "postCount";
    if t == "postCount" then Some(MostPosts)
    else if t == "createdAt" then Some(Newest)
    else None
  }

  /** `{ $or: [{ name: regex }, { description: regex }] }` for one circle. */
  predicate Hit(c: Circle, keyword: string, matches: (string, string) -> bool) {
    matches(keyword, c.name) || matches(keyword, c.description)
  }

  /** The circles whose name or description matches, in natural order. */
  function Matching(db: Db, ids: seq<Id>, keyword: string, matches: (string, string) -> bool): (r: seq<Id>)
    requires forall i | 0 <= i < |ids| :: ids[i] in db.circles
    ensures forall i | 0 <= i < |r| :: r[i] in ids && r[i] in db.circles && Hit(db.circles[r[i]], keyword, matches)
    ensures forall x | x in ids && Hit(db.circles[x], keyword, matches) :: x in r
  {
    if ids == [] then []
    else
      var rest := Matching(db, ids[1..], keyword, matches);
      assert forall x | x in ids[1..] :: x in ids;
      if Hit(db.circles[ids[0]], keyword, matches) then [ids[0]] + rest else rest
  }

  /** A found circle: both avatars are prefixed with `base` whatever they
      hold; `None` when the creator is gone. */
  function SearchView(db: Db, base: string, localTime: int -> DateParts, id: Id): (v: Option<CircleSummary>)
    requires id in db.circles
    ensures v.Some? <==> db.circles[id].creator in db.users
    ensures v.Some? ==> var s := Summarize(db, localTime, id);
      && v.value == s.(avatar := base + s.avatar,
                       creator := Some(s.creator.value.(avatar := base + s.creator.value.avatar)))
  {
    var s := Summarize(db, localTime, id);
    if s.creator.None? then None
    else Some(s.(avatar := base + s.avatar, creator := Some(s.creator.value.(avatar := base + s.creator.value.avatar))))
  }

  function SearchViews(db: Db, base: string, localTime: int -> DateParts, ids: seq<Id>)
    : (vs: Option<seq<CircleSummary>>)
    requires forall i | 0 <= i < |ids| :: ids[i] in db.circles
    ensures vs.Some? <==> forall i | 0 <= i < |ids| :: SearchView(db, base, localTime, ids[i]).Some?
    ensures vs.Some? ==>
      (|vs.value| == |ids| && forall i | 0 <= i < |ids| :: SearchView(db, base, localTime, ids[i]) == Some(vs.value[i]))
  {
    if forall i | 0 <= i < |ids| :: SearchView(db, base, localTime, ids[i]).Some? then
      Some(seq(|ids|, i requires 0 <= i < |ids| => SearchView(db, base, localTime, ids[i]).value))
    else None
  }

  /** The page of matching circles `GET /search` shows, in order `o`. */
  function SearchWindow(db: Db, natural: seq<Id>, keyword: string, matches: (string, string) -> bool,
                        o: CircleOrder, p: CirclePaging): (w: seq<Id>)
    requires Enumerates(natural, db.circles)
    ensures |w| <= 50
    ensures forall i | 0 <= i < |w| :: w[i] in db.circles && Hit(db.circles[w[i]], keyword, matches)
  {
    var candidates := Matching(db, natural, keyword, matches);
    CircleWindowFrom(db, candidates, o, p);
    CircleWindow(db, candidates, o, p)
  }

  /** `GET /search`: a missing keyword, then an unknown sort type, is
      refused; otherwise the requested page of the matching circles in the
      chosen order. */
  function SearchCircles(db: Db, natural: seq<Id>, q: SearchQuery, matches: (string, string) -> bool,
                         base: string, localTime: int -> DateParts): (r: SearchOutcome)
    requires Enumerates(natural, db.circles)
    ensures r == KeywordMissing <==> !Present(q.keyword)
    ensures r == InvalidSortType <==> Present(q.keyword) && ChooseSearchOrder(q.sortType).None?
    ensures r.Found? ==>
      var w := SearchWindow(db, natural, q.keyword.value, matches, ChooseSearchOrder(q.sortType).value, q.paging);
      && Present(q.keyword) && ChooseSearchOrder(q.sortType).Some?
      && |r.circles| == |w|
      && forall i | 0 <= i < |w| :: SearchView(db, base, localTime, w[i]) == Some(r.circles[i])
    ensures r == SearchFailed <==>
      && Present(q.keyword) && ChooseSearchOrder(q.sortType).Some?
      && var w := SearchWindow(db, natural, q.keyword.value, matches, ChooseSearchOrder(q.sortType).value, q.paging);
         exists i | 0 <= i < |w| :: SearchView(db, base, localTime, w[i]).None?
  {
    if !Present(q.keyword) then KeywordMissing
    else match ChooseSearchOrder(q.sortType)
      case None => InvalidSortType
      case Some(o) =>
        var w := SearchWindow(db, natural, q.keyword.value, matches, o, q.paging);
        match SearchViews(db, base, localTime, w)
        case None =>
          assert exists i | 0 <= i < |w| :: SearchView(db, base, localTime, w[i]).None?;
          SearchFailed
        case Some(views) => Found(views)
  }

  /** Every found circle matches the keyword in its name or description. */
  lemma SearchFindsMatches(db: Db, natural: seq<Id>, q: SearchQuery, matches: (string, string) -> bool,
                           base: string, localTime: int -> DateParts)
    requires Enumerates(natural, db.circles)
    requires SearchCircles(db, natural, q, matches, base, localTime).Found?
    ensures var cs := SearchCircles(db, natural, q, matches, base, localTime).circles;
      forall i | 0 <= i < |cs| :: cs[i].id in db.circles && Hit(db.circles[cs[i].id], q.keyword.value, matches)
  {
    var w := SearchWindow(db, natural, q.keyword.value, matches, ChooseSearchOrder(q.sortType).value, q.paging);
    var cs := SearchCircles(db, natural, q, matches, base, localTime).circles;
    forall i | 0 <= i < |cs| ensures cs[i].id == w[i] {
      assert SearchView(db, base, localTime, w[i]) == Some(cs[i]);
    }
  }

  /** The found circles follow the chosen order. */
  lemma SearchFindsInOrder(db: Db, natural: seq<Id>, q: SearchQuery, matches: (string, string) -> bool,
                           base: string, localTime: int -> DateParts)
    requires Enumerates(natural, db.circles)
    requires SearchCircles(db, natural, q, matches, base, localTime).Found?
    ensures var cs := SearchCircles(db, natural, q, matches, base, localTime).circles;
      forall i, j | 0 <= i < j < |cs| :: cs[i].id in db.circles && cs[j].id in db.circles
        && CircleInOrder(ChooseSearchOrder(q.sortType).value, db.circles[cs[i].id], db.circles[cs[j].id])
  {
    var o := ChooseSearchOrder(q.sortType).value;
    var candidates := Matching(db, natural, q.keyword.value, matches);
    var w := CircleWindow(db, candidates, o, q.paging);
    var cs := SearchCircles(db, natural, q, matches, base, localTime).circles;
    CircleWindowOrdered(db, candidates, o, q.paging);
    forall i | 0 <= i < |cs| ensures cs[i].id == w[i] {
      assert SearchView(db, base, localTime, w[i]) == Some(cs[i]);
    }
  }
}
