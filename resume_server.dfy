/** The résumé handlers of the server (server/controllers/resumeController.js):
    the paging arithmetic of the list endpoint, the image path written on
    create and update, the owner-scoped lookups over the stored documents, the
    public shared lookup, and the sequence of text lines of the PDF export.
    The database is a map from document id to document. */
module ResumeServer {
  import opened Common
  import opened Validators
  import opened ResumeDraft

  // ---------------------------------------------------------------------------
  // parseInt and the query defaults
  // ---------------------------------------------------------------------------

  /** The longest prefix of `s` made of digits in the given base (10 or 16). */
  function LeadingDigits(s: string, hex: bool): (d: string)
    ensures |d| <= |s| && d == s[..|d|]
    ensures forall k :: 0 <= k < |d| ==> (if hex then IsHexDigit(d[k]) else IsDigit(d[k]))
    ensures |d| < |s| ==> !(if hex then IsHexDigit(s[|d|]) else IsDigit(s[|d|]))
    decreases |s|
  {
    if s != [] && (if hex then IsHexDigit(s[0]) else IsDigit(s[0])) then [s[0]] + LeadingDigits(s[1..], hex) else []
  }

  function HexDigitValue(c: char): nat
    requires IsHexDigit(c)
  {
    if IsDigit(c) then DigitValue(c)
    else if 'a' <= c <= 'f' then c as int - 'a' as int + 10
    else c as int - 'A' as int + 10
  }

  /** The value of a digit string in base 10 or 16, most significant first. */
  function BaseValue(d: string, hex: bool): nat
    requires forall k :: 0 <= k < |d| ==> (if hex then IsHexDigit(d[k]) else IsDigit(d[k]))
    decreases |d|
  {
    if d == [] then 0
    else
      var last := d[|d| - 1];
      (if hex then 16 else 10) * BaseValue(d[..|d| - 1], hex) + (if hex then HexDigitValue(last) else DigitValue(last))
  }

  /** `parseInt(s)` with no radix: leading white space, an optional sign, a
      `0x`/`0X` prefix for base 16, then the longest run of digits; no digits
      gives NaN (None). */
  function ParseInt(s: string): (r: Option<int>)
    ensures var t := TrimStart(s);
      r.Some? ==> t != [] && (IsDigit(t[0]) || t[0] == '-' || t[0] == '+')
    ensures var t := TrimStart(s);
      t != [] && IsDigit(t[0]) && !(|t| >= 2 && t[0] == '0' && (t[1] == 'x' || t[1] == 'X')) ==> r.Some? && r.value >= 0
    ensures r.Some? && r.value < 0 ==> TrimStart(s)[0] == '-'
  {
    var t := TrimStart(s);
    var neg := t != [] && t[0] == '-';
    var rest := if t != [] && (t[0] == '-' || t[0] == '+') then t[1..] else t;
    var hex := |rest| >= 2 && rest[0] == '0' && (rest[1] == 'x' || rest[1] == 'X');
    var d := LeadingDigits(if hex then rest[2..] else rest, hex);
    if d == [] then None
    else
      var v: int := BaseValue(d, hex);
      Some(if neg then -v else v)
  }

  /** `parseInt(q) || dflt` for a query value that may be missing: NaN and 0
      are falsy. */
  function QueryNumber(q: Option<string>, dflt: int): (n: int)
    ensures q.None? ==> n == dflt
    ensures q.Some? && ParseInt(q.value).None? ==> n == dflt
    ensures q.Some? && ParseInt(q.value) == Some(0) ==> n == dflt
    ensures q.Some? && ParseInt(q.value).Some? && ParseInt(q.value).value != 0 ==> n == ParseInt(q.value).value
    ensures dflt != 0 ==> n != 0
  {
    if q.None? then dflt
    else
      var p := ParseInt(q.value);
      if p.Some? && p.value != 0 then p.value else dflt
  }

  /** A plain decimal query value is read as its number. */
  lemma {:induction false} DecimalQuery(s: string)
    requires DigitString(s)
    ensures ParseInt(s) == Some(IntValue(s))
  {
    assert TrimStart(s) == s by { assert !IsSpace(s[0]); }
    assert LeadingDigits(s, false) == s by { LeadingDigitsAll(s); }
    BaseValueIsIntValue(s);
  }

  lemma {:induction false} LeadingDigitsAll(s: string)
    requires AllDigits(s)
    ensures LeadingDigits(s, false) == s
    decreases |s|
  {
    if s != [] {
      LeadingDigitsAll(s[1..]);
    }
  }

  lemma {:induction false} BaseValueIsIntValue(s: string)
    requires AllDigits(s)
    ensures BaseValue(s, false) == IntValue(s)
    decreases |s|
  {
    if s != [] {
      BaseValueIsIntValue(s[..|s| - 1]);
    }
  }

  /** A missing, non-numeric or zero `?page=` falls back to the default. */
  lemma QueryDefaults()
    ensures QueryNumber(None, 1) == 1
    ensures QueryNumber(Some("abc"), 1) == 1
    ensures QueryNumber(Some("0"), 10) == 10
  {
    assert TrimStart("abc") == "abc";
    assert LeadingDigits("abc", false) == [];
    DecimalQuery("0");
  }

  /** Leading white space is skipped and trailing garbage ignored. */
  lemma QueryPrefix()
    ensures QueryNumber(Some(" 3px"), 1) == 3
  {
    assert TrimStart(" 3px") == "3px" by {
      assert " 3px"[1..] == "3px";
      assert TrimStart("3px") == "3px";
    }
    assert LeadingDigits("3px", false) == "3" by {
      assert "3px"[1..] == "px";
      assert LeadingDigits("px", false) == [];
    }
    assert BaseValue("3", false) == 3 by {
      assert "3"[..0] == [];
    }
  }

  /** A `0x` prefix switches to base 16. */
  lemma QueryHex()
    ensures QueryNumber(Some("0x10"), 1) == 16
  {
    assert TrimStart("0x10") == "0x10";
    assert "0x10"[2..] == "10";
    assert LeadingDigits("10", true) == "10" by {
      assert "10"[1..] == "0";
      assert LeadingDigits("0", true) == "0" by {
        assert "0"[1..] == [];
        assert LeadingDigits([], true) == [];
      }
    }
    assert BaseValue("10", true) == 16 by {
      assert "10"[..1] == "1";
      assert "1"[..0] == [];
      assert BaseValue("1", true) == 1;
    }
  }

  /** A sign is honoured: a negative page number is kept. */
  lemma QuerySign()
    ensures QueryNumber(Some("-2"), 1) == -2
  {
    assert TrimStart("-2") == "-2";
    assert "-2"[1..] == "2";
    DecimalQuery("2");
    assert LeadingDigits("2", false) == "2" by {
      assert "2"[1..] == [];
      assert LeadingDigits([], false) == [];
    }
    assert BaseValue("2", false) == 2 by {
      assert "2"[..0] == [];
    }
  }

  // ---------------------------------------------------------------------------
  // Paging
  // ---------------------------------------------------------------------------

  /** `Math.ceil(a / b)` for a non-negative count `a`. */
  function CeilDiv(a: nat, b: int): (r: int)
    requires b != 0
    ensures b > 0 ==> (r - 1) * b < a <= r * b
    ensures b < 0 ==> r * b <= a < (r - 1) * b
  {
    var n: int := a;
    if b > 0 then -((-n) / b) else -(n / (-b))
  }

  /** The paging fields of the list response. */
  datatype PageInfo = PageInfo(page: int, limit: int, skip: int, totalDocs: nat, totalPages: int, hasMore: bool)

  /** The list endpoint's arithmetic for the requester's `totalDocs` documents. */
  function Paginate(pageQ: Option<string>, limitQ: Option<string>, totalDocs: nat): (p: PageInfo)
    ensures p.page != 0 && p.limit != 0 && p.totalDocs == totalDocs
    ensures pageQ.None? ==> p.page == 1
    ensures limitQ.None? ==> p.limit == 10
  {
    var page := QueryNumber(pageQ, 1);
    var limit := QueryNumber(limitQ, 10);
    PageInfo(page, limit, (page - 1) * limit, totalDocs, CeilDiv(totalDocs, limit), page * limit < totalDocs)
  }

  lemma MulMono(a: int, b: int, l: int)
    requires a <= b && l > 0
    ensures a * l <= b * l
  {
    assert b * l - a * l == (b - a) * l;
  }

  /** For a positive limit, there are more documents exactly when this is not
      the last page, and consecutive pages follow each other without a gap. */
  lemma HasMoreIffNotLastPage(pageQ: Option<string>, limitQ: Option<string>, totalDocs: nat)
    requires Paginate(pageQ, limitQ, totalDocs).limit > 0
    ensures var p := Paginate(pageQ, limitQ, totalDocs);
      && (p.hasMore <==> p.page < p.totalPages)
      && (p.page == 1 ==> p.skip == 0)
      && p.skip + p.limit == p.page * p.limit
  {
    var p := Paginate(pageQ, limitQ, totalDocs);
    var l, t, n := p.limit, p.totalPages, p.page;
    assert (t - 1) * l < totalDocs <= t * l;
    assert p.hasMore == (n * l < totalDocs);
    if n < t {
      MulMono(n, t - 1, l);
    } else {
      MulMono(t, n, l);
    }
    assert p.skip == (n - 1) * l;
    assert (n - 1) * l + l == n * l;
  }

  /** Five documents two to a page: page 2 has more, page 3 does not. */
  lemma PagingExample()
    ensures Paginate(Some("2"), Some("2"), 5) == PageInfo(2, 2, 2, 5, 3, true)
    ensures Paginate(Some("3"), Some("2"), 5) == PageInfo(3, 2, 4, 5, 3, false)
  {
    DecimalQuery("2");
    DecimalQuery("3");
    assert IntValue("2") == 2 && IntValue("3") == 3;
  }

  // ---------------------------------------------------------------------------
  // Stored documents and the image path
  // ---------------------------------------------------------------------------

  /** The résumé fields of a request body or a stored document. */
  datatype Content = Content(draft: Draft, layoutOptions: Item, layoutChoice: Field)

  /** A stored document. */
  datatype Resume = Resume(content: Content, userId: string, shareToken: Option<string>, isShared: bool, sharedAt: Option<int>)

  /** Where multer stores an uploaded image. */
  function UploadPath(filename: string): (p: string)
    ensures StartsWith(p, "/uploads")
  {
    "/uploads/resumes/" + filename
  }

  /** `personal.image` of the body replaced by `image`, the other personal fields kept. */
  function WithImage(c: Content, image: Field): (r: Content)
    ensures Get(r.draft.personal, "image") == image
    ensures forall f :: f != "image" ==> Get(r.draft.personal, f) == Get(c.draft.personal, f)
    ensures r.draft == c.draft.(personal := r.draft.personal) && r.layoutOptions == c.layoutOptions && r.layoutChoice == c.layoutChoice
  {
    c.(draft := c.draft.(personal := c.draft.personal["image" := image]))
  }

  /** A body path that is present replaces the stored value. */
  function Override<T>(sent: Option<T>, stored: T): T {
    if sent.Some? then sent.value else stored
  }

  /** The résumé paths of a request body, as the body parser builds them from
      the multipart fields; None where the body has no field under the path. */
  datatype Sent = Sent(personal: Option<Item>, education: Option<seq<Item>>, experience: Option<seq<Item>>,
                       projects: Option<seq<Item>>, skills: Option<seq<Item>>, socials: Option<seq<Item>>,
                       layoutOptions: Option<Item>, layoutChoice: Option<Field>)
  {
    /** The records sent for an array section. */
    function Records(sec: Section): Option<seq<Item>>
      requires sec.IsArray()
    {
      match sec
      case Education => education
      case Experience => experience
      case Projects => projects
      case Skills => skills
      case Socials => socials
    }
  }

  /** The schema paths beside the résumé fields that a client may put in a
      request body (`userId`, `shareToken`, `isShared`, `sharedAt`), as
      Mongoose casts them; None where the body does not carry the path. */
  datatype Extras = Extras(userId: Option<string>, shareToken: Option<string>, isShared: Option<bool>, sharedAt: Option<int>)

  /** A create or update request body: the résumé paths and the extra paths. */
  datatype RequestBody = RequestBody(sent: Sent, extras: Extras)

  /** A section's records as the form sends them: a section without records
      puts no field in the body. */
  function SentRecords(items: seq<Item>): (o: Option<seq<Item>>)
    ensures o.None? <==> items == []
    ensures Override(o, []) == items
  {
    if items == [] then None else Some(items)
  }

  /** The résumé paths the form sends for content `c`: always the personal
      record, the layout options and the layout choice; a section only when
      it has records. */
  function FormSent(c: Content): (s: Sent)
    ensures forall sec: Section :: sec.IsArray() ==> s.Records(sec) == SentRecords(c.draft.Items(sec))
  {
    var d := c.draft;
    Sent(Some(d.personal), SentRecords(d.education), SentRecords(d.experience), SentRecords(d.projects),
         SentRecords(d.skills), SentRecords(d.socials), Some(c.layoutOptions), Some(c.layoutChoice))
  }

  /** The body the résumé form sends, which has no extra paths. */
  function FormBody(c: Content): RequestBody {
    RequestBody(FormSent(c), Extras(None, None, None, None))
  }

  /** The image `createResume` writes: the upload's path, or null. */
  function CreatedImage(file: Option<string>): Field {
    if file.Some? then Str(UploadPath(file.value)) else Absent
  }

  /** The document `createResume` saves: `...body` first, then the image (the
      uploaded file's path or null, whatever the body said), then the owner
      (the requester, whatever the body said). A path the body lacks takes
      the schema's default: no records, no layout options, no layout choice,
      not shared. */
  function Created(body: RequestBody, file: Option<string>, user: string): (r: Resume)
    ensures Get(r.content.draft.personal, "image") == CreatedImage(file)
    ensures forall f :: f != "image" ==> Get(r.content.draft.personal, f) == Get(Override(body.sent.personal, map[]), f)
    ensures forall sec: Section :: sec.IsArray() && body.sent.Records(sec).None? ==> r.content.draft.Items(sec) == []
    ensures forall sec: Section :: sec.IsArray() && body.sent.Records(sec).Some? ==> r.content.draft.Items(sec) == body.sent.Records(sec).value
    ensures body.sent.layoutOptions.None? ==> r.content.layoutOptions == map[]
    ensures body.sent.layoutOptions.Some? ==> r.content.layoutOptions == body.sent.layoutOptions.value
    ensures body.sent.layoutChoice.None? ==> r.content.layoutChoice == Absent
    ensures body.sent.layoutChoice.Some? ==> r.content.layoutChoice == body.sent.layoutChoice.value
    ensures r.userId == user
    ensures r.shareToken == body.extras.shareToken && r.sharedAt == body.extras.sharedAt
    ensures r.isShared <==> body.extras.isShared == Some(true)
  {
    var s, e := body.sent, body.extras;
    var draft := Draft(Override(s.personal, map[])["image" := CreatedImage(file)],
                       Override(s.education, []), Override(s.experience, []), Override(s.projects, []),
                       Override(s.skills, []), Override(s.socials, []));
    Resume(Content(draft, Override(s.layoutOptions, map[]), Override(s.layoutChoice, Absent)), user,
           e.shareToken, e.isShared == Some(true), e.sharedAt)
  }

  /** What the form sends is what is created, the image rule aside. */
  lemma FormCreateContent(c: Content, file: Option<string>, user: string)
    ensures Created(FormBody(c), file, user).content == WithImage(c, CreatedImage(file))
  {
    var d := c.draft;
    assert Override(SentRecords(d.education), []) == d.education;
    assert Override(SentRecords(d.experience), []) == d.experience;
    assert Override(SentRecords(d.projects), []) == d.projects;
    assert Override(SentRecords(d.skills), []) == d.skills;
    assert Override(SentRecords(d.socials), []) == d.socials;
  }

  /** A body from the résumé form creates a private document of the requester. */
  lemma FormCreatesPrivate(c: Content, file: Option<string>, user: string, token: string)
    ensures var r := Created(FormBody(c), file, user); r.userId == user && !SharedUnder(r, token)
  {
  }

  /** Nothing stops a body from publishing on create: the share paths it sends
      open the public link without any payment. */
  lemma CreateCanPublish(s: Sent, file: Option<string>, user: string, token: string)
    ensures SharedUnder(Created(RequestBody(s, Extras(None, Some(token), Some(true), None)), file, user), token)
  {
  }

  /** The `updateData` of `updateResume`: with a new file, `personal` becomes
      the sent personal record (or an empty one) with the upload's path as
      image; otherwise the body is used as sent. */
  function UpdateData(s: Sent, file: Option<string>): (r: Sent)
    ensures file.None? ==> r == s
    ensures file.Some? ==> r.personal.Some? && Get(r.personal.value, "image") == Str(UploadPath(file.value))
    ensures file.Some? ==> forall f :: f != "image" ==> Get(r.personal.value, f) == Get(Override(s.personal, map[]), f)
    ensures r == s.(personal := r.personal)
  {
    if file.Some? then s.(personal := Some(Override(s.personal, map[])["image" := Str(UploadPath(file.value))])) else s
  }

  /** The content `findOneAndUpdate` leaves: each résumé path the update
      carries overwrites the stored one, and every path it lacks keeps its
      stored value. */
  function UpdatedContent(c: Content, s: Sent): (n: Content)
    ensures forall sec: Section :: sec.IsArray() && s.Records(sec).None? ==> n.draft.Items(sec) == c.draft.Items(sec)
    ensures forall sec: Section :: sec.IsArray() && s.Records(sec).Some? ==> n.draft.Items(sec) == s.Records(sec).value
    ensures s.personal.None? ==> n.draft.personal == c.draft.personal
    ensures s.personal.Some? ==> n.draft.personal == s.personal.value
    ensures s.layoutOptions.None? ==> n.layoutOptions == c.layoutOptions
    ensures s.layoutOptions.Some? ==> n.layoutOptions == s.layoutOptions.value
    ensures s.layoutChoice.None? ==> n.layoutChoice == c.layoutChoice
    ensures s.layoutChoice.Some? ==> n.layoutChoice == s.layoutChoice.value
  {
    var d := c.draft;
    var draft := Draft(Override(s.personal, d.personal), Override(s.education, d.education),
                       Override(s.experience, d.experience), Override(s.projects, d.projects),
                       Override(s.skills, d.skills), Override(s.socials, d.socials));
    Content(draft, Override(s.layoutOptions, c.layoutOptions), Override(s.layoutChoice, c.layoutChoice))
  }

  /** `findOneAndUpdate(filter, updateData)` on a stored document: the
      content as `UpdatedContent` leaves it, and each extra path the body
      carries overwrites the stored one, the owner included. */
  function Updated(r: Resume, body: RequestBody, file: Option<string>): (u: Resume)
    ensures u.content == UpdatedContent(r.content, UpdateData(body.sent, file))
    ensures body.extras.userId.None? ==> u.userId == r.userId
    ensures body.extras.userId.Some? ==> u.userId == body.extras.userId.value
    ensures body.extras.shareToken.None? ==> u.shareToken == r.shareToken
    ensures body.extras.shareToken.Some? ==> u.shareToken == body.extras.shareToken
    ensures body.extras.isShared.None? ==> u.isShared == r.isShared
    ensures body.extras.isShared.Some? ==> u.isShared == body.extras.isShared.value
    ensures body.extras.sharedAt.None? ==> u.sharedAt == r.sharedAt
    ensures body.extras.sharedAt.Some? ==> u.sharedAt == body.extras.sharedAt
  {
    var e := body.extras;
    Resume(UpdatedContent(r.content, UpdateData(body.sent, file)),
           Override(e.userId, r.userId),
           if e.shareToken.Some? then e.shareToken else r.shareToken,
           Override(e.isShared, r.isShared),
           if e.sharedAt.Some? then e.sharedAt else r.sharedAt)
  }

  /** A body from the résumé form keeps the owner and the share state. */
  lemma FormUpdateKeepsOwnerAndShare(r: Resume, c: Content, file: Option<string>)
    ensures var u := Updated(r, FormBody(c), file);
      u.userId == r.userId && u.shareToken == r.shareToken && u.isShared == r.isShared && u.sharedAt == r.sharedAt
  {
  }

  /** When the form holds records in every section, its update replaces the
      whole content, the image rule aside. */
  lemma FormUpdateReplaces(r: Resume, c: Content, file: Option<string>)
    requires forall sec: Section :: sec.IsArray() ==> c.draft.Items(sec) != []
    ensures file.None? ==> Updated(r, FormBody(c), file) == r.(content := c)
    ensures file.Some? ==> Updated(r, FormBody(c), file) == r.(content := WithImage(c, Str(UploadPath(file.value))))
  {
    assert c.draft.Items(Education) != [] && c.draft.Items(Experience) != [] && c.draft.Items(Projects) != [];
    assert c.draft.Items(Skills) != [] && c.draft.Items(Socials) != [];
  }

  /** A section the form sends no records for keeps its stored records. */
  lemma FormUpdateKeepsEmptySection(r: Resume, c: Content, file: Option<string>, sec: Section)
    requires sec.IsArray() && c.draft.Items(sec) == []
    ensures Updated(r, FormBody(c), file).content.draft.Items(sec) == r.content.draft.Items(sec)
  {
  }

  /** A new file with no personal record in the body replaces the stored
      personal record by one holding only the image. */
  lemma ImageOnlyUpdateDropsPersonal(r: Resume, s: Sent, e: Extras, filename: string, f: string)
    requires s.personal.None? && f != "image"
    ensures var p := Updated(r, RequestBody(s, e), Some(filename)).content.draft.personal;
      Get(p, "image") == Str(UploadPath(filename)) && Get(p, f) == Absent
  {
  }

  /** A body naming another owner hands the document over: the requester no
      longer owns it and the named user does. */
  lemma UpdateCanHandOver(records: map<string, Resume>, id: string, s: Sent, file: Option<string>, other: string)
    requires id in records && other != records[id].userId
    ensures var m := records[id := Updated(records[id], RequestBody(s, Extras(Some(other), None, None, None)), file)];
      !Owned(m, id, records[id].userId) && Owned(m, id, other)
  {
  }

  /** A document the requester owns. */
  predicate Owned(records: map<string, Resume>, id: string, user: string) {
    id in records && records[id].userId == user
  }

  /** A document the public share link `token` opens. */
  predicate SharedUnder(r: Resume, token: string) {
    r.shareToken == Some(token) && r.isShared
  }

  // ---------------------------------------------------------------------------
  // The PDF text
  // ---------------------------------------------------------------------------

  /** One `doc.text` call with the colour and size then in force. */
  datatype PdfLine = PdfLine(text: string, size: real, color: string, underline: bool)

  /** `layoutOptions.fontSize` as the stored Number. The number input sends
      an optionally negative decimal, which Mongoose casts to its value; an
      empty or missing size is stored as null (None). */
  function StoredFontSize(layout: Item): (v: Option<real>)
    ensures v.None? <==> !Get(layout, "fontSize").Str? || !IsSignedDecimal(Get(layout, "fontSize").s)
  {
    var f := Get(layout, "fontSize");
    if !f.Str? then None
    else if IsDecimal(f.s) then Some(DecimalValue(f.s))
    else if IsNegativeDecimal(f.s) then Some(-DecimalValue(f.s[1..]))
    else None
  }

  predicate IsNegativeDecimal(s: string) {
    |s| > 1 && s[0] == '-' && IsDecimal(s[1..])
  }

  /** What a number input may hold: `-?\d+(\.\d+)?`. */
  predicate IsSignedDecimal(s: string) {
    IsDecimal(s) || IsNegativeDecimal(s)
  }

  /** `layoutOptions?.fontSize || 12`: a stored size other than 0 (or -0) is
      used as it is, negative and fractional ones included; no size or 0
      gives 12. */
  function MainSize(layout: Item): (n: real)
    ensures StoredFontSize(layout).None? ==> n == 12.0
    ensures StoredFontSize(layout) == Some(0.0) ==> n == 12.0
    ensures StoredFontSize(layout).Some? && StoredFontSize(layout).value != 0.0 ==> n == StoredFontSize(layout).value
    ensures n != 0.0
  {
    var s := StoredFontSize(layout);
    if s.Some? && s.value != 0.0 then s.value else 12.0
  }

  /** A fractional size from the number input is used as it is. */
  lemma FractionalSize()
    ensures MainSize(map["fontSize" := Str("12.5")]) == 12.5
  {
    var t := "12.5";
    assert t[2] == '.' && t[..2] == "12" && t[3..] == "5";
    assert IsDecimal(t);
    FirstDot(t, 2);
    assert IntValue("12") == 10 * IntValue("1") + 2;
    assert FracValue("5") == (5.0 + FracValue([])) / 10.0;
  }

  /** So is a negative one, which is truthy. */
  lemma NegativeSize()
    ensures MainSize(map["fontSize" := Str("-5")]) == -5.0
  {
    var t := "-5";
    assert !IsDecimal(t) by {
      assert !IsDigit(t[0]);
      forall p | 0 < p < |t| ensures t[p] != '.' { assert p == 1; }
    }
    assert t[1..] == "5" && IsDecimal("5");
    assert DotIndex("5") == 1 by { assert "5"[1..] == []; }
    assert "5"[..1] == "5";
  }

  /** A zero, a negative zero, an empty input and no size all give 12. */
  lemma ZeroSizes()
    ensures MainSize(map["fontSize" := Str("0")]) == 12.0
    ensures MainSize(map["fontSize" := Str("-0")]) == 12.0
    ensures MainSize(map["fontSize" := Str("")]) == 12.0
    ensures MainSize(map[]) == 12.0
  {
    assert IsDecimal("0");
    assert DotIndex("0") == 1 by { assert "0"[1..] == []; }
    assert "0"[..1] == "0";
    var t := "-0";
    assert !IsDecimal(t) by {
      assert !IsDigit(t[0]);
      forall p | 0 < p < |t| ensures t[p] != '.' { assert p == 1; }
    }
    assert t[1..] == "0";
    assert !IsDecimal("") && !IsNegativeDecimal("");
  }

  /** The builder's default layout prints at 12 points. */
  lemma DefaultLayoutSize()
    ensures MainSize(DefaultLayout()) == 12.0
  {
    var t := "12";
    assert IsDecimal(t);
    assert DotIndex(t) == 2 by { assert t[1..] == "2" && t[1..][1..] == []; }
    assert t[..2] == t;
    assert IntValue("12") == 10 * IntValue("1") + 2;
  }

  /** `layoutOptions?.color || "#000000"` */
  function MainColor(layout: Item): string {
    OrElse(Get(layout, "color"), "#000000")
  }

  /** `Array.prototype.join` turns a missing name into the empty string. */
  function JoinText(f: Field): string {
    if f.Str? then f.s else ""
  }

  /** `skills.map(s => s.name).join(", ")` */
  function JoinNames(items: seq<Item>): string
    decreases |items|
  {
    if items == [] then ""
    else if |items| == 1 then JoinText(Get(items[0], "name"))
    else JoinNames(items[..|items| - 1]) + ", " + JoinText(Get(items[|items| - 1], "name"))
  }

  /** The heading of a section block. */
  function Title(sec: Section): string {
    match sec
    case Personal => "Personal:"
    case Education => "Education:"
    case Experience => "Experience:"
    case Projects => "Projects:"
    case Skills => "Skills:"
    case Socials => "Socials:"
  }

  /** A body line: black, at the main size, not underlined. */
  function Body(text: string, size: real): PdfLine {
    PdfLine(text, size, "#000", false)
  }

  /** The bullet line of a truthy description. */
  function Bullet(it: Item, size: real): seq<PdfLine> {
    if Truthy(Get(it, "description")) then [Body("  • " + Get(it, "description").s, size)] else []
  }

  /** The lines of one entry of a listed section. */
  function EntryLines(sec: Section, it: Item, size: real): seq<PdfLine> {
    match sec
    case Education => [Body(Interp(Get(it, "degree")) + ", " + Interp(Get(it, "institution")) + " (" + Interp(Get(it, "percentage")) + ")", size)]
    case Experience =>
      [Body(Interp(Get(it, "position")) + " at " + Interp(Get(it, "organization")) + " (" + Interp(Get(it, "joiningDate")) + " - " + Interp(Get(it, "leavingDate")) + ")", size)]
      + Bullet(it, size)
    case Projects =>
      [Body(Interp(Get(it, "title")) + " (" + Interp(Get(it, "duration")) + ", Team: " + Interp(Get(it, "teamSize")) + ")", size)]
      + Bullet(it, size)
    case Socials => [Body(Interp(Get(it, "platform")) + ": " + Interp(Get(it, "link")), size)]
    case Personal => []
    case Skills => []
  }

  /** `items.forEach(...)` of one section, entry by entry. */
  function EntriesLines(sec: Section, items: seq<Item>, size: real): seq<PdfLine>
    decreases |items|
  {
    if items == [] then []
    else EntriesLines(sec, items[..|items| - 1], size) + EntryLines(sec, items[|items| - 1], size)
  }

  /** A section block, only for a non-empty section: the heading in the main
      colour at two points above the main size, then its entries (for skills,
      one line of names). */
  function Block(sec: Section, items: seq<Item>, size: real, color: string): seq<PdfLine> {
    if |items| == 0 then []
    else
      [PdfLine(Title(sec), size + 2.0, color, true)]
      + (if sec == Skills then [Body(JoinNames(items), size)] else EntriesLines(sec, items, size))
  }

  /** The name header in the main colour at 20 points, underlined. */
  function NameLine(p: Item, color: string): PdfLine {
    PdfLine(OrElse(Get(p, "name"), "Name"), 20.0, color, true)
  }

  /** The two contact lines and the introduction when given. */
  function ContactLines(p: Item, size: real): seq<PdfLine> {
    [Body(OrElse(Get(p, "email"), "") + " · " + OrElse(Get(p, "phone"), ""), size),
     Body(OrElse(Get(p, "city"), "") + ", " + OrElse(Get(p, "state"), ""), size)]
    + (if Truthy(Get(p, "introduction")) then [Body(Get(p, "introduction").s, size)] else [])
  }

  /** The five section blocks, in the order the export writes them. */
  function SectionBlocks(d: Draft, size: real, color: string): seq<PdfLine> {
    Block(Education, d.education, size, color)
    + Block(Experience, d.experience, size, color)
    + Block(Projects, d.projects, size, color)
    + Block(Skills, d.skills, size, color)
    + Block(Socials, d.socials, size, color)
  }

  /** The text lines of `downloadResumePDF`, in order. */
  function PdfLines(c: Content): (lines: seq<PdfLine>)
    ensures |lines| >= 3
    ensures lines[0].underline && lines[0].size == 20.0 && lines[0].color == MainColor(c.layoutOptions)
    ensures !lines[1].underline && !lines[2].underline
  {
    var size, color := MainSize(c.layoutOptions), MainColor(c.layoutOptions);
    [NameLine(c.draft.personal, color)] + ContactLines(c.draft.personal, size) + SectionBlocks(c.draft, size, color)
  }

  /** `${resume.personal?.name || 'resume'}.pdf` */
  function PdfFileName(c: Content): (n: string)
    ensures |n| >= 4 && n[|n| - 4..] == ".pdf"
    ensures Truthy(Get(c.draft.personal, "name")) ==> n[..|n| - 4] == Get(c.draft.personal, "name").s
    ensures !Truthy(Get(c.draft.personal, "name")) ==> n == "resume.pdf"
  {
    OrElse(Get(c.draft.personal, "name"), "resume") + ".pdf"
  }

  /** The underlined lines' texts, in order. */
  function Headings(lines: seq<PdfLine>): seq<string>
    decreases |lines|
  {
    if lines == [] then []
    else (if lines[0].underline then [lines[0].text] else []) + Headings(lines[1..])
  }

  /** A section's title when the section has entries. */
  function TitleIf(sec: Section, items: seq<Item>): seq<string> {
    if |items| > 0 then [Title(sec)] else []
  }

  /** The titles of the non-empty sections, in the export's order. */
  function PresentTitles(d: Draft): seq<string> {
    TitleIf(Education, d.education) + TitleIf(Experience, d.experience)
    + TitleIf(Projects, d.projects) + TitleIf(Skills, d.skills) + TitleIf(Socials, d.socials)
  }

  lemma {:induction false} HeadingsConcat(a: seq<PdfLine>, b: seq<PdfLine>)
    ensures Headings(a + b) == Headings(a) + Headings(b)
    decreases |a|
  {
    if a == [] {
      assert a + b == b;
    } else {
      assert (a + b)[1..] == a[1..] + b;
      HeadingsConcat(a[1..], b);
    }
  }

  /** A black line at the main size, or a heading in the main colour two
      points above it. */
  predicate StyledBlock(lines: seq<PdfLine>, size: real, color: string) {
    forall k :: 0 <= k < |lines| ==>
      if lines[k].underline then lines[k].size == size + 2.0 && lines[k].color == color
      else lines[k] == Body(lines[k].text, size)
  }

  lemma StyledConcat(a: seq<PdfLine>, b: seq<PdfLine>, size: real, color: string)
    requires StyledBlock(a, size, color) && StyledBlock(b, size, color)
    ensures StyledBlock(a + b, size, color)
  {
    forall k | 0 <= k < |a + b|
      ensures var l := (a + b)[k]; if l.underline then l.size == size + 2.0 && l.color == color else l == Body(l.text, size)
    {
      if k < |a| { assert (a + b)[k] == a[k]; } else { assert (a + b)[k] == b[k - |a|]; }
    }
  }

  /** Black lines at the main size only. */
  predicate PlainLines(lines: seq<PdfLine>, size: real) {
    forall k :: 0 <= k < |lines| ==> lines[k] == Body(lines[k].text, size)
  }

  lemma {:induction false} PlainHeadings(lines: seq<PdfLine>, size: real)
    requires PlainLines(lines, size)
    ensures Headings(lines) == []
    decreases |lines|
  {
    if lines != [] {
      assert lines[0] == Body(lines[0].text, size);
      PlainHeadings(lines[1..], size);
    }
  }

  lemma PlainConcat(a: seq<PdfLine>, b: seq<PdfLine>, size: real)
    requires PlainLines(a, size) && PlainLines(b, size)
    ensures PlainLines(a + b, size)
  {
    forall k | 0 <= k < |a + b|
      ensures (a + b)[k] == Body((a + b)[k].text, size)
    {
      if k < |a| { assert (a + b)[k] == a[k]; } else { assert (a + b)[k] == b[k - |a|]; }
    }
  }

  lemma PlainStyled(lines: seq<PdfLine>, size: real, color: string)
    requires PlainLines(lines, size)
    ensures StyledBlock(lines, size, color)
  {
  }

  lemma EntryPlain(sec: Section, it: Item, size: real)
    ensures PlainLines(EntryLines(sec, it, size), size)
  {
    var b := Bullet(it, size);
    assert PlainLines(b, size);
    match sec {
      case Experience =>
        var first := Body(Interp(Get(it, "position")) + " at " + Interp(Get(it, "organization")) + " (" + Interp(Get(it, "joiningDate")) + " - " + Interp(Get(it, "leavingDate")) + ")", size);
        PlainConcat([first], b, size);
      case Projects =>
        var first := Body(Interp(Get(it, "title")) + " (" + Interp(Get(it, "duration")) + ", Team: " + Interp(Get(it, "teamSize")) + ")", size);
        PlainConcat([first], b, size);
      case _ =>
    }
  }

  /** Entry lines are plain body lines. */
  lemma {:induction false} EntriesPlain(sec: Section, items: seq<Item>, size: real)
    ensures PlainLines(EntriesLines(sec, items, size), size)
    decreases |items|
  {
    if items != [] {
      EntriesPlain(sec, items[..|items| - 1], size);
      EntryPlain(sec, items[|items| - 1], size);
      PlainConcat(EntriesLines(sec, items[..|items| - 1], size), EntryLines(sec, items[|items| - 1], size), size);
    }
  }

  /** The rest of a block after its heading. */
  function BlockBody(sec: Section, items: seq<Item>, size: real): seq<PdfLine> {
    if sec == Skills then [Body(JoinNames(items), size)] else EntriesLines(sec, items, size)
  }

  lemma BlockShape(sec: Section, items: seq<Item>, size: real, color: string)
    ensures |items| > 0 ==> Block(sec, items, size, color) == [PdfLine(Title(sec), size + 2.0, color, true)] + BlockBody(sec, items, size)
    ensures |items| == 0 ==> Block(sec, items, size, color) == []
    ensures PlainLines(BlockBody(sec, items, size), size)
  {
    if sec != Skills {
      EntriesPlain(sec, items, size);
    }
  }

  lemma BlockHeadings(sec: Section, items: seq<Item>, size: real, color: string)
    ensures Headings(Block(sec, items, size, color)) == TitleIf(sec, items)
  {
    BlockShape(sec, items, size, color);
    var rest := BlockBody(sec, items, size);
    PlainHeadings(rest, size);
    if |items| > 0 {
      var h := [PdfLine(Title(sec), size + 2.0, color, true)];
      assert (h + rest)[0] == h[0] && (h + rest)[1..] == rest;
    }
  }

  lemma BlockStyled(sec: Section, items: seq<Item>, size: real, color: string)
    ensures StyledBlock(Block(sec, items, size, color), size, color)
  {
    BlockShape(sec, items, size, color);
    var rest := BlockBody(sec, items, size);
    PlainStyled(rest, size, color);
    if |items| > 0 {
      StyledConcat([PdfLine(Title(sec), size + 2.0, color, true)], rest, size, color);
    }
  }

  lemma ContactPlain(p: Item, size: real)
    ensures PlainLines(ContactLines(p, size), size)
  {
  }

  lemma FiveHeadings(b1: seq<PdfLine>, b2: seq<PdfLine>, b3: seq<PdfLine>, b4: seq<PdfLine>, b5: seq<PdfLine>)
    ensures Headings(b1 + b2 + b3 + b4 + b5) == Headings(b1) + Headings(b2) + Headings(b3) + Headings(b4) + Headings(b5)
  {
    HeadingsConcat(b1, b2);
    HeadingsConcat(b1 + b2, b3);
    HeadingsConcat(b1 + b2 + b3, b4);
    HeadingsConcat(b1 + b2 + b3 + b4, b5);
  }

  lemma FiveStyled(b1: seq<PdfLine>, b2: seq<PdfLine>, b3: seq<PdfLine>, b4: seq<PdfLine>, b5: seq<PdfLine>, size: real, color: string)
    requires StyledBlock(b1, size, color) && StyledBlock(b2, size, color) && StyledBlock(b3, size, color)
    requires StyledBlock(b4, size, color) && StyledBlock(b5, size, color)
    ensures StyledBlock(b1 + b2 + b3 + b4 + b5, size, color)
  {
    StyledConcat(b1, b2, size, color);
    StyledConcat(b1 + b2, b3, size, color);
    StyledConcat(b1 + b2 + b3, b4, size, color);
    StyledConcat(b1 + b2 + b3 + b4, b5, size, color);
  }

  /** The headings of a header line, plain lines and the section blocks. */
  lemma AssembledHeadings(first: PdfLine, contact: seq<PdfLine>, size: real, sections: seq<PdfLine>)
    requires first.underline && PlainLines(contact, size)
    ensures Headings([first] + contact + sections) == [first.text] + Headings(sections)
  {
    PlainHeadings(contact, size);
    HeadingsConcat(contact, sections);
    UnderlinedFirst(first, contact + sections);
    assert [first] + contact + sections == [first] + (contact + sections);
  }

  lemma UnderlinedFirst(first: PdfLine, rest: seq<PdfLine>)
    requires first.underline
    ensures Headings([first] + rest) == [first.text] + Headings(rest)
  {
    assert ([first] + rest)[1..] == rest;
  }

  /** The PDF opens with the name header, then lists exactly the non-empty
      sections, in the fixed order education, experience, projects, skills,
      socials. */
  lemma PdfHeadingOrder(c: Content)
    ensures PdfLines(c)[0].text == OrElse(Get(c.draft.personal, "name"), "Name") && PdfLines(c)[0].size == 20.0
    ensures Headings(PdfLines(c)) == [OrElse(Get(c.draft.personal, "name"), "Name")] + PresentTitles(c.draft)
  {
    var size, color, d := MainSize(c.layoutOptions), MainColor(c.layoutOptions), c.draft;
    BlockHeadings(Education, d.education, size, color);
    BlockHeadings(Experience, d.experience, size, color);
    BlockHeadings(Projects, d.projects, size, color);
    BlockHeadings(Skills, d.skills, size, color);
    BlockHeadings(Socials, d.socials, size, color);
    FiveHeadings(Block(Education, d.education, size, color), Block(Experience, d.experience, size, color),
      Block(Projects, d.projects, size, color), Block(Skills, d.skills, size, color), Block(Socials, d.socials, size, color));
    ContactPlain(d.personal, size);
    AssembledHeadings(NameLine(d.personal, color), ContactLines(d.personal, size), size, SectionBlocks(d, size, color));
  }

  /** The styles after a header line of plain lines and five styled blocks. */
  lemma AssembledStyled(first: PdfLine, contact: seq<PdfLine>, size: real, color: string,
                        b1: seq<PdfLine>, b2: seq<PdfLine>, b3: seq<PdfLine>, b4: seq<PdfLine>, b5: seq<PdfLine>)
    requires PlainLines(contact, size)
    requires StyledBlock(b1, size, color) && StyledBlock(b2, size, color) && StyledBlock(b3, size, color)
    requires StyledBlock(b4, size, color) && StyledBlock(b5, size, color)
    ensures StyledBlock(([first] + contact + (b1 + b2 + b3 + b4 + b5))[1..], size, color)
  {
    FiveStyled(b1, b2, b3, b4, b5, size, color);
    PlainStyled(contact, size, color);
    StyledConcat(contact, b1 + b2 + b3 + b4 + b5, size, color);
    assert ([first] + contact + (b1 + b2 + b3 + b4 + b5))[1..] == contact + (b1 + b2 + b3 + b4 + b5);
  }

  /** Every line after the name header is a heading in the main colour at two
      points above the main size, or a black body line at the main size. */
  lemma PdfLineStyles(c: Content)
    ensures StyledBlock(PdfLines(c)[1..], MainSize(c.layoutOptions), MainColor(c.layoutOptions))
  {
    var size, color, d := MainSize(c.layoutOptions), MainColor(c.layoutOptions), c.draft;
    BlockStyled(Education, d.education, size, color);
    BlockStyled(Experience, d.experience, size, color);
    BlockStyled(Projects, d.projects, size, color);
    BlockStyled(Skills, d.skills, size, color);
    BlockStyled(Socials, d.socials, size, color);
    ContactPlain(d.personal, size);
    AssembledStyled(NameLine(d.personal, color), ContactLines(d.personal, size), size, color,
      Block(Education, d.education, size, color), Block(Experience, d.experience, size, color),
      Block(Projects, d.projects, size, color), Block(Skills, d.skills, size, color), Block(Socials, d.socials, size, color));
  }

  // ---------------------------------------------------------------------------
  // The store and the handlers
  // ---------------------------------------------------------------------------

  /** The résumé collection. */
  class ResumeStore {
    var records: map<string, Resume>

    constructor ()
      ensures records == map[]
    {
      records := map[];
    }

    /** `createResume`: a new document under the id the database assigns. */
    method CreateResume(id: string, body: RequestBody, file: Option<string>, user: string) returns (status: int)
      requires id !in records
      modifies this
      ensures status == 201
      ensures records == old(records)[id := Created(body, file, user)]
    {
      records := records[id := Created(body, file, user)];
      status := 201;
    }

    /** `getResumeById`: found only among the requester's own documents. */
    method GetResumeById(id: string, user: string) returns (status: int, resume: Option<Resume>)
      ensures Owned(records, id, user) ==> status == 200 && resume == Some(records[id])
      ensures !Owned(records, id, user) ==> status == 404 && resume == None
    {
      if id in records && records[id].userId == user {
        return 200, Some(records[id]);
      }
      return 404, None;
    }

    /** `updateResume`: only the requester's own document changes, as `Updated`
        says. Anything else is a 404 and changes nothing. */
    method UpdateResume(id: string, user: string, body: RequestBody, file: Option<string>) returns (status: int)
      modifies this
      ensures Owned(old(records), id, user) ==>
        && status == 200
        && records == old(records)[id := Updated(old(records)[id], body, file)]
      ensures !Owned(old(records), id, user) ==> status == 404 && records == old(records)
    {
      if id in records && records[id].userId == user {
        records := records[id := Updated(records[id], body, file)];
        return 200;
      }
      return 404;
    }

    /** `deleteResume` */
    method DeleteResume(id: string, user: string) returns (status: int)
      modifies this
      ensures Owned(old(records), id, user) ==> status == 200 && records == old(records) - {id}
      ensures !Owned(old(records), id, user) ==> status == 404 && records == old(records)
    {
      if id in records && records[id].userId == user {
        records := records - {id};
        return 200;
      }
      return 404;
    }

    /** `getSharedResume`: public, but only for a token that is shared. */
    method GetSharedResume(token: string) returns (status: int, resume: Option<Resume>)
      ensures status == 200 <==> exists id :: id in records && SharedUnder(records[id], token)
      ensures status == 200 ==> resume.Some? && resume.value in records.Values && SharedUnder(resume.value, token)
      ensures status != 200 ==> status == 404 && resume == None
    {
      if exists id :: id in records && SharedUnder(records[id], token) {
        var id :| id in records && SharedUnder(records[id], token);
        return 200, Some(records[id]);
      }
      return 404, None;
    }

    /** `downloadResumePDF`: for the requester's own document, its text lines and file name. */
    method DownloadResumePdf(id: string, user: string) returns (status: int, lines: seq<PdfLine>, filename: string)
      ensures Owned(records, id, user) ==>
        status == 200 && lines == PdfLines(records[id].content) && filename == PdfFileName(records[id].content)
      ensures !Owned(records, id, user) ==> status == 404 && lines == []
    {
      if !(id in records && records[id].userId == user) {
        return 404, [], "";
      }
      var c := records[id].content;
      lines := EmitPdf(c);
      filename := PdfFileName(c);
      status := 200;
    }
  }

  /** The `doc.text` calls of `downloadResumePDF`, one block after another. */
  method EmitPdf(c: Content) returns (lines: seq<PdfLine>)
    ensures lines == PdfLines(c)
  {
    var size := MainSize(c.layoutOptions);
    var color := MainColor(c.layoutOptions);
    var d := c.draft;
    lines := [NameLine(d.personal, color)] + ContactLines(d.personal, size);
    var sections := EmitBlock(Education, d.education, size, color);
    var block := EmitBlock(Experience, d.experience, size, color);
    sections := sections + block;
    block := EmitBlock(Projects, d.projects, size, color);
    sections := sections + block;
    block := EmitBlock(Skills, d.skills, size, color);
    sections := sections + block;
    block := EmitBlock(Socials, d.socials, size, color);
    sections := sections + block;
    lines := lines + sections;
  }

  /** One `if (items?.length > 0) { heading; ... }` block. */
  method EmitBlock(sec: Section, items: seq<Item>, size: real, color: string) returns (lines: seq<PdfLine>)
    ensures lines == Block(sec, items, size, color)
  {
    if |items| == 0 {
      return [];
    }
    lines := [PdfLine(Title(sec), size + 2.0, color, true)];
    if sec == Skills {
      lines := lines + [Body(JoinNames(items), size)];
    } else {
      var entries := EmitEntries(sec, items, size);
      lines := lines + entries;
    }
  }

  /** `items.forEach(...)`: the entries' lines one after another. */
  method EmitEntries(sec: Section, items: seq<Item>, size: real) returns (lines: seq<PdfLine>)
    ensures lines == EntriesLines(sec, items, size)
  {
    lines := [];
    var i := 0;
    while i < |items|
      invariant 0 <= i <= |items|
      invariant lines == EntriesLines(sec, items[..i], size)
    {
      assert items[..i + 1][..i] == items[..i];
      lines := lines + EntryLines(sec, items[i], size);
      i := i + 1;
    }
    assert items[..i] == items;
  }
}
