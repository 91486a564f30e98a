/** The multipart body that `handleSaveResume` and `handleUpdate` build
    (client/src/pages/ResumeBuilder.jsx, lines 396-457 and 490-549): every
    field of the draft under a bracketed key `section[i][field]`, in a fixed
    order, then the layout options, the layout choice and the image rule. A
    `FormData` value is the string form of the field, so a missing property is
    sent as "undefined". */
module FormEncoding {
  import opened Common
  import opened Validators
  import opened ResumeDraft

  /** A multipart field name by its shape: `name`, `obj[field]` or `section[i][field]`. */
  datatype FormKey = Top(name: string) | Member(obj: string, field: string) | Element(sec: Section, index: nat, field: string)

  /** The string the browser sends as the field name. */
  function Render(k: FormKey): string {
    match k
    case Top(n) => n
    case Member(o, f) => o + "[" + f + "]"
    case Element(s, i, f) => s.Name() + "[" + NatToString(i) + "][" + f + "]"
  }

  /** A text part, or the file chosen in the image input. */
  datatype FormValue = Text(s: string) | File(name: string)

  datatype Part = Part(key: FormKey, value: FormValue)

  /** The personal properties sent, in order (the image is handled separately). */
  const PersonalSent: seq<string> := ["name", "email", "phone", "address", "city", "state", "pincode", "introduction"]
  const LayoutSent: seq<string> := ["color", "font", "fontSize"]

  /** The properties sent for each record of an array section, in order. */
  function SentFields(sec: Section): seq<string>
    requires sec.IsArray()
  {
    match sec
    case Education => EducationProps
    case Experience => ExperienceProps
    case Projects => ProjectProps
    case Skills => SkillProps
    case Socials => SocialProps
  }

  /** `formData.append(`${obj}[${f}]`, item[f])` for each listed property. */
  function MemberParts(obj: string, item: Item, fields: seq<string>): (r: seq<Part>)
    ensures |r| == |fields|
    ensures forall j :: 0 <= j < |r| ==> r[j] == Part(Member(obj, fields[j]), Text(Interp(Get(item, fields[j]))))
    decreases |fields|
  {
    if fields == [] then []
    else
      var f := fields[|fields| - 1];
      MemberParts(obj, item, fields[..|fields| - 1]) + [Part(Member(obj, f), Text(Interp(Get(item, f))))]
  }

  /** The parts of record `i` of an array section. */
  function ElementParts(sec: Section, i: nat, item: Item, fields: seq<string>): (r: seq<Part>)
    ensures |r| == |fields|
    ensures forall j :: 0 <= j < |r| ==> r[j] == Part(Element(sec, i, fields[j]), Text(Interp(Get(item, fields[j]))))
    decreases |fields|
  {
    if fields == [] then []
    else
      var f := fields[|fields| - 1];
      ElementParts(sec, i, item, fields[..|fields| - 1]) + [Part(Element(sec, i, f), Text(Interp(Get(item, f))))]
  }

  /** The parts of every record of an array section, record by record. */
  function ArrayParts(sec: Section, items: seq<Item>, fields: seq<string>): (r: seq<Part>)
    ensures |r| == |items| * |fields|
    decreases |items|
  {
    if items == [] then []
    else
      var n := |items| - 1;
      ArrayParts(sec, items[..n], fields) + ElementParts(sec, n, items[n], fields)
  }

  /** The image rule. A newly chosen file is always sent as `image`. Without
      one, an update re-sends the stored path as `personal[image]` when it is
      an uploaded file; a create sends nothing. */
  function ImageParts(file: Option<string>, originalImagePath: Field, update: bool): (r: seq<Part>)
    ensures file.Some? ==> r == [Part(Top("image"), File(file.value))]
    ensures file.None? && update && Truthy(originalImagePath) && StartsWith(originalImagePath.s, "/uploads")
      ==> r == [Part(Member("personal", "image"), Text(originalImagePath.s))]
    ensures file.None? && !(update && Truthy(originalImagePath) && StartsWith(originalImagePath.s, "/uploads")) ==> r == []
  {
    if file.Some? then [Part(Top("image"), File(file.value))]
    else if update && Truthy(originalImagePath) && StartsWith(originalImagePath.s, "/uploads") then
      [Part(Member("personal", "image"), Text(originalImagePath.s))]
    else []
  }

  /** The parts of the five array sections, section by section. */
  function SectionParts(d: Draft): seq<Part> {
    ArrayParts(Education, d.education, EducationProps)
    + ArrayParts(Experience, d.experience, ExperienceProps)
    + ArrayParts(Projects, d.projects, ProjectProps)
    + ArrayParts(Skills, d.skills, SkillProps)
    + ArrayParts(Socials, d.socials, SocialProps)
  }

  /** The layout options and the layout choice. */
  function LayoutParts(layout: Item, layoutChoice: string): seq<Part> {
    MemberParts("layoutOptions", layout, LayoutSent) + [Part(Top("layoutChoice"), Text(layoutChoice))]
  }

  /** Everything but the image, in the order the handlers append it. */
  function BodyParts(d: Draft, layout: Item, layoutChoice: string): seq<Part> {
    MemberParts("personal", d.personal, PersonalSent) + SectionParts(d) + LayoutParts(layout, layoutChoice)
  }

  /** The whole body of a create (`update == false`) or an update request. */
  function Payload(d: Draft, layout: Item, layoutChoice: string, file: Option<string>, originalImagePath: Field, update: bool): seq<Part> {
    BodyParts(d, layout, layoutChoice) + ImageParts(file, originalImagePath, update)
  }

  // ---------------------------------------------------------------------------
  // The encoder as the handlers run it
  // ---------------------------------------------------------------------------

  method AppendMembers(parts: seq<Part>, obj: string, item: Item, fields: seq<string>) returns (r: seq<Part>)
    ensures r == parts + MemberParts(obj, item, fields)
  {
    r := parts;
    var j := 0;
    while j < |fields|
      invariant 0 <= j <= |fields|
      invariant r == parts + MemberParts(obj, item, fields[..j])
    {
      assert fields[..j + 1][..j] == fields[..j];
      r := r + [Part(Member(obj, fields[j]), Text(Interp(Get(item, fields[j]))))];
      j := j + 1;
    }
    assert fields[..j] == fields;
  }

  /** The appends for record `i`: `formData.append(`${section}[${i}][${f}]`, it[f])`. */
  method AppendElement(parts: seq<Part>, sec: Section, i: nat, item: Item, fields: seq<string>) returns (r: seq<Part>)
    ensures r == parts + ElementParts(sec, i, item, fields)
  {
    r := parts;
    var j := 0;
    while j < |fields|
      invariant 0 <= j <= |fields|
      invariant r == parts + ElementParts(sec, i, item, fields[..j])
    {
      assert fields[..j + 1][..j] == fields[..j];
      r := r + [Part(Element(sec, i, fields[j]), Text(Interp(Get(item, fields[j]))))];
      j := j + 1;
    }
    assert fields[..j] == fields;
  }

  lemma ArrayPartsStep(sec: Section, items: seq<Item>, fields: seq<string>, i: nat)
    requires i < |items|
    ensures ArrayParts(sec, items[..i + 1], fields) == ArrayParts(sec, items[..i], fields) + ElementParts(sec, i, items[i], fields)
  {
    var xs := items[..i + 1];
    assert xs[..|xs| - 1] == items[..i] && xs[|xs| - 1] == items[i];
  }

  /** `items.forEach((it, i) => ...)` over one array section. */
  method AppendArray(sec: Section, items: seq<Item>, fields: seq<string>) returns (r: seq<Part>)
    ensures r == ArrayParts(sec, items, fields)
  {
    r := [];
    var i := 0;
    while i < |items|
      invariant 0 <= i <= |items|
      invariant r == ArrayParts(sec, items[..i], fields)
    {
      r := AppendElement(r, sec, i, items[i], fields);
      ArrayPartsStep(sec, items, fields, i);
      i := i + 1;
    }
    assert items[..i] == items;
  }

  method AppendSections(d: Draft) returns (parts: seq<Part>)
    ensures parts == SectionParts(d)
  {
    parts := AppendArray(Education, d.education, EducationProps);
    var more := AppendArray(Experience, d.experience, ExperienceProps);
    parts := parts + more;
    more := AppendArray(Projects, d.projects, ProjectProps);
    parts := parts + more;
    more := AppendArray(Skills, d.skills, SkillProps);
    parts := parts + more;
    more := AppendArray(Socials, d.socials, SocialProps);
    parts := parts + more;
  }

  /** The appends common to both handlers, before the image. */
  method EncodeBody(d: Draft, layout: Item, layoutChoice: string) returns (parts: seq<Part>)
    ensures parts == BodyParts(d, layout, layoutChoice)
  {
    var personal := AppendMembers([], "personal", d.personal, PersonalSent);
    assert personal == MemberParts("personal", d.personal, PersonalSent);
    var sections := AppendSections(d);
    var layoutParts := AppendMembers([], "layoutOptions", layout, LayoutSent);
    assert layoutParts == MemberParts("layoutOptions", layout, LayoutSent);
    layoutParts := layoutParts + [Part(Top("layoutChoice"), Text(layoutChoice))];
    parts := personal + sections + layoutParts;
  }

  /** The encoding of `handleSaveResume` (`update == false`) and `handleUpdate`. */
  method Encode(d: Draft, layout: Item, layoutChoice: string, file: Option<string>, originalImagePath: Field, update: bool)
    returns (parts: seq<Part>)
    ensures parts == Payload(d, layout, layoutChoice, file, originalImagePath, update)
  {
    parts := EncodeBody(d, layout, layoutChoice);
    if file.Some? {
      parts := parts + [Part(Top("image"), File(file.value))];
    } else if update && Truthy(originalImagePath) && StartsWith(originalImagePath.s, "/uploads") {
      parts := parts + [Part(Member("personal", "image"), Text(originalImagePath.s))];
    }
  }

  // ---------------------------------------------------------------------------
  // Size and contents of the body
  // ---------------------------------------------------------------------------

  lemma SectionPartsLength(d: Draft)
    ensures |SectionParts(d)| == 3 * |d.education| + 8 * |d.experience| + 5 * |d.projects| + 2 * |d.skills| + 2 * |d.socials|
  {
    assert |EducationProps| == 3 && |ExperienceProps| == 8 && |ProjectProps| == 5 && |SkillProps| == 2 && |SocialProps| == 2;
  }

  /** 8 personal parts, 3/8/5/2/2 per education/experience/project/skill/social
      record, 4 layout parts, and one image part exactly when a file was
      chosen or an update keeps an uploaded image. */
  lemma PayloadLength(d: Draft, layout: Item, layoutChoice: string, file: Option<string>, originalImagePath: Field, update: bool)
    ensures var n := |Payload(d, layout, layoutChoice, file, originalImagePath, update)|;
      var body := 8 + 3 * |d.education| + 8 * |d.experience| + 5 * |d.projects| + 2 * |d.skills| + 2 * |d.socials| + 4;
      n == if file.Some? || (update && Truthy(originalImagePath) && StartsWith(originalImagePath.s, "/uploads")) then body + 1 else body
  {
    SectionPartsLength(d);
    var p0, sp, lp := MemberParts("personal", d.personal, PersonalSent), SectionParts(d), LayoutParts(layout, layoutChoice);
    assert |p0| == 8 && |lp| == 4;
    assert |BodyParts(d, layout, layoutChoice)| == |p0| + |sp| + |lp|;
  }

  /** Every field of every record is sent, as its string form, under its own key. */
  lemma PayloadCarries(d: Draft, layout: Item, layoutChoice: string, file: Option<string>, originalImagePath: Field, update: bool,
                       sec: Section, i: nat, f: string)
    requires sec.IsArray() && i < |d.Items(sec)| && f in SentFields(sec)
    ensures Part(Element(sec, i, f), Text(Interp(Get(d.Items(sec)[i], f)))) in Payload(d, layout, layoutChoice, file, originalImagePath, update)
  {
    var fields := SentFields(sec);
    var j :| 0 <= j < |fields| && fields[j] == f;
    ArrayPartsCarry(sec, d.Items(sec), fields, i, j);
    var p := Part(Element(sec, i, f), Text(Interp(Get(d.Items(sec)[i], f))));
    assert p in SectionParts(d) by {
      match sec
      case Education =>
      case Experience =>
      case Projects =>
      case Skills =>
      case Socials =>
    }
    assert p in BodyParts(d, layout, layoutChoice);
  }

  /** The body opens with every personal property but the image, under `personal[f]`. */
  lemma PayloadCarriesPersonal(d: Draft, layout: Item, layoutChoice: string, file: Option<string>, originalImagePath: Field, update: bool, j: nat)
    requires j < |PersonalSent|
    ensures Payload(d, layout, layoutChoice, file, originalImagePath, update)[j]
      == Part(Member("personal", PersonalSent[j]), Text(Interp(Get(d.personal, PersonalSent[j]))))
  {
    var p0 := MemberParts("personal", d.personal, PersonalSent);
    assert Payload(d, layout, layoutChoice, file, originalImagePath, update)[j] == p0[j];
  }

  lemma {:induction false} ArrayPartsCarry(sec: Section, items: seq<Item>, fields: seq<string>, i: nat, j: nat)
    requires i < |items| && j < |fields|
    ensures Part(Element(sec, i, fields[j]), Text(Interp(Get(items[i], fields[j])))) in ArrayParts(sec, items, fields)
    decreases |items|
  {
    var n := |items| - 1;
    var p := Part(Element(sec, i, fields[j]), Text(Interp(Get(items[i], fields[j]))));
    if i < n {
      ArrayPartsCarry(sec, items[..n], fields, i, j);
      assert items[..n][i] == items[i];
    } else {
      assert ElementParts(sec, n, items[n], fields)[j] == p;
    }
  }

  // ---------------------------------------------------------------------------
  // Distinct keys
  // ---------------------------------------------------------------------------

  predicate DistinctKeys(p: seq<Part>) {
    forall x, y :: 0 <= x < y < |p| ==> p[x].key != p[y].key
  }

  predicate NoDup(fields: seq<string>) {
    forall x, y :: 0 <= x < y < |fields| ==> fields[x] != fields[y]
  }

  /** The part of the body a key belongs to. */
  datatype Group = GPersonal | GSection(sec: Section) | GLayout | GTop(name: string) | GOther(obj: string)

  function GroupOf(k: FormKey): Group {
    match k
    case Top(n) => GTop(n)
    case Member(o, _) => if o == "personal" then GPersonal else if o == "layoutOptions" then GLayout else GOther(o)
    case Element(s, _, _) => GSection(s)
  }

  predicate InGroups(p: seq<Part>, gs: set<Group>) {
    forall x :: 0 <= x < |p| ==> GroupOf(p[x].key) in gs
  }

  lemma DistinctConcat(a: seq<Part>, b: seq<Part>, ga: set<Group>, gb: set<Group>)
    requires DistinctKeys(a) && DistinctKeys(b) && InGroups(a, ga) && InGroups(b, gb) && ga !! gb
    ensures DistinctKeys(a + b) && InGroups(a + b, ga + gb)
  {
    forall x: int, y: int | 0 <= x < y < |a + b|
      ensures (a + b)[x].key != (a + b)[y].key
    {
      if y < |a| {
        assert (a + b)[x] == a[x] && (a + b)[y] == a[y];
      } else if x >= |a| {
        assert (a + b)[x] == b[x - |a|] && (a + b)[y] == b[y - |a|];
      } else {
        assert (a + b)[x] == a[x] && (a + b)[y] == b[y - |a|];
        assert GroupOf(a[x].key) in ga && GroupOf(b[y - |a|].key) in gb;
      }
    }
    forall x | 0 <= x < |a + b|
      ensures GroupOf((a + b)[x].key) in ga + gb
    {
      if x < |a| { assert (a + b)[x] == a[x]; } else { assert (a + b)[x] == b[x - |a|]; }
    }
  }

  lemma MemberPartsDistinct(obj: string, item: Item, fields: seq<string>)
    requires NoDup(fields)
    ensures DistinctKeys(MemberParts(obj, item, fields))
    ensures InGroups(MemberParts(obj, item, fields), {GroupOf(Member(obj, ""))})
  {
  }

  predicate KeyOf(p: Part, sec: Section, count: nat) {
    p.key.Element? && p.key.sec == sec && p.key.index < count
  }

  /** Every part of an array section is an element of that section with an
      index of one of its records. */
  lemma {:induction false} ArrayPartsIndices(sec: Section, items: seq<Item>, fields: seq<string>)
    ensures forall q :: 0 <= q < |ArrayParts(sec, items, fields)| ==> KeyOf(ArrayParts(sec, items, fields)[q], sec, |items|)
    decreases |items|
  {
    if items != [] {
      var n := |items| - 1;
      var a: seq<Part>, b: seq<Part> := ArrayParts(sec, items[..n], fields), ElementParts(sec, n, items[n], fields);
      ArrayPartsIndices(sec, items[..n], fields);
      assert ArrayParts(sec, items, fields) == a + b;
      forall q | 0 <= q < |a + b|
        ensures KeyOf((a + b)[q], sec, |items|)
      {
        if q < |a| {
          assert (a + b)[q] == a[q] && KeyOf(a[q], sec, n);
        } else {
          var j := q - |a|;
          assert (a + b)[q] == b[j] == Part(Element(sec, n, fields[j]), Text(Interp(Get(items[n], fields[j]))));
        }
      }
    }
  }

  lemma {:induction false} ArrayPartsDistinct(sec: Section, items: seq<Item>, fields: seq<string>)
    requires NoDup(fields)
    ensures DistinctKeys(ArrayParts(sec, items, fields)) && InGroups(ArrayParts(sec, items, fields), {GSection(sec)})
    decreases |items|
  {
    if items != [] {
      var n := |items| - 1;
      var a: seq<Part>, b: seq<Part> := ArrayParts(sec, items[..n], fields), ElementParts(sec, n, items[n], fields);
      ArrayPartsDistinct(sec, items[..n], fields);
      ArrayPartsIndices(sec, items[..n], fields);
      assert ArrayParts(sec, items, fields) == a + b;
      forall x: int, y: int | 0 <= x < y < |a + b|
        ensures (a + b)[x].key != (a + b)[y].key
      {
        if y < |a| {
          assert (a + b)[x] == a[x] && (a + b)[y] == a[y];
        } else if x >= |a| {
          assert (a + b)[x] == b[x - |a|] && (a + b)[y] == b[y - |a|];
        } else {
          assert (a + b)[x] == a[x] && (a + b)[y] == b[y - |a|];
          assert a[x].key.index < n;
        }
      }
    }
  }

  lemma SentFieldsNoDup()
    ensures NoDup(PersonalSent) && NoDup(LayoutSent)
    ensures NoDup(EducationProps) && NoDup(ExperienceProps) && NoDup(ProjectProps) && NoDup(SkillProps) && NoDup(SocialProps)
  {
  }

  lemma SectionPartsDistinct(d: Draft)
    ensures DistinctKeys(SectionParts(d))
    ensures InGroups(SectionParts(d), {GSection(Education), GSection(Experience), GSection(Projects), GSection(Skills), GSection(Socials)})
  {
    SentFieldsNoDup();
    var a1 := ArrayParts(Education, d.education, EducationProps);
    var a2 := ArrayParts(Experience, d.experience, ExperienceProps);
    var a3 := ArrayParts(Projects, d.projects, ProjectProps);
    var a4 := ArrayParts(Skills, d.skills, SkillProps);
    var a5 := ArrayParts(Socials, d.socials, SocialProps);
    ArrayPartsDistinct(Education, d.education, EducationProps);
    ArrayPartsDistinct(Experience, d.experience, ExperienceProps);
    ArrayPartsDistinct(Projects, d.projects, ProjectProps);
    ArrayPartsDistinct(Skills, d.skills, SkillProps);
    ArrayPartsDistinct(Socials, d.socials, SocialProps);
    var g1, g2, g3, g4, g5 := GSection(Education), GSection(Experience), GSection(Projects), GSection(Skills), GSection(Socials);
    DistinctConcat(a1, a2, {g1}, {g2});
    DistinctConcat(a1 + a2, a3, {g1, g2}, {g3});
    DistinctConcat(a1 + a2 + a3, a4, {g1, g2, g3}, {g4});
    DistinctConcat(a1 + a2 + a3 + a4, a5, {g1, g2, g3, g4}, {g5});
  }

  lemma BodyDistinct(d: Draft, layout: Item, layoutChoice: string)
    ensures DistinctKeys(BodyParts(d, layout, layoutChoice))
    ensures InGroups(BodyParts(d, layout, layoutChoice), {GPersonal, GSection(Education), GSection(Experience), GSection(Projects),
                                                         GSection(Skills), GSection(Socials), GLayout, GTop("layoutChoice")})
    ensures var p0 := MemberParts("personal", d.personal, PersonalSent);
      forall x :: |p0| <= x < |BodyParts(d, layout, layoutChoice)| ==> GroupOf(BodyParts(d, layout, layoutChoice)[x].key) != GPersonal
  {
    SentFieldsNoDup();
    var p0 := MemberParts("personal", d.personal, PersonalSent);
    var sp := SectionParts(d);
    var m := MemberParts("layoutOptions", layout, LayoutSent);
    var lp := LayoutParts(layout, layoutChoice);
    MemberPartsDistinct("personal", d.personal, PersonalSent);
    SectionPartsDistinct(d);
    MemberPartsDistinct("layoutOptions", layout, LayoutSent);
    var gs := {GSection(Education), GSection(Experience), GSection(Projects), GSection(Skills), GSection(Socials)};
    var gl := {GLayout, GTop("layoutChoice")};
    DistinctConcat(m, [Part(Top("layoutChoice"), Text(layoutChoice))], {GLayout}, {GTop("layoutChoice")});
    DistinctConcat(p0, sp, {GPersonal}, gs);
    DistinctConcat(p0 + sp, lp, {GPersonal} + gs, gl);
    var body := p0 + sp + lp;
    forall x | |p0| <= x < |body|
      ensures GroupOf(body[x].key) != GPersonal
    {
      if x < |p0| + |sp| {
        assert body[x] == sp[x - |p0|];
      } else {
        assert body[x] == lp[x - |p0| - |sp|];
      }
    }
  }

  /** Neither key the image rule may add occurs in the body. */
  lemma BodyLacksImage(d: Draft, layout: Item, layoutChoice: string)
    ensures var body := BodyParts(d, layout, layoutChoice);
      forall x :: 0 <= x < |body| ==> body[x].key != Top("image") && body[x].key != Member("personal", "image")
  {
    var p0 := MemberParts("personal", d.personal, PersonalSent);
    var body := BodyParts(d, layout, layoutChoice);
    BodyDistinct(d, layout, layoutChoice);
    PersonalLacksImage(d.personal);
    forall x | 0 <= x < |body|
      ensures body[x].key != Top("image") && body[x].key != Member("personal", "image")
    {
      if x < |p0| {
        assert body[x] == p0[x];
      } else {
        assert GroupOf(body[x].key) != GPersonal;
      }
    }
  }

  lemma PersonalLacksImage(personal: Item)
    ensures var p0 := MemberParts("personal", personal, PersonalSent);
      forall x :: 0 <= x < |p0| ==> p0[x].key != Member("personal", "image")
  {
    assert "image" !in PersonalSent;
    var p0 := MemberParts("personal", personal, PersonalSent);
    forall x | 0 <= x < |p0|
      ensures p0[x].key != Member("personal", "image")
    {
      assert p0[x].key.field == PersonalSent[x];
    }
  }

  /** No two parts of the body share a key, the image part included. */
  lemma PayloadKeysDistinct(d: Draft, layout: Item, layoutChoice: string, file: Option<string>, originalImagePath: Field, update: bool)
    ensures DistinctKeys(Payload(d, layout, layoutChoice, file, originalImagePath, update))
  {
    var body: seq<Part> := BodyParts(d, layout, layoutChoice);
    BodyDistinct(d, layout, layoutChoice);
    BodyLacksImage(d, layout, layoutChoice);
    var img: seq<Part> := ImageParts(file, originalImagePath, update);
    assert |img| <= 1;
    assert forall q :: 0 <= q < |img| ==> img[q].key == Top("image") || img[q].key == Member("personal", "image");
    forall x: int, y: int | 0 <= x < y < |body + img|
      ensures (body + img)[x].key != (body + img)[y].key
    {
      if y < |body| {
        assert (body + img)[x] == body[x] && (body + img)[y] == body[y];
      } else {
        assert (body + img)[y] == img[y - |body|] && (body + img)[x] == body[x];
      }
    }
  }

  // ---------------------------------------------------------------------------
  // Field names on the wire
  // ---------------------------------------------------------------------------

  /** A key whose names contain no brackets. */
  predicate WellFormed(k: FormKey) {
    match k
    case Top(n) => '[' !in n
    case Member(o, f) => '[' !in o && ']' !in f
    case Element(_, _, f) => ']' !in f
  }

  /** Different well-formed keys are sent as different field names. */
  lemma RenderInjective(k1: FormKey, k2: FormKey)
    requires WellFormed(k1) && WellFormed(k2)
    requires Render(k1) == Render(k2)
    ensures k1 == k2
  {
    if k1.Top? || k2.Top? {
      TopRendersApart(k1, k2);
    } else if k1.Member? && k2.Member? {
      var o, f, o2, f2 := k1.obj, k1.field, k2.obj, k2.field;
      assert Render(k1) == o + "[" + (f + "]") && Render(k2) == o2 + "[" + (f2 + "]");
      SplitAtFirst('[', o, f + "]", o2, f2 + "]");
      DropSuffix(f, f2, "]");
    } else if k1.Member? {
      MemberNotElement(k1, k2);
    } else if k2.Member? {
      MemberNotElement(k2, k1);
    } else {
      ElementsRenderApart(k1, k2);
    }
  }

  /** The text before the first bracket of a rendered key. */
  function Head(k: FormKey): string {
    match k
    case Top(n) => n
    case Member(o, _) => o
    case Element(s, _, _) => s.Name()
  }

  lemma TopRendersApart(k1: FormKey, k2: FormKey)
    requires WellFormed(k1) && WellFormed(k2) && (k1.Top? || k2.Top?)
    ensures Render(k1) == Render(k2) ==> k1 == k2
  {
    if !k1.Top? {
      assert Render(k1)[|Head(k1)|] == '[';
    }
    if !k2.Top? {
      assert Render(k2)[|Head(k2)|] == '[';
    }
  }

  lemma MemberNotElement(k1: FormKey, k2: FormKey)
    requires k1.Member? && k2.Element? && WellFormed(k1) && WellFormed(k2)
    ensures Render(k1) != Render(k2)
  {
    var o, f, s2, i2, f2 := k1.obj, k1.field, k2.sec, k2.index, k2.field;
    NameFacts(s2);
    assert Render(k1) == o + "[" + (f + "]");
    assert Render(k2) == s2.Name() + "[" + (NatToString(i2) + "]" + ("[" + f2 + "]"));
    if Render(k1) == Render(k2) {
      SplitAtFirst('[', o, f + "]", s2.Name(), NatToString(i2) + "]" + ("[" + f2 + "]"));
      assert f + [']'] + [] == NatToString(i2) + "]" + ("[" + f2 + "]");
      NatToStringHasNo(i2, ']');
      SplitAtFirst(']', f, [], NatToString(i2), "[" + f2 + "]");
    }
  }

  lemma ElementsRenderApart(k1: FormKey, k2: FormKey)
    requires k1.Element? && k2.Element? && WellFormed(k1) && WellFormed(k2)
    requires Render(k1) == Render(k2)
    ensures k1 == k2
  {
    var s, i, f, s2, i2, f2 := k1.sec, k1.index, k1.field, k2.sec, k2.index, k2.field;
    NameFacts(s);
    NameFacts(s2);
    assert Render(k1) == s.Name() + "[" + (NatToString(i) + "]" + ("[" + f + "]"));
    assert Render(k2) == s2.Name() + "[" + (NatToString(i2) + "]" + ("[" + f2 + "]"));
    NatToStringHasNo(i, ']');
    NatToStringHasNo(i2, ']');
    SplitAtFirst('[', s.Name(), NatToString(i) + "]" + ("[" + f + "]"), s2.Name(), NatToString(i2) + "]" + ("[" + f2 + "]"));
    NameInjective(s, s2);
    SplitAtFirst(']', NatToString(i), "[" + f + "]", NatToString(i2), "[" + f2 + "]");
    NatToStringInjective(i, i2);
    assert f + "]" == ("[" + f + "]")[1..];
    assert f2 + "]" == ("[" + f2 + "]")[1..];
    DropSuffix(f, f2, "]");
  }

  predicate AllWellFormed(p: seq<Part>) {
    forall x :: 0 <= x < |p| ==> WellFormed(p[x].key)
  }

  predicate BracketFree(fields: seq<string>) {
    forall j :: 0 <= j < |fields| ==> ']' !in fields[j]
  }

  lemma WellFormedConcat(a: seq<Part>, b: seq<Part>)
    requires AllWellFormed(a) && AllWellFormed(b)
    ensures AllWellFormed(a + b)
  {
    forall x | 0 <= x < |a + b|
      ensures WellFormed((a + b)[x].key)
    {
      if x < |a| { assert (a + b)[x] == a[x]; } else { assert (a + b)[x] == b[x - |a|]; }
    }
  }

  lemma {:induction false} ArrayPartsWellFormed(sec: Section, items: seq<Item>, fields: seq<string>)
    requires BracketFree(fields)
    ensures AllWellFormed(ArrayParts(sec, items, fields))
    decreases |items|
  {
    if items != [] {
      var n := |items| - 1;
      ArrayPartsWellFormed(sec, items[..n], fields);
      WellFormedConcat(ArrayParts(sec, items[..n], fields), ElementParts(sec, n, items[n], fields));
    }
  }

  lemma SentFieldsBracketFree()
    ensures BracketFree(PersonalSent) && BracketFree(LayoutSent)
    ensures BracketFree(EducationProps) && BracketFree(ExperienceProps) && BracketFree(ProjectProps)
    ensures BracketFree(SkillProps) && BracketFree(SocialProps)
  {
    PersonalBracketFree();
    ExperienceBracketFree();
  }

  lemma PersonalBracketFree()
    ensures BracketFree(PersonalSent)
  {
  }

  lemma ExperienceBracketFree()
    ensures BracketFree(ExperienceProps)
  {
  }

  lemma SectionPartsWellFormed(d: Draft)
    ensures AllWellFormed(SectionParts(d))
  {
    SentFieldsBracketFree();
    var a1 := ArrayParts(Education, d.education, EducationProps);
    var a2 := ArrayParts(Experience, d.experience, ExperienceProps);
    var a3 := ArrayParts(Projects, d.projects, ProjectProps);
    var a4 := ArrayParts(Skills, d.skills, SkillProps);
    var a5 := ArrayParts(Socials, d.socials, SocialProps);
    ArrayPartsWellFormed(Education, d.education, EducationProps);
    ArrayPartsWellFormed(Experience, d.experience, ExperienceProps);
    ArrayPartsWellFormed(Projects, d.projects, ProjectProps);
    ArrayPartsWellFormed(Skills, d.skills, SkillProps);
    ArrayPartsWellFormed(Socials, d.socials, SocialProps);
    WellFormedConcat(a1, a2);
    WellFormedConcat(a1 + a2, a3);
    WellFormedConcat(a1 + a2 + a3, a4);
    WellFormedConcat(a1 + a2 + a3 + a4, a5);
  }

  lemma MemberPartsWellFormed(obj: string, item: Item, fields: seq<string>)
    requires '[' !in obj && BracketFree(fields)
    ensures AllWellFormed(MemberParts(obj, item, fields))
  {
  }

  lemma LayoutPartsWellFormed(layout: Item, layoutChoice: string)
    ensures AllWellFormed(LayoutParts(layout, layoutChoice))
  {
    SentFieldsBracketFree();
    MemberPartsWellFormed("layoutOptions", layout, LayoutSent);
    WellFormedConcat(MemberParts("layoutOptions", layout, LayoutSent), [Part(Top("layoutChoice"), Text(layoutChoice))]);
  }

  lemma BodyWellFormed(d: Draft, layout: Item, layoutChoice: string)
    ensures AllWellFormed(BodyParts(d, layout, layoutChoice))
  {
    SentFieldsBracketFree();
    var p0 := MemberParts("personal", d.personal, PersonalSent);
    MemberPartsWellFormed("personal", d.personal, PersonalSent);
    SectionPartsWellFormed(d);
    LayoutPartsWellFormed(layout, layoutChoice);
    WellFormedConcat(p0, SectionParts(d));
    WellFormedConcat(p0 + SectionParts(d), LayoutParts(layout, layoutChoice));
  }

  lemma PayloadWellFormed(d: Draft, layout: Item, layoutChoice: string, file: Option<string>, originalImagePath: Field, update: bool)
    ensures AllWellFormed(Payload(d, layout, layoutChoice, file, originalImagePath, update))
  {
    BodyWellFormed(d, layout, layoutChoice);
    WellFormedConcat(BodyParts(d, layout, layoutChoice), ImageParts(file, originalImagePath, update));
  }

  /** Distinct parts are sent under distinct field names. */
  lemma PayloadNamesDistinct(d: Draft, layout: Item, layoutChoice: string, file: Option<string>, originalImagePath: Field, update: bool)
    ensures var p := Payload(d, layout, layoutChoice, file, originalImagePath, update);
      forall x, y :: 0 <= x < y < |p| ==> Render(p[x].key) != Render(p[y].key)
  {
    var p := Payload(d, layout, layoutChoice, file, originalImagePath, update);
    PayloadKeysDistinct(d, layout, layoutChoice, file, originalImagePath, update);
    PayloadWellFormed(d, layout, layoutChoice, file, originalImagePath, update);
    forall x: int, y: int | 0 <= x < y < |p|
      ensures Render(p[x].key) != Render(p[y].key)
    {
      if Render(p[x].key) == Render(p[y].key) {
        RenderInjective(p[x].key, p[y].key);
      }
    }
  }
}
