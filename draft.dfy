/** The resume draft held by the form (client/src/pages/ResumeBuilder.jsx), the
    dotted error keys, the error-map update `setFieldError`, and the error map
    that the whole-form check `validateForm` builds, as a specification. */
module ResumeDraft {
  import opened Common
  import opened Validators
  import IsoDate

  /** One record of a section: a JavaScript object whose properties are field
      values. A property that is not present reads as undefined. */
  type Item = map<string, Field>

  function Get(item: Item, f: string): Field {
    if f in item then item[f] else Absent
  }

  /** The object `{ personal, education, experience, projects, skills, socials }`. */
  datatype Draft = Draft(
    personal: Item,
    education: seq<Item>,
    experience: seq<Item>,
    projects: seq<Item>,
    skills: seq<Item>,
    socials: seq<Item>)
  {
    /** `data[section]` for an array section. */
    function Items(sec: Section): seq<Item>
      requires sec.IsArray()
    {
      match sec
      case Education => education
      case Experience => experience
      case Projects => projects
      case Skills => skills
      case Socials => socials
    }

    /** `{ ...data, [section]: items }` */
    function WithItems(sec: Section, items: seq<Item>): (d: Draft)
      requires sec.IsArray()
      ensures d.Items(sec) == items
      ensures d.personal == personal
      ensures forall s: Section :: s.IsArray() && s != sec ==> d.Items(s) == Items(s)
    {
      match sec
      case Education => this.(education := items)
      case Experience => this.(experience := items)
      case Projects => this.(projects := items)
      case Skills => this.(skills := items)
      case Socials => this.(socials := items)
    }
  }

  // ---------------------------------------------------------------------------
  // Initial state and the templates of the "add" buttons
  // ---------------------------------------------------------------------------

  /** An object with the given properties, all "". */
  function Blank(fields: seq<string>): (item: Item)
    ensures forall f :: f in item <==> f in fields
    ensures forall f :: f in fields ==> item[f] == Str("")
  {
    map f | f in fields :: Str("")
  }

  const PersonalProps: seq<string> :=
    ["image", "name", "email", "phone", "address", "city", "state", "pincode", "introduction"]
  const EducationProps: seq<string> := ["degree", "institution", "percentage"]
  const ExperienceProps: seq<string> :=
    ["organization", "location", "position", "ctc", "joiningDate", "leavingDate", "technologies", "description"]
  const ProjectProps: seq<string> := ["title", "teamSize", "duration", "technologies", "description"]
  const SkillProps: seq<string> := ["name", "level"]
  const SocialProps: seq<string> := ["platform", "link"]

  /** `emptyState`: one blank record in every array section. */
  function EmptyState(): Draft {
    Draft(Blank(PersonalProps), [Blank(EducationProps)], [Blank(ExperienceProps)],
          [Blank(ProjectProps)], [Blank(SkillProps)], [Blank(SocialProps)])
  }

  /** The record each "add" button appends. The experience button's template
      has no `location` and no `ctc` property. */
  function AddTemplate(sec: Section): Item
    requires sec.IsArray()
  {
    match sec
    case Education => Blank(EducationProps)
    case Experience => Blank(["organization", "position", "joiningDate", "leavingDate", "technologies", "description"])
    case Projects => Blank(ProjectProps)
    case Skills => Blank(SkillProps)
    case Socials => Blank(SocialProps)
  }

  /** The initial layout options; the numeric font size is the string "12" once rendered. */
  function DefaultLayout(): Item {
    map["color" := Str("#3956e6ff"), "font" := Str("Helvetica"), "fontSize" := Str("12")]
  }

  const DefaultLayoutChoice: string := "Basic"

  // ---------------------------------------------------------------------------
  // Which fields are checked where
  // ---------------------------------------------------------------------------

  /** The fields `validateForm` passes to `validateField`, per section; socials
      are not checked at all. */
  function FormFields(sec: Section): seq<string> {
    match sec
    case Personal => ["name", "email", "phone", "city", "state", "pincode"]
    case Education => ["degree", "institution", "percentage"]
    case Experience => ["organization", "position", "ctc"]
    case Projects => ["title"]
    case Skills => ["name", "level"]
    case Socials => []
  }

  /** The fields validated on every keystroke: the personal list of
      `handlePersonalChange` and the `liveValidateFields` table. */
  function LiveFields(sec: Section): seq<string> {
    match sec
    case Personal => FormFields(Personal)
    case Education => ["degree", "institution", "percentage"]
    case Experience => ["organization", "position", "ctc"]
    case Projects => ["title", "teamSize"]
    case Skills => ["name", "level"]
    case Socials => ["link"]
  }

  const IntroTooLongMsg: string := "Introduction is too long"
  const DescriptionTooLongMsg: string := "Description is too long"
  const DatesMsg: string := "Joining date cannot be after leaving date"

  /** A truthy introduction longer than 2000 characters. */
  predicate IntroTooLong(personal: Item) {
    Truthy(Get(personal, "introduction")) && |Get(personal, "introduction").s| > 2000
  }

  /** Both dates given and the joining date later than the leaving date. */
  predicate DatesInverted(ex: Item) {
    var j, l := Get(ex, "joiningDate"), Get(ex, "leavingDate");
    Truthy(j) && Truthy(l) && IsoDate.After(j.s, l.s)
  }

  // ---------------------------------------------------------------------------
  // Error keys
  // ---------------------------------------------------------------------------

  /** The error key of record `i` of an array section starts with `section.i.`. */
  function ItemPrefix(sec: Section, i: nat): string {
    sec.Name() + "." + NatToString(i) + "."
  }

  /** `${section}.${i}.${field}` */
  function ItemKey(sec: Section, i: nat, f: string): string {
    ItemPrefix(sec, i) + f
  }

  const PersonalPrefix: string := "personal."

  /** `personal.${field}` */
  function PersonalKey(f: string): string {
    PersonalPrefix + f
  }

  lemma NameFacts(sec: Section)
    ensures '.' !in sec.Name() && '[' !in sec.Name() && ']' !in sec.Name()
    ensures PersonalPrefix == Personal.Name() + "."
  {
  }

  lemma NameInjective(s1: Section, s2: Section)
    requires s1.Name() == s2.Name()
    ensures s1 == s2
  {
  }

  lemma StartsWithShorter(k: string, p: string, q: string)
    ensures StartsWith(k, p + q) ==> StartsWith(k, p)
  {
    if StartsWith(k, p + q) {
      assert k[..|p|] == (k[..|p + q|])[..|p|];
    }
  }

  lemma StartsWithTail(p: string, x: string, y: string)
    requires StartsWith(p + x, p + y)
    ensures StartsWith(x, y)
  {
    assert x[..|y|] == (p + x)[..|p + y|][|p|..];
  }

  /** In a key `a.x` whose head has no dot, any `b.` it starts with (b dot-free) is `a.`. */
  lemma HeadOfKey(a: string, x: string, b: string)
    requires '.' !in a && '.' !in b
    requires StartsWith(a + "." + x, b + ".")
    ensures a == b
  {
    var k := a + "." + x;
    var rest := k[|b| + 1..];
    assert k == k[..|b + "."|] + rest;
    assert k == b + "." + rest;
    SplitAtFirst('.', a, x, b, rest);
  }

  lemma ItemKeySplit(sec: Section, i: nat, f: string)
    ensures ItemKey(sec, i, f) == sec.Name() + "." + (NatToString(i) + "." + f)
    ensures ItemPrefix(sec, i) == sec.Name() + "." + (NatToString(i) + ".")
  {
  }

  /** The only record prefix an item's error key starts with is its own. */
  lemma PrefixOwner(sec: Section, i: nat, f: string, sec': Section, j: nat)
    requires StartsWith(ItemKey(sec, i, f), ItemPrefix(sec', j))
    ensures sec == sec' && i == j
  {
    NameFacts(sec);
    NameFacts(sec');
    ItemKeySplit(sec, i, f);
    ItemKeySplit(sec', j, f);
    StartsWithShorter(ItemKey(sec, i, f), sec'.Name() + ".", NatToString(j) + ".");
    HeadOfKey(sec.Name(), NatToString(i) + "." + f, sec'.Name());
    NameInjective(sec, sec');
    StartsWithTail(sec.Name() + ".", NatToString(i) + "." + f, NatToString(j) + ".");
    NatToStringHasNo(i, '.');
    NatToStringHasNo(j, '.');
    HeadOfKey(NatToString(i), f, NatToString(j));
    NatToStringInjective(i, j);
  }

  /** A key of one section never starts with the name of another. */
  lemma ForeignSection(sec: Section, x: string, sec': Section)
    requires sec != sec'
    ensures !StartsWith(sec.Name() + "." + x, sec'.Name() + ".")
  {
    NameFacts(sec);
    NameFacts(sec');
    if StartsWith(sec.Name() + "." + x, sec'.Name() + ".") {
      HeadOfKey(sec.Name(), x, sec'.Name());
      NameInjective(sec, sec');
    }
  }

  /** Error keys of items name their section, index and field unambiguously. */
  lemma ItemKeyInjective(sec: Section, i: nat, f: string, sec': Section, j: nat, g: string)
    requires ItemKey(sec, i, f) == ItemKey(sec', j, g)
    ensures sec == sec' && i == j && f == g
  {
    assert StartsWith(ItemKey(sec, i, f), ItemPrefix(sec', j));
    PrefixOwner(sec, i, f, sec', j);
    DropPrefix(ItemPrefix(sec, i), f, g);
  }

  lemma DropPrefix(p: string, x: string, y: string)
    requires p + x == p + y
    ensures x == y
  {
    assert x == (p + x)[|p|..];
    assert y == (p + y)[|p|..];
  }

  // ---------------------------------------------------------------------------
  // setFieldError
  // ---------------------------------------------------------------------------

  /** `setFieldError(key, msg)`: an empty message removes the key, any other
      message is stored under it, and every other entry stays as it was. */
  function SetError(errors: map<string, string>, key: string, msg: string): (r: map<string, string>)
    ensures msg == "" ==> key !in r
    ensures msg != "" ==> key in r && r[key] == msg
    ensures forall k :: k != key ==> (k in r <==> k in errors)
    ensures forall k :: k != key && k in r ==> r[k] == errors[k]
  {
    if msg == "" then errors - {key} else errors[key := msg]
  }

  /** Only the last of two updates of the same key matters; in particular
      repeating an update changes nothing. */
  lemma SetErrorLastWins(errors: map<string, string>, key: string, m1: string, m2: string)
    ensures SetError(SetError(errors, key, m1), key, m2) == SetError(errors, key, m2)
    ensures SetError(SetError(errors, key, m2), key, m2) == SetError(errors, key, m2)
  {
    var a, b := SetError(SetError(errors, key, m1), key, m2), SetError(errors, key, m2);
    assert a.Keys == b.Keys;
    var c := SetError(SetError(errors, key, m2), key, m2);
    assert c.Keys == b.Keys;
  }

  /** Updates of different keys commute. */
  lemma SetErrorCommutes(errors: map<string, string>, k1: string, m1: string, k2: string, m2: string)
    requires k1 != k2
    ensures SetError(SetError(errors, k1, m1), k2, m2) == SetError(SetError(errors, k2, m2), k1, m1)
  {
    var a, b := SetError(SetError(errors, k1, m1), k2, m2), SetError(SetError(errors, k2, m2), k1, m1);
    assert a.Keys == b.Keys;
  }

  // ---------------------------------------------------------------------------
  // The error map of validateForm
  // ---------------------------------------------------------------------------

  /** The message `validateForm` records for field `f` of a record of `sec`:
      `validateField` for the listed fields, and the extra introduction-length
      and date-order checks. */
  function RecordMessage(sec: Section, item: Item, f: string): (msg: string)
    ensures msg != "" <==>
      || (f in FormFields(sec) && !Accepted(sec, f, Get(item, f)))
      || (sec == Personal && f == "introduction" && IntroTooLong(item))
      || (sec == Experience && f == "dates" && DatesInverted(item))
  {
    if f in FormFields(sec) then ValidateField(sec, f, Get(item, f))
    else if sec == Personal && f == "introduction" && IntroTooLong(item) then IntroTooLongMsg
    else if sec == Experience && f == "dates" && DatesInverted(item) then DatesMsg
    else ""
  }

  /** `fields.forEach(f => { const msg = validateField(...); if (msg) errs[prefix + f] = msg; })` */
  function AddFieldErrors(acc: map<string, string>, prefix: string, sec: Section, item: Item, fields: seq<string>): map<string, string>
    decreases |fields|
  {
    if fields == [] then acc
    else
      var f := fields[|fields| - 1];
      Record(AddFieldErrors(acc, prefix, sec, item, fields[..|fields| - 1]), prefix + f, ValidateField(sec, f, Get(item, f)))
  }

  /** `if (msg) errs[key] = msg` */
  function Record(errs: map<string, string>, key: string, msg: string): map<string, string> {
    if msg != "" then errs[key := msg] else errs
  }

  /** What one `Record` step leaves under any key. */
  lemma RecordAt(errs: map<string, string>, key: string, msg: string, k: string)
    ensures k in Record(errs, key, msg) <==> k in errs || (k == key && msg != "")
    ensures k in Record(errs, key, msg) ==> Record(errs, key, msg)[k] == if k == key && msg != "" then msg else errs[k]
  {
  }

  /** The checks of one record, in the order the source runs them. */
  function RecordErrors(acc: map<string, string>, prefix: string, sec: Section, item: Item): map<string, string> {
    var r := AddFieldErrors(acc, prefix, sec, item, FormFields(sec));
    if sec == Personal && IntroTooLong(item) then r[prefix + "introduction" := IntroTooLongMsg]
    else if sec == Experience && DatesInverted(item) then r[prefix + "dates" := DatesMsg]
    else r
  }

  /** `items.forEach((it, i) => ...)`: the checks of every record, in order. */
  function AddSectionErrors(acc: map<string, string>, sec: Section, items: seq<Item>): map<string, string>
    decreases |items|
  {
    if items == [] then acc
    else
      var n := |items| - 1;
      RecordErrors(AddSectionErrors(acc, sec, items[..n]), ItemPrefix(sec, n), sec, items[n])
  }

  /** The map `validateForm` builds from nothing: personal, then education,
      experience, projects and skills. */
  function FormErrors(d: Draft): map<string, string> {
    var p := RecordErrors(map[], PersonalPrefix, Personal, d.personal);
    var e := AddSectionErrors(p, Education, d.education);
    var x := AddSectionErrors(e, Experience, d.experience);
    var j := AddSectionErrors(x, Projects, d.projects);
    AddSectionErrors(j, Skills, d.skills)
  }

  /** The records whose checks `validateForm` runs: every array section but socials. */
  function Checked(d: Draft, sec: Section): seq<Item>
    requires sec.IsArray()
  {
    if sec == Socials then [] else d.Items(sec)
  }

  /** A record passes every check `validateForm` runs on it. */
  ghost predicate RecordClean(sec: Section, item: Item) {
    && (forall f :: f in FormFields(sec) ==> Accepted(sec, f, Get(item, f)))
    && (sec == Personal ==> !IntroTooLong(item))
    && (sec == Experience ==> !DatesInverted(item))
  }

  /** The form may be saved: the personal record and every checked record are clean. */
  ghost predicate FormValid(d: Draft) {
    && RecordClean(Personal, d.personal)
    && forall sec: Section, i :: sec.IsArray() && 0 <= i < |Checked(d, sec)| ==> RecordClean(sec, Checked(d, sec)[i])
  }

  // ---------------------------------------------------------------------------
  // Lookups in the error map
  // ---------------------------------------------------------------------------

  lemma FieldLookup(acc: map<string, string>, prefix: string, sec: Section, item: Item, fields: seq<string>, k: string)
    ensures var r := AddFieldErrors(acc, prefix, sec, item, fields);
      var own := StartsWith(k, prefix) && k[|prefix|..] in fields && ValidateField(sec, k[|prefix|..], Get(item, k[|prefix|..])) != "";
      && (k in r <==> k in acc || own)
      && (k in r ==> r[k] == if own then ValidateField(sec, k[|prefix|..], Get(item, k[|prefix|..])) else acc[k])
  {
    if StartsWith(k, prefix) {
      var g := k[|prefix|..];
      assert k == prefix + g;
      FieldOwn(acc, prefix, sec, item, fields, g);
    } else {
      FieldForeign(acc, prefix, sec, item, fields, k);
    }
  }

  /** A key outside `prefix` passes through a record's field checks. */
  lemma {:induction false} FieldForeign(acc: map<string, string>, prefix: string, sec: Section, item: Item, fields: seq<string>, k: string)
    requires !StartsWith(k, prefix)
    ensures var r := AddFieldErrors(acc, prefix, sec, item, fields);
      && (k in r <==> k in acc)
      && (k in r ==> r[k] == acc[k])
    decreases |fields|
  {
    if fields != [] {
      var f := fields[|fields| - 1];
      FieldForeign(acc, prefix, sec, item, fields[..|fields| - 1], k);
      assert StartsWith(prefix + f, prefix);
    }
  }

  /** The key `prefix + g` holds the message of field `g` when `g` is checked
      and fails, and is otherwise left alone. */
  lemma {:induction false} FieldOwn(acc: map<string, string>, prefix: string, sec: Section, item: Item, fields: seq<string>, g: string)
    ensures var r := AddFieldErrors(acc, prefix, sec, item, fields);
      var k, msg := prefix + g, ValidateField(sec, g, Get(item, g));
      && (k in r <==> k in acc || (g in fields && msg != ""))
      && (k in r ==> r[k] == if g in fields && msg != "" then msg else acc[k])
    decreases |fields|
  {
    if fields != [] {
      var init, f := fields[..|fields| - 1], fields[|fields| - 1];
      var r0 := AddFieldErrors(acc, prefix, sec, item, init);
      FieldOwn(acc, prefix, sec, item, init, g);
      assert fields == init + [f];
      RecordAt(r0, prefix + f, ValidateField(sec, f, Get(item, f)), prefix + g);
      if prefix + g == prefix + f {
        assert g == (prefix + g)[|prefix|..] == (prefix + f)[|prefix|..] == f;
      }
    }
  }

  /** For a key under `prefix`, a record's checks add exactly its own message;
      any other key is left alone. */
  lemma RecordLookup(acc: map<string, string>, prefix: string, sec: Section, item: Item, k: string)
    ensures var r := RecordErrors(acc, prefix, sec, item);
      var own := StartsWith(k, prefix) && RecordMessage(sec, item, k[|prefix|..]) != "";
      && (k in r <==> k in acc || own)
      && (k in r ==> r[k] == if own then RecordMessage(sec, item, k[|prefix|..]) else acc[k])
  {
    FieldLookup(acc, prefix, sec, item, FormFields(sec), k);
    if sec == Personal && IntroTooLong(item) {
      ExtraLookup(AddFieldErrors(acc, prefix, sec, item, FormFields(sec)), prefix, "introduction", IntroTooLongMsg, k);
    } else if sec == Experience && DatesInverted(item) {
      ExtraLookup(AddFieldErrors(acc, prefix, sec, item, FormFields(sec)), prefix, "dates", DatesMsg, k);
    }
  }

  /** The extra check's key is under the prefix and no other key is touched. */
  lemma ExtraLookup(r: map<string, string>, prefix: string, f: string, msg: string, k: string)
    ensures k in r[prefix + f := msg] <==> k in r || (StartsWith(k, prefix) && k[|prefix|..] == f)
    ensures k in r[prefix + f := msg] ==> r[prefix + f := msg][k] == if StartsWith(k, prefix) && k[|prefix|..] == f then msg else r[k]
  {
    if StartsWith(k, prefix) {
      assert k == prefix + k[|prefix|..];
    }
    assert (prefix + f)[|prefix|..] == f;
  }

  /** A key outside a section's name space passes through its checks. */
  lemma {:induction false} SectionForeign(acc: map<string, string>, sec: Section, items: seq<Item>, k: string)
    requires !StartsWith(k, sec.Name() + ".")
    ensures var r := AddSectionErrors(acc, sec, items);
      && (k in r <==> k in acc)
      && (k in r ==> r[k] == acc[k])
    decreases |items|
  {
    if items != [] {
      var n := |items| - 1;
      SectionForeign(acc, sec, items[..n], k);
      RecordLookup(AddSectionErrors(acc, sec, items[..n]), ItemPrefix(sec, n), sec, items[n], k);
      assert ItemPrefix(sec, n) == sec.Name() + "." + (NatToString(n) + ".");
      StartsWithShorter(k, sec.Name() + ".", NatToString(n) + ".");
    }
  }

  /** The key of field `f` of record `i` carries the message of that record. */
  lemma {:induction false} SectionLookup(acc: map<string, string>, sec: Section, items: seq<Item>, i: nat, f: string)
    ensures var r := AddSectionErrors(acc, sec, items);
      var k := ItemKey(sec, i, f);
      var own := i < |items| && RecordMessage(sec, items[i], f) != "";
      && (k in r <==> k in acc || own)
      && (k in r ==> r[k] == if own then RecordMessage(sec, items[i], f) else acc[k])
    decreases |items|
  {
    if items != [] {
      var n := |items| - 1;
      var k := ItemKey(sec, i, f);
      var r0 := AddSectionErrors(acc, sec, items[..n]);
      assert AddSectionErrors(acc, sec, items) == RecordErrors(r0, ItemPrefix(sec, n), sec, items[n]);
      SectionLookup(acc, sec, items[..n], i, f);
      RecordLookup(r0, ItemPrefix(sec, n), sec, items[n], k);
      if i == n {
        assert StartsWith(k, ItemPrefix(sec, n));
        assert k[|ItemPrefix(sec, n)|..] == f;
      } else {
        if StartsWith(k, ItemPrefix(sec, n)) {
          PrefixOwner(sec, i, f, sec, n);
        }
        if i < n {
          assert items[..n][i] == items[i];
        }
      }
    }
  }

  /** One section's checks as seen from the key of field `f` of record `i` of
      section `sec`: its own section adds that record's message, any other
      passes the key through. */
  lemma StageLookup(acc: map<string, string>, s: Section, items: seq<Item>, sec: Section, i: nat, f: string)
    ensures var r := AddSectionErrors(acc, s, items);
      var k := ItemKey(sec, i, f);
      var own := s == sec && i < |items| && RecordMessage(sec, items[i], f) != "";
      && (k in r <==> k in acc || own)
      && (k in r ==> r[k] == if own then RecordMessage(sec, items[i], f) else acc[k])
  {
    if s == sec {
      SectionLookup(acc, s, items, i, f);
    } else {
      ItemKeySplit(sec, i, f);
      ForeignSection(sec, NatToString(i) + "." + f, s);
      SectionForeign(acc, s, items, ItemKey(sec, i, f));
    }
  }

  /** The entry for field `f` of record `i` of any array section: present exactly
      when the record is checked and fails that check, holding its message. */
  lemma FormErrorAt(d: Draft, sec: Section, i: nat, f: string)
    requires sec.IsArray()
    ensures var k := ItemKey(sec, i, f);
      && (k in FormErrors(d) <==> i < |Checked(d, sec)| && RecordMessage(sec, Checked(d, sec)[i], f) != "")
      && (k in FormErrors(d) ==> FormErrors(d)[k] == RecordMessage(sec, d.Items(sec)[i], f))
  {
    var k := ItemKey(sec, i, f);
    ItemKeySplit(sec, i, f);
    var p := RecordErrors(map[], PersonalPrefix, Personal, d.personal);
    var e := AddSectionErrors(p, Education, d.education);
    var x := AddSectionErrors(e, Experience, d.experience);
    var j := AddSectionErrors(x, Projects, d.projects);
    NameFacts(Personal);
    ForeignSection(sec, NatToString(i) + "." + f, Personal);
    RecordLookup(map[], PersonalPrefix, Personal, d.personal, k);
    StageLookup(p, Education, d.education, sec, i, f);
    StageLookup(e, Experience, d.experience, sec, i, f);
    StageLookup(x, Projects, d.projects, sec, i, f);
    StageLookup(j, Skills, d.skills, sec, i, f);
  }

  /** The entry for a personal field: present exactly when that field fails its
      check (or, for the introduction, is too long), holding its message. */
  lemma FormPersonalErrorAt(d: Draft, f: string)
    ensures var k := PersonalKey(f);
      && (k in FormErrors(d) <==> RecordMessage(Personal, d.personal, f) != "")
      && (k in FormErrors(d) ==> FormErrors(d)[k] == RecordMessage(Personal, d.personal, f))
  {
    var k := PersonalKey(f);
    var p := RecordErrors(map[], PersonalPrefix, Personal, d.personal);
    var e := AddSectionErrors(p, Education, d.education);
    var x := AddSectionErrors(e, Experience, d.experience);
    var j := AddSectionErrors(x, Projects, d.projects);
    NameFacts(Personal);
    assert k == Personal.Name() + "." + f;
    RecordLookup(map[], PersonalPrefix, Personal, d.personal, k);
    assert k[|PersonalPrefix|..] == f;
    ForeignSection(Personal, f, Education);
    ForeignSection(Personal, f, Experience);
    ForeignSection(Personal, f, Projects);
    ForeignSection(Personal, f, Skills);
    SectionForeign(p, Education, d.education, k);
    SectionForeign(e, Experience, d.experience, k);
    SectionForeign(x, Projects, d.projects, k);
    SectionForeign(j, Skills, d.skills, k);
  }

  /** `experience.i.dates` is reported exactly for a record with both dates
      given and the joining date after the leaving date. */
  lemma DatesErrorIff(d: Draft, i: nat)
    ensures ItemKey(Experience, i, "dates") in FormErrors(d) <==> i < |d.experience| && DatesInverted(d.experience[i])
  {
    FormErrorAt(d, Experience, i, "dates");
  }

  /** Keys that `validateForm` never writes: any socials key, a project's team
      size, any description. A stale entry under one of them is gone after
      the map is rebuilt. */
  lemma NeverRebuiltKeys(d: Draft, i: nat, f: string)
    ensures ItemKey(Socials, i, f) !in FormErrors(d)
    ensures ItemKey(Projects, i, "teamSize") !in FormErrors(d)
    ensures forall sec: Section :: sec.IsArray() ==> ItemKey(sec, i, "description") !in FormErrors(d)
  {
    FormErrorAt(d, Socials, i, f);
    FormErrorAt(d, Projects, i, "teamSize");
    forall sec: Section | sec.IsArray()
      ensures ItemKey(sec, i, "description") !in FormErrors(d)
    {
      FormErrorAt(d, sec, i, "description");
    }
  }

  lemma {:induction false} FieldErrorsClean(acc: map<string, string>, prefix: string, sec: Section, item: Item, fields: seq<string>)
    requires forall f :: f in fields ==> Accepted(sec, f, Get(item, f))
    ensures AddFieldErrors(acc, prefix, sec, item, fields) == acc
    decreases |fields|
  {
    if fields != [] {
      assert fields[|fields| - 1] in fields;
      FieldErrorsClean(acc, prefix, sec, item, fields[..|fields| - 1]);
    }
  }

  lemma {:induction false} SectionErrorsClean(acc: map<string, string>, sec: Section, items: seq<Item>)
    requires forall i :: 0 <= i < |items| ==> RecordClean(sec, items[i])
    ensures AddSectionErrors(acc, sec, items) == acc
    decreases |items|
  {
    if items != [] {
      var n := |items| - 1;
      SectionErrorsClean(acc, sec, items[..n]);
      assert RecordClean(sec, items[n]);
      FieldErrorsClean(acc, ItemPrefix(sec, n), sec, items[n], FormFields(sec));
    }
  }

  /** The map is empty exactly when the form is valid; socials and team sizes
      play no part in it. */
  lemma FormValidIff(d: Draft)
    ensures FormErrors(d) == map[] <==> FormValid(d)
  {
    if FormValid(d) {
      FieldErrorsClean(map[], PersonalPrefix, Personal, d.personal, FormFields(Personal));
      forall sec: Section | sec.IsArray()
        ensures forall i :: 0 <= i < |Checked(d, sec)| ==> RecordClean(sec, Checked(d, sec)[i])
      {
      }
      var p := RecordErrors(map[], PersonalPrefix, Personal, d.personal);
      SectionErrorsClean(p, Education, Checked(d, Education));
      SectionErrorsClean(p, Experience, Checked(d, Experience));
      SectionErrorsClean(p, Projects, Checked(d, Projects));
      SectionErrorsClean(p, Skills, Checked(d, Skills));
    }
    if FormErrors(d) == map[] {
      forall f | f in FormFields(Personal)
        ensures Accepted(Personal, f, Get(d.personal, f))
      {
        FormPersonalErrorAt(d, f);
      }
      FormPersonalErrorAt(d, "introduction");
      forall sec: Section, i | sec.IsArray() && 0 <= i < |Checked(d, sec)|
        ensures RecordClean(sec, Checked(d, sec)[i])
      {
        forall f | f in FormFields(sec)
          ensures Accepted(sec, f, Get(Checked(d, sec)[i], f))
        {
          FormErrorAt(d, sec, i, f);
        }
        FormErrorAt(d, sec, i, "dates");
      }
    }
  }
}
