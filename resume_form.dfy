/** The state and the handlers of the resume form
    (client/src/pages/ResumeBuilder.jsx): the draft, the error map, the layout
    options and the image bookkeeping, the live checks of the change and blur
    handlers, the whole-form check and the two submit handlers. */
module ResumeForm {
  import opened Common
  import opened Validators
  import opened ResumeDraft
  import opened FormEncoding

  /** The résumé passed in the navigation state when an existing one is edited;
      a property the server did not send is `None`. */
  datatype CvData = CvData(
    id: string,
    personal: Option<Item>,
    education: Option<seq<Item>>,
    experience: Option<seq<Item>>,
    projects: Option<seq<Item>>,
    skills: Option<seq<Item>>,
    socials: Option<seq<Item>>,
    layoutOptions: Option<Item>,
    layoutChoice: Field)

  /** `v || dflt` for an object- or array-valued property, which is truthy whenever present. */
  function OrDefault<T>(o: Option<T>, dflt: T): T {
    if o.Some? then o.value else dflt
  }

  /** The request a submit handler sends. */
  datatype Request = Request(verb: string, path: string, body: seq<Part>)

  /** `${index}` of the blur handler, where the personal field passes `null`. */
  function IndexText(index: Option<nat>): string {
    if index.Some? then NatToString(index.value) else "null"
  }

  /** The key the blur handler sets or clears: `${section}.${index}.${field}`. */
  function BlurKey(sec: Section, index: Option<nat>, field: string): (k: string)
    ensures index.Some? ==> k == ItemKey(sec, index.value, field)
  {
    sec.Name() + "." + IndexText(index) + "." + field
  }

  /** A value the blur handler reports as too long: truthy and over `limit` characters. */
  predicate TooLong(v: Field, limit: nat) {
    Truthy(v) && |v.s| > limit
  }

  /** The live check of a field agrees with what the whole-form check records for it. */
  lemma LiveAgreesWithForm(d: Draft, sec: Section, i: nat, f: string)
    requires sec.IsArray() && i < |d.Items(sec)| && f in FormFields(sec)
    ensures var k, msg := ItemKey(sec, i, f), ValidateField(sec, f, Get(d.Items(sec)[i], f));
      && (k in FormErrors(d) <==> msg != "")
      && (k in FormErrors(d) ==> FormErrors(d)[k] == msg)
  {
    FormErrorAt(d, sec, i, f);
    assert Checked(d, sec) == d.Items(sec);
  }

  /** After `handleArrayChange` in a field the whole-form check runs, the
      field is live-checked, and its entry in the error map is then what the
      whole-form check records for it. */
  lemma ArrayChangeAgrees(errs: map<string, string>, d: Draft, sec: Section, i: nat, f: string, value: string)
    requires sec.IsArray() && i < |d.Items(sec)| && f in FormFields(sec)
    ensures f in LiveFields(sec)
    ensures var d' := d.WithItems(sec, d.Items(sec)[i := d.Items(sec)[i][f := Str(value)]]);
      var k := ItemKey(sec, i, f);
      var e' := SetError(errs, k, ValidateField(sec, f, Str(value)));
      && (k in e' <==> k in FormErrors(d'))
      && (k in e' ==> e'[k] == FormErrors(d')[k])
  {
    var d' := d.WithItems(sec, d.Items(sec)[i := d.Items(sec)[i][f := Str(value)]]);
    assert Get(d'.Items(sec)[i], f) == Str(value);
    LiveAgreesWithForm(d', sec, i, f);
  }

  lemma LivePersonalAgreesWithForm(d: Draft, f: string)
    requires f in FormFields(Personal)
    ensures var k, msg := PersonalKey(f), ValidateField(Personal, f, Get(d.personal, f));
      && (k in FormErrors(d) <==> msg != "")
      && (k in FormErrors(d) ==> FormErrors(d)[k] == msg)
  {
    FormPersonalErrorAt(d, f);
  }

  lemma IntroAgreesWithForm(d: Draft)
    ensures var k := PersonalKey("introduction");
      && (k in FormErrors(d) <==> IntroTooLong(d.personal))
      && (k in FormErrors(d) ==> FormErrors(d)[k] == IntroTooLongMsg)
  {
    FormPersonalErrorAt(d, "introduction");
  }

  // ---------------------------------------------------------------------------
  // validateForm, one loop per `forEach`
  // ---------------------------------------------------------------------------

  lemma FieldErrorsStep(acc: map<string, string>, prefix: string, sec: Section, item: Item, fields: seq<string>, j: nat)
    requires j < |fields|
    ensures AddFieldErrors(acc, prefix, sec, item, fields[..j + 1])
      == Record(AddFieldErrors(acc, prefix, sec, item, fields[..j]), prefix + fields[j], ValidateField(sec, fields[j], Get(item, fields[j])))
  {
    var fs, f := fields[..j + 1], fields[j];
    assert fs[..|fs| - 1] == fields[..j] && fs[|fs| - 1] == f;
    assert AddFieldErrors(acc, prefix, sec, item, fs)
      == Record(AddFieldErrors(acc, prefix, sec, item, fields[..j]), prefix + f, ValidateField(sec, f, Get(item, f)));
  }

  /** `fields.forEach(f => ...)` over one record. */
  method CheckFields(acc: map<string, string>, prefix: string, sec: Section, item: Item, fields: seq<string>)
    returns (r: map<string, string>)
    ensures r == AddFieldErrors(acc, prefix, sec, item, fields)
  {
    r := acc;
    var j := 0;
    while j < |fields|
      invariant 0 <= j <= |fields|
      invariant r == AddFieldErrors(acc, prefix, sec, item, fields[..j])
    {
      var f := fields[j];
      var msg := ValidateField(sec, f, Get(item, f));
      FieldErrorsStep(acc, prefix, sec, item, fields, j);
      if msg != "" {
        r := r[prefix + f := msg];
      }
      j := j + 1;
    }
    assert fields[..j] == fields;
  }

  /** The checks of one record, with the introduction or date-order check after them. */
  method CheckRecord(acc: map<string, string>, prefix: string, sec: Section, item: Item)
    returns (r: map<string, string>)
    ensures r == RecordErrors(acc, prefix, sec, item)
  {
    r := CheckFields(acc, prefix, sec, item, FormFields(sec));
    if sec == Personal && IntroTooLong(item) {
      r := r[prefix + "introduction" := IntroTooLongMsg];
    } else if sec == Experience && DatesInverted(item) {
      r := r[prefix + "dates" := DatesMsg];
    }
  }

  /** `items.forEach((it, i) => ...)` over one section. */
  method CheckSection(acc: map<string, string>, sec: Section, items: seq<Item>)
    returns (r: map<string, string>)
    ensures r == AddSectionErrors(acc, sec, items)
  {
    r := acc;
    var i := 0;
    while i < |items|
      invariant 0 <= i <= |items|
      invariant r == AddSectionErrors(acc, sec, items[..i])
    {
      assert items[..i + 1][..i] == items[..i];
      r := CheckRecord(r, ItemPrefix(sec, i), sec, items[i]);
      i := i + 1;
    }
    assert items[..i] == items;
  }

  /** The error map `validateForm` builds from nothing. */
  method BuildErrors(d: Draft) returns (r: map<string, string>)
    ensures r == FormErrors(d)
  {
    r := CheckRecord(map[], PersonalPrefix, Personal, d.personal);
    r := CheckSection(r, Education, d.education);
    r := CheckSection(r, Experience, d.experience);
    r := CheckSection(r, Projects, d.projects);
    r := CheckSection(r, Skills, d.skills);
  }

  /** A new record appended by the experience "add" button has no `ctc`, so the
      form cannot be saved until one is typed in. */
  lemma AddedExperienceBlocksSave(d: Draft)
    ensures var d' := d.WithItems(Experience, d.experience + [AddTemplate(Experience)]);
      var k := ItemKey(Experience, |d.experience|, "ctc");
      && k in FormErrors(d') && FormErrors(d')[k] == "CTC is required"
      && !FormValid(d')
  {
    var d' := d.WithItems(Experience, d.experience + [AddTemplate(Experience)]);
    var n := |d.experience|;
    var t := AddTemplate(Experience);
    assert d'.Items(Experience)[n] == t;
    assert "ctc" !in t;
    assert ValidateField(Experience, "ctc", Get(t, "ctc")) == "CTC is required";
    LiveAgreesWithForm(d', Experience, n, "ctc");
    FormValidIff(d');
  }

  /** Until they are typed in, such a record's `location` and `ctc` would be sent
      as the text "undefined". */
  lemma AddedExperienceSendsUndefined(d: Draft, layout: Item, layoutChoice: string, file: Option<string>, originalImagePath: Field, update: bool)
    ensures var d' := d.WithItems(Experience, d.experience + [AddTemplate(Experience)]);
      var n := |d.experience|;
      var body := Payload(d', layout, layoutChoice, file, originalImagePath, update);
      && Part(Element(Experience, n, "ctc"), Text("undefined")) in body
      && Part(Element(Experience, n, "location"), Text("undefined")) in body
  {
    var d' := d.WithItems(Experience, d.experience + [AddTemplate(Experience)]);
    var n := |d.experience|;
    var t := AddTemplate(Experience);
    assert d'.Items(Experience)[n] == t;
    assert "ctc" !in t && "location" !in t;
    assert "ctc" in SentFields(Experience) && "location" in SentFields(Experience);
    PayloadCarries(d', layout, layoutChoice, file, originalImagePath, update, Experience, n, "ctc");
    PayloadCarries(d', layout, layoutChoice, file, originalImagePath, update, Experience, n, "location");
  }

  /** The state of the form page. */
  class ResumeBuilder {
    var data: Draft
    var errors: map<string, string>
    var layout: Item
    var layoutChoice: string
    /** The stored image path of the résumé being edited. */
    var originalImagePath: Field
    /** The file chosen in the image input (`data.personal._imageFile`). */
    var imageFile: Option<string>
    /** `newData._id`: the id of the résumé being edited. */
    var editingId: Option<string>

    constructor ()
      ensures data == EmptyState() && errors == map[]
      ensures layout == DefaultLayout() && layoutChoice == DefaultLayoutChoice
      ensures originalImagePath == Absent && imageFile == None && editingId == None
    {
      data := EmptyState();
      errors := map[];
      layout := DefaultLayout();
      layoutChoice := DefaultLayoutChoice;
      originalImagePath := Absent;
      imageFile := None;
      editingId := None;
    }

    /** The effect that loads a résumé to edit: each part of the draft falls
        back to the empty form when missing (`cv.x || emptyState.x`; an object or
        an array, even an empty one, is truthy), the stored image path is kept
        when there is one, and the layout falls back to the current options. */
    method LoadCv(cv: CvData)
      modifies this
      ensures data == Draft(OrDefault(cv.personal, EmptyState().personal), OrDefault(cv.education, EmptyState().education),
                            OrDefault(cv.experience, EmptyState().experience), OrDefault(cv.projects, EmptyState().projects),
                            OrDefault(cv.skills, EmptyState().skills), OrDefault(cv.socials, EmptyState().socials))
      ensures layout == OrDefault(cv.layoutOptions, old(layout))
      ensures layoutChoice == OrElse(cv.layoutChoice, DefaultLayoutChoice)
      ensures var img := if cv.personal.Some? then Get(cv.personal.value, "image") else Absent;
        originalImagePath == if Truthy(img) then img else old(originalImagePath)
      ensures imageFile == None && editingId == Some(cv.id) && errors == old(errors)
    {
      editingId := Some(cv.id);
      if cv.personal.Some? && Truthy(Get(cv.personal.value, "image")) {
        originalImagePath := Get(cv.personal.value, "image");
      }
      var empty := EmptyState();
      data := Draft(OrDefault(cv.personal, empty.personal), OrDefault(cv.education, empty.education),
                    OrDefault(cv.experience, empty.experience), OrDefault(cv.projects, empty.projects),
                    OrDefault(cv.skills, empty.skills), OrDefault(cv.socials, empty.socials));
      imageFile := None;
      layout := OrDefault(cv.layoutOptions, layout);
      layoutChoice := OrElse(cv.layoutChoice, DefaultLayoutChoice);
    }

    /** `setFieldError(key, message)` */
    method SetFieldError(key: string, message: string)
      modifies this
      ensures errors == SetError(old(errors), key, message)
      ensures data == old(data) && layout == old(layout) && layoutChoice == old(layoutChoice)
      ensures originalImagePath == old(originalImagePath) && imageFile == old(imageFile) && editingId == old(editingId)
    {
      errors := SetError(errors, key, message);
    }

    /** A keystroke in a personal field. The field's entry in the error map is
        then what the whole-form check would record for it; no other entry changes. */
    method HandlePersonalChange(name: string, value: string)
      modifies this
      ensures data == old(data).(personal := old(data).personal[name := Str(value)])
      ensures name in FormFields(Personal) || name == "introduction" ==>
        var k := PersonalKey(name);
        && (k in errors <==> k in FormErrors(data))
        && (k in errors ==> errors[k] == FormErrors(data)[k])
      ensures forall k :: k != PersonalKey(name) ==> (k in errors <==> k in old(errors))
      ensures forall k :: k != PersonalKey(name) && k in errors ==> errors[k] == old(errors)[k]
      ensures !(name in FormFields(Personal) || name == "introduction") ==> errors == old(errors)
      ensures layout == old(layout) && layoutChoice == old(layoutChoice)
      ensures originalImagePath == old(originalImagePath) && imageFile == old(imageFile) && editingId == old(editingId)
    {
      data := data.(personal := data.personal[name := Str(value)]);
      if name in FormFields(Personal) {
        var msg := ValidateField(Personal, name, Str(value));
        SetFieldError(PersonalKey(name), msg);
        LivePersonalAgreesWithForm(data, name);
      }
      if name == "introduction" {
        assert PersonalKey(name) == "personal.introduction";
        if value != "" && |value| > 2000 {
          SetFieldError("personal.introduction", IntroTooLongMsg);
        } else {
          SetFieldError("personal.introduction", "");
        }
        IntroAgreesWithForm(data);
      }
    }

    /** A keystroke in field `field` of record `index`. Only that record
        changes, and only a live-checked field's error entry is updated; for a
        field the whole-form check also runs, `ArrayChangeAgrees` shows the
        entry then agrees with that check. */
    method HandleArrayChange(sec: Section, index: nat, field: string, value: string)
      requires sec.IsArray() && index < |data.Items(sec)|
      modifies this
      ensures data == old(data).WithItems(sec, old(data).Items(sec)[index := old(data).Items(sec)[index][field := Str(value)]])
      ensures |data.Items(sec)| == |old(data).Items(sec)|
      ensures forall j :: 0 <= j < |data.Items(sec)| && j != index ==> data.Items(sec)[j] == old(data).Items(sec)[j]
      ensures errors == if field in LiveFields(sec) then SetError(old(errors), ItemKey(sec, index, field), ValidateField(sec, field, Str(value))) else old(errors)
      ensures layout == old(layout) && layoutChoice == old(layoutChoice)
      ensures originalImagePath == old(originalImagePath) && imageFile == old(imageFile) && editingId == old(editingId)
    {
      var items := data.Items(sec);
      data := data.WithItems(sec, items[index := items[index][field := Str(value)]]);
      if field in LiveFields(sec) {
        SetFieldError(ItemKey(sec, index, field), ValidateField(sec, field, Str(value)));
      }
    }

    /** An "add" button: one more record at the end of the section. */
    method AddArrayItem(sec: Section, item: Item)
      requires sec.IsArray()
      modifies this
      ensures data == old(data).WithItems(sec, old(data).Items(sec) + [item])
      ensures |data.Items(sec)| == |old(data).Items(sec)| + 1
      ensures data.Items(sec)[..|old(data).Items(sec)|] == old(data).Items(sec)
      ensures errors == old(errors) && layout == old(layout) && layoutChoice == old(layoutChoice)
      ensures originalImagePath == old(originalImagePath) && imageFile == old(imageFile) && editingId == old(editingId)
    {
      data := data.WithItems(sec, data.Items(sec) + [item]);
      assert data.Items(sec)[..|old(data).Items(sec)|] == old(data).Items(sec);
    }

    /** The value the blur handler checks. */
    function BlurValue(sec: Section, index: Option<nat>, field: string): Field
      reads this
      requires sec == Personal || (index.Some? && index.value < |data.Items(sec)|)
    {
      if sec == Personal then Get(data.personal, field) else Get(data.Items(sec)[index.value], field)
    }

    /** Leaving a field. A too-long introduction or experience description
        sets its error; otherwise the field's entry under `section.index.field`
        is set or cleared by `validateField`. The personal introduction is
        blurred with a `null` index, so its entry is never cleared here. */
    method HandleBlur(sec: Section, index: Option<nat>, field: string)
      requires sec == Personal || (index.Some? && index.value < |data.Items(sec)|)
      modifies this
      ensures var v := old(BlurValue(sec, index, field));
        if sec == Personal && field == "introduction" && TooLong(v, 2000) then
          errors == SetError(old(errors), PersonalKey("introduction"), IntroTooLongMsg)
        else if sec == Experience && field == "description" && TooLong(v, 1500) then
          errors == SetError(old(errors), ItemKey(Experience, index.value, "description"), DescriptionTooLongMsg)
        else
          errors == SetError(old(errors), BlurKey(sec, index, field), ValidateField(sec, field, v))
      ensures sec.IsArray() && field in FormFields(sec) ==>
        var k := ItemKey(sec, index.value, field);
        && (k in errors <==> k in FormErrors(data))
        && (k in errors ==> errors[k] == FormErrors(data)[k])
      ensures sec == Experience && field == "description" ==>
        (ItemKey(Experience, index.value, "description") in errors <==> TooLong(old(BlurValue(sec, index, field)), 1500))
      ensures sec == Personal && field == "introduction" && index == None ==>
        (PersonalKey("introduction") in errors <==> PersonalKey("introduction") in old(errors) || IntroTooLong(data.personal))
      ensures data == old(data) && layout == old(layout) && layoutChoice == old(layoutChoice)
      ensures originalImagePath == old(originalImagePath) && imageFile == old(imageFile) && editingId == old(editingId)
    {
      var value := BlurValue(sec, index, field);
      if sec == Personal && field == "introduction" && Truthy(value) && |value.s| > 2000 {
        assert PersonalKey("introduction") == "personal.introduction";
        SetFieldError("personal.introduction", IntroTooLongMsg);
      } else if sec == Experience && field == "description" && Truthy(value) && |Interp(value)| > 1500 {
        SetFieldError(ItemKey(Experience, index.value, "description"), DescriptionTooLongMsg);
      } else {
        if sec.IsArray() && field in FormFields(sec) {
          LiveAgreesWithForm(data, sec, index.value, field);
        }
        if sec == Personal && field == "introduction" && index == None {
          assert BlurKey(sec, index, field) != PersonalKey("introduction") by {
            assert BlurKey(sec, index, field)[9] == 'n' && PersonalKey("introduction")[9] == 'i';
          }
        }
        SetFieldError(BlurKey(sec, index, field), ValidateField(sec, field, value));
      }
    }

    /** A file chosen in the image input: its data URL becomes the preview
        image and the file is kept for upload; no file, no change. */
    method HandleImageChange(file: Option<string>, dataUrl: string)
      modifies this
      ensures file.None? ==> data == old(data) && imageFile == old(imageFile)
      ensures file.Some? ==> data == old(data).(personal := old(data).personal["image" := Str(dataUrl)]) && imageFile == file
      ensures errors == old(errors) && layout == old(layout) && layoutChoice == old(layoutChoice)
      ensures originalImagePath == old(originalImagePath) && editingId == old(editingId)
    {
      if file.None? {
        return;
      }
      data := data.(personal := data.personal["image" := Str(dataUrl)]);
      imageFile := file;
    }

    /** `setLayoutOptions({ ...layoutOptions, [name]: value })` */
    method HandleLayoutChange(name: string, value: string)
      modifies this
      ensures layout == old(layout)[name := Str(value)]
      ensures forall k :: k != name ==> Get(layout, k) == Get(old(layout), k)
      ensures data == old(data) && errors == old(errors) && layoutChoice == old(layoutChoice)
      ensures originalImagePath == old(originalImagePath) && imageFile == old(imageFile) && editingId == old(editingId)
    {
      layout := layout[name := Str(value)];
    }

    /** The layout select: `setLayoutChoice(e.target.value)`; only the layout
        choice changes. */
    method HandleLayoutChoice(value: string)
      modifies this
      ensures layoutChoice == value
      ensures data == old(data) && errors == old(errors) && layout == old(layout)
      ensures originalImagePath == old(originalImagePath) && imageFile == old(imageFile) && editingId == old(editingId)
    {
      layoutChoice := value;
    }

    /** `validateForm`: the error map is replaced by the one built from the
        draft, and the answer is whether that map is empty, that is, whether
        the draft passes every check. */
    method ValidateForm() returns (ok: bool)
      modifies this
      ensures errors == FormErrors(data)
      ensures ok <==> FormValid(data)
      ensures data == old(data) && layout == old(layout) && layoutChoice == old(layoutChoice)
      ensures originalImagePath == old(originalImagePath) && imageFile == old(imageFile) && editingId == old(editingId)
    {
      var newErrors := BuildErrors(data);
      errors := newErrors;
      ok := |newErrors| == 0;
      FormValidIff(data);
      if !ok {
        assert newErrors != map[];
      }
    }

    /** `handleSaveResume`: nothing is sent unless the form is valid; then the
        body is the create encoding. */
    method HandleSaveResume() returns (req: Option<Request>)
      modifies this
      ensures errors == FormErrors(data)
      ensures req.Some? <==> FormValid(data)
      ensures req.Some? ==> req.value == Request("POST", "/api/resume", Payload(data, layout, layoutChoice, imageFile, originalImagePath, false))
      ensures data == old(data) && layout == old(layout) && layoutChoice == old(layoutChoice)
      ensures originalImagePath == old(originalImagePath) && imageFile == old(imageFile) && editingId == old(editingId)
    {
      var ok := ValidateForm();
      if !ok {
        return None;
      }
      var body := Encode(data, layout, layoutChoice, imageFile, originalImagePath, false);
      req := Some(Request("POST", "/api/resume", body));
    }

    /** `handleUpdate(id)`: nothing is sent unless the form is valid and the
        user confirms; then the body is the update encoding. */
    method HandleUpdate(id: string, confirmed: bool) returns (req: Option<Request>)
      modifies this
      ensures errors == FormErrors(data)
      ensures req.Some? <==> FormValid(data) && confirmed
      ensures req.Some? ==> req.value == Request("PUT", "/api/resume/" + id, Payload(data, layout, layoutChoice, imageFile, originalImagePath, true))
      ensures data == old(data) && layout == old(layout) && layoutChoice == old(layoutChoice)
      ensures originalImagePath == old(originalImagePath) && imageFile == old(imageFile) && editingId == old(editingId)
    {
      var ok := ValidateForm();
      if !ok {
        return None;
      }
      if !confirmed {
        return None;
      }
      var body := Encode(data, layout, layoutChoice, imageFile, originalImagePath, true);
      req := Some(Request("PUT", "/api/resume/" + id, body));
    }
  }
}
