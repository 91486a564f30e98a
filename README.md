# CVs — a verified model of the résumé builder

CVs is a web application for writing résumés. A React client holds the
résumé form, the registration page and a dashboard of saved résumés. An
Express/Mongoose server stores the résumés for their owners, pages through
them, exports them as PDF and shares them publicly after a Razorpay payment.

This project models the logic of that application in Dafny and proves what
that logic promises:

- **The per-field validators of the résumé form.** They are written as
  predicates on strings. The e-mail pattern is unanchored. Percentages and
  numbers use exact decimal arithmetic. Calendar dates use the ISO 8601
  `YYYY-MM-DD` form with a month from 01 to 12 and a day from 01 to 31.
- **The form's state as a class.** It holds the draft, the error map keyed
  by `section.index.field`, the layout options and the image bookkeeping.
  The three kinds of check are related to each other:
  - the live check on each keystroke;
  - the check on blur;
  - the whole-form check that rebuilds the error map from nothing.
- **The multipart encoding of the save and update requests.** Its field
  names are `personal[f]`, `section[i][f]` and `layoutOptions[f]`, and it
  follows the create-versus-update image rule.
- **The registration form.** It covers the contact-number input filter, the
  ordered first-failure check and the submit gate.
- **The résumé handlers of the server.** They cover:
  - the `parseInt`-based paging;
  - the image path written on create and update;
  - the owner and share paths a request body may carry on create and update;
  - get, update and delete, scoped to the owner;
  - the public shared lookup;
  - the sequence of text lines of the PDF export.
- **The payment handlers.**
  - Order creation.
  - The verify transition over the order status `created`/`paid`/`failed`.
  - The share token made from 32 random bytes.
- **The dashboard's list bookkeeping.** It covers appending a fetched page,
  the per-card image requests, the infinite-scroll guard, deletion, and the
  share link.
- **The preview's image address.**

Files (one module each):

| file | module |
|---|---|
| `common.dfy` | JavaScript values: `undefined`, truthiness, `\|\|`, `trim`, digits, number formatting |
| `validators.dfy` | `validateRequired` … `validateField` |
| `iso_date.dfy` | string order of ISO dates is chronological order |
| `draft.dfy` | the draft, templates, error keys, `setFieldError`, the whole-form error map |
| `form_encoder.dfy` | the `FormData` encoding |
| `resume_form.dfy` | the form page as a class with its handlers |
| `register.dfy` | the registration page |
| `resume_server.dfy` | the résumé controller and the store |
| `payment.dfy` | the payment controller and the orders collection |
| `dashboard.dfy` | the dashboard page |
| `cv_preview.dfy` | `getImageUrl` |

Modelling conventions:

- A property value is `Field = Absent | Str(s)`, where `Absent` stands for
  `undefined`/`null`. A record is a map from property names to values.
- Handlers that update React state are methods of a class whose fields are
  that state. Each method states its whole new state.
- Each `forEach` is a loop proved against a function that folds the same
  list.
- HTTP replies, confirmations, the clock, random bytes and the HMAC reach
  the model as parameters.

## Model

| member | source | states |
|---|---|---|
| Validators.ValidateRequired | client/src/pages/ResumeBuilder.jsx:134-138 | accepts exactly a present value that is not all white space; otherwise the message is the caption followed by " is required" |
| Common.TrimEmptyIffBlank | client/src/pages/ResumeBuilder.jsx:136 | trimming leaves nothing exactly when the string is all white space |
| Validators.EmailTestIsPattern | client/src/pages/ResumeBuilder.jsx:120-125 | the one-character check around '@' and '.' holds exactly when the value contains some X@Y.Z with X, Y, Z non-empty and white-space free |
| Validators.EmailTestSound | client/src/pages/ResumeBuilder.jsx:123 | a one-character match around the '@' and the '.' is a match of the pattern |
| Validators.EmailTestComplete | client/src/pages/ResumeBuilder.jsx:123 | every match of the pattern contains a one-character match |
| Validators.ValidateEmail | client/src/pages/ResumeBuilder.jsx:120-125 | an empty value gives "Email is required"; otherwise "" exactly when some substring has the shape X@Y.Z; an accepted value contains '@' |
| Validators.EmailIsUnanchored | client/src/pages/ResumeBuilder.jsx:123 | a value with text before and after the address, white space included, is accepted |
| Validators.ValidatePhone | client/src/pages/ResumeBuilder.jsx:127-132 | "" exactly for ten digits; required, then digits-only, then length, each with its own message |
| Validators.DotIndex | client/src/pages/ResumeBuilder.jsx:149 | the index of the first '.', or the length when there is none |
| Validators.DecimalParts | client/src/pages/ResumeBuilder.jsx:149 | a string matching `^\d+(\.\d+)?$` splits at its first dot into digits and an optional digit fraction |
| Validators.FracValueBounds | client/src/pages/ResumeBuilder.jsx:150 | a fraction's value lies in [0, 1) and is zero exactly when all its digits are 0 |
| Validators.DecimalAtMostHundred | client/src/pages/ResumeBuilder.jsx:150-151 | the number of a decimal string is never negative, and is at most 100 exactly when its integer part is below 100, or is 100 with a zero fraction |
| Validators.ValidatePositiveNumber | client/src/pages/ResumeBuilder.jsx:140-145 | "" exactly for a decimal string; an empty value is required, a non-decimal one "must be a positive number" |
| Validators.ValidatePercentage | client/src/pages/ResumeBuilder.jsx:147-153 | "" exactly for a decimal string whose value is at most 100; empty and non-numeric values get their own messages |
| Validators.RejectedPercentages | client/src/pages/ResumeBuilder.jsx:147-153 | "85%", "N/A" and "-5" are not numbers, "101" is out of range |
| Validators.NotDecimal | client/src/pages/ResumeBuilder.jsx:149 | a string with a character other than a digit or '.' never matches the decimal pattern |
| Validators.ValidatePincode | client/src/pages/ResumeBuilder.jsx:164-168 | "" exactly for a non-empty digit string; a missing or empty value gets "Pincode is required", any other failure "Pincode must be numeric" |
| Validators.ValidateSkillLevel | client/src/pages/ResumeBuilder.jsx:202-207 | "" exactly for a digit string whose value is at most 100; a missing or empty value is "required", a non-integer "must be an integer 0-100", and a value above 100 "must be between 0 and 100" |
| Validators.ValidateField | client/src/pages/ResumeBuilder.jsx:156-219 | "" exactly when the value meets the section's rule for that field; team size and social links are checked only when given; fields without a rule pass |
| Validators.RejectedFieldExamples | client/src/pages/ResumeBuilder.jsx:127-160 | an empty name is required and a nine-digit phone is "Phone must be 10 digits" |
| Validators.RejectedEmailAndLevel | client/src/pages/ResumeBuilder.jsx:159-207 | an address without '@' is invalid and skill level 101 is out of range |
| IsoDate.AfterIsChronological | client/src/pages/ResumeBuilder.jsx:251-253 | for two `YYYY-MM-DD` dates with month 01-12 and day 01-31, the string order says "later" exactly when the date is later by year, then month, then day |
| IsoDate.MonthOutOfCalendar | client/src/pages/ResumeBuilder.jsx:251 | "2020-13-01" makes an invalid date, so it is never later than another date |
| IsoDate.DayOutOfCalendar | client/src/pages/ResumeBuilder.jsx:251 | day 00 or day 32 makes an invalid date on either side of the comparison |
| IsoDate.DigitCompare | client/src/pages/ResumeBuilder.jsx:251 | for equally long digit strings, string order agrees with numeric order |
| ResumeDraft.Draft.WithItems | client/src/pages/ResumeBuilder.jsx:303 | replacing one section's records leaves the personal record and every other section as they were |
| ResumeDraft.Blank | client/src/pages/ResumeBuilder.jsx:10-46 | the template has exactly the listed properties, each the empty string |
| ResumeDraft.SetError | client/src/pages/ResumeBuilder.jsx:110-118 | an empty message removes the key, any other message is stored under it, and every other entry is unchanged |
| ResumeDraft.SetErrorLastWins | client/src/pages/ResumeBuilder.jsx:110-118 | of two updates of one key only the last counts, so repeating an update changes nothing |
| ResumeDraft.SetErrorCommutes | client/src/pages/ResumeBuilder.jsx:110-118 | updates of different keys can be applied in either order |
| ResumeDraft.ItemKeyInjective | client/src/pages/ResumeBuilder.jsx:240 | an error key `section.i.field` determines its section, index and field |
| ResumeDraft.PrefixOwner | client/src/pages/ResumeBuilder.jsx:237-268 | a record's error key starts with no other record's prefix |
| ResumeDraft.ForeignSection | client/src/pages/ResumeBuilder.jsx:237-268 | a key of one section never lies in another section's name space |
| ResumeDraft.RecordMessage | client/src/pages/ResumeBuilder.jsx:222-268 | a field of a record is reported exactly when it is a checked field that fails its rule, a too-long introduction, or an inverted pair of experience dates |
| ResumeDraft.FieldLookup | client/src/pages/ResumeBuilder.jsx:238-241 | a record's field loop adds under `prefix + f` exactly the failing messages of its listed fields and keeps every other entry |
| ResumeDraft.FieldForeign | client/src/pages/ResumeBuilder.jsx:238-241 | a key outside the record's prefix passes through its field checks untouched |
| ResumeDraft.FieldOwn | client/src/pages/ResumeBuilder.jsx:238-241 | the key of a listed failing field holds that field's message, and an unlisted or passing field's key is untouched |
| ResumeDraft.RecordLookup | client/src/pages/ResumeBuilder.jsx:226-254 | a record's checks add exactly its own messages under its prefix, the introduction and date checks included |
| ResumeDraft.ExtraLookup | client/src/pages/ResumeBuilder.jsx:232-234 | the extra introduction or date entry is under the record's prefix and touches no other key |
| ResumeDraft.SectionForeign | client/src/pages/ResumeBuilder.jsx:237-268 | a key outside a section's name space passes through that section's loop |
| ResumeDraft.SectionLookup | client/src/pages/ResumeBuilder.jsx:237-242 | after a section's loop, the key of field f of record i holds exactly that record's message |
| ResumeDraft.StageLookup | client/src/pages/ResumeBuilder.jsx:237-268 | each section loop adds the message of its own records only |
| ResumeDraft.FormErrorAt | client/src/pages/ResumeBuilder.jsx:222-272 | the key of field f of record i is in the rebuilt map exactly when that record is checked and fails on f, with that message |
| ResumeDraft.FormPersonalErrorAt | client/src/pages/ResumeBuilder.jsx:226-234 | a personal key is in the rebuilt map exactly when the field fails its check or the introduction is too long |
| ResumeDraft.DatesErrorIff | client/src/pages/ResumeBuilder.jsx:251-253 | `experience.i.dates` is reported exactly for a record with both dates given, both valid calendar dates, and joining after leaving |
| ResumeDraft.NeverRebuiltKeys | client/src/pages/ResumeBuilder.jsx:222-272 | no socials key, no project team size and no description key is ever in the rebuilt map, so stale entries under them disappear |
| ResumeDraft.FieldErrorsClean | client/src/pages/ResumeBuilder.jsx:238-241 | a record whose listed fields all pass adds nothing |
| ResumeDraft.SectionErrorsClean | client/src/pages/ResumeBuilder.jsx:237-268 | a section whose records all pass adds nothing |
| ResumeDraft.FormValidIff | client/src/pages/ResumeBuilder.jsx:222-272 | the rebuilt map is empty exactly when the personal record and every education, experience, project and skill record pass; socials and team sizes never block |
| FormEncoding.MemberParts | client/src/pages/ResumeBuilder.jsx:399-406 | one part per listed property, in order, named `obj[f]`, carrying the property's string form |
| FormEncoding.ElementParts | client/src/pages/ResumeBuilder.jsx:410-412 | one part per listed property of record i, in order, named `section[i][f]` |
| FormEncoding.ArrayParts | client/src/pages/ResumeBuilder.jsx:409-446 | a section sends its number of records times its number of properties parts |
| FormEncoding.ImageParts | client/src/pages/ResumeBuilder.jsx:455-457 | a chosen file is sent as `image`; without one, an update re-sends an `/uploads` path as `personal[image]` and a create sends nothing |
| FormEncoding.AppendMembers | client/src/pages/ResumeBuilder.jsx:399-406 | the appends add exactly the member parts after what was there |
| FormEncoding.AppendElement | client/src/pages/ResumeBuilder.jsx:410-412 | the appends of one record add exactly its element parts |
| FormEncoding.AppendArray | client/src/pages/ResumeBuilder.jsx:409-446 | the `forEach` over a section produces its parts, record by record |
| FormEncoding.AppendSections | client/src/pages/ResumeBuilder.jsx:408-446 | the five section loops produce the section parts in order |
| FormEncoding.EncodeBody | client/src/pages/ResumeBuilder.jsx:396-452 | the common appends produce personal, section and layout parts in that order |
| FormEncoding.Encode | client/src/pages/ResumeBuilder.jsx:396-457 | the body built by the handlers is the specified payload, image rule included |
| FormEncoding.SectionPartsLength | client/src/pages/ResumeBuilder.jsx:408-446 | 3, 8, 5, 2 and 2 parts per education, experience, project, skill and social record |
| FormEncoding.PayloadLength | client/src/pages/ResumeBuilder.jsx:396-457 | 8 personal parts, 3/8/5/2/2 per education/experience/project/skill/social record, 4 layout parts, and one image part exactly when a file was chosen or an update keeps an uploaded path |
| FormEncoding.PayloadCarries | client/src/pages/ResumeBuilder.jsx:409-446 | every sent property of every record appears under its own `section[i][f]` key with its string form |
| FormEncoding.PayloadCarriesPersonal | client/src/pages/ResumeBuilder.jsx:399-406 | the body opens with the personal properties other than the image, in order |
| FormEncoding.ArrayPartsIndices | client/src/pages/ResumeBuilder.jsx:409-446 | every part of a section names that section and an index of one of its records |
| FormEncoding.ArrayPartsDistinct | client/src/pages/ResumeBuilder.jsx:409-446 | no two parts of a section share a key |
| FormEncoding.SectionPartsDistinct | client/src/pages/ResumeBuilder.jsx:408-446 | no two parts of the five sections share a key |
| FormEncoding.BodyDistinct | client/src/pages/ResumeBuilder.jsx:396-452 | no two parts of the body share a key, and only its first parts are personal |
| FormEncoding.BodyLacksImage | client/src/pages/ResumeBuilder.jsx:396-452 | the body never has a part the image rule may add |
| FormEncoding.PayloadKeysDistinct | client/src/pages/ResumeBuilder.jsx:396-457 | no two parts of the whole payload share a key, the image part included |
| FormEncoding.RenderInjective | client/src/pages/ResumeBuilder.jsx:396-457 | different bracket-free keys are sent as different field names |
| FormEncoding.PayloadWellFormed | client/src/pages/ResumeBuilder.jsx:396-457 | every key of the payload is bracket free |
| FormEncoding.PayloadNamesDistinct | client/src/pages/ResumeBuilder.jsx:396-457 | the field names sent are pairwise different |
| ResumeForm.BlurKey | client/src/pages/ResumeBuilder.jsx:353-355 | for a record index the blur key is that record's error key |
| ResumeForm.LiveAgreesWithForm | client/src/pages/ResumeBuilder.jsx:300-317 | for a field both checks run, the live message is exactly what the whole-form map records for it |
| ResumeForm.ArrayChangeAgrees | client/src/pages/ResumeBuilder.jsx:300-317 | every whole-form field is live-checked, and after the change its error entry equals the one the rebuilt map would hold |
| ResumeForm.LivePersonalAgreesWithForm | client/src/pages/ResumeBuilder.jsx:283-286 | a personal field's live message is what the whole-form map records for it |
| ResumeForm.IntroAgreesWithForm | client/src/pages/ResumeBuilder.jsx:289-296 | the introduction entry of the rebuilt map is present exactly for a too-long introduction |
| ResumeForm.CheckFields | client/src/pages/ResumeBuilder.jsx:238-241 | the field loop builds the specified field errors |
| ResumeForm.CheckRecord | client/src/pages/ResumeBuilder.jsx:226-254 | a record's checks build the specified record errors |
| ResumeForm.CheckSection | client/src/pages/ResumeBuilder.jsx:237-242 | a section's loop builds the specified section errors |
| ResumeForm.BuildErrors | client/src/pages/ResumeBuilder.jsx:222-268 | the loops of `validateForm` build the whole-form error map |
| ResumeForm.AddedExperienceBlocksSave | client/src/pages/ResumeBuilder.jsx:863 | a record from the experience "add" button has no ctc, so "CTC is required" is recorded and the form cannot be saved |
| ResumeForm.AddedExperienceSendsUndefined | client/src/pages/ResumeBuilder.jsx:863 | such a record's ctc and location are sent as the text "undefined" |
| ResumeForm.ResumeBuilder.constructor | client/src/pages/ResumeBuilder.jsx:10-57 | the form starts with one blank record per section, no errors, the default layout and no image |
| ResumeForm.ResumeBuilder.LoadCv | client/src/pages/ResumeBuilder.jsx:63-103 | each missing part of the loaded résumé falls back to the empty form, a stored image path is kept, the layout falls back to the current options and the choice to "Basic" |
| ResumeForm.ResumeBuilder.SetFieldError | client/src/pages/ResumeBuilder.jsx:110-118 | only the error map changes, by the key update |
| ResumeForm.ResumeBuilder.HandlePersonalChange | client/src/pages/ResumeBuilder.jsx:278-297 | the field is stored; for a checked field or the introduction its entry then equals the whole-form entry; no other entry changes |
| ResumeForm.ResumeBuilder.HandleArrayChange | client/src/pages/ResumeBuilder.jsx:300-323 | only record `index` of the section changes, the length and other records stay, and only a live-checked field's key is updated |
| ResumeForm.ResumeBuilder.AddArrayItem | client/src/pages/ResumeBuilder.jsx:325-327 | the section grows by one record and keeps every earlier one |
| ResumeForm.ResumeBuilder.HandleBlur | client/src/pages/ResumeBuilder.jsx:330-356 | a too-long introduction or description sets its error; otherwise the `section.index.field` key is set or cleared; for a checked record field the entry agrees with the whole-form check; the personal introduction blurs under a `null` index, so its entry is never cleared there |
| ResumeForm.ResumeBuilder.HandleImageChange | client/src/pages/ResumeBuilder.jsx:361-375 | a chosen file becomes the preview image and the upload file; no file, no change |
| ResumeForm.ResumeBuilder.HandleLayoutChange | client/src/pages/ResumeBuilder.jsx:380-383 | one layout option is replaced and the others stay |
| ResumeForm.ResumeBuilder.HandleLayoutChoice | client/src/pages/ResumeBuilder.jsx:625 | only the layout choice changes, to the selected value |
| ResumeForm.ResumeBuilder.ValidateForm | client/src/pages/ResumeBuilder.jsx:222-272 | the error map is replaced wholesale by the rebuilt one, and the answer is true exactly when the draft passes every check |
| ResumeForm.ResumeBuilder.HandleSaveResume | client/src/pages/ResumeBuilder.jsx:388-471 | a request is sent exactly when the form is valid, and its body is the create payload |
| ResumeForm.ResumeBuilder.HandleUpdate | client/src/pages/ResumeBuilder.jsx:473-563 | a request is sent exactly when the form is valid and the user confirms, as a PUT with the update payload |
| Register.DigitsOnly | client/src/pages/RegisterPage.jsx:20 | the result is all digits and no longer than the input |
| Register.DigitsOnlyConcat | client/src/pages/RegisterPage.jsx:20 | the filter works character by character over concatenation |
| Register.DigitsOnlyKeepsDigits | client/src/pages/RegisterPage.jsx:20 | a digit string passes unchanged |
| Register.AnchoredEmailIff | client/src/pages/RegisterPage.jsx:32-34 | the anchored pattern holds exactly for a white-space-free value with a single '@', not first, followed later by a '.' that is neither next to it nor last |
| Register.ValidateRegister | client/src/pages/RegisterPage.jsx:28-43 | no message exactly when all four rules hold; otherwise the message of the first failing rule, each of the nine rules with its own message, in the order username (required, length), email (required, pattern), contact number, password (required, length, upper case, digit) |
| Register.FirstFailureExamples | client/src/pages/RegisterPage.jsx:30-31 | a missing username is reported even when the e-mail is also bad; a two-letter name is too short |
| Register.ContactExamples | client/src/pages/RegisterPage.jsx:35-37 | an empty contact number passes; five digits do not |
| Register.PasswordNeedsUpper | client/src/pages/RegisterPage.jsx:38-41 | a long enough password without an upper-case letter is refused for that reason |
| Register.RegisterPage.constructor | client/src/pages/RegisterPage.jsx:6-13 | the four fields start empty and so do both banners |
| Register.RegisterPage.HandleChange | client/src/pages/RegisterPage.jsx:17-26 | the contact number keeps only digits, at most ten, and an edit with more is dropped; another field is stored as typed; no other field changes |
| Register.RegisterPage.HandleSubmit | client/src/pages/RegisterPage.jsx:45-54 | both banners are cleared; a request is sent exactly when the check passes; otherwise its message is shown |
| Register.RegisterPage.OnRegisterResponse | client/src/pages/RegisterPage.jsx:55-65 | 201 shows success and clears the form, another 2xx shows "Unexpected server response.", a failed request shows "Registration failed: " and the reason |
| ResumeServer.ParseInt | server/controllers/resumeController.js:40-41 | a number only when, after leading white space, the text starts with a digit or a sign; a digit there (and no `0x`) always gives a number that is not negative; a negative number needs a leading '-' |
| ResumeServer.LeadingDigits | server/controllers/resumeController.js:40-41 | the longest prefix of digits in the base, stopping at the first non-digit |
| ResumeServer.QueryNumber | server/controllers/resumeController.js:40-41 | a missing, non-numeric or zero value gives the default, any other number is kept, and the result is never 0 |
| ResumeServer.DecimalQuery | server/controllers/resumeController.js:40-41 | a plain decimal query value is read as its number |
| ResumeServer.QueryDefaults | server/controllers/resumeController.js:40-41 | no page, "abc" and "0" all fall back to the default |
| ResumeServer.QueryPrefix | server/controllers/resumeController.js:40 | leading white space is skipped and trailing text ignored |
| ResumeServer.QueryHex | server/controllers/resumeController.js:40 | a `0x` prefix is read in base 16 |
| ResumeServer.QuerySign | server/controllers/resumeController.js:40 | a negative page number is kept |
| ResumeServer.CeilDiv | server/controllers/resumeController.js:57 | the ceiling of the quotient, for either sign of the divisor |
| ResumeServer.Paginate | server/controllers/resumeController.js:40-58 | page and limit are never 0 and default to 1 and 10 |
| ResumeServer.HasMoreIffNotLastPage | server/controllers/resumeController.js:43-58 | for a positive limit, there are more exactly when the page is before the last page, page 1 skips nothing, and pages follow without a gap |
| ResumeServer.PagingExample | server/controllers/resumeController.js:43-58 | five documents two to a page: page 2 has more, page 3 is the last of three |
| ResumeServer.UploadPath | server/controllers/resumeController.js:15 | a stored upload path is under `/uploads` |
| ResumeServer.WithImage | server/controllers/resumeController.js:13-16 | only the personal image is replaced |
| ResumeServer.SentRecords | client/src/pages/ResumeBuilder.jsx:408-446 | a section puts a path in the body exactly when it has records |
| ResumeServer.FormSent | client/src/pages/ResumeBuilder.jsx:396-452 | the form's body always carries the personal record, the layout options and the layout choice, and a section exactly when it has records |
| ResumeServer.Created | server/controllers/resumeController.js:11-18 | the image is the upload's path or null whatever the body said; other personal fields, each section, the layout options and the layout choice are the body's when it carries them, else the schema default (no records, none, none); the owner is the requester whatever the body said; the share token, share flag and share time are the body's or the defaults |
| ResumeServer.FormCreateContent | server/controllers/resumeController.js:11-18 | what the form sends is what is created, apart from the image rule |
| ResumeServer.FormCreatesPrivate | server/controllers/resumeController.js:11-18 | a body without extra paths creates a document of the requester that no share link opens |
| ResumeServer.CreateCanPublish | server/controllers/resumeController.js:11-18 | any body that sends a share token and the share flag creates a document the public link opens, with no payment |
| ResumeServer.UpdateData | server/controllers/resumeController.js:103-110 | without a file the body is used as sent; with one, `personal` becomes the sent personal record, or an empty one, with the upload's path as image, and no other path changes |
| ResumeServer.UpdatedContent | server/controllers/resumeController.js:112-116 | each résumé path the update carries (personal, each section, layout options, layout choice) replaces the stored one, and every path it lacks keeps its stored value |
| ResumeServer.Updated | server/controllers/resumeController.js:103-116 | the content as the partial update leaves it, and each of owner, share token, share flag and share time is the body's when the body carries it and the stored one otherwise |
| ResumeServer.FormUpdateKeepsOwnerAndShare | server/controllers/resumeController.js:103-116 | a body without extra paths keeps the owner and the share state |
| ResumeServer.FormUpdateReplaces | server/controllers/resumeController.js:103-116 | when every section of the form has records, its update replaces the whole content, apart from the image rule |
| ResumeServer.FormUpdateKeepsEmptySection | server/controllers/resumeController.js:112-116 | a section the form sends no records for keeps the stored records |
| ResumeServer.ImageOnlyUpdateDropsPersonal | server/controllers/resumeController.js:105-110 | a new file with no personal record in the body leaves a personal record holding only the image |
| ResumeServer.UpdateCanHandOver | server/controllers/resumeController.js:112-116 | a body naming another owner hands the document over: the requester no longer owns it and the named user does |
| ResumeServer.StoredFontSize | server/models/Resume.model.js:41 | a stored size exactly for an optionally negative decimal string, as Mongoose casts it |
| ResumeServer.MainSize | server/controllers/resumeController.js:184 | the stored size when there is one other than 0, negative and fractional sizes included; 12 when there is none or it is 0 |
| ResumeServer.FractionalSize | server/controllers/resumeController.js:184 | a stored "12.5" prints at 12.5 points |
| ResumeServer.NegativeSize | server/controllers/resumeController.js:184 | a stored "-5" is truthy and is used |
| ResumeServer.ZeroSizes | server/controllers/resumeController.js:184 | "0", "-0", an empty size and no size all give 12 |
| ResumeServer.DefaultLayoutSize | client/src/pages/ResumeBuilder.jsx:50-54 | the builder's default layout prints at 12 points |
| ResumeServer.HeadingsConcat | server/controllers/resumeController.js:226-288 | the headings of consecutive blocks are the headings of each in turn |
| ResumeServer.EntriesPlain | server/controllers/resumeController.js:230-286 | entry lines are black, at the main size and not underlined |
| ResumeServer.BlockHeadings | server/controllers/resumeController.js:226-288 | a section block has its title as its only heading, and an empty section has none |
| ResumeServer.BlockStyled | server/controllers/resumeController.js:226-288 | a block's heading is in the main colour two points above the main size; its other lines are body lines |
| ResumeServer.PdfHeadingOrder | server/controllers/resumeController.js:206-288 | the PDF opens with the name header, "Name" by default, at 20 points, and lists exactly the non-empty sections in the order education, experience, projects, skills, socials |
| ResumeServer.PdfLineStyles | server/controllers/resumeController.js:183-288 | every line after the header is a heading in the main colour at two points above the main size, or a black body line at the main size |
| ResumeServer.PdfLines | server/controllers/resumeController.js:205-288 | at least three lines: the underlined 20-point name header in the main colour, then two plain contact lines |
| ResumeServer.PdfFileName | server/controllers/resumeController.js:175 | the personal name followed by `.pdf` when the name is given, else `resume.pdf` |
| ResumeServer.ResumeStore.CreateResume | server/controllers/resumeController.js:7-26 | the created document is stored under its new id with status 201 |
| ResumeServer.ResumeStore.GetResumeById | server/controllers/resumeController.js:72-89 | the document is returned only when it exists and the requester owns it; otherwise 404 |
| ResumeServer.ResumeStore.UpdateResume | server/controllers/resumeController.js:101-129 | only an owned document changes, as the partial update leaves it, so the body may also set its owner and share fields; otherwise 404 and the store is unchanged |
| ResumeServer.ResumeStore.DeleteResume | server/controllers/resumeController.js:141-158 | only an owned document is removed; otherwise 404 and the store is unchanged |
| ResumeServer.ResumeStore.GetSharedResume | server/controllers/resumeController.js:301-320 | success exactly when some document is shared under the token, and the document returned is one of those; otherwise 404 |
| ResumeServer.ResumeStore.DownloadResumePdf | server/controllers/resumeController.js:168-291 | for an owned document, its text lines and the file name from its personal name or "resume"; otherwise 404 |
| ResumeServer.EmitPdf | server/controllers/resumeController.js:205-288 | the `doc.text` calls produce the specified lines |
| ResumeServer.EmitBlock | server/controllers/resumeController.js:226-288 | one guarded block produces the specified block |
| ResumeServer.EmitEntries | server/controllers/resumeController.js:230-234 | the `forEach` over a section produces its entry lines in order |
| Payment.HexChar | server/controllers/paymentController.js:9 | a value below 16 is written as a lower-case hex digit |
| Payment.ByteHex | server/controllers/paymentController.js:9 | a byte is written as two lower-case hex digits |
| Payment.ByteHexInjective | server/controllers/paymentController.js:9 | the two digits determine the byte |
| Payment.ToHex | server/controllers/paymentController.js:9 | two digits per byte |
| Payment.ToHexDigits | server/controllers/paymentController.js:9 | every digit is lower-case hex |
| Payment.ToHexInjective | server/controllers/paymentController.js:9 | different random bytes give different tokens |
| Payment.ShareToken | server/controllers/paymentController.js:8-10 | 32 random bytes give 64 lower-case hex digits |
| Payment.Options | server/controllers/paymentController.js:20-24 | 100 paise in INR, with a receipt "receipt_" followed by the time in digits |
| Payment.FindOrder | server/controllers/paymentController.js:71 | the first order with the id, or none exactly when no order has it |
| Payment.MarkPaid | server/controllers/paymentController.js:77-80 | the order is paid and stores the payment id and the signature; owner, id, amount and receipt stay |
| Payment.MarkFailed | server/controllers/paymentController.js:103-104 | only the status changes, to failed |
| Payment.Shared | server/controllers/paymentController.js:86-90 | the résumé is shared under the token from now on, with its content and owner unchanged |
| Payment.ShareIn | server/controllers/paymentController.js:86-90 | only the résumé with the id is updated, and a missing id updates nothing |
| Payment.ShareOpensLink | server/controllers/paymentController.js:83-91 | after sharing, the public lookup finds a résumé under the new token |
| Payment.ReshareReplacesToken | server/controllers/paymentController.js:83-91 | sharing again replaces the token, and the earlier link no longer opens the résumé |
| Payment.NoStatusGuard | server/controllers/paymentController.js:76-104 | a paid order can later be marked failed, and a failed one paid |
| Payment.PaymentController.CreateOrder | server/controllers/paymentController.js:12-54 | the gateway is asked for 100 INR; on an answer an order is stored as created for the requester, else 500 and nothing is stored |
| Payment.PaymentController.VerifyPayment | server/controllers/paymentController.js:56-110 | an unknown order gives 404 and changes nothing; a matching signature marks it paid and, with a résumé id, shares that résumé under a fresh 64-digit token the reply carries; a mismatch marks it failed with 400 and leaves the résumés alone |
| Dashboard.FetchFor | client/src/pages/Dashboard.jsx:39-52 | an image request exactly for a card whose image path starts with `/uploads`, with that card's id |
| Dashboard.ImageFetchesExact | client/src/pages/Dashboard.jsx:38-53 | every request is for a card on the page with an `/uploads` path, and every such card is requested |
| Dashboard.RemoveId | client/src/pages/Dashboard.jsx:93 | no remaining card has the id, and every remaining card was in the list |
| Dashboard.RemoveIdConcat | client/src/pages/Dashboard.jsx:93 | filtering works card by card over concatenation |
| Dashboard.RemoveIdKeepsOthers | client/src/pages/Dashboard.jsx:93 | every card with another id stays |
| Dashboard.RemoveIdAbsent | client/src/pages/Dashboard.jsx:93 | deleting an id that no card has changes nothing |
| Dashboard.RemoveIdIdempotent | client/src/pages/Dashboard.jsx:93 | deleting twice is deleting once |
| Dashboard.VerifyRequest | client/src/pages/Dashboard.jsx:117-122 | the gateway's fields are passed on, and only the share action sends the résumé id |
| Dashboard.DownloadName | client/src/pages/Dashboard.jsx:141 | a name ending in `.pdf`, `resume.pdf` for a card without a personal record |
| Dashboard.DownloadNameMatchesServer | client/src/pages/Dashboard.jsx:141 | the client saves the PDF under the same file name the server announces |
| Dashboard.ShareUrl | client/src/pages/Dashboard.jsx:127-128 | the link is the origin followed by `/shared/` |
| Dashboard.ShareUrlRoundTrip | client/src/pages/Dashboard.jsx:127-128 | the token can be read back from the link |
| Dashboard.DashboardState.constructor | client/src/pages/Dashboard.jsx:11-20 | empty list, no images, loading, page 1, more to fetch, share dialog closed |
| Dashboard.DashboardState.FetchCVs | client/src/pages/Dashboard.jsx:26-61 | nothing without more to fetch; otherwise the old list followed by the fetched résumés, the server's more-flag, the image requests of the page, and loading cleared |
| Dashboard.DashboardState.OnImageLoaded | client/src/pages/Dashboard.jsx:43-48 | only that card's image entry changes |
| Dashboard.DashboardState.HandleScroll | client/src/pages/Dashboard.jsx:70-78 | the page rises by exactly one, only near the bottom while not loading and while there is more |
| Dashboard.DashboardState.HandleDelete | client/src/pages/Dashboard.jsx:88-99 | nothing without confirmation; a successful delete removes the id's cards, a failed one keeps the list |
| Dashboard.DashboardState.OnVerifyResponse | client/src/pages/Dashboard.jsx:124-143 | a successful share opens the dialog with origin + `/shared/` + token; a successful download fetches that card's PDF and saves it under its download name; other outcomes change nothing |
| CvPreview.ImageUrl | client/src/components/CVPreview.jsx:11-17 | no path gives "", an `/uploads` path is prefixed by `VITE_API_BASE_URL` (`http://localhost:5000` by default), any other path is used as it is |
| CvPreview.UploadedImageUrl | client/src/components/CVPreview.jsx:13-14 | a stored upload is fetched from `VITE_API_BASE_URL`, `http://localhost:5000` by default |
| CvPreview.DataUrlUnchanged | client/src/components/CVPreview.jsx:16 | a data URL from the file picker is shown unchanged |
| CvPreview.ImageUrlEmptyIff | client/src/components/CVPreview.jsx:12-16 | the address is empty exactly when there is no path |

## Left out

- Network, browser and I/O calls are not modelled: axios requests, `alert`, `confirm`, `scrollTo`, timers, navigation, the clipboard, blob downloads and `localStorage`. Replies and confirmations are parameters.
- `FileReader` and asynchronous image loads are not modelled. The preview fetch when a résumé is loaded is not modelled. A chosen image's data URL is a parameter of `HandleImageChange`. Dashboard image loads are returned as requests; `OnImageLoaded` completes them in any order.
- The stale `data` closure of `handleArrayChange` and all interleaving of concurrent updates are not modelled: each handler runs to completion on the current state.
- JSX markup, the Dashboard modals, the Navbar, Footer, NotFound, CVCard, SharedCV, LoginPage and the routing are not modelled; they state no behaviour.
- The server's middleware is not modelled: JWT sign-in and checking, guarded routes, bcrypt, Google OAuth and multer's storage. The requester's id and the uploaded file name are parameters.
- MongoDB is a map from id to document. Query sorting, `skip`/`limit` slicing, timestamps, indexes and Mongoose casting errors are not modelled. An ill-formed id or a database failure would give a 500 reply there.
- pdfkit drawing is not modelled. The model keeps only the sequence of text lines with their size, colour and underline. The image block and `moveDown` are left out.
- Floating point is not modelled. `Number(...)` on a decimal string is exact rational arithmetic, which differs only for fractions too long for a double.
- `new Date(...)` is modelled only for `YYYY-MM-DD` strings with a month from 01 to 12 and a day from 01 to 31. Any other date string never counts as later.
- ResumeDraft.DatesErrorIff: a day past the end of its month, such as "2021-02-30", is compared as written. Engines differ on such dates: some reject them and some roll them into the next month. The model compares them as strings.
- HMAC-SHA256, `crypto.randomBytes` and the clock are parameters. Only their equality and length consequences are modelled.
- String lengths count characters, not UTF-16 code units.
- The preview's image origin (`VITE_API_BASE_URL`) and the HTTP client's origin (`VITE_API_URL`) are different variables. They agree only when both are unset or set alike. The model takes the preview's origin as a parameter.
- The only body paths modelled beside the résumé fields are `userId`, `shareToken`, `isShared` and `sharedAt`, taken as already cast by Mongoose. Paths outside the schema, which Mongoose drops, are not modelled. A value Mongoose cannot cast would give a 500 reply.
- ResumeServer.MainSize: reads only sizes of the form `-?\d+(\.\d+)?`. Forms such as "1e1" or ".5", which a number input may also hold, count as no size here. Mongoose would cast them to numbers.
- Query values that are arrays are not modelled. `parseInt` of numbers too large for a double is not modelled.
- The 500 catch paths of the controllers are not modelled, except the failed gateway call of `createOrder`.
- `verifyPayment` does not check who owns the résumé it shares. The model shares under any existing id, as the code does.
- ResumeForm.ResumeBuilder.HandleArrayChange: requires an index of an existing record. The form only calls it for rendered records; a larger index would leave a gap in the JavaScript array.
- ResumeForm.ResumeBuilder.HandleBlur: requires an existing record for array sections. The JavaScript code would throw on a missing one.
- Register.RegisterPage.OnRegisterResponse: the failure text is a parameter. The model does not choose between the server's message and the library's own.
- A non-string value given to `validateRequired` is not modelled; every present value is a string.
