/** The message composition of the user-management page
    (src/pages/ManageUsersPage.tsx): the WhatsApp templates with their
    `{name}` slot, the `{{key}}` placeholders of the bulk email with their
    sample values, the HTML-versus-plain-text classification of an email
    body, its wrapping into the page's HTML template, and the insertion of
    a placeholder at the text cursor. */
module EmailComposer {
  import opened Wrappers
  import opened Text
  import opened UserValidation

  // ---------------------------------------------------------------------
  // WhatsApp templates
  // ---------------------------------------------------------------------

  datatype MessageTemplate = MessageTemplate(id: string, name: string, content: string)

  const NAME_SLOT: string := "{name}"

  const MESSAGE_TEMPLATES: seq<MessageTemplate> := [
    MessageTemplate("template1", "Welcome Message", "Hello {name}! Welcome to our service."),
    MessageTemplate("template2", "Update Reminder", "Hi {name}, just a friendly reminder about the update."),
    MessageTemplate("template3", "Special Offer", "Hey {name}, we have a special offer for you!")
  ]

  /** `template.content.replace('{name}', name)`: the first slot only. */
  function MessageFor(t: MessageTemplate, name: string): (m: string)
    ensures !Contains(t.content, NAME_SLOT) ==> m == t.content
    ensures Contains(t.content, NAME_SLOT) ==>
      exists i :: 0 <= i <= |t.content| - |NAME_SLOT|
        && OccursAt(t.content, NAME_SLOT, i) && (forall k :: 0 <= k < i ==> !OccursAt(t.content, NAME_SLOT, k))
        && m == t.content[..i] + name + t.content[i + |NAME_SLOT|..]
  {
    ReplaceFirst(t.content, NAME_SLOT, name)
  }

  /** A template with the slot twice keeps the second one: only the first
      occurrence is filled in. */
  lemma OnlyFirstSlotFilled(name: string)
    ensures MessageFor(MessageTemplate("", "", NAME_SLOT + NAME_SLOT), name) == name + NAME_SLOT
  {
    var c := NAME_SLOT + NAME_SLOT;
    assert OccursAt(c, NAME_SLOT, 0) by { assert c[0..|NAME_SLOT|] == NAME_SLOT; }
    assert c[|NAME_SLOT|..] == NAME_SLOT;
  }

  // ---------------------------------------------------------------------
  // Email placeholders
  // ---------------------------------------------------------------------

  datatype Placeholder = Placeholder(token: string, value: string)

  /** The page's custom template fields. */
  datatype CustomFields = CustomFields(
    joinLink: string,
    morningQuote: string,
    dailyHabitHeading: string,
    dailyHabitSubHeading: string,
    dailyHabitText: string
  )

  /** `{{key}}` for a placeholder key. */
  function Token(key: string): (t: string)
    ensures StartsWith(t, "{{") && |t| == |key| + 4
    ensures t[2..|t| - 2] == key && t[|t| - 2..] == "}}"
  {
    "{{" + key + "}}"
  }

  /** The first user with the id: `users.find(u => u.id === id)`. */
  function FindUser(users: seq<User>, id: string): (r: Option<User>)
    ensures r.Some? ==> r.value in users && r.value.id == id
    ensures r.None? ==> forall u :: u in users ==> u.id != id
    ensures r.Some? ==>
      exists k :: 0 <= k < |users| && users[k] == r.value && forall j :: 0 <= j < k ==> users[j].id != id
  {
    if users == [] then None
    else if users[0].id == id then Some(users[0])
    else match FindUser(users[1..], id)
      case None => None
      case Some(u) => Some(u)
  }

  predicate HasEmail(u: User) {
    Truthy(u.email)
  }

  /** Some user with this id has an email: `users.find(u => u.id === id && u.email)`. */
  predicate IdHasEmail(users: seq<User>, id: string) {
    exists u :: u in users && u.id == id && HasEmail(u)
  }

  /** The first recipient status whose id belongs to some user with an
      email address. */
  function FirstRecipientWithEmail(recipientIds: seq<string>, users: seq<User>): (r: Option<string>)
    ensures r.Some? ==> r.value in recipientIds && IdHasEmail(users, r.value)
    ensures r.None? ==> forall id :: id in recipientIds ==> !IdHasEmail(users, id)
  {
    if recipientIds == [] then None
    else if IdHasEmail(users, recipientIds[0]) then Some(recipientIds[0])
    else
      var r := FirstRecipientWithEmail(recipientIds[1..], users);
      assert forall id :: id in recipientIds ==> id == recipientIds[0] || id in recipientIds[1..];
      r
  }

  /** `find` returns the first qualifying recipient: every recipient listed
      before it has no user with an email. */
  lemma {:induction false} FirstRecipientIsFirst(recipientIds: seq<string>, users: seq<User>)
    ensures var r := FirstRecipientWithEmail(recipientIds, users);
      r.Some? ==> exists k :: 0 <= k < |recipientIds| && recipientIds[k] == r.value
                    && forall j :: 0 <= j < k ==> !IdHasEmail(users, recipientIds[j])
    decreases |recipientIds|
  {
    if recipientIds != [] && !IdHasEmail(users, recipientIds[0]) {
      var rest := recipientIds[1..];
      FirstRecipientIsFirst(rest, users);
      var r := FirstRecipientWithEmail(rest, users);
      if r.Some? {
        var k :| 0 <= k < |rest| && rest[k] == r.value
                 && forall j :: 0 <= j < k ==> !IdHasEmail(users, rest[j]);
        assert recipientIds[k + 1] == r.value;
        forall j | 0 <= j < k + 1 ensures !IdHasEmail(users, recipientIds[j]) {
          if j > 0 {
            assert recipientIds[j] == rest[j - 1];
          }
        }
      }
    }
  }

  /** The user whose details fill the preview: the first user listed under
      the first recipient that has an email. */
  function SampleUser(recipientIds: seq<string>, users: seq<User>): (r: Option<User>)
    ensures r.Some? ==> r.value in users && r.value.id in recipientIds
    ensures r.None? <==> FirstRecipientWithEmail(recipientIds, users).None?
    ensures var f := FirstRecipientWithEmail(recipientIds, users);
      f.Some? ==> r == FindUser(users, f.value) && r.value.id == f.value
  {
    match FirstRecipientWithEmail(recipientIds, users)
    case None => None
    case Some(id) => FindUser(users, id)
  }

  /** `samplePlaceholders`, in the page's key order: the sample user's
      details and the custom fields, each with a bracketed stand-in when it
      is missing or empty. */
  function SamplePlaceholders(sample: Option<User>, c: CustomFields): (ps: seq<Placeholder>)
    ensures |ps| == 8
    ensures TokensNonEmpty(ps)
    ensures forall k :: 0 <= k < 8 ==> ps[k].value != ""
  {
    var name := if sample.Some? then OrElse(Some(sample.value.name), "[Sample Name]") else "[Sample Name]";
    var number := if sample.Some? then OrElse(Some(sample.value.whatsappNumber), "[Sample WhatsApp]") else "[Sample WhatsApp]";
    var email := if sample.Some? then OrElse(sample.value.email, "[Sample Email]") else "[Sample Email]";
    [
      Placeholder(Token("name"), name),
      Placeholder(Token("whatsappNumber"), number),
      Placeholder(Token("email"), email),
      Placeholder(Token("join_link"), OrElse(Some(c.joinLink), "[Join Link]")),
      Placeholder(Token("morning_quote"), OrElse(Some(c.morningQuote), "[Morning Quote]")),
      Placeholder(Token("daily_habit_heading"), OrElse(Some(c.dailyHabitHeading), "[Habit Heading]")),
      Placeholder(Token("daily_habit_sub_heading"), OrElse(Some(c.dailyHabitSubHeading), "[Habit Sub-Heading]")),
      Placeholder(Token("daily_habit_text"), OrElse(Some(c.dailyHabitText), "[Habit Text]"))
    ]
  }

  /** Each of the eight placeholders: its key in braces, and the sample's
      or custom field's value, or the bracketed default when that is empty. */
  lemma SamplePlaceholderEntries(sample: Option<User>, c: CustomFields)
    ensures var ps := SamplePlaceholders(sample, c);
      && (ps[0].token == Token("name") && ps[0].value == (if sample.Some? && sample.value.name != "" then sample.value.name else "[Sample Name]"))
      && (ps[1].token == Token("whatsappNumber") && ps[1].value == (if sample.Some? && sample.value.whatsappNumber != "" then sample.value.whatsappNumber else "[Sample WhatsApp]"))
      && (ps[2].token == Token("email") && ps[2].value == (if sample.Some? && HasEmail(sample.value) then sample.value.email.value else "[Sample Email]"))
      && (ps[3].token == Token("join_link") && ps[3].value == (if c.joinLink != "" then c.joinLink else "[Join Link]"))
      && (ps[4].token == Token("morning_quote") && ps[4].value == (if c.morningQuote != "" then c.morningQuote else "[Morning Quote]"))
      && (ps[5].token == Token("daily_habit_heading") && ps[5].value == (if c.dailyHabitHeading != "" then c.dailyHabitHeading else "[Habit Heading]"))
      && (ps[6].token == Token("daily_habit_sub_heading") && ps[6].value == (if c.dailyHabitSubHeading != "" then c.dailyHabitSubHeading else "[Habit Sub-Heading]"))
      && (ps[7].token == Token("daily_habit_text") && ps[7].value == (if c.dailyHabitText != "" then c.dailyHabitText else "[Habit Text]"))
  {
  }

  predicate TokensNonEmpty(ps: seq<Placeholder>) {
    forall k :: 0 <= k < |ps| ==> |ps[k].token| > 0
  }

  /** Every placeholder replaced, each in turn, everywhere in the body. */
  function ApplyPlaceholders(body: string, ps: seq<Placeholder>): string
    requires TokensNonEmpty(ps)
  {
    if ps == [] then body
    else ReplaceAll(ApplyPlaceholders(body, ps[..|ps| - 1]), ps[|ps| - 1].token, ps[|ps| - 1].value)
  }

  /** The `for (const key in samplePlaceholders)` loop of the preview. */
  method FillPlaceholders(body: string, ps: seq<Placeholder>) returns (filled: string)
    requires TokensNonEmpty(ps)
    ensures filled == ApplyPlaceholders(body, ps)
  {
    filled := body;
    var k := 0;
    while k < |ps|
      invariant 0 <= k <= |ps|
      invariant filled == ApplyPlaceholders(body, ps[..k])
    {
      assert ps[..k + 1][..k] == ps[..k];
      filled := ReplaceAll(filled, ps[k].token, ps[k].value);
      k := k + 1;
    }
    assert ps[..|ps|] == ps;
  }

  lemma {:induction false} ReplaceAllAbsent(s: string, p: string, r: string)
    requires |p| > 0 && !Contains(s, p)
    ensures ReplaceAll(s, p, r) == s
    decreases |s|
  {
    if |s| >= |p| {
      assert !OccursAt(s, p, 0);
      assert !Contains(s[1..], p) by {
        forall k | 0 <= k <= |s[1..]| - |p| ensures !OccursAt(s[1..], p, k) {
          assert !OccursAt(s, p, k + 1);
          assert s[1..][k..k + |p|] == s[k + 1..k + 1 + |p|];
        }
      }
      ReplaceAllAbsent(s[1..], p, r);
    }
  }

  /** A body that mentions no placeholder is left as it is. */
  lemma {:induction false} BodyWithoutPlaceholdersUnchanged(body: string, ps: seq<Placeholder>)
    requires TokensNonEmpty(ps)
    requires forall k :: 0 <= k < |ps| ==> !Contains(body, ps[k].token)
    ensures ApplyPlaceholders(body, ps) == body
    decreases |ps|
  {
    if ps != [] {
      var init := ps[..|ps| - 1];
      BodyWithoutPlaceholdersUnchanged(body, init);
      ReplaceAllAbsent(body, ps[|ps| - 1].token, ps[|ps| - 1].value);
    }
  }

  /** A single placeholder is replaced at every occurrence: the body is
      cut at the occurrences and glued back with the value. */
  lemma OnePlaceholderEverywhere(body: string, p: Placeholder)
    requires |p.token| > 0
    ensures var parts := Split(body, p.token);
      && body == Join(parts, p.token)
      && ApplyPlaceholders(body, [p]) == Join(parts, p.value)
      && forall k :: 0 <= k < |parts| ==> !Contains(parts[k], p.token)
  {
    assert [p][..0] == [];
    ReplaceAllReplacesEveryOccurrence(body, p.token, p.value);
  }

  // ---------------------------------------------------------------------
  // HTML classification
  // ---------------------------------------------------------------------

  /** `s.trim().startsWith('<') && s.includes('</')`. */
  predicate IsLikelyHtml(s: string) {
    StartsWith(Trim(s), "<") && Contains(s, "</")
  }

  /** At `i` the regular expression `/<name\b[^>]*>/i` matches: `<`, the
      tag name in any case, a word boundary, then a `>` somewhere after. */
  predicate OpensTagAt(s: string, name: string, i: nat) {
    var e := i + 1 + |name|;
    && e <= |s| && s[i] == '<' && ToLower(s[i + 1..e]) == name
    && (e == |s| || !IsWordChar(s[e]))
    && '>' in s[e..]
  }

  predicate OpensTag(s: string, name: string) {
    exists i: nat :: i < |s| && OpensTagAt(s, name, i)
  }

  predicate IsFullHtmlDocument(s: string) {
    IsLikelyHtml(s) && OpensTag(s, "html") && OpensTag(s, "body")
  }

  datatype BodyKind = FullDocument | HtmlSnippet | PlainText

  /** The three-way choice of the preview and of the send request. */
  function Classify(s: string): (k: BodyKind)
    ensures k == FullDocument <==> IsFullHtmlDocument(s)
    ensures k == HtmlSnippet <==> IsLikelyHtml(s) && !IsFullHtmlDocument(s)
    ensures k == PlainText <==> !IsLikelyHtml(s)
  {
    if IsFullHtmlDocument(s) then FullDocument
    else if IsLikelyHtml(s) then HtmlSnippet
    else PlainText
  }

  // ---------------------------------------------------------------------
  // Wrapping and the final bodies
  // ---------------------------------------------------------------------

  const BODY_SLOT: string := "{{EMAIL_BODY_CONTENT}}"
  const EMPTY_BODY_MESSAGE: string :=
    "<p class=\"text-gray-500 italic\">Email body is empty. Start typing to see a preview.</p>"
  const LINE_BREAK: string := "<br />"

  /** `template.replace('{{EMAIL_BODY_CONTENT}}', content)`. The template is
      a parameter: the page's copy carries the current year. */
  function Wrap(template: string, content: string): (r: string)
    ensures Contains(template, BODY_SLOT) ==> Contains(r, content)
    ensures Contains(template, BODY_SLOT) ==>
      exists i :: 0 <= i <= |template| - |BODY_SLOT| && OccursAt(template, BODY_SLOT, i)
                  && (forall k :: 0 <= k < i ==> !OccursAt(template, BODY_SLOT, k))
                  && r == template[..i] + content + template[i + |BODY_SLOT|..]
    ensures !Contains(template, BODY_SLOT) ==> r == template
  {
    var r := ReplaceFirst(template, BODY_SLOT, content);
    assert Contains(template, BODY_SLOT) ==> Contains(r, content) by {
      if Contains(template, BODY_SLOT) {
        var i :| 0 <= i <= |template| - |BODY_SLOT| && OccursAt(template, BODY_SLOT, i)
          && r == template[..i] + content + template[i + |BODY_SLOT|..];
        assert r[i..i + |content|] == content;
        assert OccursAt(r, content, i);
      }
    }
    r
  }

  /** `s.replace(/\n/g, '<br />')`. */
  function NewlinesToBreaks(s: string): string {
    ReplaceAll(s, "\n", LINE_BREAK)
  }

  /** `generateEmailPreviewHtml`: a blank body previews as the "empty body"
      notice; otherwise the placeholders are filled with the sample values
      and the filled body is shown as is when it is a full document, or
      inside the template (with line breaks for plain text). */
  method PreviewHtml(body: string, template: string, ps: seq<Placeholder>) returns (html: string)
    requires TokensNonEmpty(ps)
    ensures Blank(body) ==> html == Wrap(template, EMPTY_BODY_MESSAGE)
    ensures !Blank(body) ==>
      var filled := ApplyPlaceholders(body, ps);
      && (Classify(filled) == FullDocument ==> html == filled)
      && (Classify(filled) == HtmlSnippet ==> html == Wrap(template, filled))
      && (Classify(filled) == PlainText ==> html == Wrap(template, NewlinesToBreaks(filled)))
  {
    if Trim(body) == "" {
      return Wrap(template, EMPTY_BODY_MESSAGE);
    }
    var filled := FillPlaceholders(body, ps);
    var likely := StartsWith(Trim(filled), "<") && Contains(filled, "</");
    var full := likely && OpensTag(filled, "html") && OpensTag(filled, "body");
    if full {
      html := filled;
    } else if likely {
      html := Wrap(template, filled);
    } else {
      html := Wrap(template, NewlinesToBreaks(filled));
    }
  }

  /** The body sent to the notification service, with the placeholders
      left in for the server: plain text gets line breaks and the
      template, a snippet gets the template, a full document goes as is. */
  function ApiBody(body: string, template: string): (r: string)
    ensures Classify(body) == FullDocument ==> r == body
    ensures Classify(body) == HtmlSnippet ==> r == Wrap(template, body)
    ensures Classify(body) == PlainText ==> r == Wrap(template, NewlinesToBreaks(body))
  {
    if !IsLikelyHtml(body) then Wrap(template, NewlinesToBreaks(body))
    else if !IsFullHtmlDocument(body) then Wrap(template, body)
    else body
  }

  /** The user's HTML always reaches the server intact: a document as it
      is, a snippet inside a template that has the slot. */
  lemma ApiBodyKeepsHtml(body: string, template: string)
    requires IsLikelyHtml(body) && Contains(template, BODY_SLOT)
    ensures Contains(ApiBody(body, template), body)
  {
    if IsFullHtmlDocument(body) {
      assert OccursAt(body, body, 0);
    }
  }

  // ---------------------------------------------------------------------
  // Inserting a placeholder at the cursor
  // ---------------------------------------------------------------------

  /** `insertPlaceholder`: the selection `[start, end)` of the body is
      replaced by the placeholder and the cursor goes right after it. */
  function InsertPlaceholder(text: string, start: nat, end: nat, placeholder: string): (r: (string, nat))
    requires start <= end <= |text|
    ensures |r.0| == |text| - (end - start) + |placeholder|
    ensures r.1 == start + |placeholder| && r.1 <= |r.0|
    ensures r.0[..start] == text[..start] && r.0[start..r.1] == placeholder && r.0[r.1..] == text[end..]
  {
    (text[..start] + placeholder + text[end..], start + |placeholder|)
  }

  /** With nothing selected, removing what was inserted gives back the text. */
  lemma InsertAtCursorIsUndone(text: string, cursor: nat, placeholder: string)
    requires cursor <= |text|
    ensures var r := InsertPlaceholder(text, cursor, cursor, placeholder);
      r.0[..cursor] + r.0[r.1..] == text
  {
    var r := InsertPlaceholder(text, cursor, cursor, placeholder);
    assert text == text[..cursor] + text[cursor..];
  }
}
