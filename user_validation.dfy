/** Validation and normalisation of user records on the user-management page
    (src/pages/ManageUsersPage.tsx): the CSV import with its WhatsApp-number
    rewriting and row-numbered messages, and the add/edit form checks. */
module UserValidation {
  import opened Wrappers
  import opened Text

  /** `User` of the page. Ids are supplied by the caller (the page draws
      them from `uuidv4`). */
  datatype User = User(id: string, name: string, whatsappNumber: string, email: Option<string>)

  // ---------------------------------------------------------------------
  // Field rules
  // ---------------------------------------------------------------------

  /** `/^\d{10,15}$/`. */
  predicate IsValidNumber(s: string) {
    10 <= |s| <= 15 && AllDigits(s)
  }

  /** A character of the class `[^\s@]`. */
  predicate EmailChar(c: char) {
    !IsWhitespace(c) && c != '@'
  }

  /** `/^[^\s@]+@[^\s@]+\.[^\s@]+$/`: a non-empty local part, the only
      `@`, then a domain with a `.` that has characters on both sides. */
  predicate MatchesEmailPattern(s: string) {
    exists i, j :: 0 < i && i + 1 < j && j + 1 < |s| && s[i] == '@' && s[j] == '.'
      && (forall k :: 0 <= k < |s| && k != i ==> EmailChar(s[k]))
  }

  /** An email field is acceptable when it is empty or matches the pattern. */
  predicate EmailAllowed(email: string) {
    email == "" || MatchesEmailPattern(email)
  }

  /** `s.trim().toLowerCase().replace(/\s+/g, '')`. */
  function NormalizeEmail(s: string): (r: string)
    ensures NoWhitespace(r)
    ensures r == "" <==> Blank(s)
  {
    var t := Trim(s);
    var l := ToLower(t);
    LowerKeepsClasses(t);
    assert t != [] ==> !IsWhitespace(l[0]);
    RemoveWhitespaceKeepsNonBlank(l);
    RemoveWhitespace(l)
  }

  lemma {:induction false} RemoveWhitespaceKeepsNonBlank(s: string)
    ensures RemoveWhitespace(s) == "" <==> Blank(s)
    decreases |s|
  {
    if s != [] {
      RemoveWhitespaceKeepsNonBlank(s[1..]);
      if IsWhitespace(s[0]) {
        assert Blank(s) <==> Blank(s[1..]) by {
          if Blank(s[1..]) {
            forall i | 0 <= i < |s| ensures IsWhitespace(s[i]) {
              if i > 0 { assert s[i] == s[1..][i - 1]; }
            }
          }
        }
      }
    }
  }

  predicate IsLowerCase(s: string) {
    forall i :: 0 <= i < |s| ==> LowerChar(s[i]) == s[i]
  }

  lemma {:induction false} RemoveWhitespaceKeepsLowerCase(s: string)
    requires IsLowerCase(s)
    ensures IsLowerCase(RemoveWhitespace(s))
    decreases |s|
  {
    if s != [] {
      assert IsLowerCase(s[1..]) by {
        forall i | 0 <= i < |s[1..]| ensures LowerChar(s[1..][i]) == s[1..][i] {
          assert s[1..][i] == s[i + 1];
        }
      }
      RemoveWhitespaceKeepsLowerCase(s[1..]);
    }
  }

  /** A normalised address is its own normal form. */
  lemma NormalizeEmailIdempotent(s: string)
    ensures NormalizeEmail(NormalizeEmail(s)) == NormalizeEmail(s)
  {
    var e := NormalizeEmail(s);
    var l := ToLower(Trim(s));
    assert IsLowerCase(l);
    RemoveWhitespaceKeepsLowerCase(l);
    TrimOfCompact(e);
    assert ToLower(e) == e;
  }

  // ---------------------------------------------------------------------
  // WhatsApp number rewriting of the CSV import
  // ---------------------------------------------------------------------

  lemma {:induction false} KeepDigitsIgnoresWhitespace(s: string)
    ensures KeepDigits(RemoveWhitespace(s)) == KeepDigits(s)
    decreases |s|
  {
    if s != [] {
      KeepDigitsIgnoresWhitespace(s[1..]);
      if !IsWhitespace(s[0]) {
        assert ([s[0]] + RemoveWhitespace(s[1..]))[1..] == RemoveWhitespace(s[1..]);
      }
    }
  }

  /** The number of a CSV row, already trimmed: whitespace is removed, a
      leading `+` noted and dropped, every non-digit removed; then a `+`
      number keeps its digits except that `440…` becomes `44…`, a number
      starting with `0` becomes `44` and the rest, and any other non-empty
      digit string gets `91` in front. */
  function FormatCsvNumber(original: string): (r: string)
    ensures AllDigits(r)
  {
    if original == "" then ""
    else
      var compact := RemoveWhitespace(original);
      var plus := StartsWith(compact, "+");
      WithCountryCode(plus, KeepDigits(if plus then compact[1..] else compact))
  }

  /** The country-code step of the rewriting, on the digits alone. */
  function WithCountryCode(plus: bool, digits: string): (r: string)
    requires AllDigits(digits)
    ensures AllDigits(r)
  {
    if plus then
      (if StartsWith(digits, "440") then "44" + digits[3..] else digits)
    else if StartsWith(digits, "0") then "44" + digits[1..]
    else if digits != "" then "91" + digits
    else ""
  }

  /** The country-code step case by case. */
  lemma WithCountryCodeCases(plus: bool, d: string)
    requires AllDigits(d)
    ensures plus && StartsWith(d, "440") ==> WithCountryCode(plus, d) == "44" + d[3..]
    ensures plus && !StartsWith(d, "440") ==> WithCountryCode(plus, d) == d
    ensures !plus && StartsWith(d, "0") ==> WithCountryCode(plus, d) == "44" + d[1..]
    ensures !plus && d != [] && d[0] != '0' ==> WithCountryCode(plus, d) == "91" + d
    ensures d == [] ==> WithCountryCode(plus, d) == []
  {
    if d != [] && d[0] != '0' {
      assert d[..1] != "0";
    }
  }

  /** The rewriting case by case, in terms of the digits of the whole
      field and whether it starts with `+` once whitespace is gone. */
  lemma FormatCsvNumberCases(original: string)
    ensures var r, d, plus := FormatCsvNumber(original), KeepDigits(original), StartsWith(RemoveWhitespace(original), "+");
      && (plus && StartsWith(d, "440") ==> r == "44" + d[3..])
      && (plus && !StartsWith(d, "440") ==> r == d)
      && (!plus && StartsWith(d, "0") ==> r == "44" + d[1..])
      && (!plus && d != [] && d[0] != '0' ==> r == "91" + d)
      && (d == [] ==> r == [])
  {
    var d := KeepDigits(original);
    if original != "" {
      CsvDigitsAreFieldDigits(original);
      WithCountryCodeCases(StartsWith(RemoveWhitespace(original), "+"), d);
    } else {
      assert d == [];
    }
  }

  /** The digits the rewriting starts from are the digits of the whole
      field: whitespace and a leading `+` hold none. */
  lemma CsvDigitsAreFieldDigits(original: string)
    ensures var compact := RemoveWhitespace(original);
      KeepDigits(if StartsWith(compact, "+") then compact[1..] else compact) == KeepDigits(original)
  {
    var compact := RemoveWhitespace(original);
    KeepDigitsIgnoresWhitespace(original);
    if StartsWith(compact, "+") {
      assert compact == [compact[0]] + compact[1..];
      assert KeepDigits(compact) == KeepDigits(compact[1..]);
    }
  }

  /** A number stored in the page's format and written back with a `+`
      imports unchanged, unless it is a `440…` number. */
  lemma ReimportWithPlus(n: string)
    requires AllDigits(n) && n != [] && !StartsWith(n, "440")
    ensures FormatCsvNumber("+" + n) == n
  {
    var s := "+" + n;
    assert NoWhitespace(s);
    assert s[1..] == n;
    assert KeepDigits(s) == KeepDigits(n);
  }

  /** A bare digit string is read as a national number: a trunk `0` is
      replaced by the UK code 44, anything else is given the Indian code 91. */
  lemma BareDigitsGetCountryCode(n: string)
    requires AllDigits(n) && n != []
    ensures n[0] == '0' ==> FormatCsvNumber(n) == "44" + n[1..]
    ensures n[0] != '0' ==> FormatCsvNumber(n) == "91" + n
  {
    assert NoWhitespace(n);
    assert n[0] != '+';
  }

  // ---------------------------------------------------------------------
  // CSV rows
  // ---------------------------------------------------------------------

  /** The three columns the import reads; a missing column is `None`. */
  datatype CsvRow = CsvRow(fullName: Option<string>, contactNumber: Option<string>, email: Option<string>)

  datatype RowOutcome = Accepted(user: User) | Rejected(messages: seq<string>)

  /** Papaparse's report of a row it could not parse. */
  datatype ParseError = ParseError(row: int, message: string)

  /** The label of data row `index`: the header is line 1 of the file. */
  function RowLabel(index: nat): string {
    "Row " + NatToString(index + 2) + ": "
  }

  /** A message about data row `index`. */
  function RowMessage(index: nat, text: string): (m: string)
    ensures StartsWith(m, RowLabel(index))
  {
    RowLabel(index) + text
  }

  function MissingNameMessage(index: nat): string {
    RowMessage(index, "Missing 'Full name'.")
  }

  function MissingNumberMessage(index: nat): string {
    RowMessage(index, "Missing 'Best Contact Number'.")
  }

  function InvalidEmailMessage(index: nat, email: string): string {
    RowMessage(index, "Invalid email format for '" + email + "'.")
  }

  function InvalidNumberMessage(index: nat, original: string, formatted: string): string {
    RowMessage(index, "Invalid WhatsApp format for '" + OrElse(Some(original), "(empty)")
      + "' (processed to: '" + OrElse(Some(formatted), "(empty)") + "'). Must result in 10-15 digits.")
  }

  predicate MissingField(f: Option<string>) {
    f.None? || Blank(f.value)
  }

  /** The row's email after normalisation, `""` when the column is absent. */
  function RowEmail(row: CsvRow): string {
    if row.email.Some? then NormalizeEmail(row.email.value) else ""
  }

  /** The row's number after rewriting, `""` when the column is absent. */
  function RowNumber(row: CsvRow): string {
    if row.contactNumber.Some? then FormatCsvNumber(Trim(row.contactNumber.value)) else ""
  }

  /** One iteration of the import loop: the presence and email checks
      report every failure of the row; only a row that passes them has its
      rewritten number checked. */
  /** The messages of the presence and email checks, in the page's order. */
  function RowErrors(row: CsvRow, index: nat): seq<string>
  {
    var email := RowEmail(row);
    (if MissingField(row.fullName) then [MissingNameMessage(index)] else [])
    + (if MissingField(row.contactNumber) then [MissingNumberMessage(index)] else [])
    + (if !EmailAllowed(email) then [InvalidEmailMessage(index, email)] else [])
  }

  /** Each message of `RowErrors` belongs to a check that failed. */
  lemma RowErrorsFromFailures(row: CsvRow, index: nat)
    ensures forall m :: m in RowErrors(row, index) ==>
      || (m == MissingNameMessage(index) && MissingField(row.fullName))
      || (m == MissingNumberMessage(index) && MissingField(row.contactNumber))
      || (m == InvalidEmailMessage(index, RowEmail(row)) && !EmailAllowed(RowEmail(row)))
  {
  }

  function CheckRow(row: CsvRow, index: nat, id: string): RowOutcome
  {
    var email := RowEmail(row);
    var errors := RowErrors(row, index);
    if errors != [] then
      Rejected(errors)
    else if !IsValidNumber(RowNumber(row)) then
      Rejected([InvalidNumberMessage(index, Trim(row.contactNumber.value), RowNumber(row))])
    else
      Accepted(User(id, Trim(row.fullName.value), RowNumber(row), if email == "" then None else Some(email)))
  }

  /** A row is imported exactly when its name and number are present, its
      email is allowed and its rewritten number has 10-15 digits; the user
      gets the trimmed name, the rewritten number and the normalised email. */
  lemma CheckRowAccepts(row: CsvRow, index: nat, id: string)
    ensures var o := CheckRow(row, index, id);
      && (o.Accepted? <==>
            !MissingField(row.fullName) && !MissingField(row.contactNumber)
            && EmailAllowed(RowEmail(row)) && IsValidNumber(RowNumber(row)))
      && (o.Accepted? ==>
            && o.user.id == id
            && o.user.name == Trim(row.fullName.value) && o.user.name != ""
            && o.user.whatsappNumber == RowNumber(row)
            && o.user.email == (if RowEmail(row) == "" then None else Some(RowEmail(row))))
  {
  }

  /** A rejected row reports at least one message, each labelled with the
      row: every presence or email failure is reported, the missing name
      first; the number is reported alone, and only when everything else
      passed. */
  lemma CheckRowReports(row: CsvRow, index: nat, id: string)
    ensures var o := CheckRow(row, index, id);
      && (o.Rejected? ==> |o.messages| >= 1 && forall m :: m in o.messages ==> StartsWith(m, RowLabel(index)))
      && (MissingField(row.fullName) ==> o.Rejected? && o.messages[0] == MissingNameMessage(index))
      && (MissingField(row.contactNumber) ==> o.Rejected? && MissingNumberMessage(index) in o.messages)
      && (!EmailAllowed(RowEmail(row)) ==> o.Rejected? && InvalidEmailMessage(index, RowEmail(row)) in o.messages)
      && ((!MissingField(row.fullName) && !MissingField(row.contactNumber) && EmailAllowed(RowEmail(row))
           && !IsValidNumber(RowNumber(row))) ==>
          o == Rejected([InvalidNumberMessage(index, Trim(row.contactNumber.value), RowNumber(row))]))
  {
  }

  /** Every message of a rejected row comes from a failing check: the
      presence and email checks, or the number check once those passed. */
  lemma CheckRowMessagesFromFailures(row: CsvRow, index: nat, id: string)
    ensures var o := CheckRow(row, index, id);
      o.Rejected? ==> forall m :: m in o.messages ==>
        || (m == MissingNameMessage(index) && MissingField(row.fullName))
        || (m == MissingNumberMessage(index) && MissingField(row.contactNumber))
        || (m == InvalidEmailMessage(index, RowEmail(row)) && !EmailAllowed(RowEmail(row)))
        || (&& !MissingField(row.fullName) && !MissingField(row.contactNumber)
            && EmailAllowed(RowEmail(row)) && !IsValidNumber(RowNumber(row))
            && m == InvalidNumberMessage(index, Trim(row.contactNumber.value), RowNumber(row)))
  {
    RowErrorsFromFailures(row, index);
  }

  /** The presence and email failures are reported once each, in the page's
      order: name, then number, then email. */
  lemma CheckRowMessageOrder(row: CsvRow, index: nat, id: string)
    ensures var o := CheckRow(row, index, id);
      var name, number, email := MissingField(row.fullName), MissingField(row.contactNumber), !EmailAllowed(RowEmail(row));
      var n := (if name then 1 else 0) + (if number then 1 else 0) + (if email then 1 else 0);
      && (n > 0 ==> o.Rejected? && |o.messages| == n)
      && (n > 0 && name ==> o.messages[0] == MissingNameMessage(index))
      && (n > 0 && number ==> o.messages[if name then 1 else 0] == MissingNumberMessage(index))
      && (n > 0 && email ==> o.messages[n - 1] == InvalidEmailMessage(index, RowEmail(row)))
  {
  }

  /** The outcome of every data row, in file order. */
  function Outcomes(data: seq<CsvRow>, ids: seq<string>): (os: seq<RowOutcome>)
    requires |ids| == |data|
    ensures |os| == |data|
    ensures forall i :: 0 <= i < |data| ==> os[i] == CheckRow(data[i], i, ids[i])
  {
    seq(|data|, i requires 0 <= i < |data| => CheckRow(data[i], i, ids[i]))
  }

  /** The users of the accepted rows, in order. */
  function AcceptedUsers(os: seq<RowOutcome>): seq<User> {
    if os == [] then []
    else AcceptedUsers(os[..|os| - 1]) + (if os[|os| - 1].Accepted? then [os[|os| - 1].user] else [])
  }

  /** The messages of the rejected rows, in order. */
  function RowMessages(os: seq<RowOutcome>): seq<string> {
    if os == [] then []
    else RowMessages(os[..|os| - 1]) + (if os[|os| - 1].Rejected? then os[|os| - 1].messages else [])
  }

  function RejectedCount(os: seq<RowOutcome>): nat {
    if os == [] then 0
    else RejectedCount(os[..|os| - 1]) + (if os[|os| - 1].Rejected? then 1 else 0)
  }

  /** Every row is counted exactly once, as imported or as invalid. */
  lemma {:induction false} EveryRowCountedOnce(os: seq<RowOutcome>)
    ensures |AcceptedUsers(os)| + RejectedCount(os) == |os|
    decreases |os|
  {
    if os != [] {
      EveryRowCountedOnce(os[..|os| - 1]);
    }
  }

  /** Every imported user comes from an accepted row, and every accepted
      row's user is imported. */
  lemma {:induction false} ImportedAreAccepted(os: seq<RowOutcome>)
    ensures forall u :: u in AcceptedUsers(os) <==> Accepted(u) in os
    decreases |os|
  {
    if os != [] {
      var init := os[..|os| - 1];
      ImportedAreAccepted(init);
      assert os == init + [os[|os| - 1]];
    }
  }

  lemma OutcomesStep(os: seq<RowOutcome>, i: nat)
    requires i < |os|
    ensures AcceptedUsers(os[..i + 1]) == AcceptedUsers(os[..i]) + (if os[i].Accepted? then [os[i].user] else [])
    ensures RowMessages(os[..i + 1]) == RowMessages(os[..i]) + (if os[i].Rejected? then os[i].messages else [])
    ensures RejectedCount(os[..i + 1]) == RejectedCount(os[..i]) + (if os[i].Rejected? then 1 else 0)
  {
    assert os[..i + 1][..i] == os[..i];
  }

  /** The `data.forEach` loop: the counters, the new users and the
      validation messages it accumulates. */
  method ProcessRows(data: seq<CsvRow>, ids: seq<string>)
    returns (newUsers: seq<User>, messages: seq<string>, imported: nat, invalid: nat)
    requires |ids| == |data|
    ensures newUsers == AcceptedUsers(Outcomes(data, ids))
    ensures messages == RowMessages(Outcomes(data, ids))
    ensures imported == |newUsers| && invalid == RejectedCount(Outcomes(data, ids))
    ensures imported + invalid == |data|
  {
    ghost var os := Outcomes(data, ids);
    newUsers, messages, imported, invalid := [], [], 0, 0;
    var index := 0;
    while index < |data|
      invariant 0 <= index <= |data|
      invariant newUsers == AcceptedUsers(os[..index])
      invariant messages == RowMessages(os[..index])
      invariant imported == |newUsers| && invalid == RejectedCount(os[..index])
    {
      var outcome := CheckRow(data[index], index, ids[index]);
      OutcomesStep(os, index);
      match outcome {
        case Rejected(ms) =>
          messages := messages + ms;
          invalid := invalid + 1;
        case Accepted(u) =>
          newUsers := newUsers + [u];
          imported := imported + 1;
      }
      index := index + 1;
    }
    assert os[..|data|] == os;
    EveryRowCountedOnce(os);
  }

  function ParseErrorDetail(e: ParseError): string {
    "Row " + IntToString(e.row) + ": " + e.message
  }

  const PARSE_FAILURE_MESSAGE: string := "Some rows could not be parsed. Please check console for details."

  datatype ImportResult = ImportResult(
    users: seq<User>,
    processingError: Option<string>,
    details: seq<string>,
    imported: nat,
    invalid: nat
  )

  /** The `complete` callback of the CSV parse: with any parse error nothing
      is imported and the details list the parse errors; otherwise the
      accepted users go in front of the existing ones, in file order. */
  method ImportCsv(users: seq<User>, parseErrors: seq<ParseError>, data: seq<CsvRow>, ids: seq<string>)
    returns (r: ImportResult)
    requires |ids| == |data|
    ensures parseErrors != [] ==>
      && r.users == users && r.processingError == Some(PARSE_FAILURE_MESSAGE)
      && |r.details| == |parseErrors|
      && (forall i :: 0 <= i < |parseErrors| ==> r.details[i] == ParseErrorDetail(parseErrors[i]))
      && r.imported == 0 && r.invalid == 0
    ensures parseErrors == [] ==>
      && r.users == AcceptedUsers(Outcomes(data, ids)) + users
      && r.processingError == None
      && r.details == RowMessages(Outcomes(data, ids))
      && r.imported == |AcceptedUsers(Outcomes(data, ids))|
      && r.imported + r.invalid == |data|
  {
    if parseErrors != [] {
      var details := seq(|parseErrors|, i requires 0 <= i < |parseErrors| => ParseErrorDetail(parseErrors[i]));
      return ImportResult(users, Some(PARSE_FAILURE_MESSAGE), details, 0, 0);
    }
    var newUsers, messages, imported, invalid := ProcessRows(data, ids);
    var next := if |newUsers| > 0 then newUsers + users else users;
    r := ImportResult(next, None, messages, imported, invalid);
  }

  // ---------------------------------------------------------------------
  // Add / edit form
  // ---------------------------------------------------------------------

  const NAME_EMPTY: string := "User name cannot be empty."
  const NUMBER_EMPTY: string := "WhatsApp number cannot be empty."
  const NUMBER_INVALID: string := "Invalid WhatsApp number. Must be 10-15 digits (e.g., 1234567890)."
  const EMAIL_INVALID: string := "Invalid email format."

  /** The fields a valid form saves. */
  datatype UserFields = UserFields(name: string, whatsappNumber: string, email: Option<string>)

  /** `whatsapp.trim().replace(/\s+/g, '')`: the form's number, without any
      country-code rewriting. */
  function FormNumber(whatsapp: string): string {
    RemoveWhitespace(Trim(whatsapp))
  }

  /** The checks shared by `handleSaveNewUser` and `handleSaveEditedUser`,
      in their order; the first failing one names the error. */
  function ValidateUserForm(name: string, whatsapp: string, email: string): (r: Result<UserFields, string>)
    ensures r.Ok? <==> !Blank(name) && IsValidNumber(FormNumber(whatsapp)) && EmailAllowed(NormalizeEmail(email))
    ensures r.Ok? ==>
      && r.value.name == Trim(name) && r.value.name != ""
      && r.value.whatsappNumber == FormNumber(whatsapp)
      && r.value.email == (if NormalizeEmail(email) == "" then None else Some(NormalizeEmail(email)))
    ensures Blank(name) ==> r == Err(NAME_EMPTY)
    ensures !Blank(name) && FormNumber(whatsapp) == "" ==> r == Err(NUMBER_EMPTY)
    ensures !Blank(name) && FormNumber(whatsapp) != "" && !IsValidNumber(FormNumber(whatsapp)) ==> r == Err(NUMBER_INVALID)
    ensures !Blank(name) && IsValidNumber(FormNumber(whatsapp)) && !EmailAllowed(NormalizeEmail(email)) ==>
      r == Err(EMAIL_INVALID)
  {
    var number := FormNumber(whatsapp);
    var emailProcessed := NormalizeEmail(email);
    if Trim(name) == "" then Err(NAME_EMPTY)
    else if number == "" then Err(NUMBER_EMPTY)
    else if !IsValidNumber(number) then Err(NUMBER_INVALID)
    else if emailProcessed != "" && !MatchesEmailPattern(emailProcessed) then Err(EMAIL_INVALID)
    else Ok(UserFields(Trim(name), number, if emailProcessed == "" then None else Some(emailProcessed)))
  }

  /** What every stored user satisfies: a trimmed non-empty name, a number
      of 10-15 digits, and an absent or normalised, well-formed email. */
  predicate WellFormedUser(u: User) {
    && u.name != "" && Trim(u.name) == u.name
    && IsValidNumber(u.whatsappNumber)
    && (u.email.Some? ==> u.email.value != "" && NormalizeEmail(u.email.value) == u.email.value
                          && MatchesEmailPattern(u.email.value))
  }

  /** The fields a valid form produces make a well-formed user. */
  lemma FormFieldsWellFormed(name: string, whatsapp: string, email: string, id: string)
    requires ValidateUserForm(name, whatsapp, email).Ok?
    ensures var f := ValidateUserForm(name, whatsapp, email).value;
      WellFormedUser(User(id, f.name, f.whatsappNumber, f.email))
  {
    TrimIdempotent(name);
    NormalizeEmailIdempotent(email);
  }

  /** The CSV import stores only well-formed users. */
  lemma CsvUserWellFormed(row: CsvRow, index: nat, id: string)
    requires CheckRow(row, index, id).Accepted?
    ensures WellFormedUser(CheckRow(row, index, id).user)
  {
    CheckRowAccepts(row, index, id);
    var u := CheckRow(row, index, id).user;
    assert u.name == Trim(row.fullName.value) && u.name != "";
    TrimIdempotent(row.fullName.value);
    assert IsValidNumber(u.whatsappNumber);
    var e := RowEmail(row);
    assert u.email == (if e == "" then None else Some(e));
    if e != "" {
      assert MatchesEmailPattern(e);
      NormalizeEmailIdempotent(row.email.value);
    }
  }

  /** A stored number is its own form number. */
  lemma StoredNumberIsFormNumber(n: string)
    requires IsValidNumber(n)
    ensures FormNumber(n) == n
  {
    assert NoWhitespace(n);
    TrimOfCompact(n);
  }

  /** A stored email, or the empty field of a user without one, normalises
      to itself, is allowed, and is saved back as it was. */
  lemma StoredEmailPasses(u: User)
    requires WellFormedUser(u)
    ensures var e := u.email.GetOr("");
      && NormalizeEmail(e) == e && EmailAllowed(e)
      && (if e == "" then None else Some(e)) == u.email
  {
    if u.email.None? {
      assert Blank("");
    }
  }

  /** A well-formed user passes the add/edit form unchanged: re-saving a
      stored user in the edit dialog keeps every field. */
  lemma WellFormedUserPassesForm(u: User)
    requires WellFormedUser(u)
    ensures ValidateUserForm(u.name, u.whatsappNumber, u.email.GetOr("")) == Ok(UserFields(u.name, u.whatsappNumber, u.email))
  {
    assert !Blank(u.name);
    StoredNumberIsFormNumber(u.whatsappNumber);
    StoredEmailPasses(u);
  }

  /** A user the CSV import accepts passes the add/edit form unchanged:
      both paths agree on what a valid stored user is. */
  lemma CsvUserPassesForm(row: CsvRow, index: nat, id: string)
    requires CheckRow(row, index, id).Accepted?
    ensures var u := CheckRow(row, index, id).user;
      ValidateUserForm(u.name, u.whatsappNumber, u.email.GetOr("")) == Ok(UserFields(u.name, u.whatsappNumber, u.email))
  {
    CsvUserWellFormed(row, index, id);
    WellFormedUserPassesForm(CheckRow(row, index, id).user);
  }
}
