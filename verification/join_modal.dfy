/**
 * The "Join the program" dialog: field validation (including the email
 * pattern), the lead record stored on submit, and the Tab focus wrap.
 */
module JoinModal {
  import opened Wrappers
  import opened JsValue
  import opened JsText
  import opened CourseContent
  import Storage

  const NameRequired := "Name is required."
  const EmailRequired := "Email is required."
  const EmailInvalid := "Enter a valid email."
  const SubmittedEvent := "join_submitted"
  const WelcomePath := "/welcome"

  // ---- /^[^\s@]+@[^\s@]+\.[^\s@]+$/ ----

  /** Matches `[^\s@]+` minus the length: no whitespace, no `@`. */
  predicate Plain(t: string) {
    forall k | 0 <= k < |t| :: !IsWhitespace(t[k]) && t[k] != '@'
  }

  /** The regular expression read literally: three non-empty plain runs
      separated by `@` and `.`. */
  ghost predicate MatchesEmailPattern(s: string) {
    exists i, j | 0 < i && i + 1 < j < |s| - 1 ::
      s[i] == '@' && s[j] == '.' && Plain(s[..i]) && Plain(s[i + 1..j]) && Plain(s[j + 1..])
  }

  /** The same language described by its parts: no whitespace, exactly one
      `@` with something before it, and a `.` after it that is neither the
      first nor the last character of what follows the `@`. */
  predicate IsValidEmail(s: string) {
    (forall k | 0 <= k < |s| :: !IsWhitespace(s[k])) &&
    exists i | 0 < i < |s| ::
      s[i] == '@' &&
      (forall k | 0 <= k < |s| && k != i :: s[k] != '@') &&
      (exists j | i + 1 < j < |s| - 1 :: s[j] == '.')
  }

  /** A match of the literal pattern has the described parts. */
  lemma PatternGivesParts(s: string, i: int, j: int)
    requires 0 < i && i + 1 < j < |s| - 1
    requires s[i] == '@' && s[j] == '.' && Plain(s[..i]) && Plain(s[i + 1..j]) && Plain(s[j + 1..])
    ensures IsValidEmail(s)
  {
    forall k | 0 <= k < |s| && k != i
      ensures !IsWhitespace(s[k]) && s[k] != '@'
    {
      if k < i {
        assert s[..i][k] == s[k];
      } else if k < j {
        assert s[i + 1..j][k - i - 1] == s[k];
      } else if k > j {
        assert s[j + 1..][k - j - 1] == s[k];
      }
    }
  }

  /** Described parts give a match of the literal pattern. */
  lemma PartsGivePattern(s: string, i: int, j: int)
    requires 0 < i && i + 1 < j < |s| - 1 && s[i] == '@' && s[j] == '.'
    requires forall k | 0 <= k < |s| :: !IsWhitespace(s[k])
    requires forall k | 0 <= k < |s| && k != i :: s[k] != '@'
    ensures MatchesEmailPattern(s)
  {
    assert Plain(s[..i]);
    assert Plain(s[i + 1..j]);
    assert Plain(s[j + 1..]);
  }

  /** The compiled check accepts exactly the strings the pattern matches. */
  lemma EmailPatternIff(s: string)
    ensures MatchesEmailPattern(s) <==> IsValidEmail(s)
  {
    if MatchesEmailPattern(s) {
      var i, j :| 0 < i && i + 1 < j < |s| - 1 &&
        s[i] == '@' && s[j] == '.' && Plain(s[..i]) && Plain(s[i + 1..j]) && Plain(s[j + 1..]);
      PatternGivesParts(s, i, j);
    }
    if IsValidEmail(s) {
      var i :| 0 < i < |s| && s[i] == '@' &&
        (forall k | 0 <= k < |s| && k != i :: s[k] != '@') &&
        (exists j | i + 1 < j < |s| - 1 :: s[j] == '.');
      var j :| i + 1 < j < |s| - 1 && s[j] == '.';
      PartsGivePattern(s, i, j);
    }
  }

  /** Some inputs on either side of the pattern. */
  lemma EmailExamples()
    ensures IsValidEmail("a@b.co")
    ensures !IsValidEmail("a@b.")
    ensures !IsValidEmail("@b.co")
    ensures !IsValidEmail("a@@b.co")
    ensures !IsValidEmail("a b@c.de")
  {
    var s := "a@b.co";
    assert s[1] == '@' && s[3] == '.';
    var t := "a@@b.co";
    assert t[1] == '@' && t[2] == '@';
    var u := "a b@c.de";
    assert IsWhitespace(u[1]);
  }

  // ---- validate ----

  datatype Errors = Errors(name: Option<string>, email: Option<string>)

  /** The errors `validate` records for the current field values. */
  function ValidationErrors(name: string, email: string): Errors {
    var nameError := if Trim(name) == [] then Some(NameRequired) else None;
    var emailError :=
      if Trim(email) == [] then Some(EmailRequired)
      else if !IsValidEmail(Trim(email)) then Some(EmailInvalid)
      else None;
    Errors(nameError, emailError)
  }

  /** A name error exactly when the trimmed name is empty; an email error
      exactly when the trimmed email is empty (required) or does not match
      the pattern (invalid); the form passes only with both fields filled
      and a well-formed email. */
  lemma ValidationErrorsMeaning(name: string, email: string)
    ensures var e := ValidationErrors(name, email);
            (e.name.Some? <==> Trim(name) == []) &&
            (e.name.Some? ==> e.name.value == NameRequired) &&
            (Trim(email) == [] <==> e.email == Some(EmailRequired)) &&
            (Trim(email) != [] ==> (e.email == Some(EmailInvalid) <==> !MatchesEmailPattern(Trim(email)))) &&
            (e == Errors(None, None) <==> Trim(name) != [] && Trim(email) != [] && MatchesEmailPattern(Trim(email)))
  {
    EmailPatternIff(Trim(email));
  }

  /** A name or email made only of whitespace is treated as missing. */
  lemma BlankFieldsRequired(name: string, email: string)
    requires AllWhitespace(name) && AllWhitespace(email)
    ensures ValidationErrors(name, email) == Errors(Some(NameRequired), Some(EmailRequired))
  {
    TrimEmptyIff(name);
    TrimEmptyIff(email);
  }

  /** The lead record built on submit. */
  function LeadPayload(name: string, email: string, experience: Track, goals: string, submittedAt: string)
    : Value
  {
    Obj(map["name" := Str(Trim(name)), "email" := Str(Trim(email)), "experience" := Str(experience.Name()),
            "goals" := Str(Trim(goals)), "submittedAt" := Str(submittedAt)])
  }

  /** What a submit that passed validation stores: the trimmed name, which
      is not empty, the trimmed email, which the pattern matches, the
      trimmed goals, the chosen track and the submission time. */
  lemma SubmittedLeadIsValid(name: string, email: string, experience: Track, goals: string, submittedAt: string)
    requires ValidationErrors(name, email) == Errors(None, None)
    ensures var p := LeadPayload(name, email, experience, goals, submittedAt);
            p.Obj? && Trim(name) != [] && MatchesEmailPattern(Trim(email)) &&
            "name" in p.fields && p.fields["name"] == Str(Trim(name)) &&
            "email" in p.fields && p.fields["email"] == Str(Trim(email)) &&
            "goals" in p.fields && p.fields["goals"] == Str(Trim(goals)) &&
            "experience" in p.fields && p.fields["experience"] == Str(experience.Name()) &&
            "submittedAt" in p.fields && p.fields["submittedAt"] == Str(submittedAt)
  {
    LeadPayloadFields(name, email, experience, goals, submittedAt);
    ValidFormIsFilled(name, email);
  }

  /** The lead record carries the five fields `handleSubmit` builds. */
  lemma LeadPayloadFields(name: string, email: string, experience: Track, goals: string, submittedAt: string)
    ensures var p := LeadPayload(name, email, experience, goals, submittedAt);
            p.Obj? &&
            "name" in p.fields && p.fields["name"] == Str(Trim(name)) &&
            "email" in p.fields && p.fields["email"] == Str(Trim(email)) &&
            "goals" in p.fields && p.fields["goals"] == Str(Trim(goals)) &&
            "experience" in p.fields && p.fields["experience"] == Str(experience.Name()) &&
            "submittedAt" in p.fields && p.fields["submittedAt"] == Str(submittedAt)
  {
  }

  /** A form with no errors has a name and an email the pattern matches. */
  lemma ValidFormIsFilled(name: string, email: string)
    requires ValidationErrors(name, email) == Errors(None, None)
    ensures Trim(name) != [] && MatchesEmailPattern(Trim(email))
  {
    ValidationErrorsMeaning(name, email);
  }

  /** `aa.lead.${Date.now()}`. */
  function LeadKey(nowMs: int): string {
    "aa.lead." + IntToDecimal(nowMs)
  }

  /** Leads submitted at different milliseconds are stored under
      different keys, so one never overwrites another. */
  lemma LeadKeysDistinct(a: nat, b: nat)
    requires a != b
    ensures LeadKey(a) != LeadKey(b)
  {
    DecimalRoundTrip(a);
    DecimalRoundTrip(b);
    var p := "aa.lead.";
    assert LeadKey(a)[|p|..] == NatToDecimal(a);
    assert LeadKey(b)[|p|..] == NatToDecimal(b);
  }

  // ---- focus trap ----

  datatype Key = Escape | Tab | OtherKey

  datatype KeyAction = Close | FocusAt(index: nat) | NoOverride

  /** The keydown handler: `count` focusable elements in the dialog and the
      index of the focused one among them, if it is one of them. */
  function OnKeydown(key: Key, shift: bool, count: nat, active: Option<nat>): (a: KeyAction)
    ensures a == Close <==> key == Escape
    ensures a.FocusAt? ==> key == Tab && count > 0 && a.index < count
    ensures key == Tab && !shift && count > 0 && active == Some(count - 1) ==> a == FocusAt(0)
    ensures key == Tab && shift && count > 0 && active == Some(0) ==> a == FocusAt(count - 1)
    ensures key == Tab && !(count > 0 && active == Some(if shift then 0 else count - 1)) ==> a == NoOverride
  {
    match key
    case Escape => Close
    case OtherKey => NoOverride
    case Tab =>
      if count == 0 then NoOverride
      else if !shift && active == Some(count - 1) then FocusAt(0)
      else if shift && active == Some(0) then FocusAt(count - 1)
      else NoOverride
  }

  class Dialog {
    const store: Storage.LocalStorage
    var open: bool
    var name: string
    var email: string
    var experience: Track
    var goals: string
    var errors: Errors
    /** Where `router.push` was last sent, if anywhere. */
    var navigatedTo: Option<string>

    constructor(store: Storage.LocalStorage, defaultExperience: Track)
      ensures this.store == store && open && experience == defaultExperience
      ensures name == "" && email == "" && goals == "" && errors == Errors(None, None) && navigatedTo.None?
    {
      this.store := store;
      open := true;
      name := "";
      email := "";
      experience := defaultExperience;
      goals := "";
      errors := Errors(None, None);
      navigatedTo := None;
    }

    /** `validate()`: records the errors and reports whether there are none. */
    method Validate() returns (ok: bool)
      modifies this`errors
      ensures errors == ValidationErrors(name, email)
      ensures ok <==> errors == Errors(None, None)
    {
      var nextErrors := Errors(None, None);
      if Trim(name) == [] {
        nextErrors := nextErrors.(name := Some(NameRequired));
      }
      if Trim(email) == [] {
        nextErrors := nextErrors.(email := Some(EmailRequired));
      } else if !IsValidEmail(Trim(email)) {
        nextErrors := nextErrors.(email := Some(EmailInvalid));
      }
      errors := nextErrors;
      ok := nextErrors == Errors(None, None);
    }

    /** `closeModal()`. */
    method CloseModal()
      modifies this`open, this`errors
      ensures !open && errors == Errors(None, None)
    {
      open := false;
      errors := Errors(None, None);
    }

    /** The browser-only part of `handleSubmit`: `setJson` of the lead and
        the logger call. */
    method StoreLead(payload: Value, nowMs: int, logInstalled: bool, logTimestamp: string)
      requires store.isBrowser
      modifies store`items
      ensures var stored := old(store.items)[LeadKey(nowMs) := store.stringify(payload)];
              store.items == if logInstalled then store.AfterAppend(stored, SubmittedEvent, payload, logTimestamp)
                             else stored
    {
      store.SetJson(LeadKey(nowMs), payload);
      if logInstalled {
        store.AppendEvent(SubmittedEvent, payload, logTimestamp);
      }
    }

    /** The valid branch of `handleSubmit`: store and log the lead in a
        browser, then close and go to /welcome. */
    method Submit(nowMs: int, submittedAt: string, logInstalled: bool, logTimestamp: string)
      modifies this`errors, this`open, this`navigatedTo, store`items
      ensures errors == Errors(None, None) && !open && navigatedTo == Some(WelcomePath)
      ensures store.isBrowser ==>
                var payload := LeadPayload(name, email, experience, goals, submittedAt);
                var stored := old(store.items)[LeadKey(nowMs) := store.stringify(payload)];
                store.items == if logInstalled then store.AfterAppend(stored, SubmittedEvent, payload, logTimestamp)
                               else stored
      ensures !store.isBrowser ==> store.items == old(store.items)
    {
      var payload := LeadPayload(name, email, experience, goals, submittedAt);
      if store.isBrowser {
        StoreLead(payload, nowMs, logInstalled, logTimestamp);
      }
      CloseModal();
      navigatedTo := Some(WelcomePath);
    }

    /** `handleSubmit`: an invalid form only shows its errors; a valid one
        stores the lead, logs it, closes and goes to /welcome. `nowMs`,
        `submittedAt` and `logTimestamp` are the clock readings of
        `Date.now()`, the payload's `toISOString()` and the logger's. */
    method HandleSubmit(nowMs: int, submittedAt: string, logInstalled: bool, logTimestamp: string)
      modifies this`errors, this`open, this`navigatedTo, store`items
      ensures old(ValidationErrors(name, email)) != Errors(None, None) ==>
                errors == ValidationErrors(name, email) && open == old(open) &&
                navigatedTo == old(navigatedTo) && store.items == old(store.items)
      ensures old(ValidationErrors(name, email)) == Errors(None, None) ==>
                errors == Errors(None, None) && !open && navigatedTo == Some(WelcomePath)
      ensures old(ValidationErrors(name, email)) == Errors(None, None) && store.isBrowser ==>
                var payload := LeadPayload(name, email, experience, goals, submittedAt);
                var stored := old(store.items)[LeadKey(nowMs) := store.stringify(payload)];
                store.items == if logInstalled then store.AfterAppend(stored, SubmittedEvent, payload, logTimestamp)
                               else stored
      ensures !store.isBrowser ==> store.items == old(store.items)
    {
      var ok := Validate();
      if ok {
        Submit(nowMs, submittedAt, logInstalled, logTimestamp);
      }
    }
  }
}
