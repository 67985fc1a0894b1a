/** Validation of the contact form (js/main.js, `initContactForm`): the
    per-field rules, the e-mail syntax check, the whole-form check, and the
    error marks that `showFieldError` and `clearFieldError` leave on the page. */
module ContactForm {
  import opened Wrappers
  import opened Text

  const RequiredMessage := "Field ini wajib diisi"
  const EmailMessage := "Format email tidak valid"
  const ProjectTypeMessage := "Pilih minimal satu jenis proyek"
  const PrivacyMessage := "Anda harus menyetujui kebijakan privasi"

  /** A run of characters that `[^\s@]` accepts: no whitespace and no `@`. */
  predicate Plain(s: string) {
    forall k | 0 <= k < |s| :: !IsSpace(s[k]) && s[k] != '@'
  }

  /** The regular expression `^[^\s@]+@[^\s@]+\.[^\s@]+$`, read off
      directly: a non-empty plain run, `@`, a non-empty plain run, `.`, and a
      non-empty plain run, covering the whole string. The middle run may
      itself contain dots; any dot with plain text on both sides will do. */
  ghost predicate MatchesEmailPattern(s: string) {
    exists i, j :: EmailSplitAt(s, i, j)
  }

  /** `s` matches the pattern with its `@` at `i` and the chosen `.` at `j`. */
  ghost predicate EmailSplitAt(s: string, i: int, j: int) {
    0 < i && i + 1 < j && j + 1 < |s| && s[i] == '@' && s[j] == '.' &&
    Plain(s[..i]) && Plain(s[i + 1..j]) && Plain(s[j + 1..])
  }

  /** The e-mail check in words: no whitespace anywhere, exactly one `@`,
      something before it, and after it a `.` with text on both sides. */
  predicate IsEmail(s: string) {
    var at := IndexOf(s, '@');
    var domain := if at < |s| then s[at + 1..] else "";
    (forall k | 0 <= k < |s| :: !IsSpace(s[k])) &&
    0 < at < |s| && '@' !in domain &&
    exists d | 0 < d < |domain| - 1 :: domain[d] == '.'
  }

  /** The check in words accepts exactly the strings the regular expression
      matches. */
  lemma EmailCheckMatchesPattern(s: string)
    ensures IsEmail(s) <==> MatchesEmailPattern(s)
  {
    if IsEmail(s) {
      EmailCheckSound(s);
    }
    if MatchesEmailPattern(s) {
      EmailCheckComplete(s);
    }
  }

  lemma EmailCheckSound(s: string)
    requires IsEmail(s)
    ensures MatchesEmailPattern(s)
  {
    var at := IndexOf(s, '@');
    var domain := s[at + 1..];
    var d :| 0 < d < |domain| - 1 && domain[d] == '.';
    var j := at + 1 + d;
    assert s[j] == '.';
    assert Plain(s[..at]);
    assert s[at + 1..j] == domain[..d];
    assert s[j + 1..] == domain[d + 1..];
    assert EmailSplitAt(s, at, j);
  }

  lemma EmailCheckComplete(s: string)
    requires MatchesEmailPattern(s)
    ensures IsEmail(s)
  {
    var i, j :| EmailSplitAt(s, i, j);
    var at := IndexOf(s, '@');
    assert at == i;
    var domain := s[at + 1..];
    forall k | 0 <= k < |s|
      ensures !IsSpace(s[k])
    {
      if k < i {
        assert s[k] == s[..i][k];
      } else if i < k < j {
        assert s[k] == s[i + 1..j][k - i - 1];
      } else if j < k {
        assert s[k] == s[j + 1..][k - j - 1];
      }
    }
    forall k | 0 <= k < |domain|
      ensures domain[k] != '@'
    {
      if k + at + 1 < j {
        assert domain[k] == s[i + 1..j][k];
      } else if k + at + 1 > j {
        assert domain[k] == s[j + 1..][k + at - j];
      }
    }
    assert domain[j - at - 1] == '.';
  }

  /** An input of the form, as validation sees it: its `name` attribute,
      whether it carries `required`, and its raw `value`. */
  datatype Field = Field(name: string, required: bool, value: string)

  /** A required field whose trimmed value is empty. */
  predicate RequiredFails(f: Field) {
    f.required && Trim(f.value) == ""
  }

  /** The e-mail field with a non-empty trimmed value that fails the check. */
  predicate EmailFails(f: Field) {
    var value := Trim(f.value);
    f.name == "email" && value != "" && !IsEmail(value)
  }

  /** A `project-type` checkbox while no project type is checked. */
  predicate ProjectTypeFails(f: Field, projectTypesChecked: nat) {
    f.name == "project-type" && projectTypesChecked == 0
  }

  /** What `validateField` decides: `None` when the field is valid, else the
      message it shows. The rules are checked in the order required, e-mail,
      project type, and a later failure's message replaces an earlier one. */
  function Verdict(f: Field, projectTypesChecked: nat): Option<string> {
    if ProjectTypeFails(f, projectTypesChecked) then Some(ProjectTypeMessage)
    else if EmailFails(f) then Some(EmailMessage)
    else if RequiredFails(f) then Some(RequiredMessage)
    else None
  }

  /** A field is valid exactly when no rule fails. The project-type message
      wins over any other; otherwise the message names the one rule that
      failed, since the required rule and the e-mail rule never fail
      together (the e-mail check runs only on a non-empty value). */
  lemma VerdictRules(f: Field, projectTypesChecked: nat)
    ensures var v := Verdict(f, projectTypesChecked);
      && (v.None? <==>
          !RequiredFails(f) && !EmailFails(f) && !ProjectTypeFails(f, projectTypesChecked))
      && (ProjectTypeFails(f, projectTypesChecked) ==> v == Some(ProjectTypeMessage))
      && (v == Some(RequiredMessage) <==>
          RequiredFails(f) && !ProjectTypeFails(f, projectTypesChecked))
      && (v == Some(EmailMessage) <==>
          EmailFails(f) && !ProjectTypeFails(f, projectTypesChecked))
      && !(RequiredFails(f) && EmailFails(f))
  {
  }
  /** The element a message is attached to: an input, the group of
      project-type checkboxes, or the privacy checkbox item. */
  datatype Target = Input(index: nat) | ProjectTypeGroup | PrivacyItem

  /** The error element's text and whether the target carries the `error`
      class. */
  datatype ErrorMark = ErrorMark(message: string, marked: bool)

  const Clean := ErrorMark("", false)

  /** The mark `validateField` leaves for a verdict. */
  function MarkFor(v: Option<string>): (m: ErrorMark)
    ensures m.marked <==> v.Some?
    ensures v.Some? ==> m.message == v.value
  {
    match v
    case None => Clean
    case Some(message) => ErrorMark(message, true)
  }

  /** The marks `validateField` leaves on the inputs `fields`, in order. */
  function InputMarks(fields: seq<Field>, projectTypesChecked: nat): (ms: seq<ErrorMark>)
    ensures |ms| == |fields|
    decreases |fields|
  {
    if fields == [] then []
    else [MarkFor(Verdict(fields[0], projectTypesChecked))] + InputMarks(fields[1..], projectTypesChecked)
  }

  /** Each input gets the mark of its own verdict: marked, with the verdict's
      message, exactly when the field fails a rule. */
  lemma {:induction false} InputMarksAt(fields: seq<Field>, projectTypesChecked: nat, i: nat)
    requires i < |fields|
    ensures InputMarks(fields, projectTypesChecked)[i] == MarkFor(Verdict(fields[i], projectTypesChecked))
    decreases i
  {
    if i > 0 {
      InputMarksAt(fields[1..], projectTypesChecked, i - 1);
    }
  }

  class Form {
    var inputs: seq<Field>
    var projectTypesChecked: nat
    var privacyChecked: bool
    /** The mark on each input, the checkbox group and the privacy item. */
    var inputMarks: seq<ErrorMark>
    var groupMark: ErrorMark
    var privacyMark: ErrorMark

    /** Every input has its own mark. */
    predicate Valid()
      reads this
    {
      |inputMarks| == |inputs|
    }

    constructor (inputs: seq<Field>, projectTypesChecked: nat, privacyChecked: bool)
      ensures Valid()
      ensures this.inputs == inputs && this.projectTypesChecked == projectTypesChecked
      ensures this.privacyChecked == privacyChecked
      ensures forall i | 0 <= i < |inputs| :: inputMarks[i] == Clean
      ensures groupMark == Clean && privacyMark == Clean
    {
      this.inputs := inputs;
      this.projectTypesChecked := projectTypesChecked;
      this.privacyChecked := privacyChecked;
      inputMarks := seq(|inputs|, _ => Clean);
      groupMark, privacyMark := Clean, Clean;
    }

    /** Put `mark` on target `t` and leave every other mark as it was. */
    method SetMark(t: Target, mark: ErrorMark)
      requires Valid() && (t.Input? ==> t.index < |inputs|)
      modifies this
      ensures Valid()
      ensures inputs == old(inputs) && projectTypesChecked == old(projectTypesChecked)
      ensures privacyChecked == old(privacyChecked)
      ensures inputMarks == if t.Input? then old(inputMarks)[t.index := mark] else old(inputMarks)
      ensures groupMark == if t.ProjectTypeGroup? then mark else old(groupMark)
      ensures privacyMark == if t.PrivacyItem? then mark else old(privacyMark)
    {
      match t
      case Input(i) => inputMarks := inputMarks[i := mark];
      case ProjectTypeGroup => groupMark := mark;
      case PrivacyItem => privacyMark := mark;
    }

    /** `showFieldError`: set the message and add the `error` class. */
    method ShowFieldError(t: Target, message: string)
      requires Valid() && (t.Input? ==> t.index < |inputs|)
      modifies this
      ensures Valid()
      ensures inputs == old(inputs) && projectTypesChecked == old(projectTypesChecked)
      ensures privacyChecked == old(privacyChecked)
      ensures inputMarks == if t.Input? then old(inputMarks)[t.index := ErrorMark(message, true)] else old(inputMarks)
      ensures groupMark == if t.ProjectTypeGroup? then ErrorMark(message, true) else old(groupMark)
      ensures privacyMark == if t.PrivacyItem? then ErrorMark(message, true) else old(privacyMark)
    {
      SetMark(t, ErrorMark(message, true));
    }

    /** `clearFieldError`: empty the message and remove the `error` class. */
    method ClearFieldError(t: Target)
      requires Valid() && (t.Input? ==> t.index < |inputs|)
      modifies this
      ensures Valid()
      ensures inputs == old(inputs) && projectTypesChecked == old(projectTypesChecked)
      ensures privacyChecked == old(privacyChecked)
      ensures inputMarks == if t.Input? then old(inputMarks)[t.index := Clean] else old(inputMarks)
      ensures groupMark == if t.ProjectTypeGroup? then Clean else old(groupMark)
      ensures privacyMark == if t.PrivacyItem? then Clean else old(privacyMark)
    {
      SetMark(t, Clean);
    }

    /** `validateField`: returns whether the field is valid and leaves an
        error mark on it exactly when it is not. */
    method ValidateField(i: nat) returns (isValid: bool)
      requires Valid() && i < |inputs|
      modifies this
      ensures Valid()
      ensures inputs == old(inputs) && projectTypesChecked == old(projectTypesChecked)
      ensures privacyChecked == old(privacyChecked)
      ensures isValid <==> Verdict(inputs[i], projectTypesChecked).None?
      ensures inputMarks == old(inputMarks)[i := MarkFor(Verdict(inputs[i], projectTypesChecked))]
      ensures groupMark == old(groupMark) && privacyMark == old(privacyMark)
    {
      var field := inputs[i];
      var value := Trim(field.value);
      isValid := true;
      var errorMessage := "";
      if field.required && value == "" {
        isValid := false;
        errorMessage := RequiredMessage;
      }
      if field.name == "email" && value != "" {
        if !IsEmail(value) {
          isValid := false;
          errorMessage := EmailMessage;
        }
      }
      if field.name == "project-type" {
        if projectTypesChecked == 0 {
          isValid := false;
          errorMessage := ProjectTypeMessage;
        }
      }
      if !isValid {
        ShowFieldError(Input(i), errorMessage);
      } else {
        ClearFieldError(Input(i));
      }
    }

    /** One pass of the loop below: `validateField` on input `n`, seen
        through the marks the whole loop is to leave. */
    method ValidateNext(n: nat, ghost marks: seq<ErrorMark>) returns (ok: bool)
      requires Valid() && n < |inputs| && marks == InputMarks(inputs, projectTypesChecked)
      modifies this
      ensures Valid()
      ensures inputs == old(inputs) && projectTypesChecked == old(projectTypesChecked)
      ensures privacyChecked == old(privacyChecked)
      ensures ok == !marks[n].marked && inputMarks == old(inputMarks)[n := marks[n]]
      ensures groupMark == old(groupMark) && privacyMark == old(privacyMark)
    {
      InputMarksAt(inputs, projectTypesChecked, n);
      ok := ValidateField(n);
    }

    /** The loop of `validateForm`: `validateField` on every input in turn,
        with no short cut after the first failure. */
    method ValidateInputs() returns (allValid: bool)
      requires Valid()
      modifies this
      ensures Valid()
      ensures inputs == old(inputs) && projectTypesChecked == old(projectTypesChecked)
      ensures privacyChecked == old(privacyChecked)
      ensures inputMarks == InputMarks(inputs, projectTypesChecked)
      ensures allValid <==> forall i | 0 <= i < |inputs| :: !inputMarks[i].marked
      ensures groupMark == old(groupMark) && privacyMark == old(privacyMark)
    {
      ghost var marks := InputMarks(inputs, projectTypesChecked);
      allValid := true;
      var n := 0;
      while n < |inputs|
        invariant n <= |inputs| && Valid()
        invariant inputs == old(inputs) && projectTypesChecked == old(projectTypesChecked)
        invariant privacyChecked == old(privacyChecked)
        invariant groupMark == old(groupMark) && privacyMark == old(privacyMark)
        invariant inputMarks[..n] == marks[..n]
        invariant allValid <==> forall i | 0 <= i < n :: !marks[i].marked
      {
        var ok := ValidateNext(n, marks);
        if !ok {
          allValid := false;
        }
        n := n + 1;
      }
      assert inputMarks == inputMarks[..n];
    }

    /** `validateForm`: every input, then the project-type group and the
        privacy checkbox; the form is valid only if all of them are. */
    method ValidateForm() returns (isValid: bool)
      requires Valid()
      modifies this
      ensures Valid()
      ensures inputs == old(inputs) && projectTypesChecked == old(projectTypesChecked)
      ensures privacyChecked == old(privacyChecked)
      ensures inputMarks == InputMarks(inputs, projectTypesChecked)
      ensures isValid <==>
        (forall i | 0 <= i < |inputs| :: !inputMarks[i].marked) &&
        projectTypesChecked > 0 && privacyChecked
      ensures groupMark ==
        if projectTypesChecked == 0 then ErrorMark(ProjectTypeMessage, true) else old(groupMark)
      ensures privacyMark ==
        if !privacyChecked then ErrorMark(PrivacyMessage, true) else old(privacyMark)
    {
      isValid := ValidateInputs();
      if projectTypesChecked == 0 {
        isValid := false;
        ShowFieldError(ProjectTypeGroup, ProjectTypeMessage);
      }
      if !privacyChecked {
        isValid := false;
        ShowFieldError(PrivacyItem, PrivacyMessage);
      }
    }
  }

  /** The form passes exactly when every input passes its own rules, at
      least one project type is checked and the privacy box is ticked. */
  lemma {:induction false} FormValidity(fields: seq<Field>, projectTypesChecked: nat, privacyChecked: bool)
    ensures var ms := InputMarks(fields, projectTypesChecked);
      ((forall i | 0 <= i < |ms| :: !ms[i].marked) && projectTypesChecked > 0 && privacyChecked)
      <==>
      ((forall i | 0 <= i < |fields| :: Verdict(fields[i], projectTypesChecked).None?) &&
       projectTypesChecked > 0 && privacyChecked)
  {
    var ms := InputMarks(fields, projectTypesChecked);
    forall i | 0 <= i < |fields|
      ensures ms[i].marked <==> Verdict(fields[i], projectTypesChecked).Some?
    {
      InputMarksAt(fields, projectTypesChecked, i);
    }
  }
}
