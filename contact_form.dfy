/**
 * The contact form of the generated site: the four field rules, the
 * per-field error display, and a submission that validates every field.
 */
module ContactForm {
  import opened Wrappers
  import opened Text

  /** The characters JavaScript's `String.prototype.trim` removes; `\s` in a regular expression is the same set. */
  const JsWhitespace: set<char> := {
    '\t', '\n', '\U{000B}', '\U{000C}', '\r', ' ', '\U{00A0}', '\U{1680}',
    '\U{2000}', '\U{2001}', '\U{2002}', '\U{2003}', '\U{2004}', '\U{2005}', '\U{2006}', '\U{2007}',
    '\U{2008}', '\U{2009}', '\U{200A}',
    '\U{2028}', '\U{2029}', '\U{202F}', '\U{205F}', '\U{3000}', '\U{FEFF}'
  }

  /** `value.trim()`: the text without its blank head and tail; nothing is left exactly when the text is all blank. */
  function Trim(s: string): (t: string)
    ensures |t| <= |s| && OccursAt(s, t, LeadingCount(s, JsWhitespace))
    ensures t == [] || (t[0] !in JsWhitespace && t[|t| - 1] !in JsWhitespace)
    ensures t == [] <==> forall j :: 0 <= j < |s| ==> s[j] in JsWhitespace
  {
    StripEmptyIffBlank(s, JsWhitespace);
    Strip(s, JsWhitespace)
  }

  /** A JavaScript string's `length`: characters outside the Basic Multilingual Plane take two UTF-16 code units. */
  function Utf16Length(s: string): (n: nat)
    ensures |s| <= n <= 2 * |s|
    ensures n == |s| <==> forall j :: 0 <= j < |s| ==> (s[j] as int) < 0x1_0000
    decreases |s|
  {
    if s == [] then 0
    else
      var rest := Utf16Length(s[1..]);
      assert forall j :: 1 <= j < |s| ==> s[j] == s[1..][j - 1];
      (if (s[0] as int) < 0x1_0000 then 1 else 2) + rest
  }

  // ----- the four rules -----

  /**
   * The name, trimmed, is at least two UTF-16 code units long: two
   * characters, or a single one outside the Basic Multilingual Plane.
   */
  predicate NameValid(value: string): (ok: bool)
    ensures ok <==> |Trim(value)| >= 2 || (|Trim(value)| == 1 && Trim(value)[0] as int >= 0x1_0000)
  {
    Utf16Length(Trim(value)) >= 2
  }

  /** No blank and no `@`: the characters `[^\s@]` admits. */
  predicate Clean(x: string) {
    forall j :: 0 <= j < |x| ==> x[j] !in JsWhitespace && x[j] != '@'
  }

  /** One of the three runs of `[^\s@]+` in the e-mail pattern. */
  predicate EmailPart(x: string) {
    x != [] && Clean(x)
  }

  lemma CleanSlice(x: string, lo: nat, hi: nat)
    requires Clean(x) && lo <= hi <= |x|
    ensures Clean(x[lo..hi])
  {
    forall t | 0 <= t < hi - lo ensures x[lo..hi][t] == x[lo + t] { }
  }

  lemma CleanJoin(b: string, c: string)
    requires Clean(b) && Clean(c)
    ensures Clean(b + "." + c)
  {
    var d := b + "." + c;
    forall t | 0 <= t < |d| ensures d[t] !in JsWhitespace && d[t] != '@' {
      if t < |b| { assert d[t] == b[t]; }
      else if t > |b| { assert d[t] == c[t - |b| - 1]; }
    }
  }

  /** `s` matches `^[^\s@]+@[^\s@]+\.[^\s@]+$` with the `@` at `i` and the separating dot at `k`. */
  ghost predicate EmailMatchAt(s: string, i: int, k: int) {
    && 0 < i && i + 1 < k && k + 1 < |s|
    && s[i] == '@' && s[k] == '.'
    && EmailPart(s[..i]) && EmailPart(s[i + 1..k]) && EmailPart(s[k + 1..])
  }

  /** The language of the e-mail pattern. */
  ghost predicate MatchesEmailPattern(s: string) {
    exists i, k :: EmailMatchAt(s, i, k)
  }

  /** A dot somewhere strictly inside `d`. */
  predicate HasInnerDot(d: string) {
    |d| >= 3 && Contains(d[1..|d| - 1], ".")
  }

  /**
   * The e-mail rule, decided without backtracking: one `@`, with a
   * non-empty local part before it and a domain after it that has neither
   * blanks nor `@` and holds a dot that is neither its first nor its last
   * character.
   */
  predicate EmailValid(value: string): (ok: bool)
    ensures ok <==> MatchesEmailPattern(value)
  {
    PatternIsEmailValid(value);
    match LastIndexOf(value, '@')
    case None => false
    case Some(i) =>
      EmailValidMatches(value, i);
      EmailPart(value[..i]) && EmailPart(value[i + 1..]) && HasInnerDot(value[i + 1..])
  }

  /** Every string the rule accepts, split at its last `@`, matches the regular expression. */
  lemma EmailValidMatches(s: string, i: nat)
    requires LastIndexOf(s, '@') == Some(i)
    ensures EmailPart(s[..i]) && EmailPart(s[i + 1..]) && HasInnerDot(s[i + 1..]) ==> MatchesEmailPattern(s)
  {
    if !(EmailPart(s[..i]) && EmailPart(s[i + 1..]) && HasInnerDot(s[i + 1..])) {
      return;
    }
    var d := s[i + 1..];
    var inner := d[1..|d| - 1];
    var j :| 0 <= j <= |inner| - 1 && OccursAt(inner, ".", j);
    assert inner[j..j + 1] == ".";
    assert inner[j] == inner[j..j + 1][0];
    var k := i + 2 + j;
    assert s[k] == d[j + 1] == inner[j];
    assert s[i + 1..k] == d[..j + 1];
    assert s[k + 1..] == d[j + 2..];
    CleanSlice(d, 0, j + 1);
    CleanSlice(d, j + 2, |d|);
    assert d[..j + 1] == d[0..j + 1];
    assert d[j + 2..] == d[j + 2..|d|];
    assert EmailMatchAt(s, i, k);
  }

  /** Every string the regular expression matches has a last `@` at which the rule accepts it. */
  lemma PatternIsEmailValid(s: string)
    ensures MatchesEmailPattern(s) ==>
              && LastIndexOf(s, '@').Some?
              && var i := LastIndexOf(s, '@').value;
                 EmailPart(s[..i]) && EmailPart(s[i + 1..]) && HasInnerDot(s[i + 1..])
  {
    if !MatchesEmailPattern(s) {
      return;
    }
    var i, k :| EmailMatchAt(s, i, k);
    var b := s[i + 1..k];
    var c := s[k + 1..];
    var d := s[i + 1..];
    assert d == b + "." + c;
    CleanJoin(b, c);
    forall t | i < t < |s| ensures s[t] != '@' {
      assert s[t] == d[t - i - 1];
    }
    LastIndexOfAt(s, '@', i);
    var inner := d[1..|d| - 1];
    var j := k - i - 2;
    assert inner[j] == d[j + 1] == s[k] == '.';
    assert inner[j..j + 1] == [inner[j]] == ".";
    assert OccursAt(inner, ".", j);
  }

  predicate IsAsciiDigit(c: char) {
    '0' <= c <= '9'
  }

  /** `^\d{7,15}$`: seven to fifteen ASCII digits and nothing else. */
  predicate PhoneDigits(value: string) {
    7 <= |value| <= 15 && forall j :: 0 <= j < |value| ==> IsAsciiDigit(value[j])
  }

  /**
   * The phone is optional: once trimmed it is empty or seven to fifteen
   * digits. So a blank field passes, a bare number passes, and whatever
   * passes and is not blank is digits only, at most fifteen of them.
   */
  predicate PhoneValid(value: string): (ok: bool)
    ensures (forall j :: 0 <= j < |value| ==> value[j] in JsWhitespace) ==> ok
    ensures PhoneDigits(value) ==> ok
    ensures ok && Trim(value) != [] ==> PhoneDigits(Trim(value))
  {
    DigitsAreTrimmed(value);
    var v := Trim(value);
    v == [] || PhoneDigits(v)
  }

  /** An accepted phone holds nothing but blanks and digits. */
  lemma AcceptedPhoneCharacters(value: string)
    requires PhoneValid(value)
    ensures forall j :: 0 <= j < |value| ==> value[j] in JsWhitespace || IsAsciiDigit(value[j])
  {
    var a, b := StripShape(value, JsWhitespace);
    var t := Trim(value);
    forall j | a <= j < b ensures IsAsciiDigit(value[j]) {
      assert value[j] == t[j - a];
    }
  }

  /** Trimming leaves a run of digits as it is. */
  lemma DigitsAreTrimmed(value: string)
    ensures PhoneDigits(value) ==> Trim(value) == value
  {
    if PhoneDigits(value) {
      assert IsAsciiDigit(value[0]) && IsAsciiDigit(value[|value| - 1]);
      BlankFrame([], value, [], JsWhitespace);
      assert [] + value + [] == value;
    }
  }

  /**
   * The message, trimmed, is at least ten UTF-16 code units long: ten
   * characters always do, fewer than five never do, and without characters
   * outside the Basic Multilingual Plane it is exactly ten characters.
   */
  predicate MessageValid(value: string): (ok: bool)
    ensures |Trim(value)| >= 10 ==> ok
    ensures ok ==> |Trim(value)| >= 5
    ensures (forall j :: 0 <= j < |Trim(value)| ==> (Trim(value)[j] as int) < 0x1_0000) ==> (ok <==> |Trim(value)| >= 10)
  {
    Utf16Length(Trim(value)) >= 10
  }

  const NameMessage: string := "Please enter at least 2 characters."
  const EmailMessage: string := "Please enter a valid email address."
  const PhoneMessage: string := "Phone must contain 7\U{2011}15 digits."
  const MessageMessage: string := "Message must be at least 10 characters."

  /** Blanks around a value never decide a rule: each rule sees the trimmed value. */
  lemma RulesIgnoreSurroundingBlanks(value: string, pad1: string, pad2: string)
    requires forall j :: 0 <= j < |pad1| ==> pad1[j] in JsWhitespace
    requires forall j :: 0 <= j < |pad2| ==> pad2[j] in JsWhitespace
    ensures Trim(pad1 + value + pad2) == Trim(value)
  {
    var a, b := StripShape(value, JsWhitespace);
    var s := pad1 + value + pad2;
    var core := value[a..b];
    assert s == (pad1 + value[..a]) + core + (value[b..] + pad2) by {
      assert value == value[..a] + value[a..b] + value[b..];
    }
    BlankFrame(pad1 + value[..a], core, value[b..] + pad2, JsWhitespace);
    assert Trim(s) == Strip(s, JsWhitespace) == core == Trim(value);
  }

  /** Stripping blank padding from a core that starts and ends with non-blanks gives the core. */
  lemma BlankFrame(x: string, core: string, y: string, ws: set<char>)
    requires forall j :: 0 <= j < |x| ==> x[j] in ws
    requires forall j :: 0 <= j < |y| ==> y[j] in ws
    requires core == [] || (core[0] !in ws && core[|core| - 1] !in ws)
    ensures Strip(x + core + y, ws) == core
  {
    var s := x + core + y;
    var a, b := StripShape(s, ws);
    var r := Strip(s, ws);
    if core == [] {
      assert forall j :: 0 <= j < |s| ==> s[j] in ws by {
        forall j | 0 <= j < |s| ensures s[j] in ws {
          if j < |x| { assert s[j] == x[j]; } else { assert s[j] == y[j - |x|]; }
        }
      }
      StripEmptyIffBlank(s, ws);
    } else {
      assert s[|x|] == core[0];
      assert s[|x| + |core| - 1] == core[|core| - 1];
      assert a <= |x| && b >= |x| + |core|;
      assert r[0] == s[a] && r[|r| - 1] == s[b - 1];
      assert forall j :: 0 <= j < |x| ==> s[j] == x[j];
      assert forall j :: |x| + |core| <= j < |s| ==> s[j] == y[j - |x| - |core|];
      assert a == |x| && b == |x| + |core|;
      assert r == s[|x|..|x| + |core|] == core;
    }
  }

  /** A name of one character outside the Basic Multilingual Plane passes the two-character rule. */
  lemma AstralNamePasses()
    ensures NameValid("\U{1F600}")
  {
    var s := "\U{1F600}";
    BlankFrame([], s, [], JsWhitespace);
    assert [] + s + [] == s;
  }

  // ----- the error display of one field -----

  /** The validity class a field carries. */
  datatype Mark = Unmarked | MarkedValid | MarkedInvalid

  /** The list without its first element (the first `.error-msg` the field's parent holds). */
  function DropFirst(s: seq<string>): (r: seq<string>)
    ensures |s| > 0 ==> r == s[1..]
    ensures |s| == 0 ==> r == []
  {
    if |s| == 0 then [] else s[1..]
  }

  /**
   * An input of the form: its value, its validity class and the error
   * messages shown after it in its parent, in document order.
   */
  class FormField {
    var value: string
    var mark: Mark
    var errors: seq<string>

    /** At most one message is ever shown for a field. */
    ghost predicate Valid()
      reads this
    {
      |errors| <= 1
    }

    constructor (value: string)
      ensures this.value == value && mark == Unmarked && errors == [] && Valid()
    {
      this.value := value;
      mark := Unmarked;
      errors := [];
    }

    /** `showError`: marks the field invalid and replaces its shown message by `message`. */
    method ShowError(message: string)
      modifies this
      ensures value == old(value) && mark == MarkedInvalid
      ensures errors == DropFirst(old(errors)) + [message]
      ensures old(Valid()) ==> Valid() && errors == [message]
    {
      mark := MarkedInvalid;
      errors := DropFirst(errors) + [message];
    }

    /** `clearError`: marks the field valid and removes its shown message. */
    method ClearError()
      modifies this
      ensures value == old(value) && mark == MarkedValid
      ensures errors == DropFirst(old(errors))
      ensures old(Valid()) ==> Valid() && errors == []
    {
      mark := MarkedValid;
      errors := DropFirst(errors);
    }

    /** One rule's outcome: the message when the rule fails, a cleared field when it holds. */
    method Apply(ok: bool, message: string)
      modifies this
      ensures value == old(value)
      ensures mark == if ok then MarkedValid else MarkedInvalid
      ensures old(Valid()) ==> Valid() && errors == if ok then [] else [message]
      ensures errors == DropFirst(old(errors)) + (if ok then [] else [message])
    {
      if ok {
        ClearError();
      } else {
        ShowError(message);
      }
    }

    /** What the form's reset and clean-up leave: an empty value, no class and no message. */
    method Reset()
      modifies this
      ensures value == [] && mark == Unmarked && errors == DropFirst(old(errors))
      ensures old(Valid()) ==> Valid() && errors == []
    {
      value := [];
      mark := Unmarked;
      errors := DropFirst(errors);
    }
  }

  /**
   * Every rule holds for the four values: the e-mail, trimmed, matches the
   * pattern, and neither the name nor the message is blank.
   */
  predicate FormValid(name: string, email: string, phone: string, message: string): (ok: bool)
    ensures ok <==> NameValid(name) && MatchesEmailPattern(Trim(email)) && PhoneValid(phone) && MessageValid(message)
    ensures ok ==> Trim(name) != [] && Trim(message) != [] && Trim(email) != []
  {
    NameValid(name) && EmailValid(Trim(email)) && PhoneValid(phone) && MessageValid(message)
  }

  /** The state `Apply(ok, message)` leaves on a field that showed at most one message. */
  ghost predicate Shows(f: FormField, ok: bool, message: string)
    reads f
  {
    f.Valid() && f.mark == (if ok then MarkedValid else MarkedInvalid) && f.errors == if ok then [] else [message]
  }

  /**
   * `validate`: every field is checked, none is skipped after a failure,
   * each shows its own message or none, and the form is valid exactly when
   * all four rules hold.
   */
  method Validate(name: FormField, email: FormField, phone: FormField, message: FormField) returns (isValid: bool)
    requires name != email && name != phone && name != message
    requires email != phone && email != message && phone != message
    requires name.Valid() && email.Valid() && phone.Valid() && message.Valid()
    modifies name, email, phone, message
    ensures isValid <==> FormValid(name.value, email.value, phone.value, message.value)
    ensures name.value == old(name.value) && email.value == old(email.value)
    ensures phone.value == old(phone.value) && message.value == old(message.value)
    ensures Shows(name, NameValid(name.value), NameMessage)
    ensures Shows(email, EmailValid(Trim(email.value)), EmailMessage)
    ensures Shows(phone, PhoneValid(phone.value), PhoneMessage)
    ensures Shows(message, MessageValid(message.value), MessageMessage)
  {
    isValid := true;
    var nameOk := NameValid(name.value);
    name.Apply(nameOk, NameMessage);
    isValid := isValid && nameOk;
    var emailOk := EmailValid(Trim(email.value));
    email.Apply(emailOk, EmailMessage);
    isValid := isValid && emailOk;
    var phoneOk := PhoneValid(phone.value);
    phone.Apply(phoneOk, PhoneMessage);
    isValid := isValid && phoneOk;
    var messageOk := MessageValid(message.value);
    message.Apply(messageOk, MessageMessage);
    isValid := isValid && messageOk;
  }

  /**
   * The submit handler: validation, then, on success, the
   * acknowledgement and the reset of every field; `sent` says whether the
   * acknowledgement was shown.
   */
  method Submit(name: FormField, email: FormField, phone: FormField, message: FormField) returns (sent: bool)
    requires name != email && name != phone && name != message
    requires email != phone && email != message && phone != message
    requires name.Valid() && email.Valid() && phone.Valid() && message.Valid()
    modifies name, email, phone, message
    ensures sent <==> FormValid(old(name.value), old(email.value), old(phone.value), old(message.value))
    ensures sent ==> && name.value == [] && email.value == [] && phone.value == [] && message.value == []
                     && name.mark == Unmarked && email.mark == Unmarked && phone.mark == Unmarked && message.mark == Unmarked
                     && name.errors == [] && email.errors == [] && phone.errors == [] && message.errors == []
    ensures !sent ==> && name.value == old(name.value) && email.value == old(email.value)
                      && phone.value == old(phone.value) && message.value == old(message.value)
                      && Shows(name, NameValid(name.value), NameMessage)
                      && Shows(email, EmailValid(Trim(email.value)), EmailMessage)
                      && Shows(phone, PhoneValid(phone.value), PhoneMessage)
                      && Shows(message, MessageValid(message.value), MessageMessage)
  {
    sent := Validate(name, email, phone, message);
    if sent {
      name.Reset();
      email.Reset();
      phone.Reset();
      message.Reset();
    }
  }
}
