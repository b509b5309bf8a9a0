/**
 * The e-mail alert: anonymising a recipient address for the log, and the validation
 * and message construction that `EmailAlert.send` performs before any SMTP traffic.
 */
module Alert {
  import opened Wrappers

  /** Python's ValueError, with the message the interpreter gives it. */
  datatype ValueError = ValueError(message: string)

  // ---------------------------------------------------------------------------
  // str.split with a one-character separator

  function Count(s: string, c: char): nat
    decreases |s|
  {
    if s == [] then 0 else (if s[0] == c then 1 else 0) + Count(s[1..], c)
  }

  lemma {:induction false} CountConcat(a: string, b: string, c: char)
    ensures Count(a + b, c) == Count(a, c) + Count(b, c)
    decreases |a|
  {
    if a == [] {
      assert a + b == b;
    } else {
      assert (a + b)[1..] == a[1..] + b;
      CountConcat(a[1..], b, c);
    }
  }

  lemma {:induction false} CountAbsent(s: string, c: char)
    ensures Count(s, c) == 0 <==> c !in s
    decreases |s|
  {
    if s != [] {
      CountAbsent(s[1..], c);
      assert s == [s[0]] + s[1..];
    }
  }

  /** `s.split(sep)`: the maximal runs of `s` between occurrences of `sep`. */
  function Split(s: string, sep: char): (parts: seq<string>)
    ensures |parts| == Count(s, sep) + 1
    ensures forall i :: 0 <= i < |parts| ==> sep !in parts[i]
    decreases |s|
  {
    if s == [] then [""]
    else
      var rest := Split(s[1..], sep);
      if s[0] == sep then [""] + rest
      else [[s[0]] + rest[0]] + rest[1..]
  }

  /** Joining the parts with the separator gives back the original text. */
  function Join(parts: seq<string>, sep: char): string
    requires |parts| > 0
    decreases |parts|
  {
    if |parts| == 1 then parts[0] else parts[0] + [sep] + Join(parts[1..], sep)
  }

  lemma {:induction false} JoinSplit(s: string, sep: char)
    ensures Join(Split(s, sep), sep) == s
    decreases |s|
  {
    if s != [] {
      JoinSplit(s[1..], sep);
      var rest := Split(s[1..], sep);
      if s[0] == sep {
        assert ([""] + rest)[1..] == rest;
      } else {
        var parts := [[s[0]] + rest[0]] + rest[1..];
        if |rest| > 1 {
          assert parts[1..] == rest[1..];
        }
      }
    }
  }

  /** Text with exactly one separator, at index k, splits into the text before and after it. */
  lemma {:induction false} SplitAtOnly(s: string, sep: char, k: nat)
    requires k < |s| && s[k] == sep && sep !in s[..k] && sep !in s[k + 1..]
    ensures Split(s, sep) == [s[..k], s[k + 1..]]
    decreases k
  {
    if k == 0 {
      assert s[1..] == s[k + 1..];
      SplitNone(s[1..], sep);
    } else {
      assert s[1..][..k - 1] == s[1..k];
      assert s[1..][k..] == s[k + 1..];
      assert s[1..][..k - 1] == s[..k][1..];
      SplitAtOnly(s[1..], sep, k - 1);
      assert s[0] != sep by { assert s[..k][0] == s[0]; }
      assert [s[0]] + s[1..k] == s[..k];
    }
  }

  lemma {:induction false} SplitNone(s: string, sep: char)
    requires sep !in s
    ensures Split(s, sep) == [s]
    decreases |s|
  {
    if s != [] {
      assert sep !in s[1..] by { assert forall i :: 0 <= i < |s| - 1 ==> s[1..][i] == s[i + 1]; }
      SplitNone(s[1..], sep);
      assert [s[0]] + s[1..] == s;
    }
  }

  // ---------------------------------------------------------------------------
  // _anonymize_email

  /** The index of the first '@' of an address, or its length when there is none. */
  function AtIndex(email: string): (k: nat)
    ensures k <= |email|
    ensures '@' !in email[..k]
    ensures k < |email| ==> email[k] == '@'
    decreases |email|
  {
    if email == [] then 0
    else if email[0] == '@' then 0
    else
      var k := 1 + AtIndex(email[1..]);
      assert email[..k] == [email[0]] + email[1..][..k - 1];
      k
  }

  function Stars(n: nat): (r: string)
    ensures |r| == n && forall i :: 0 <= i < n ==> r[i] == '*'
  {
    seq(n, i => '*')
  }

  /**
   * Splitting the address at '@' into a local part and a domain, then replacing every
   * character of the local part with '*'.
   * Unpacking the parts raises ValueError unless there are exactly two of them.
   */
  function AnonymizeEmail(email: string): (r: Result<string, ValueError>)
    ensures r.Success? <==> Count(email, '@') == 1
    ensures r.Failure? && Count(email, '@') == 0 ==> r.error == ValueError("not enough values to unpack (expected 2, got 1)")
    ensures r.Failure? && Count(email, '@') > 1 ==> r.error == ValueError("too many values to unpack (expected 2)")
    ensures r.Success? ==>
      var k := AtIndex(email);
      && |r.value| == |email|
      && k < |email|
      && r.value[..k] == Stars(k)
      && r.value[k] == '@'
      && r.value[k + 1..] == email[k + 1..]
  {
    var parts := Split(email, '@');
    if |parts| < 2 then Failure(ValueError("not enough values to unpack (expected 2, got 1)"))
    else if |parts| > 2 then Failure(ValueError("too many values to unpack (expected 2)"))
    else
      var k := AtIndex(email);
      OnlyAt(email, k);
      SplitAtOnly(email, '@', k);
      var masked := Stars(|parts[0]|) + "@" + parts[1];
      assert masked[..k] == Stars(k);
      assert masked[k + 1..] == parts[1];
      Success(masked)
  }

  /** In an address with exactly one '@', the first one is the only one. */
  lemma OnlyAt(email: string, k: nat)
    requires Count(email, '@') == 1 && k == AtIndex(email)
    ensures k < |email| && '@' !in email[k + 1..]
  {
    if k == |email| {
      assert email[..k] == email;
      CountAbsent(email, '@');
    }
    assert email == email[..k] + [email[k]] + email[k + 1..];
    CountConcat(email[..k] + [email[k]], email[k + 1..], '@');
    CountConcat(email[..k], [email[k]], '@');
    CountAbsent(email[..k], '@');
    CountAbsent(email[k + 1..], '@');
  }

  /** An anonymised address is a fixed point: masking it again changes nothing. */
  lemma AnonymizeIdempotent(email: string)
    requires AnonymizeEmail(email).Success?
    ensures AnonymizeEmail(AnonymizeEmail(email).value) == AnonymizeEmail(email)
  {
    var a := AnonymizeEmail(email).value;
    var k := AtIndex(email);
    OnlyAt(email, k);
    assert a == a[..k] + [a[k]] + a[k + 1..];
    CountAbsent(a[..k], '@');
    CountAbsent(a[k + 1..], '@');
    CountConcat(a[..k] + [a[k]], a[k + 1..], '@');
    CountConcat(a[..k], [a[k]], '@');
    assert AtIndex(a) == k;
    var b := AnonymizeEmail(a).value;
    assert b == b[..k] + [b[k]] + b[k + 1..];
  }

  /** The masked address depends only on the length of the local part and on the domain. */
  lemma AnonymizeHidesLocalPart(e1: string, e2: string)
    requires AnonymizeEmail(e1).Success? && AnonymizeEmail(e2).Success?
    requires AtIndex(e1) == AtIndex(e2) && e1[AtIndex(e1) + 1..] == e2[AtIndex(e2) + 1..]
    ensures AnonymizeEmail(e1) == AnonymizeEmail(e2)
  {
    var a1, a2 := AnonymizeEmail(e1).value, AnonymizeEmail(e2).value;
    var k := AtIndex(e1);
    assert a1 == a1[..k] + [a1[k]] + a1[k + 1..];
    assert a2 == a2[..k] + [a2[k]] + a2[k + 1..];
  }

  // ---------------------------------------------------------------------------
  // str.rstrip()

  /** The characters Python's `str.isspace()` accepts (and `str.rstrip()` removes). */
  predicate IsSpace(c: char) {
    ('\t' <= c <= '\r') || ('\U{1C}' <= c <= '\U{1F}') || c == ' ' || c == '\U{85}' || c == '\U{A0}'
    || c == '\U{1680}' || ('\U{2000}' <= c <= '\U{200A}') || c == '\U{2028}' || c == '\U{2029}'
    || c == '\U{202F}' || c == '\U{205F}' || c == '\U{3000}'
  }

  /** `s.rstrip()`: the longest prefix of `s` that does not end in whitespace. */
  function RStrip(s: string): (r: string)
    ensures r <= s
    ensures forall i :: |r| <= i < |s| ==> IsSpace(s[i])
    ensures r == "" || !IsSpace(r[|r| - 1])
    decreases |s|
  {
    if s == "" || !IsSpace(s[|s| - 1]) then s else RStrip(s[..|s| - 1])
  }

  // ---------------------------------------------------------------------------
  // str.splitlines(), for the check on header values

  /** The characters `str.splitlines()` breaks lines at. */
  predicate IsLineBreak(c: char) {
    c == '\n' || c == '\r' || c == '\U{0B}' || c == '\U{0C}' || ('\U{1C}' <= c <= '\U{1E}')
    || c == '\U{85}' || c == '\U{2028}' || c == '\U{2029}'
  }

  /** The index of the first line break, or the length when there is none. */
  function FirstBreak(s: string): (k: nat)
    ensures k <= |s|
    ensures forall i :: 0 <= i < k ==> !IsLineBreak(s[i])
    ensures k < |s| ==> IsLineBreak(s[k])
    decreases |s|
  {
    if s == [] then 0
    else if IsLineBreak(s[0]) then 0
    else 1 + FirstBreak(s[1..])
  }

  /** A CR followed by an LF is one line break of two characters; any other break is one character. */
  function BreakWidth(s: string, i: nat): nat
    requires i < |s|
  {
    if s[i] == '\r' && i + 1 < |s| && s[i + 1] == '\n' then 2 else 1
  }

  /** `s.splitlines()`: the lines of `s` without their line breaks; a final break opens no new line. */
  function Lines(s: string): seq<string>
    decreases |s|
  {
    if s == [] then []
    else
      var k := FirstBreak(s);
      if k == |s| then [s] else [s[..k]] + Lines(s[k + BreakWidth(s, k)..])
  }

  /** Some line break of `s` is followed by more text. */
  predicate BreaksBeforeText(s: string) {
    exists i :: 0 <= i < |s| && IsLineBreak(s[i]) && i + BreakWidth(s, i) < |s|
  }

  /** `len(value.splitlines()) > 1` exactly when a line break is followed by more text. */
  lemma MoreThanOneLine(s: string)
    ensures |Lines(s)| > 1 <==> BreaksBeforeText(s)
  {
    if s != [] {
      var k := FirstBreak(s);
      if k == |s| {
        NoBreakOneLine(s);
      } else {
        var w := BreakWidth(s, k);
        LinesAfterFirstBreak(s);
        if k + w < |s| {
          assert IsLineBreak(s[k]) && k + BreakWidth(s, k) < |s|;
        } else {
          forall i | 0 <= i < |s| && IsLineBreak(s[i]) ensures i + BreakWidth(s, i) >= |s| {
            LaterBreak(s, i);
          }
        }
      }
    }
  }

  /** Text without a line break is one line. */
  lemma NoBreakOneLine(s: string)
    requires s != [] && FirstBreak(s) == |s|
    ensures |Lines(s)| == 1 && !BreaksBeforeText(s)
  {
    assert Lines(s) == [s];
    forall i | 0 <= i < |s| ensures !IsLineBreak(s[i]) {}
  }

  /** After the first line, there are more lines exactly when text follows the first break. */
  lemma LinesAfterFirstBreak(s: string)
    requires FirstBreak(s) < |s|
    ensures |Lines(s)| > 1 <==> FirstBreak(s) + BreakWidth(s, FirstBreak(s)) < |s|
  {
    var k := FirstBreak(s);
    var rest := s[k + BreakWidth(s, k)..];
    assert Lines(s) == [s[..k]] + Lines(rest);
    LinesEmpty(rest);
  }

  lemma LinesEmpty(s: string)
    ensures |Lines(s)| == 0 <==> s == []
  {
  }

  /** A line break never ends before the first one does. */
  lemma LaterBreak(s: string, i: nat)
    requires i < |s| && IsLineBreak(s[i])
    ensures FirstBreak(s) <= i
    ensures FirstBreak(s) + BreakWidth(s, FirstBreak(s)) <= i + BreakWidth(s, i)
  {
  }

  /** A value of one line with a final newline is still one line. */
  lemma FinalNewlineIsOneLine(s: string)
    requires forall i :: 0 <= i < |s| ==> !IsLineBreak(s[i])
    ensures |Lines(s + "\n")| == 1
  {
    var u := s + "\n";
    MoreThanOneLine(u);
    assert FirstBreak(u) == |s| by {
      assert forall i :: 0 <= i < |s| ==> u[i] == s[i];
      assert u[|s|] == '\n';
    }
    assert u[..|s|] == s;
    assert u[|s| + 1..] == [];
  }

  /** A newline with text after it makes a second line. */
  lemma NewlineBeforeTextIsTwoLines(s: string, t: string)
    requires t != []
    ensures |Lines(s + "\n" + t)| > 1
  {
    var u := s + "\n" + t;
    MoreThanOneLine(u);
    assert u[|s|] == '\n';
    assert IsLineBreak(u[|s|]) && |s| + BreakWidth(u, |s|) < |u|;
  }

  const HeaderLinefeedMessage := "Header values may not contain linefeed or carriage return characters"

  // ---------------------------------------------------------------------------
  // The message and EmailAlert.send

  /** The part of an `email.message.EmailMessage` that send fills in: its content and headers. */
  class EmailMessage {
    var content: string
    var headers: seq<(string, string)>

    constructor ()
      ensures content == "" && headers == []
    {
      content := "";
      headers := [];
    }

    /** `msg.set_content(text)` */
    method SetContent(text: string)
      modifies this
      ensures content == text && headers == old(headers)
    {
      content := text;
    }

    /**
     * `msg[name] = value` appends a header field. The default policy refuses a value
     * that `splitlines()` cuts into more than one line, and then nothing is stored.
     */
    method SetHeader(name: string, value: string) returns (r: Result<(), ValueError>)
      modifies this
      ensures r.Failure? <==> |Lines(value)| > 1
      ensures r.Failure? ==> r.error == ValueError(HeaderLinefeedMessage) && headers == old(headers)
      ensures r.Success? ==> headers == old(headers) + [(name, value)]
      ensures content == old(content)
    {
      if |Lines(value)| > 1 {
        return Failure(ValueError(HeaderLinefeedMessage));
      }
      headers := headers + [(name, value)];
      r := Success(());
    }
  }

  /**
   * The sender's credentials, read from the environment when the alert is created
   * (None when a variable is unset), and the info lines send writes to the log.
   */
  class EmailAlert {
    const fromEmail: Option<string>
    const fromPassword: Option<string>
    var log: seq<string>

    constructor (fromEmail: Option<string>, fromPassword: Option<string>)
      ensures this.fromEmail == fromEmail && this.fromPassword == fromPassword && log == []
    {
      this.fromEmail := fromEmail;
      this.fromPassword := fromPassword;
      log := [];
    }

    /** The `isinstance(i, str)` check over the five strings send needs. */
    predicate AllStrings(subject: Option<string>, body: Option<string>, toEmail: Option<string>)
      reads this
    {
      subject.Some? && body.Some? && toEmail.Some? && fromEmail.Some? && fromPassword.Some?
    }

    /**
     * Everything send does before opening the SMTP connection: validate, log the
     * anonymised recipient, build the message. Building fails when a header value
     * spans several lines. The message is what would be handed to the SMTP server.
     */
    method Send(subject: Option<string>, body: Option<string>, toEmail: Option<string>)
      returns (r: Result<EmailMessage, ValueError>)
      modifies this
      ensures !AllStrings(subject, body, toEmail) ==>
        r == Failure(ValueError("All parameters must be of type str")) && log == old(log)
      ensures AllStrings(subject, body, toEmail) && AnonymizeEmail(toEmail.value).Failure? ==>
        r == Failure(AnonymizeEmail(toEmail.value).error) && log == old(log)
      ensures AllStrings(subject, body, toEmail) && AnonymizeEmail(toEmail.value).Success? ==>
        log == old(log) + ["Preparing to send email to " + AnonymizeEmail(toEmail.value).value]
      ensures AllStrings(subject, body, toEmail) && AnonymizeEmail(toEmail.value).Success?
              && (|Lines(subject.value)| > 1 || |Lines(fromEmail.value)| > 1 || |Lines(toEmail.value)| > 1) ==>
        r == Failure(ValueError(HeaderLinefeedMessage))
      ensures r.Success? <==>
        && AllStrings(subject, body, toEmail)
        && AnonymizeEmail(toEmail.value).Success?
        && |Lines(subject.value)| <= 1 && |Lines(fromEmail.value)| <= 1 && |Lines(toEmail.value)| <= 1
      ensures r.Success? ==>
        && fresh(r.value)
        && r.value.content == RStrip(body.value)
        && r.value.headers == [("Subject", subject.value), ("From", fromEmail.value), ("To", toEmail.value)]
    {
      if !AllStrings(subject, body, toEmail) {
        return Failure(ValueError("All parameters must be of type str"));
      }
      var masked := AnonymizeEmail(toEmail.value);
      if masked.Failure? {
        return Failure(masked.error);
      }
      log := log + ["Preparing to send email to " + masked.value];

      var msg := new EmailMessage();
      msg.SetContent(RStrip(body.value));
      var stored := msg.SetHeader("Subject", subject.value);
      if stored.Failure? {
        return Failure(stored.error);
      }
      stored := msg.SetHeader("From", fromEmail.value);
      if stored.Failure? {
        return Failure(stored.error);
      }
      stored := msg.SetHeader("To", toEmail.value);
      if stored.Failure? {
        return Failure(stored.error);
      }
      r := Success(msg);
    }
  }
}
