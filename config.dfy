/**
 * The settings read from the environment when the configuration module is imported.
 * Each setting is a function of the optional text of one environment variable
 * (None when the variable is unset), mirroring Python's `or`, `int()` and `.lower()`.
 */
module Config {
  import opened Wrappers

  /** `int()` raises ValueError on text that is not an integer literal. */
  datatype ConfigError = InvalidIntLiteral(variable: string, text: string)

  /** Every setting the configuration module exports, plus the three raw e-mail settings. */
  datatype Settings = Settings(
    apiKey: string,
    getUrl: string,
    serversUrl: string,
    maxRetries: int,
    retryBackoffFactor: int,
    sendEmails: bool,
    rotate: bool,
    postBackupScript: Option<string>,
    logLevel: string,
    emailSubject: Option<string>,
    emailBody: Option<string>,
    toEmail: Option<string>)

  // ---------------------------------------------------------------------------
  // Python truthiness of an optional string, and `or`

  /** A value `getenv` returns is falsy when it is None or the empty string. */
  predicate Unset(v: Option<string>) {
    v.None? || v.value == ""
  }

  /** `v or fallback` for a value returned by `getenv`. */
  function OrElse(v: Option<string>, fallback: string): (r: string)
    ensures Unset(v) ==> r == fallback
    ensures !Unset(v) ==> r == v.value
  {
    if Unset(v) then fallback else v.value
  }

  /** The value of an environment variable: None when it is not set. */
  function Getenv(env: map<string, string>, name: string): (r: Option<string>)
    ensures r.Some? <==> name in env
    ensures r.Some? ==> r.value == env[name]
  {
    if name in env then Some(env[name]) else None
  }

  // ---------------------------------------------------------------------------
  // int(): an optional sign followed by ASCII decimal digits

  predicate IsDigit(c: char) {
    '0' <= c <= '9'
  }

  predicate AllDigits(s: string) {
    forall i :: 0 <= i < |s| ==> IsDigit(s[i])
  }

  predicate IsSign(c: char) {
    c == '+' || c == '-'
  }

  /** The digits of a literal, after its optional sign. */
  function Magnitude(s: string): string {
    if |s| > 0 && IsSign(s[0]) then s[1..] else s
  }

  /**
   * CPython's default limit on the digits of a decimal literal `int()` converts
   * (`sys.int_info.default_max_str_digits`); a longer literal raises ValueError.
   */
  const MaxStrDigits := 4300

  /** The integer literals `int()` accepts in this model: a sign, then 1 to 4300 digits. */
  predicate IsIntLiteral(s: string) {
    0 < |Magnitude(s)| <= MaxStrDigits && AllDigits(Magnitude(s))
  }

  function DigitValue(c: char): nat
    requires IsDigit(c)
  {
    c as int - '0' as int
  }

  /** The value of a string of decimal digits, most significant first. */
  function DigitsValue(s: string): nat
    requires AllDigits(s)
    decreases |s|
  {
    if s == [] then 0 else DigitsValue(s[..|s| - 1]) * 10 + DigitValue(s[|s| - 1])
  }

  /** `int(s)`: None stands for the ValueError it raises. */
  function ParseInt(s: string): (r: Option<int>)
    ensures r.Some? <==> IsIntLiteral(s)
    ensures |Magnitude(s)| > MaxStrDigits ==> r.None?
    ensures r.Some? && |s| > 0 && s[0] == '-' ==> r.value <= 0
    ensures r.Some? && !(|s| > 0 && s[0] == '-') ==> r.value >= 0
  {
    if !IsIntLiteral(s) then None
    else
      var m: int := DigitsValue(Magnitude(s));
      if s[0] == '-' then Some(-m) else Some(m)
  }

  function DigitChar(d: nat): (c: char)
    requires d < 10
    ensures IsDigit(c) && DigitValue(c) == d
  {
    ('0' as int + d) as char
  }

  /** The decimal text of a natural number, without leading zeros. */
  function NatToString(n: nat): (s: string)
    ensures |s| > 0 && AllDigits(s)
    decreases n
  {
    if n < 10 then [DigitChar(n)] else NatToString(n / 10) + [DigitChar(n % 10)]
  }

  /** `str(n)` for an integer. */
  function IntToString(n: int): (s: string) {
    if n < 0 then "-" + NatToString(-n) else NatToString(n)
  }

  lemma {:induction false} DigitsOfNatToString(n: nat)
    ensures DigitsValue(NatToString(n)) == n
    decreases n
  {
    var s := NatToString(n);
    if n >= 10 {
      DigitsOfNatToString(n / 10);
      assert s[..|s| - 1] == NatToString(n / 10);
    }
  }

  /** The number of decimal digits of `n`, its sign not counted. */
  function DecimalDigits(n: int): nat {
    |NatToString(if n < 0 then -n else n)|
  }

  /** `int(str(n)) == n`: the parser reads back the decimal text of every integer within the digit limit. */
  lemma ParseIntToString(n: int)
    requires DecimalDigits(n) <= MaxStrDigits
    ensures ParseInt(IntToString(n)) == Some(n)
  {
    if n < 0 {
      DigitsOfNatToString(-n);
      assert Magnitude(IntToString(n)) == NatToString(-n);
    } else {
      DigitsOfNatToString(n);
      assert Magnitude(IntToString(n)) == NatToString(n);
    }
  }

  /** A literal past the digit limit is refused, and a setting holding one does not decode. */
  lemma TooManyDigitsRefused(s: string)
    requires AllDigits(s) && |s| > MaxStrDigits
    ensures ParseInt(s) == None
    ensures MaxRetries(Some(s)).Failure? && RetryBackoffFactor(Some(s)).Failure?
  {
    assert Magnitude(s) == s;
  }

  /** `k` zero digits. */
  function Zeros(k: nat): (z: string)
    ensures |z| == k && forall i :: 0 <= i < k ==> z[i] == '0'
  {
    seq(k, _ => '0')
  }

  /** The leading zeros of a digit string, keeping at least its last digit. */
  function LeadingZeros(m: string): (k: nat)
    ensures m != [] ==> k < |m|
    ensures k <= |m| && forall i :: 0 <= i < k ==> m[i] == '0'
    ensures k + 1 < |m| ==> m[k] != '0'
    decreases |m|
  {
    if |m| <= 1 || m[0] != '0' then 0 else 1 + LeadingZeros(m[1..])
  }

  /** Leading zeros do not change the value of a digit string. */
  lemma {:induction false} DigitsValueZeros(k: nat, t: string)
    requires AllDigits(t)
    ensures AllDigits(Zeros(k) + t) && DigitsValue(Zeros(k) + t) == DigitsValue(t)
    decreases |t|, k
  {
    var u := Zeros(k) + t;
    if t == [] {
      assert u == Zeros(k);
      if k > 0 {
        assert u[..|u| - 1] == Zeros(k - 1) + [];
        DigitsValueZeros(k - 1, []);
      }
    } else {
      assert u[..|u| - 1] == Zeros(k) + t[..|t| - 1];
      DigitsValueZeros(k, t[..|t| - 1]);
    }
  }

  /** A digit string that does not start with 0 has a value of at least 1. */
  lemma {:induction false} DigitsValuePositive(t: string)
    requires t != [] && AllDigits(t) && t[0] != '0'
    ensures DigitsValue(t) >= 1
    decreases |t|
  {
    if |t| > 1 {
      DigitsValuePositive(t[..|t| - 1]);
    }
  }

  /** A digit string without superfluous leading zeros is the decimal text of its value. */
  lemma {:induction false} CanonicalDigits(t: string)
    requires t != [] && AllDigits(t) && (|t| == 1 || t[0] != '0')
    ensures NatToString(DigitsValue(t)) == t
    decreases |t|
  {
    var n := |t| - 1;
    var d := DigitValue(t[n]);
    if n == 0 {
      assert DigitChar(d) == t[0];
    } else {
      var p := t[..n];
      DigitsValuePositive(p);
      CanonicalDigits(p);
      var v := DigitsValue(t);
      assert v == DigitsValue(p) * 10 + d;
      assert v / 10 == DigitsValue(p) && v % 10 == d;
      assert DigitChar(d) == t[n];
      assert t == p + [t[n]];
    }
  }

  /** A sign, `k` zeros, then the decimal text of `n`: `int()` reads it as `n` or `-n`. */
  lemma ParseIntOfPadded(sign: string, k: nat, n: nat)
    requires sign == "" || sign == "+" || sign == "-"
    requires k + DecimalDigits(n) <= MaxStrDigits
    ensures ParseInt(sign + Zeros(k) + NatToString(n)) == Some(if sign == "-" then 0 - n else n)
  {
    var z := NatToString(n);
    var m := Zeros(k) + z;
    assert |m| == k + DecimalDigits(n);
    DigitsValueZeros(k, z);
    DigitsOfNatToString(n);
    assert DigitsValue(m) == n;
    ParseIntOfSigned(sign, m);
    ConcatAssoc(sign, Zeros(k), z);
  }

  /** Concatenation regroups freely. */
  lemma ConcatAssoc(a: string, b: string, c: string)
    ensures a + b + c == a + (b + c)
  {
  }

  /** A sign followed by 1 to 4300 digits: `int()` reads their value, negated after a `-`. */
  lemma ParseIntOfSigned(sign: string, m: string)
    requires sign == "" || sign == "+" || sign == "-"
    requires 0 < |m| <= MaxStrDigits && AllDigits(m)
    ensures ParseInt(sign + m) == Some(if sign == "-" then 0 - DigitsValue(m) else DigitsValue(m))
  {
    MagnitudeOfSigned(sign, m);
  }

  /** A sign in front of digits is stripped by `Magnitude`, and only a `-` makes the literal negative. */
  lemma MagnitudeOfSigned(sign: string, m: string)
    requires sign == "" || sign == "+" || sign == "-"
    requires m != [] && IsDigit(m[0])
    ensures Magnitude(sign + m) == m
    ensures (sign + m)[0] == '-' <==> sign == "-"
  {
    if sign == "" {
      assert sign + m == m;
    } else {
      assert (sign + m)[1..] == m;
    }
  }

  /** Splitting a literal at the end of its sign. */
  lemma SignThenMagnitude(s: string)
    requires s != []
    ensures s == (if IsSign(s[0]) then [s[0]] else "") + Magnitude(s)
  {
    if IsSign(s[0]) {
      assert s == [s[0]] + s[1..];
    }
  }

  /** Splitting a digit string after its leading zeros. */
  lemma ZerosThenRest(m: string)
    ensures m == Zeros(LeadingZeros(m)) + m[LeadingZeros(m)..]
  {
    var k := LeadingZeros(m);
    assert m[..k] == Zeros(k);
    assert m == m[..k] + m[k..];
  }

  /**
   * Every literal `int()` accepts is a sign, some leading zeros and the decimal text of a
   * natural number `n`, so that `ParseIntOfPadded` gives its value.
   */
  lemma LiteralShape(s: string)
    requires IsIntLiteral(s)
    ensures
      var sign := if IsSign(s[0]) then [s[0]] else "";
      var m := Magnitude(s);
      var k := LeadingZeros(m);
      && s == sign + Zeros(k) + NatToString(DigitsValue(m[k..]))
      && k + DecimalDigits(DigitsValue(m[k..])) <= MaxStrDigits
  {
    var sign := if IsSign(s[0]) then [s[0]] else "";
    var m := Magnitude(s);
    var k := LeadingZeros(m);
    var t := m[k..];
    assert AllDigits(t);
    CanonicalDigits(t);
    assert DecimalDigits(DigitsValue(t)) == |t| == |m| - k;
    ZerosThenRest(m);
    SignThenMagnitude(s);
    ConcatAssoc(sign, Zeros(k), t);
  }

  // ---------------------------------------------------------------------------
  // str.lower() on ASCII letters

  function LowerChar(c: char): char {
    if 'A' <= c <= 'Z' then (c as int + 32) as char else c
  }

  function Lower(s: string): (r: string)
    ensures |r| == |s|
    ensures forall i :: 0 <= i < |s| ==> r[i] == LowerChar(s[i])
  {
    seq(|s|, i requires 0 <= i < |s| => LowerChar(s[i]))
  }

  /** Lowercasing leaves no ASCII capital behind, so lowercasing twice is lowercasing once. */
  lemma LowerIdempotent(s: string)
    ensures forall i :: 0 <= i < |s| ==> !('A' <= Lower(s)[i] <= 'Z')
    ensures Lower(Lower(s)) == Lower(s)
  {
  }

  /** `s.lower() == "true"` holds exactly of the spellings of "true" in any letter case. */
  lemma LowerIsTrue(s: string)
    ensures Lower(s) == "true" <==>
      |s| == 4 && (s[0] == 't' || s[0] == 'T') && (s[1] == 'r' || s[1] == 'R')
               && (s[2] == 'u' || s[2] == 'U') && (s[3] == 'e' || s[3] == 'E')
  {
    if |s| == 4 && Lower(s) != "true" {
      var i :| 0 <= i < 4 && Lower(s)[i] != "true"[i];
    }
  }

  // ---------------------------------------------------------------------------
  // The settings

  /**
   * The API key setting, `getenv(name) or ""`; GET_URL and SERVERS_URL are read the same way:
   * the empty string when unset or empty, otherwise the raw value.
   */
  function TextSetting(v: Option<string>): (r: string)
    ensures r == "" <==> Unset(v)
    ensures r != "" ==> v == Some(r)
  {
    OrElse(v, "")
  }

  const DefaultMaxRetries := 5
  const DefaultRetryBackoffFactor := 1

  /** `int(text or default) or fallback`: a parsed 0 is replaced by the fallback. */
  function IntSetting(name: string, v: Option<string>, default: string, fallback: int): (r: Result<int, ConfigError>)
    requires IsIntLiteral(default) && fallback != 0
    ensures r.Failure? <==> !Unset(v) && !IsIntLiteral(v.value)
    ensures r.Failure? ==> r.error == InvalidIntLiteral(name, v.value)
    ensures r.Success? ==> r.value != 0
    ensures Unset(v) ==> r == Success(if ParseInt(default).value == 0 then fallback else ParseInt(default).value)
    ensures !Unset(v) && IsIntLiteral(v.value) ==>
      r == Success(if ParseInt(v.value).value == 0 then fallback else ParseInt(v.value).value)
  {
    var text := OrElse(v, default);
    match ParseInt(text)
    case None => Failure(InvalidIntLiteral(name, text))
    case Some(n) => Success(if n == 0 then fallback else n)
  }

  /** MAX_RETRIES: `int(text or "5") or 5`, so the default 5 stands in for unset, empty and 0. */
  function MaxRetries(v: Option<string>): (r: Result<int, ConfigError>)
    ensures Unset(v) ==> r == Success(5)
    ensures r.Failure? <==> !Unset(v) && !IsIntLiteral(v.value)
    ensures r.Success? ==> r.value != 0
    ensures !Unset(v) && ParseInt(v.value) == Some(0) ==> r == Success(5)
    ensures !Unset(v) && IsIntLiteral(v.value) && ParseInt(v.value) != Some(0) ==> r == Success(ParseInt(v.value).value)
  {
    assert Magnitude("5") == "5";
    assert DigitsValue("5") == 5 by { assert "5"[..0] == ""; }
    IntSetting("MAX_RETRIES", v, "5", DefaultMaxRetries)
  }

  /** RETRY_BACKOFF_FACTOR: `int(text or "0") or 1`, so 1 stands in for unset, empty and 0. */
  function RetryBackoffFactor(v: Option<string>): (r: Result<int, ConfigError>)
    ensures Unset(v) ==> r == Success(1)
    ensures r.Failure? <==> !Unset(v) && !IsIntLiteral(v.value)
    ensures r.Success? ==> r.value != 0
    ensures !Unset(v) && ParseInt(v.value) == Some(0) ==> r == Success(1)
    ensures !Unset(v) && IsIntLiteral(v.value) && ParseInt(v.value) != Some(0) ==> r == Success(ParseInt(v.value).value)
  {
    assert Magnitude("0") == "0";
    assert DigitsValue("0") == 0 by { assert "0"[..0] == ""; }
    IntSetting("RETRY_BACKOFF_FACTOR", v, "0", DefaultRetryBackoffFactor)
  }

  /** A setting written as the decimal text of `n` decodes to `n`, or to the default when `n` is 0. */
  lemma MaxRetriesOfDecimal(n: int)
    requires DecimalDigits(n) <= MaxStrDigits
    ensures MaxRetries(Some(IntToString(n))) == Success(if n == 0 then 5 else n)
  {
    ParseIntToString(n);
  }

  lemma RetryBackoffFactorOfDecimal(n: int)
    requires DecimalDigits(n) <= MaxStrDigits
    ensures RetryBackoffFactor(Some(IntToString(n))) == Success(if n == 0 then 1 else n)
  {
    ParseIntToString(n);
  }

  /** Both integer settings read a signed, zero-padded literal as its value, with 0 replaced by the default. */
  lemma IntSettingsOfPadded(sign: string, k: nat, n: nat)
    requires sign == "" || sign == "+" || sign == "-"
    requires k + DecimalDigits(n) <= MaxStrDigits
    ensures MaxRetries(Some(sign + Zeros(k) + NatToString(n))) == Success(if n == 0 then 5 else if sign == "-" then 0 - n else n)
    ensures RetryBackoffFactor(Some(sign + Zeros(k) + NatToString(n))) == Success(if n == 0 then 1 else if sign == "-" then 0 - n else n)
  {
    ParseIntOfPadded(sign, k, n);
    assert |sign + Zeros(k) + NatToString(n)| > 0;
  }

  /** `(str(text or "").lower() or default) == "true"` */
  function Flag(v: Option<string>, default: string): (r: bool)
    requires default == "true" || default == "false"
    ensures Unset(v) ==> r == (default == "true")
    ensures !Unset(v) ==> r == (Lower(v.value) == "true")
  {
    var lowered := Lower(OrElse(v, ""));
    (if lowered == "" then default else lowered) == "true"
  }

  /** `SEND_EMAILS`: true when unset or empty, otherwise a case-insensitive match of "true". */
  function SendEmails(v: Option<string>): (r: bool)
    ensures r <==> Unset(v) || Lower(v.value) == "true"
  {
    Flag(v, "true")
  }

  /** `ROTATE`: false when unset or empty, otherwise a case-insensitive match of "true". */
  function Rotate(v: Option<string>): (r: bool)
    ensures r <==> !Unset(v) && Lower(v.value) == "true"
  {
    Flag(v, "false")
  }

  /** LOG_LEVEL: the raw value, or "ERROR" when it is unset or empty. */
  function LogLevel(v: Option<string>): (r: string)
    ensures Unset(v) ==> r == "ERROR"
    ensures !Unset(v) ==> r == v.value
    ensures r != ""
  {
    OrElse(v, "ERROR")
  }

  /**
   * Importing the configuration module: every setting is evaluated in order, so the
   * first invalid integer literal (MAX_RETRIES before RETRY_BACKOFF_FACTOR) aborts it.
   */
  function Load(env: map<string, string>): (r: Result<Settings, ConfigError>)
    ensures r.Failure? <==> MaxRetries(Getenv(env, "MAX_RETRIES")).Failure?
                            || RetryBackoffFactor(Getenv(env, "RETRY_BACKOFF_FACTOR")).Failure?
    ensures MaxRetries(Getenv(env, "MAX_RETRIES")).Failure? ==> r == Failure(MaxRetries(Getenv(env, "MAX_RETRIES")).error)
    ensures MaxRetries(Getenv(env, "MAX_RETRIES")).Success? && RetryBackoffFactor(Getenv(env, "RETRY_BACKOFF_FACTOR")).Failure? ==>
      r == Failure(RetryBackoffFactor(Getenv(env, "RETRY_BACKOFF_FACTOR")).error)
    ensures r.Success? ==>
      var s := r.value;
      && s.apiKey == TextSetting(Getenv(env, "API_KEY"))
      && s.getUrl == TextSetting(Getenv(env, "GET_URL"))
      && s.serversUrl == TextSetting(Getenv(env, "SERVERS_URL"))
      && s.maxRetries == MaxRetries(Getenv(env, "MAX_RETRIES")).value
      && s.retryBackoffFactor == RetryBackoffFactor(Getenv(env, "RETRY_BACKOFF_FACTOR")).value
      && s.sendEmails == SendEmails(Getenv(env, "SEND_EMAILS"))
      && s.rotate == Rotate(Getenv(env, "ROTATE"))
      && s.postBackupScript == Getenv(env, "POST_BACKUP_SCRIPT")
      && s.logLevel == LogLevel(Getenv(env, "LOG_LEVEL"))
      && s.emailSubject == Getenv(env, "EMAIL_SUBJECT")
      && s.emailBody == Getenv(env, "EMAIL_BODY")
      && s.toEmail == Getenv(env, "TO_EMAIL")
    ensures r.Success? ==> r.value.maxRetries != 0 && r.value.retryBackoffFactor != 0
  {
    match MaxRetries(Getenv(env, "MAX_RETRIES"))
    case Failure(e) => Failure(e)
    case Success(maxRetries) =>
      match RetryBackoffFactor(Getenv(env, "RETRY_BACKOFF_FACTOR"))
      case Failure(e) => Failure(e)
      case Success(backoff) =>
        Success(Settings(
          TextSetting(Getenv(env, "API_KEY")),
          TextSetting(Getenv(env, "GET_URL")),
          TextSetting(Getenv(env, "SERVERS_URL")),
          maxRetries,
          backoff,
          SendEmails(Getenv(env, "SEND_EMAILS")),
          Rotate(Getenv(env, "ROTATE")),
          Getenv(env, "POST_BACKUP_SCRIPT"),
          LogLevel(Getenv(env, "LOG_LEVEL")),
          Getenv(env, "EMAIL_SUBJECT"),
          Getenv(env, "EMAIL_BODY"),
          Getenv(env, "TO_EMAIL")))
  }
}
