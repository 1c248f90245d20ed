/**
 * The phone-number utilities and the configuration check of the SMS service.
 * The regular expressions are written out: `\s` is the fixed set of
 * characters JavaScript treats as white space, and `\d` is `'0'..'9'`.
 */
module Sms {
  import opened Wrappers
  import Builder

  // ---------------------------------------------------------------------
  // Cleaning: `replace(/[\s\-\+]/g, '')`
  // ---------------------------------------------------------------------

  /** JavaScript's `\s`: the ECMAScript white space and line terminators. */
  const Whitespace: set<char> := {
    '\t', '\n', '\U{000B}', '\U{000C}', '\r', ' ', '\U{00A0}', '\U{1680}',
    '\U{2000}', '\U{2001}', '\U{2002}', '\U{2003}', '\U{2004}', '\U{2005}', '\U{2006}',
    '\U{2007}', '\U{2008}', '\U{2009}', '\U{200A}', '\U{2028}', '\U{2029}', '\U{202F}',
    '\U{205F}', '\U{3000}', '\U{FEFF}'
  }

  /** The characters `[\s\-\+]` matches. */
  predicate Stripped(c: char) {
    c in Whitespace || c == '-' || c == '+'
  }

  /** The string without white space, dashes and plus signs; every other character kept, in order. */
  function Clean(s: string): (r: string)
    ensures |r| <= |s|
    ensures forall i :: 0 <= i < |r| ==> !Stripped(r[i])
  {
    if s == [] then [] else (if Stripped(s[0]) then [] else [s[0]]) + Clean(s[1..])
  }

  /** Cleaning keeps exactly the characters that are not stripped. */
  lemma {:induction false} CleanKeeps(s: string)
    ensures forall c :: c in Clean(s) <==> c in s && !Stripped(c)
  {
    if s != [] {
      CleanKeeps(s[1..]);
      assert s == [s[0]] + s[1..];
    }
  }

  /** Cleaning works character by character, so it distributes over concatenation. */
  lemma {:induction false} CleanAppend(a: string, b: string)
    ensures Clean(a + b) == Clean(a) + Clean(b)
  {
    if a == [] {
      assert a + b == b;
    } else {
      var head := if Stripped(a[0]) then [] else [a[0]];
      assert (a + b)[0] == a[0] && (a + b)[1..] == a[1..] + b;
      assert Clean(a + b) == head + Clean(a[1..] + b);
      CleanAppend(a[1..], b);
      assert head + (Clean(a[1..]) + Clean(b)) == (head + Clean(a[1..])) + Clean(b);
    }
  }

  /** A string with nothing to strip is its own cleaning. */
  lemma {:induction false} CleanPlain(s: string)
    requires forall i :: 0 <= i < |s| ==> !Stripped(s[i])
    ensures Clean(s) == s
  {
    if s != [] {
      CleanPlain(s[1..]);
    }
  }

  lemma CleanIdempotent(s: string)
    ensures Clean(Clean(s)) == Clean(s)
  {
    CleanPlain(Clean(s));
  }

  // ---------------------------------------------------------------------
  // Validation: `/^[6-9]\d{9}$/.test(clean)`
  // ---------------------------------------------------------------------

  predicate IsDigit(c: char) {
    '0' <= c <= '9'
  }

  /** `\d{n}$` from the current position: exactly `n` digits remain. */
  function Digits(s: string, n: nat): (b: bool)
    ensures b <==> |s| == n && forall i :: 0 <= i < |s| ==> IsDigit(s[i])
  {
    if n == 0 then s == [] else s != [] && IsDigit(s[0]) && Digits(s[1..], n - 1)
  }

  /** An Indian mobile number: ten digits, the first of them 6 to 9. */
  predicate IsMobile(s: string) {
    |s| == 10 && '6' <= s[0] <= '9' && forall i :: 1 <= i < 10 ==> IsDigit(s[i])
  }

  /** The anchored match `^[6-9]\d{9}$`. */
  function MatchesMobile(s: string): (b: bool)
    ensures b <==> IsMobile(s)
  {
    |s| > 0 && '6' <= s[0] <= '9' && Digits(s[1..], 9)
  }

  /** validatePhoneNumber: the cleaned number is an Indian mobile number. */
  function ValidatePhoneNumber(phoneNumber: string): (b: bool)
    ensures b <==> IsMobile(Clean(phoneNumber))
  {
    MatchesMobile(Clean(phoneNumber))
  }

  // ---------------------------------------------------------------------
  // Formatting: strip a leading `91` from a number of twelve code units
  // ---------------------------------------------------------------------

  /**
   * JavaScript's `length`: UTF-16 code units, so a character above U+FFFF
   * (a surrogate pair) counts twice.
   */
  function Utf16Length(s: string): (n: nat)
    ensures |s| <= n <= 2 * |s|
  {
    if s == [] then 0 else (if s[0] as int > 0xFFFF then 2 else 1) + Utf16Length(s[1..])
  }

  /** Code units add up over concatenation. */
  lemma {:induction false} Utf16LengthAppend(a: string, b: string)
    ensures Utf16Length(a + b) == Utf16Length(a) + Utf16Length(b)
  {
    if a == [] {
      assert a + b == b;
    } else {
      assert (a + b)[0] == a[0] && (a + b)[1..] == a[1..] + b;
      Utf16LengthAppend(a[1..], b);
    }
  }

  /** A string of characters up to U+FFFF has one code unit per character. */
  lemma {:induction false} Utf16LengthBasic(s: string)
    requires forall i :: 0 <= i < |s| ==> s[i] as int <= 0xFFFF
    ensures Utf16Length(s) == |s|
  {
    if s != [] {
      Utf16LengthBasic(s[1..]);
    }
  }

  /** `startsWith('91') && length === 12`, the length in UTF-16 code units. */
  predicate HasCountryCode(c: string) {
    |c| >= 2 && c[..2] == "91" && Utf16Length(c) == 12
  }

  /** formatPhoneNumber: the cleaned number, without the `91` prefix of one that is twelve code units long. */
  function FormatPhoneNumber(phoneNumber: string): (r: string)
    ensures forall i :: 0 <= i < |r| ==> !Stripped(r[i])
    ensures var c := Clean(phoneNumber); |r| <= |c| && r == c[|c| - |r|..]
  {
    var cleanNumber := Clean(phoneNumber);
    // `'9'` and `'1'` are single code units, so `substring(2)` drops exactly the two characters
    if |cleanNumber| >= 2 && cleanNumber[..2] == "91" && Utf16Length(cleanNumber) == 12 then cleanNumber[2..]
    else cleanNumber
  }

  /** A cleaned `91` + ten code units loses the prefix and keeps exactly ten code units. */
  lemma FormatDropsCountryCode(phoneNumber: string)
    requires HasCountryCode(Clean(phoneNumber))
    ensures FormatPhoneNumber(phoneNumber) == Clean(phoneNumber)[2..]
    ensures Utf16Length(FormatPhoneNumber(phoneNumber)) == 10
    ensures "91" + FormatPhoneNumber(phoneNumber) == Clean(phoneNumber)
  {
    var c := Clean(phoneNumber);
    assert c == c[..2] + c[2..];
    Utf16LengthAppend(c[..2], c[2..]);
    assert Utf16Length(c[..2]) == 2 by {
      Utf16LengthBasic(c[..2]);
    }
  }

  /** Any other number comes back cleaned and otherwise unchanged. */
  lemma FormatKeepsOthers(phoneNumber: string)
    requires !HasCountryCode(Clean(phoneNumber))
    ensures FormatPhoneNumber(phoneNumber) == Clean(phoneNumber)
  {
  }

  /** A character above U+FFFF, which JavaScript stores as a surrogate pair. */
  const Emoji: char := '\U{1F600}'

  /** The prefix `91` has nothing to strip and is two code units long. */
  lemma CountryCodePlain()
    ensures Clean("91") == "91" && Utf16Length("91") == 2
  {
    assert "91"[1..] == "1" && "1"[1..] == "";
  }

  /** A number that is its own cleaning, starts with `91` and is twelve code units long loses the prefix. */
  lemma FormatCleanPrefixed(s: string, t: string)
    requires s == "91" + t && Clean(s) == s && Utf16Length(s) == 12
    ensures FormatPhoneNumber(s) == t
  {
    assert s[..2] == "91" && s[2..] == t;
  }

  /** `91` followed by ten code units with nothing to strip loses the prefix, whatever its character count. */
  lemma FormatPrefixed(t: string)
    requires Clean(t) == t
    requires Utf16Length(t) == 10
    ensures FormatPhoneNumber("91" + t) == t
  {
    var s := "91" + t;
    CountryCodePlain();
    CleanAppend("91", t);
    Utf16LengthAppend("91", t);
    assert Clean(s) == s && Utf16Length(s) == 12;
    FormatCleanPrefixed(s, t);
  }

  /** Digits followed by one character above U+FFFF: `Clean` keeps them all, and the pair counts twice. */
  lemma EmojiTailPlain(d: string)
    requires forall i :: 0 <= i < |d| ==> IsDigit(d[i])
    ensures var t := d + [Emoji]; Clean(t) == t && Utf16Length(t) == |d| + 2
  {
    forall i | 0 <= i < |d|
      ensures !Stripped(d[i]) && d[i] as int <= 0xFFFF
    {
      assert IsDigit(d[i]);
    }
    CleanPlain(d);
    Utf16LengthBasic(d);
    assert [Emoji][1..] == [];
    CleanAppend(d, [Emoji]);
    Utf16LengthAppend(d, [Emoji]);
  }

  /**
   * `91`, eight digits and a character above U+FFFF: eleven characters but
   * twelve code units, so the prefix goes.
   */
  lemma SurrogatePairExample(d: string)
    requires |d| == 8 && forall i :: 0 <= i < |d| ==> IsDigit(d[i])
    ensures var t := d + [Emoji]; |"91" + t| == 11 && FormatPhoneNumber("91" + t) == t
  {
    EmojiTailPlain(d);
    FormatPrefixed(d + [Emoji]);
  }

  /** Formatting twice is formatting once. */
  lemma FormatIdempotent(phoneNumber: string)
    ensures FormatPhoneNumber(FormatPhoneNumber(phoneNumber)) == FormatPhoneNumber(phoneNumber)
  {
    var c := Clean(phoneNumber);
    var f := FormatPhoneNumber(phoneNumber);
    CleanPlain(f);
    if HasCountryCode(c) {
      FormatDropsCountryCode(phoneNumber);
    }
  }

  /** A valid number is already formatted, and formatting keeps it valid. */
  lemma FormatValid(phoneNumber: string)
    requires ValidatePhoneNumber(phoneNumber)
    ensures FormatPhoneNumber(phoneNumber) == Clean(phoneNumber)
    ensures ValidatePhoneNumber(FormatPhoneNumber(phoneNumber))
  {
    var c := Clean(phoneNumber);
    assert forall i :: 0 <= i < |c| ==> c[i] as int <= 0xFFFF by {
      assert IsMobile(c);
    }
    Utf16LengthBasic(c);
    CleanIdempotent(phoneNumber);
  }

  /** A mobile number written with the country code formats to a valid number. */
  lemma FormatCountryCodeValid(phoneNumber: string)
    requires var c := Clean(phoneNumber); HasCountryCode(c) && IsMobile(c[2..])
    ensures ValidatePhoneNumber(FormatPhoneNumber(phoneNumber))
  {
    var f := FormatPhoneNumber(phoneNumber);
    CleanPlain(f);
  }

  // ---------------------------------------------------------------------
  // Configuration
  // ---------------------------------------------------------------------

  /** The service's configuration, read once from the environment. */
  datatype Config = Config(apiUrl: string, secret: string, sender: string, tempid: string, route: string, msgtype: string)

  /** `process.env[name] ?? fallback`: only an unset variable takes the fallback; an empty one stays empty. */
  function EnvOr(env: map<string, string>, name: string, fallback: string): (v: string)
    ensures name in env ==> v == env[name]
    ensures name !in env ==> v == fallback
  {
    if name in env then env[name] else fallback
  }

  function ConfigFromEnv(env: map<string, string>): Config {
    Config(EnvOr(env, "SMS_API_URL", ""), EnvOr(env, "SMS_SECRET", ""), EnvOr(env, "SMS_SENDER", ""),
           EnvOr(env, "SMS_TEMPID", ""), EnvOr(env, "SMS_ROUTE", "TA"), EnvOr(env, "SMS_MSGTYPE", "1"))
  }

  /** The required settings, by variable name, in the order they are checked. */
  function Required(config: Config): seq<(string, string)> {
    [("SMS_API_URL", config.apiUrl), ("SMS_SECRET", config.secret),
     ("SMS_SENDER", config.sender), ("SMS_TEMPID", config.tempid)]
  }

  /** The names whose value is empty (falsy), in the order given. */
  function EmptyNames(settings: seq<(string, string)>): (names: seq<string>)
    ensures |names| <= |settings|
  {
    if settings == [] then [] else (if settings[0].1 == "" then [settings[0].0] else []) + EmptyNames(settings[1..])
  }

  /** A name is reported exactly when one of its settings is empty. */
  lemma {:induction false} EmptyNamesExactly(settings: seq<(string, string)>)
    ensures forall k :: k in EmptyNames(settings) <==> (k, "") in settings
  {
    if settings != [] {
      EmptyNamesExactly(settings[1..]);
      assert settings == [settings[0]] + settings[1..];
    }
  }

  /** `[name]` when the setting is empty, else nothing: one `if (!v) missing.push(name)`. */
  function Flag(name: string, v: string): seq<string> {
    if v == "" then [name] else []
  }

  lemma EmptyNamesCons(head: (string, string), tail: seq<(string, string)>)
    ensures EmptyNames([head] + tail) == Flag(head.0, head.1) + EmptyNames(tail)
  {
    assert ([head] + tail)[0] == head && ([head] + tail)[1..] == tail;
  }

  /** The empty required names, one check at a time in source order. */
  lemma RequiredInOrder(config: Config)
    ensures EmptyNames(Required(config)) == Flag("SMS_API_URL", config.apiUrl) + Flag("SMS_SECRET", config.secret)
                                            + Flag("SMS_SENDER", config.sender) + Flag("SMS_TEMPID", config.tempid)
  {
    var a, b, c, d := ("SMS_API_URL", config.apiUrl), ("SMS_SECRET", config.secret),
                      ("SMS_SENDER", config.sender), ("SMS_TEMPID", config.tempid);
    assert Required(config) == [a] + ([b] + ([c] + ([d] + [])));
    EmptyNamesCons(d, []);
    EmptyNamesCons(c, [d] + []);
    EmptyNamesCons(b, [c] + ([d] + []));
    EmptyNamesCons(a, [b] + ([c] + ([d] + [])));
  }

  const IncompleteMessage: string := "SMS configuration is incomplete. Check environment variables."

  function MissingLog(missing: seq<string>): string {
    "Missing SMS configuration keys: " + Builder.Join(missing, ", ")
  }

  /**
   * validateConfig: collect the names of the empty required settings in
   * order; when there are any, log them and throw.
   */
  method ValidateConfig(config: Config) returns (missing: seq<string>, logged: Option<string>, thrown: Option<string>)
    ensures missing == EmptyNames(Required(config))
    ensures thrown.Some? <==> missing != []
    ensures thrown.Some? ==> thrown.value == IncompleteMessage && logged == Some(MissingLog(missing))
    ensures thrown.None? ==> logged.None?
  {
    missing := [];
    if config.apiUrl == "" {
      missing := missing + ["SMS_API_URL"];
    }
    if config.secret == "" {
      missing := missing + ["SMS_SECRET"];
    }
    if config.sender == "" {
      missing := missing + ["SMS_SENDER"];
    }
    if config.tempid == "" {
      missing := missing + ["SMS_TEMPID"];
    }
    RequiredInOrder(config);
    logged, thrown := None, None;
    if |missing| > 0 {
      logged := Some(MissingLog(missing));
      thrown := Some(IncompleteMessage);
    }
  }

  /** A required setting is reported exactly when it is empty; `route` and `msgtype` never are. */
  lemma MissingExactly(config: Config)
    ensures var missing := EmptyNames(Required(config));
            ("SMS_API_URL" in missing <==> config.apiUrl == "") &&
            ("SMS_SECRET" in missing <==> config.secret == "") &&
            ("SMS_SENDER" in missing <==> config.sender == "") &&
            ("SMS_TEMPID" in missing <==> config.tempid == "") &&
            "SMS_ROUTE" !in missing && "SMS_MSGTYPE" !in missing
  {
    EmptyNamesExactly(Required(config));
  }

  /** With no SMS variables set, all four required names are reported, in order; route and type take their defaults. */
  lemma UnsetEnvironment()
    ensures var config := ConfigFromEnv(map[]);
            EmptyNames(Required(config)) == ["SMS_API_URL", "SMS_SECRET", "SMS_SENDER", "SMS_TEMPID"] &&
            config.route == "TA" && config.msgtype == "1"
  {
  }

  /** A mobile number typed as `+91 ` followed by its ten digits: formatting yields the ten digits. */
  lemma CountryCodeExample(d: string)
    requires IsMobile(d)
    ensures FormatPhoneNumber("+91 " + d) == d
    ensures ValidatePhoneNumber(d) && !ValidatePhoneNumber("+91 " + d)
  {
    MobilePlain(d);
    PlusPrefixCleaned(d);
    FormatPrefixed(d);
    assert Clean("+91 " + d) == Clean("91" + d) by {
      CountryCodePlain();
      CleanAppend("91", d);
    }
    FormatByClean("+91 " + d, "91" + d);
  }

  /** A mobile number has nothing to strip and one code unit per digit. */
  lemma MobilePlain(d: string)
    requires IsMobile(d)
    ensures Clean(d) == d && Utf16Length(d) == 10
  {
    forall i | 0 <= i < |d|
      ensures !Stripped(d[i]) && d[i] as int <= 0xFFFF
    {
      assert i == 0 || IsDigit(d[i]);
    }
    CleanPlain(d);
    Utf16LengthBasic(d);
  }

  /** Cleaning `'+91 '` leaves `91`. */
  lemma PlusPrefixCleaned(d: string)
    ensures Clean("+91 " + d) == "91" + Clean(d)
  {
    CleanAppend("+91 ", d);
    assert Clean("+91 ") == "91" by {
      assert "+91 "[1..] == "91 " && "91 "[1..] == "1 " && "1 "[1..] == " " && " "[1..] == "";
    }
  }

  /** Formatting depends on the cleaned number only. */
  lemma FormatByClean(a: string, b: string)
    requires Clean(a) == Clean(b)
    ensures FormatPhoneNumber(a) == FormatPhoneNumber(b)
  {
  }
}
