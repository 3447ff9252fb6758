/** The cookie writer and reader of frontend/lib/auth-cookie.ts over a browser's cookie jar.

    Strings are sequences of Unicode scalar values, the well-formed JavaScript strings. */
module Cookies {
  import opened Common

  // ---------------------------------------------------------------- percent-encoding

  /** The characters that `encodeURIComponent` leaves alone. */
  predicate Unreserved(c: char) {
    'A' <= c <= 'Z' || 'a' <= c <= 'z' || '0' <= c <= '9'
    || c == '-' || c == '_' || c == '.' || c == '!' || c == '~' || c == '*' || c == '\'' || c == '(' || c == ')'
  }

  function Utf8(c: char): seq<Byte> {
    var n := c as int;
    if n < 0x80 then [n]
    else if n < 0x800 then [0xC0 + n / 64, 0x80 + n % 64]
    else if n < 0x10000 then [0xE0 + n / 4096, 0x80 + n / 64 % 64, 0x80 + n % 64]
    else [0xF0 + n / 262144, 0x80 + n / 4096 % 64, 0x80 + n / 64 % 64, 0x80 + n % 64]
  }

  function HexDigit(d: int): char
    requires 0 <= d < 16
  {
    if d < 10 then '0' + d as char else 'A' + (d - 10) as char
  }

  /** Section 2.1 of RFC 3986. */
  function Percent(b: Byte): string {
    ['%', HexDigit(b / 16), HexDigit(b % 16)]
  }

  function PercentAll(bs: seq<Byte>): string {
    if bs == [] then "" else Percent(bs[0]) + PercentAll(bs[1..])
  }

  function EncodeChar(c: char): string {
    if Unreserved(c) then [c] else PercentAll(Utf8(c))
  }

  function Encode(s: string): string {
    if s == "" then "" else EncodeChar(s[0]) + Encode(s[1..])
  }

  function HexValue(c: char): Option<int> {
    if '0' <= c <= '9' then Some(c as int - '0' as int)
    else if 'A' <= c <= 'F' then Some(c as int - 'A' as int + 10)
    else if 'a' <= c <= 'f' then Some(c as int - 'a' as int + 10)
    else None
  }

  /** The byte that a leading percent triplet stands for. */
  function Triplet(s: string): (r: Option<Byte>)
    ensures r.Some? ==> |s| >= 3
  {
    if |s| >= 3 && s[0] == '%' && HexValue(s[1]).Some? && HexValue(s[2]).Some? then
      Some(HexValue(s[1]).value * 16 + HexValue(s[2]).value)
    else None
  }

  predicate Trail(b: Option<Byte>) {
    b.Some? && 0x80 <= b.value < 0xC0
  }

  /** One continuation byte, at triplet `i`, as its six bits. */
  function Six(s: string, i: nat): Option<int> {
    if 3 * i <= |s| && Trail(Triplet(s[3 * i..])) then Some(Triplet(s[3 * i..]).value - 0x80) else None
  }

  /** A scalar value that needs at least `min`, as UTF-8 demands of every multi-byte form. */
  function Scalar(n: int, min: nat): Option<char> {
    if min <= n && (n < 0xD800 || 0xE000 <= n < 0x110000) then Some(n as char) else None
  }

  /** The character at the front of an encoded string and the number of characters it takes. */
  function DecodeChar(s: string): (r: Option<(char, nat)>)
    requires s != ""
    ensures r.Some? ==> 0 < r.value.1 <= |s|
  {
    if s[0] != '%' then Some((s[0], 1))
    else match Triplet(s)
      case None => None
      case Some(b) =>
        var one, two, three := Six(s, 1), Six(s, 2), Six(s, 3);
        if b < 0x80 then Some((b as char, 3))
        else if 0xC0 <= b < 0xE0 && one.Some? then
          Sized(Scalar((b - 0xC0) * 64 + one.value, 0x80), 6)
        else if 0xE0 <= b < 0xF0 && one.Some? && two.Some? then
          Sized(Scalar((b - 0xE0) * 4096 + one.value * 64 + two.value, 0x800), 9)
        else if 0xF0 <= b < 0xF8 && one.Some? && two.Some? && three.Some? then
          Sized(Scalar((b - 0xF0) * 262144 + one.value * 4096 + two.value * 64 + three.value, 0x10000), 12)
        else None
  }

  function Sized(c: Option<char>, n: nat): Option<(char, nat)> {
    if c.Some? then Some((c.value, n)) else None
  }

  /** `decodeURIComponent`; None is its URIError. */
  function Decode(s: string): Option<string>
    decreases |s|
  {
    if s == "" then Some("")
    else match DecodeChar(s)
      case None => None
      case Some((c, n)) =>
        var rest := Decode(s[n..]);
        if rest.Some? then Some([c] + rest.value) else None
  }

  lemma HexRoundTrip(d: int)
    requires 0 <= d < 16
    ensures HexValue(HexDigit(d)) == Some(d)
  {
  }

  lemma TripletRoundTrip(b: Byte, rest: string)
    ensures Triplet(Percent(b) + rest) == Some(b)
  {
    HexRoundTrip(b / 16);
    HexRoundTrip(b % 16);
  }

  lemma {:induction false} TripletAt(bs: seq<Byte>, i: nat, rest: string)
    requires i < |bs|
    ensures |PercentAll(bs)| == 3 * |bs|
    ensures Triplet((PercentAll(bs) + rest)[3 * i..]) == Some(bs[i])
    decreases |bs|
  {
    var s := PercentAll(bs) + rest;
    assert s == Percent(bs[0]) + (PercentAll(bs[1..]) + rest);
    if i == 0 {
      assert s[0..] == s;
      TripletRoundTrip(bs[0], PercentAll(bs[1..]) + rest);
      if |bs| > 1 { TripletAt(bs[1..], 0, rest); }
    } else {
      TripletAt(bs[1..], i - 1, rest);
      assert s[3 * i..] == (PercentAll(bs[1..]) + rest)[3 * (i - 1)..];
    }
  }

  lemma SixBits(n: nat)
    ensures n == n / 64 * 64 + n % 64
    ensures n == n / 4096 * 4096 + n / 64 % 64 * 64 + n % 64
    ensures n == n / 262144 * 262144 + n / 4096 % 64 * 4096 + n / 64 % 64 * 64 + n % 64
  {
    assert n / 64 / 64 == n / 4096;
    assert n / 4096 / 64 == n / 262144;
  }

  /** The four cases of the decoder, on the bytes it reads. */
  lemma DecodeBytes(c: char, s: string)
    requires s != "" && s[0] == '%' && Triplet(s) == Some(Utf8(c)[0])
    requires forall i | 1 <= i < |Utf8(c)| :: 3 * i <= |s| && Triplet(s[3 * i..]) == Some(Utf8(c)[i])
    requires |s| >= 3 * |Utf8(c)|
    ensures DecodeChar(s) == Some((c, 3 * |Utf8(c)|))
  {
    var n := c as int;
    SixBits(n);
    if n < 0x80 {
    } else if n < 0x800 {
      assert Six(s, 1) == Some(n % 64);
    } else if n < 0x10000 {
      assert Six(s, 1) == Some(n / 64 % 64) && Six(s, 2) == Some(n % 64);
    } else {
      assert Six(s, 1) == Some(n / 4096 % 64) && Six(s, 2) == Some(n / 64 % 64) && Six(s, 3) == Some(n % 64);
    }
  }

  lemma Utf8RoundTrip(c: char, rest: string)
    ensures |PercentAll(Utf8(c))| == 3 * |Utf8(c)|
    ensures DecodeChar(PercentAll(Utf8(c)) + rest) == Some((c, 3 * |Utf8(c)|))
  {
    var bs := Utf8(c);
    var s := PercentAll(bs) + rest;
    TripletAt(bs, 0, rest);
    assert s[0..] == s;
    forall i | 1 <= i < |bs| ensures Triplet(s[3 * i..]) == Some(bs[i]) {
      TripletAt(bs, i, rest);
    }
    DecodeBytes(c, s);
  }

  lemma CharRoundTrip(c: char, rest: string)
    ensures EncodeChar(c) != ""
    ensures DecodeChar(EncodeChar(c) + rest) == Some((c, |EncodeChar(c)|))
  {
    if !Unreserved(c) { Utf8RoundTrip(c, rest); }
  }

  /** `decodeURIComponent` inverts `encodeURIComponent` on every string. */
  lemma {:induction false} EncodeRoundTrip(s: string)
    ensures Decode(Encode(s)) == Some(s)
    decreases |s|
  {
    hide DecodeChar, EncodeChar;
    if s != "" {
      CharRoundTrip(s[0], Encode(s[1..]));
      EncodeRoundTrip(s[1..]);
      assert Encode(s)[|EncodeChar(s[0])|..] == Encode(s[1..]);
      assert [s[0]] + s[1..] == s;
    }
  }

  /** Nothing that has a meaning in a cookie string or to `trim` survives the encoding. */
  predicate Inert(c: char) {
    Unreserved(c) || c == '%'
  }

  lemma {:induction false} PercentIsInert(bs: seq<Byte>)
    ensures forall i | 0 <= i < |PercentAll(bs)| :: Inert(PercentAll(bs)[i])
    decreases |bs|
  {
    if bs != [] { PercentIsInert(bs[1..]); }
  }

  lemma {:induction false} EncodedIsInert(s: string)
    ensures forall i | 0 <= i < |Encode(s)| :: Inert(Encode(s)[i])
    decreases |s|
  {
    if s != "" {
      if !Unreserved(s[0]) { PercentIsInert(Utf8(s[0])); }
      EncodedIsInert(s[1..]);
    }
  }

  // ---------------------------------------------------------------- the jar

  /** `home` marks the cookies with this page's domain and Path=/, the ones the writer replaces. */
  datatype Cookie = Cookie(name: string, value: string, home: bool)

  /** The cookies a page can read, in the order section 5.4 of RFC 6265 lists them. */
  type Jar = seq<Cookie>

  predicate Clean(s: string, bad: char) {
    forall i | 0 <= i < |s| :: s[i] != bad
  }

  predicate ValidJar(jar: Jar) {
    forall i | 0 <= i < |jar| :: Clean(jar[i].name, ';') && Clean(jar[i].name, '=') && Clean(jar[i].value, ';')
  }

  function Text(c: Cookie): string {
    c.name + "=" + c.value
  }

  /** The getter of `document.cookie`. */
  function DocumentCookie(jar: Jar): string {
    if jar == [] then ""
    else if |jar| == 1 then Text(jar[0])
    else Text(jar[0]) + "; " + DocumentCookie(jar[1..])
  }

  /** Replaces the home cookie of that name where it stands, else appends it (section 5.3). */
  function Store(jar: Jar, name: string, value: string): Jar {
    if jar == [] then [Cookie(name, value, true)]
    else if jar[0].home && jar[0].name == name then [Cookie(name, value, true)] + jar[1..]
    else [jar[0]] + Store(jar[1..], name, value)
  }

  function Remove(jar: Jar, name: string): Jar {
    if jar == [] then []
    else (if jar[0].home && jar[0].name == name then [] else [jar[0]]) + Remove(jar[1..], name)
  }

  function IndexOf(s: string, c: char): nat
    ensures IndexOf(s, c) <= |s|
  {
    if s == "" then 0 else if s[0] == c then 0 else 1 + IndexOf(s[1..], c)
  }

  /** The characters that JavaScript's `trim` removes. */
  predicate Space(c: char) {
    var n := c as int;
    || 9 <= n <= 13 || n == 32 || n == 0xA0 || n == 0x1680 || 0x2000 <= n <= 0x200A
    || n == 0x2028 || n == 0x2029 || n == 0x202F || n == 0x205F || n == 0x3000 || n == 0xFEFF
  }

  /** The white space of a cookie string (section 5.2 of RFC 6265). */
  predicate Wsp(c: char) {
    c == ' ' || c == '\t'
  }

  function TrimStart(s: string, blank: char -> bool): string {
    if s != "" && blank(s[0]) then TrimStart(s[1..], blank) else s
  }

  function TrimEnd(s: string, blank: char -> bool): string {
    if s != "" && blank(s[|s| - 1]) then TrimEnd(s[..|s| - 1], blank) else s
  }

  function Trim(s: string, blank: char -> bool): string {
    TrimEnd(TrimStart(s, blank), blank)
  }

  const EXPIRES := "Expires="

  /** The value of the last `Expires` attribute (section 5.3 of RFC 6265). */
  function Expiry(attributes: seq<string>): Option<string> {
    if attributes == [] then None
    else
      var last := Trim(attributes[|attributes| - 1], Wsp);
      if EXPIRES <= last then Some(last[|EXPIRES|..]) else Expiry(attributes[..|attributes| - 1])
  }

  /** The setter of `document.cookie`: the pair before the first `;`, split at its first `=`, is stored, or
      the cookie evicted when its expiry date has passed (sections 5.2 and 5.3 of RFC 6265). `past` is the
      browser's clock. Other attributes are those the writer always sends. */
  function Assign(jar: Jar, text: string, past: string -> bool): Jar {
    var semicolon := IndexOf(text, ';');
    var pair := text[..semicolon];
    var expiry := if semicolon == |text| then None else Expiry(Split(text[semicolon + 1..]));
    var eq := IndexOf(pair, '=');
    if eq == |pair| then jar
    else
      var name := Trim(pair[..eq], Wsp);
      if expiry.Some? && past(expiry.value) then Remove(jar, name) else Store(jar, name, Trim(pair[eq + 1..], Wsp))
  }

  /** `cookieOptions`. */
  function Options(expires: string): string {
    "Path=/; SameSite=Lax; " + (EXPIRES + expires)
  }

  const EPOCH := "Thu, 01 Jan 1970 00:00:00 GMT"

  class Document {
    var jar: Jar

    method SetAuthCookie(name: string, value: string, expires: string, past: string -> bool)
      modifies this
      ensures jar == Assign(old(jar), name + "=" + Encode(value) + "; " + Options(expires), past)
    {
      var safe := Encode(value);
      jar := Assign(jar, name + "=" + safe + "; " + Options(expires), past);
    }

    method ClearAuthCookie(name: string, past: string -> bool)
      modifies this
      ensures jar == Assign(old(jar), name + "=" + "" + "; " + Options(EPOCH), past)
    {
      jar := Assign(jar, name + "=" + "" + "; " + Options(EPOCH), past);
    }

    method ReadCookie(name: string) returns (value: Reading)
      ensures value == Read(jar, name)
    {
      var prefix := name + "=";
      var pieces := Split(DocumentCookie(jar));
      var i := 0;
      while i < |pieces|
        invariant i <= |pieces|
        invariant FirstMatch(pieces, prefix) == FirstMatch(pieces[i..], prefix)
      {
        var trimmed := Trim(pieces[i], Space);
        if prefix <= trimmed {
          return Decoded(trimmed[|prefix|..]);
        }
        i := i + 1;
      }
      value := Absent;
    }
  }

  /** `split(";")`. */
  function Split(s: string): (pieces: seq<string>)
    decreases |s|
  {
    var i := IndexOf(s, ';');
    if i == |s| then [s] else [s[..i]] + Split(s[i + 1..])
  }

  /** What a read ends in: null, a value, or the URIError that decoding throws. */
  datatype Reading = Absent | Value(text: string) | UriError

  function Decoded(s: string): Reading {
    match Decode(s) case Some(text) => Value(text) case None => UriError
  }

  /** What the reader's loop returns on a list of pieces. */
  function FirstMatch(pieces: seq<string>, prefix: string): Reading {
    if pieces == [] then Absent
    else if prefix <= Trim(pieces[0], Space) then Decoded(Trim(pieces[0], Space)[|prefix|..])
    else FirstMatch(pieces[1..], prefix)
  }

  function Read(jar: Jar, name: string): Reading {
    FirstMatch(Split(DocumentCookie(jar)), name + "=")
  }

  // ---------------------------------------------------------------- reading cookie by cookie

  lemma {:induction false} IndexSkips(a: string, c: char, b: string)
    requires Clean(a, c)
    ensures IndexOf(a + [c] + b, c) == |a|
    decreases |a|
  {
    if a != "" {
      assert (a + [c] + b)[1..] == a[1..] + [c] + b;
      IndexSkips(a[1..], c, b);
    }
  }

  lemma {:induction false} IndexNone(a: string, c: char)
    requires Clean(a, c)
    ensures IndexOf(a, c) == |a|
    decreases |a|
  {
    if a != "" { IndexNone(a[1..], c); }
  }

  /** Does this cookie answer a read of `prefix`, and with what? */
  predicate Matches(c: Cookie, prefix: string) {
    prefix <= Trim(Text(c), Space)
  }

  function ReadTexts(jar: Jar, prefix: string): Reading {
    if jar == [] then Absent
    else if Matches(jar[0], prefix) then Decoded(Trim(Text(jar[0]), Space)[|prefix|..])
    else ReadTexts(jar[1..], prefix)
  }

  lemma LeadingSpace(s: string, prefix: string)
    ensures FirstMatch(Split(" " + s), prefix) == FirstMatch(Split(s), prefix)
  {
    assert (" " + s)[1..] == s;
    var i := IndexOf(s, ';');
    assert IndexOf(" " + s, ';') == i + 1;
    assert (" " + s)[..i + 1] == " " + s[..i];
    assert (" " + s[..i])[1..] == s[..i];
    assert TrimStart(" " + s[..i], Space) == TrimStart(s[..i], Space);
    if i == |s| {
      assert s[..i] == s && (" " + s)[..i + 1] == " " + s;
    } else {
      assert (" " + s)[i + 2..] == s[i + 1..];
    }
  }

  /** Joining with `; `, splitting at `;` and trimming gives back the cookies one by one. */
  lemma {:induction false} ReadsCookieByCookie(jar: Jar, prefix: string)
    requires ValidJar(jar) && prefix != ""
    ensures FirstMatch(Split(DocumentCookie(jar)), prefix) == ReadTexts(jar, prefix)
    decreases |jar|
  {
    if jar == [] {
    } else if |jar| == 1 {
      IndexNone(Text(jar[0]), ';');
    } else {
      var rest := DocumentCookie(jar[1..]);
      var s := DocumentCookie(jar);
      assert s == Text(jar[0]) + [';'] + (" " + rest);
      IndexSkips(Text(jar[0]), ';', " " + rest);
      assert s[..|Text(jar[0])|] == Text(jar[0]) && s[|Text(jar[0])| + 1..] == " " + rest;
      LeadingSpace(rest, prefix);
      ReadsCookieByCookie(jar[1..], prefix);
    }
  }

  // ---------------------------------------------------------------- the laws

  /** A name like the four constants of the source. */
  predicate Token(name: string) {
    name != "" && forall i | 0 <= i < |name| :: name[i] != ';' && name[i] != '=' && !Space(name[i])
  }

  lemma {:induction false} TrimIdle(s: string, blank: char -> bool)
    requires s == "" || (!blank(s[0]) && !blank(s[|s| - 1]))
    ensures Trim(s, blank) == s
  {
  }

  lemma InertTrims(s: string)
    requires forall i | 0 <= i < |s| :: Inert(s[i])
    ensures Trim(s, Wsp) == s && Clean(s, ';') && Clean(s, '=')
  {
    TrimIdle(s, Wsp);
  }

  /** A date as `toUTCString` writes it. */
  predicate DateText(date: string) {
    date != "" && Clean(date, ';') && !Wsp(date[0]) && !Wsp(date[|date| - 1])
  }

  /** The expiry date lies ahead. */
  predicate Ahead(expires: string, past: string -> bool) {
    DateText(expires) && !past(expires)
  }

  lemma LeadingWsp(s: string)
    requires s != "" && !Wsp(s[0]) && !Wsp(s[|s| - 1])
    ensures Trim(" " + s, Wsp) == s
  {
    assert (" " + s)[1..] == s;
    TrimIdle(s, Wsp);
  }

  lemma SplitFirst(a: string, b: string)
    requires Clean(a, ';')
    ensures Split(a + [';'] + b) == [a] + Split(b) && Split(a) == [a]
  {
    IndexSkips(a, ';', b);
    IndexNone(a, ';');
    assert (a + [';'] + b)[..|a|] == a && (a + [';'] + b)[|a| + 1..] == b;
  }

  const PATH := "Path=/"
  const SITE := "SameSite=Lax"

  lemma DateFound(a: string, b: string, expires: string)
    requires Clean(a, ';') && Clean(b, ';') && DateText(expires)
    ensures Expiry(Split(a + [';'] + (b + [';'] + (" " + (EXPIRES + expires))))) == Some(expires)
  {
    hide Split, Trim;
    var date := EXPIRES + expires;
    assert Clean(EXPIRES, ';') && EXPIRES[0] == 'E';
    SplitFirst(a, b + [';'] + (" " + date));
    SplitFirst(b, " " + date);
    SplitFirst(" " + date, "");
    LeadingWsp(date);
    var all := [a] + ([b] + [" " + date]);
    assert all[|all| - 1] == " " + date;
    assert date[|EXPIRES|..] == expires;
  }

  /** The date the writer sends is the date the browser finds. */
  lemma OptionsExpire(expires: string)
    requires DateText(expires)
    ensures Expiry(Split(" " + Options(expires))) == Some(expires)
  {
    hide Split, Expiry;
    var date := " " + (EXPIRES + expires);
    CleanOptions();
    DateFound(" " + PATH, " " + SITE, expires);
    OptionsParts(EXPIRES + expires);
  }

  lemma CleanOptions()
    ensures Clean(" " + PATH, ';') && Clean(" " + SITE, ';')
  {
  }

  lemma OptionsParts(date: string)
    ensures " " + ("Path=/; SameSite=Lax; " + date) == " " + PATH + [';'] + (" " + SITE + [';'] + (" " + date))
  {
  }

  /** What the writer leaves in the jar. */
  function Written(jar: Jar, name: string, value: string, expires: string, past: string -> bool): Jar {
    Assign(jar, name + "=" + Encode(value) + "; " + Options(expires), past)
  }

  function Cleared(jar: Jar, name: string, past: string -> bool): Jar {
    Assign(jar, name + "=" + "" + "; " + Options(EPOCH), past)
  }

  /** What the browser makes of a pair and a date. */
  lemma AssignsPair(jar: Jar, name: string, safe: string, expires: string, past: string -> bool)
    requires Token(name) && DateText(expires) && forall i | 0 <= i < |safe| :: Inert(safe[i])
    ensures Assign(jar, name + "=" + safe + "; " + Options(expires), past)
         == if past(expires) then Remove(jar, name) else Store(jar, name, safe)
  {
    hide Expiry, Options, Store, Remove;
    var tail := " " + Options(expires);
    InertTrims(safe);
    TrimIdle(name, Wsp);
    var text := name + "=" + safe + "; " + Options(expires);
    assert text == (name + "=" + safe) + [';'] + tail;
    IndexSkips(name + "=" + safe, ';', tail);
    assert text[..|name + "=" + safe|] == name + ['='] + safe;
    assert text[|name + "=" + safe| + 1..] == tail;
    IndexSkips(name, '=', safe);
    assert (name + ['='] + safe)[..|name|] == name && (name + ['='] + safe)[|name| + 1..] == safe;
    OptionsExpire(expires);
  }

  /** The browser stores exactly the pair the writer meant, whatever the value contains. */
  lemma WriteStores(jar: Jar, name: string, value: string, expires: string, past: string -> bool)
    requires Token(name) && Ahead(expires, past)
    ensures Written(jar, name, value, expires, past) == Store(jar, name, Encode(value))
  {
    EncodedIsInert(value);
    AssignsPair(jar, name, Encode(value), expires, past);
  }

  /** Clearing evicts exactly the writer's own cookie of that name. */
  lemma ClearRemoves(jar: Jar, name: string, past: string -> bool)
    requires Token(name) && past(EPOCH)
    ensures Cleared(jar, name, past) == Remove(jar, name)
  {
    assert EPOCH[0] == 'T' && EPOCH[|EPOCH| - 1] == 'T';
    AssignsPair(jar, name, "", EPOCH, past);
  }

  /** A cookie the writer will not replace, listed before its own, reads as `name`. */
  predicate Shadowed(jar: Jar, name: string) {
    jar != [] && !(jar[0].home && jar[0].name == name)
    && (Matches(jar[0], name + "=") || Shadowed(jar[1..], name))
  }

  lemma StoredMatches(name: string, value: string)
    requires Token(name)
    ensures var c := Cookie(name, Encode(value), true);
            Matches(c, name + "=") && Decode(Trim(Text(c), Space)[|name| + 1..]) == Some(value)
  {
    EncodedIsInert(value);
    TrimIdle(Text(Cookie(name, Encode(value), true)), Space);
    EncodeRoundTrip(value);
  }

  lemma {:induction false} ReadStored(jar: Jar, name: string, value: string)
    requires Token(name)
    ensures ReadTexts(Store(jar, name, Encode(value)), name + "=")
         == if Shadowed(jar, name) then ReadTexts(jar, name + "=") else Value(value)
    decreases |jar|
  {
    StoredMatches(name, value);
    if jar != [] && !(jar[0].home && jar[0].name == name) {
      ReadStored(jar[1..], name, value);
    }
  }

  lemma {:induction false} StoreKeepsValid(jar: Jar, name: string, value: string)
    requires ValidJar(jar) && Token(name)
    ensures ValidJar(Store(jar, name, Encode(value)))
    decreases |jar|
  {
    EncodedIsInert(value);
    InertTrims(Encode(value));
    if jar != [] && !(jar[0].home && jar[0].name == name) { StoreKeepsValid(jar[1..], name, value); }
  }

  /** Reading back what was written: every value comes back exactly, if and only if no cookie that the
      writer cannot replace (another path, or a name with leading blanks) is listed before. When one
      is, no write is ever seen. */
  lemma ReadAfterWrite(jar: Jar, name: string, expires: string, past: string -> bool)
    requires ValidJar(jar) && Token(name) && Ahead(expires, past)
    ensures (forall value :: Read(Written(jar, name, value, expires, past), name) == Value(value))
        <==> !Shadowed(jar, name)
    ensures Shadowed(jar, name) ==>
              forall value :: Read(Written(jar, name, value, expires, past), name) == Read(jar, name)
  {
    forall value
      ensures Read(Written(jar, name, value, expires, past), name)
           == if Shadowed(jar, name) then Read(jar, name) else Value(value)
    {
      WriteStores(jar, name, value, expires, past);
      StoreKeepsValid(jar, name, value);
      ReadsCookieByCookie(Store(jar, name, Encode(value)), name + "=");
      ReadsCookieByCookie(jar, name + "=");
      ReadStored(jar, name, value);
    }
    assert Read(Written(jar, name, "a", expires, past), name)
        == if Shadowed(jar, name) then Read(jar, name) else Value("a");
    assert Read(Written(jar, name, "b", expires, past), name)
        == if Shadowed(jar, name) then Read(jar, name) else Value("b");
    assert "a"[0] != "b"[0];
  }

  /** Such a jar exists: a cookie of the same name under another path comes first, and no write is seen. */
  lemma OtherPathShadows(value: string, expires: string, past: string -> bool)
    requires Ahead(expires, past)
    ensures var jar := [Cookie(COOKIE_TOKEN, "x", false)];
            && ValidJar(jar) && Token(COOKIE_TOKEN) && Shadowed(jar, COOKIE_TOKEN)
            && Read(jar, COOKIE_TOKEN) == Value("x")
            && Read(Written(jar, COOKIE_TOKEN, value, expires, past), COOKIE_TOKEN) == Value("x")
  {
    var c := Cookie(COOKIE_TOKEN, "x", false);
    var jar := [c];
    assert Encode("x") == "x";
    StoredMatches(COOKIE_TOKEN, "x");
    assert Text(c) == Text(Cookie(COOKIE_TOKEN, "x", true));
    assert ReadTexts(jar, COOKIE_TOKEN + "=") == Value("x");
    ReadsCookieByCookie(jar, COOKIE_TOKEN + "=");
    ReadAfterWrite(jar, COOKIE_TOKEN, expires, past);
  }

  lemma {:induction false} TrimEndKeeps(s: string, k: nat)
    requires k < |s| && !Space(s[k])
    ensures |TrimEnd(s, Space)| > k && TrimEnd(s, Space) <= s
    decreases |s|
  {
    if Space(s[|s| - 1]) { TrimEndKeeps(s[..|s| - 1], k); }
  }

  /** A cookie with a token name answers reads of that name and of no other, prefixes included. */
  lemma OnlyItsName(c: Cookie, other: string)
    requires Token(c.name) && Clean(other, '=')
    ensures Matches(c, other + "=") <==> other == c.name
  {
    var t := Text(c);
    TrimEndKeeps(t, |c.name|);
    var trimmed := Trim(t, Space);
    assert trimmed[|c.name|] == '=';
    assert trimmed[..|c.name| + 1] == c.name + "=";
    if other + "=" <= trimmed {
      assert (other + "=")[|other|] == '=';
      assert trimmed[|other|] == '=';
      assert other == trimmed[..|other|];
    }
  }

  lemma {:induction false} StoreKeepsOthers(jar: Jar, name: string, value: string, other: string)
    requires Token(name) && Clean(other, '=') && other != name
    ensures ReadTexts(Store(jar, name, value), other + "=") == ReadTexts(jar, other + "=")
    decreases |jar|
  {
    OnlyItsName(Cookie(name, value, true), other);
    if jar != [] {
      if jar[0].home && jar[0].name == name {
        OnlyItsName(jar[0], other);
      } else {
        StoreKeepsOthers(jar[1..], name, value, other);
      }
    }
  }

  /** Writing one name leaves the reading of every other name unchanged. */
  lemma WriteKeepsOthers(jar: Jar, name: string, value: string, expires: string, past: string -> bool, other: string)
    requires ValidJar(jar) && Token(name) && Ahead(expires, past) && Clean(other, '=') && other != name
    ensures Read(Written(jar, name, value, expires, past), other) == Read(jar, other)
  {
    WriteStores(jar, name, value, expires, past);
    StoreKeepsValid(jar, name, value);
    ReadsCookieByCookie(Store(jar, name, Encode(value)), other + "=");
    ReadsCookieByCookie(jar, other + "=");
    StoreKeepsOthers(jar, name, Encode(value), other);
  }

  /** What a read of `name` finds outside the writer's own cookie. */
  predicate Foreign(jar: Jar, name: string) {
    jar != [] && ((!(jar[0].home && jar[0].name == name) && Matches(jar[0], name + "=")) || Foreign(jar[1..], name))
  }

  lemma {:induction false} RemoveKeepsOthers(jar: Jar, name: string, other: string)
    requires Token(name) && Clean(other, '=') && other != name
    ensures ReadTexts(Remove(jar, name), other + "=") == ReadTexts(jar, other + "=")
    decreases |jar|
  {
    if jar != [] {
      RemoveKeepsOthers(jar[1..], name, other);
      if jar[0].home && jar[0].name == name {
        OnlyItsName(jar[0], other);
        assert Remove(jar, name) == Remove(jar[1..], name);
      } else {
        assert Remove(jar, name)[1..] == Remove(jar[1..], name);
      }
    }
  }

  lemma {:induction false} RemoveForgetsIff(jar: Jar, name: string)
    requires Token(name)
    ensures ReadTexts(Remove(jar, name), name + "=") == Absent <==> !Foreign(jar, name)
    decreases |jar|
  {
    if jar != [] {
      RemoveForgetsIff(jar[1..], name);
      if jar[0].home && jar[0].name == name {
        assert Remove(jar, name) == Remove(jar[1..], name);
      } else {
        assert Remove(jar, name)[1..] == Remove(jar[1..], name);
      }
    }
  }

  lemma {:induction false} RemoveKeepsValid(jar: Jar, name: string)
    requires ValidJar(jar)
    ensures ValidJar(Remove(jar, name))
    decreases |jar|
  {
    if jar != [] { RemoveKeepsValid(jar[1..], name); }
  }

  /** Clearing forgets the value if and only if no cookie it cannot touch answers for it; it keeps the rest. */
  lemma ReadAfterClear(jar: Jar, name: string, past: string -> bool, other: string)
    requires ValidJar(jar) && Token(name) && past(EPOCH) && Clean(other, '=')
    ensures Read(Cleared(jar, name, past), name) == Absent <==> !Foreign(jar, name)
    ensures other != name ==> Read(Cleared(jar, name, past), other) == Read(jar, other)
  {
    ClearRemoves(jar, name, past);
    RemoveKeepsValid(jar, name);
    RemoveForgetsIff(jar, name);
    if other != name { RemoveKeepsOthers(jar, name, other); }
    ReadsCookieByCookie(Remove(jar, name), name + "=");
    ReadsCookieByCookie(Remove(jar, name), other + "=");
    ReadsCookieByCookie(jar, other + "=");
  }

  const COOKIE_TOKEN := "dmtool_token"
  const COOKIE_IMPERSONATION_TOKEN := "dmtool_impersonation_token"

  /** The admin's own token survives the whole life of an impersonation cookie, although its name is
      a prefix-like neighbour: set, then cleared. */
  lemma ImpersonationSparesAdmin(jar: Jar, token: string, expires: string, past: string -> bool)
    requires ValidJar(jar) && Ahead(expires, past) && past(EPOCH)
    ensures var during := Written(jar, COOKIE_IMPERSONATION_TOKEN, token, expires, past);
            && Read(during, COOKIE_TOKEN) == Read(jar, COOKIE_TOKEN)
            && Read(Cleared(during, COOKIE_IMPERSONATION_TOKEN, past), COOKIE_TOKEN) == Read(jar, COOKIE_TOKEN)
  {
    var name := COOKIE_IMPERSONATION_TOKEN;
    WriteKeepsOthers(jar, name, token, expires, past, COOKIE_TOKEN);
    WriteStores(jar, name, token, expires, past);
    StoreKeepsValid(jar, name, token);
    ReadAfterClear(Written(jar, name, token, expires, past), name, past, COOKIE_TOKEN);
  }

  // ---------------------------------------------------------------- what is sent and what is refused

  lemma SplitsOff(a: string, b: string)
    requires Clean(a, ';')
    ensures Split(a + [';'] + b) == [a] + Split(b)
  {
    IndexSkips(a, ';', b);
    assert (a + [';'] + b)[..|a|] == a && (a + [';'] + b)[|a| + 1..] == b;
  }

  /** What the writer sends beside the pair: the path, the same-site policy and the date. */
  lemma OptionsAre(expires: string)
    requires DateText(expires)
    ensures Split(" " + Options(expires)) == [" Path=/", " SameSite=Lax", " Expires=" + expires]
  {
    hide Split;
    var date := " " + (EXPIRES + expires);
    OptionsParts(EXPIRES + expires);
    CleanOptions();
    SplitsOff(" " + PATH, " " + SITE + [';'] + date);
    SplitsOff(" " + SITE, date);
    DateAlone(date);
    assert " " + PATH == " Path=/" && " " + SITE == " SameSite=Lax" && date == " Expires=" + expires;
  }

  lemma DateAlone(date: string)
    requires Clean(date, ';')
    ensures Split(date) == [date]
  {
    IndexNone(date, ';');
  }

  /** Letters, digits and the nine marks of encodeURIComponent are sent as they are, and nothing else. */
  lemma SentAsItIs(c: char)
    ensures Encode([c]) == [c]
        <==> 'A' <= c <= 'Z' || 'a' <= c <= 'z' || '0' <= c <= '9' || c in "-_.!~*'()"
  {
    assert Encode([c]) == EncodeChar(c) + Encode("");
    assert c in "-_.!~*'()" <==> c in ['-', '_', '.', '!', '~', '*', '\'', '(', ')'];
    if !Unreserved(c) {
      assert Utf8(c) != [];
      assert |Percent(Utf8(c)[0])| == 3;
    }
  }

  /** Text without a percent sign decodes to itself; a percent sign that no two hex digits follow makes the
      decoding throw. */
  lemma {:induction false} MalformedThrows(plain: string, rest: string)
    requires Clean(plain, '%')
    ensures Decode(plain) == Some(plain)
    ensures rest != "" && rest[0] == '%' && Triplet(rest).None? ==> Decode(plain + rest).None?
    ensures |rest| < 3 ==> Triplet(rest).None?
    decreases |plain|
  {
    if plain == "" {
      assert plain + rest == rest;
    } else {
      MalformedThrows(plain[1..], rest);
      assert (plain + rest)[1..] == plain[1..] + rest;
      assert [plain[0]] + plain[1..] == plain;
    }
  }

  /** Then the read throws too, when that cookie answers it. */
  lemma UndecodableRead(jar: Jar, name: string, value: string)
    requires ValidJar(jar) && Token(name) && jar != [] && jar[0] == Cookie(name, value, true)
    requires Trim(Text(jar[0]), Space) == Text(jar[0]) && Decode(value).None?
    ensures Read(jar, name) == UriError
  {
    ReadsCookieByCookie(jar, name + "=");
    assert Text(jar[0]) == (name + "=") + value;
    assert Text(jar[0])[|name + "="|..] == value;
  }
}
