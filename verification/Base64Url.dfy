/** The payload decoding of frontend/lib/access-token.ts: base64url text to bytes through `atob`. */
module Base64Url {
  import opened Common

  type Sextet = d: int | 0 <= d < 64

  // ---------------------------------------------------------------- alphabets

  /** Table 2 of RFC 4648: the URL-safe alphabet. */
  function UrlChar(d: Sextet): char {
    if d < 26 then 'A' + d as char
    else if d < 52 then 'a' + (d - 26) as char
    else if d < 62 then '0' + (d - 52) as char
    else if d == 62 then '-' else '_'
  }

  /** Table 1 of RFC 4648, read backwards. */
  function Value(c: char): Option<Sextet> {
    if 'A' <= c <= 'Z' then Some(c as int - 'A' as int)
    else if 'a' <= c <= 'z' then Some(c as int - 'a' as int + 26)
    else if '0' <= c <= '9' then Some(c as int - '0' as int + 52)
    else if c == '+' then Some(62)
    else if c == '/' then Some(63)
    else None
  }

  // ---------------------------------------------------------------- encoder

  /** Unpadded base64url (section 2 of RFC 7515), as sextets. */
  function Sextets(bs: seq<Byte>): seq<Sextet> {
    if |bs| == 0 then []
    else if |bs| == 1 then [bs[0] / 4, bs[0] % 4 * 16]
    else if |bs| == 2 then [bs[0] / 4, bs[0] % 4 * 16 + bs[1] / 16, bs[1] % 16 * 4]
    else [bs[0] / 4, bs[0] % 4 * 16 + bs[1] / 16, bs[1] % 16 * 4 + bs[2] / 64, bs[2] % 64] + Sextets(bs[3..])
  }

  function Spell(ds: seq<Sextet>): string {
    seq(|ds|, i requires 0 <= i < |ds| => UrlChar(ds[i]))
  }

  function EncodeUrl(bs: seq<Byte>): string {
    Spell(Sextets(bs))
  }

  // ---------------------------------------------------------------- decoder

  /** `replace(/-/g, "+").replace(/_/g, "/")`. */
  function ToStandard(s: string): string {
    seq(|s|, i requires 0 <= i < |s| => if s[i] == '-' then '+' else if s[i] == '_' then '/' else s[i])
  }

  function Padding(n: nat): string {
    if n == 0 then "" else "=" + Padding(n - 1)
  }

  function Padded(b64: string): string {
    b64 + Padding((4 - |b64| % 4) % 4)
  }

  predicate AsciiSpace(c: char) {
    c == '\t' || c == '\n' || c == '\r' || c == ' ' || c as int == 12
  }

  function WithoutSpaces(s: string): string {
    if s == "" then "" else (if AsciiSpace(s[0]) then "" else [s[0]]) + WithoutSpaces(s[1..])
  }

  /** Drops one or two trailing `=` from a text whose length is a multiple of four. */
  function WithoutPadding(s: string): string {
    if |s| % 4 != 0 || s == "" || s[|s| - 1] != '=' then s
    else if s[|s| - 2] == '=' then s[..|s| - 2]
    else s[..|s| - 1]
  }

  /** Whole bytes first; of two or three left-over sextets the surplus bits are dropped. */
  function Bytes(ds: seq<Sextet>): seq<Byte>
    requires |ds| % 4 != 1
  {
    if |ds| == 0 then []
    else
      var a: int, b: int := ds[0], ds[1];
      if |ds| == 2 then [a * 4 + b / 16]
      else
        var c: int := ds[2];
        if |ds| == 3 then [a * 4 + b / 16, b % 16 * 16 + c / 4]
        else
          var d: int := ds[3];
          [a * 4 + b / 16, b % 16 * 16 + c / 4, c % 4 * 64 + d] + Bytes(ds[4..])
  }

  function Values(s: string): Option<seq<Sextet>> {
    if s == "" then Some([])
    else if Value(s[0]).Some? && Values(s[1..]).Some? then Some([Value(s[0]).value] + Values(s[1..]).value)
    else None
  }

  lemma {:induction false} ValuesLength(s: string)
    ensures Values(s).Some? ==> |Values(s).value| == |s|
    decreases |s|
  {
    if s != "" { ValuesLength(s[1..]); }
  }

  /** The browser's `atob`: forgiving base64 decode; None is its InvalidCharacterError. */
  function Atob(s: string): Option<seq<Byte>> {
    var t := WithoutPadding(WithoutSpaces(s));
    ValuesLength(t);
    if |t| % 4 == 1 || Values(t).None? then None else Some(Bytes(Values(t).value))
  }

  function SplitDots(s: string): seq<string>
    decreases |s|
  {
    var i := IndexOfDot(s);
    if i == |s| then [s] else [s[..i]] + SplitDots(s[i + 1..])
  }

  function IndexOfDot(s: string): nat
    ensures IndexOfDot(s) <= |s|
  {
    if s == "" || s[0] == '.' then 0 else 1 + IndexOfDot(s[1..])
  }

  /** `accessTokenExpiresAtMs`, given how the payload's bytes parse: the numeric `exp` of the JSON
      text, or None when it has none or does not parse. */
  function ExpiresAtMs(token: string, parseExp: seq<Byte> -> Option<int>): Option<int> {
    var parts := SplitDots(token);
    if |parts| != 3 then None
    else match Atob(Padded(ToStandard(parts[1])))
      case None => None
      case Some(json) => match parseExp(json) case None => None case Some(exp) => Some(exp * 1000)
  }

  // ---------------------------------------------------------------- round trip

  lemma {:induction false} BytesRoundTrip(bs: seq<Byte>)
    ensures |Sextets(bs)| % 4 != 1 && Bytes(Sextets(bs)) == bs
    decreases |bs|
  {
    if |bs| >= 3 {
      BytesRoundTrip(bs[3..]);
      var ds := Sextets(bs);
      assert ds[4..] == Sextets(bs[3..]);
      assert bs == [bs[0], bs[1], bs[2]] + bs[3..];
    }
  }

  lemma StandardValue(d: Sextet)
    ensures var c := UrlChar(d);
            Value(if c == '-' then '+' else if c == '_' then '/' else c) == Some(d)
  {
  }

  lemma {:induction false} ValuesRoundTrip(ds: seq<Sextet>)
    ensures Values(ToStandard(Spell(ds))) == Some(ds)
    decreases |ds|
  {
    if ds != [] {
      StandardValue(ds[0]);
      ValuesRoundTrip(ds[1..]);
      assert ToStandard(Spell(ds))[1..] == ToStandard(Spell(ds[1..]));
      assert [ds[0]] + ds[1..] == ds;
    }
  }

  /** A text over the alphabet passes `atob`'s two clean-ups unchanged. */
  lemma {:induction false} SpacesIdle(s: string, pad: string)
    requires Values(s).Some? && forall i | 0 <= i < |pad| :: pad[i] == '='
    ensures WithoutSpaces(s + pad) == s + pad
    decreases |s| + |pad|
  {
    if s != "" {
      assert (s + pad)[1..] == s[1..] + pad;
      SpacesIdle(s[1..], pad);
    } else if pad != "" {
      assert s + pad == pad;
      SpacesIdle("", pad[1..]);
      assert "" + pad[1..] == pad[1..];
    }
  }

  lemma {:induction false} LastHasValue(s: string)
    requires Values(s).Some? && s != ""
    ensures s[|s| - 1] != '='
    decreases |s|
  {
    if |s| > 1 { LastHasValue(s[1..]); }
  }

  lemma {:induction false} PaddingIsEquals(n: nat)
    ensures |Padding(n)| == n && forall i | 0 <= i < n :: Padding(n)[i] == '='
  {
    if n > 0 { PaddingIsEquals(n - 1); }
  }

  lemma FillsToFour(len: nat)
    ensures (len + (4 - len % 4) % 4) % 4 == 0 && (4 - len % 4) % 4 <= 3
    ensures len % 4 != 1 ==> (4 - len % 4) % 4 <= 2
  {
  }

  lemma PaddingComesOff(s: string, pad: string)
    requires s == "" || s[|s| - 1] != '='
    requires |pad| <= 2 && (forall i | 0 <= i < |pad| :: pad[i] == '=') && (|s| + |pad|) % 4 == 0
    ensures WithoutPadding(s + pad) == s
  {
    var t := s + pad;
    assert t[..|s|] == s;
    if |pad| == 2 {
      assert t[|t| - 1] == pad[1] && t[|t| - 2] == pad[0];
    } else if |pad| == 1 {
      assert t[|t| - 1] == pad[0];
    }
  }

  /** Replacing `-` and `_`, padding to a multiple of four and `atob` invert unpadded base64url on
      every byte string. */
  lemma DecodeRoundTrip(bs: seq<Byte>)
    ensures Atob(Padded(ToStandard(EncodeUrl(bs)))) == Some(bs)
  {
    var s := ToStandard(EncodeUrl(bs));
    BytesRoundTrip(bs);
    ValuesRoundTrip(Sextets(bs));
    AtobOfPadded(s, Sextets(bs));
  }

  lemma AtobOfPadded(s: string, ds: seq<Sextet>)
    requires Values(s) == Some(ds) && |ds| % 4 != 1
    ensures Atob(Padded(s)) == Some(Bytes(ds))
  {
    hide Values, Bytes, Padding, WithoutSpaces, WithoutPadding;
    ValuesLength(s);
    var pad := Padding((4 - |s| % 4) % 4);
    FillsToFour(|s|);
    PaddingIsEquals((4 - |s| % 4) % 4);
    SpacesIdle(s, pad);
    if s != "" { LastHasValue(s); }
    PaddingComesOff(s, pad);
  }

  predicate NoDot(s: string) {
    forall i | 0 <= i < |s| :: s[i] != '.'
  }

  lemma {:induction false} DotAfter(a: string, b: string)
    requires NoDot(a)
    ensures IndexOfDot(a + "." + b) == |a| && IndexOfDot(a) == |a|
    decreases |a|
  {
    if a != "" {
      assert (a + "." + b)[1..] == a[1..] + "." + b;
      DotAfter(a[1..], b);
    }
  }

  lemma SplitAtDot(a: string, b: string)
    requires NoDot(a)
    ensures SplitDots(a + "." + b) == [a] + SplitDots(b) && SplitDots(a) == [a]
  {
    DotAfter(a, b);
    assert (a + "." + b)[..|a|] == a && (a + "." + b)[|a| + 1..] == b;
  }

  /** A token in compact serialization (section 3.1 of RFC 7515): its expiry is the `exp` that the
      issuer's payload bytes hold, whatever header and signature it carries. */
  lemma ExpiryRoundTrip(header: string, payload: seq<Byte>, signature: string, parseExp: seq<Byte> -> Option<int>)
    requires NoDot(header) && NoDot(signature)
    ensures var token := header + "." + (EncodeUrl(payload) + "." + signature);
            ExpiresAtMs(token, parseExp)
            == match parseExp(payload) case None => None case Some(exp) => Some(exp * 1000)
  {
    assert NoDot(EncodeUrl(payload));
    SplitAtDot(header, EncodeUrl(payload) + "." + signature);
    SplitAtDot(EncodeUrl(payload), signature);
    SplitAtDot(signature, "");
    DecodeRoundTrip(payload);
  }

  /** Anything but three parts has no expiry. */
  lemma ThreePartsOnly(token: string, parseExp: seq<Byte> -> Option<int>)
    requires ExpiresAtMs(token, parseExp).Some?
    ensures exists a, b, c :: NoDot(a) && NoDot(b) && NoDot(c) && token == a + "." + (b + "." + c)
  {
    SplitParts(token);
    var p := SplitDots(token);
    assert JoinDots(p) == p[0] + "." + JoinDots(p[1..]) && JoinDots(p[1..]) == p[1] + "." + p[2];
    assert token == p[0] + "." + (p[1] + "." + p[2]);
  }

  function JoinDots(parts: seq<string>): string
    requires parts != []
  {
    if |parts| == 1 then parts[0] else parts[0] + "." + JoinDots(parts[1..])
  }

  lemma {:induction false} SplitParts(s: string)
    ensures SplitDots(s) != [] && JoinDots(SplitDots(s)) == s
    ensures forall i | 0 <= i < |SplitDots(s)| :: NoDot(SplitDots(s)[i])
    decreases |s|
  {
    var i := IndexOfDot(s);
    DotFound(s);
    if i < |s| {
      var rest := SplitDots(s[i + 1..]);
      SplitParts(s[i + 1..]);
      assert s == s[..i] + "." + s[i + 1..];
      assert SplitDots(s) == [s[..i]] + rest && ([s[..i]] + rest)[1..] == rest;
    }
  }

  lemma {:induction false} DotFound(s: string)
    ensures NoDot(s[..IndexOfDot(s)]) && (IndexOfDot(s) < |s| ==> s[IndexOfDot(s)] == '.')
    decreases |s|
  {
    if s != "" && s[0] != '.' {
      DotFound(s[1..]);
      assert s[..IndexOfDot(s)][1..] == s[1..][..IndexOfDot(s[1..])];
    }
  }

  // ---------------------------------------------------------------- payloads without an expiry

  /** Letters, digits and the marks of both alphabets. */
  predicate Alphabetic(c: char) {
    'A' <= c <= 'Z' || 'a' <= c <= 'z' || '0' <= c <= '9' || c in "+/-_"
  }

  lemma {:induction false} ValuesIff(s: string)
    ensures Values(s).Some? <==> forall i | 0 <= i < |s| :: Value(s[i]).Some?
    decreases |s|
  {
    if s != "" {
      ValuesIff(s[1..]);
      forall i | 1 <= i < |s| ensures s[i] == s[1..][i - 1] {}
    }
  }

  lemma {:induction false} NoSpacesIdle(s: string)
    requires forall i | 0 <= i < |s| :: !AsciiSpace(s[i])
    ensures WithoutSpaces(s) == s
    decreases |s|
  {
    if s != "" { NoSpacesIdle(s[1..]); }
  }

  lemma PaddedEnds(s: string)
    requires s == "" || s[|s| - 1] != '='
    ensures |s| % 4 != 1 ==> WithoutPadding(Padded(s)) == s
    ensures |s| % 4 == 1 ==> WithoutPadding(Padded(s)) == s + "="
  {
    var n := (4 - |s| % 4) % 4;
    FillsToFour(|s|);
    PaddingIsEquals(n);
    if |s| % 4 != 1 {
      PaddingComesOff(s, Padding(n));
    } else {
      assert n == 3 && Padding(3) == "===";
      assert Padded(s)[..|Padded(s)| - 2] == s + "=";
    }
  }

  lemma StandardIff(c: char)
    ensures Value(if c == '-' then '+' else if c == '_' then '/' else c).Some? <==> Alphabetic(c)
  {
    assert c in "+/-_" <==> c in ['+', '/', '-', '_'];
  }

  lemma EqualsBreaks(t: string)
    ensures Values(t + "=").None?
  {
    ValuesIff(t + "=");
    assert (t + "=")[|t|] == '=';
  }

  /** On a payload without spaces and paddings: it decodes if and only if it consists of letters, digits and the
      marks of the alphabets and its length is not one more than a multiple of four. */
  lemma PayloadDecodesIff(s: string)
    requires forall i | 0 <= i < |s| :: !AsciiSpace(s[i]) && s[i] != '='
    ensures Atob(Padded(ToStandard(s))).Some?
        <==> |s| % 4 != 1 && forall i | 0 <= i < |s| :: Alphabetic(s[i])
  {
    hide Bytes, Value, Values, Alphabetic, WithoutSpaces, WithoutPadding, Padding;
    var t := ToStandard(s);
    PaddingIsEquals((4 - |t| % 4) % 4);
    NoSpacesIdle(Padded(t));
    PaddedEnds(t);
    ValuesIff(t);
    EqualsBreaks(t);
    forall i | 0 <= i < |s| ensures Value(t[i]).Some? <==> Alphabetic(s[i]) {
      StandardIff(s[i]);
    }
    ValuesLength(t);
  }
}
