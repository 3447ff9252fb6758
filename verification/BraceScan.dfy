/** The two brace scanners of frontend/_tools/nav_mode_counts/main.go and the loop that cuts
    navigation groups with them.

    The text is described by a grammar tree whose rendering is what the scanners read; a closing
    brace is the partner of an opening one when one `Braces` node renders both. */
module BraceScan {
  import opened Common

  predicate IsQuote(c: char) {
    c == '"' || c == '\'' || c == '`'
  }

  // ---------------------------------------------------------------- grammar

  /** Plain characters, closed string literals and nested braces. */
  datatype Text =
    | End
    | Plain(c: char, rest: Text)
    | Literal(quote: char, body: string, rest: Text)
    | Braces(inner: Text, rest: Text)

  function Render(t: Text): string {
    match t
    case End => ""
    case Plain(c, rest) => [c] + Render(rest)
    case Literal(q, body, rest) => [q] + body + [q] + Render(rest)
    case Braces(inner, rest) => "{" + Render(inner) + "}" + Render(rest)
  }

  /** A literal's body ends where its quote is not escaped: no bare quote, no dangling backslash. */
  predicate Escaped(q: char, body: string) {
    if body == "" then true
    else if body[0] == '\\' then |body| >= 2 && Escaped(q, body[2..])
    else body[0] != q && Escaped(q, body[1..])
  }

  predicate WellFormed(t: Text) {
    match t
    case End => true
    case Plain(c, rest) => !IsQuote(c) && c != '{' && c != '}' && WellFormed(rest)
    case Literal(q, body, rest) => IsQuote(q) && Escaped(q, body) && WellFormed(rest)
    case Braces(inner, rest) => WellFormed(inner) && WellFormed(rest)
  }

  /** A backward scan that was read through: it stopped at an opening brace, or goes on in this state. */
  datatype Scan = Stopped | At(depth: nat, inString: Option<char>)

  /** The state in which the backward scan leaves `body[..i]`, when it enters it from the right. */
  function ScanBack(body: string, i: nat, depth: nat, inString: Option<char>): Scan
    requires i <= |body|
    decreases i
  {
    if i == 0 then At(depth, inString)
    else match inString
      case Some(q) => ScanBack(body, i - 1, depth, if body[i - 1] == q then None else inString)
      case None =>
        if IsQuote(body[i - 1]) then ScanBack(body, i - 1, depth, Some(body[i - 1]))
        else if body[i - 1] == '}' then ScanBack(body, i - 1, depth + 1, None)
        else if body[i - 1] == '{' then
          (if depth == 0 then Stopped else ScanBack(body, i - 1, depth - 1, None))
        else ScanBack(body, i - 1, depth, None)
  }

  /** The backward scan, which knows no escapes, comes through the literal as it went in. */
  predicate Neutral(q: char, body: string) {
    ScanBack(body, |body|, 0, Some(q)) == At(0, Some(q))
  }

  predicate AllNeutral(t: Text) {
    match t
    case End => true
    case Plain(_, rest) => AllNeutral(rest)
    case Literal(q, body, rest) => Neutral(q, body) && AllNeutral(rest)
    case Braces(inner, rest) => AllNeutral(inner) && AllNeutral(rest)
  }

  /** No literal contains its own quote, so none is escaped either. */
  predicate QuoteFree(t: Text) {
    match t
    case End => true
    case Plain(_, rest) => QuoteFree(rest)
    case Literal(q, body, rest) => q !in body && QuoteFree(rest)
    case Braces(inner, rest) => QuoteFree(inner) && QuoteFree(rest)
  }

  function Len(t: Text): nat {
    match t
    case End => 0
    case Plain(_, rest) => 1 + Len(rest)
    case Literal(_, body, rest) => |body| + 2 + Len(rest)
    case Braces(inner, rest) => Len(inner) + 2 + Len(rest)
  }

  /** `o` and `c` are the two braces of one `Braces` node of `t`, whose rendering starts at `at`. */
  predicate Partners(t: Text, at: nat, o: nat, c: nat) {
    match t
    case End => false
    case Plain(_, rest) => Partners(rest, at + 1, o, c)
    case Literal(_, body, rest) => Partners(rest, at + |body| + 2, o, c)
    case Braces(inner, rest) =>
      var close := at + 1 + Len(inner);
      (o == at && c == close) || Partners(inner, at + 1, o, c) || Partners(rest, close + 1, o, c)
  }

  /** `s` holds the characters of `t` from position `at` on, node by node. */
  predicate Holds(s: string, at: nat, t: Text)
    decreases t
  {
    match t
    case End => at <= |s|
    case Plain(c, rest) => at < |s| && s[at] == c && Holds(s, at + 1, rest)
    case Literal(q, body, rest) =>
      var close := at + 1 + |body|;
      close < |s| && s[at] == q && s[at + 1..close] == body && s[close] == q && Holds(s, close + 1, rest)
    case Braces(inner, rest) =>
      var close := at + 1 + Len(inner);
      && close < |s| && s[at] == '{' && Holds(s, at + 1, inner)
      && s[close] == '}' && Holds(s, close + 1, rest)
  }

  lemma {:induction false} LenIsRendered(t: Text)
    ensures Len(t) == |Render(t)|
  {
    match t
    case End =>
    case Plain(_, rest) => LenIsRendered(rest);
    case Literal(_, _, rest) => LenIsRendered(rest);
    case Braces(inner, rest) => LenIsRendered(inner); LenIsRendered(rest);
  }

  lemma {:induction false} RenderHolds(pre: string, t: Text, post: string)
    ensures Holds(pre + Render(t) + post, |pre|, t)
    decreases t
  {
    match t
    case End =>
    case Plain(c, rest) =>
      assert pre + Render(t) + post == (pre + [c]) + Render(rest) + post;
      RenderHolds(pre + [c], rest, post);
    case Literal(q, body, rest) => LiteralHolds(pre, q, body, rest, post);
    case Braces(inner, rest) => BracesHold(pre, inner, rest, post);
  }

  lemma LiteralHolds(pre: string, q: char, body: string, rest: Text, post: string)
    ensures Holds(pre + Render(Literal(q, body, rest)) + post, |pre|, Literal(q, body, rest))
    decreases Literal(q, body, rest), 0
  {
    var s := pre + Render(Literal(q, body, rest)) + post;
    var head := pre + [q] + body + [q];
    assert s == head + (Render(rest) + post);
    assert s[|pre| + 1..|pre| + 1 + |body|] == body;
    assert s == head + Render(rest) + post;
    RenderHolds(head, rest, post);
  }

  lemma BracesHold(pre: string, inner: Text, rest: Text, post: string)
    ensures Holds(pre + Render(Braces(inner, rest)) + post, |pre|, Braces(inner, rest))
    decreases Braces(inner, rest), 0
  {
    var s := pre + Render(Braces(inner, rest)) + post;
    var head := pre + "{" + Render(inner) + "}";
    var tail := "}" + Render(rest) + post;
    assert s == head + Render(rest) + post;
    assert s == (pre + "{") + Render(inner) + tail;
    LenIsRendered(inner);
    assert s[|pre|] == '{' && s[|pre| + 1 + |Render(inner)|] == '}';
    RenderHolds(pre + "{", inner, tail);
    RenderHolds(head, rest, post);
  }

  // ---------------------------------------------------------------- matchBrace

  /** Where the forward scan stops from position `i`, with `depth` braces open and the literal
      `inString` (if any) unfinished. */
  function MatchFrom(s: string, i: nat, depth: int, inString: Option<char>): int
    requires i <= |s|
    decreases |s| - i
  {
    if i == |s| then -1
    else match inString
      case Some(q) =>
        if s[i] == '\\' && i + 1 < |s| then MatchFrom(s, i + 2, depth, inString)
        else MatchFrom(s, i + 1, depth, if s[i] == q then None else inString)
      case None =>
        if IsQuote(s[i]) then MatchFrom(s, i + 1, depth, Some(s[i]))
        else if s[i] == '{' then MatchFrom(s, i + 1, depth + 1, None)
        else if s[i] == '}' then (if depth == 1 then i else MatchFrom(s, i + 1, depth - 1, None))
        else MatchFrom(s, i + 1, depth, None)
  }

  method MatchBrace(body: string, openIdx: nat) returns (close: int)
    requires openIdx <= |body|
    ensures close == MatchFrom(body, openIdx, 0, None)
  {
    var depth := 0;
    var inString: Option<char> := None;
    var i := openIdx;
    while i < |body|
      invariant openIdx <= i <= |body|
      invariant MatchFrom(body, i, depth, inString) == MatchFrom(body, openIdx, 0, None)
    {
      var c := body[i];
      if inString.Some? {
        if c == '\\' && i + 1 < |body| {
          i := i + 2;
          continue;
        }
        if c == inString.value {
          inString := None;
        }
      } else if IsQuote(c) {
        inString := Some(c);
      } else if c == '{' {
        depth := depth + 1;
      } else if c == '}' {
        depth := depth - 1;
        if depth == 0 {
          return i;
        }
      }
      i := i + 1;
    }
    close := -1;
  }

  // ---------------------------------------------------------------- findOpenBraceBefore

  /** Where the backward scan of `s[lo..]` stops, as a position of `s`, when the positions from
      `lo` up to `i` are still to be read. */
  function OpenBefore(s: string, lo: nat, i: nat, depth: nat, inString: Option<char>): int
    requires lo <= i <= |s|
    decreases i
  {
    if i == lo then -1
    else match inString
      case Some(q) => OpenBefore(s, lo, i - 1, depth, if s[i - 1] == q then None else inString)
      case None =>
        if IsQuote(s[i - 1]) then OpenBefore(s, lo, i - 1, depth, Some(s[i - 1]))
        else if s[i - 1] == '}' then OpenBefore(s, lo, i - 1, depth + 1, None)
        else if s[i - 1] == '{' then
          (if depth == 0 then i - 1 else OpenBefore(s, lo, i - 1, depth - 1, None))
        else OpenBefore(s, lo, i - 1, depth, None)
  }

  method FindOpenBraceBefore(body: string, to: nat) returns (open: int)
    requires to <= |body|
    ensures open == OpenBefore(body, 0, to, 0, None)
  {
    var depth: nat := 0;
    var inString: Option<char> := None;
    var i := to - 1;
    while i >= 0
      invariant -1 <= i < to
      invariant OpenBefore(body, 0, i + 1, depth, inString) == OpenBefore(body, 0, to, 0, None)
    {
      var c := body[i];
      if inString.Some? {
        if c == inString.value {
          inString := None;
        }
      } else if IsQuote(c) {
        inString := Some(c);
      } else if c == '}' {
        depth := depth + 1;
      } else if c == '{' {
        if depth == 0 {
          return i;
        }
        depth := depth - 1;
      }
      i := i - 1;
    }
    open := -1;
  }

  // ---------------------------------------------------------------- forward scan

  lemma {:induction false} MatchSkipsBody(s: string, i: nat, q: char, body: string, depth: int)
    requires i + |body| < |s| && s[i..i + |body|] == body && s[i + |body|] == q && Escaped(q, body) && q != '\\'
    ensures MatchFrom(s, i, depth, Some(q)) == MatchFrom(s, i + |body| + 1, depth, None)
    decreases |body|
  {
    if body != "" {
      assert s[i] == body[0];
      var k := if body[0] == '\\' then 2 else 1;
      assert s[i + k..i + |body|] == body[k..];
      MatchSkipsBody(s, i + k, q, body[k..], depth);
    }
  }

  lemma MatchEntersGroup(s: string, at: nat, n: nat, depth: int)
    requires at + 1 + n < |s| && s[at] == '{' && s[at + 1 + n] == '}' && depth >= 1
    requires MatchFrom(s, at + 1, depth + 1, None) == MatchFrom(s, at + 1 + n, depth + 1, None)
    ensures MatchFrom(s, at, depth, None) == MatchFrom(s, at + n + 2, depth, None)
  {
  }

  lemma MatchEntersLiteral(s: string, at: nat, q: char, body: string, depth: int)
    requires at + 1 + |body| < |s| && s[at] == q && s[at + 1..at + 1 + |body|] == body && s[at + 1 + |body|] == q
    requires IsQuote(q) && Escaped(q, body)
    ensures MatchFrom(s, at, depth, None) == MatchFrom(s, at + |body| + 2, depth, None)
  {
    MatchSkipsBody(s, at + 1, q, body, depth);
  }

  /** Inside at least one open brace, the forward scan passes over any well-formed text. */
  lemma {:induction false} MatchSkips(s: string, at: nat, t: Text, depth: int)
    requires WellFormed(t) && Holds(s, at, t) && depth >= 1
    ensures at + Len(t) <= |s| && MatchFrom(s, at, depth, None) == MatchFrom(s, at + Len(t), depth, None)
    decreases t
  {
    match t
    case End =>
    case Plain(c, rest) => MatchSkips(s, at + 1, rest, depth);
    case Literal(q, body, rest) =>
      MatchEntersLiteral(s, at, q, body, depth);
      MatchSkips(s, at + |body| + 2, rest, depth);
    case Braces(inner, rest) =>
      MatchSkips(s, at + 1, inner, depth + 1);
      MatchEntersGroup(s, at, Len(inner), depth);
      MatchSkips(s, at + Len(inner) + 2, rest, depth);
  }

  /** From any opening brace of the grammar the forward scan returns its partner. Escapes in
      literals are allowed. */
  lemma {:induction false} MatchFindsPartner(s: string, at: nat, t: Text, o: nat, c: nat)
    requires WellFormed(t) && Holds(s, at, t) && Partners(t, at, o, c)
    ensures o < c < |s| && s[o] == '{' && s[c] == '}' && MatchFrom(s, o, 0, None) == c
    decreases t
  {
    match t
    case Plain(_, rest) => MatchFindsPartner(s, at + 1, rest, o, c);
    case Literal(_, body, rest) => MatchFindsPartner(s, at + |body| + 2, rest, o, c);
    case Braces(inner, rest) =>
      if Partners(inner, at + 1, o, c) {
        MatchFindsPartner(s, at + 1, inner, o, c);
      } else if Partners(rest, at + Len(inner) + 2, o, c) {
        MatchFindsPartner(s, at + Len(inner) + 2, rest, o, c);
      } else {
        MatchSkips(s, at + 1, inner, 1);
      }
  }

  // ---------------------------------------------------------------- backward scan

  /** The scan of a whole text runs through any part of it in the same way. */
  lemma {:induction false} BackThrough(s: string, lo: nat, at: nat, body: string, i: nat, depth: nat,
                                       inString: Option<char>)
    requires lo <= at && at + |body| <= |s| && s[at..at + |body|] == body && i <= |body|
    ensures match ScanBack(body, i, depth, inString)
            case At(d, q) => OpenBefore(s, lo, at + i, depth, inString) == OpenBefore(s, lo, at, d, q)
            case Stopped => at <= OpenBefore(s, lo, at + i, depth, inString) < at + i
    decreases i
  {
    if i > 0 {
      var c := body[i - 1];
      assert s[at + i - 1] == c;
      match inString {
        case Some(q) => BackThrough(s, lo, at, body, i - 1, depth, if c == q then None else inString);
        case None =>
          if IsQuote(c) {
            BackThrough(s, lo, at, body, i - 1, depth, Some(c));
          } else if c == '}' {
            BackThrough(s, lo, at, body, i - 1, depth + 1, None);
          } else if c != '{' {
            BackThrough(s, lo, at, body, i - 1, depth, None);
          } else if depth > 0 {
            BackThrough(s, lo, at, body, i - 1, depth - 1, None);
          }
      }
    }
  }

  /** Braces open on the right of a part stay open behind it. */
  lemma {:induction false} ScanDeeper(body: string, i: nat, depth: nat, inString: Option<char>, more: nat)
    requires i <= |body| && ScanBack(body, i, depth, inString).At?
    ensures var r := ScanBack(body, i, depth, inString);
            ScanBack(body, i, depth + more, inString) == At(r.depth + more, r.inString)
    decreases i
  {
    if i > 0 {
      var c := body[i - 1];
      match inString {
        case Some(q) => ScanDeeper(body, i - 1, depth, if c == q then None else inString, more);
        case None =>
          if IsQuote(c) {
            ScanDeeper(body, i - 1, depth, Some(c), more);
          } else {
            ScanDeeper(body, i - 1, if c == '}' then depth + 1 else if c == '{' then depth - 1 else depth, None, more);
          }
      }
    }
  }

  lemma BackSkipsBody(s: string, lo: nat, i: nat, q: char, body: string, depth: nat)
    requires lo <= i && i + |body| <= |s| && s[i..i + |body|] == body && Neutral(q, body)
    ensures OpenBefore(s, lo, i + |body|, depth, Some(q)) == OpenBefore(s, lo, i, depth, Some(q))
  {
    ScanDeeper(body, |body|, 0, Some(q), depth);
    BackThrough(s, lo, i, body, |body|, depth, Some(q));
  }

  /** A literal without its own quote is neutral. */
  lemma {:induction false} QuoteFreeBody(q: char, body: string, i: nat)
    requires q !in body && i <= |body|
    ensures ScanBack(body, i, 0, Some(q)) == At(0, Some(q))
    decreases i
  {
    if i > 0 {
      assert body[i - 1] in body;
      QuoteFreeBody(q, body, i - 1);
    }
  }

  lemma {:induction false} QuoteFreeIsNeutral(t: Text)
    requires QuoteFree(t)
    ensures AllNeutral(t)
    decreases t
  {
    match t
    case End =>
    case Plain(_, rest) => QuoteFreeIsNeutral(rest);
    case Literal(q, body, rest) =>
      QuoteFreeBody(q, body, |body|);
      QuoteFreeIsNeutral(rest);
    case Braces(inner, rest) =>
      QuoteFreeIsNeutral(inner);
      QuoteFreeIsNeutral(rest);
  }

  lemma BackEntersLiteral(s: string, lo: nat, at: nat, q: char, body: string, depth: nat)
    requires at + 1 + |body| < |s| && s[at] == q && s[at + 1..at + 1 + |body|] == body && s[at + 1 + |body|] == q
    requires lo <= at && IsQuote(q) && Neutral(q, body)
    ensures OpenBefore(s, lo, at + |body| + 2, depth, None) == OpenBefore(s, lo, at, depth, None)
  {
    BackSkipsBody(s, lo, at + 1, q, body, depth);
  }

  lemma BackEntersGroup(s: string, lo: nat, at: nat, n: nat, depth: nat)
    requires at + 1 + n < |s| && s[at] == '{' && s[at + 1 + n] == '}' && lo <= at
    requires OpenBefore(s, lo, at + 1 + n, depth + 1, None) == OpenBefore(s, lo, at + 1, depth + 1, None)
    ensures OpenBefore(s, lo, at + n + 2, depth, None) == OpenBefore(s, lo, at, depth, None)
  {
  }

  lemma {:induction false} HoldsFits(s: string, at: nat, t: Text)
    requires Holds(s, at, t)
    ensures at + Len(t) <= |s|
    decreases t
  {
    match t
    case End =>
    case Plain(_, rest) => HoldsFits(s, at + 1, rest);
    case Literal(_, body, rest) => HoldsFits(s, at + |body| + 2, rest);
    case Braces(inner, rest) => HoldsFits(s, at + Len(inner) + 2, rest);
  }

  lemma BackPassesPlain(s: string, lo: nat, at: nat, depth: nat)
    requires lo <= at < |s| && !IsQuote(s[at]) && s[at] != '{' && s[at] != '}'
    ensures OpenBefore(s, lo, at + 1, depth, None) == OpenBefore(s, lo, at, depth, None)
  {
  }

  /** A well-formed text at `at` whose literals are all neutral. */
  predicate Clean(s: string, at: nat, t: Text) {
    WellFormed(t) && AllNeutral(t) && Holds(s, at, t)
  }

  lemma CleanParts(s: string, at: nat, t: Text)
    requires Clean(s, at, t)
    ensures at + Len(t) <= |s|
    ensures match t
            case End => Len(t) == 0
            case Plain(c, rest) =>
              && at < |s| && !IsQuote(s[at]) && s[at] != '{' && s[at] != '}'
              && Clean(s, at + 1, rest) && Len(t) == 1 + Len(rest)
            case Literal(q, body, rest) =>
              && at + 1 + |body| < |s| && s[at] == q && s[at + 1..at + 1 + |body|] == body && s[at + 1 + |body|] == q
              && IsQuote(q) && Neutral(q, body) && Clean(s, at + |body| + 2, rest) && Len(t) == |body| + 2 + Len(rest)
            case Braces(inner, rest) =>
              && at + 1 + Len(inner) < |s| && s[at] == '{' && s[at + 1 + Len(inner)] == '}'
              && Clean(s, at + 1, inner) && Clean(s, at + Len(inner) + 2, rest)
              && Len(t) == Len(inner) + 2 + Len(rest)
  {
    HoldsFits(s, at, t);
  }

  /** The backward scan passes over any well-formed text whose literals are neutral. */
  lemma {:induction false} BackSkips(s: string, lo: nat, at: nat, t: Text, depth: nat)
    requires Clean(s, at, t) && lo <= at
    ensures at + Len(t) <= |s|
    ensures OpenBefore(s, lo, at + Len(t), depth, None) == OpenBefore(s, lo, at, depth, None)
    decreases t
  {
    hide OpenBefore, Clean, Len;
    CleanParts(s, at, t);
    match t
    case End =>
    case Plain(_, rest) =>
      BackSkips(s, lo, at + 1, rest, depth);
      BackPassesPlain(s, lo, at, depth);
    case Literal(q, body, rest) =>
      BackSkips(s, lo, at + |body| + 2, rest, depth);
      BackEntersLiteral(s, lo, at, q, body, depth);
    case Braces(inner, rest) =>
      BackSkips(s, lo, at + Len(inner) + 2, rest, depth);
      BackSkips(s, lo, at + 1, inner, depth + 1);
      BackEntersGroup(s, lo, at, Len(inner), depth);
  }

  /** `p` lies between two characters of the text, not between two of one literal. */
  predicate Outside(t: Text, at: nat, p: nat) {
    match t
    case End => true
    case Plain(_, rest) => Outside(rest, at + 1, p)
    case Literal(_, body, rest) => !(at < p < at + |body| + 2) && Outside(rest, at + |body| + 2, p)
    case Braces(inner, rest) => Outside(inner, at + 1, p) && Outside(rest, at + Len(inner) + 2, p)
  }

  lemma BackStartsAtLo(s: string, lo: nat, depth: nat)
    requires lo <= |s|
    ensures OpenBefore(s, lo, lo, depth, None) == -1
  {
  }

  /** A scan that starts at the end of a text and is cut off inside it finds nothing: closing
      braces left over from the cut can only raise the depth. */
  lemma {:induction false} BackCutOff(s: string, lo: nat, at: nat, t: Text, depth: nat)
    requires Clean(s, at, t)
    requires at <= lo <= at + Len(t) && Outside(t, at, lo)
    ensures at + Len(t) <= |s| && OpenBefore(s, lo, at + Len(t), depth, None) == -1
    decreases t, 0
  {
    hide OpenBefore, Clean, Len;
    CleanParts(s, at, t);
    if lo == at {
      BackSkips(s, lo, at, t, depth);
      BackStartsAtLo(s, lo, depth);
    } else {
      match t
      case End =>
      case Plain(_, rest) => BackCutOff(s, lo, at + 1, rest, depth);
      case Literal(_, body, rest) => BackCutOff(s, lo, at + |body| + 2, rest, depth);
      case Braces(inner, rest) =>
        if lo >= at + Len(inner) + 2 {
          BackCutOff(s, lo, at + Len(inner) + 2, rest, depth);
        } else {
          BackCutInGroup(s, lo, at, inner, rest, depth);
        }
    }
  }

  lemma BackRaises(s: string, lo: nat, at: nat, depth: nat)
    requires lo <= at < |s| && s[at] == '}'
    ensures OpenBefore(s, lo, at + 1, depth, None) == OpenBefore(s, lo, at, depth + 1, None)
  {
  }

  lemma BackCutInGroup(s: string, lo: nat, at: nat, inner: Text, rest: Text, depth: nat)
    requires Clean(s, at + 1, inner)
    requires Clean(s, at + Len(inner) + 2, rest)
    requires at + 1 <= lo <= at + 1 + Len(inner) && Outside(inner, at + 1, lo)
    requires at + 1 + Len(inner) < |s| && s[at + 1 + Len(inner)] == '}'
    ensures at + Len(inner) + 2 + Len(rest) <= |s|
    ensures OpenBefore(s, lo, at + Len(inner) + 2 + Len(rest), depth, None) == -1
    decreases inner, 1
  {
    hide OpenBefore, Clean, Len;
    BackSkips(s, lo, at + Len(inner) + 2, rest, depth);
    BackRaises(s, lo, at + 1 + Len(inner), depth);
    BackCutOff(s, lo, at + 1, inner, depth + 1);
  }

  // ---------------------------------------------------------------- innermost group

  /** The opening brace, at or after `lo`, of the smallest group around position `to`. */
  function Innermost(t: Text, at: nat, lo: nat, to: nat): Option<nat> {
    match t
    case End => None
    case Plain(_, rest) => Innermost(rest, at + 1, lo, to)
    case Literal(_, body, rest) => Innermost(rest, at + |body| + 2, lo, to)
    case Braces(inner, rest) =>
      var close := at + 1 + Len(inner);
      if to > close then Innermost(rest, close + 1, lo, to)
      else if to <= at then None
      else if Innermost(inner, at + 1, lo, to).Some? then Innermost(inner, at + 1, lo, to)
      else if lo <= at then Some(at)
      else None
  }

  predicate Encloses(t: Text, at: nat, o: nat, c: nat, lo: nat, to: nat) {
    Partners(t, at, o, c) && lo <= o < to <= c
  }

  lemma {:induction false} PartnersWithin(t: Text, at: nat, o: nat, c: nat)
    requires Partners(t, at, o, c)
    ensures at <= o < c < at + Len(t)
    decreases t
  {
    match t
    case Plain(_, rest) => PartnersWithin(rest, at + 1, o, c);
    case Literal(_, body, rest) => PartnersWithin(rest, at + |body| + 2, o, c);
    case Braces(inner, rest) =>
      if Partners(inner, at + 1, o, c) { PartnersWithin(inner, at + 1, o, c); }
      if Partners(rest, at + Len(inner) + 2, o, c) { PartnersWithin(rest, at + Len(inner) + 2, o, c); }
  }

  /** `Innermost` returns the opening brace of a group around `to`, together with its partner. */
  lemma {:induction false} InnermostEncloses(t: Text, at: nat, lo: nat, to: nat) returns (c: nat)
    requires Innermost(t, at, lo, to).Some?
    ensures Encloses(t, at, Innermost(t, at, lo, to).value, c, lo, to)
    decreases t
  {
    match t
    case Plain(_, rest) => c := InnermostEncloses(rest, at + 1, lo, to);
    case Literal(_, body, rest) => c := InnermostEncloses(rest, at + |body| + 2, lo, to);
    case Braces(inner, rest) =>
      c := at + 1 + Len(inner);
      if to > c {
        c := InnermostEncloses(rest, c + 1, lo, to);
      } else if Innermost(inner, at + 1, lo, to).Some? {
        c := InnermostEncloses(inner, at + 1, lo, to);
      }
  }

  /** Every group around `to` opened at or after `lo` opens no later than `Innermost`. */
  lemma {:induction false} InnermostIsInnermost(t: Text, at: nat, lo: nat, to: nat, o: nat, c: nat)
    requires Encloses(t, at, o, c, lo, to)
    ensures Innermost(t, at, lo, to).Some? && o <= Innermost(t, at, lo, to).value
    decreases t
  {
    match t
    case Plain(_, rest) => InnermostIsInnermost(rest, at + 1, lo, to, o, c);
    case Literal(_, body, rest) => InnermostIsInnermost(rest, at + |body| + 2, lo, to, o, c);
    case Braces(inner, rest) =>
      var close := at + 1 + Len(inner);
      if Partners(inner, at + 1, o, c) {
        PartnersWithin(inner, at + 1, o, c);
        InnermostIsInnermost(inner, at + 1, lo, to, o, c);
      } else if Partners(rest, close + 1, o, c) {
        PartnersWithin(rest, close + 1, o, c);
        InnermostIsInnermost(rest, close + 1, lo, to, o, c);
      } else if Innermost(inner, at + 1, lo, to).Some? {
        var c' := InnermostEncloses(inner, at + 1, lo, to);
        PartnersWithin(inner, at + 1, Innermost(inner, at + 1, lo, to).value, c');
      }
  }

  /** What the backward scan from `to` returns when it enters `t` from the right. */
  function Found(s: string, t: Text, at: nat, lo: nat, to: nat): int
    requires lo <= at ==> at <= |s|
  {
    match Innermost(t, at, lo, to)
    case Some(o) => o
    case None => if lo <= at then OpenBefore(s, lo, at, 0, None) else -1
  }

  /** Past a group's closing brace, the scan either crosses the whole group or is cut off in it. */
  lemma BackLeavesGroup(s: string, lo: nat, at: nat, inner: Text)
    requires WellFormed(inner) && AllNeutral(inner) && Holds(s, at + 1, inner)
    requires at + 1 + Len(inner) < |s| && s[at] == '{' && s[at + 1 + Len(inner)] == '}'
    requires Outside(inner, at + 1, lo) && lo <= at + Len(inner) + 2
    ensures OpenBefore(s, lo, at + Len(inner) + 2, 0, None)
         == if lo <= at then OpenBefore(s, lo, at, 0, None) else -1
  {
    if lo <= at {
      BackSkips(s, lo, at + 1, inner, 1);
      BackEntersGroup(s, lo, at, Len(inner), 0);
    } else if lo <= at + 1 + Len(inner) {
      BackCutOff(s, lo, at + 1, inner, 1);
    }
  }

  lemma {:induction false} OpenIsInnermostBraces(s: string, lo: nat, to: nat, at: nat, inner: Text, rest: Text)
    requires WellFormed(inner) && AllNeutral(inner) && Holds(s, at + 1, inner) && Outside(inner, at + 1, lo)
    requires WellFormed(rest) && AllNeutral(rest) && Holds(s, at + Len(inner) + 2, rest)
    requires at + 1 + Len(inner) < |s| && s[at] == '{' && s[at + 1 + Len(inner)] == '}'
    requires Outside(inner, at + 1, to)
    requires Outside(rest, at + Len(inner) + 2, lo) && Outside(rest, at + Len(inner) + 2, to)
    requires at < to <= at + Len(inner) + 2 + Len(rest) <= |s| && lo <= to
    ensures OpenBefore(s, lo, to, 0, None) == Found(s, Braces(inner, rest), at, lo, to)
    decreases Braces(inner, rest), 0
  {
    var close := at + 1 + Len(inner);
    if to > close {
      OpenIsInnermost(s, lo, to, close + 1, rest);
      if lo <= close + 1 { BackLeavesGroup(s, lo, at, inner); }
    } else {
      OpenIsInnermost(s, lo, to, at + 1, inner);
    }
  }

  /** The backward scan from any position outside the literals finds the innermost group. */
  lemma {:induction false} OpenIsInnermost(s: string, lo: nat, to: nat, at: nat, t: Text)
    requires WellFormed(t) && AllNeutral(t) && Holds(s, at, t)
    requires Outside(t, at, to) && Outside(t, at, lo) && at <= to <= at + Len(t) && lo <= to
    ensures at + Len(t) <= |s| && OpenBefore(s, lo, to, 0, None) == Found(s, t, at, lo, to)
    decreases t, 1
  {
    HoldsFits(s, at, t);
    if to == at {
      NothingBefore(t, at, lo, to);
    } else {
      match t
      case End =>
      case Plain(_, rest) => OpenIsInnermost(s, lo, to, at + 1, rest);
      case Literal(q, body, rest) =>
        OpenIsInnermost(s, lo, to, at + |body| + 2, rest);
        if lo <= at { BackEntersLiteral(s, lo, at, q, body, 0); }
      case Braces(inner, rest) => OpenIsInnermostBraces(s, lo, to, at, inner, rest);
    }
  }

  lemma NothingBefore(t: Text, at: nat, lo: nat, to: nat)
    requires to <= at
    ensures Innermost(t, at, lo, to) == None
  {
    if Innermost(t, at, lo, to).Some? {
      var c := InnermostEncloses(t, at, lo, to);
      PartnersWithin(t, at, Innermost(t, at, lo, to).value, c);
    }
  }

  /** From any position outside the literals of a well-formed text, `findOpenBraceBefore` returns the
      opening brace of the innermost group around it, or -1 when no group is. */
  lemma FindsInnermost(t: Text, to: nat)
    requires WellFormed(t) && AllNeutral(t) && to <= |Render(t)| && Outside(t, 0, to)
    ensures var open := OpenBefore(Render(t), 0, to, 0, None);
            if open == -1 then forall o: nat, c: nat :: !Encloses(t, 0, o, c, 0, to)
            else && open >= 0 && (exists c: nat :: Encloses(t, 0, open, c, 0, to))
                 && forall o: nat, c: nat :: Encloses(t, 0, o, c, 0, to) ==> o <= open
  {
    LenIsRendered(t);
    WholeHolds(t);
    OutsideStart(t, 0);
    OpenIsInnermost(Render(t), 0, to, 0, t);
    forall o: nat, c: nat | Encloses(t, 0, o, c, 0, to)
      ensures Innermost(t, 0, 0, to).Some? && o <= Innermost(t, 0, 0, to).value
    {
      InnermostIsInnermost(t, 0, 0, to, o, c);
    }
    if Innermost(t, 0, 0, to).Some? {
      var c := InnermostEncloses(t, 0, 0, to);
    }
  }

  lemma WholeHolds(t: Text)
    ensures Holds(Render(t), 0, t)
  {
    RenderHolds("", t, "");
    assert "" + Render(t) + "" == Render(t);
  }

  lemma {:induction false} OutsideStart(t: Text, at: nat)
    ensures forall p: nat | p <= at :: Outside(t, at, p)
    decreases t
  {
    match t
    case End =>
    case Plain(_, rest) => OutsideStart(rest, at + 1);
    case Literal(_, body, rest) => OutsideStart(rest, at + |body| + 2);
    case Braces(inner, rest) =>
      OutsideStart(inner, at + 1);
      OutsideStart(rest, at + Len(inner) + 2);
  }

  lemma {:induction false} OutsideEnd(t: Text, at: nat)
    ensures forall p: nat | p >= at + Len(t) :: Outside(t, at, p)
    decreases t
  {
    match t
    case End =>
    case Plain(_, rest) => OutsideEnd(rest, at + 1);
    case Literal(_, body, rest) => OutsideEnd(rest, at + |body| + 2);
    case Braces(inner, rest) =>
      OutsideEnd(inner, at + 1);
      OutsideEnd(rest, at + Len(inner) + 2);
  }

  /** Braces of the grammar stand outside the literals. */
  lemma {:induction false} PartnersOutside(t: Text, at: nat, o: nat, c: nat)
    requires Partners(t, at, o, c)
    ensures Outside(t, at, c) && Outside(t, at, c + 1)
    decreases t
  {
    PartnersWithin(t, at, o, c);
    match t
    case Plain(_, rest) => PartnersOutside(rest, at + 1, o, c);
    case Literal(_, body, rest) =>
      PartnersWithin(rest, at + |body| + 2, o, c);
      PartnersOutside(rest, at + |body| + 2, o, c);
    case Braces(inner, rest) =>
      var close := at + 1 + Len(inner);
      OutsideEnd(inner, at + 1);
      OutsideStart(rest, close + 1);
      if Partners(inner, at + 1, o, c) {
        PartnersWithin(inner, at + 1, o, c);
        PartnersOutside(inner, at + 1, o, c);
      } else if Partners(rest, close + 1, o, c) {
        PartnersWithin(rest, close + 1, o, c);
        PartnersOutside(rest, close + 1, o, c);
      }
  }

  /** Groups nest: one that opens inside another closes inside it. */
  lemma {:induction false} GroupsNest(t: Text, at: nat, o: nat, c: nat, o': nat, c': nat)
    requires Partners(t, at, o, c) && Partners(t, at, o', c') && o <= o' < c
    ensures c' <= c && (o < o' ==> c' < c)
    decreases t
  {
    match t
    case Plain(_, rest) => GroupsNest(rest, at + 1, o, c, o', c');
    case Literal(_, body, rest) => GroupsNest(rest, at + |body| + 2, o, c, o', c');
    case Braces(inner, rest) => GroupsNestBraces(at, inner, rest, o, c, o', c');
  }

  lemma GroupsNestBraces(at: nat, inner: Text, rest: Text, o: nat, c: nat, o': nat, c': nat)
    requires Partners(Braces(inner, rest), at, o, c) && Partners(Braces(inner, rest), at, o', c')
    requires o <= o' < c
    ensures c' <= c && (o < o' ==> c' < c)
    decreases Braces(inner, rest), 0
  {
    var close := at + 1 + Len(inner);
    if Partners(inner, at + 1, o, c) { PartnersWithin(inner, at + 1, o, c); }
    if Partners(inner, at + 1, o', c') { PartnersWithin(inner, at + 1, o', c'); }
    if Partners(rest, close + 1, o, c) { PartnersWithin(rest, close + 1, o, c); }
    if Partners(rest, close + 1, o', c') { PartnersWithin(rest, close + 1, o', c'); }
    if Partners(inner, at + 1, o, c) && Partners(inner, at + 1, o', c') {
      GroupsNest(inner, at + 1, o, c, o', c');
    } else if Partners(rest, close + 1, o, c) && Partners(rest, close + 1, o', c') {
      GroupsNest(rest, close + 1, o, c, o', c');
    }
  }

  /** The two scans invert each other on every group of the grammar. */
  lemma ScansAreInverse(t: Text, o: nat, c: nat)
    requires WellFormed(t) && AllNeutral(t) && Partners(t, 0, o, c)
    ensures o < c < |Render(t)|
    ensures MatchFrom(Render(t), o, 0, None) == c && OpenBefore(Render(t), 0, c, 0, None) == o
  {
    WholeHolds(t);
    MatchFindsPartner(Render(t), 0, t, o, c);
    PartnersOutside(t, 0, o, c);
    OutsideStart(t, 0);
    LenIsRendered(t);
    OpenIsInnermost(Render(t), 0, c, 0, t);
    InnermostIsInnermost(t, 0, 0, c, o, c);
    var c' := InnermostEncloses(t, 0, 0, c);
    GroupsNest(t, 0, o, c, Innermost(t, 0, 0, c).value, c');
  }

  /** The exact condition, for every group of every well-formed text, escapes included: the forward scan
      always finds the partner, and the backward scan inverts it if and only if it leaves the text between
      the two braces outside literals and with as many braces open as it had when it entered. */
  lemma InverseIff(t: Text, o: nat, c: nat)
    requires WellFormed(t) && Partners(t, 0, o, c)
    ensures o < c < |Render(t)| && MatchFrom(Render(t), o, 0, None) == c
    ensures OpenBefore(Render(t), 0, c, 0, None) == o
        <==> ScanBack(Render(t)[o + 1..c], c - o - 1, 0, None) == At(0, None)
  {
    var s := Render(t);
    WholeHolds(t);
    MatchFindsPartner(s, 0, t, o, c);
    var inner := s[o + 1..c];
    BackThrough(s, 0, o + 1, inner, |inner|, 0, None);
    var r := ScanBack(inner, |inner|, 0, None);
    if r.At? { BackAtBrace(s, o, r); }
  }

  /** At an opening brace the scan stops exactly when it is outside literals and no brace is open. */
  lemma BackAtBrace(s: string, o: nat, r: Scan)
    requires o < |s| && s[o] == '{' && r.At?
    ensures OpenBefore(s, 0, o + 1, r.depth, r.inString) == o <==> r == At(0, None)
  {
    match r.inString {
      case Some(q) => BackBelow(s, o, r.depth, if s[o] == q then None else r.inString);
      case None => if r.depth > 0 { BackBelow(s, o, r.depth - 1, None); }
    }
  }

  lemma {:induction false} BackBelow(s: string, i: nat, depth: nat, inString: Option<char>)
    requires i <= |s|
    ensures OpenBefore(s, 0, i, depth, inString) < i
    decreases i
  {
    if i > 0 {
      var c := s[i - 1];
      match inString {
        case Some(q) => BackBelow(s, i - 1, depth, if c == q then None else inString);
        case None =>
          if IsQuote(c) {
            BackBelow(s, i - 1, depth, Some(c));
          } else if c != '{' || depth > 0 {
            BackBelow(s, i - 1, if c == '}' then depth + 1 else if c == '{' then depth - 1 else depth, None);
          }
      }
    }
  }

  /** A group that holds one literal, whatever its escapes: the scans invert each other on it if and only
      if the literal is neutral. */
  lemma LiteralInverseIff(q: char, body: string)
    requires IsQuote(q) && Escaped(q, body)
    ensures var t := Braces(Literal(q, body, End), End);
            && WellFormed(t) && Partners(t, 0, 0, |body| + 3) && |Render(t)| == |body| + 4
            && (OpenBefore(Render(t), 0, |body| + 3, 0, None) == 0 <==> Neutral(q, body))
  {
    var t := Braces(Literal(q, body, End), End);
    var s := Render(t);
    InverseIff(t, 0, |body| + 3);
    var inner := [q] + body + [q];
    assert s == "{" + inner + "}";
    assert s[1..|body| + 3] == inner;
    assert inner[1..1 + |body|] == body;
    LiteralScan(q, body);
  }

  /** The scan of a whole literal: into it at the closing quote, through the body, out at the opening one. */
  lemma LiteralScan(q: char, body: string)
    requires IsQuote(q)
    ensures var inner := [q] + body + [q];
            ScanBack(inner, |inner|, 0, None) == At(0, None) <==> Neutral(q, body)
  {
    var inner := [q] + body + [q];
    var r := ScanBack(body, |body|, 0, Some(q));
    ScanPart(inner, 1, body, |body|, 0, Some(q));
    assert ScanBack(inner, |inner|, 0, None) == ScanBack(inner, 1 + |body|, 0, Some(q));
    if r.At? {
      assert inner[0] == q;
      assert ScanBack(inner, 0, r.depth, None) == At(r.depth, None);
    }
  }

  lemma {:induction false} ScanPart(s: string, at: nat, body: string, i: nat, depth: nat, inString: Option<char>)
    requires at + |body| <= |s| && s[at..at + |body|] == body && i <= |body|
    ensures match ScanBack(body, i, depth, inString)
            case At(d, q) => ScanBack(s, at + i, depth, inString) == ScanBack(s, at, d, q)
            case Stopped => ScanBack(s, at + i, depth, inString) == Stopped
    decreases i
  {
    if i > 0 {
      var c := body[i - 1];
      assert s[at + i - 1] == c;
      match inString {
        case Some(q) => ScanPart(s, at, body, i - 1, depth, if c == q then None else inString);
        case None =>
          if IsQuote(c) {
            ScanPart(s, at, body, i - 1, depth, Some(c));
          } else if c != '{' || depth > 0 {
            ScanPart(s, at, body, i - 1, if c == '}' then depth + 1 else if c == '{' then depth - 1 else depth, None);
          }
      }
    }
  }

  /** One escaped quote is enough to break the inverse; two of them cancel out. */
  lemma EscapedQuoteBreaksInverse()
    ensures var t := Braces(Literal('"', "\\\"", End), End);
            && WellFormed(t) && Partners(t, 0, 0, 5)
            && MatchFrom(Render(t), 0, 0, None) == 5 && OpenBefore(Render(t), 0, 5, 0, None) != 0
    ensures var u := Braces(Literal('"', "\\\"\\\"", End), End);
            && WellFormed(u) && !QuoteFree(u) && Partners(u, 0, 0, 7)
            && MatchFrom(Render(u), 0, 0, None) == 7 && OpenBefore(Render(u), 0, 7, 0, None) == 0
  {
    var one, two := "\\\"", "\\\"\\\"";
    assert Escaped('"', one);
    assert two[2..] == one && Escaped('"', two);
    assert ScanBack(one, 1, 0, None) == At(0, None);
    assert ScanBack(two, 3, 0, None) == ScanBack(two, 2, 0, None) == ScanBack(two, 1, 0, Some('"'));
    LiteralInverseIff('"', one);
    LiteralInverseIff('"', two);
    InverseIff(Braces(Literal('"', one, End), End), 0, 5);
    InverseIff(Braces(Literal('"', two, End), End), 0, 7);
    assert '"' in two by { assert two[1] == '"'; }
  }

  // ---------------------------------------------------------------- parseGroups

  /** `a..b` is a run of plain characters followed by one string literal, like `title: "..."`. */
  predicate TitleRun(t: Text, at: nat, b: nat) {
    match t
    case Plain(_, rest) => TitleRun(rest, at + 1, b)
    case Literal(_, body, _) => b == at + |body| + 2
    case _ => false
  }

  predicate TitleAt(t: Text, at: nat, a: nat, b: nat) {
    match t
    case End => false
    case Plain(_, rest) => (a == at && TitleRun(t, at, b)) || TitleAt(rest, at + 1, a, b)
    case Literal(_, body, rest) => TitleAt(rest, at + |body| + 2, a, b)
    case Braces(inner, rest) => TitleAt(inner, at + 1, a, b) || TitleAt(rest, at + Len(inner) + 2, a, b)
  }

  lemma {:induction false} TitleRunWithin(t: Text, at: nat, b: nat)
    requires TitleRun(t, at, b)
    ensures at < b <= at + Len(t)
    ensures forall o: nat, c: nat :: Partners(t, at, o, c) ==> b <= o
    decreases t
  {
    match t
    case Plain(_, rest) => TitleRunWithin(rest, at + 1, b);
    case Literal(_, body, rest) =>
      forall o: nat, c: nat | Partners(t, at, o, c) ensures b <= o {
        PartnersWithin(rest, at + |body| + 2, o, c);
      }
  }

  /** A title starts outside the literals and no group closes inside it. */
  lemma {:induction false} TitleWithin(t: Text, at: nat, a: nat, b: nat)
    requires TitleAt(t, at, a, b)
    ensures at <= a < b <= at + Len(t) && Outside(t, at, a)
    ensures forall o: nat, c: nat :: Partners(t, at, o, c) && o < a <= c ==> b <= c
    decreases t
  {
    OutsideStart(t, at);
    match t
    case Plain(_, rest) =>
      if a == at && TitleRun(t, at, b) {
        TitleRunWithin(t, at, b);
      } else {
        TitleWithin(rest, at + 1, a, b);
      }
    case Literal(_, body, rest) => TitleWithin(rest, at + |body| + 2, a, b);
    case Braces(inner, rest) => TitleWithinBraces(at, inner, rest, a, b);
  }

  lemma TitleWithinBraces(at: nat, inner: Text, rest: Text, a: nat, b: nat)
    requires TitleAt(Braces(inner, rest), at, a, b)
    ensures at <= a < b <= at + Len(inner) + 2 + Len(rest) && Outside(Braces(inner, rest), at, a)
    ensures forall o: nat, c: nat :: Partners(Braces(inner, rest), at, o, c) && o < a <= c ==> b <= c
    decreases Braces(inner, rest), 0
  {
    var close := at + 1 + Len(inner);
    OutsideEnd(inner, at + 1);
    OutsideStart(rest, close + 1);
    if TitleAt(inner, at + 1, a, b) {
      TitleWithin(inner, at + 1, a, b);
    } else {
      TitleWithin(rest, close + 1, a, b);
    }
    forall o: nat, c: nat | Partners(Braces(inner, rest), at, o, c) && o < a <= c ensures b <= c {
      if Partners(inner, at + 1, o, c) { PartnersWithin(inner, at + 1, o, c); }
      if Partners(rest, close + 1, o, c) { PartnersWithin(rest, close + 1, o, c); }
    }
  }

  /** Scanning a suffix is scanning the whole text from an offset. */
  lemma {:induction false} MatchOnSuffix(s: string, k: nat, i: nat, depth: int, inString: Option<char>)
    requires k + i <= |s|
    ensures var r := MatchFrom(s, k + i, depth, inString);
            MatchFrom(s[k..], i, depth, inString) == if r < 0 then -1 else r - k
    ensures MatchFrom(s, k + i, depth, inString) >= k + i || MatchFrom(s, k + i, depth, inString) == -1
    decreases |s| - k - i
  {
    if k + i < |s| {
      var c := s[k + i];
      match inString {
        case Some(q) =>
          if c == '\\' && k + i + 1 < |s| {
            MatchOnSuffix(s, k, i + 2, depth, inString);
          } else {
            MatchOnSuffix(s, k, i + 1, depth, if c == q then None else inString);
          }
        case None =>
          if IsQuote(c) {
            MatchOnSuffix(s, k, i + 1, depth, Some(c));
          } else if c != '}' || depth != 1 {
            MatchOnSuffix(s, k, i + 1, if c == '{' then depth + 1 else if c == '}' then depth - 1 else depth, None);
          }
      }
    }
  }

  lemma {:induction false} OpenOnSuffix(s: string, k: nat, i: nat, depth: nat, inString: Option<char>)
    requires k + i <= |s|
    ensures var r := OpenBefore(s, k, k + i, depth, inString);
            OpenBefore(s[k..], 0, i, depth, inString) == if r < 0 then -1 else r - k
    ensures OpenBefore(s, k, k + i, depth, inString) >= k || OpenBefore(s, k, k + i, depth, inString) == -1
    decreases i
  {
    if i > 0 {
      var c := s[k + i - 1];
      match inString {
        case Some(q) => OpenOnSuffix(s, k, i - 1, depth, if c == q then None else inString);
        case None =>
          if IsQuote(c) {
            OpenOnSuffix(s, k, i - 1, depth, Some(c));
          } else if c == '}' {
            OpenOnSuffix(s, k, i - 1, depth + 1, None);
          } else if c != '{' || depth > 0 {
            OpenOnSuffix(s, k, i - 1, if c == '{' then depth - 1 else depth, None);
          }
      }
    }
  }

  /** One cut: the title it came from, the group's two braces in the source, and the group's text. */
  datatype Cut = Cut(title: nat, open: nat, close: nat, text: string)

  /** `cut` is the innermost group around its title among those opened after the previous cut. */
  predicate GoodCut(src: string, titles: seq<(nat, nat)>, t: Text, cut: Cut, from: nat) {
    && cut.title < |titles| && from <= cut.open < cut.close < |src|
    && Partners(t, 0, cut.open, cut.close)
    && cut.text == src[cut.open..cut.close + 1]
    && cut.open < titles[cut.title].0 && titles[cut.title].1 <= cut.close
    && Innermost(t, 0, from, titles[cut.title].0) == Some(cut.open)
  }

  function EndOf(cuts: seq<Cut>): nat {
    if cuts == [] then 0 else cuts[|cuts| - 1].close + 1
  }

  predicate GoodCuts(src: string, titles: seq<(nat, nat)>, t: Text, cuts: seq<Cut>) {
    forall i | 0 <= i < |cuts| :: GoodCut(src, titles, t, cuts[i], EndOf(cuts[..i]))
  }

  predicate GoodTitles(t: Text, titles: seq<(nat, nat)>) {
    && (forall i | 0 <= i < |titles| :: TitleAt(t, 0, titles[i].0, titles[i].1))
    && (forall i, j | 0 <= i < j < |titles| :: titles[i].0 < titles[j].0)
  }

  /** Nothing is left to cut: no title, or the first one left lies in no group of the remainder. */
  predicate Exhausted(titles: seq<(nat, nat)>, t: Text, from: nat) {
    forall k | 0 <= k < |titles| && titles[k].0 >= from ::
      (forall j | 0 <= j < k :: titles[j].0 < from) ==> Innermost(t, 0, from, titles[k].0) == None
  }

  /** The first title that starts in the remainder. */
  method NextTitle(titles: seq<(nat, nat)>, base: nat) returns (k: nat)
    ensures k <= |titles| && forall j | 0 <= j < k :: titles[j].0 < base
    ensures k < |titles| ==> base <= titles[k].0
  {
    k := 0;
    while k < |titles| && titles[k].0 < base
      invariant k <= |titles| && forall j | 0 <= j < k :: titles[j].0 < base
    {
      k := k + 1;
    }
  }

  lemma CutFinds(src: string, t: Text, base: nat, to: nat)
    requires WellFormed(t) && AllNeutral(t) && Render(t) == src
    requires base <= to <= |src| && Outside(t, 0, base) && Outside(t, 0, to)
    ensures OpenBefore(src[base..], 0, to - base, 0, None)
         == match Innermost(t, 0, base, to) case Some(o) => o - base case None => -1
    ensures Innermost(t, 0, base, to).Some? ==> base <= Innermost(t, 0, base, to).value < to
  {
    WholeHolds(t);
    LenIsRendered(t);
    OpenIsInnermost(src, base, to, 0, t);
    OpenOnSuffix(src, base, to - base, 0, None);
    if Innermost(t, 0, base, to).Some? {
      var c := InnermostEncloses(t, 0, base, to);
    }
  }

  lemma CutCloses(src: string, t: Text, base: nat, to: nat, open: nat)
    requires WellFormed(t) && Render(t) == src && Innermost(t, 0, base, to) == Some(open)
    ensures base <= open < |src|
    ensures var close := MatchFrom(src[base..], open - base, 0, None);
            close > open - base && base + close < |src| && Encloses(t, 0, open, base + close, base, to)
  {
    WholeHolds(t);
    var c := InnermostEncloses(t, 0, base, to);
    MatchFindsPartner(src, 0, t, open, c);
    MatchOnSuffix(src, base, open - base, 0, None);
  }

  lemma AppendCut(src: string, titles: seq<(nat, nat)>, t: Text, cuts: seq<Cut>, cut: Cut)
    requires GoodCuts(src, titles, t, cuts) && GoodCut(src, titles, t, cut, EndOf(cuts))
    ensures GoodCuts(src, titles, t, cuts + [cut]) && EndOf(cuts + [cut]) == cut.close + 1
  {
    var more := cuts + [cut];
    forall i | 0 <= i < |more| ensures GoodCut(src, titles, t, more[i], EndOf(more[..i])) {
      assert more[..i] == cuts[..i];
    }
  }

  lemma TurnText(src: string, base: nat, k: nat, open: nat, close: nat)
    requires base <= |src| && open <= close < |src| - base
    ensures var cut := TurnCut(src[base..], base, k, open, close);
            cut.text == src[cut.open..cut.close + 1]
  {
  }

  lemma TitleFits(t: Text, titles: seq<(nat, nat)>, k: nat)
    requires GoodTitles(t, titles) && k < |titles|
    ensures titles[k].0 <= |Render(t)| && Outside(t, 0, titles[k].0)
  {
    LenIsRendered(t);
    TitleWithin(t, 0, titles[k].0, titles[k].1);
  }

  /** The group that one turn cuts out of the remainder, by the two scans. */
  function TurnCut(body: string, base: nat, k: nat, open: nat, close: nat): Cut
    requires open <= close < |body|
  {
    Cut(k, base + open, base + close, body[open..close + 1])
  }

  /** When the backward scan finds no brace, nothing is left to cut. */
  lemma TurnStops(src: string, titles: seq<(nat, nat)>, t: Text, base: nat, k: nat)
    requires WellFormed(t) && AllNeutral(t) && Render(t) == src && GoodTitles(t, titles) && k < |titles|
    requires base <= titles[k].0 <= |src| && Outside(t, 0, base)
    requires forall j | 0 <= j < k :: titles[j].0 < base
    requires OpenBefore(src[base..], 0, titles[k].0 - base, 0, None) < 0
    ensures Exhausted(titles, t, base)
  {
    TitleFits(t, titles, k);
    CutFinds(src, t, base, titles[k].0);
  }

  /** The state of the loop between two turns. */
  predicate Cutting(src: string, titles: seq<(nat, nat)>, t: Text, cuts: seq<Cut>) {
    EndOf(cuts) <= |src| && Outside(t, 0, EndOf(cuts)) && GoodCuts(src, titles, t, cuts)
  }

  /** When it finds one, it is the innermost group's, and the forward scan succeeds from it. */
  lemma TurnOpens(src: string, titles: seq<(nat, nat)>, t: Text, base: nat, k: nat, open: nat)
    requires WellFormed(t) && AllNeutral(t) && Render(t) == src && GoodTitles(t, titles) && k < |titles|
    requires base <= titles[k].0 <= |src| && Outside(t, 0, base)
    requires open == OpenBefore(src[base..], 0, titles[k].0 - base, 0, None)
    ensures Innermost(t, 0, base, titles[k].0) == Some(base + open)
    ensures open < |src| - base && open < MatchFrom(src[base..], open, 0, None) < |src| - base
  {
    TitleFits(t, titles, k);
    CutFinds(src, t, base, titles[k].0);
    CutCloses(src, t, base, titles[k].0, base + open);
  }

  lemma TurnCuts(src: string, titles: seq<(nat, nat)>, t: Text, cuts: seq<Cut>, k: nat, open: nat, close: nat)
    requires WellFormed(t) && Render(t) == src && GoodTitles(t, titles) && k < |titles|
    requires Cutting(src, titles, t, cuts) && open < close < |src| - EndOf(cuts)
    requires Innermost(t, 0, EndOf(cuts), titles[k].0) == Some(EndOf(cuts) + open)
    requires close == MatchFrom(src[EndOf(cuts)..], open, 0, None)
    ensures var more := cuts + [TurnCut(src[EndOf(cuts)..], EndOf(cuts), k, open, close)];
            Cutting(src, titles, t, more) && EndOf(more) == EndOf(cuts) + close + 1
  {
    hide WellFormed, Render, MatchFrom, Innermost, Partners, TitleAt, Outside, GoodCuts, GoodCut, GoodTitles;
    var base := EndOf(cuts);
    var cut := TurnCut(src[base..], base, k, open, close);
    CutCloses(src, t, base, titles[k].0, cut.open);
    TurnText(src, base, k, open, close);
    CutIsGood(src, titles, t, base, cut);
    AppendCut(src, titles, t, cuts, cut);
  }

  lemma CutIsGood(src: string, titles: seq<(nat, nat)>, t: Text, base: nat, cut: Cut)
    requires GoodTitles(t, titles) && cut.title < |titles| && cut.close < |src|
    requires Encloses(t, 0, cut.open, cut.close, base, titles[cut.title].0)
    requires Innermost(t, 0, base, titles[cut.title].0) == Some(cut.open)
    requires cut.text == src[cut.open..cut.close + 1]
    ensures GoodCut(src, titles, t, cut, base) && Outside(t, 0, cut.close + 1)
  {
    TitleWithin(t, 0, titles[cut.title].0, titles[cut.title].1);
    PartnersOutside(t, 0, cut.open, cut.close);
  }

  // ---------------------------------------------------------------- the loop

  /** The source is a rendering of well-formed text with neutral literals, and its titles are titles of it. */
  predicate Grammatical(src: string, titles: seq<(nat, nat)>, t: Text) {
    WellFormed(t) && AllNeutral(t) && Render(t) == src && GoodTitles(t, titles)
  }

  /** Where the title pattern matches: within the source, from left to right. */
  predicate InOrder(titles: seq<(nat, nat)>, n: nat) {
    && (forall i | 0 <= i < |titles| :: titles[i].0 < titles[i].1 <= n)
    && (forall i, j | 0 <= i < j < |titles| :: titles[i].0 < titles[j].0)
  }

  /** On any source: a cut runs from one brace to a later one, starts after the one before it and before
      the title it was cut for. */
  predicate Slice(src: string, titles: seq<(nat, nat)>, cut: Cut, from: nat) {
    && cut.title < |titles| && from <= cut.open < cut.close < |src| && cut.open < titles[cut.title].0
    && src[cut.open] == '{' && src[cut.close] == '}' && cut.text == src[cut.open..cut.close + 1]
  }

  predicate Slices(src: string, titles: seq<(nat, nat)>, cuts: seq<Cut>) {
    forall i | 0 <= i < |cuts| :: Slice(src, titles, cuts[i], EndOf(cuts[..i]))
  }

  lemma {:induction false} OpenIsBrace(s: string, i: nat, depth: nat, inString: Option<char>)
    requires i <= |s|
    ensures var r := OpenBefore(s, 0, i, depth, inString);
            r == -1 || (0 <= r < i && s[r] == '{')
    decreases i
  {
    if i > 0 {
      var c := s[i - 1];
      match inString {
        case Some(q) => OpenIsBrace(s, i - 1, depth, if c == q then None else inString);
        case None =>
          if IsQuote(c) {
            OpenIsBrace(s, i - 1, depth, Some(c));
          } else if c != '{' || depth > 0 {
            OpenIsBrace(s, i - 1, if c == '}' then depth + 1 else if c == '{' then depth - 1 else depth, None);
          }
      }
    }
  }

  lemma {:induction false} CloseIsBrace(s: string, i: nat, depth: int, inString: Option<char>)
    requires i <= |s|
    ensures var r := MatchFrom(s, i, depth, inString);
            r == -1 || (i <= r < |s| && s[r] == '}')
    decreases |s| - i
  {
    if i < |s| {
      match inString {
        case Some(q) =>
          if s[i] == '\\' && i + 1 < |s| {
            CloseIsBrace(s, i + 2, depth, inString);
          } else {
            CloseIsBrace(s, i + 1, depth, if s[i] == q then None else inString);
          }
        case None =>
          if IsQuote(s[i]) {
            CloseIsBrace(s, i + 1, depth, Some(s[i]));
          } else if s[i] != '}' || depth != 1 {
            CloseIsBrace(s, i + 1, if s[i] == '{' then depth + 1 else if s[i] == '}' then depth - 1 else depth, None);
          }
      }
    }
  }

  lemma AppendSlice(src: string, titles: seq<(nat, nat)>, cuts: seq<Cut>, cut: Cut)
    requires Slices(src, titles, cuts) && Slice(src, titles, cut, EndOf(cuts))
    ensures Slices(src, titles, cuts + [cut]) && EndOf(cuts + [cut]) == cut.close + 1
  {
    var more := cuts + [cut];
    forall i | 0 <= i < |more| ensures Slice(src, titles, more[i], EndOf(more[..i])) {
      assert more[..i] == cuts[..i];
    }
  }

  /** What one turn cuts is a slice, whatever the source. */
  lemma TurnSlices(src: string, titles: seq<(nat, nat)>, cuts: seq<Cut>, k: nat, open: nat, close: nat)
    requires Slices(src, titles, cuts) && EndOf(cuts) <= |src| && k < |titles|
    requires EndOf(cuts) <= titles[k].0 <= |src|
    requires open == OpenBefore(src[EndOf(cuts)..], 0, titles[k].0 - EndOf(cuts), 0, None)
    requires open <= |src| - EndOf(cuts) && close == MatchFrom(src[EndOf(cuts)..], open, 0, None)
    ensures open < close < |src| - EndOf(cuts)
    ensures var more := cuts + [TurnCut(src[EndOf(cuts)..], EndOf(cuts), k, open, close)];
            Slices(src, titles, more) && EndOf(more) == EndOf(cuts) + close + 1 <= |src|
  {
    hide OpenBefore, MatchFrom, Slices;
    var base := EndOf(cuts);
    var body := src[base..];
    OpenIsBrace(body, titles[k].0 - base, 0, None);
    CloseIsBrace(body, open, 0, None);
    assert body[open] == '{' && body[close] == '}';
    var cut := TurnCut(body, base, k, open, close);
    TurnText(src, base, k, open, close);
    AppendSlice(src, titles, cuts, cut);
  }

  lemma ParseStart(src: string, titles: seq<(nat, nat)>, t: Text)
    ensures Cutting(src, titles, t, [])
  {
    OutsideStart(t, 0);
  }

  /** No title is left: nothing is left to cut. */
  lemma NoTitles(titles: seq<(nat, nat)>, t: Text, from: nat)
    requires forall j | 0 <= j < |titles| :: titles[j].0 < from
    ensures Exhausted(titles, t, from)
  {
  }

  /** The loop of `parseGroups`, given where its title pattern matches. On any source the cuts run from
      brace to brace, one after the other, and the remainder shrinks with every turn. When the source is a
      rendering of well-formed text with neutral literals, every cut is the innermost group around its
      title and contains it, and the loop ends only when nothing is left to cut. */
  method ParseGroups(src: string, titles: seq<(nat, nat)>, ghost t: Text) returns (cuts: seq<Cut>)
    requires InOrder(titles, |src|)
    ensures Slices(src, titles, cuts)
    ensures Grammatical(src, titles, t) ==> GoodCuts(src, titles, t, cuts) && Exhausted(titles, t, EndOf(cuts))
  {
    hide WellFormed, AllNeutral, Render, Outside, OpenBefore, MatchFrom, Innermost;
    hide GoodCuts, GoodCut, Slices, Exhausted;
    ParseStart(src, titles, t);
    NoSlices(src, titles);
    cuts := [];
    var body := src;
    var base := 0;
    while true
      invariant base == EndOf(cuts) <= |src| && body == src[base..] && Slices(src, titles, cuts)
      invariant Grammatical(src, titles, t) ==> Cutting(src, titles, t, cuts)
      decreases |body|
    {
      var k := NextTitle(titles, base);
      if k == |titles| {
        NoTitles(titles, t, base);
        return;
      }
      var openIdx := FindOpenBraceBefore(body, titles[k].0 - base);
      if openIdx < 0 {
        if Grammatical(src, titles, t) { TurnStops(src, titles, t, base, k); }
        return;
      }
      OpenIsBrace(body, titles[k].0 - base, 0, None);
      var closeIdx := MatchBrace(body, openIdx);
      if Grammatical(src, titles, t) { TurnOpens(src, titles, t, base, k, openIdx); }
      if closeIdx < 0 {
        return;
      }
      TurnSlices(src, titles, cuts, k, openIdx, closeIdx);
      if Grammatical(src, titles, t) { TurnCuts(src, titles, t, cuts, k, openIdx, closeIdx); }
      cuts := cuts + [TurnCut(body, base, k, openIdx, closeIdx)];
      body := body[closeIdx + 1..];
      base := base + closeIdx + 1;
    }
  }

  lemma NoSlices(src: string, titles: seq<(nat, nat)>)
    ensures Slices(src, titles, [])
  {
  }

  // ---------------------------------------------------------------- edges

  /** An opened group that is not closed has no partner. */
  lemma UnclosedHasNone(t: Text)
    requires WellFormed(t)
    ensures MatchFrom("{" + Render(t), 0, 0, None) == -1
  {
    var s := "{" + Render(t);
    RenderHolds("{", t, "");
    assert "{" + Render(t) + "" == s;
    LenIsRendered(t);
    MatchSkips(s, 1, t, 1);
  }

  /** Each of the three kinds of quotes hides a brace from both scans, and nothing else does. */
  lemma QuotesHideBraces(q: char)
    requires q != '{' && q != '}' && q != '\\'
    ensures var hidden := q in ['"', '\'', '`'];
            && MatchFrom("{" + [q] + "}" + [q] + "}", 0, 0, None) == (if hidden then 4 else 2)
            && OpenBefore("{" + [q] + "{" + [q] + " ", 0, 5, 0, None) == (if hidden then 0 else 2)
  {
    var s := "{" + [q] + "}" + [q] + "}";
    assert |s| == 5 && s[0] == '{' && s[1] == q && s[2] == '}' && s[3] == q && s[4] == '}';
    assert MatchFrom(s, 0, 0, None) == MatchFrom(s, 1, 1, None);
    if IsQuote(q) {
      assert MatchFrom(s, 1, 1, None) == MatchFrom(s, 2, 1, Some(q)) == MatchFrom(s, 3, 1, Some(q));
      assert MatchFrom(s, 3, 1, Some(q)) == MatchFrom(s, 4, 1, None) == 4;
    } else {
      assert MatchFrom(s, 1, 1, None) == MatchFrom(s, 2, 1, None) == 2;
    }
    var r := "{" + [q] + "{" + [q] + " ";
    assert |r| == 5 && r[0] == '{' && r[1] == q && r[2] == '{' && r[3] == q && r[4] == ' ';
    assert OpenBefore(r, 0, 5, 0, None) == OpenBefore(r, 0, 4, 0, None);
    if IsQuote(q) {
      assert OpenBefore(r, 0, 4, 0, None) == OpenBefore(r, 0, 3, 0, Some(q)) == OpenBefore(r, 0, 2, 0, Some(q));
      assert OpenBefore(r, 0, 2, 0, Some(q)) == OpenBefore(r, 0, 1, 0, None) == 0;
    } else {
      assert OpenBefore(r, 0, 4, 0, None) == OpenBefore(r, 0, 3, 0, None) == 2;
    }
  }
}
