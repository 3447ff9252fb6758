/** The user export of backend/internal/handlers/admin_handlers.go and a reader of CSV text. */
module CsvExport {
  import opened Common

  // ---------------------------------------------------------------- writer

  predicate Special(c: char) {
    c == ',' || c == '"' || c == '\n'
  }

  predicate Plain(s: string) {
    forall i | 0 <= i < |s| :: !Special(s[i])
  }

  /** `strings.ReplaceAll(s, "\"", "\"\"")`. */
  function Doubled(s: string): string {
    if s == "" then ""
    else (if s[0] == '"' then "\"\"" else [s[0]]) + Doubled(s[1..])
  }

  function EscapeCsv(s: string): string {
    if Plain(s) then s else "\"" + Doubled(s) + "\""
  }

  method EscapeCSV(s: string) returns (escaped: string)
    ensures escaped == EscapeCsv(s)
  {
    if |s| == 0 {
      return s;
    }
    var i := 0;
    while i < |s|
      invariant i <= |s| && Plain(s[..i])
    {
      if s[i] == ',' || s[i] == '"' || s[i] == '\n' {
        return "\"" + Doubled(s) + "\"";
      }
      i := i + 1;
    }
    assert s[..i] == s;
    escaped := s;
  }

  // ---------------------------------------------------------------- rows

  predicate DashboardMode(s: string) {
    s == "search" || s == "social" || s == "combined"
  }

  /** A time in RFC 3339 form, or nothing. */
  predicate Stamp(s: string) {
    forall i | 0 <= i < |s| :: '0' <= s[i] <= '9' || s[i] in {'-', ':', '+', '.', 'T', 'Z'}
  }

  datatype User = User(
    id: nat, email: string, name: string, role: string, mode: string,
    created: string, lastLogin: string, logins: int, disabledAt: string)

  /** What the other validators guarantee; email and name are arbitrary. */
  predicate Validated(u: User) {
    CodeShape(u.role) && DashboardMode(u.mode) && Stamp(u.created) && Stamp(u.lastLogin) && Stamp(u.disabledAt)
  }

  function Decimal(n: nat): string {
    if n < 10 then ['0' + n as char] else Decimal(n / 10) + ['0' + (n % 10) as char]
  }

  function Itoa(n: int): string {
    if n < 0 then "-" + Decimal(-n) else Decimal(n)
  }

  function Fields(u: User): seq<string> {
    [Decimal(u.id), u.email, u.name, u.role, u.mode, u.created, u.lastLogin, Itoa(u.logins), u.disabledAt]
  }

  /** One field and the comma after it, in front of the rest of the line. */
  function Cell(field: string, rest: string): string {
    field + ("," + rest)
  }

  const COLUMNS := [
    "id", "email", "name", "role", "dashboard_mode", "created_at", "last_login_at", "login_count", "disabled_at"]

  function NineCells(fs: seq<string>): string
    requires |fs| == 9
  {
    Cell(fs[0], Cell(fs[1], Cell(fs[2], Cell(fs[3], Cell(fs[4], Cell(fs[5], Cell(fs[6], Cell(fs[7], fs[8] + "\n"))))))))
  }

  const HEADER := NineCells(COLUMNS)

  /** What the exporter writes between the commas: only email and name are escaped. */
  function Cells(u: User): seq<string> {
    [Decimal(u.id), EscapeCsv(u.email), EscapeCsv(u.name), u.role, u.mode, u.created, u.lastLogin,
     Itoa(u.logins), u.disabledAt]
  }

  function Line(u: User): string {
    NineCells(Cells(u))
  }

  function Lines(users: seq<User>): string {
    if users == [] then "" else Line(users[0]) + Lines(users[1..])
  }

  method WriteLine(u: User) returns (line: string)
    ensures line == Line(u)
  {
    var email := EscapeCSV(u.email);
    var name := EscapeCSV(u.name);
    line := NineCells([Decimal(u.id), email, name, u.role, u.mode, u.created, u.lastLogin,
                       Itoa(u.logins), u.disabledAt]);
  }

  lemma LinesNext(users: seq<User>, i: nat, out: string)
    requires i < |users|
    ensures out + Lines(users[i..]) == (out + Line(users[i])) + Lines(users[i + 1..])
  {
    assert users[i..][1..] == users[i + 1..];
  }

  method ExportUsers(users: seq<User>) returns (out: string)
    ensures out == HEADER + Lines(users)
  {
    out := HEADER;
    var i := 0;
    assert users[0..] == users;
    while i < |users|
      invariant i <= |users| && out + Lines(users[i..]) == HEADER + Lines(users)
    {
      var line := WriteLine(users[i]);
      LinesNext(users, i, out);
      out := out + line;
      i := i + 1;
    }
  }

  // ---------------------------------------------------------------- reader

  /** Section 2 of RFC 4180 with LF between records: a field is bare (no comma, quote or LF) or
      quoted with inner quotes doubled. Results carry the text still to be read. */
  function ReadBare(s: string): (string, string) {
    if s == "" || Special(s[0]) then ("", s)
    else var (f, rest) := ReadBare(s[1..]); ([s[0]] + f, rest)
  }

  function ReadQuoted(s: string): Option<(string, string)>
    decreases |s|
  {
    if s == "" then None
    else if s[0] != '"' then
      match ReadQuoted(s[1..])
      case Some((f, rest)) => Some(([s[0]] + f, rest))
      case None => None
    else if |s| >= 2 && s[1] == '"' then
      match ReadQuoted(s[2..])
      case Some((f, rest)) => Some((['"'] + f, rest))
      case None => None
    else Some(("", s[1..]))
  }

  function ReadField(s: string): Option<(string, string)> {
    if s != "" && s[0] == '"' then ReadQuoted(s[1..]) else Some(ReadBare(s))
  }

  lemma {:induction false} BareShrinks(s: string)
    ensures |ReadBare(s).1| <= |s|
    decreases |s|
  {
    if s != "" && !Special(s[0]) { BareShrinks(s[1..]); }
  }

  lemma {:induction false} QuotedShrinks(s: string)
    ensures ReadQuoted(s).Some? ==> |ReadQuoted(s).value.1| < |s|
    decreases |s|
  {
    if s != "" {
      QuotedShrinks(s[1..]);
      if |s| >= 2 { QuotedShrinks(s[2..]); }
    }
  }

  lemma FieldShrinks(s: string)
    ensures ReadField(s).Some? ==> |ReadField(s).value.1| <= |s|
  {
    BareShrinks(s);
    if s != "" { QuotedShrinks(s[1..]); }
  }

  /** One record: fields separated by commas up to an LF or the end of the text. */
  function ReadRecord(s: string): Option<(seq<string>, string)>
    decreases |s|
  {
    FieldShrinks(s);
    match ReadField(s)
    case None => None
    case Some((f, rest)) =>
      if rest == "" then Some(([f], ""))
      else if rest[0] == '\n' then Some(([f], rest[1..]))
      else if rest[0] == ',' then
        match ReadRecord(rest[1..])
        case Some((fs, tail)) => Some(([f] + fs, tail))
        case None => None
      else None
  }

  lemma {:induction false} RecordShrinks(s: string)
    requires s != ""
    ensures ReadRecord(s).Some? ==> |ReadRecord(s).value.1| < |s|
    decreases |s|
  {
    FieldShrinks(s);
    if ReadField(s).Some? {
      var rest := ReadField(s).value.1;
      if rest != "" && rest[0] == ',' && rest[1..] != "" { RecordShrinks(rest[1..]); }
    }
  }

  function ReadCsv(s: string): Option<seq<seq<string>>>
    decreases |s|
  {
    if s == "" then Some([])
    else
      RecordShrinks(s);
      match ReadRecord(s)
      case None => None
      case Some((record, rest)) =>
        match ReadCsv(rest)
        case Some(records) => Some([record] + records)
        case None => None
  }

  // ---------------------------------------------------------------- round trip

  lemma {:induction false} BareRoundTrip(f: string, rest: string)
    requires Plain(f) && (rest == "" || Special(rest[0]))
    ensures ReadBare(f + rest) == (f, rest)
    decreases |f|
  {
    if f == "" {
      assert f + rest == rest;
    } else {
      assert (f + rest)[1..] == f[1..] + rest;
      BareRoundTrip(f[1..], rest);
      assert [f[0]] + f[1..] == f;
    }
  }

  /** The reader takes a doubled quote, or another character, and goes on. */
  lemma ReadsOne(c: char, tail: string)
    ensures ReadQuoted((if c == '"' then "\"\"" else [c]) + tail)
         == match ReadQuoted(tail) case Some((f, rest)) => Some(([c] + f, rest)) case None => None
  {
    if c == '"' {
      assert ("\"\"" + tail)[2..] == tail;
    } else {
      assert ([c] + tail)[1..] == tail;
    }
  }

  lemma ReadsEnd(rest: string)
    requires rest == "" || rest[0] != '"'
    ensures ReadQuoted("\"" + rest) == Some(("", rest))
  {
    assert ("\"" + rest)[1..] == rest;
  }

  lemma {:induction false} QuotedRoundTrip(f: string, rest: string)
    requires rest == "" || rest[0] != '"'
    ensures ReadQuoted(Doubled(f) + "\"" + rest) == Some((f, rest))
    decreases |f|
  {
    hide ReadQuoted;
    if f == "" {
      ReadsEnd(rest);
      assert Doubled(f) + "\"" + rest == "\"" + rest;
    } else {
      var c := if f[0] == '"' then "\"\"" else [f[0]];
      var tail := Doubled(f[1..]) + "\"" + rest;
      QuotedRoundTrip(f[1..], rest);
      ReadsOne(f[0], tail);
      assert Doubled(f) + "\"" + rest == c + tail;
      assert [f[0]] + f[1..] == f;
    }
  }

  predicate Separator(rest: string) {
    rest != "" && (rest[0] == ',' || rest[0] == '\n')
  }

  /** Any field that went through `escapeCSV` is read back exactly. */
  lemma EscapedRoundTrip(f: string, rest: string)
    requires Separator(rest)
    ensures ReadField(EscapeCsv(f) + rest) == Some((f, rest))
  {
    hide ReadBare, ReadQuoted, Doubled;
    if Plain(f) {
      BareRoundTrip(f, rest);
      assert f + rest != "" && (f + rest)[0] != '"';
    } else {
      QuotedRoundTrip(f, rest);
      assert (EscapeCsv(f) + rest)[1..] == Doubled(f) + "\"" + rest;
    }
  }

  lemma {:induction false} BareIsPlain(s: string)
    ensures Plain(ReadBare(s).0) && s == ReadBare(s).0 + ReadBare(s).1
    decreases |s|
  {
    if s != "" && !Special(s[0]) { BareIsPlain(s[1..]); }
  }

  /** A field written without `escapeCSV` is read back exactly if and only if it has no comma, quote
      or line feed: this is what role, mode, times and numbers owe to their own validators. */
  lemma BareFieldNeedsPlain(f: string, rest: string)
    requires Separator(rest)
    ensures ReadField(f + rest) == Some((f, rest)) <==> Plain(f)
  {
    if Plain(f) {
      BareRoundTrip(f, rest);
      assert (f + rest)[0] != '"';
    } else if ReadField(f + rest) == Some((f, rest)) {
      if (f + rest)[0] == '"' {
        QuotedLonger((f + rest)[1..]);
      } else {
        BareIsPlain(f + rest);
      }
    }
  }

  /** A quoted field takes at least one character more than it yields, besides the opening quote. */
  lemma {:induction false} QuotedLonger(s: string)
    ensures ReadQuoted(s).Some? ==> |ReadQuoted(s).value.0| + |ReadQuoted(s).value.1| < |s|
    decreases |s|
  {
    if s != "" {
      QuotedLonger(s[1..]);
      if |s| >= 2 { QuotedLonger(s[2..]); }
    }
  }

  lemma {:induction false} DecimalIsPlain(n: nat)
    ensures Plain(Decimal(n))
  {
    if n >= 10 { DecimalIsPlain(n / 10); }
  }

  lemma ValidatedIsPlain(u: User)
    requires Validated(u)
    ensures Plain(Decimal(u.id)) && Plain(u.role) && Plain(u.mode) && Plain(u.created)
    ensures Plain(u.lastLogin) && Plain(Itoa(u.logins)) && Plain(u.disabledAt)
  {
    DecimalIsPlain(u.id);
    DecimalIsPlain(if u.logins < 0 then -u.logins else u.logins);
  }

  /** A record with every field escaped. */
  function Row(fs: seq<string>): string
    requires fs != []
  {
    if |fs| == 1 then EscapeCsv(fs[0]) + "\n" else Cell(EscapeCsv(fs[0]), Row(fs[1..]))
  }

  lemma {:induction false} RowRoundTrip(fs: seq<string>, tail: string)
    requires fs != []
    ensures ReadRecord(Row(fs) + tail) == Some((fs, tail))
    decreases |fs|
  {
    if |fs| == 1 {
      assert fs == [fs[0]];
      EscapedRoundTrip(fs[0], "\n" + tail);
      assert Row(fs) + tail == EscapeCsv(fs[0]) + ("\n" + tail);
      assert ("\n" + tail)[1..] == tail;
    } else {
      assert fs == [fs[0]] + fs[1..];
      var rest := Row(fs[1..]) + tail;
      RowRoundTrip(fs[1..], tail);
      EscapedRoundTrip(fs[0], "," + rest);
      assert Row(fs) + tail == EscapeCsv(fs[0]) + ("," + rest);
      assert ("," + rest)[1..] == rest;
    }
  }

  lemma RowNext(fs: seq<string>, k: nat)
    requires k + 1 < |fs|
    ensures Row(fs[k..]) == Cell(EscapeCsv(fs[k]), Row(fs[k + 1..]))
  {
    assert fs[k..][1..] == fs[k + 1..];
  }

  /** Nine plain cells are a row. */
  lemma RowOfNine(fs: seq<string>, cells: seq<string>)
    requires |fs| == |cells| == 9 && forall i | 0 <= i < 9 :: cells[i] == EscapeCsv(fs[i])
    ensures Row(fs) == NineCells(cells)
  {
    RowNext(fs, 7);
    RowNext(fs, 6);
    RowNext(fs, 5);
    RowNext(fs, 4);
    RowNext(fs, 3);
    RowNext(fs, 2);
    RowNext(fs, 1);
    RowNext(fs, 0);
    assert fs[0..] == fs;
  }

  /** The exporter escapes two fields of nine; for a validated user that is as good as all. */
  lemma LineIsRow(u: User)
    requires Validated(u)
    ensures Line(u) == Row(Fields(u))
  {
    ValidatedIsPlain(u);
    RowOfNine(Fields(u), Cells(u));
  }

  function Records(users: seq<User>): seq<seq<string>> {
    if users == [] then [] else [Fields(users[0])] + Records(users[1..])
  }

  lemma {:induction false} LinesRoundTrip(users: seq<User>)
    requires forall i | 0 <= i < |users| :: Validated(users[i])
    ensures ReadCsv(Lines(users)) == Some(Records(users))
    decreases |users|
  {
    if users != [] {
      LineIsRow(users[0]);
      RowRoundTrip(Fields(users[0]), Lines(users[1..]));
      LinesRoundTrip(users[1..]);
    }
  }

  lemma RowThenLines(columns: seq<string>, users: seq<User>)
    requires columns != [] && forall i | 0 <= i < |users| :: Validated(users[i])
    ensures ReadCsv(Row(columns) + Lines(users)) == Some([columns] + Records(users))
  {
    RowRoundTrip(columns, Lines(users));
    LinesRoundTrip(users);
  }

  lemma ColumnsArePlain()
    ensures forall i | 0 <= i < |COLUMNS| :: Plain(COLUMNS[i])
  {
  }

  lemma HeaderIsRow()
    ensures HEADER == Row(COLUMNS)
  {
    ColumnsArePlain();
    RowOfNine(COLUMNS, COLUMNS);
  }

  /** A CSV reader recovers every field of every exported user exactly, arbitrary names and emails
      included, in the order of the table. */
  lemma ExportRoundTrip(users: seq<User>)
    requires forall i | 0 <= i < |users| :: Validated(users[i])
    ensures ReadCsv(HEADER + Lines(users)) == Some([COLUMNS] + Records(users))
  {
    HeaderIsRow();
    RowThenLines(COLUMNS, users);
  }

  // ---------------------------------------------------------------- numbers

  /** The number that decimal digits spell. */
  function Number(s: string): int {
    if s == "" then 0 else Number(s[..|s| - 1]) * 10 + (s[|s| - 1] as int - '0' as int)
  }

  /** The number of a cell, with its sign. */
  function Signed(s: string): int {
    if s != "" && s[0] == '-' then -Number(s[1..]) else Number(s)
  }

  lemma {:induction false} DecimalSpells(n: nat)
    ensures Number(Decimal(n)) == n
    ensures Decimal(n) != "" && forall i | 0 <= i < |Decimal(n)| :: '0' <= Decimal(n)[i] <= '9'
    ensures n >= 10 ==> Decimal(n)[0] != '0'
    decreases n
  {
    if n >= 10 {
      DecimalSpells(n / 10);
      var s := Decimal(n);
      assert s[..|s| - 1] == Decimal(n / 10);
      assert n / 10 < 10 ==> Decimal(n / 10)[0] == '0' + (n / 10) as char;
    } else {
      assert Decimal(n)[..0] == "";
      assert Number("") == 0;
    }
  }

  /** So the ids and login counts of the export are recovered as numbers, and no two users share an id cell. */
  lemma NumbersRoundTrip(u: User, v: User)
    ensures Signed(Fields(u)[0]) == u.id && Signed(Fields(u)[7]) == u.logins
    ensures Fields(u)[0] == Fields(v)[0] ==> u.id == v.id
  {
    DecimalSpells(u.id);
    DecimalSpells(v.id);
    var m: nat := if u.logins < 0 then -u.logins else u.logins;
    DecimalSpells(m);
    assert ("-" + Decimal(m))[1..] == Decimal(m);
  }
}
