/**
 * The statement texts of the four SQL repositories, and a reader for them.
 *
 * `create`, `get`, `update` and `delete` paste a table name, column names and
 * placeholders into a text; the values travel beside it. The reader below is
 * written from the SQL grammar, not from the builders: a scanner for words,
 * punctuation and the three placeholder styles, then a parser. The round-trip
 * lemmas say what the server understands when it is sent such a text.
 */
module SqlText {
  import opened Text

  datatype Dialect = Postgres | Oracle | MySql | Cassandra

  /** A plain SQL identifier, or several joined by dots. */
  predicate IsTable(s: string) {
    && s != "" && AllIn(WordChars, s) && !IsDigit(s[0]) && s[0] != '.' && s[|s| - 1] != '.'
    && forall i :: 0 <= i < |s| - 1 && s[i] == '.' ==> s[i + 1] != '.' && !IsDigit(s[i + 1])
  }

  /** A plain SQL identifier. */
  predicate IsName(s: string) {
    IsTable(s) && '.' !in s
  }

  predicate AllNames(names: seq<string>) {
    forall i :: 0 <= i < |names| ==> IsName(names[i])
  }

  // ---- the builders ----

  /** The i-th placeholder, counted from 1. */
  function Placeholder(d: Dialect, i: nat): string {
    match d
    case Postgres => "$" + Decimal(i)
    case Oracle => ":" + Decimal(i)
    case MySql => "%s"
    case Cassandra => "%s"
  }

  /** The placeholders numbered k+1, ..., k+n. */
  function Placeholders(d: Dialect, k: nat, n: nat): (parts: seq<string>)
    ensures |parts| == n
    decreases n
  {
    if n == 0 then [] else [Placeholder(d, k + 1)] + Placeholders(d, k + 1, n - 1)
  }

  /** `col = placeholder` for each column, numbered from k+1. */
  function SetParts(d: Dialect, cols: seq<string>, k: nat): (parts: seq<string>)
    ensures |parts| == |cols|
  {
    if cols == [] then []
    else [cols[0] + " = " + Placeholder(d, k + 1)] + SetParts(d, cols[1..], k + 1)
  }

  function Returning(d: Dialect): string {
    if d == Postgres then " RETURNING *" else ""
  }

  function InsertText(d: Dialect, table: string, cols: seq<string>): string {
    "INSERT INTO " + table + " (" + Join(", ", cols) + ") VALUES ("
    + Join(", ", Placeholders(d, 0, |cols|)) + ")" + Returning(d)
  }

  function UpdateText(d: Dialect, table: string, cols: seq<string>, id: string): string {
    "UPDATE " + table + " SET " + Join(", ", SetParts(d, cols, 0))
    + " WHERE " + id + " = " + Placeholder(d, |cols| + 1) + Returning(d)
  }

  function SelectText(d: Dialect, table: string, id: string): string {
    "SELECT * FROM " + table + " WHERE " + id + " = " + Placeholder(d, 1)
    + (if d == Oracle then "" else " LIMIT 1")
  }

  function DeleteText(d: Dialect, table: string, id: string): string {
    "DELETE FROM " + table + " WHERE " + id + " = " + Placeholder(d, 1)
  }

  // ---- the scanner ----

  datatype Token = Word(text: string) | Hole(number: nat) | NextHole | Punct(c: char)

  /** The character that starts a placeholder. */
  function Sigil(d: Dialect): char {
    match d
    case Postgres => '$'
    case Oracle => ':'
    case MySql => '%'
    case Cassandra => '%'
  }

  predicate Numbers(d: Dialect) {
    d == Postgres || d == Oracle
  }

  /** The length of the first lexeme: a blank, a word, a placeholder or one character. */
  function Chunk(d: Dialect, s: string): (n: nat)
    requires s != ""
    ensures 0 < n <= |s|
  {
    if IsWordChar(s[0]) then Span(WordChars, s)
    else if s[0] != Sigil(d) then 1
    else if Numbers(d) then 1 + Span(Digits, s[1..])
    else if |s| > 1 && s[1] == 's' then 2
    else 1
  }

  /** What one lexeme means. */
  function Read(d: Dialect, s: string): seq<Token>
    requires s != ""
  {
    if s[0] == ' ' then []
    else if IsWordChar(s[0]) then [Word(s)]
    else if s[0] == Sigil(d) && |s| > 1 then
      if Numbers(d) && AllIn(Digits, s[1..]) then [Hole(ParseDecimal(s[1..]))] else [NextHole]
    else [Punct(s[0])]
  }

  function Lex(d: Dialect, s: string): seq<Token> {
    if s == "" then [] else Read(d, s[..Chunk(d, s)]) + Lex(d, s[Chunk(d, s)..])
  }

  /** A text may be scanned in two pieces when it is cut beside a separator. */
  predicate Cut(a: string, b: string) {
    a == "" || b == "" || !IsWordChar(b[0]) || a[|a| - 1] in " (),=*"
  }

  lemma {:induction false} SpanCut(k: Class, a: string, b: string)
    requires Span(k, a) < |a| || Ends(k, b)
    ensures Span(k, a + b) == Span(k, a)
  {
    if a == "" {
      assert a + b == b;
    } else if In(k, a[0]) {
      SpanCut(k, a[1..], b);
      assert (a + b)[1..] == a[1..] + b;
    }
  }

  /** A run of digits or word characters stops at a cut. */
  lemma CutStops(k: Class, a: string, b: string)
    requires Cut(a, b) && (k == Digits || k == WordChars)
    ensures a == "" || Span(k, a) < |a| || Ends(k, b)
  {
    if a != "" && b != "" && IsWordChar(b[0]) {
      assert !In(k, a[|a| - 1]);
      assert a[..|a|] == a;
    }
  }

  lemma ChunkCut(d: Dialect, a: string, b: string)
    requires a != "" && Cut(a, b)
    ensures Chunk(d, a + b) == Chunk(d, a)
  {
    assert (a + b)[1..] == a[1..] + b;
    if IsWordChar(a[0]) {
      CutStops(WordChars, a, b);
      SpanCut(WordChars, a, b);
    } else if a[0] == Sigil(d) && Numbers(d) {
      CutStops(Digits, a[1..], b);
      SpanCut(Digits, a[1..], b);
    }
  }

  lemma {:induction false} LexCut(d: Dialect, a: string, b: string)
    requires Cut(a, b)
    ensures Lex(d, a + b) == Lex(d, a) + Lex(d, b)
    decreases |a|
  {
    hide Chunk, Read;
    if a == "" {
      assert a + b == b;
    } else {
      var n := Chunk(d, a);
      ChunkCut(d, a, b);
      assert (a + b)[..n] == a[..n] && (a + b)[n..] == a[n..] + b;
      LexCut(d, a[n..], b);
    }
  }

  // ---- the parser ----

  /** What a statement asks for; placeholders are numbers counted from 1. */
  datatype Statement =
    | Insert(table: string, cols: seq<string>, holes: seq<nat>, returning: bool)
    | Update(table: string, sets: seq<(string, nat)>, id: string, idHole: nat, returning: bool)
    | Select(table: string, id: string, idHole: nat)
    | Delete(table: string, id: string, idHole: nat)

  /** A parsed part, the tokens after it and the number of the next `%s`. */
  datatype Reading<+T> = Got(value: T, rest: seq<Token>, next: nat) | Syntax

  function ReadHole(ts: seq<Token>, next: nat): (r: Reading<nat>)
    ensures r.Got? ==> |r.rest| < |ts|
  {
    if ts == [] then Syntax
    else match ts[0]
      case Hole(n) => Got(n, ts[1..], next)
      case NextHole => Got(next, ts[1..], next + 1)
      case _ => Syntax
  }

  predicate StartsWith(ts: seq<Token>, c: char) {
    ts != [] && ts[0] == Punct(c)
  }

  function ReadNames(ts: seq<Token>): Reading<seq<string>> {
    if ts == [] || !ts[0].Word? then Syntax
    else if !StartsWith(ts[1..], ',') then Got([ts[0].text], ts[1..], 1)
    else
      var more := ReadNames(ts[2..]);
      if more.Syntax? then Syntax else more.(value := [ts[0].text] + more.value)
  }

  function ReadHoles(ts: seq<Token>, next: nat): Reading<seq<nat>>
    decreases |ts|
  {
    var first := ReadHole(ts, next);
    if first.Syntax? then Syntax
    else if !StartsWith(first.rest, ',') then Got([first.value], first.rest, first.next)
    else
      var more := ReadHoles(first.rest[1..], first.next);
      if more.Syntax? then Syntax else more.(value := [first.value] + more.value)
  }

  /** `col = placeholder`. */
  function ReadSet(ts: seq<Token>, next: nat): (r: Reading<(string, nat)>)
    ensures r.Got? ==> |r.rest| < |ts|
  {
    if |ts| < 2 || !ts[0].Word? || ts[1] != Punct('=') then Syntax
    else
      var hole := ReadHole(ts[2..], next);
      if hole.Syntax? then Syntax else Got((ts[0].text, hole.value), hole.rest, hole.next)
  }

  function ReadSets(ts: seq<Token>, next: nat): Reading<seq<(string, nat)>>
    decreases |ts|
  {
    var first := ReadSet(ts, next);
    if first.Syntax? then Syntax
    else if !StartsWith(first.rest, ',') then Got([first.value], first.rest, first.next)
    else
      var more := ReadSets(first.rest[1..], first.next);
      if more.Syntax? then Syntax else more.(value := [first.value] + more.value)
  }

  /** `WHERE col = placeholder`. */
  function ReadWhere(ts: seq<Token>, next: nat): Reading<(string, nat)> {
    if ts == [] || ts[0] != Word("WHERE") then Syntax else ReadSet(ts[1..], next)
  }

  const RETURNING_ALL: seq<Token> := [Word("RETURNING"), Punct('*')]
  const LIMIT_ONE: seq<Token> := [Word("LIMIT"), Word("1")]

  /** The tail after the last clause: nothing, or what only Postgres may add. */
  predicate Tail(d: Dialect, ts: seq<Token>) {
    ts == [] || (d == Postgres && ts == RETURNING_ALL)
  }

  function ParseInsert(d: Dialect, table: string, ts: seq<Token>): Option<Statement> {
    if d == MySql && ts == [Punct(')'), Word("VALUES"), Punct('('), Punct(')')] then
      Some(Insert(table, [], [], false))
    else
      var names := ReadNames(ts);
      if names.Syntax? || !([Punct(')'), Word("VALUES"), Punct('(')] <= names.rest) then None
      else
        var holes := ReadHoles(names.rest[3..], 1);
        if holes.Syntax? || !StartsWith(holes.rest, ')') || !Tail(d, holes.rest[1..]) then None
        else Some(Insert(table, names.value, holes.value, holes.rest[1..] != []))
  }

  function ParseUpdate(d: Dialect, table: string, ts: seq<Token>): Option<Statement> {
    var sets := ReadSets(ts, 1);
    if sets.Syntax? then None
    else
      var id := ReadWhere(sets.rest, sets.next);
      if id.Syntax? || !Tail(d, id.rest) then None
      else Some(Update(table, sets.value, id.value.0, id.value.1, id.rest != []))
  }

  function ReadStatement(d: Dialect, text: string): Option<Statement> {
    var ts := Lex(d, text);
    if |ts| < 4 then None
    else if ts[0] == Word("INSERT") then
      if ts[1] == Word("INTO") && ts[2].Word? && ts[3] == Punct('(')
      then ParseInsert(d, ts[2].text, ts[4..]) else None
    else if ts[0] == Word("UPDATE") then
      if ts[1].Word? && ts[2] == Word("SET") then ParseUpdate(d, ts[1].text, ts[3..]) else None
    else if ts[0] == Word("SELECT") then
      var id := ReadWhere(ts[4..], 1);
      if ts[1] == Punct('*') && ts[2] == Word("FROM") && ts[3].Word? && id.Got?
         && (id.rest == [] || (d != Oracle && id.rest == LIMIT_ONE))
      then Some(Select(ts[3].text, id.value.0, id.value.1)) else None
    else if ts[0] == Word("DELETE") then
      var id := ReadWhere(ts[3..], 1);
      if ts[1] == Word("FROM") && ts[2].Word? && id.Got? && id.rest == []
      then Some(Delete(ts[2].text, id.value.0, id.value.1)) else None
    else None
  }

  function Names(sets: seq<(string, nat)>): seq<string> {
    seq(|sets|, i requires 0 <= i < |sets| => sets[i].0)
  }

  /** Names stand where names must stand, and only MySQL inserts no column. */
  predicate WellNamed(d: Dialect, s: Statement) {
    && IsTable(s.table)
    && match s
       case Insert(_, cols, _, _) => AllNames(cols) && (cols == [] ==> d == MySql)
       case Update(_, sets, id, _, _) => AllNames(Names(sets)) && sets != [] && IsName(id)
       case Select(_, id, _) => IsName(id)
       case Delete(_, id, _) => IsName(id)
  }

  /** What the server understands; None is a syntax error. */
  function Parse(d: Dialect, text: string): Option<Statement> {
    var s := ReadStatement(d, text);
    if s.Some? && WellNamed(d, s.value) then s else None
  }

  // ---- what the scanner makes of each piece ----

  function HoleToken(d: Dialect, i: nat): Token {
    if Numbers(d) then Hole(i) else NextHole
  }

  lemma LexWord(d: Dialect, w: string)
    requires w != "" && AllIn(WordChars, w)
    ensures Lex(d, w) == [Word(w)]
  {
    SpanExact(WordChars, w, "");
    assert w + "" == w && w[..|w|] == w && w[|w|..] == "";
  }

  lemma LexName(d: Dialect, w: string)
    requires IsTable(w)
    ensures Lex(d, w) == [Word(w)]
  {
    hide Lex;
    LexWord(d, w);
  }

  lemma LexHole(d: Dialect, i: nat)
    ensures Lex(d, Placeholder(d, i)) == [HoleToken(d, i)]
  {
    var s := Placeholder(d, i);
    if Numbers(d) {
      DecimalRoundTrip(i);
      assert s[1..] == Decimal(i) && Decimal(i) + "" == Decimal(i);
      SpanExact(Digits, Decimal(i), "");
    }
    assert Chunk(d, s) == |s|;
    assert s[..|s|] == s && s[|s|..] == "";
  }

  /** The tokens of parts joined by commas. */
  function Commas(d: Dialect, parts: seq<string>): seq<Token> {
    if parts == [] then []
    else if |parts| == 1 then Lex(d, parts[0])
    else Lex(d, parts[0]) + [Punct(',')] + Commas(d, parts[1..])
  }

  lemma LexSetPart(d: Dialect, col: string, i: nat)
    requires IsName(col)
    ensures Lex(d, col + " = " + Placeholder(d, i)) == [Word(col), Punct('='), HoleToken(d, i)]
  {
    hide Lex, Placeholder, IsTable;
    LexCut(d, col + " = ", Placeholder(d, i));
    LexCut(d, col, " = ");
    LexName(d, col);
    LexHole(d, i);
    LexFixed(d);
  }

  lemma LexChar(d: Dialect, c: char)
    requires c in " =()*,"
    ensures Lex(d, [c]) == if c == ' ' then [] else [Punct(c)]
  {
    assert [c][..1] == [c] && [c][1..] == "";
  }

  lemma LexPair(d: Dialect, c: char, e: char)
    requires c in " =()*," && e in " =()*,"
    ensures Lex(d, [c, e]) == Lex(d, [c]) + Lex(d, [e])
  {
    hide Lex;
    assert [c, e] == [c] + [e];
    LexCut(d, [c], [e]);
  }

  lemma LexTriple(d: Dialect, c: char, e: char, f: char)
    requires c in " =()*," && e in " =()*," && f in " =()*,"
    ensures Lex(d, [c, e, f]) == Lex(d, [c]) + Lex(d, [e]) + Lex(d, [f])
  {
    hide Lex;
    LexPair(d, c, e);
    assert [c, e, f] == [c, e] + [f];
    LexCut(d, [c, e], [f]);
  }

  /** The fixed pieces of the texts. */
  lemma LexFixed(d: Dialect)
    ensures Lex(d, " ") == []
    ensures Lex(d, " = ") == [Punct('=')]
    ensures Lex(d, " (") == [Punct('(')]
    ensures Lex(d, ")") == [Punct(')')]
    ensures Lex(d, ", ") == [Punct(',')]
    ensures Lex(d, " * ") == [Punct('*')]
    ensures Lex(d, " *") == [Punct('*')]
  {
    hide Lex;
    LexChar(d, ' ');
    LexChar(d, '=');
    LexChar(d, '*');
    LexChar(d, '(');
    LexChar(d, ')');
    LexChar(d, ',');
    LexPair(d, ' ', '*');
    LexPair(d, ' ', '(');
    LexPair(d, ',', ' ');
    LexTriple(d, ' ', '=', ' ');
    LexTriple(d, ' ', '*', ' ');
  }

  lemma {:induction false} LexJoin(d: Dialect, parts: seq<string>)
    ensures Lex(d, Join(", ", parts)) == Commas(d, parts)
  {
    if |parts| > 1 {
      var tail := Join(", ", parts[1..]);
      LexJoin(d, parts[1..]);
      LexCut(d, parts[0] + ", ", tail);
      LexCut(d, parts[0], ", ");
      LexFixed(d);
    }
  }

  /** A word with a blank on either side. */
  lemma LexSpaced(d: Dialect, w: string)
    requires w != "" && AllIn(WordChars, w)
    ensures Lex(d, " " + w) == [Word(w)]
    ensures Lex(d, w + " ") == [Word(w)]
    ensures Lex(d, " " + w + " ") == [Word(w)]
  {
    hide Lex;
    LexFixed(d);
    LexWord(d, w);
    LexCut(d, " ", w);
    LexCut(d, w, " ");
    LexCut(d, " " + w, " ");
  }

  // ---- what the parser makes of the lists ----

  /** k+1, ..., k+n. */
  function Numerals(k: nat, n: nat): seq<nat> {
    seq(n, i requires 0 <= i < n => k + 1 + i)
  }

  /** Each column with its number, counted from k+1. */
  function Sets(cols: seq<string>, k: nat): seq<(string, nat)> {
    seq(|cols|, i requires 0 <= i < |cols| => (cols[i], k + 1 + i))
  }

  /** The number of the next `%s` after k placeholders. */
  function Mark(d: Dialect, k: nat): nat {
    if Numbers(d) then 1 else k + 1
  }

  /** The tokens of a list: its first part, and what follows after a comma. */
  lemma CommasStep(d: Dialect, parts: seq<string>, rest: seq<Token>)
    requires parts != []
    ensures Commas(d, parts) + rest
         == Lex(d, parts[0]) + (if |parts| == 1 then rest else [Punct(',')] + (Commas(d, parts[1..]) + rest))
  {
    hide Lex;
  }

  /** One name, and what follows it when a comma does. */
  lemma NameRead(col: string, rest: seq<Token>)
    ensures !StartsWith(rest, ',') ==> ReadNames([Word(col)] + rest) == Got([col], rest, 1)
    ensures ReadNames(rest).Got? ==>
      ReadNames([Word(col)] + ([Punct(',')] + rest)) == ReadNames(rest).(value := [col] + ReadNames(rest).value)
  {
    assert ([Word(col)] + rest)[1..] == rest;
    assert ([Word(col)] + ([Punct(',')] + rest))[2..] == rest;
  }

  lemma {:induction false} NamesRead(d: Dialect, cols: seq<string>, rest: seq<Token>)
    requires cols != [] && AllNames(cols) && !StartsWith(rest, ',')
    ensures ReadNames(Commas(d, cols) + rest) == Got(cols, rest, 1)
  {
    hide Lex, IsTable, Commas, ReadNames;
    LexName(d, cols[0]);
    CommasStep(d, cols, rest);
    if |cols| == 1 {
      assert cols == [cols[0]];
      NameRead(cols[0], rest);
    } else {
      assert cols == [cols[0]] + cols[1..];
      NamesRead(d, cols[1..], rest);
      NameRead(cols[0], Commas(d, cols[1..]) + rest);
    }
  }

  /** One placeholder, and what follows it when a comma does. */
  lemma HoleRead(d: Dialect, k: nat, rest: seq<Token>)
    ensures ReadHole([HoleToken(d, k + 1)] + rest, Mark(d, k)) == Got(k + 1, rest, Mark(d, k + 1))
    ensures !StartsWith(rest, ',') ==>
      ReadHoles([HoleToken(d, k + 1)] + rest, Mark(d, k)) == Got([k + 1], rest, Mark(d, k + 1))
  {
    assert ([HoleToken(d, k + 1)] + rest)[1..] == rest;
  }

  lemma {:induction false} HolesRead(d: Dialect, k: nat, n: nat, rest: seq<Token>)
    requires n > 0 && !StartsWith(rest, ',')
    ensures ReadHoles(Commas(d, Placeholders(d, k, n)) + rest, Mark(d, k))
         == Got(Numerals(k, n), rest, Mark(d, k + n))
    decreases n
  {
    hide Lex, ReadHole, Placeholder, HoleToken, Mark, Commas;
    LexHole(d, k + 1);
    var parts := Placeholders(d, k, n);
    CommasStep(d, parts, rest);
    if n == 1 {
      assert Numerals(k, n) == [k + 1];
      HoleRead(d, k, rest);
    } else {
      var more := Commas(d, parts[1..]) + rest;
      HolesRead(d, k + 1, n - 1, rest);
      assert Numerals(k, n) == [k + 1] + Numerals(k + 1, n - 1);
      HoleRead(d, k, [Punct(',')] + more);
      assert ([Punct(',')] + more)[1..] == more;
    }
  }

  lemma SetRead(d: Dialect, col: string, k: nat, rest: seq<Token>)
    ensures ReadSet([Word(col), Punct('='), HoleToken(d, k + 1)] + rest, Mark(d, k))
         == Got((col, k + 1), rest, Mark(d, k + 1))
  {
    hide ReadHole;
    HoleRead(d, k, rest);
    var ts := [Word(col), Punct('='), HoleToken(d, k + 1)] + rest;
    assert ts[2..] == [HoleToken(d, k + 1)] + rest;
  }

  lemma {:induction false} SetsRead(d: Dialect, cols: seq<string>, k: nat, rest: seq<Token>)
    requires cols != [] && AllNames(cols) && !StartsWith(rest, ',')
    ensures ReadSets(Commas(d, SetParts(d, cols, k)) + rest, Mark(d, k))
         == Got(Sets(cols, k), rest, Mark(d, k + |cols|))
    decreases |cols|
  {
    hide Lex, ReadSet, Placeholder, HoleToken, Mark, Commas, IsTable;
    LexSetPart(d, cols[0], k + 1);
    var parts := SetParts(d, cols, k);
    CommasStep(d, parts, rest);
    if |cols| == 1 {
      assert Sets(cols, k) == [(cols[0], k + 1)];
      SetRead(d, cols[0], k, rest);
    } else {
      var more := Commas(d, parts[1..]) + rest;
      SetsRead(d, cols[1..], k + 1, rest);
      assert Sets(cols, k) == [(cols[0], k + 1)] + Sets(cols[1..], k + 1);
      SetRead(d, cols[0], k, [Punct(',')] + more);
      assert ([Punct(',')] + more)[1..] == more;
    }
  }

  // ---- the round trips ----

  lemma Regroup<T>(a: seq<T>, b: seq<T>, c: seq<T>, d: seq<T>, e: seq<T>, f: seq<T>)
    ensures a + b + c + d + e + f == a + (b + (c + (d + (e + f))))
  {
  }

  function ReturningTokens(d: Dialect): seq<Token> {
    if d == Postgres then RETURNING_ALL else []
  }

  lemma LexNothing(d: Dialect)
    ensures Lex(d, "") == []
  {
  }

  /** A keyword of the texts with a blank on either side. */
  lemma LexKeyword(d: Dialect, w: string)
    requires w in {"INSERT", "INTO", "VALUES", "UPDATE", "SET", "SELECT", "DELETE", "FROM", "WHERE", "LIMIT",
                   "RETURNING"}
    ensures Lex(d, " " + w) == [Word(w)]
    ensures Lex(d, w + " ") == [Word(w)]
    ensures Lex(d, " " + w + " ") == [Word(w)]
  {
    hide Lex;
    LexSpaced(d, w);
  }

  lemma LexReturning(d: Dialect)
    ensures Lex(d, Returning(d)) == ReturningTokens(d)
  {
    hide Lex;
    if d == Postgres {
      var w := "RETURNING";
      LexKeyword(d, w);
      LexFixed(d);
      LexCut(d, " " + w, " *");
      assert " " + w + " *" == " RETURNING *";
    } else {
      LexNothing(d);
    }
  }

  lemma LexInsertPieces(d: Dialect)
    ensures Lex(d, "INSERT INTO ") == [Word("INSERT"), Word("INTO")]
    ensures Lex(d, ") VALUES (") == [Punct(')'), Word("VALUES"), Punct('(')]
  {
    hide Lex;
    LexKeyword(d, "INSERT");
    LexKeyword(d, "INTO");
    LexKeyword(d, "VALUES");
    LexFixed(d);
    var insert, values := "INSERT" + " ", " " + "VALUES";
    LexCut(d, insert, "INTO" + " ");
    assert insert + ("INTO" + " ") == "INSERT INTO ";
    LexCut(d, values, " (");
    LexCut(d, ")", values + " (");
    assert ")" + (values + " (") == ") VALUES (";
  }

  /** The tokens after `INSERT INTO table (`. */
  function InsertRest(d: Dialect, cols: seq<string>): seq<Token> {
    Commas(d, cols) + ([Punct(')'), Word("VALUES"), Punct('(')]
    + (Commas(d, Placeholders(d, 0, |cols|)) + ([Punct(')')] + ReturningTokens(d))))
  }

  lemma LexInsert(d: Dialect, table: string, cols: seq<string>)
    requires IsTable(table)
    ensures Lex(d, InsertText(d, table, cols))
         == [Word("INSERT"), Word("INTO"), Word(table), Punct('(')] + InsertRest(d, cols)
  {
    hide Lex, Commas, Placeholders, ReturningTokens, IsTable;
    var names, holes := Join(", ", cols), Join(", ", Placeholders(d, 0, |cols|));
    var t1 := "INSERT INTO " + table;
    var t2 := t1 + " (";
    var t3 := t2 + names;
    var t4 := t3 + ") VALUES (";
    var t5 := t4 + holes;
    LexInsertPieces(d);
    LexFixed(d);
    LexName(d, table);
    LexJoin(d, cols);
    LexJoin(d, Placeholders(d, 0, |cols|));
    LexReturning(d);
    LexCut(d, "INSERT INTO ", table);
    LexCut(d, t1, " (");
    LexCut(d, t2, names);
    LexCut(d, t3, ") VALUES (");
    LexCut(d, t4, holes);
    LexCut(d, t5, ")");
    LexCut(d, t5 + ")", Returning(d));
    Regroup([Word("INSERT"), Word("INTO")] + [Word(table)] + [Punct('(')], Commas(d, cols),
            [Punct(')'), Word("VALUES"), Punct('(')], Commas(d, Placeholders(d, 0, |cols|)),
            [Punct(')')], ReturningTokens(d));
  }

  lemma InsertParsed(d: Dialect, table: string, cols: seq<string>)
    requires cols != [] && AllNames(cols)
    ensures ParseInsert(d, table, InsertRest(d, cols))
         == Some(Insert(table, cols, Numerals(0, |cols|), d == Postgres))
  {
    hide Lex, ReadHoles, ReadNames, Placeholders;
    var tail := [Punct(')')] + ReturningTokens(d);
    var holes := Commas(d, Placeholders(d, 0, |cols|)) + tail;
    var mid := [Punct(')'), Word("VALUES"), Punct('(')] + holes;
    NamesRead(d, cols, mid);
    HolesRead(d, 0, |cols|, tail);
    LexName(d, cols[0]);
    assert InsertRest(d, cols)[0].Word?;
    assert mid[3..] == holes && tail[1..] == ReturningTokens(d);
  }

  lemma EmptyInsertParsed(d: Dialect, table: string)
    ensures ParseInsert(d, table, InsertRest(d, []))
         == if d == MySql then Some(Insert(table, [], [], false)) else None
  {
    hide Lex, ReadHoles;
    var ts := InsertRest(d, []);
    assert ts == [Punct(')'), Word("VALUES"), Punct('(')] + ([Punct(')')] + ReturningTokens(d));
  }

  lemma InsertReads(d: Dialect, table: string, cols: seq<string>)
    requires IsTable(table) && AllNames(cols)
    ensures ReadStatement(d, InsertText(d, table, cols))
         == if cols == [] && d != MySql then None
            else Some(Insert(table, cols, Numerals(0, |cols|), d == Postgres))
  {
    hide Lex, InsertText, InsertRest, ParseInsert, Commas;
    LexInsert(d, table, cols);
    assert Lex(d, InsertText(d, table, cols))[4..] == InsertRest(d, cols);
    if cols != [] {
      InsertParsed(d, table, cols);
    } else {
      EmptyInsertParsed(d, table);
      assert Numerals(0, 0) == [];
    }
  }

  /**
   * The server reads an INSERT text as: these columns, in this order, take the
   * values 1, ..., n in this order. It does so exactly when the names are
   * names and, except for MySQL, there is a column; without one it is a
   * syntax error.
   */
  lemma InsertRoundTrip(d: Dialect, table: string, cols: seq<string>)
    ensures Parse(d, InsertText(d, table, cols)) == Some(Insert(table, cols, Numerals(0, |cols|), d == Postgres))
       <==> IsTable(table) && AllNames(cols) && (cols != [] || d == MySql)
    ensures IsTable(table) && cols == [] && d != MySql ==> Parse(d, InsertText(d, table, cols)) == None
  {
    hide ReadStatement, InsertText, IsTable, Numerals;
    if IsTable(table) && AllNames(cols) {
      InsertReads(d, table, cols);
    }
  }

  lemma LexUpdatePieces(d: Dialect)
    ensures Lex(d, "UPDATE ") == [Word("UPDATE")]
    ensures Lex(d, " SET ") == [Word("SET")]
    ensures Lex(d, " WHERE ") == [Word("WHERE")]
  {
    hide Lex;
    LexKeyword(d, "UPDATE");
    LexKeyword(d, "SET");
    LexKeyword(d, "WHERE");
    var update, set_, where := "UPDATE", " " + "SET", " " + "WHERE";
    assert update + " " == "UPDATE " && set_ + " " == " SET " && where + " " == " WHERE ";
  }

  function WhereTokens(d: Dialect, id: string, k: nat): seq<Token> {
    [Word("WHERE")] + [Word(id), Punct('='), HoleToken(d, k)]
  }

  /** ` WHERE id = placeholder`, after a text that does not matter. */
  lemma LexWhere(d: Dialect, head: string, id: string, k: nat)
    requires IsName(id)
    ensures Lex(d, head + " WHERE " + id + " = " + Placeholder(d, k)) == Lex(d, head) + WhereTokens(d, id, k)
  {
    hide Lex, Placeholder, HoleToken;
    var part := id + " = " + Placeholder(d, k);
    LexUpdatePieces(d);
    LexSetPart(d, id, k);
    LexCut(d, head, " WHERE ");
    LexCut(d, head + " WHERE ", part);
    assert head + " WHERE " + id + " = " + Placeholder(d, k) == head + " WHERE " + part;
  }

  lemma WhereRead(d: Dialect, id: string, k: nat, rest: seq<Token>)
    ensures ReadWhere(WhereTokens(d, id, k + 1) + rest, Mark(d, k)) == Got((id, k + 1), rest, Mark(d, k + 1))
  {
    hide ReadSet, HoleToken;
    SetRead(d, id, k, rest);
    var ts := WhereTokens(d, id, k + 1) + rest;
    assert ts[1..] == [Word(id), Punct('='), HoleToken(d, k + 1)] + rest;
  }

  /** The tokens after `UPDATE table SET`. */
  function UpdateRest(d: Dialect, cols: seq<string>, id: string): seq<Token> {
    Commas(d, SetParts(d, cols, 0)) + (WhereTokens(d, id, |cols| + 1) + ReturningTokens(d))
  }

  lemma LexUpdate(d: Dialect, table: string, cols: seq<string>, id: string)
    requires IsTable(table) && IsName(id)
    ensures Lex(d, UpdateText(d, table, cols, id))
         == [Word("UPDATE"), Word(table), Word("SET")] + UpdateRest(d, cols, id)
  {
    hide Lex, Commas, SetParts, ReturningTokens, WhereTokens, Placeholder, IsTable;
    var sets := Join(", ", SetParts(d, cols, 0));
    var t1 := "UPDATE " + table;
    var t2 := t1 + " SET ";
    var t3 := t2 + sets;
    LexUpdatePieces(d);
    LexName(d, table);
    LexJoin(d, SetParts(d, cols, 0));
    LexReturning(d);
    LexCut(d, "UPDATE ", table);
    LexCut(d, t1, " SET ");
    LexCut(d, t2, sets);
    LexWhere(d, t3, id, |cols| + 1);
    LexCut(d, t3 + " WHERE " + id + " = " + Placeholder(d, |cols| + 1), Returning(d));
    Regroup([Word("UPDATE")], [Word(table)], [Word("SET")], Commas(d, SetParts(d, cols, 0)),
            WhereTokens(d, id, |cols| + 1), ReturningTokens(d));
  }

  lemma UpdateReads(d: Dialect, table: string, cols: seq<string>, id: string)
    requires IsTable(table) && IsName(id) && AllNames(cols) && cols != []
    ensures ReadStatement(d, UpdateText(d, table, cols, id))
         == Some(Update(table, Sets(cols, 0), id, |cols| + 1, d == Postgres))
  {
    hide Lex, UpdateText, Commas, ReadSets, ReadWhere, SetParts;
    LexUpdate(d, table, cols, id);
    var where := WhereTokens(d, id, |cols| + 1) + ReturningTokens(d);
    assert !StartsWith(where, ',');
    SetsRead(d, cols, 0, where);
    WhereRead(d, id, |cols|, ReturningTokens(d));
    assert Lex(d, UpdateText(d, table, cols, id))[3..] == UpdateRest(d, cols, id);
    assert Mark(d, 0) == 1;
  }

  /**
   * The server reads an UPDATE text as: in the rows whose id is value n+1, set
   * these columns, in this order, to the values 1, ..., n in this order. It
   * does so exactly when the names are names and there is a column to set.
   */
  lemma UpdateRoundTrip(d: Dialect, table: string, cols: seq<string>, id: string)
    ensures Parse(d, UpdateText(d, table, cols, id))
         == Some(Update(table, Sets(cols, 0), id, |cols| + 1, d == Postgres))
       <==> IsTable(table) && IsName(id) && AllNames(cols) && cols != []
  {
    hide ReadStatement, UpdateText, IsTable, IsName;
    assert Names(Sets(cols, 0)) == cols;
    if IsTable(table) && IsName(id) && AllNames(cols) && cols != [] {
      UpdateReads(d, table, cols, id);
    }
  }

  lemma LexSelectPieces(d: Dialect)
    ensures Lex(d, "SELECT * FROM ") == [Word("SELECT"), Punct('*'), Word("FROM")]
    ensures Lex(d, "DELETE FROM ") == [Word("DELETE"), Word("FROM")]
    ensures Lex(d, " LIMIT 1") == LIMIT_ONE
  {
    hide Lex;
    LexKeyword(d, "SELECT");
    LexKeyword(d, "DELETE");
    LexKeyword(d, "FROM");
    LexKeyword(d, "LIMIT");
    LexFixed(d);
    var select, delete, from, limit := "SELECT" + " ", "DELETE" + " ", "FROM" + " ", " " + "LIMIT" + " ";
    LexChar(d, '*');
    LexChar(d, ' ');
    LexPair(d, '*', ' ');
    LexCut(d, select, "* ");
    LexCut(d, select + "* ", from);
    LexCut(d, delete, from);
    LexWord(d, "1");
    LexCut(d, limit, "1");
    assert select + "* " + from == "SELECT * FROM ";
    assert delete + from == "DELETE FROM ";
    assert limit + "1" == " LIMIT 1";
  }

  lemma LexSelect(d: Dialect, table: string, id: string)
    requires IsTable(table) && IsName(id)
    ensures Lex(d, SelectText(d, table, id))
         == [Word("SELECT"), Punct('*'), Word("FROM"), Word(table)]
            + (WhereTokens(d, id, 1) + (if d == Oracle then [] else LIMIT_ONE))
    ensures Lex(d, DeleteText(d, table, id)) == [Word("DELETE"), Word("FROM"), Word(table)] + WhereTokens(d, id, 1)
  {
    hide Lex, WhereTokens, Placeholder, IsTable;
    var t1, t2 := "SELECT * FROM " + table, "DELETE FROM " + table;
    LexSelectPieces(d);
    LexName(d, table);
    LexCut(d, "SELECT * FROM ", table);
    LexCut(d, "DELETE FROM ", table);
    LexWhere(d, t1, id, 1);
    LexWhere(d, t2, id, 1);
    LexNothing(d);
    LexCut(d, t1 + " WHERE " + id + " = " + Placeholder(d, 1), if d == Oracle then "" else " LIMIT 1");
  }

  lemma SelectReads(d: Dialect, table: string, id: string)
    requires IsTable(table) && IsName(id)
    ensures ReadStatement(d, SelectText(d, table, id)) == Some(Select(table, id, 1))
    ensures ReadStatement(d, DeleteText(d, table, id)) == Some(Delete(table, id, 1))
  {
    hide Lex, SelectText, DeleteText, ReadWhere, IsTable;
    LexSelect(d, table, id);
    var rest := if d == Oracle then [] else LIMIT_ONE;
    WhereRead(d, id, 0, rest);
    WhereRead(d, id, 0, []);
    assert Lex(d, SelectText(d, table, id))[4..] == WhereTokens(d, id, 1) + rest;
    assert Lex(d, DeleteText(d, table, id))[3..] == WhereTokens(d, id, 1) + [];
  }

  /**
   * The server reads the texts of `get` and `delete` as: the rows whose id is
   * value 1; exactly when the names are names.
   */
  lemma SelectRoundTrip(d: Dialect, table: string, id: string)
    ensures Parse(d, SelectText(d, table, id)) == Some(Select(table, id, 1)) <==> IsTable(table) && IsName(id)
    ensures Parse(d, DeleteText(d, table, id)) == Some(Delete(table, id, 1)) <==> IsTable(table) && IsName(id)
  {
    hide ReadStatement, SelectText, DeleteText, IsTable, IsName;
    if IsTable(table) && IsName(id) {
      SelectReads(d, table, id);
    }
  }

  /** The statement apart from whether it asks for the rows back. */
  function Meaning(d: Dialect, text: string): Option<Statement> {
    match Parse(d, text)
    case None => None
    case Some(s) => Some(if s.Insert? || s.Update? then s.(returning := false) else s)
  }

  /**
   * Numbered and positional texts mean the same: whatever the dialect, an
   * UPDATE sets the i-th column to value i and looks for value n+1 in the id
   * column; only Postgres also asks for the rows back.
   */
  lemma DialectsAgree(d: Dialect, e: Dialect, table: string, cols: seq<string>, id: string)
    requires IsTable(table) && IsName(id) && AllNames(cols) && cols != []
    ensures Meaning(d, UpdateText(d, table, cols, id))
         == Meaning(e, UpdateText(e, table, cols, id))
    ensures Meaning(d, InsertText(d, table, cols))
         == Meaning(e, InsertText(e, table, cols))
    ensures Parse(d, SelectText(d, table, id)) == Parse(e, SelectText(e, table, id))
    ensures Parse(d, DeleteText(d, table, id)) == Parse(e, DeleteText(e, table, id))
  {
    hide Parse, UpdateText, InsertText, SelectText, DeleteText;
    UpdateRoundTrip(d, table, cols, id);
    UpdateRoundTrip(e, table, cols, id);
    InsertRoundTrip(d, table, cols);
    InsertRoundTrip(e, table, cols);
    SelectRoundTrip(d, table, id);
    SelectRoundTrip(e, table, id);
  }
}
