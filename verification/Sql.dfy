/** The statement builder: what ExecSQL writes is read back by the SQL lexer as the values it was given. */
module Sql {

  import opened Wrappers
  import opened Text

  const QUOTE := '\''

  /** Every quote doubled. */
  function Escape(s: string): string
  {
    if s == "" then ""
    else (if s[0] == QUOTE then [QUOTE, QUOTE] else [s[0]]) + Escape(s[1..])
  }

  /** What sqlite3_exec sees of the buffer it gets as c_str(). */
  function CStr(t: string): string
  {
    if t == "" || t[0] == NUL then "" else [t[0]] + CStr(t[1..])
  }

  /** A character string literal (section 5.3 of ISO/IEC 9075-2) after its opening quote: two quotes
      stand for one, a single one ends it. The value, and the text behind the literal. */
  function LexBody(t: string): Option<(string, string)>
  {
    if t == "" then None
    else if t[0] != QUOTE then Prepend([t[0]], LexBody(t[1..]))
    else if |t| > 1 && t[1] == QUOTE then Prepend([QUOTE], LexBody(t[2..]))
    else Some(("", t[1..]))
  }

  predicate OpensQuote(t: string)
  {
    t != "" && t[0] == QUOTE
  }

  function Prepend(s: string, r: Option<(string, string)>): Option<(string, string)>
  {
    match r
    case None => None
    case Some((value, rest)) => Some((s + value, rest))
  }

  function Lex(t: string): Option<(string, string)>
  {
    if OpensQuote(t) then LexBody(t[1..]) else None
  }

  function Literal(s: string): string
  {
    [QUOTE] + Escape(s) + [QUOTE]
  }

  /** An escaped string is read as the string, whatever follows it. */
  lemma {:induction false} LexThrough(s: string, t: string)
    ensures LexBody(Escape(s) + t) == Prepend(s, LexBody(t))
  {
    if s == "" {
      assert Escape(s) + t == t;
      match LexBody(t) { case None => case Some((v, r)) => assert "" + v == v; }
    } else {
      var head := if s[0] == QUOTE then [QUOTE, QUOTE] else [s[0]];
      assert Escape(s) + t == head + (Escape(s[1..]) + t);
      assert (head + (Escape(s[1..]) + t))[|head|..] == Escape(s[1..]) + t;
      LexThrough(s[1..], t);
      match LexBody(t) { case None => case Some((v, r)) => assert [s[0]] + (s[1..] + v) == s + v; }
    }
  }

  lemma {:induction false} CStrKeeps(t: string)
    requires NUL !in t
    ensures CStr(t) == t
  {
    if t != "" {
      CStrKeeps(t[1..]);
    }
  }

  lemma {:induction false} CStrCuts(t: string, u: string)
    requires NUL !in t
    ensures CStr(t + [NUL] + u) == t
  {
    var whole := t + [NUL] + u;
    if t != "" {
      assert whole[0] == t[0] && whole[1..] == t[1..] + [NUL] + u;
      CStrCuts(t[1..], u);
    }
  }

  lemma {:induction false} EscapeKeepsNulFree(s: string)
    requires NUL !in s
    ensures NUL !in Escape(s)
  {
    if s != "" {
      EscapeKeepsNulFree(s[1..]);
    }
  }

  lemma {:induction false} EscapeAppend(s: string, t: string)
    ensures Escape(s + t) == Escape(s) + Escape(t)
  {
    if s == "" {
      assert s + t == t;
    } else {
      assert (s + t)[1..] == s[1..] + t;
      EscapeAppend(s[1..], t);
    }
  }

  /** A literal the builder writes denotes the given string exactly when that string is free of NULs and
      no quote follows the literal. */
  lemma LiteralReadBack(s: string, rest: string)
    requires NUL !in rest
    ensures Lex(CStr(Literal(s) + rest)) == Some((s, rest)) <==> NUL !in s && !OpensQuote(rest)
  {
    if NUL in s {
      var k := FirstNul(s);
      TruncatedLiteral(s, k, rest);
    } else {
      assert NUL !in Literal(s) + rest by { EscapeKeepsNulFree(s); }
      CStrKeeps(Literal(s) + rest);
      LexLiteral(s, rest);
    }
  }

  lemma LexLiteral(s: string, rest: string)
    ensures Lex(Literal(s) + rest) == Some((s, rest)) <==> !OpensQuote(rest)
  {
    var tail := [QUOTE] + rest;
    assert (Literal(s) + rest)[1..] == Escape(s) + tail;
    LexThrough(s, tail);
    EndOfLiteral(rest);
    assert s + "" == s;
  }

  /** A quote ends the literal unless another one follows: then the value goes on with a quote. */
  lemma EndOfLiteral(rest: string)
    ensures !OpensQuote(rest) ==> LexBody([QUOTE] + rest) == Some(("", rest))
    ensures OpensQuote(rest) ==> LexBody([QUOTE] + rest) == Prepend([QUOTE], LexBody(rest[1..]))
  {
    var tail := [QUOTE] + rest;
    assert tail[1..] == rest;
    if OpensQuote(rest) {
      assert tail[1] == QUOTE && tail[2..] == rest[1..];
    }
  }

  lemma FirstNul(s: string) returns (k: nat)
    requires NUL in s
    ensures k < |s| && s[k] == NUL && NUL !in s[..k]
  {
    k := 0;
    while s[k] != NUL
      invariant k < |s| && NUL !in s[..k] && NUL in s[k..]
      decreases |s| - k
    {
      assert s[k..] == [s[k]] + s[k + 1..];
      k := k + 1;
    }
  }

  /** A NUL inside the string ends the statement there, inside the literal. */
  lemma TruncatedLiteral(s: string, k: nat, rest: string)
    requires k < |s| && s[k] == NUL && NUL !in s[..k]
    ensures Lex(CStr(Literal(s) + rest)) == None
  {
    var u, v := s[..k], s[k + 1..];
    assert s == u + ([NUL] + v);
    EscapeAppend(u, [NUL] + v);
    assert ([NUL] + v)[1..] == v;
    EscapeKeepsNulFree(u);
    assert Literal(s) + rest == ([QUOTE] + Escape(u)) + [NUL] + (Escape(v) + [QUOTE] + rest);
    CStrCuts([QUOTE] + Escape(u), Escape(v) + [QUOTE] + rest);
    LexThrough(u, "");
    assert ([QUOTE] + Escape(u))[1..] == Escape(u) + "";
  }

  /* ---- the statements addFile sends with a text in them ---- */

  datatype Statement =
    | InsertIntoSources(path: string, size: nat)
    | InsertIntoArchives(id: nat, path: string)
    | SelectSource(path: string)
    | SelectArchive(path: string)

  const INSERT_SOURCE := "INSERT INTO sourcefiles (path,size) VALUES("
  const INSERT_ARCHIVE := "INSERT INTO archives (id,path) VALUES ("
  const UNLESS_THERE := ") on conflict do nothing;"
  const SOURCE_COLUMNS := "select sourcefiles.id,queue.status"
  const SOURCE_TABLES := ",archives.path from sourcefiles"
  const QUEUE_JOINED := " left join queue using (id)"
  const ARCHIVES_JOINED := " left join archives using(id)"
  const SOURCE_CHOICE := " where sourcefiles.path="
  const SELECT_SOURCE := SOURCE_COLUMNS + (SOURCE_TABLES + (QUEUE_JOINED + (ARCHIVES_JOINED + SOURCE_CHOICE)))
  const ARCHIVE_COLUMNS := "select archives.id,queue.status"
  const ARCHIVE_TABLES := " from archives"
  const ARCHIVE_CHOICE := " where archives.path="
  const SELECT_ARCHIVE := ARCHIVE_COLUMNS + (ARCHIVE_TABLES + (QUEUE_JOINED + ARCHIVE_CHOICE))

  /** What the database takes a text for: one of these statements, or something else. */
  function Parse(sql: string): Option<Statement>
  {
    if StartsWith(sql, INSERT_SOURCE) then ParseSource(sql[|INSERT_SOURCE|..])
    else if StartsWith(sql, INSERT_ARCHIVE) then ParseArchive(sql[|INSERT_ARCHIVE|..], UNLESS_THERE)
    else if StartsWith(sql, SELECT_SOURCE) then
      match Lex(sql[|SELECT_SOURCE|..])
      case Some((path, "")) => Some(SelectSource(path))
      case _ => None
    else if StartsWith(sql, SELECT_ARCHIVE) then
      match Lex(sql[|SELECT_ARCHIVE|..])
      case Some((path, "")) => Some(SelectArchive(path))
      case _ => None
    else None
  }

  function ParseSource(values: string): Option<Statement>
  {
    match Lex(values)
    case None => None
    case Some((path, t)) =>
      if !StartsWith(t, ",") then None
      else var (size, end) := ReadNumber(t[1..]); if end == ")" then Some(InsertIntoSources(path, size)) else None
  }

  function ParseArchive(values: string, ending: string): Option<Statement>
  {
    var (id, t) := ReadNumber(values);
    if !StartsWith(t, ",") then None
    else
      match Lex(t[1..])
      case None => None
      case Some((path, end)) => if end == ending then Some(InsertIntoArchives(id, path)) else None
  }

  /* The words of the statements: none has a NUL, and each tells its statement from the others. */

  lemma InsertSourceIsNulFree()
    ensures NUL !in INSERT_SOURCE
  {
  }

  lemma InsertArchiveIsNulFree()
    ensures NUL !in INSERT_ARCHIVE && NUL !in UNLESS_THERE && !OpensQuote(UNLESS_THERE)
  {
  }

  lemma SelectSourceIsNulFree()
    ensures NUL !in SELECT_SOURCE
  {
    assert NUL !in SOURCE_COLUMNS && NUL !in SOURCE_TABLES && NUL !in QUEUE_JOINED;
    assert NUL !in ARCHIVES_JOINED && NUL !in SOURCE_CHOICE;
  }

  lemma SelectArchiveIsNulFree()
    ensures NUL !in SELECT_ARCHIVE
  {
    assert NUL !in ARCHIVE_COLUMNS && NUL !in ARCHIVE_TABLES && NUL !in QUEUE_JOINED && NUL !in ARCHIVE_CHOICE;
  }

  lemma InsertWords(rest: string)
    ensures !StartsWith(INSERT_ARCHIVE + rest, INSERT_SOURCE)
  {
    assert INSERT_SOURCE[12] == 's' && INSERT_ARCHIVE[12] == 'a';
    Differ(INSERT_ARCHIVE, rest, INSERT_SOURCE, 12);
  }

  lemma SourceWords(rest: string)
    ensures !StartsWith(SELECT_SOURCE + rest, INSERT_SOURCE) && !StartsWith(SELECT_SOURCE + rest, INSERT_ARCHIVE)
  {
    assert SELECT_SOURCE[0] == SOURCE_COLUMNS[0] == 's' && INSERT_SOURCE[0] == INSERT_ARCHIVE[0] == 'I';
    Differ(SELECT_SOURCE, rest, INSERT_SOURCE, 0);
    Differ(SELECT_SOURCE, rest, INSERT_ARCHIVE, 0);
  }

  lemma ArchiveWords(rest: string)
    ensures !StartsWith(SELECT_ARCHIVE + rest, INSERT_SOURCE) && !StartsWith(SELECT_ARCHIVE + rest, INSERT_ARCHIVE)
    ensures !StartsWith(SELECT_ARCHIVE + rest, SELECT_SOURCE)
  {
    assert SELECT_ARCHIVE[0] == ARCHIVE_COLUMNS[0] && SELECT_ARCHIVE[7] == ARCHIVE_COLUMNS[7] == 'a';
    assert SELECT_SOURCE[7] == SOURCE_COLUMNS[7] == 's';
    Differ(SELECT_ARCHIVE, rest, INSERT_SOURCE, 0);
    Differ(SELECT_ARCHIVE, rest, INSERT_ARCHIVE, 0);
    Differ(SELECT_ARCHIVE, rest, SELECT_SOURCE, 7);
  }

  lemma Differ(word: string, rest: string, other: string, i: nat)
    requires i < |word| && i < |other| && word[i] != other[i]
    ensures !StartsWith(word + rest, other)
  {
    assert (word + rest)[i] == word[i];
    assert |other| <= |word + rest| ==> (word + rest)[..|other|][i] == word[i];
  }

  /** ExecSQL: the pieces of one statement, collected in a stream until the object goes away. */
  class ExecSQL {
    var ss: string

    constructor ()
      ensures ss == ""
    {
      ss := "";
    }

    method Append(s: string)
      modifies this
      ensures ss == old(ss) + s
    {
      ss := ss + s;
    }

    method AppendNumber(n: nat)
      modifies this
      ensures ss == old(ss) + Decimal(n)
    {
      ss := ss + Decimal(n);
    }

    /** What the destructor hands to sqlite3_exec. */
    method Flush() returns (sql: string)
      ensures sql == CStr(ss)
    {
      sql := CStr(ss);
    }
  }

  lemma StartsBack(word: string, t: string)
    ensures StartsWith(word + t, word) && (word + t)[|word|..] == t
  {
  }

  /** addFile's insertion of a new source is that of the given path and size. */
  method InsertSource(path: string, size: nat) returns (sql: string)
    requires NUL !in path
    ensures Parse(sql) == Some(InsertIntoSources(path, size))
  {
    sql := SourceText(INSERT_SOURCE, path, size);
    InsertSourceReadBack(path, size);
  }

  method SourceText(insert: string, path: string, size: nat) returns (sql: string)
    ensures sql == CStr(insert + [QUOTE] + Escape(path) + [QUOTE] + "," + Decimal(size) + ")")
  {
    var exec := new ExecSQL();
    exec.Append(insert);
    exec.Append([QUOTE]);
    exec.Append(Escape(path));
    exec.Append([QUOTE]);
    exec.Append(",");
    exec.AppendNumber(size);
    exec.Append(")");
    sql := exec.Flush();
    assert exec.ss == insert + [QUOTE] + Escape(path) + [QUOTE] + "," + Decimal(size) + ")";
  }

  lemma InsertSourceReadBack(path: string, size: nat)
    requires NUL !in path
    ensures Parse(CStr(INSERT_SOURCE + [QUOTE] + Escape(path) + [QUOTE] + "," + Decimal(size) + ")"))
         == Some(InsertIntoSources(path, size))
  {
    InsertSourceIsNulFree();
    SourceReadBack(INSERT_SOURCE, path, size,
                   INSERT_SOURCE + [QUOTE] + Escape(path) + [QUOTE] + "," + Decimal(size) + ")");
  }

  lemma SourceReadBack(insert: string, path: string, size: nat, text: string)
    requires NUL !in path && NUL !in insert
    requires text == insert + [QUOTE] + Escape(path) + [QUOTE] + "," + Decimal(size) + ")"
    ensures StartsWith(CStr(text), insert)
    ensures ParseSource(CStr(text)[|insert|..]) == Some(InsertIntoSources(path, size))
  {
    var tail := "," + (Decimal(size) + ")");
    RegroupSource(insert, Escape(path), Decimal(size));
    NumberTailIntact(size);
    StatementIntact(path, tail, insert);
    ReadNumberBack(size, ")");
  }

  lemma NumberTailIntact(size: nat)
    ensures var tail := "," + (Decimal(size) + ")");
            NUL !in tail && tail[0] == ',' && tail[1..] == Decimal(size) + ")"
  {
    NumbersAreNulFree(size);
  }

  lemma RegroupSource(insert: string, escaped: string, number: string)
    ensures insert + [QUOTE] + escaped + [QUOTE] + "," + number + ")"
         == insert + ([QUOTE] + escaped + [QUOTE] + ("," + (number + ")")))
  {
  }

  /** Its insertion of an archive is that of the given id and path. */
  method InsertArchive(id: nat, path: string) returns (sql: string)
    requires NUL !in path
    ensures Parse(sql) == Some(InsertIntoArchives(id, path))
  {
    sql := ArchiveText(INSERT_ARCHIVE, id, path, UNLESS_THERE);
    InsertArchiveReadBack(id, path);
  }

  method ArchiveText(insert: string, id: nat, path: string, end: string) returns (sql: string)
    ensures sql == CStr(insert + Decimal(id) + "," + [QUOTE] + Escape(path) + [QUOTE] + end)
  {
    var exec := new ExecSQL();
    exec.Append(insert);
    exec.AppendNumber(id);
    exec.Append(",");
    exec.Append([QUOTE]);
    exec.Append(Escape(path));
    exec.Append([QUOTE]);
    exec.Append(end);
    sql := exec.Flush();
    assert exec.ss == insert + Decimal(id) + "," + [QUOTE] + Escape(path) + [QUOTE] + end;
  }

  lemma InsertArchiveReadBack(id: nat, path: string)
    requires NUL !in path
    ensures Parse(CStr(INSERT_ARCHIVE + Decimal(id) + "," + [QUOTE] + Escape(path) + [QUOTE] + UNLESS_THERE))
         == Some(InsertIntoArchives(id, path))
  {
    var text := INSERT_ARCHIVE + Decimal(id) + "," + [QUOTE] + Escape(path) + [QUOTE] + UNLESS_THERE;
    InsertArchiveIsNulFree();
    ArchiveReadBack(INSERT_ARCHIVE, UNLESS_THERE, id, path, text);
    InsertWords(Decimal(id) + ("," + (Literal(path) + UNLESS_THERE)));
  }

  lemma ArchiveReadBack(insert: string, end: string, id: nat, path: string, text: string)
    requires NUL !in path && NUL !in insert && NUL !in end && !OpensQuote(end)
    requires text == insert + Decimal(id) + "," + [QUOTE] + Escape(path) + [QUOTE] + end
    ensures CStr(text) == insert + (Decimal(id) + ("," + (Literal(path) + end)))
    ensures StartsWith(CStr(text), insert)
    ensures ParseArchive(CStr(text)[|insert|..], end) == Some(InsertIntoArchives(id, path))
  {
    Regroup(insert, Decimal(id), Escape(path), end);
    ArchiveTextIntact(insert, id, path, end);
    var values := "," + (Literal(path) + end);
    StartsBack(insert, Decimal(id) + values);
    ReadNumberBack(id, values);
    assert values[1..] == Literal(path) + end;
  }

  lemma Regroup(insert: string, number: string, escaped: string, end: string)
    ensures var tail := [QUOTE] + escaped + [QUOTE] + end;
            && insert + number + "," + [QUOTE] + escaped + [QUOTE] + end == insert + number + "," + tail
            && insert + number + "," + tail == insert + (number + ("," + tail))
  {
    assert [QUOTE] + escaped + [QUOTE] + end == [QUOTE] + (escaped + [QUOTE] + end);
  }

  lemma ArchiveTextIntact(insert: string, id: nat, path: string, end: string)
    requires NUL !in path && NUL !in insert && NUL !in end && !OpensQuote(end)
    ensures var text := insert + Decimal(id) + "," + (Literal(path) + end); CStr(text) == text
    ensures Lex(Literal(path) + end) == Some((path, end))
  {
    assert NUL !in insert + Decimal(id) + "," by { NumbersAreNulFree(id); }
    StatementIntact(path, end, insert + Decimal(id) + ",");
  }

  /** Its look-up by source path asks for the given path. */
  method SelectBySource(path: string) returns (sql: string)
    requires NUL !in path
    ensures Parse(sql) == Some(SelectSource(path))
  {
    SelectSourceIsNulFree();
    sql := Select(SELECT_SOURCE, path);
    SourceWords(Literal(path));
  }

  /** And its look-up by archive path. */
  method SelectByArchive(path: string) returns (sql: string)
    requires NUL !in path
    ensures Parse(sql) == Some(SelectArchive(path))
  {
    SelectArchiveIsNulFree();
    sql := Select(SELECT_ARCHIVE, path);
    ArchiveWords(Literal(path));
  }

  method Select(query: string, path: string) returns (sql: string)
    requires NUL !in path && NUL !in query
    ensures sql == query + Literal(path) && Lex(Literal(path)) == Some((path, ""))
    ensures StartsWith(sql, query) && sql[|query|..] == Literal(path)
  {
    var exec := new ExecSQL();
    exec.Append(query);
    exec.Append([QUOTE]);
    exec.Append(Escape(path));
    exec.Append([QUOTE]);
    sql := exec.Flush();
    assert Literal(path) + "" == Literal(path);
    assert exec.ss == query + (Literal(path) + "");
    StatementIntact(path, "", query);
  }

  lemma NumbersAreNulFree(n: nat)
    ensures NUL !in Decimal(n)
  {
    assert !IsDigit(NUL);
  }

  /** A statement around one literal reaches the database whole, with the literal readable in place. */
  lemma StatementIntact(path: string, tail: string, head: string)
    requires NUL !in path && NUL !in tail && NUL !in head && !OpensQuote(tail)
    ensures CStr(head + (Literal(path) + tail)) == head + (Literal(path) + tail)
    ensures Lex(Literal(path) + tail) == Some((path, tail))
    ensures StartsWith(head + (Literal(path) + tail), head)
    ensures (head + (Literal(path) + tail))[|head|..] == Literal(path) + tail
  {
    EscapeKeepsNulFree(path);
    CStrKeeps(head + (Literal(path) + tail));
    CStrKeeps(Literal(path) + tail);
    LiteralReadBack(path, tail);
    StartsBack(head, Literal(path) + tail);
  }
}
