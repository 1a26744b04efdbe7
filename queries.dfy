/**
 * The administrative queries: the output formats, the SQL text sent for the
 * two operations, and the table row of a long-running query.
 */
module Queries {
  import opened Wrappers
  import opened Decimal
  import opened Text
  import Types

  /** The `--output` formats. */
  datatype Output = Json | Table | Yaml

  /** The command-line name of each format, as the derived value enum spells it. */
  function OutputName(o: Output): string
  {
    match o
    case Json => "json"
    case Table => "table"
    case Yaml => "yaml"
  }

  /** Reads an `--output` value; anything but the three names is refused. */
  function ParseOutput(s: string): (r: Option<Output>)
    ensures r.Some? ==> OutputName(r.value) == s
    ensures r.None? ==> s != "json" && s != "table" && s != "yaml"
  {
    if s == "json" then Some(Json)
    else if s == "table" then Some(Table)
    else if s == "yaml" then Some(Yaml)
    else None
  }

  /** `--output` defaults to "table". */
  function DefaultOutput(): (o: Output)
    ensures ParseOutput("table") == Some(o)
  {
    Table
  }

  /** Every format's name reads back as that format. */
  lemma ParseOutputName(o: Output)
    ensures ParseOutput(OutputName(o)) == Some(o)
  {
  }

  // ---------------------------------------------------------------------------
  // Terminating a backend

  /** One row of the termination query. */
  datatype KillPidQuery = KillPidQuery(pid: i32, succeeded: bool)

  const KillPrefix: string := "SELECT "
  const KillAs: string := "AS pid, "
  const KillCall: string := "pg_terminate_backend("
  const KillEnd: string := ") AS succeeded"

  /** The SQL sent to terminate backend `pid`: the pid, in decimal, selected and passed to `pg_terminate_backend`. */
  function KillSql(pid: i32): string
  {
    var p := ShowInt(pid as int);
    KillPrefix + p + " " + (KillAs + KillCall + p + KillEnd)
  }

  /** The first two fixed pieces of the termination SQL hold no quote and no semicolon. */
  lemma KillPiecesSafe()
    ensures '\'' !in KillPrefix && ';' !in KillPrefix && '\'' !in KillAs && ';' !in KillAs
  {
  }

  /** The last two fixed pieces of the termination SQL hold no quote and no semicolon. */
  lemma KillMorePiecesSafe()
    ensures '\'' !in KillCall && ';' !in KillCall && '\'' !in KillEnd && ';' !in KillEnd
  {
  }

  /** The termination SQL holds no quote and no semicolon, whatever the pid. */
  lemma KillSqlQuoteFree(pid: i32)
    ensures '\'' !in KillSql(pid) && ';' !in KillSql(pid)
  {
    var p := ShowInt(pid as int);
    assert '\'' !in p && ';' !in p;
    KillPiecesSafe();
    KillMorePiecesSafe();
  }

  /** After "SELECT ", the termination SQL starts with the pid's decimal text, ended by a space. */
  lemma KillSqlPid(pid: i32)
    ensures |KillSql(pid)| > |KillPrefix|
    ensures SplitOnce(KillSql(pid)[|KillPrefix|..], ' ').Some?
    ensures SplitOnce(KillSql(pid)[|KillPrefix|..], ' ').value.0 == ShowInt(pid as int)
  {
    var p := ShowInt(pid as int);
    assert ' ' !in p;
    SplitAfterPrefix(KillPrefix, p, KillAs + KillCall + p + KillEnd);
  }

  /** Splitting what follows `prefix` at the first space recovers the space-free `p` written there. */
  lemma SplitAfterPrefix(prefix: string, p: string, rest: string)
    requires ' ' !in p
    ensures (prefix + p + " " + rest)[|prefix|..] == p + [' '] + rest
    ensures SplitOnce((prefix + p + " " + rest)[|prefix|..], ' ') == Some((p, rest))
  {
    assert (prefix + p + " " + rest)[|prefix|..] == p + [' '] + rest;
    SplitOnceConcat(p, ' ', rest);
  }

  /**
   * The backend the statement terminates is the one it was built for: the text
   * between the first '(' and the ')' after it is the pid's decimal text.
   */
  lemma KillSqlTerminates(pid: i32)
    ensures SplitOnce(KillSql(pid), '(').Some?
    ensures SplitOnce(SplitOnce(KillSql(pid), '(').value.1, ')') == Some((ShowInt(pid as int), " AS succeeded"))
  {
    var p := ShowInt(pid as int);
    assert '(' !in p && ')' !in p;
    KillCallHeadSafe();
    CallArgument(KillPrefix, p, KillAs, "pg_terminate_backend", " AS succeeded");
  }

  /** The fixed text before the call's argument holds no opening parenthesis, and the call's pieces split around it. */
  lemma KillCallHeadSafe()
    ensures '(' !in KillPrefix && '(' !in KillAs && '(' !in "pg_terminate_backend"
    ensures KillCall == "pg_terminate_backend" + "(" && KillEnd == ")" + " AS succeeded"
  {
  }

  /**
   * In `a p b f(p)t`, with no '(' before the call and no ')' in `p`, the text
   * after the first '(' splits at its first ')' into `p` and `t`.
   */
  lemma CallArgument(a: string, p: string, b: string, f: string, t: string)
    requires '(' !in a && '(' !in p && '(' !in b && '(' !in f && ')' !in p
    ensures var sql := a + p + " " + (b + (f + "(") + p + (")" + t));
      SplitOnce(sql, '(') == Some((a + p + " " + b + f, p + ")" + t))
    ensures SplitOnce(p + ")" + t, ')') == Some((p, t))
  {
    var head := a + p + " " + b + f;
    assert a + p + " " + (b + (f + "(") + p + (")" + t)) == head + ['('] + (p + ")" + t);
    SplitOnceConcat(head, '(', p + ")" + t);
    assert p + ")" + t == p + [')'] + t;
    SplitOnceConcat(p, ')', t);
  }

  /** The termination SQL names the pid it was built for: different pids give different statements. */
  lemma KillSqlInjective(p: i32, q: i32)
    requires KillSql(p) == KillSql(q)
    ensures p == q
  {
    KillSqlPid(p);
    KillSqlPid(q);
    IntValueShowInt(p as int);
    IntValueShowInt(q as int);
  }

  /** The derived table columns of a termination row. */
  function KillHeaders(): seq<string>
  {
    ["pid", "succeeded"]
  }

  /** The derived table cells of a termination row: the pid and the boolean, as text. */
  function KillFields(row: KillPidQuery): (r: seq<string>)
    ensures |r| == |KillHeaders()|
    ensures r[0] == ShowInt(row.pid as int)
    ensures IntValueOk(r[0]) && IntValue(r[0]) == row.pid as int
    ensures r[1] == "true" <==> row.succeeded
    ensures r[1] == (if row.succeeded then "true" else "false")
  {
    IntValueShowInt(row.pid as int);
    [ShowInt(row.pid as int), if row.succeeded then "true" else "false"]
  }

  /** A string `IntValue` can read. */
  predicate IntValueOk(s: string)
  {
    |s| > 0 && AllDigits(s[1..]) && (s[0] == '-' || IsDigit(s[0]))
  }

  // ---------------------------------------------------------------------------
  // Long-running queries

  /** One row of the long-running query report. */
  datatype OlderThanQuery = OlderThanQuery(pid: i32, duration: string, query: string, state: string)

  const Indent12: string := "            "
  const Indent16: string := Indent12 + "    "
  const NowMinus: string := "(now() - "
  const QueryStart: string := "pg_stat_activity.query_start)"

  /** The statement up to the opening quote of the interval literal, with the source's line breaks and indentation. */
  const OlderThanHead: string :=
    "\n" + Indent12 + "SELECT\n" + Indent16 + "pid,\n" + Indent16 + NowMinus + QueryStart + "::TEXT AS duration,\n"
    + Indent16 + "query,\n" + Indent16 + "state\n" + Indent12 + "FROM\n" + Indent16 + "pg_stat_activity\n"
    + Indent12 + "WHERE\n" + Indent16 + NowMinus + QueryStart + " > interval "

  /** The repeated pieces of the long-running query statement hold no quote. */
  lemma PiecesQuoteFree()
    ensures '\'' !in Indent12 && '\'' !in Indent16 && '\'' !in NowMinus && '\'' !in QueryStart
  {
  }

  /** The keywords and column names of the first lines of the statement hold no quote. */
  lemma WordsQuoteFree()
    ensures '\'' !in "SELECT\n" && '\'' !in "pid,\n" && '\'' !in "::TEXT AS duration,\n"
    ensures '\'' !in "query,\n" && '\'' !in "state\n" && '\'' !in "FROM\n"
  {
  }

  /** The keywords of the last lines of the statement hold no quote. */
  lemma MoreWordsQuoteFree()
    ensures '\'' !in "pg_stat_activity\n" && '\'' !in "WHERE\n" && '\'' !in " > interval "
  {
  }

  /** The statement after the closing quote of the interval literal. */
  const OlderThanTail: string := "\n            "

  /** The SQL sent to list sessions older than `duration`: its display, inside `interval '…'`. */
  function OlderThanSql(duration: Types.TimeUnit): string
  {
    OlderThanHead + "'" + Types.Display(duration) + "'" + OlderThanTail
  }

  /** The statement text before the interval literal holds no quote. */
  lemma OlderThanHeadQuoteFree()
    ensures '\'' !in OlderThanHead
  {
    PiecesQuoteFree();
    WordsQuoteFree();
    MoreWordsQuoteFree();
  }

  /**
   * The statement holds exactly one quoted literal, and its contents are the
   * threshold's display: the threshold can never close the quote early.
   */
  lemma OlderThanSqlLiteral(duration: Types.TimeUnit)
    ensures var sql := OlderThanSql(duration);
      && SplitOnce(sql, '\'') == Some((OlderThanHead, Types.Display(duration) + "'" + OlderThanTail))
      && SplitOnce(Types.Display(duration) + "'" + OlderThanTail, '\'') == Some((Types.Display(duration), OlderThanTail))
      && '\'' !in OlderThanTail
  {
    OlderThanHeadQuoteFree();
    assert '\'' !in OlderThanTail;
    QuotedOnce(OlderThanHead, Types.Display(duration), OlderThanTail);
  }

  /** A quote-free text between two quotes, in a quote-free context, is the one quoted literal. */
  lemma QuotedOnce(head: string, d: string, tail: string)
    requires '\'' !in head && '\'' !in d && '\'' !in tail
    ensures SplitOnce(head + "'" + d + "'" + tail, '\'') == Some((head, d + "'" + tail))
    ensures SplitOnce(d + "'" + tail, '\'') == Some((d, tail))
  {
    assert head + "'" + d + "'" + tail == head + ['\''] + (d + "'" + tail);
    SplitOnceConcat(head, '\'', d + "'" + tail);
    SplitOnceConcat(d, '\'', tail);
  }

  /** Different thresholds give different statements. */
  lemma OlderThanSqlInjective(a: Types.TimeUnit, b: Types.TimeUnit)
    requires OlderThanSql(a) == OlderThanSql(b)
    ensures a == b
  {
    OlderThanSqlLiteral(a);
    OlderThanSqlLiteral(b);
    Types.FromStrDisplay(a);
    Types.FromStrDisplay(b);
  }

  /** The table columns of a long-running query row. */
  function Headers(): seq<string>
  {
    ["pid", "duration", "query", "state"]
  }

  /** The number of characters of query text the table shows. */
  const QueryWidth: nat := 42

  /** The row's query text is long enough for the unchecked slice of `fields`. */
  predicate FieldsDefined(row: OlderThanQuery)
  {
    |row.query| >= QueryWidth
  }

  /**
   * `fields`: the pid as text, the duration and state unchanged, and the
   * first 42 characters of the query followed by "..." (even when nothing
   * was cut). The slice is unchecked, so shorter query text panics.
   */
  function Fields(row: OlderThanQuery): (r: seq<string>)
    requires FieldsDefined(row)
    ensures |r| == |Headers()|
    ensures r[0] == ShowInt(row.pid as int)
    ensures IntValueOk(r[0]) && IntValue(r[0]) == row.pid as int
    ensures r[1] == row.duration && r[3] == row.state
    ensures |r[2]| == QueryWidth + 3 && r[2] <= row.query[..QueryWidth] + "..." && EndsWith(r[2], "...")
    ensures r[2][..QueryWidth] == row.query[..QueryWidth]
  {
    IntValueShowInt(row.pid as int);
    [ShowInt(row.pid as int), row.duration, row.query[..QueryWidth] + "...", row.state]
  }

  /** A row whose query text is shorter than 42 characters, such as a 10-character one, makes `fields` panic. */
  lemma ShortQueryPanics(row: OlderThanQuery)
    requires |row.query| == 10
    ensures !FieldsDefined(row)
  {
  }

  /** The query cell with the length check the slice lacks: short text is shown whole. */
  function QueryCell(query: string): (cell: string)
    ensures |cell| <= QueryWidth + 3
    ensures |query| < QueryWidth ==> cell == query
    ensures |query| >= QueryWidth ==> |cell| == QueryWidth + 3 && cell[..QueryWidth] == query[..QueryWidth] && EndsWith(cell, "...")
  {
    if |query| < QueryWidth then query else query[..QueryWidth] + "..."
  }

  /** `fields` with the length check: defined on every row. */
  function CheckedFields(row: OlderThanQuery): (r: seq<string>)
    ensures |r| == |Headers()|
    ensures r[0] == ShowInt(row.pid as int)
    ensures IntValueOk(r[0]) && IntValue(r[0]) == row.pid as int
    ensures r[1] == row.duration && r[2] == QueryCell(row.query) && r[3] == row.state
    ensures FieldsDefined(row) ==> r == Fields(row)
  {
    IntValueShowInt(row.pid as int);
    [ShowInt(row.pid as int), row.duration, QueryCell(row.query), row.state]
  }

  /** The column count the row type declares to the table library, as written. */
  function LengthAsWritten(): nat
  {
    42
  }

  /** The declared column count disagrees with the number of headers and of cells. */
  lemma LengthMismatch(row: OlderThanQuery)
    requires FieldsDefined(row)
    ensures LengthAsWritten() != |Headers()| && LengthAsWritten() != |Fields(row)|
  {
  }

  /** The column count the row type should declare: the number of headers, which is also the number of cells. */
  function Length(): (n: nat)
    ensures n == |Headers()|
    ensures forall row :: |CheckedFields(row)| == n
  {
    4
  }
}
