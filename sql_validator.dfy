/** The SQL safety gate: `validate_sql` accepts a statement only when it is a SELECT,
    mentions no mutating keyword between spaces, and reads only allowed tables.

    The SQL tokenizer is not modelled: its output (the list of statements, each with
    its statement type and its tree of tokens) is an input of the gate, next to the
    SQL text itself, which the keyword test reads directly. */
module SqlValidator {
  import opened Wrappers
  import opened Text
  import opened Seqs

  /** The allow-list of tables (`ALLOWED_TABLES`). */
  const AllowedTables: set<string> := {"sales"}

  /** The mutating keywords, in the order the gate tests them. */
  const DangerousKeywords: seq<string> := ["DROP", "DELETE", "UPDATE", "INSERT", "ALTER", "TRUNCATE", "CREATE"]

  /** A node of the tokenizer's tree. `Identifier` carries the identifier's real name
      and its alias as the tokenizer computes them; `Function` and `Group` are the
      token lists (a function call, a parenthesis, an identifier list, a WHERE clause,
      ...); `Other` is every plain token that is neither keyword nor whitespace. */
  datatype Token =
    | Keyword(normalized: string)
    | Whitespace
    | Identifier(realName: Option<string>, alias: Option<string>)
    | Function(children: seq<Token>)
    | Group(children: seq<Token>)
    | Other

  /** One parsed statement: what `get_type()` reports and its top-level tokens. */
  datatype Statement = Statement(stmtType: string, tokens: seq<Token>)

  /** The tokenizer's result for the text, or the exception it raised. */
  datatype Parse = Parsed(statements: seq<Statement>) | ParseRaised(error: string)

  /** How the gate decides; `Message` gives the text it returns with the decision. */
  datatype Verdict =
    | Accepted
    | NothingParsed
    | NotSelect
    | ForbiddenKeyword(keyword: string)
    | NoTables
    | TableNotAllowed(table: string)
    | Raised(error: string)

  /** The error text of `None.lower()`, raised when an identifier has no name. */
  const NoneLowerError: string := "'NoneType' object has no attribute 'lower'"

  function Message(v: Verdict): string {
    match v
    case Accepted => "SQL 查詢有效"
    case NothingParsed => "無效的 SQL 查詢"
    case NotSelect => "只允許 SELECT 查詢"
    case ForbiddenKeyword(k) => "不允許使用 " + k + " 關鍵字"
    case NoTables => "無法識別查詢的表格"
    case TableNotAllowed(t) => "不允許查詢表格: " + t
    case Raised(e) => "SQL 驗證錯誤: " + e
  }

  // ---------------------------------------------------------------------------
  // Identifier names

  /** `get_name()`: the alias when it is a non-empty string, the real name otherwise. */
  function TableName(t: Token): Option<string>
    requires t.Identifier?
  {
    if t.alias.Some? && t.alias.value != "" then t.alias else t.realName
  }

  /** What `extract_columns` records: the alias when there is one, the name otherwise. */
  function ColumnName(t: Token): Option<string>
    requires t.Identifier?
  {
    if t.alias.Some? then t.alias else t.realName
  }

  /** The identifiers found by descending into a token (inner helper of `extract_tables`):
      an identifier is recorded and not entered; every token list is entered. */
  function TableNames(t: Token): seq<Option<string>>
    decreases t
  {
    match t
    case Identifier(_, _) => [TableName(t)]
    case Function(ch) => Flatten(seq(|ch|, i requires 0 <= i < |ch| => TableNames(ch[i])))
    case Group(ch) => Flatten(seq(|ch|, i requires 0 <= i < |ch| => TableNames(ch[i])))
    case _ => []
  }

  /** The same descent for `extract_columns`: function calls contribute nothing. */
  function ColumnNames(t: Token): seq<Option<string>>
    decreases t
  {
    match t
    case Identifier(_, _) => [ColumnName(t)]
    case Group(ch) => Flatten(seq(|ch|, i requires 0 <= i < |ch| => ColumnNames(ch[i])))
    case _ => []
  }

  // ---------------------------------------------------------------------------
  // The FROM and SELECT clauses, stated by positions

  predicate IsFrom(t: Token) {
    t.Keyword? && t.normalized == "FROM"
  }

  predicate IsSelect(t: Token) {
    t.Keyword? && t.normalized == "SELECT"
  }

  /** A token the FROM scan stops at: neither whitespace nor another FROM. */
  predicate TableCandidate(t: Token) {
    !t.Whitespace? && !IsFrom(t)
  }

  /** A keyword that closes the SELECT list. */
  predicate EndsSelectList(t: Token) {
    t.Keyword? && t.normalized in ["FROM", "WHERE", "GROUP", "ORDER"]
  }

  /** The first position at or after `lo` whose token satisfies `p`. */
  function FirstWhere(ts: seq<Token>, lo: nat, p: Token -> bool): (r: Option<nat>)
    requires lo <= |ts|
    ensures r.Some? ==> lo <= r.value < |ts| && p(ts[r.value])
    ensures r.Some? ==> forall k :: lo <= k < r.value ==> !p(ts[k])
    ensures r.None? ==> forall k :: lo <= k < |ts| ==> !p(ts[k])
    decreases |ts| - lo
  {
    if lo == |ts| then None else if p(ts[lo]) then Some(lo) else FirstWhere(ts, lo + 1, p)
  }

  /** The tables of a statement: the identifiers in the first top-level token after the
      first top-level FROM that is neither whitespace nor FROM; none without such a token. */
  function FromTables(ts: seq<Token>): seq<Option<string>> {
    match FirstWhere(ts, 0, IsFrom)
    case None => []
    case Some(f) =>
      match FirstWhere(ts, f + 1, TableCandidate)
      case None => []
      case Some(j) => TableNames(ts[j])
  }

  /** The end of the SELECT list that starts after position `s`. */
  function SelectListEnd(ts: seq<Token>, s: nat): (e: nat)
    requires s < |ts|
    ensures s < e <= |ts|
  {
    match FirstWhere(ts, s + 1, EndsSelectList)
    case None => |ts|
    case Some(e) => e
  }

  /** The columns of a statement: the names in the top-level tokens strictly between the
      first SELECT and the first FROM, WHERE, GROUP or ORDER keyword after it. */
  function SelectColumns(ts: seq<Token>): seq<Option<string>> {
    match FirstWhere(ts, 0, IsSelect)
    case None => []
    case Some(s) =>
      ColumnsBetween(ts, s + 1, SelectListEnd(ts, s))
  }

  // ---------------------------------------------------------------------------
  // extract_tables and extract_columns, as the source runs them

  /** The names found in the first `k` children of a token list. */
  function ChildTableNames(ch: seq<Token>, k: nat): seq<Option<string>>
    requires k <= |ch|
  {
    Flatten(seq(k, i requires 0 <= i < k => TableNames(ch[i])))
  }

  lemma ChildTableNamesStep(ch: seq<Token>, k: nat)
    requires k < |ch|
    ensures ChildTableNames(ch, k + 1) == ChildTableNames(ch, k) + TableNames(ch[k])
  {
    assert seq(k + 1, i requires 0 <= i < k + 1 => TableNames(ch[i]))[..k]
      == seq(k, i requires 0 <= i < k => TableNames(ch[i]));
  }

  /** The recursive helper of `extract_tables`, appending to the list it was given. */
  method CollectTables(t: Token, tables: seq<Option<string>>) returns (out: seq<Option<string>>)
    ensures out == tables + TableNames(t)
    decreases t
  {
    match t
    case Identifier(_, _) =>
      out := tables + [TableName(t)];
    case Function(ch) =>
      out := CollectChildTables(t, ch, tables);
    case Group(ch) =>
      out := CollectChildTables(t, ch, tables);
    case _ =>
      out := tables;
  }

  /** The loop over the children of a token list. */
  method CollectChildTables(ghost t: Token, ch: seq<Token>, tables: seq<Option<string>>)
    returns (out: seq<Option<string>>)
    requires t == Function(ch) || t == Group(ch)
    ensures out == tables + ChildTableNames(ch, |ch|)
    decreases t, 0
  {
    out := tables;
    var k := 0;
    while k < |ch|
      invariant 0 <= k <= |ch|
      invariant out == tables + ChildTableNames(ch, k)
    {
      out := CollectTables(ch[k], out);
      ChildTableNamesStep(ch, k);
      k := k + 1;
    }
  }

  /** `extract_tables`: scan the top-level tokens for FROM, skip whitespace, take the
      identifiers of the next token and stop. */
  method ExtractTables(stmt: Statement) returns (tables: seq<Option<string>>)
    ensures tables == FromTables(stmt.tokens)
  {
    var ts := stmt.tokens;
    tables := [];
    var fromSeen := false;
    var i := 0;
    while i < |ts|
      invariant 0 <= i <= |ts| && tables == []
      invariant !fromSeen ==> forall k :: 0 <= k < i ==> !IsFrom(ts[k])
      invariant fromSeen ==> FirstWhere(ts, 0, IsFrom).Some? && FirstWhere(ts, 0, IsFrom).value < i
      invariant fromSeen ==> forall k :: FirstWhere(ts, 0, IsFrom).value < k < i ==> !TableCandidate(ts[k])
    {
      var t := ts[i];
      if t.Keyword? && t.normalized == "FROM" {
        fromSeen := true;
      } else if fromSeen && !t.Whitespace? {
        if t.Identifier? || t.Function? || t.Group? {
          tables := CollectTables(t, tables);
        }
        return;
      }
      i := i + 1;
    }
  }

  /** The names in the top-level tokens at positions `lo` up to `hi`, excluded. */
  function ColumnsBetween(ts: seq<Token>, lo: nat, hi: nat): seq<Option<string>>
    requires lo <= hi <= |ts|
  {
    Flatten(seq(hi - lo, i requires 0 <= i < hi - lo => ColumnNames(ts[lo + i])))
  }

  lemma ColumnsBetweenStep(ts: seq<Token>, lo: nat, hi: nat)
    requires lo <= hi < |ts|
    ensures ColumnsBetween(ts, lo, hi + 1) == ColumnsBetween(ts, lo, hi) + ColumnNames(ts[hi])
  {
    assert seq(hi + 1 - lo, i requires 0 <= i < hi + 1 - lo => ColumnNames(ts[lo + i]))[..hi - lo]
      == seq(hi - lo, i requires 0 <= i < hi - lo => ColumnNames(ts[lo + i]));
  }

  /** The names in the first `k` children of a token list, for `extract_columns`. */
  function ChildColumnNames(ch: seq<Token>, k: nat): seq<Option<string>>
    requires k <= |ch|
  {
    Flatten(seq(k, i requires 0 <= i < k => ColumnNames(ch[i])))
  }

  lemma ChildColumnNamesStep(ch: seq<Token>, k: nat)
    requires k < |ch|
    ensures ChildColumnNames(ch, k + 1) == ChildColumnNames(ch, k) + ColumnNames(ch[k])
  {
    assert seq(k + 1, i requires 0 <= i < k + 1 => ColumnNames(ch[i]))[..k]
      == seq(k, i requires 0 <= i < k => ColumnNames(ch[i]));
  }

  /** The recursive helper of `extract_columns`. */
  method CollectColumns(t: Token, columns: seq<Option<string>>) returns (out: seq<Option<string>>)
    ensures out == columns + ColumnNames(t)
    decreases t
  {
    match t
    case Identifier(_, _) =>
      out := columns + [ColumnName(t)];
    case Function(_) =>
      out := columns;
    case Group(ch) =>
      out := columns;
      var k := 0;
      while k < |ch|
        invariant 0 <= k <= |ch|
        invariant out == columns + ChildColumnNames(ch, k)
      {
        out := CollectColumns(ch[k], out);
        ChildColumnNamesStep(ch, k);
        k := k + 1;
      }
    case _ =>
      out := columns;
  }

  /** The first position satisfying `p` is the one before which none does. */
  lemma FirstWhereAt(ts: seq<Token>, lo: nat, p: Token -> bool, i: nat)
    requires lo <= i < |ts| && p(ts[i])
    requires forall k :: lo <= k < i ==> !p(ts[k])
    ensures FirstWhere(ts, lo, p) == Some(i)
  {
  }

  /** Where the SELECT list ends, seen from a position inside it. */
  lemma SelectListEndAt(ts: seq<Token>, s: nat, i: nat)
    requires s < i < |ts|
    requires forall k :: s < k < i ==> !EndsSelectList(ts[k])
    ensures EndsSelectList(ts[i]) ==> SelectListEnd(ts, s) == i
    ensures i + 1 == |ts| && !EndsSelectList(ts[i]) ==> SelectListEnd(ts, s) == |ts|
  {
    if EndsSelectList(ts[i]) {
      FirstWhereAt(ts, s + 1, EndsSelectList, i);
    }
  }

  /** One step of the scan of `extract_columns` inside the SELECT list. */
  lemma SelectListStep(ts: seq<Token>, s: nat, i: nat)
    requires FirstWhere(ts, 0, IsSelect) == Some(s) && s < i < |ts|
    requires forall k :: s < k < i ==> !EndsSelectList(ts[k])
    ensures EndsSelectList(ts[i]) ==> SelectColumns(ts) == ColumnsBetween(ts, s + 1, i)
    ensures i + 1 == |ts| && !EndsSelectList(ts[i]) ==>
      SelectColumns(ts) == ColumnsBetween(ts, s + 1, i) + ColumnNames(ts[i])
    ensures ColumnsBetween(ts, s + 1, i + 1) == ColumnsBetween(ts, s + 1, i) + ColumnNames(ts[i])
  {
    ColumnsBetweenStep(ts, s + 1, i);
    SelectColumnsAt(ts, s);
    var e := SelectListEnd(ts, s);
    if EndsSelectList(ts[i]) {
      SelectListEndAt(ts, s, i);
      assert e == i;
    } else if i + 1 == |ts| {
      SelectListEndAt(ts, s, i);
      assert e == i + 1;
    }
  }

  lemma SelectColumnsAt(ts: seq<Token>, s: nat)
    requires FirstWhere(ts, 0, IsSelect) == Some(s)
    ensures s < |ts| && SelectColumns(ts) == ColumnsBetween(ts, s + 1, SelectListEnd(ts, s))
  {
    var e := SelectListEnd(ts, s);
    var c := ColumnsBetween(ts, s + 1, e);
    assert SelectColumns(ts) == c;
  }

  /** `extract_columns`: after the first SELECT, collect names until a clause keyword. */
  method ExtractColumns(stmt: Statement) returns (columns: seq<Option<string>>)
    ensures columns == SelectColumns(stmt.tokens)
  {
    var ts := stmt.tokens;
    columns := [];
    var selectSeen := false;
    var i := 0;
    ghost var s: nat := 0;
    while i < |ts|
      invariant 0 <= i <= |ts|
      invariant !selectSeen ==> columns == [] && forall k :: 0 <= k < i ==> !IsSelect(ts[k])
      invariant selectSeen ==> FirstWhere(ts, 0, IsSelect) == Some(s) && s < i
      invariant selectSeen ==> forall k :: s < k < i ==> !EndsSelectList(ts[k])
      invariant selectSeen ==> columns == ColumnsBetween(ts, s + 1, i)
    {
      var t := ts[i];
      if !selectSeen {
        if t.Keyword? && t.normalized == "SELECT" {
          FirstWhereAt(ts, 0, IsSelect, i);
          s := i;
          selectSeen := true;
        }
      } else {
        SelectListStep(ts, s, i);
        if t.Keyword? && t.normalized in ["FROM", "WHERE", "GROUP", "ORDER"] {
          assert EndsSelectList(t);
          return;
        }
        if !(t.Keyword? && t.normalized == "SELECT") && !t.Whitespace? {
          columns := CollectColumns(t, columns);
        }
      }
      i := i + 1;
    }
    if !selectSeen {
      assert FirstWhere(ts, 0, IsSelect).None?;
    } else if s + 1 == |ts| {
      assert SelectListEnd(ts, s) == |ts|;
    }
  }

  // ---------------------------------------------------------------------------
  // validate_sql

  /** The keyword test: `f" {keyword} " in f" {sql_upper} "`. */
  predicate KeywordHit(upperSql: string, keyword: string) {
    Contains(" " + upperSql + " ", " " + keyword + " ")
  }

  /** The first keyword of `ks`, in list order, that the test finds. */
  function FirstForbidden(upperSql: string, ks: seq<string>): (r: Option<string>)
    ensures r.None? <==> forall k :: k in ks ==> !KeywordHit(upperSql, k)
    ensures r.Some? ==> exists i :: (0 <= i < |ks| && ks[i] == r.value && KeywordHit(upperSql, ks[i])
      && forall j :: 0 <= j < i ==> !KeywordHit(upperSql, ks[j]))
  {
    if ks == [] then None
    else if KeywordHit(upperSql, ks[0]) then Some(ks[0])
    else
      var r := FirstForbidden(upperSql, ks[1..]);
      assert forall k :: k in ks ==> k == ks[0] || k in ks[1..];
      if r.Some? then
        assert exists i :: (0 <= i < |ks| && ks[i] == r.value && KeywordHit(upperSql, ks[i])
          && forall j :: 0 <= j < i ==> !KeywordHit(upperSql, ks[j])) by {
          var i :| (0 <= i < |ks[1..]| && ks[1..][i] == r.value && KeywordHit(upperSql, ks[1..][i])
            && forall j :: 0 <= j < i ==> !KeywordHit(upperSql, ks[1..][j]));
          assert ks[i + 1] == r.value;
          forall j | 0 <= j < i + 1 ensures !KeywordHit(upperSql, ks[j]) {
            if j > 0 { assert ks[j] == ks[1..][j - 1]; }
          }
        }
        r
      else r
  }

  /** The keyword at `i` of `ks` is hit and none before it is. */
  predicate FirstKeywordHit(upperSql: string, ks: seq<string>, i: int) {
    && 0 <= i < |ks|
    && KeywordHit(upperSql, ks[i])
    && forall j :: 0 <= j < i ==> !KeywordHit(upperSql, ks[j])
  }

  /** At most one position is the first hit, and `FirstForbidden` returns its keyword. */
  lemma FirstKeywordHitUnique(upperSql: string, ks: seq<string>)
    ensures forall i :: FirstKeywordHit(upperSql, ks, i) ==> FirstForbidden(upperSql, ks) == Some(ks[i])
  {
    var r := FirstForbidden(upperSql, ks);
    forall i | FirstKeywordHit(upperSql, ks, i) ensures r == Some(ks[i]) {
      assert ks[i] in ks;
      var i' :| (0 <= i' < |ks| && ks[i'] == r.value && KeywordHit(upperSql, ks[i'])
        && forall j :: 0 <= j < i' ==> !KeywordHit(upperSql, ks[j]));
    }
  }

  /** The table loop: the first table whose lower-cased name is not allowed is named;
      a table without a name raises. */
  function CheckTables(tables: seq<Option<string>>): Verdict {
    if tables == [] then Accepted
    else
      match tables[0]
      case None => Raised(NoneLowerError)
      case Some(t) => if Lower(t) in AllowedTables then CheckTables(tables[1..]) else TableNotAllowed(t)
  }

  /** The ordered chain of checks of `validate_sql`; the first failure decides. */
  function Validate(sql: string, parse: Parse): Verdict {
    match parse
    case ParseRaised(e) => Raised(e)
    case Parsed(stmts) =>
      if stmts == [] then NothingParsed
      else if Upper(stmts[0].stmtType) != "SELECT" then NotSelect
      else
        match FirstForbidden(Upper(sql), DangerousKeywords)
        case Some(k) => ForbiddenKeyword(k)
        case None =>
          var tables := FromTables(stmts[0].tokens);
          if tables == [] then NoTables else CheckTables(tables)
  }

  /** `validate_sql(sql)`: whether the query may run, and the message. It accepts exactly
      when something parsed, the first statement is a SELECT, no mutating keyword stands
      between spaces in the padded upper-cased text, the first statement's FROM yields at
      least one table and every table is allowed; otherwise the message is that of the
      first check that fails. */
  function ValidateSql(sql: string, parse: Parse): (r: (bool, string))
    ensures r.0 <==>
      && parse.Parsed?
      && |parse.statements| > 0
      && Upper(parse.statements[0].stmtType) == "SELECT"
      && (forall k :: k in DangerousKeywords ==> !KeywordHit(Upper(sql), k))
      && |FromTables(parse.statements[0].tokens)| > 0
      && AllTablesAllowed(FromTables(parse.statements[0].tokens))
    ensures r.0 ==> r.1 == Message(Accepted)
    ensures parse.ParseRaised? ==> r.1 == Message(Raised(parse.error))
    ensures parse == Parsed([]) ==> r.1 == Message(NothingParsed)
    ensures parse.Parsed? && |parse.statements| > 0 && Upper(parse.statements[0].stmtType) != "SELECT" ==>
      r.1 == Message(NotSelect)
    ensures parse.Parsed? && |parse.statements| > 0 && Upper(parse.statements[0].stmtType) == "SELECT" ==>
      forall i :: FirstKeywordHit(Upper(sql), DangerousKeywords, i) ==>
        r.1 == Message(ForbiddenKeyword(DangerousKeywords[i]))
    ensures (parse.Parsed? && |parse.statements| > 0 && Upper(parse.statements[0].stmtType) == "SELECT"
             && forall k :: k in DangerousKeywords ==> !KeywordHit(Upper(sql), k)) ==>
        var tables := FromTables(parse.statements[0].tokens);
        && (tables == [] ==> r.1 == Message(NoTables))
        && forall i :: FirstRejectedTable(tables, i) ==>
          r.1 == Message(if tables[i].None? then Raised(NoneLowerError) else TableNotAllowed(tables[i].value))
  {
    var v := Validate(sql, parse);
    if parse.Parsed? && |parse.statements| > 0 && Upper(parse.statements[0].stmtType) == "SELECT" then
      FirstKeywordHitUnique(Upper(sql), DangerousKeywords);
      var tables := FromTables(parse.statements[0].tokens);
      CheckTablesAccepts(tables);
      CheckTablesFirstRejected(tables);
      (v.Accepted?, Message(v))
    else (v.Accepted?, Message(v))
  }

  // ---------------------------------------------------------------------------
  // Properties

  /** Every table is named and lower-cases into the allow-list. */
  predicate AllTablesAllowed(tables: seq<Option<string>>) {
    forall i :: 0 <= i < |tables| ==> tables[i].Some? && Lower(tables[i].value) in AllowedTables
  }

  lemma {:induction false} CheckTablesAccepts(tables: seq<Option<string>>)
    ensures CheckTables(tables) == Accepted <==> AllTablesAllowed(tables)
  {
    if tables != [] {
      CheckTablesAccepts(tables[1..]);
      if tables[0].Some? && Lower(tables[0].value) in AllowedTables {
        assert AllTablesAllowed(tables) <==> AllTablesAllowed(tables[1..]) by {
          forall i | 0 < i < |tables| ensures tables[i] == tables[1..][i - 1] {}
        }
      }
    }
  }

  /** The table at `i` is the first one that is unnamed or outside the allow-list. */
  predicate FirstRejectedTable(tables: seq<Option<string>>, i: int) {
    && 0 <= i < |tables|
    && AllTablesAllowed(tables[..i])
    && !(tables[i].Some? && Lower(tables[i].value) in AllowedTables)
  }

  /** The table loop stops at the first rejected table: an unnamed one raises, a named
      one is reported. */
  lemma {:induction false} CheckTablesFirstRejected(tables: seq<Option<string>>)
    ensures forall i :: FirstRejectedTable(tables, i) ==>
      CheckTables(tables) == (if tables[i].None? then Raised(NoneLowerError) else TableNotAllowed(tables[i].value))
  {
    if tables != [] {
      CheckTablesFirstRejected(tables[1..]);
      forall i | FirstRejectedTable(tables, i)
        ensures CheckTables(tables) == (if tables[i].None? then Raised(NoneLowerError) else TableNotAllowed(tables[i].value))
      {
        if i > 0 {
          assert tables[..i][0] == tables[0];
          assert tables[1..][..i - 1] == tables[..i][1..];
          AllowedTail(tables[..i]);
          assert FirstRejectedTable(tables[1..], i - 1);
        }
      }
    }
  }

  lemma AllowedTail(tables: seq<Option<string>>)
    requires AllTablesAllowed(tables) && tables != []
    ensures AllTablesAllowed(tables[1..])
  {
    forall k | 0 <= k < |tables| - 1 ensures tables[1..][k] == tables[k + 1] {}
  }

  /** The table loop only ever accepts, names a table or raises. */
  lemma {:induction false} CheckTablesOutcomes(tables: seq<Option<string>>)
    ensures var v := CheckTables(tables); v.Accepted? || v.TableNotAllowed? || v == Raised(NoneLowerError)
  {
    if tables != [] && tables[0].Some? && Lower(tables[0].value) in AllowedTables {
      CheckTablesOutcomes(tables[1..]);
    }
  }

  /** A rejection by table names the first table that is not allowed, every table before
      it being named and allowed. */
  lemma {:induction false} CheckTablesNamesFirstOffender(tables: seq<Option<string>>, t: string)
    ensures CheckTables(tables) == TableNotAllowed(t) <==>
      exists i :: 0 <= i < |tables| && tables[i] == Some(t) && Lower(t) !in AllowedTables
        && AllTablesAllowed(tables[..i])
  {
    if tables != [] {
      CheckTablesNamesFirstOffender(tables[1..], t);
      var rest := tables[1..];
      if tables[0].Some? && Lower(tables[0].value) in AllowedTables {
        if CheckTables(tables) == TableNotAllowed(t) {
          var i :| 0 <= i < |rest| && rest[i] == Some(t) && Lower(t) !in AllowedTables && AllTablesAllowed(rest[..i]);
          assert tables[..i + 1] == [tables[0]] + rest[..i];
          assert tables[i + 1] == Some(t);
        }
        if exists i :: 0 <= i < |tables| && tables[i] == Some(t) && Lower(t) !in AllowedTables && AllTablesAllowed(tables[..i]) {
          var i :| 0 <= i < |tables| && tables[i] == Some(t) && Lower(t) !in AllowedTables && AllTablesAllowed(tables[..i]);
          assert i > 0;
          assert rest[..i - 1] == tables[1..i];
          assert rest[i - 1] == Some(t);
          AllowedTail(tables[..i]);
          assert tables[..i][1..] == rest[..i - 1];
        }
      } else {
        if exists i :: 0 <= i < |tables| && tables[i] == Some(t) && Lower(t) !in AllowedTables && AllTablesAllowed(tables[..i]) {
          var i :| 0 <= i < |tables| && tables[i] == Some(t) && Lower(t) !in AllowedTables && AllTablesAllowed(tables[..i]);
          if i > 0 { assert tables[..i][0] == tables[0]; }
        }
      }
    }
  }

  /** A rejection for a keyword names the first keyword of the list that the test finds,
      and happens only for a SELECT. */
  lemma ForbiddenNamesFirstKeyword(sql: string, parse: Parse, k: string)
    requires Validate(sql, parse) == ForbiddenKeyword(k)
    ensures ValidateSql(sql, parse) == (false, "不允許使用 " + k + " 關鍵字")
    ensures parse.Parsed? && |parse.statements| > 0 && Upper(parse.statements[0].stmtType) == "SELECT"
    ensures exists i :: (0 <= i < |DangerousKeywords| && DangerousKeywords[i] == k && KeywordHit(Upper(sql), k)
      && forall j :: 0 <= j < i ==> !KeywordHit(Upper(sql), DangerousKeywords[j]))
  {
    var stmts := parse.statements;
    CheckTablesOutcomes(FromTables(stmts[0].tokens));
    assert FirstForbidden(Upper(sql), DangerousKeywords) == Some(k);
  }

  /** A rejection for a table names the first table that is not allowed. */
  lemma TableRejectionNamesFirstOffender(sql: string, parse: Parse, t: string)
    requires Validate(sql, parse) == TableNotAllowed(t)
    ensures ValidateSql(sql, parse) == (false, "不允許查詢表格: " + t)
    ensures parse.Parsed? && |parse.statements| > 0
    ensures var tables := FromTables(parse.statements[0].tokens);
      exists i :: 0 <= i < |tables| && tables[i] == Some(t) && Lower(t) !in AllowedTables
        && AllTablesAllowed(tables[..i])
  {
    CheckTablesNamesFirstOffender(FromTables(parse.statements[0].tokens), t);
  }

  /** A statement that is not a SELECT is rejected before the text or the tables are
      looked at: the verdict does not depend on them. */
  lemma NotSelectRejectedFirst(sql: string, sql': string, s: Statement, s': Statement, rest: seq<Statement>)
    requires Upper(s.stmtType) != "SELECT" && s'.stmtType == s.stmtType
    ensures ValidateSql(sql, Parsed([s] + rest)) == (false, "只允許 SELECT 查詢")
    ensures Validate(sql, Parsed([s] + rest)) == Validate(sql', Parsed([s'] + rest))
  {
  }

  /** Only the first parsed statement is inspected: the statements after it never change
      the verdict. */
  lemma OnlyFirstStatementInspected(sql: string, s: Statement, rest: seq<Statement>, rest': seq<Statement>)
    ensures Validate(sql, Parsed([s] + rest)) == Validate(sql, Parsed([s] + rest'))
  {
    assert ([s] + rest)[0] == s == ([s] + rest')[0];
  }

  /** The gate never raises: an empty parse and an exception both become a rejection. */
  lemma ErrorsBecomeRejections(sql: string, e: string)
    ensures ValidateSql(sql, Parsed([])) == (false, "無效的 SQL 查詢")
    ensures ValidateSql(sql, ParseRaised(e)) == (false, "SQL 驗證錯誤: " + e)
  {
  }

  /** `keyword` occurs at position `i` of `u` with a space or the edge of the text on
      each side. */
  predicate SpaceBounded(u: string, keyword: string, i: int) {
    OccursAt(u, keyword, i)
    && (i == 0 || u[i - 1] == ' ')
    && (i + |keyword| == |u| || u[i + |keyword|] == ' ')
  }

  /** The keyword test is purely textual and space-delimited: it fires exactly when the
      keyword occurs with a space character, or the start or end of the text, on both
      sides. A keyword next to a tab, a newline or punctuation is not seen there. */
  lemma KeywordHitIff(u: string, keyword: string)
    ensures KeywordHit(u, keyword) <==> exists i :: 0 <= i <= |u| && SpaceBounded(u, keyword, i)
  {
    if KeywordHit(u, keyword) {
      var p, kp := " " + u + " ", " " + keyword + " ";
      var j :| 0 <= j <= |p| && OccursAt(p, kp, j);
      HitIsBounded(u, keyword, j);
    }
    if exists i :: 0 <= i <= |u| && SpaceBounded(u, keyword, i) {
      var i :| 0 <= i <= |u| && SpaceBounded(u, keyword, i);
      BoundedIsHit(u, keyword, i);
    }
  }

  lemma Padding(u: string)
    ensures var p := " " + u + " ";
      |p| == |u| + 2 && p[0] == ' ' && p[|u| + 1] == ' '
      && forall x :: 1 <= x <= |u| ==> p[x] == u[x - 1]
  {
  }

  lemma HitIsBounded(u: string, keyword: string, j: int)
    requires OccursAt(" " + u + " ", " " + keyword + " ", j)
    ensures SpaceBounded(u, keyword, j)
  {
    var p, kp := " " + u + " ", " " + keyword + " ";
    Padding(u);
    Padding(keyword);
    assert p[j..j + |kp|] == kp;
    forall m | 0 <= m < |keyword| ensures u[j + m] == keyword[m] {
      assert p[j + 1 + m] == kp[1 + m];
    }
    assert u[j..j + |keyword|] == keyword;
    assert p[j] == kp[0] && p[j + |keyword| + 1] == kp[|keyword| + 1];
  }

  lemma BoundedIsHit(u: string, keyword: string, i: int)
    requires SpaceBounded(u, keyword, i)
    ensures OccursAt(" " + u + " ", " " + keyword + " ", i) && KeywordHit(u, keyword)
  {
    var p, kp := " " + u + " ", " " + keyword + " ";
    Padding(u);
    Padding(keyword);
    assert u[i..i + |keyword|] == keyword;
    forall m | 0 <= m < |kp| ensures p[i + m] == kp[m] {
      if 1 <= m <= |keyword| {
        assert u[i + m - 1] == keyword[m - 1];
      }
    }
    assert p[i..i + |kp|] == kp;
    assert OccursAt(p, kp, i);
    assert Contains(p, kp);
  }

  /** At the very start or end of the text a keyword counts, thanks to the padding. */
  lemma KeywordAtEdgesCounts(keyword: string, rest: string)
    ensures KeywordHit(keyword + " " + rest, keyword)
    ensures KeywordHit(rest + " " + keyword, keyword)
    ensures KeywordHit(keyword, keyword)
  {
    KeywordHitIff(keyword + " " + rest, keyword);
    assert SpaceBounded(keyword + " " + rest, keyword, 0) by {
      assert (keyword + " " + rest)[..|keyword|] == keyword;
    }
    var u := rest + " " + keyword;
    KeywordHitIff(u, keyword);
    assert SpaceBounded(u, keyword, |rest| + 1) by {
      assert u[|rest| + 1..|u|] == keyword;
    }
    KeywordHitIff(keyword, keyword);
    assert SpaceBounded(keyword, keyword, 0) by {
      assert keyword[..|keyword|] == keyword;
    }
  }

  /** In a text without any space character a keyword is found only when it is the whole
      text: glued to punctuation or separated by tabs and newlines it goes unseen. */
  lemma NoSpaceNoHit(u: string, keyword: string)
    requires ' ' !in u
    ensures KeywordHit(u, keyword) <==> u == keyword
  {
    KeywordHitIff(u, keyword);
    if KeywordHit(u, keyword) {
      var i :| 0 <= i <= |u| && SpaceBounded(u, keyword, i);
      assert forall x :: 0 <= x < |u| ==> u[x] != ' ' by {
        forall x | 0 <= x < |u| ensures u[x] != ' ' { assert u[x] in u; }
      }
      assert i == 0 && i + |keyword| == |u|;
      assert u[..|u|] == u;
    }
    if u == keyword {
      assert SpaceBounded(u, keyword, 0) by { assert u[..|u|] == u; }
    }
  }

  lemma UpperKeepsSpaceFree(s: string)
    requires ' ' !in s
    ensures ' ' !in Upper(s)
  {
    forall i | 0 <= i < |s| ensures Upper(s)[i] != ' ' {
      assert s[i] in s;
    }
  }

  /** An occurrence of a space-free keyword covers no space of the text. */
  lemma OccursSpaceFree(u: string, k: string, i: int)
    requires OccursAt(u, k, i) && ' ' !in k
    ensures forall x :: i <= x < i + |k| ==> u[x] != ' '
  {
    forall x | i <= x < i + |k| ensures u[x] != ' ' {
      assert u[x] == k[x - i] && k[x - i] in k;
    }
  }

  /** Where `u` is a space-free word `a`, a space and the rest `b`, a keyword without
      spaces is space-bounded at `i` exactly when it is the word `a` at the start or is
      space-bounded in `b` at the corresponding position. */
  lemma SpaceBoundedSplit(a: string, b: string, k: string, i: int)
    requires ' ' !in a && ' ' !in k
    ensures var u := a + " " + b;
      SpaceBounded(u, k, i) <==>
        (i == 0 && k == a) || (i > |a| && SpaceBounded(b, k, i - |a| - 1))
  {
    if i == 0 {
      SpaceBoundedAtStart(a, b, k);
    } else if i > |a| {
      SpaceBoundedInRest(a, b, k, i);
    } else if 0 < i {
      var u := a + " " + b;
      assert u[i - 1] == a[i - 1] && a[i - 1] in a;
    }
  }

  lemma SpaceBoundedAtStart(a: string, b: string, k: string)
    requires ' ' !in a && ' ' !in k
    ensures SpaceBounded(a + " " + b, k, 0) <==> k == a
  {
    var u := a + " " + b;
    assert u[|a|] == ' ';
    if SpaceBounded(u, k, 0) {
      OccursSpaceFree(u, k, 0);
      assert |k| == |a|;
      assert a == u[..|a|];
    }
    if k == a {
      assert u[..|a|] == a;
    }
  }

  lemma SpaceBoundedInRest(a: string, b: string, k: string, i: int)
    requires i > |a|
    ensures SpaceBounded(a + " " + b, k, i) <==> SpaceBounded(b, k, i - |a| - 1)
  {
    var u := a + " " + b;
    var j := i - |a| - 1;
    assert forall x :: |a| < x < |u| ==> u[x] == b[x - |a| - 1];
    assert u[|a|] == ' ';
    if j + |k| <= |b| {
      assert u[i..i + |k|] == b[j..j + |k|];
    }
  }

  /** The keyword test fires exactly when the keyword is one of the space-separated words
      of the text (Python's `u.split(" ")`, empty words included). */
  lemma {:induction false} KeywordHitWords(u: string, k: string)
    requires ' ' !in k
    ensures KeywordHit(u, k) <==> k in Split(u, ' ')
    decreases |u|
  {
    KeywordHitIff(u, k);
    if ' ' !in u {
      SplitNoSeparator(u, ' ');
      NoSpaceNoHit(u, k);
    } else {
      var n := FirstIndex(u, ' ');
      var a, b := u[..n], u[n + 1..];
      assert u == a + " " + b;
      SplitAppend(a, ' ', b);
      KeywordHitWords(b, k);
      KeywordHitIff(b, k);
      if exists i :: 0 <= i <= |u| && SpaceBounded(u, k, i) {
        var i :| 0 <= i <= |u| && SpaceBounded(u, k, i);
        SpaceBoundedSplit(a, b, k, i);
        if i != 0 {
          assert 0 <= i - |a| - 1 <= |b|;
        }
      }
      if k == a {
        SpaceBoundedSplit(a, b, k, 0);
      } else if k in Split(b, ' ') {
        var j :| 0 <= j <= |b| && SpaceBounded(b, k, j);
        SpaceBoundedSplit(a, b, k, j + |a| + 1);
      }
    }
  }

  /** The tokens of `SELECT * FROM <table>` as the tokenizer groups them. */
  function SelectStarFrom(table: Token): seq<Token> {
    [Keyword("SELECT"), Whitespace, Other, Whitespace, Keyword("FROM"), Whitespace, table]
  }

  lemma SelectStarFromTables(table: Token, rest: seq<Token>)
    requires table.Identifier?
    ensures FromTables(SelectStarFrom(table) + rest) == [TableName(table)]
  {
    var ts := SelectStarFrom(table) + rest;
    FirstWhereAt(ts, 0, IsFrom, 4);
    FirstWhereAt(ts, 5, TableCandidate, 6);
  }

  /** For a text of space-free words, a space-free keyword is found exactly when it is
      the upper-cased form of one of the words. */
  lemma KeywordHitJoined(ws: seq<string>, k: string)
    requires |ws| >= 1 && forall i :: 0 <= i < |ws| ==> ' ' !in ws[i]
    requires ' ' !in k
    ensures KeywordHit(Upper(Join(" ", ws)), k) <==> k in UpperAll(ws)
  {
    UpperJoin(ws);
    forall i | 0 <= i < |ws| ensures ' ' !in UpperAll(ws)[i] {
      UpperKeepsSpaceFree(ws[i]);
    }
    SplitJoin(UpperAll(ws), ' ');
    KeywordHitWords(Upper(Join(" ", ws)), k);
  }

  /** A word that cannot upper-case to `k`: it differs in length or in the upper-cased
      first letter. */
  predicate Unlike(w: string, k: string) {
    |w| != |k| || (|w| > 0 && UpperChar(w[0]) != k[0])
  }

  lemma KeywordsSpaceFree()
    ensures forall j :: 0 <= j < |DangerousKeywords| ==> ' ' !in DangerousKeywords[j]
  {
  }

  /** A text of space-free words, none of which upper-cases to one of the space-free
      keywords `ks`, passes the keyword test for `ks`. */
  lemma NoKeywordAmong(ws: seq<string>, ks: seq<string>)
    requires |ws| >= 1 && forall i :: 0 <= i < |ws| ==> ' ' !in ws[i]
    requires forall j :: 0 <= j < |ks| ==> ' ' !in ks[j]
    requires forall i, j :: 0 <= i < |ws| && 0 <= j < |ks| ==> Unlike(ws[i], ks[j])
    ensures FirstForbidden(Upper(Join(" ", ws)), ks).None?
  {
    forall j | 0 <= j < |ks| ensures !KeywordHit(Upper(Join(" ", ws)), ks[j]) {
      KeywordHitJoined(ws, ks[j]);
      NoneUpperTo(ws, ks[j]);
    }
  }

  lemma NoneUpperTo(ws: seq<string>, k: string)
    requires forall i :: 0 <= i < |ws| ==> Unlike(ws[i], k)
    ensures k !in UpperAll(ws)
  {
    forall i | 0 <= i < |ws| ensures UpperAll(ws)[i] != k {
      UnlikeNotUpper(ws[i], k);
    }
  }

  lemma UnlikeNotUpper(w: string, k: string)
    requires Unlike(w, k)
    ensures Upper(w) != k
  {
    if |w| == |k| {
      assert Upper(w)[0] == UpperChar(w[0]);
    }
  }

  /** A `SELECT * FROM <table>` statement that passes the keyword test is judged by its
      one table alone. */
  lemma SelectStarVerdict(sql: string, table: Token, rest: seq<Token>)
    requires table.Identifier? && FirstForbidden(Upper(sql), DangerousKeywords).None?
    ensures Validate(sql, Parsed([Statement("SELECT", SelectStarFrom(table) + rest)]))
      == CheckTables([TableName(table)])
  {
    SelectStarFromTables(table, rest);
    UpperIs("SELECT", "SELECT");
  }

  // The example texts below are written as their space-separated words: `Join(" ", ws)`
  // is the text `ws[0] ws[1] ...`.

  /** `SELECT * FROM users AS sales` */
  const AliasQuery: seq<string> := ["SELECT", "*", "FROM", "users", "AS", "sales"]
  /** `SELECT * FROM sales AS s` */
  const ShortAliasQuery: seq<string> := ["SELECT", "*", "FROM", "sales", "AS", "s"]
  /** `SELECT * FROM sales;DROP TABLE sales` */
  const GluedQuery: seq<string> := ["SELECT", "*", "FROM", "sales;DROP", "TABLE", "sales"]
  /** `SELECT * FROM sales; DROP` */
  const SpacedQuery: seq<string> := ["SELECT", "*", "FROM", "sales;", "DROP"]

  lemma AliasQueryPasses()
    ensures FirstForbidden(Upper(Join(" ", AliasQuery)), DangerousKeywords).None?
  {
    KeywordsSpaceFree();
    NoKeywordAmong(AliasQuery, DangerousKeywords);
  }

  lemma ShortAliasQueryPasses()
    ensures FirstForbidden(Upper(Join(" ", ShortAliasQuery)), DangerousKeywords).None?
  {
    KeywordsSpaceFree();
    NoKeywordAmong(ShortAliasQuery, DangerousKeywords);
  }

  lemma GluedQueryPasses()
    ensures FirstForbidden(Upper(Join(" ", GluedQuery)), DangerousKeywords).None?
  {
    KeywordsSpaceFree();
    NoKeywordAmong(GluedQuery, DangerousKeywords);
  }

  lemma SalesAllowed()
    ensures CheckTables([Some("sales")]) == Accepted
  {
    LowerIs("sales", "sales");
  }

  lemma ShortNameRejected()
    ensures CheckTables([Some("s")]) == TableNotAllowed("s")
  {
    LowerIs("s", "s");
  }

  /** A table is judged by its alias: `FROM users AS sales` passes the allow-list. */
  lemma AliasPassesAllowList(rest: seq<Token>)
    ensures Validate(Join(" ", AliasQuery),
        Parsed([Statement("SELECT", SelectStarFrom(Identifier(Some("users"), Some("sales"))) + rest)]))
      == Accepted
  {
    AliasQueryPasses();
    SelectStarVerdict(Join(" ", AliasQuery), Identifier(Some("users"), Some("sales")), rest);
    SalesAllowed();
  }

  /** ... and `FROM sales AS s` is rejected, naming `s`. */
  lemma AliasFailsAllowList(rest: seq<Token>)
    ensures Validate(Join(" ", ShortAliasQuery),
        Parsed([Statement("SELECT", SelectStarFrom(Identifier(Some("sales"), Some("s"))) + rest)]))
      == TableNotAllowed("s")
  {
    ShortAliasQueryPasses();
    SelectStarVerdict(Join(" ", ShortAliasQuery), Identifier(Some("sales"), Some("s")), rest);
    ShortNameRejected();
  }

  /** A mutating statement glued to the SELECT by a semicolon passes the keyword test:
      `SELECT * FROM sales;DROP TABLE sales` is accepted on its first statement. */
  lemma GluedKeywordUnseen(rest: seq<Token>, more: seq<Statement>)
    ensures Validate(Join(" ", GluedQuery),
        Parsed([Statement("SELECT", SelectStarFrom(Identifier(Some("sales"), None)) + rest)] + more))
      == Accepted
  {
    GluedQueryPasses();
    var first := Statement("SELECT", SelectStarFrom(Identifier(Some("sales"), None)) + rest);
    OnlyFirstStatementInspected(Join(" ", GluedQuery), first, more, []);
    SelectStarVerdict(Join(" ", GluedQuery), Identifier(Some("sales"), None), rest);
    SalesAllowed();
  }

  /** With a space before it, the same keyword is found and names the rejection:
      `SELECT * FROM sales; DROP` is rejected for DROP whatever the statements are. */
  lemma SpacedKeywordSeen(p: Parse)
    requires p.Parsed? && |p.statements| > 0 && Upper(p.statements[0].stmtType) == "SELECT"
    ensures Validate(Join(" ", SpacedQuery), p) == ForbiddenKeyword("DROP")
  {
    SpacedDropHit();
  }

  lemma SpacedDropHit()
    ensures KeywordHit(Upper(Join(" ", SpacedQuery)), "DROP")
  {
    KeywordHitJoined(SpacedQuery, "DROP");
    UpperIs("DROP", "DROP");
    assert UpperAll(SpacedQuery)[4] == "DROP";
  }
}
