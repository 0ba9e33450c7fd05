/** migrate.rs: the SQL texts of the migration commands, each with a printed identifier spliced in.
    Whatever the identifier holds, each text is one statement with positional placeholders only. */
module MigrationSql {
  import opened Prelude
  import opened Decimal
  import opened SqlText
  import opened Identifiers
  import opened Executor

  function Cat(pieces: seq<string>): string {
    if pieces == [] then "" else pieces[0] + Cat(pieces[1..])
  }

  const COLUMNS := [" ( version, description, ", "success, checksum, ", "execution_time )\n"]

  const DECLARATIONS := [
    " (\n    version BIGINT ", "PRIMARY KEY,\n", "    description TEXT ", "NOT NULL,\n",
    "    installed_on TIMESTAMP ", "NOT NULL ", "DEFAULT CURRENT_TIMESTAMP,\n",
    "    success BOOLEAN ", "NOT NULL,\n", "    checksum BLOB ", "NOT NULL,\n",
    "    execution_time BIGINT ", "NOT NULL\n)"]

  const BLANKS := "\n                "

  function SchemaVersionSql(schema: string): string {
    "PRAGMA " + Display(schema) + ".schema_version"
  }

  function CreateTableSql(table: seq<string>): string {
    "\nCREATE TABLE IF NOT EXISTS " + (DisplayPath(table) + Cat(DECLARATIONS)) + (";" + BLANKS)
  }

  function DirtyVersionSql(table: seq<string>): string {
    "SELECT version FROM " + DisplayPath(table) + Cat([" WHERE success = false ", "ORDER BY version LIMIT 1"])
  }

  function ListAppliedSql(table: seq<string>): string {
    "SELECT version, checksum FROM " + DisplayPath(table) + " ORDER BY version"
  }

  function UpdateTimeSql(table: seq<string>): string {
    "\nUPDATE " + DisplayPath(table) + Cat(["\nSET execution_time = ?1", "\nWHERE version = ?2", BLANKS])
  }

  function SkipSql(table: seq<string>): string {
    "\nINSERT INTO " + DisplayPath(table) +
    (Cat(COLUMNS + ["VALUES ( ?1, ?2, TRUE, ?3, "]) + "-" + Cat(["1 )", BLANKS]))
  }

  function InsertRowSql(table: seq<string>): string {
    "\nINSERT OR REPLACE INTO " + DisplayPath(table) +
    (Cat(COLUMNS + ["VALUES ( ?1, ?2, ?3, ?4, "]) + "-" + "1 )\n        ")
  }

  function DeleteRowSql(table: seq<string>): string {
    "\nDELETE FROM " + DisplayPath(table) + "\nWHERE version = ?1\n        "
  }

  predicate TameChar(ch: char) {
    IsNameChar(ch) ||
    ch == ' ' || ch == '\n' || ch == '(' || ch == ')' || ch == ',' || ch == '=' || ch == '?' || ch == '.'
  }

  ghost predicate Words(s: string) {
    forall ch :: ch in s ==> TameChar(ch)
  }

  /** Text that neither opens a region nor holds a semicolon or a placeholder mark. */
  ghost predicate Tame(s: string) {
    forall i :: 0 <= i < |s| ==> TameAt(s, i)
  }

  ghost predicate TameAt(s: string, i: nat)
    requires i < |s|
  {
    TameChar(s[i]) || (s[i] == '-' && i + 1 < |s| && TameChar(s[i + 1]))
  }

  lemma {:induction false} WordsCat(pieces: seq<string>)
    requires forall piece :: piece in pieces ==> Words(piece)
    ensures Words(Cat(pieces))
  {
    if pieces != [] {
      assert Words(pieces[0]);
      WordsCat(pieces[1..]);
    }
  }

  lemma ColumnWords()
    ensures forall piece :: piece in COLUMNS ==> Words(piece)
  {
    assert Words(" ( version, description, ") && Words("success, checksum, ") && Words("execution_time )\n");
  }

  lemma DeclarationWords()
    ensures forall piece :: piece in DECLARATIONS ==> Words(piece)
  {
    SomeDeclarationWords();
    MoreDeclarationWords();
    LastDeclarationWords();
  }

  lemma SomeDeclarationWords()
    ensures Words(" (\n    version BIGINT ") && Words("PRIMARY KEY,\n") &&
            Words("    description TEXT ") && Words("NOT NULL,\n")
  {}

  lemma MoreDeclarationWords()
    ensures Words("    installed_on TIMESTAMP ") && Words("NOT NULL ") && Words("DEFAULT CURRENT_TIMESTAMP,\n")
  {}

  lemma LastDeclarationWords()
    ensures Words("    success BOOLEAN ") && Words("    checksum BLOB ") &&
            Words("    execution_time BIGINT ") && Words("NOT NULL\n)")
  {}

  /** s holds x at `from`. */
  ghost predicate Holds(s: string, from: nat, x: string) {
    from + |x| <= |s| && s[from..from + |x|] == x
  }

  lemma HoldsSplit(s: string, from: nat, a: string, b: string)
    requires Holds(s, from, a + b)
    ensures Holds(s, from, a) && Holds(s, from + |a|, b)
  {
    var x := s[from..from + |a + b|];
    assert x[..|a|] == a && x[|a|..] == b;
  }

  lemma HoldsAt(s: string, from: nat, x: string, k: nat)
    requires Holds(s, from, x) && k < |x|
    ensures s[from + k] == x[k]
  {
    assert s[from..from + |x|][k] == x[k];
  }

  ghost predicate Harmless(s: string, i: nat)
    requires i < |s|
  {
    KindAt(Sql, s, i) != Plain || TameChar(s[i]) || s[i] == '-'
  }

  ghost predicate HarmlessUpTo(s: string, n: nat) {
    n <= |s| && ModeAt(Sql, s, n) == Code && forall i :: 0 <= i < n ==> Harmless(s, i)
  }

  lemma {:induction false} TameRun(s: string, from: nat, x: string, n: nat)
    requires HarmlessUpTo(s, from) && Holds(s, from, x) && Tame(x) && n <= |x|
    ensures HarmlessUpTo(s, from + n)
    decreases n
  {
    if n > 0 {
      TameRun(s, from, x, n - 1);
      var i := from + n - 1;
      assert TameAt(x, n - 1);
      HoldsAt(s, from, x, n - 1);
      if n < |x| {
        HoldsAt(s, from, x, n);
      }
      assert ModeAt(Sql, s, i + 1) == Code;
      assert Harmless(s, i);
    }
  }

  lemma {:induction false} EscapedRun(s: string, from: nat, name: string)
    requires Holds(s, from, Doubled(name)) && ModeAt(Sql, s, from) == Quoted('"')
    ensures ModeAt(Sql, s, from + |Doubled(name)|) == Quoted('"')
    ensures forall i :: from <= i < from + |Doubled(name)| ==> Harmless(s, i)
    decreases name
  {
    if name != "" {
      var width := if name[0] == '"' then 2 else 1;
      var x := s[from..from + |Doubled(name)|];
      assert x[width..] == Doubled(name[1..]);
      assert s[from] == x[0] && (width == 2 ==> s[from + 1] == x[1]);
      assert ModeAt(Sql, s, from + 1) == if width == 2 then Escaped('"') else Quoted('"');
      assert ModeAt(Sql, s, from + width) == Quoted('"');
      assert Harmless(s, from) && (width == 2 ==> Harmless(s, from + 1));
      EscapedRun(s, from + width, name[1..]);
    }
  }

  /** A printed name is one quoted region, whatever the name holds. */
  lemma NameRun(s: string, from: nat, name: string)
    requires HarmlessUpTo(s, from) && Holds(s, from, Display(name))
    requires var end := from + |Display(name)|; end < |s| ==> s[end] != '"'
    ensures HarmlessUpTo(s, from + |Display(name)|)
  {
    DisplayParts(s, from, name);
    OpeningQuote(s, from);
    EscapedRun(s, from + 1, name);
    ClosingQuote(s, from + 1 + |Doubled(name)|);
  }

  lemma DisplayParts(s: string, from: nat, name: string)
    requires Holds(s, from, Display(name))
    ensures s[from] == '"' && Holds(s, from + 1, Doubled(name)) && s[from + 1 + |Doubled(name)|] == '"'
  {
    assert Display(name) == "\"" + (Doubled(name) + "\"");
    HoldsSplit(s, from, "\"", Doubled(name) + "\"");
    HoldsSplit(s, from + 1, Doubled(name), "\"");
    HoldsAt(s, from, "\"", 0);
    HoldsAt(s, from + 1 + |Doubled(name)|, "\"", 0);
  }

  lemma OpeningQuote(s: string, i: nat)
    requires i < |s| && s[i] == '"' && ModeAt(Sql, s, i) == Code
    ensures ModeAt(Sql, s, i + 1) == Quoted('"') && Harmless(s, i)
  {}

  lemma ClosingQuote(s: string, i: nat)
    requires i < |s| && s[i] == '"' && ModeAt(Sql, s, i) == Quoted('"') && !NextIs(s, i, '"')
    ensures ModeAt(Sql, s, i + 1) == Code && Harmless(s, i)
  {}

  lemma PathRun(s: string, from: nat, path: seq<string>)
    requires HarmlessUpTo(s, from) && Holds(s, from, DisplayPath(path)) && 1 <= |path| <= 2
    requires var end := from + |DisplayPath(path)|; end < |s| ==> s[end] != '"'
    ensures HarmlessUpTo(s, from + |DisplayPath(path)|)
  {
    if |path| == 1 {
      NameRun(s, from, path[0]);
    } else {
      TwoNames(path);
      TwoNamesRun(s, from, path[0], path[1]);
    }
  }

  lemma TwoNamesRun(s: string, from: nat, first: string, second: string)
    requires HarmlessUpTo(s, from) && Holds(s, from, Display(first) + ("." + Display(second)))
    requires var end := from + |Display(first) + ("." + Display(second))|; end < |s| ==> s[end] != '"'
    ensures HarmlessUpTo(s, from + |Display(first) + ("." + Display(second))|)
  {
    var dot := from + |Display(first)|;
    HoldsSplit(s, from, Display(first), "." + Display(second));
    HoldsSplit(s, dot, ".", Display(second));
    HoldsAt(s, dot, ".", 0);
    NameRun(s, from, first);
    DotRun(s, dot);
    NameRun(s, dot + 1, second);
  }

  lemma DotRun(s: string, dot: nat)
    requires HarmlessUpTo(s, dot) && dot < |s| && s[dot] == '.'
    ensures HarmlessUpTo(s, dot + 1)
  {
    assert ModeAt(Sql, s, dot + 1) == Code;
    assert Harmless(s, dot);
  }

  lemma TwoNames(path: seq<string>)
    requires |path| == 2
    ensures DisplayPath(path) == Display(path[0]) + ("." + Display(path[1]))
  {
    assert path[..|path| - 1] == [path[0]];
    assert DisplayPath(path) == DisplayPath([path[0]]) + "." + Display(path[1]);
  }

  /** Fixed text, a printed path, fixed text, and possibly more. */
  lemma SplicedRun(s: string, before: string, path: seq<string>, after: string)
    requires Holds(s, 0, before + (DisplayPath(path) + after)) && 1 <= |path| <= 2
    requires Tame(before) && Tame(after) && after != ""
    ensures HarmlessUpTo(s, |before| + |DisplayPath(path)| + |after|)
  {
    HoldsSplit(s, 0, before, DisplayPath(path) + after);
    HoldsSplit(s, |before|, DisplayPath(path), after);
    TameRun(s, 0, before, |before|);
    SplicedRest(s, |before|, path, after);
  }

  lemma SplicedRest(s: string, from: nat, path: seq<string>, after: string)
    requires HarmlessUpTo(s, from) && Holds(s, from, DisplayPath(path)) && 1 <= |path| <= 2
    requires Holds(s, from + |DisplayPath(path)|, after) && Tame(after) && after != ""
    ensures HarmlessUpTo(s, from + |DisplayPath(path)| + |after|)
  {
    assert TameAt(after, 0);
    HoldsAt(s, from + |DisplayPath(path)|, after, 0);
    PathRun(s, from, path);
    TameRun(s, from + |DisplayPath(path)|, after, |after|);
  }

  /** Text that is harmless up to a closing semicolon followed by blanks, or to its end, is bindable. */
  lemma HarmlessIsBindable(s: string, n: nat)
    requires HarmlessUpTo(s, n)
    requires forall i :: n <= i < |s| ==> IsWhitespace(s[i]) || (i == n && s[i] == ';')
    ensures Bindable(s)
  {
    forall i | 0 <= i < |s| ensures UnsupportedAt(Sql, s, i) == None && !Splits(Sql, s, i) {
      assert i < n ==> Harmless(s, i);
      forall k | i < k < |s| && Content(Sql, s, k) ensures s[i] != ';' || KindAt(Sql, s, i) != Plain {
        assert k < n;
      }
    }
  }

  lemma SplicedIsBindable(before: string, path: seq<string>, after: string)
    requires 1 <= |path| <= 2 && Tame(before) && Tame(after) && after != ""
    ensures Bindable(before + DisplayPath(path) + after)
  {
    var s := before + DisplayPath(path) + after;
    assert s == before + (DisplayPath(path) + after);
    SplicedRun(s, before, path, after);
    HarmlessIsBindable(s, |s|);
  }

  /** The same, closed by a semicolon and blanks. */
  lemma ClosedSpliceIsBindable(x: string, before: string, path: seq<string>, after: string, blanks: string)
    requires x == before + (DisplayPath(path) + after)
    requires 1 <= |path| <= 2 && Tame(before) && Tame(after) && after != ""
    requires forall i :: 0 <= i < |blanks| ==> IsWhitespace(blanks[i])
    ensures Bindable(x + (";" + blanks))
  {
    var s := x + (";" + blanks);
    Prefixed(x, ";" + blanks);
    SplicedRun(s, before, path, after);
    forall i | |x| <= i < |s| ensures IsWhitespace(s[i]) || (i == |x| && s[i] == ';') {
      assert i > |x| ==> s[i] == blanks[i - |x| - 1];
    }
    HarmlessIsBindable(s, |x|);
  }

  lemma Prefixed(x: string, y: string)
    ensures Holds(x + y, 0, x)
  {}

  lemma WordsAreTame(s: string)
    requires Words(s)
    ensures Tame(s)
  {
    forall i | 0 <= i < |s| ensures TameAt(s, i) {
      assert s[i] in s;
    }
  }

  lemma DashedIsTame(a: string, b: string)
    requires Words(a) && Words(b) && b != ""
    ensures Tame(a + "-" + b)
  {
    var s := a + "-" + b;
    forall i | 0 <= i < |s| ensures TameAt(s, i) {
      if i < |a| {
        assert s[i] == a[i] && a[i] in a;
      } else if i > |a| {
        assert s[i] == b[i - |a| - 1] && s[i] in b;
      } else {
        assert s[i + 1] == b[0] && b[0] in b;
      }
    }
  }

  lemma BlankWords()
    ensures Words(BLANKS) && BLANKS != "" && forall i :: 0 <= i < |BLANKS| ==> IsWhitespace(BLANKS[i])
  {
    forall i | 0 <= i < |BLANKS| ensures IsWhitespace(BLANKS[i]) {
      assert BLANKS[i] in BLANKS;
      assert forall ch :: ch in BLANKS ==> ch == '\n' || ch == ' ';
    }
  }

  /** No migration command is ever refused for its text, whatever names it is about. */
  lemma CreateTableIsBindable(table: seq<string>)
    requires IsPath(table)
    ensures Bindable(CreateTableSql(table))
  {
    var before, after := "\nCREATE TABLE IF NOT EXISTS ", Cat(DECLARATIONS);
    DeclarationWords();
    WordsCat(DECLARATIONS);
    WordsAreTame(after);
    CreateTableWords();
    WordsAreTame(before);
    BlankWords();
    ClosedSpliceIsBindable(before + (DisplayPath(table) + after), before, table, after, BLANKS);
  }

  lemma CreateTableWords()
    ensures Words("\nCREATE TABLE IF NOT EXISTS ")
  {}

  lemma DirtyVersionIsBindable(table: seq<string>)
    requires IsPath(table)
    ensures Bindable(DirtyVersionSql(table))
  {
    var before, pieces := "SELECT version FROM ", [" WHERE success = false ", "ORDER BY version LIMIT 1"];
    DirtyVersionWords();
    assert Words(before);
    WordsCat(pieces);
    WordsAreTame(Cat(pieces));
    WordsAreTame(before);
    SplicedIsBindable(before, table, Cat(pieces));
  }

  lemma DirtyVersionWords()
    ensures Words(" WHERE success = false ") && Words("ORDER BY version LIMIT 1")
  {}

  lemma ListAppliedIsBindable(table: seq<string>)
    requires IsPath(table)
    ensures Bindable(ListAppliedSql(table))
  {
    var before, after := "SELECT version, checksum FROM ", " ORDER BY version";
    assert Words(before) && Words(after);
    WordsAreTame(before);
    WordsAreTame(after);
    SplicedIsBindable(before, table, after);
  }

  lemma UpdateTimeIsBindable(table: seq<string>)
    requires IsPath(table)
    ensures Bindable(UpdateTimeSql(table))
  {
    var before, pieces := "\nUPDATE ", ["\nSET execution_time = ?1", "\nWHERE version = ?2", BLANKS];
    BlankWords();
    assert Words(before) && Words(pieces[0]) && Words(pieces[1]);
    WordsCat(pieces);
    WordsAreTame(Cat(pieces));
    WordsAreTame(before);
    SplicedIsBindable(before, table, Cat(pieces));
  }

  lemma SkipIsBindable(table: seq<string>)
    requires IsPath(table)
    ensures Bindable(SkipSql(table))
  {
    var before, values, tail := "\nINSERT INTO ", "VALUES ( ?1, ?2, TRUE, ?3, ", ["1 )", BLANKS];
    ColumnWords();
    BlankWords();
    assert Words(before) && Words(values) && Words(tail[0]);
    WordsCat(COLUMNS + [values]);
    WordsCat(tail);
    WordsAreTame(before);
    DashedIsTame(Cat(COLUMNS + [values]), Cat(tail));
    SplicedIsBindable(before, table, Cat(COLUMNS + [values]) + "-" + Cat(tail));
  }

  lemma InsertRowIsBindable(table: seq<string>)
    requires IsPath(table)
    ensures Bindable(InsertRowSql(table))
  {
    var before, values, tail := "\nINSERT OR REPLACE INTO ", "VALUES ( ?1, ?2, ?3, ?4, ", "1 )\n        ";
    ColumnWords();
    InsertRowWords();
    WordsCat(COLUMNS + [values]);
    WordsAreTame(before);
    DashedIsTame(Cat(COLUMNS + [values]), tail);
    SplicedIsBindable(before, table, Cat(COLUMNS + [values]) + "-" + tail);
  }

  lemma InsertRowWords()
    ensures Words("\nINSERT OR REPLACE INTO ") && Words("VALUES ( ?1, ?2, ?3, ?4, ") && Words("1 )\n        ")
  {}

  lemma DeleteRowIsBindable(table: seq<string>)
    requires IsPath(table)
    ensures Bindable(DeleteRowSql(table))
  {
    var before, after := "\nDELETE FROM ", "\nWHERE version = ?1\n        ";
    assert Words(before) && Words(after);
    WordsAreTame(before);
    WordsAreTame(after);
    SplicedIsBindable(before, table, after);
  }

  lemma SchemaVersionIsBindable(schema: string)
    ensures Bindable(SchemaVersionSql(schema))
  {
    var before, after := "PRAGMA ", ".schema_version";
    assert Words(before) && Words(after);
    WordsAreTame(before);
    WordsAreTame(after);
    assert DisplayPath([schema]) == Display(schema);
    SplicedIsBindable(before, [schema], after);
  }
}
