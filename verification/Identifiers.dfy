/** migrate.rs: reading and printing SQLite identifiers and dotted identifier paths. */
module Identifiers {
  import opened Prelude
  import opened Decimal
  import opened SqlText

  datatype InvalidIdentifier = InvalidIdentifier(value: string)

  predicate IsIdentifierStart(ch: char) { ch == '_' || IsAlpha(ch) }

  predicate IsIdentifierContinue(ch: char) { ch == '_' || IsAlpha(ch) || IsDigit(ch) }

  /** A name in its quoted spelling, with double quotes doubled. */
  function Doubled(name: string): string {
    if name == "" then ""
    else (if name[0] == '"' then "\"\"" else [name[0]]) + Doubled(name[1..])
  }

  function Display(name: string): string {
    "\"" + Doubled(name) + "\""
  }

  function DisplayPath(path: seq<string>): string {
    if path == [] then ""
    else if |path| == 1 then Display(path[0])
    else DisplayPath(path[..|path| - 1]) + "." + Display(path[|path| - 1])
  }

  predicate IsBare(name: string) {
    name != "" && IsIdentifierStart(name[0]) && forall i :: 0 <= i < |name| ==> IsIdentifierContinue(name[i])
  }

  predicate Starts(s: string, ch: char) { s != "" && s[0] == ch }

  /** value spells name, quoted or bare, as far as it can, and leaves rest. */
  ghost predicate Spells(value: string, name: string, rest: string) {
    || (value == Display(name) + rest && name != "" && !Starts(rest, '"'))
    || (value == name + rest && IsBare(name) && (rest == "" || !IsIdentifierContinue(rest[0])))
  }

  /** value spells a path of one name or two joined by a dot. */
  ghost predicate SpellsPath(value: string, path: seq<string>) {
    || (|path| == 1 && Spells(value, path[0], ""))
    || (|path| == 2 && exists rest :: Spells(value, path[0], "." + rest) && Spells(rest, path[1], ""))
  }

  /* What the parsers read. */

  function BareLength(s: string): (n: nat)
    ensures n <= |s|
  {
    if s != "" && IsIdentifierContinue(s[0]) then 1 + BareLength(s[1..]) else 0
  }

  /** The name and the rest after an opening double quote. */
  function ReadQuoted(s: string): Option<(string, string)> {
    if s == "" then None
    else if s[0] != '"' then Pushed(s[0], ReadQuoted(s[1..]))
    else if |s| > 1 && s[1] == '"' then Pushed('"', ReadQuoted(s[2..]))
    else Some(("", s[1..]))
  }

  function Pushed(ch: char, read: Option<(string, string)>): Option<(string, string)> {
    if read.None? then None else Some(([ch] + read.value.0, read.value.1))
  }

  function ReadPrefix(s: string): Option<(string, string)> {
    if s == "" then None
    else if s[0] == '"' then
      var read := ReadQuoted(s[1..]);
      if read.Some? && read.value.0 != "" then read else None
    else if IsIdentifierStart(s[0]) then
      Some((s[..BareLength(s)], s[BareLength(s)..]))
    else None
  }

  function ReadPath(s: string): Option<seq<string>> {
    var first := ReadPrefix(s);
    if first.None? then None
    else if first.value.1 == "" then Some([first.value.0])
    else if first.value.1[0] != '.' then None
    else
      var second := ReadPrefix(first.value.1[1..]);
      if second.None? || second.value.1 != "" then None else Some([first.value.0, second.value.0])
  }

  /* The parsers. */

  method ParseBarePrefix(value: string, original: string) returns (r: Result<(string, string), InvalidIdentifier>)
    ensures value == "" || !IsIdentifierStart(value[0]) ==> r == Failure(InvalidIdentifier(original))
    ensures value != "" && IsIdentifierStart(value[0]) ==>
              r == Success((value[..BareLength(value)], value[BareLength(value)..]))
  {
    if value == "" || !IsIdentifierStart(value[0]) {
      return Failure(InvalidIdentifier(original));
    }
    var end := 1;
    while end < |value|
      invariant 1 <= end <= |value|
      invariant BareLength(value) == end + BareLength(value[end..])
    {
      if !IsIdentifierContinue(value[end]) {
        break;
      }
      assert value[end..][1..] == value[end + 1..];
      end := end + 1;
    }
    return Success((value[..end], value[end..]));
  }

  method ParseQuotedPrefix(value: string, original: string) returns (r: Result<(string, string), InvalidIdentifier>)
    ensures var read := ReadQuoted(value);
            r == if read.Some? && read.value.0 != "" then Success(read.value) else Failure(InvalidIdentifier(original))
  {
    var identifier := "";
    var index := 0;
    assert value[index..] == value;
    assert ReadQuoted(value).Some? ==> "" + ReadQuoted(value).value.0 == ReadQuoted(value).value.0;
    while index < |value|
      invariant 0 <= index <= |value|
      invariant ReadQuoted(value) == Prepended(identifier, ReadQuoted(value[index..]))
    {
      var ch := value[index];
      if ch != '"' {
        assert value[index..][1..] == value[index + 1..];
        PrependedPush(identifier, ch, ReadQuoted(value[index + 1..]));
        identifier := identifier + [ch];
        index := index + 1;
      } else if index + 1 < |value| && value[index + 1] == '"' {
        assert value[index..][2..] == value[index + 2..];
        PrependedPush(identifier, '"', ReadQuoted(value[index + 2..]));
        identifier := identifier + "\"";
        index := index + 2;
      } else {
        assert value[index..][1..] == value[index + 1..];
        assert identifier + "" == identifier;
        if identifier == "" {
          return Failure(InvalidIdentifier(original));
        }
        return Success((identifier, value[index + 1..]));
      }
    }
    return Failure(InvalidIdentifier(original));
  }

  function Prepended(name: string, read: Option<(string, string)>): Option<(string, string)> {
    if read.None? then None else Some((name + read.value.0, read.value.1))
  }

  lemma PrependedPush(name: string, ch: char, read: Option<(string, string)>)
    ensures Prepended(name, Pushed(ch, read)) == Prepended(name + [ch], read)
  {
    if read.Some? {
      assert name + ([ch] + read.value.0) == name + [ch] + read.value.0;
    }
  }

  function OrInvalid<T>(read: Option<T>, original: string): Result<T, InvalidIdentifier> {
    if read.Some? then Success(read.value) else Failure(InvalidIdentifier(original))
  }

  method ParsePrefix(value: string, original: string) returns (r: Result<(string, string), InvalidIdentifier>)
    ensures r == OrInvalid(ReadPrefix(value), original)
  {
    if Starts(value, '"') {
      r := ParseQuotedPrefix(value[1..], original);
    } else {
      r := ParseBarePrefix(value, original);
    }
  }

  /** The parser of a single name: the schema name of `create_schema_if_not_exists`. */
  method ParseIdentifier(value: string) returns (r: Result<string, InvalidIdentifier>)
    ensures r.Success? <==> exists name :: Spells(value, name, "")
    ensures forall name :: Spells(value, name, "") ==> r == Success(name)
    ensures r.Failure? ==> r.error == InvalidIdentifier(value)
  {
    PrefixIsExact(value);
    var prefix := ParsePrefix(value, value);
    if prefix.Failure? {
      return Failure(prefix.error);
    }
    if prefix.value.1 != "" {
      return Failure(InvalidIdentifier(value));
    }
    return Success(prefix.value.0);
  }

  method ParsePath(value: string) returns (r: Result<seq<string>, InvalidIdentifier>)
    ensures r == OrInvalid(ReadPath(value), value)
  {
    var first := ParsePrefix(value, value);
    if first.Failure? {
      return Failure(first.error);
    }
    var parts, rest := [first.value.0], first.value.1;
    while Starts(rest, '.')
      invariant 1 <= |parts| <= 2
      invariant ReadPrefix(value).Some? && parts[0] == ReadPrefix(value).value.0
      invariant |parts| == 1 ==> rest == ReadPrefix(value).value.1
      invariant |parts| == 2 ==>
                  && Starts(ReadPrefix(value).value.1, '.')
                  && ReadPrefix(ReadPrefix(value).value.1[1..]) == Some((parts[1], rest))
      decreases 2 - |parts|
    {
      if |parts| == 2 {
        return Failure(InvalidIdentifier(value));
      }
      var part := ParsePrefix(rest[1..], value);
      if part.Failure? {
        return Failure(part.error);
      }
      parts := parts + [part.value.0];
      rest := part.value.1;
    }
    if rest != "" {
      return Failure(InvalidIdentifier(value));
    }
    assert parts == if |parts| == 1 then [parts[0]] else [parts[0], parts[1]];
    return Success(parts);
  }

  method PrintPath(path: seq<string>) returns (s: string)
    ensures s == DisplayPath(path)
  {
    s := "";
    if path == [] {
      return;
    }
    s := Display(path[0]);
    assert path[..1] == [path[0]];
    for i := 1 to |path|
      invariant s == DisplayPath(path[..i])
    {
      assert path[..i + 1][..i] == path[..i];
      s := s + "." + Display(path[i]);
    }
    assert path[..|path|] == path;
  }

  /* What the parsers accept. */

  lemma {:induction false} QuotedSound(s: string)
    requires ReadQuoted(s).Some?
    ensures var (name, rest) := ReadQuoted(s).value;
            s == Doubled(name) + "\"" + rest && !Starts(rest, '"')
  {
    var (name, rest) := ReadQuoted(s).value;
    if s[0] != '"' {
      QuotedSound(s[1..]);
      assert name[1..] == ReadQuoted(s[1..]).value.0;
    } else if |s| > 1 && s[1] == '"' {
      QuotedSound(s[2..]);
      assert name[1..] == ReadQuoted(s[2..]).value.0;
    }
  }

  lemma {:induction false} QuotedComplete(name: string, rest: string)
    requires !Starts(rest, '"')
    ensures ReadQuoted(Doubled(name) + "\"" + rest) == Some((name, rest))
  {
    var s := Doubled(name) + "\"" + rest;
    if name == "" {
      assert s[1..] == rest;
    } else {
      QuotedComplete(name[1..], rest);
      var shorter := Doubled(name[1..]) + "\"" + rest;
      assert s == (if name[0] == '"' then "\"\"" else [name[0]]) + shorter;
      assert s[if name[0] == '"' then 2 else 1..] == shorter;
      assert [name[0]] + name[1..] == name;
    }
  }

  lemma {:induction false} BareLengthIs(name: string, rest: string)
    requires forall i :: 0 <= i < |name| ==> IsIdentifierContinue(name[i])
    requires rest == "" || !IsIdentifierContinue(rest[0])
    ensures BareLength(name + rest) == |name|
  {
    if name == "" {
      assert name + rest == rest;
    } else {
      assert (name + rest)[1..] == name[1..] + rest;
      BareLengthIs(name[1..], rest);
    }
  }

  lemma {:induction false} BareIsContinue(s: string)
    ensures forall i :: 0 <= i < BareLength(s) ==> IsIdentifierContinue(s[i])
    ensures BareLength(s) == |s| || !IsIdentifierContinue(s[BareLength(s)])
  {
    if s != "" && IsIdentifierContinue(s[0]) {
      BareIsContinue(s[1..]);
      forall i | 0 <= i < BareLength(s) ensures IsIdentifierContinue(s[i]) {
        assert i > 0 ==> s[i] == s[1..][i - 1];
      }
    }
  }

  lemma QuotedPrefixSound(s: string)
    requires Starts(s, '"') && ReadPrefix(s).Some?
    ensures Spells(s, ReadPrefix(s).value.0, ReadPrefix(s).value.1)
  {
    var (name, rest) := ReadQuoted(s[1..]).value;
    QuotedSound(s[1..]);
    calc {
      s;
      "\"" + s[1..];
      "\"" + (Doubled(name) + "\"" + rest);
      Display(name) + rest;
    }
  }

  lemma BarePrefixSound(s: string)
    requires s != "" && IsIdentifierStart(s[0])
    ensures Spells(s, s[..BareLength(s)], s[BareLength(s)..])
  {
    BareIsContinue(s);
    var name := s[..BareLength(s)];
    assert s == name + s[BareLength(s)..] && IsBare(name);
  }

  lemma PrefixSound(s: string)
    requires ReadPrefix(s).Some?
    ensures Spells(s, ReadPrefix(s).value.0, ReadPrefix(s).value.1)
  {
    if Starts(s, '"') {
      QuotedPrefixSound(s);
    } else {
      BarePrefixSound(s);
    }
  }

  lemma PrefixComplete(s: string, name: string, rest: string)
    requires Spells(s, name, rest)
    ensures ReadPrefix(s) == Some((name, rest))
  {
    if s == Display(name) + rest && name != "" && !Starts(rest, '"') {
      QuotedComplete(name, rest);
      assert s[1..] == Doubled(name) + "\"" + rest;
    } else {
      BareLengthIs(name, rest);
    }
  }

  /** Each text spells at most one name and rest, and the parser finds it exactly when there is one. */
  lemma PrefixIsExact(s: string)
    ensures forall name, rest :: Spells(s, name, rest) <==> ReadPrefix(s) == Some((name, rest))
  {
    forall name, rest ensures Spells(s, name, rest) <==> ReadPrefix(s) == Some((name, rest)) {
      if Spells(s, name, rest) {
        PrefixComplete(s, name, rest);
      } else if ReadPrefix(s).Some? {
        PrefixSound(s);
      }
    }
  }

  /** The path parser accepts exactly the spellings of paths of one or two names, and reads the path
      that is spelt. */
  lemma PathIsExact(s: string, path: seq<string>)
    ensures ReadPath(s) == Some(path) <==> SpellsPath(s, path)
  {
    if ReadPath(s) == Some(path) {
      PathSound(s);
    }
    if SpellsPath(s, path) {
      PathComplete(s, path);
    }
  }

  lemma PathSound(s: string)
    requires ReadPath(s).Some?
    ensures SpellsPath(s, ReadPath(s).value)
  {
    PrefixSound(s);
    var path, after := ReadPath(s).value, ReadPrefix(s).value.1;
    if |path| == 2 {
      assert after == "." + after[1..];
      PrefixSound(after[1..]);
      assert Spells(s, path[0], "." + after[1..]) && Spells(after[1..], path[1], "");
    }
  }

  lemma PathComplete(s: string, path: seq<string>)
    requires SpellsPath(s, path)
    ensures ReadPath(s) == Some(path)
  {
    if |path| == 1 {
      PrefixComplete(s, path[0], "");
      assert path == [path[0]];
    } else {
      var rest :| Spells(s, path[0], "." + rest) && Spells(rest, path[1], "");
      PrefixComplete(s, path[0], "." + rest);
      assert ("." + rest)[1..] == rest;
      PrefixComplete(rest, path[1], "");
      assert path == [path[0], path[1]];
    }
  }

  predicate IsPath(path: seq<string>) {
    1 <= |path| <= 2 && forall i :: 0 <= i < |path| ==> path[i] != ""
  }

  /** Parsing undoes printing. */
  lemma ParseUndoesDisplay(path: seq<string>)
    requires IsPath(path)
    ensures ReadPath(DisplayPath(path)) == Some(path)
  {
    var s := DisplayPath(path);
    if |path| == 1 {
      assert s == Display(path[0]) + "";
      assert Spells(s, path[0], "");
    } else {
      var rest := Display(path[1]);
      assert path[..|path| - 1] == [path[0]];
      assert s == DisplayPath([path[0]]) + "." + rest;
      assert s == Display(path[0]) + ("." + rest);
      assert Spells(s, path[0], "." + rest);
      assert rest == Display(path[1]) + "";
      assert Spells(rest, path[1], "");
    }
    PathComplete(s, path);
  }

  /** Whatever is accepted is a path, and printing it and parsing again changes nothing. */
  lemma DisplayIsCanonical(s: string)
    requires ReadPath(s).Some?
    ensures IsPath(ReadPath(s).value)
    ensures ReadPath(DisplayPath(ReadPath(s).value)) == ReadPath(s)
  {
    PathIsExact(s, ReadPath(s).value);
    ParseUndoesDisplay(ReadPath(s).value);
  }

  /** Printing tells paths apart. */
  lemma DisplayIsInjective(path: seq<string>, path': seq<string>)
    requires IsPath(path) && IsPath(path') && DisplayPath(path) == DisplayPath(path')
    ensures path == path'
  {
    ParseUndoesDisplay(path);
    ParseUndoesDisplay(path');
  }

  /* Which bare texts are names. */

  predicate IsAsciiLetter(ch: char) { 'a' <= ch <= 'z' || 'A' <= ch <= 'Z' }

  predicate IsWord(s: string) {
    && s != "" && (s[0] == '_' || IsAsciiLetter(s[0]))
    && forall i :: 0 <= i < |s| ==> s[i] == '_' || IsAsciiLetter(s[i]) || '0' <= s[i] <= '9'
  }

  lemma {:induction false} WordLength(s: string)
    requires forall i :: 0 <= i < |s| ==> s[i] == '_' || IsAsciiLetter(s[i]) || '0' <= s[i] <= '9'
    ensures BareLength(s) == |s|
  {
    if s != "" {
      WordLength(s[1..]);
    }
  }

  /** An unquoted text without a dot is a path exactly when it is a word: ASCII letters, digits and
      underscores, with no digit first. Then it is its own name. */
  lemma BareNames(s: string)
    requires '"' !in s && '.' !in s
    ensures ReadPath(s) == if IsWord(s) then Some([s]) else None
  {
    if IsWord(s) {
      WordLength(s);
      assert s[..|s|] == s && s[|s|..] == "";
    } else if s != "" && IsIdentifierStart(s[0]) {
      BareIsContinue(s);
      var rest := s[BareLength(s)..];
      assert rest != "" ==> rest[0] in s;
    }
  }
}
