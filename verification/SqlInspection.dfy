/** executor.rs: the scanner that decides how a query is sent, proved against the automaton of SqlText. */
module SqlInspection {
  import opened Prelude
  import opened Decimal
  import opened SqlText

  datatype Inspection = Inspection(mayContainMultipleStatements: bool, unsupportedNamedPlaceholder: Option<string>)

  /** What an inspection of s says: whether some semicolon splits it, and the last placeholder that
      cannot be bound among those before that semicolon. */
  ghost predicate Describes(rules: Rules, s: string, r: Inspection) {
    exists cut: nat ::
      && IsCut(rules, s, cut)
      && r == Inspection(cut < |s|, LastUnsupported(rules, s, cut))
  }

  /** A peekable iterator over the characters of a text. */
  class Chars {
    const text: string
    var pos: nat

    ghost predicate Valid()
      reads this
    {
      pos <= |text|
    }

    constructor (text: string, pos: nat)
      requires pos <= |text|
      ensures this.text == text && this.pos == pos && Valid()
    {
      this.text, this.pos := text, pos;
    }

    method Next() returns (ch: Option<char>)
      requires Valid()
      modifies this
      ensures Valid()
      ensures old(pos) == |text| ==> ch == None && pos == old(pos)
      ensures old(pos) < |text| ==> ch == Some(text[old(pos)]) && pos == old(pos) + 1
    {
      if pos == |text| {
        return None;
      }
      ch := Some(text[pos]);
      pos := pos + 1;
    }

    method NextIfEq(ch: char) returns (taken: bool)
      requires Valid()
      modifies this
      ensures Valid()
      ensures taken == (old(pos) < |text| && text[old(pos)] == ch)
      ensures pos == if taken then old(pos) + 1 else old(pos)
    {
      taken := pos < |text| && text[pos] == ch;
      if taken {
        pos := pos + 1;
      }
    }
  }

  /** From `from`, met in mode m, `stop` is where the automaton is first back in code, or the end. */
  ghost predicate SkipsTo(s: string, from: nat, m: Mode, stop: nat) {
    && from <= stop <= |s|
    && (forall i :: from <= i < stop ==> ModeFrom(Scanner, s, from, m, i) != Code)
    && (stop == |s| || ModeFrom(Scanner, s, from, m, stop) == Code)
  }

  method SkipSingleQuoted(chars: Chars)
    requires chars.Valid()
    modifies chars
    ensures chars.Valid() && SkipsTo(chars.text, old(chars.pos), Quoted('\''), chars.pos)
  {
    ghost var from := chars.pos;
    while true
      invariant chars.Valid() && from <= chars.pos
      invariant forall i :: from <= i < chars.pos ==> ModeFrom(Scanner, chars.text, from, Quoted('\''), i) != Code
      invariant ModeFrom(Scanner, chars.text, from, Quoted('\''), chars.pos) == Quoted('\'')
      decreases |chars.text| - chars.pos
    {
      ghost var at := chars.pos;
      var quoted := chars.Next();
      if quoted.None? {
        break;
      }
      if quoted.value == '\'' {
        var doubled := chars.NextIfEq('\'');
        if !doubled {
          break;
        }
        assert ModeFrom(Scanner, chars.text, from, Quoted('\''), at + 1) == Escaped('\'');
      }
    }
  }

  method SkipQuoted(chars: Chars, quote: char)
    requires chars.Valid() && quote != '\''
    modifies chars
    ensures chars.Valid() && SkipsTo(chars.text, old(chars.pos), Quoted(quote), chars.pos)
  {
    ghost var from := chars.pos;
    while true
      invariant chars.Valid() && from <= chars.pos
      invariant forall i :: from <= i <= chars.pos ==>
                  ModeFrom(Scanner, chars.text, from, Quoted(quote), i) == Quoted(quote)
      decreases |chars.text| - chars.pos
    {
      var quoted := chars.Next();
      if quoted.None? || quoted.value == quote {
        break;
      }
    }
  }

  method SkipLineComment(chars: Chars)
    requires chars.Valid()
    modifies chars
    ensures chars.Valid() && SkipsTo(chars.text, old(chars.pos), Line, chars.pos)
  {
    ghost var from := chars.pos;
    while true
      invariant chars.Valid() && from <= chars.pos
      invariant forall i :: from <= i <= chars.pos ==> ModeFrom(Scanner, chars.text, from, Line, i) == Line
      decreases |chars.text| - chars.pos
    {
      var comment := chars.Next();
      if comment.None? || comment.value == '\n' {
        break;
      }
    }
  }

  method SkipBlockComment(chars: Chars)
    requires chars.Valid()
    modifies chars
    ensures chars.Valid() && SkipsTo(chars.text, old(chars.pos), Block(false), chars.pos)
  {
    ghost var from := chars.pos;
    var previous := '\0';
    while true
      invariant chars.Valid() && from <= chars.pos
      invariant forall i :: from <= i < chars.pos ==> ModeFrom(Scanner, chars.text, from, Block(false), i) != Code
      invariant ModeFrom(Scanner, chars.text, from, Block(false), chars.pos) == Block(previous == '*')
      decreases |chars.text| - chars.pos
    {
      var comment := chars.Next();
      if comment.None? || (previous == '*' && comment.value == '/') {
        break;
      }
      previous := comment.value;
    }
  }

  /** Skips a comment whose first character has been read, if its second character follows. */
  method SkipIfComment(chars: Chars, second: char) returns (skipped: bool)
    requires chars.Valid() && (second == '-' || second == '*')
    modifies chars
    ensures chars.Valid()
    ensures skipped == (old(chars.pos) < |chars.text| && chars.text[old(chars.pos)] == second)
    ensures !skipped ==> chars.pos == old(chars.pos)
    ensures skipped ==> SkipsTo(chars.text, old(chars.pos) + 1, if second == '-' then Line else Block(false), chars.pos)
  {
    skipped := chars.NextIfEq(second);
    if skipped {
      if second == '-' {
        SkipLineComment(chars);
      } else {
        SkipBlockComment(chars);
      }
    }
  }

  method ReadPlaceholderName(chars: Chars) returns (name: string)
    requires chars.Valid()
    modifies chars
    ensures chars.Valid()
    ensures name == NameAt(chars.text, old(chars.pos)) && chars.pos == old(chars.pos) + |name|
  {
    name := "";
    ghost var from := chars.pos;
    while chars.pos < |chars.text|
      invariant chars.Valid() && chars.pos == from + |name|
      invariant NameAt(chars.text, from) == name + NameAt(chars.text, chars.pos)
    {
      var ch := chars.text[chars.pos];
      if !IsNameChar(ch) {
        break;
      }
      name := name + [ch];
      var _ := chars.Next();
    }
  }

  function KindFrom(s: string, base: nat, i: nat): Kind
    requires base <= i < |s|
  {
    KindIn(Scanner, s, i, ModeFrom(Scanner, s, base, Code, i))
  }

  function RegionKind(m: Mode): Kind {
    if m.Quoted? || m.Escaped? then Quote else if m.Code? then Plain else Comment
  }

  /** What a skipper has passed over is all of one kind, and the scan goes on in code. */
  lemma {:induction false} Skipped(s: string, base: nat, at: nat, m: Mode, stop: nat)
    requires base <= at && SkipsTo(s, at, m, stop) && ModeFrom(Scanner, s, base, Code, at) == m
    ensures forall i :: at <= i < stop ==> KindFrom(s, base, i) == RegionKind(m)
    ensures stop == |s| || ModeFrom(Scanner, s, base, Code, stop) == Code
  {
    forall i | at <= i < stop ensures KindFrom(s, base, i) == RegionKind(m) {
      KindInRegion(s, at, m, stop, i);
      ModesCompose(Scanner, s, base, Code, at, i);
    }
    ModesCompose(Scanner, s, base, Code, at, stop);
  }

  lemma {:induction false} KindInRegion(s: string, at: nat, m: Mode, stop: nat, i: nat)
    requires SkipsTo(s, at, m, stop) && at <= i < stop
    ensures RegionKind(ModeFrom(Scanner, s, at, m, i)) == RegionKind(m)
    decreases i
  {
    if i > at {
      KindInRegion(s, at, m, stop, i - 1);
      assert ModeFrom(Scanner, s, at, m, i - 1) != Code && ModeFrom(Scanner, s, at, m, i) != Code;
    }
  }

  predicate ContentFrom(s: string, base: nat, i: nat)
    requires base <= i < |s|
  {
    KindFrom(s, base, i) != Comment && !IsWhitespace(s[i]) && s[i] != ';'
  }

  /** The state of the lookahead at its head: nothing but comments, blanks and semicolons so far. */
  ghost predicate OnlyFiller(s: string, base: nat, pos: nat) {
    && base <= pos <= |s|
    && (pos == |s| || ModeFrom(Scanner, s, base, Code, pos) == Code)
    && (forall k :: base <= k < pos ==> !ContentFrom(s, base, k))
  }

  /** A comment that opens at `at` in code is consumed whole. */
  lemma CommentConsumed(s: string, base: nat, at: nat, stop: nat)
    requires base <= at && at + 1 < |s| && ModeFrom(Scanner, s, base, Code, at) == Code
    requires (s[at] == '-' && s[at + 1] == '-' && SkipsTo(s, at + 2, Line, stop))
          || (s[at] == '/' && s[at + 1] == '*' && SkipsTo(s, at + 2, Block(false), stop))
    ensures forall i :: at <= i < stop ==> KindFrom(s, base, i) == Comment
    ensures stop == |s| || ModeFrom(Scanner, s, base, Code, stop) == Code
  {
    var opening := ModeFrom(Scanner, s, base, Code, at + 1);
    assert opening == if s[at] == '-' then LineOpening else BlockOpening;
    assert ModeFrom(Scanner, s, base, Code, at + 2) == if s[at] == '-' then Line else Block(false);
    Skipped(s, base, at + 2, if s[at] == '-' then Line else Block(false), stop);
  }

  lemma FillerStep(s: string, base: nat, at: nat)
    requires OnlyFiller(s, base, at) && at < |s|
    requires IsWhitespace(s[at]) || s[at] == ';'
    ensures OnlyFiller(s, base, at + 1)
  {
    assert ModeFrom(Scanner, s, base, Code, at + 1) == Code;
  }

  method HasRemainingStatementText(chars: Chars) returns (found: bool)
    requires chars.Valid()
    modifies chars
    ensures found <==> exists k :: old(chars.pos) <= k < |chars.text| && ContentFrom(chars.text, old(chars.pos), k)
  {
    ghost var base, s := chars.pos, chars.text;
    while true
      invariant chars.Valid() && OnlyFiller(s, base, chars.pos)
      decreases |s| - chars.pos
    {
      ghost var at := chars.pos;
      var next := chars.Next();
      if next.None? {
        return false;
      }
      var ch := next.value;
      var skipped := false;
      if ch == '-' || ch == '/' {
        skipped := SkipIfComment(chars, if ch == '-' then '-' else '*');
      }
      if skipped {
        CommentConsumed(s, base, at, chars.pos);
      } else if !IsWhitespace(ch) && ch != ';' {
        assert KindFrom(s, base, at) != Comment;
        assert ContentFrom(s, base, at);
        return true;
      } else {
        FillerStep(s, base, at);
      }
    }
  }

  predicate AnyText(s: string, end: nat)
    requires end <= |s|
  {
    end > 0 && (Text(Scanner, s, end - 1) || AnyText(s, end - 1))
  }

  ghost predicate NoSplits(s: string, end: nat)
    requires end <= |s|
  {
    end == 0 || (!Splits(Scanner, s, end - 1) && NoSplits(s, end - 1))
  }

  lemma {:induction false} AnyTextExists(s: string, end: nat)
    requires end <= |s|
    ensures AnyText(s, end) <==> exists j :: 0 <= j < end && Text(Scanner, s, j)
  {
    if end > 0 {
      AnyTextExists(s, end - 1);
    }
  }

  lemma {:induction false} NoSplitsForall(s: string, end: nat)
    requires end <= |s|
    ensures NoSplits(s, end) <==> forall i :: 0 <= i < end ==> !Splits(Scanner, s, i)
  {
    if end > 0 {
      NoSplitsForall(s, end - 1);
    }
  }

  /** The state of the scan at its head: text seen, nothing split, the last placeholder remembered. */
  ghost predicate Scanned(s: string, pos: nat, saw: bool, placeholder: Option<string>) {
    && pos <= |s|
    && (pos == |s| || ModeAt(Scanner, s, pos) == Code)
    && saw == AnyText(s, pos)
    && NoSplits(s, pos)
    && placeholder == LastUnsupported(Scanner, s, pos)
  }

  /** The placeholder to remember once `at` has been passed. */
  function Noted(s: string, at: nat, last: Option<string>): Option<string>
    requires at < |s|
  {
    if UnsupportedAt(Scanner, s, at).Some? then UnsupportedAt(Scanner, s, at) else last
  }

  /** One step of the scan: `at` is a position in code and [at, stop) is what the step consumes. */
  lemma {:induction false} ScanStep(s: string, at: nat, stop: nat, saw: bool, last: Option<string>, saw': bool)
    requires Scanned(s, at, saw, last) && at < stop <= |s|
    requires stop == |s| || ModeAt(Scanner, s, stop) == Code
    requires forall i {:trigger KindAt(Scanner, s, i)} :: at < i < stop ==>
               KindAt(Scanner, s, i) != Plain || IsNameChar(s[i])
    requires Text(Scanner, s, at) || forall i :: at < i < stop ==> !Text(Scanner, s, i)
    requires saw' == (saw || Text(Scanner, s, at))
    requires !Splits(Scanner, s, at)
    ensures Scanned(s, stop, saw', Noted(s, at, last))
  {
    PassedOver(s, at + 1, stop);
  }

  lemma {:induction false} PassedOver(s: string, from: nat, stop: nat)
    requires from <= stop <= |s|
    requires forall i {:trigger KindAt(Scanner, s, i)} :: from <= i < stop ==>
               KindAt(Scanner, s, i) != Plain || IsNameChar(s[i])
    requires AnyText(s, from) || forall i :: from <= i < stop ==> !Text(Scanner, s, i)
    ensures LastUnsupported(Scanner, s, stop) == LastUnsupported(Scanner, s, from)
    ensures AnyText(s, stop) == AnyText(s, from)
    ensures NoSplits(s, stop) == NoSplits(s, from)
    decreases stop
  {
    if from != stop {
      PassedOver(s, from, stop - 1);
      assert KindAt(Scanner, s, stop - 1) != Plain || IsNameChar(s[stop - 1]);
    }
  }

  lemma SplitsAgree(s: string, i: nat)
    requires i < |s|
    ensures Splits(Sql, s, i) <==> Splits(Scanner, s, i)
  {
    KindsAgree(s, i);
    forall k | 0 <= k < |s|
      ensures Text(Sql, s, k) == Text(Scanner, s, k) && Content(Sql, s, k) == Content(Scanner, s, k)
    {
      KindsAgree(s, k);
    }
  }

  lemma {:induction false} PlaceholdersAgree(s: string, end: nat)
    requires end <= |s|
    ensures LastUnsupported(Sql, s, end) == LastUnsupported(Scanner, s, end)
  {
    if end > 0 {
      KindsAgree(s, end - 1);
      PlaceholdersAgree(s, end - 1);
    }
  }

  /** Letting a doubled double quote or backtick close and reopen its region gives, on every text, the
      inspection that reading it as an escape gives. */
  lemma InspectionsAgree(s: string, r: Inspection)
    ensures Describes(Sql, s, r) <==> Describes(Scanner, s, r)
  {
    forall i | 0 <= i < |s| ensures Splits(Sql, s, i) <==> Splits(Scanner, s, i) {
      SplitsAgree(s, i);
    }
    forall cut | 0 <= cut <= |s|
      ensures IsCut(Sql, s, cut) == IsCut(Scanner, s, cut)
      ensures LastUnsupported(Sql, s, cut) == LastUnsupported(Scanner, s, cut)
    {
      PlaceholdersAgree(s, cut);
    }
  }

  lemma ScanEnds(s: string, pos: nat, saw: bool, last: Option<string>)
    requires Scanned(s, pos, saw, last) && (pos == |s| || Splits(Scanner, s, pos))
    ensures Describes(Sql, s, Inspection(pos != |s|, last))
  {
    NoSplitsForall(s, pos);
    assert IsCut(Scanner, s, pos);
    InspectionsAgree(s, Inspection(pos != |s|, last));
  }

  /** Characters of a placeholder name are plain code. */
  lemma {:induction false} NameIsPlain(s: string, from: nat, i: nat)
    requires from <= |s| && from <= i <= from + |NameAt(s, from)| && ModeAt(Scanner, s, from) == Code
    ensures i <= |s| && ModeAt(Scanner, s, i) == Code
    ensures i < from + |NameAt(s, from)| ==> i < |s| && IsNameChar(s[i]) && KindAt(Scanner, s, i) == Plain
    decreases i - from
  {
    if i > from {
      assert NameAt(s, from) == [s[from]] + NameAt(s, from + 1);
      NameIsPlain(s, from + 1, i);
    }
  }

  ghost predicate NameChars(s: string, from: nat, stop: nat) {
    && from <= stop <= |s|
    && forall i {:trigger KindAt(Scanner, s, i)} :: from <= i < stop ==>
         KindAt(Scanner, s, i) == Plain && IsNameChar(s[i])
  }

  lemma PlaceholderConsumed(s: string, at: nat, stop: nat)
    requires at < |s| && ModeAt(Scanner, s, at) == Code && (s[at] == '$' || s[at] == ':' || s[at] == '@')
    requires stop == at + 1 + |NameAt(s, at + 1)|
    ensures stop <= |s| && ModeAt(Scanner, s, stop) == Code
    ensures NameChars(s, at + 1, stop)
  {
    NameIsPlain(s, at + 1, stop);
    forall i | at < i < stop ensures i < |s| && KindAt(Scanner, s, i) == Plain && IsNameChar(s[i]) {
      NameIsPlain(s, at + 1, i);
    }
  }

  lemma MarkStep(s: string, at: nat, stop: nat, saw: bool, last: Option<string>)
    requires Scanned(s, at, saw, last) && at < stop <= |s| && (s[at] == '$' || s[at] == ':' || s[at] == '@')
    requires ModeAt(Scanner, s, stop) == Code
    requires NameChars(s, at + 1, stop)
    ensures Scanned(s, stop, true, Noted(s, at, last))
  {
    assert Text(Scanner, s, at) && !Splits(Scanner, s, at);
    ScanStep(s, at, stop, saw, last, true);
  }

  lemma PlaceholderStep(s: string, at: nat, stop: nat, saw: bool, last: Option<string>)
    requires Scanned(s, at, saw, last) && at < |s| && (s[at] == '$' || s[at] == ':' || s[at] == '@')
    requires stop == at + 1 + |NameAt(s, at + 1)|
    ensures Scanned(s, stop, true, Noted(s, at, last))
  {
    PlaceholderConsumed(s, at, stop);
    MarkStep(s, at, stop, saw, last);
  }

  lemma QuoteStep(s: string, at: nat, stop: nat, close: char, saw: bool, last: Option<string>)
    requires Scanned(s, at, saw, last) && at < |s|
    requires Advance(Scanner, s, at, Code) == Quoted(close) && SkipsTo(s, at + 1, Quoted(close), stop)
    requires !IsWhitespace(s[at])
    ensures Scanned(s, stop, true, last)
  {
    assert ModeAt(Scanner, s, at + 1) == Quoted(close);
    Skipped(s, 0, at + 1, Quoted(close), stop);
    assert KindAt(Scanner, s, at) == Quote;
    forall i | at < i < stop ensures KindAt(Scanner, s, i) != Plain {
      assert KindFrom(s, 0, i) == Quote;
    }
    ScanStep(s, at, stop, saw, last, true);
  }

  lemma CommentStep(s: string, at: nat, stop: nat, saw: bool, last: Option<string>)
    requires Scanned(s, at, saw, last) && at + 1 < |s|
    requires (s[at] == '-' && s[at + 1] == '-' && SkipsTo(s, at + 2, Line, stop))
          || (s[at] == '/' && s[at + 1] == '*' && SkipsTo(s, at + 2, Block(false), stop))
    ensures Scanned(s, stop, saw, last)
  {
    CommentConsumed(s, 0, at, stop);
    forall i | at <= i < stop ensures KindAt(Scanner, s, i) == Comment {
      assert KindFrom(s, 0, i) == Comment;
    }
    ScanStep(s, at, stop, saw, last, saw);
  }

  lemma PlainStep(s: string, at: nat, saw: bool, last: Option<string>)
    requires Scanned(s, at, saw, last) && at < |s|
    requires Advance(Scanner, s, at, Code) == Code && s[at] != '$' && s[at] != ':' && s[at] != '@'
    requires !Splits(Scanner, s, at)
    ensures Scanned(s, at + 1, saw || !IsWhitespace(s[at]), last)
  {
    assert ModeAt(Scanner, s, at + 1) == Code;
    ScanStep(s, at, at + 1, saw, last, saw || !IsWhitespace(s[at]));
  }

  /** The lookahead after a semicolon in code decides whether it splits the text. */
  lemma LookaheadDecides(s: string, at: nat, base: nat, saw: bool, last: Option<string>)
    requires Scanned(s, at, saw, last) && at < |s| && s[at] == ';' && base == at + 1
    ensures Splits(Scanner, s, at) <==> saw && exists k :: base <= k < |s| && ContentFrom(s, base, k)
  {
    AnyTextExists(s, at);
    assert ModeAt(Scanner, s, base) == Code && KindAt(Scanner, s, at) == Plain;
    forall k | base <= k < |s| ensures ContentFrom(s, base, k) == Content(Scanner, s, k) {
      ModesCompose(Scanner, s, 0, Code, base, k);
    }
  }

  method InspectSql(sql: string) returns (inspection: Inspection)
    ensures Describes(Sql, sql, inspection)
  {
    inspection := Inspection(false, None);
    var sawStatement := false;
    var chars := new Chars(sql, 0);
    while true
      invariant chars.Valid() && chars.text == sql && fresh(chars)
      invariant Scanned(sql, chars.pos, sawStatement, inspection.unsupportedNamedPlaceholder)
      invariant !inspection.mayContainMultipleStatements
      decreases |sql| - chars.pos
    {
      ghost var at, saw, last := chars.pos, sawStatement, inspection.unsupportedNamedPlaceholder;
      var next := chars.Next();
      if next.None? {
        ScanEnds(sql, at, saw, last);
        return;
      }
      var ch := next.value;
      match ch
      case '\'' =>
        sawStatement := true;
        SkipSingleQuoted(chars);
        QuoteStep(sql, at, chars.pos, ch, saw, last);
      case '"' | '`' =>
        sawStatement := true;
        SkipQuoted(chars, ch);
        QuoteStep(sql, at, chars.pos, ch, saw, last);
      case '[' =>
        sawStatement := true;
        SkipQuoted(chars, ']');
        QuoteStep(sql, at, chars.pos, ']', saw, last);
      case '-' | '/' =>
        var skipped := SkipIfComment(chars, if ch == '-' then '-' else '*');
        if skipped {
          CommentStep(sql, at, chars.pos, saw, last);
        } else {
          sawStatement := true;
          PlainStep(sql, at, saw, last);
        }
      case ';' =>
        var splits := false;
        if sawStatement {
          var rest := new Chars(chars.text, chars.pos);
          splits := HasRemainingStatementText(rest);
        }
        LookaheadDecides(sql, at, at + 1, saw, last);
        if splits {
          inspection := inspection.(mayContainMultipleStatements := true);
          ScanEnds(sql, at, saw, last);
          return;
        }
        sawStatement := true;
        PlainStep(sql, at, saw, last);
      case '$' | ':' | '@' =>
        sawStatement := true;
        var name := ReadPlaceholderName(chars);
        if Refusal(ch, name).Some? {
          inspection := inspection.(unsupportedNamedPlaceholder := Refusal(ch, name));
        }
        PlaceholderStep(sql, at, chars.pos, saw, last);
      case _ =>
        if !IsWhitespace(ch) {
          sawStatement := true;
        }
        PlainStep(sql, at, saw, last);
    }
  }
}
