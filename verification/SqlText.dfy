/** The lexical structure of SQL text, as an automaton that reads one character at a time. It is the
    reference that the scanner of executor.rs is proved against. */
module SqlText {
  import opened Prelude
  import opened Decimal

  /** In `Sql` a doubled quote, double quote or backtick stays inside its region. The scanner handles
      the single quote that way and lets the other two close and open again. */
  datatype Rules = Sql | Scanner

  /** The region a character is met in. `Escaped` is the second half of a doubled delimiter, the two
      `...Opening` modes the second character of `--` and of a block comment's opener. */
  datatype Mode =
    | Code
    | Quoted(close: char)
    | Escaped(close: char)
    | LineOpening
    | Line
    | BlockOpening
    | Block(star: bool)

  datatype Kind = Plain | Quote | Comment

  predicate NextIs(s: string, i: nat, ch: char) {
    i + 1 < |s| && s[i + 1] == ch
  }

  predicate Doubles(rules: Rules, close: char) {
    close == '\'' || (rules == Sql && (close == '"' || close == '`'))
  }

  function Advance(rules: Rules, s: string, i: nat, m: Mode): Mode
    requires i < |s|
  {
    var ch := s[i];
    match m
    case Code =>
      if ch == '\'' || ch == '"' || ch == '`' then Quoted(ch)
      else if ch == '[' then Quoted(']')
      else if ch == '-' && NextIs(s, i, '-') then LineOpening
      else if ch == '/' && NextIs(s, i, '*') then BlockOpening
      else Code
    case Quoted(close) =>
      if ch != close then m
      else if Doubles(rules, close) && NextIs(s, i, close) then Escaped(close)
      else Code
    case Escaped(close) => Quoted(close)
    case LineOpening => Line
    case Line => if ch == '\n' then Code else Line
    case BlockOpening => Block(false)
    case Block(star) => if star && ch == '/' then Code else Block(ch == '*')
  }

  /** The mode in which position i is met when `from` is met in mode m. */
  function ModeFrom(rules: Rules, s: string, from: nat, m: Mode, i: nat): Mode
    requires from <= i <= |s|
    decreases i - from
  {
    if i == from then m else Advance(rules, s, i - 1, ModeFrom(rules, s, from, m, i - 1))
  }

  function ModeAt(rules: Rules, s: string, i: nat): Mode
    requires i <= |s|
  {
    ModeFrom(rules, s, 0, Code, i)
  }

  function KindIn(rules: Rules, s: string, i: nat, m: Mode): Kind
    requires i < |s|
  {
    match m
    case Code =>
      (match Advance(rules, s, i, m)
       case Quoted(_) => Quote
       case LineOpening => Comment
       case BlockOpening => Comment
       case _ => Plain)
    case Quoted(_) => Quote
    case Escaped(_) => Quote
    case _ => Comment
  }

  function KindAt(rules: Rules, s: string, i: nat): Kind
    requires i < |s|
  {
    KindIn(rules, s, i, ModeAt(rules, s, i))
  }

  /** Unicode's White_Space property. */
  predicate IsWhitespace(ch: char) {
    var c := ch as int;
    || 0x9 <= c <= 0xD || c == 0x20 || c == 0x85 || c == 0xA0 || c == 0x1680 || 0x2000 <= c <= 0x200A
    || c == 0x2028 || c == 0x2029 || c == 0x202F || c == 0x205F || c == 0x3000
  }

  predicate IsAlpha(ch: char) { 'a' <= ch <= 'z' || 'A' <= ch <= 'Z' }

  predicate IsNameChar(ch: char) { IsAlpha(ch) || IsDigit(ch) || ch == '_' }

  /** A visible character outside comments. */
  predicate Text(rules: Rules, s: string, i: nat)
    requires i < |s|
  {
    KindAt(rules, s, i) != Comment && !IsWhitespace(s[i])
  }

  /** Text other than a semicolon. */
  predicate Content(rules: Rules, s: string, i: nat)
    requires i < |s|
  {
    Text(rules, s, i) && s[i] != ';'
  }

  /** A semicolon outside quotes and comments with text before it and content after it. */
  ghost predicate Splits(rules: Rules, s: string, i: nat)
    requires i < |s|
  {
    && KindAt(rules, s, i) == Plain && s[i] == ';'
    && (exists j :: 0 <= j < i && Text(rules, s, j))
    && (exists k :: i < k < |s| && Content(rules, s, k))
  }

  /** The longest placeholder name that starts at i. */
  function NameAt(s: string, i: nat): string
    requires i <= |s|
    decreases |s| - i
  {
    if i < |s| && IsNameChar(s[i]) then [s[i]] + NameAt(s, i + 1) else ""
  }

  /** Whether a placeholder name reads as a 64-bit usize. */
  predicate IsUsize(name: string) {
    && name != ""
    && (forall i :: 0 <= i < |name| ==> IsDigit(name[i]))
    && Value(name) < U64_LIMIT
  }

  /** The placeholder with this mark and name, when Turso arguments cannot be bound to it. */
  function Refusal(mark: char, name: string): Option<string> {
    if mark == '$' then if IsUsize(name) then None else Some([mark] + name)
    else if (mark == ':' || mark == '@') && name != "" then Some([mark] + name)
    else None
  }

  function UnsupportedAt(rules: Rules, s: string, i: nat): Option<string>
    requires i < |s|
  {
    if KindAt(rules, s, i) == Plain then Refusal(s[i], NameAt(s, i + 1)) else None
  }

  function LastUnsupported(rules: Rules, s: string, end: nat): Option<string>
    requires end <= |s|
  {
    if end == 0 then None
    else if UnsupportedAt(rules, s, end - 1).Some? then UnsupportedAt(rules, s, end - 1)
    else LastUnsupported(rules, s, end - 1)
  }

  /** The first semicolon that splits s, or its end. */
  ghost predicate IsCut(rules: Rules, s: string, cut: nat) {
    && cut <= |s|
    && (forall i :: 0 <= i < cut ==> !Splits(rules, s, i))
    && (cut < |s| ==> Splits(rules, s, cut))
  }

  lemma {:induction false} ModesCompose(rules: Rules, s: string, from: nat, m: Mode, mid: nat, i: nat)
    requires from <= mid <= i <= |s|
    ensures ModeFrom(rules, s, from, m, i) == ModeFrom(rules, s, mid, ModeFrom(rules, s, from, m, mid), i)
    decreases i
  {
    if i > mid {
      ModesCompose(rules, s, from, m, mid, i - 1);
    }
  }

  /** The two sets of rules part only on the second half of a doubled delimiter. */
  lemma {:induction false} RulesPartOnEscapes(s: string, i: nat)
    requires i <= |s|
    ensures var (m, n) := (ModeAt(Sql, s, i), ModeAt(Scanner, s, i));
            m == n || (m.Escaped? && n == Code && i < |s| && s[i] == m.close && (m.close == '"' || m.close == '`'))
  {
    if i > 0 {
      RulesPartOnEscapes(s, i - 1);
    }
  }

  /** Closing and reopening on a doubled quote classifies every character as escaping it does. */
  lemma KindsAgree(s: string, i: nat)
    requires i < |s|
    ensures KindAt(Sql, s, i) == KindAt(Scanner, s, i)
  {
    RulesPartOnEscapes(s, i);
  }
}
