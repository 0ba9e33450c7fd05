/** The stretches of text that quotes, brackets and comments cover, in terms of characters. */
module Regions {
  import opened Prelude
  import opened Decimal
  import opened SqlText

  /** The characters from `open` up to `stop` are of one kind with no code among them, and what follows,
      if anything does, is code. */
  ghost predicate IsRegion(s: string, open: nat, stop: nat, kind: Kind) {
    && open < stop <= |s|
    && (forall i :: open <= i < stop ==> KindAt(Sql, s, i) == kind)
    && (forall i :: open < i < stop ==> ModeAt(Sql, s, i) != Code)
    && (stop < |s| ==> ModeAt(Sql, s, stop) == Code)
  }

  /** A bracket quotes everything up to the first closing bracket, or to the end. */
  lemma BracketRegion(s: string, open: nat, stop: nat)
    requires open < stop <= |s| && ModeAt(Sql, s, open) == Code && s[open] == '['
    requires forall i :: open < i < stop - 1 ==> s[i] != ']'
    requires stop < |s| ==> open < stop - 1 && s[stop - 1] == ']'
    ensures IsRegion(s, open, stop, Quote)
  {
    forall i | open < i < stop ensures ModeAt(Sql, s, i) == Quoted(']') {
      BracketInside(s, open, i);
    }
    assert ModeAt(Sql, s, stop) == Advance(Sql, s, stop - 1, ModeAt(Sql, s, stop - 1));
  }

  lemma {:induction false} BracketInside(s: string, open: nat, i: nat)
    requires open < i <= |s| && ModeAt(Sql, s, open) == Code && s[open] == '['
    requires forall j :: open < j < i ==> s[j] != ']'
    ensures ModeAt(Sql, s, i) == Quoted(']')
    decreases i
  {
    if i > open + 1 {
      BracketInside(s, open, i - 1);
    }
  }

  predicate IsQuote(ch: char) { ch == '\'' || ch == '"' || ch == '`' }

  /** Where a region that was opened before i by the quote ch ends: after the first ch that is not one of a
      pair, or at the end. */
  function QuoteEnd(s: string, ch: char, i: nat): (stop: nat)
    requires i <= |s|
    ensures i <= stop <= |s|
    decreases |s| - i
  {
    if i == |s| then i
    else if s[i] != ch then QuoteEnd(s, ch, i + 1)
    else if i + 1 < |s| && s[i + 1] == ch then QuoteEnd(s, ch, i + 2)
    else i + 1
  }

  /** A quote covers everything up to the first delimiter that is not doubled. */
  lemma QuoteRegion(s: string, open: nat)
    requires open < |s| && ModeAt(Sql, s, open) == Code && IsQuote(s[open])
    ensures IsRegion(s, open, QuoteEnd(s, s[open], open + 1), Quote)
  {
    assert ModeAt(Sql, s, open + 1) == Quoted(s[open]);
    QuoteInside(s, s[open], open + 1);
  }

  lemma {:induction false} QuoteInside(s: string, ch: char, from: nat)
    requires from <= |s| && IsQuote(ch) && ModeAt(Sql, s, from) == Quoted(ch)
    ensures var stop := QuoteEnd(s, ch, from);
            && (forall i :: from <= i < stop ==> ModeAt(Sql, s, i).Quoted? || ModeAt(Sql, s, i).Escaped?)
            && (stop < |s| ==> ModeAt(Sql, s, stop) == Code)
    decreases |s| - from
  {
    if from < |s| {
      if s[from] != ch {
        assert ModeAt(Sql, s, from + 1) == Quoted(ch);
        QuoteInside(s, ch, from + 1);
      } else if from + 1 < |s| && s[from + 1] == ch {
        assert ModeAt(Sql, s, from + 1) == Escaped(ch);
        assert ModeAt(Sql, s, from + 2) == Quoted(ch);
        QuoteInside(s, ch, from + 2);
      } else {
        assert ModeAt(Sql, s, from + 1) == Code;
      }
    }
  }

  /** Two dashes start a comment that ends with the line, or with the text. */
  lemma LineCommentRegion(s: string, open: nat, stop: nat)
    requires open + 1 < stop <= |s| && ModeAt(Sql, s, open) == Code && s[open] == '-' && s[open + 1] == '-'
    requires forall i :: open + 1 < i < stop - 1 ==> s[i] != '\n'
    requires stop < |s| ==> open + 1 < stop - 1 && s[stop - 1] == '\n'
    ensures IsRegion(s, open, stop, Comment)
  {
    assert ModeAt(Sql, s, open + 1) == LineOpening;
    forall i | open + 1 < i < stop ensures ModeAt(Sql, s, i) == Line {
      LineInside(s, open, i);
    }
    assert ModeAt(Sql, s, stop) == Advance(Sql, s, stop - 1, ModeAt(Sql, s, stop - 1));
  }

  lemma {:induction false} LineInside(s: string, open: nat, i: nat)
    requires open + 1 < i <= |s| && ModeAt(Sql, s, open) == Code && s[open] == '-' && s[open + 1] == '-'
    requires forall j :: open + 1 < j < i ==> s[j] != '\n'
    ensures ModeAt(Sql, s, i) == Line
    decreases i
  {
    assert ModeAt(Sql, s, open + 1) == LineOpening;
    if i > open + 2 {
      LineInside(s, open, i - 1);
    }
  }

  /** A star and a slash that end at i. */
  predicate StarSlash(s: string, i: nat)
    requires 0 < i < |s|
  {
    s[i - 1] == '*' && s[i] == '/'
  }

  /** A slash and a star start a comment that ends with the first star and slash after both, or with the text. */
  lemma BlockCommentRegion(s: string, open: nat, stop: nat)
    requires open + 1 < stop <= |s| && ModeAt(Sql, s, open) == Code && s[open] == '/' && s[open + 1] == '*'
    requires forall i :: open + 2 < i < stop - 1 ==> !StarSlash(s, i)
    requires stop < |s| ==> open + 2 < stop - 1 && StarSlash(s, stop - 1)
    ensures IsRegion(s, open, stop, Comment)
  {
    assert ModeAt(Sql, s, open + 1) == BlockOpening;
    forall i | open + 1 < i < stop ensures ModeAt(Sql, s, i).Block? {
      BlockInside(s, open, i);
    }
    if stop < |s| {
      BlockInside(s, open, stop - 1);
    }
  }

  lemma {:induction false} BlockInside(s: string, open: nat, i: nat)
    requires open + 1 < i <= |s| && ModeAt(Sql, s, open) == Code && s[open] == '/' && s[open + 1] == '*'
    requires forall j :: open + 2 < j < i ==> !StarSlash(s, j)
    ensures ModeAt(Sql, s, i) == Block(i > open + 2 && s[i - 1] == '*')
    decreases i
  {
    assert ModeAt(Sql, s, open + 1) == BlockOpening;
    if i > open + 2 {
      BlockInside(s, open, i - 1);
      assert i - 1 > open + 2 ==> !StarSlash(s, i - 1);
    }
  }

  /** Every other character in code is plain, and code goes on after it. */
  lemma OtherwisePlain(s: string, i: nat)
    requires i < |s| && ModeAt(Sql, s, i) == Code && !IsQuote(s[i]) && s[i] != '['
    requires i + 1 < |s| ==> !(s[i] == '-' && s[i + 1] == '-') && !(s[i] == '/' && s[i + 1] == '*')
    ensures KindAt(Sql, s, i) == Plain && ModeAt(Sql, s, i + 1) == Code
  {}

  /* Placeholders. */

  /** A name is the longest run of ASCII letters, digits and underscores. */
  lemma {:induction false} NameIsLongestRun(s: string, from: nat, stop: nat)
    requires from <= stop <= |s|
    requires forall i :: from <= i < stop ==>
               'a' <= s[i] <= 'z' || 'A' <= s[i] <= 'Z' || '0' <= s[i] <= '9' || s[i] == '_'
    requires stop < |s| ==>
               !('a' <= s[stop] <= 'z' || 'A' <= s[stop] <= 'Z' || '0' <= s[stop] <= '9' || s[stop] == '_')
    ensures NameAt(s, from) == s[from..stop]
    decreases stop - from
  {
    if from < stop {
      NameIsLongestRun(s, from + 1, stop);
    }
  }

  /** What cannot be bound: in code, a colon or an at sign with a name, and a dollar sign without a 64-bit
      number. Everything else can, a question mark in particular. */
  lemma UnbindablePlaceholders(s: string, i: nat)
    requires i < |s|
    ensures var name := NameAt(s, i + 1);
            UnsupportedAt(Sql, s, i) ==
            if KindAt(Sql, s, i) != Plain then None
            else match s[i] {
              case ':' => if name == "" then None else Some(":" + name)
              case '@' => if name == "" then None else Some("@" + name)
              case '$' =>
                if name != "" && (forall k :: 0 <= k < |name| ==> '0' <= name[k] <= '9') && Value(name) < U64_LIMIT
                then None else Some("$" + name)
              case _ => None
            }
  {}
}
