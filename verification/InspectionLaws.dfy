/** What an inspection means for the text, and what it does not depend on. */
module InspectionLaws {
  import opened Prelude
  import opened SqlText
  import opened SqlInspection

  lemma NoEarlierCut(rules: Rules, s: string, cut: nat, cut': nat)
    requires IsCut(rules, s, cut) && IsCut(rules, s, cut')
    ensures cut' <= cut
  {}

  lemma InspectionIsUnique(rules: Rules, s: string, r: Inspection, r': Inspection)
    requires Describes(rules, s, r) && Describes(rules, s, r')
    ensures r == r'
  {
    var cut: nat :| IsCut(rules, s, cut) && r == Inspection(cut < |s|, LastUnsupported(rules, s, cut));
    var cut': nat :| IsCut(rules, s, cut') && r' == Inspection(cut' < |s|, LastUnsupported(rules, s, cut'));
    NoEarlierCut(rules, s, cut, cut');
    NoEarlierCut(rules, s, cut', cut);
  }

  /** Something visible outside comments. */
  lemma TextIsVisible(s: string, i: nat)
    requires i < |s|
    ensures Text(Sql, s, i) <==> KindAt(Sql, s, i) != Comment && !IsWhitespace(s[i])
    ensures Content(Sql, s, i) <==> KindAt(Sql, s, i) != Comment && !IsWhitespace(s[i]) && s[i] != ';'
  {}

  lemma FlagMeansSplit(s: string, r: Inspection)
    requires Describes(Sql, s, r)
    ensures r.mayContainMultipleStatements <==> exists i :: 0 <= i < |s| && Splits(Sql, s, i)
  {}

  /** The exact meaning of the multi-statement flag: some semicolon outside quotes and comments has before
      it something visible outside comments, and after it something that is no semicolon either. */
  lemma FlagMeansTwoParts(s: string, r: Inspection)
    requires Describes(Sql, s, r)
    ensures r.mayContainMultipleStatements <==>
            exists j, i, k ::
              && 0 <= j < i < k < |s|
              && KindAt(Sql, s, j) != Comment && !IsWhitespace(s[j])
              && KindAt(Sql, s, i) == Plain && s[i] == ';'
              && KindAt(Sql, s, k) != Comment && !IsWhitespace(s[k]) && s[k] != ';'
  {
    FlagMeansSplit(s, r);
    if r.mayContainMultipleStatements {
      var i :| 0 <= i < |s| && Splits(Sql, s, i);
      var j, k := SplitNeighbours(s, i);
    }
    if j, i, k :|
      && 0 <= j < i < k < |s|
      && KindAt(Sql, s, j) != Comment && !IsWhitespace(s[j])
      && KindAt(Sql, s, i) == Plain && s[i] == ';'
      && KindAt(Sql, s, k) != Comment && !IsWhitespace(s[k]) && s[k] != ';'
    {
      TwoStatementsAreFlagged(s, r, j, i, k);
    }
  }

  lemma SplitNeighbours(s: string, i: nat) returns (j: int, k: int)
    requires i < |s| && Splits(Sql, s, i)
    ensures 0 <= j < i < k < |s| && KindAt(Sql, s, i) == Plain && s[i] == ';'
    ensures KindAt(Sql, s, j) != Comment && !IsWhitespace(s[j])
    ensures KindAt(Sql, s, k) != Comment && !IsWhitespace(s[k]) && s[k] != ';'
  {
    j :| 0 <= j < i && Text(Sql, s, j);
    k :| i < k < |s| && Content(Sql, s, k);
  }

  /** Two statements are flagged, and so is a statement after anything visible and a semicolon. */
  lemma TwoStatementsAreFlagged(s: string, r: Inspection, first: nat, semicolon: nat, second: nat)
    requires Describes(Sql, s, r) && first < semicolon < second < |s|
    requires KindAt(Sql, s, first) != Comment && !IsWhitespace(s[first])
    requires KindAt(Sql, s, semicolon) == Plain && s[semicolon] == ';'
    requires KindAt(Sql, s, second) != Comment && !IsWhitespace(s[second]) && s[second] != ';'
    ensures r.mayContainMultipleStatements
  {
    TextIsVisible(s, first);
    TextIsVisible(s, second);
    assert Splits(Sql, s, semicolon);
  }

  /** Position i comes before the first semicolon that splits s. */
  ghost predicate InFirstPart(s: string, i: int) {
    0 <= i < |s| && forall k :: 0 <= k <= i ==> !Splits(Sql, s, k)
  }

  /** The placeholder reported is the last one that cannot be bound in the first part of the text. */
  lemma ReportedPlaceholderIsLast(s: string, r: Inspection)
    requires Describes(Sql, s, r)
    ensures r.unsupportedNamedPlaceholder == None ==> forall i :: InFirstPart(s, i) ==> UnsupportedAt(Sql, s, i) == None
    ensures r.unsupportedNamedPlaceholder.Some? ==>
              exists i ::
                && InFirstPart(s, i) && UnsupportedAt(Sql, s, i) == r.unsupportedNamedPlaceholder
                && forall j :: i < j && InFirstPart(s, j) ==> UnsupportedAt(Sql, s, j) == None
  {
    var cut: nat :| IsCut(Sql, s, cut) && r == Inspection(cut < |s|, LastUnsupported(Sql, s, cut));
    assert forall i :: InFirstPart(s, i) ==> i < cut;
    var _ := LastIsLast(s, cut);
  }

  lemma {:induction false} LastIsLast(s: string, end: nat) returns (at: int)
    requires end <= |s|
    ensures var last := LastUnsupported(Sql, s, end);
            && -1 <= at < end && (last == None <==> at == -1)
            && (at >= 0 ==> UnsupportedAt(Sql, s, at) == last)
            && forall j :: at < j < end ==> UnsupportedAt(Sql, s, j) == None
  {
    if end == 0 {
      at := -1;
    } else if UnsupportedAt(Sql, s, end - 1).Some? {
      at := end - 1;
    } else {
      at := LastIsLast(s, end - 1);
    }
  }

  /** The flag says `may`: of two semicolons in code the first counts as text before the second, so any
      content after both is flagged, even if it is the only statement. */
  lemma EmptyStatementIsFlagged(s: string, r: Inspection, first: nat, second: nat, content: nat)
    requires Describes(Sql, s, r) && first < second < content < |s|
    requires KindAt(Sql, s, first) == Plain && s[first] == ';'
    requires KindAt(Sql, s, second) == Plain && s[second] == ';'
    requires Content(Sql, s, content)
    ensures r.mayContainMultipleStatements
  {
    TwoStatementsAreFlagged(s, r, first, second, content);
  }

  /* Which characters the inspection does not depend on. */

  /** The character at i closes a block comment: a slash after a star that is not the opener's. */
  predicate EndsBlock(s: string, i: nat)
    requires i < |s|
  {
    ModeAt(Sql, s, i) == Block(true) && s[i] == '/'
  }

  /** At i, t has what s has, or both are inside one region and neither or both of them end it there. */
  predicate SameAt(s: string, t: string, i: nat)
    requires i < |s| == |t|
  {
    match ModeAt(Sql, s, i)
    case Quoted(close) => s[i] == t[i] || (s[i] != close && t[i] != close)
    case Line => s[i] == t[i] || (s[i] != '\n' && t[i] != '\n')
    case Block(_) => EndsBlock(s, i) <==> EndsBlock(t, i)
    case _ => s[i] == t[i]
  }

  /** t differs from s only inside quotes and comments, and no delimiter is added or removed. */
  ghost predicate SameCode(s: string, t: string) {
    |s| == |t| && forall i :: 0 <= i < |s| ==> SameAt(s, t, i)
  }

  /** Equal, except that inside a block comment the last character read may differ. */
  predicate Alike(m: Mode, n: Mode) {
    m == n || (m.Block? && n.Block?)
  }

  lemma {:induction false} ModesUnchanged(s: string, t: string, i: nat)
    requires SameCode(s, t) && i <= |s|
    ensures Alike(ModeAt(Sql, s, i), ModeAt(Sql, t, i))
  {
    if i > 0 {
      ModesUnchanged(s, t, i - 1);
      assert SameAt(s, t, i - 1);
      if i < |s| {
        assert SameAt(s, t, i);
      }
    }
  }

  lemma KindsUnchanged(s: string, t: string, i: nat)
    requires SameCode(s, t) && i < |s|
    ensures KindAt(Sql, s, i) == KindAt(Sql, t, i)
    ensures ModeAt(Sql, s, i) == Code ==> s[i] == t[i]
  {
    ModesUnchanged(s, t, i);
    ModesUnchanged(s, t, i + 1);
    assert SameAt(s, t, i);
  }

  /** Every quoted character comes from an opening delimiter, with no code in between. */
  lemma {:induction false} QuoteOpens(s: string, i: nat) returns (open: nat)
    requires i < |s| && KindAt(Sql, s, i) == Quote
    ensures open <= i && ModeAt(Sql, s, open) == Code && KindAt(Sql, s, open) == Quote
    ensures !IsWhitespace(s[open]) && s[open] != ';'
    ensures forall j :: open < j <= i ==> ModeAt(Sql, s, j) != Code
  {
    if ModeAt(Sql, s, i) == Code {
      open := i;
    } else {
      open := QuoteOpens(s, i - 1);
    }
  }

  lemma SplitsKept(s: string, t: string, i: nat)
    requires SameCode(s, t) && i < |s| && Splits(Sql, s, i)
    ensures Splits(Sql, t, i)
  {
    KindsUnchanged(s, t, i);
    var j :| 0 <= j < i && Text(Sql, s, j);
    var k :| i < k < |s| && Content(Sql, s, k);
    var j' := TextKept(s, t, j);
    var k' := TextKept(s, t, k);
    assert ModeAt(Sql, s, i) == Code;
    assert Text(Sql, t, j') && Content(Sql, t, k') && j' < i;
  }

  lemma TextKept(s: string, t: string, i: nat) returns (i': nat)
    requires SameCode(s, t) && i < |s| && Text(Sql, s, i)
    ensures i' <= i && Text(Sql, t, i') && KindAt(Sql, s, i') == KindAt(Sql, s, i)
    ensures Content(Sql, s, i) ==> Content(Sql, t, i')
    ensures forall j :: i' < j <= i ==> ModeAt(Sql, s, j) != Code
  {
    i' := i;
    if KindAt(Sql, s, i) == Quote {
      i' := QuoteOpens(s, i);
    }
    KindsUnchanged(s, t, i');
  }

  lemma SameCodeIsSymmetric(s: string, t: string)
    requires SameCode(s, t)
    ensures SameCode(t, s)
  {
    forall i | 0 <= i < |s| ensures SameAt(t, s, i) {
      ModesUnchanged(s, t, i);
      assert SameAt(s, t, i);
    }
  }

  lemma {:induction false} NamesKept(s: string, t: string, i: nat)
    requires SameCode(s, t) && i <= |s| && ModeAt(Sql, s, i) == Code
    ensures NameAt(s, i) == NameAt(t, i)
    decreases |s| - i
  {
    if i < |s| {
      KindsUnchanged(s, t, i);
      if IsNameChar(s[i]) {
        assert ModeAt(Sql, s, i + 1) == Code;
        NamesKept(s, t, i + 1);
      }
    }
  }

  lemma {:induction false} PlaceholdersKept(s: string, t: string, end: nat)
    requires SameCode(s, t) && end <= |s|
    ensures LastUnsupported(Sql, s, end) == LastUnsupported(Sql, t, end)
  {
    if end > 0 {
      KindsUnchanged(s, t, end - 1);
      if KindAt(Sql, s, end - 1) == Plain {
        assert ModeAt(Sql, s, end) == Code;
        NamesKept(s, t, end);
      }
      PlaceholdersKept(s, t, end - 1);
    }
  }

  /** Changing characters inside quotes and comments, single stars and slashes included, never changes the
      inspection as long as the same delimiters remain. */
  lemma InteriorIsIrrelevant(s: string, t: string, r: Inspection)
    requires SameCode(s, t)
    ensures Describes(Sql, s, r) <==> Describes(Sql, t, r)
  {
    SameCodeIsSymmetric(s, t);
    forall i | 0 <= i < |s| ensures Splits(Sql, s, i) <==> Splits(Sql, t, i) {
      if Splits(Sql, s, i) {
        SplitsKept(s, t, i);
      }
      if Splits(Sql, t, i) {
        SplitsKept(t, s, i);
      }
    }
    forall cut | 0 <= cut <= |s|
      ensures IsCut(Sql, s, cut) == IsCut(Sql, t, cut)
      ensures LastUnsupported(Sql, s, cut) == LastUnsupported(Sql, t, cut)
    {
      PlaceholdersKept(s, t, cut);
    }
  }
}
