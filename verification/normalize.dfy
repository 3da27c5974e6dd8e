/**
 * The text normaliser applied to queries and brand names before any comparison:
 * canonical decomposition, removal of diacritics, lower-casing, every symbol turned
 * into a space, white-space runs collapsed to one space, and trimming.
 */
module Normalizer {
  import opened CharClass

  /**
   * Unicode canonical decomposition (NFD) of the accented Latin-1 letters, code point by
   * code point, in order. Six other code points of the repertoire have canonical
   * decompositions that are not applied here: U+0340, U+0341, U+0343 and U+0344 (combining
   * marks) and U+2000, U+2001 (spaces). Leaving them undecomposed changes no normal form,
   * since the marks and their decompositions are all deleted as diacritics, and the spaces
   * and theirs are all white space that collapses.
   */
  function Nfd(s: string): string {
    if s == [] then [] else Decompose(s[0]) + Nfd(s[1..])
  }

  /** The decomposition is complete: no character of the result decomposes further. */
  lemma {:induction false} NfdIsFinal(s: string)
    ensures forall c :: c in Nfd(s) ==> Decompose(c) == [c]
  {
    if s != [] {
      DecomposeIsFinal(s[0]);
      NfdIsFinal(s[1..]);
    }
  }

  /** Deletes every character with the Unicode Diacritic property (no space is left behind). */
  function StripDiacritics(s: string): (r: string)
    ensures forall c :: c in r <==> c in s && !IsDiacritic(c)
  {
    if s == [] then []
    else if IsDiacritic(s[0]) then StripDiacritics(s[1..])
    else [s[0]] + StripDiacritics(s[1..])
  }

  /** Lower-cases every character. */
  function LowerCase(s: string): string {
    seq(|s|, i requires 0 <= i < |s| => Lower(s[i]))
  }

  /** Every character that is not a letter, a number or white space becomes a space. */
  function ReplaceSymbols(s: string): string {
    seq(|s|, i requires 0 <= i < |s| => if IsWordChar(s[i]) || IsSpace(s[i]) then s[i] else ' ')
  }

  /** The number of white-space characters `s` starts with. */
  function LeadingSpaces(s: string): (n: nat)
    ensures n <= |s|
    ensures forall i :: 0 <= i < n ==> IsSpace(s[i])
    ensures n < |s| ==> !IsSpace(s[n])
  {
    if s != [] && IsSpace(s[0]) then 1 + LeadingSpaces(s[1..]) else 0
  }

  /** The number of white-space characters `s` ends with. */
  function TrailingSpaces(s: string): (n: nat)
    ensures n <= |s|
    ensures forall i :: |s| - n <= i < |s| ==> IsSpace(s[i])
    ensures n < |s| ==> !IsSpace(s[|s| - 1 - n])
  {
    if s != [] && IsSpace(s[|s| - 1]) then 1 + TrailingSpaces(s[..|s| - 1]) else 0
  }

  /** The characters of `s` that are not white space, in order. */
  function NonSpace(s: string): string {
    if s == [] then []
    else if IsSpace(s[0]) then NonSpace(s[1..])
    else [s[0]] + NonSpace(s[1..])
  }

  /** No two adjacent white-space characters. */
  ghost predicate NoSpaceRun(s: string) {
    forall i, j :: 0 <= i && j == i + 1 < |s| ==> !IsSpace(s[i]) || !IsSpace(s[j])
  }

  lemma NonSpaceSkipsRun(s: string, n: nat)
    requires n <= |s|
    requires forall i :: 0 <= i < n ==> IsSpace(s[i])
    ensures NonSpace(s[n..]) == NonSpace(s)
    decreases n
  {
    if n > 0 {
      assert s[1..][n - 1..] == s[n..];
      NonSpaceSkipsRun(s[1..], n - 1);
    }
  }

  /**
   * Every maximal run of white space becomes a single `' '`,
   * and nothing else changes.
   */
  function CollapseSpaces(s: string): (r: string)
    ensures forall c :: c in r ==> c == ' ' || (c in s && !IsSpace(c))
    ensures NoSpaceRun(r)
    ensures s != [] ==> r != [] && (if IsSpace(s[0]) then r[0] == ' ' else r[0] == s[0])
    ensures NonSpace(r) == NonSpace(s)
    decreases |s|
  {
    if s == [] then []
    else if IsSpace(s[0]) then
      var n := LeadingSpaces(s);
      NonSpaceSkipsRun(s, n);
      [' '] + CollapseSpaces(s[n..])
    else [s[0]] + CollapseSpaces(s[1..])
  }

  /** The leading white space of `s` ends at exactly one position. */
  lemma LeadingSpacesUnique(s: string, n: nat)
    requires n <= |s|
    requires forall i :: 0 <= i < n ==> IsSpace(s[i])
    requires n < |s| ==> !IsSpace(s[n])
    ensures LeadingSpaces(s) == n
  {
  }

  /**
   * The recursion of `CollapseSpaces` without its contract. The lemmas about runs below
   * reason about this form, where no postcondition has to be carried along.
   */
  function Squeeze(s: string): string
    decreases |s|
  {
    if s == [] then []
    else if IsSpace(s[0]) then [' '] + Squeeze(s[LeadingSpaces(s)..])
    else [s[0]] + Squeeze(s[1..])
  }

  lemma {:induction false} SqueezeIsCollapse(s: string)
    ensures CollapseSpaces(s) == Squeeze(s)
    decreases |s|
  {
    if s != [] {
      if IsSpace(s[0]) {
        SqueezeIsCollapse(s[LeadingSpaces(s)..]);
      } else {
        SqueezeIsCollapse(s[1..]);
      }
    }
  }

  lemma ConsAssoc(c: char, x: string, y: string)
    ensures [c] + (x + [' '] + y) == ([c] + x) + [' '] + y
  {
  }

  /** A run with nothing before it becomes the leading space. */
  lemma SqueezeRunFirst(run: string, b: string)
    requires run != [] && forall i :: 0 <= i < |run| ==> IsSpace(run[i])
    requires b == [] || !IsSpace(b[0])
    ensures Squeeze(run + b) == [' '] + Squeeze(b)
  {
    var s := run + b;
    assert s[|run|..] == b;
    LeadingSpacesUnique(s, |run|);
  }

  /** The step past a leading run of `a`. */
  lemma SqueezeRunAfterSpaces(a: string, run: string, b: string, n: nat)
    requires 0 < n < |a|
    requires forall i :: 0 <= i < n ==> IsSpace(a[i])
    requires !IsSpace(a[n])
    requires Squeeze(a[n..] + run + b) == Squeeze(a[n..]) + [' '] + Squeeze(b)
    ensures Squeeze(a + run + b) == Squeeze(a) + [' '] + Squeeze(b)
  {
    var s := a + run + b;
    assert s[n..] == a[n..] + run + b;
    LeadingSpacesUnique(s, n);
    LeadingSpacesUnique(a, n);
    ConsAssoc(' ', Squeeze(a[n..]), Squeeze(b));
  }

  /** The step past a leading non-space character of `a`. */
  lemma SqueezeRunAfterChar(a: string, run: string, b: string)
    requires a != [] && !IsSpace(a[0])
    requires Squeeze(a[1..] + run + b) == Squeeze(a[1..]) + [' '] + Squeeze(b)
    ensures Squeeze(a + run + b) == Squeeze(a) + [' '] + Squeeze(b)
  {
    var s := a + run + b;
    assert s[1..] == a[1..] + run + b;
    ConsAssoc(a[0], Squeeze(a[1..]), Squeeze(b));
  }

  lemma {:induction false} SqueezeRun(a: string, run: string, b: string)
    requires run != [] && forall i :: 0 <= i < |run| ==> IsSpace(run[i])
    requires a == [] || !IsSpace(a[|a| - 1])
    requires b == [] || !IsSpace(b[0])
    ensures Squeeze(a + run + b) == Squeeze(a) + [' '] + Squeeze(b)
    decreases |a|
  {
    if a == [] {
      SqueezeRunFirst(run, b);
      assert a + run + b == run + b;
    } else if IsSpace(a[0]) {
      var n := LeadingSpaces(a);
      assert 0 < n < |a|;
      SqueezeRun(a[n..], run, b);
      SqueezeRunAfterSpaces(a, run, b, n);
    } else {
      SqueezeRun(a[1..], run, b);
      SqueezeRunAfterChar(a, run, b);
    }
  }

  /**
   * A white-space run between a part that does not end in white space and a part that
   * does not start with it becomes exactly one space, and the two parts are collapsed on
   * their own: collapsing never merges the words on either side of a run.
   */
  lemma CollapseRun(a: string, run: string, b: string)
    requires run != [] && forall i :: 0 <= i < |run| ==> IsSpace(run[i])
    requires a == [] || !IsSpace(a[|a| - 1])
    requires b == [] || !IsSpace(b[0])
    ensures CollapseSpaces(a + run + b) == CollapseSpaces(a) + [' '] + CollapseSpaces(b)
  {
    SqueezeRun(a, run, b);
    SqueezeIsCollapse(a + run + b);
    SqueezeIsCollapse(a);
    SqueezeIsCollapse(b);
  }

  /** A word without white space is left as it is: collapsing never splits a word. */
  lemma CollapseKeepsWord(w: string)
    requires forall i :: 0 <= i < |w| ==> !IsSpace(w[i])
    ensures CollapseSpaces(w) == w
  {
    CollapseOfSingleSpaced(w);
  }

  /**
   * `r` is `s` with its leading and trailing white space removed: `s` is some white
   * space, then `r`, then some white space, and `r` neither starts nor ends with white space.
   */
  ghost predicate IsTrimOf(r: string, s: string) {
    && (r != [] ==> !IsSpace(r[0]) && !IsSpace(r[|r| - 1]))
    && exists a :: TrimmedAt(r, s, a)
  }

  /** `r` occurs in `s` at offset `a`, with only white space around it. */
  ghost predicate TrimmedAt(r: string, s: string, a: int) {
    && 0 <= a <= |s| - |r| && s[a..a + |r|] == r
    && (forall i :: 0 <= i < a ==> IsSpace(s[i]))
    && (forall i :: a + |r| <= i < |s| ==> IsSpace(s[i]))
  }

  /** Removes leading and trailing white space. */
  function Trim(s: string): (r: string)
    ensures IsTrimOf(r, s)
  {
    var a := LeadingSpaces(s);
    var t := s[a..];
    var r := t[..|t| - TrailingSpaces(t)];
    assert TrimmedAt(r, s, a);
    r
  }

  /** The trimmed string is empty exactly when every character is white space. */
  lemma TrimEmptyIffBlank(s: string)
    ensures Trim(s) == [] <==> forall i :: 0 <= i < |s| ==> IsSpace(s[i])
  {
    var r := Trim(s);
    var a :| TrimmedAt(r, s, a);
    if r != [] {
      assert s[a] == r[0];
    }
  }

  /** Decomposition, diacritic removal and lower-casing: the first three stages. */
  function Fold(s: string): string {
    LowerCase(StripDiacritics(Nfd(s)))
  }

  /** The shape of every normalised string: lower-case letters and digits separated by single spaces. */
  ghost predicate Normalized(r: string) {
    && (forall c :: c in r ==> c == ' ' || Settled(c))
    && (r != [] ==> r[0] != ' ' && r[|r| - 1] != ' ')
    && (forall i, j :: 0 <= i && j == i + 1 < |r| ==> r[i] != ' ' || r[j] != ' ')
  }

  /** The normaliser: the six stages applied in order. */
  function Normalize(s: string): string {
    Trim(CollapseSpaces(ReplaceSymbols(Fold(s))))
  }

  /** Every normalised string has the normalised shape; the empty string normalises to itself. */
  lemma NormalizeShape(s: string)
    ensures Normalized(Normalize(s))
    ensures s == [] ==> Normalize(s) == []
  {
    PreparedIsSettled(s);
    CollapsedTrimIsNormalized(ReplaceSymbols(Fold(s)));
    if s == [] {
      assert Nfd(s) == [];
      assert CollapseSpaces(ReplaceSymbols(Fold(s))) == [];
    }
  }

  ghost predicate SpacesOrSettled(s: string) {
    forall c :: c in s ==> IsSpace(c) || Settled(c)
  }

  lemma PreparedIsSettled(s: string)
    ensures SpacesOrSettled(ReplaceSymbols(Fold(s)))
  {
    NfdIsFinal(s);
    var t := StripDiacritics(Nfd(s));
    var u := LowerCase(t);
    var v := ReplaceSymbols(u);
    forall i | 0 <= i < |v|
      ensures IsSpace(v[i]) || Settled(v[i])
    {
      assert t[i] in t;
      if IsWordChar(u[i]) {
        LowerSettles(t[i]);
      }
    }
  }

  lemma CollapsedTrimIsNormalized(v: string)
    requires SpacesOrSettled(v)
    ensures Normalized(Trim(CollapseSpaces(v)))
  {
    var w := CollapseSpaces(v);
    assert forall c :: c in w ==> c == ' ' || Settled(c);
    TrimKeepsShape(w);
  }

  lemma TrimKeepsShape(w: string)
    requires forall c :: c in w ==> c == ' ' || Settled(c)
    requires NoSpaceRun(w)
    ensures Normalized(Trim(w))
  {
    var r := Trim(w);
    var a :| TrimmedAt(r, w, a);
    forall c | c in r
      ensures c == ' ' || Settled(c)
    {
      var i :| 0 <= i < |r| && r[i] == c;
      assert w[a + i] == c;
    }
    forall i, j | 0 <= i && j == i + 1 < |r|
      ensures r[i] != ' ' || r[j] != ' '
    {
      assert r[i] == w[a + i] && r[j] == w[a + j];
    }
  }

  // ---------------------------------------------------------------------------
  // Idempotence: a normalised string is a fixed point of every stage.

  lemma {:induction false} NfdOfFinal(s: string)
    requires forall c :: c in s ==> Decompose(c) == [c]
    ensures Nfd(s) == s
  {
    if s != [] {
      assert s[0] in s;
      assert forall c :: c in s[1..] ==> c in s;
      NfdOfFinal(s[1..]);
      assert s == [s[0]] + s[1..];
    }
  }

  lemma {:induction false} StripOfPlain(s: string)
    requires forall c :: c in s ==> !IsDiacritic(c)
    ensures StripDiacritics(s) == s
  {
    if s != [] {
      assert s[0] in s;
      assert forall c :: c in s[1..] ==> c in s;
      StripOfPlain(s[1..]);
      assert s == [s[0]] + s[1..];
    }
  }

  lemma NoSpaceRunTail(s: string)
    requires s != [] && NoSpaceRun(s)
    ensures NoSpaceRun(s[1..])
  {
    forall i, j | 0 <= i && j == i + 1 < |s[1..]|
      ensures !IsSpace(s[1..][i]) || !IsSpace(s[1..][j])
    {
      assert s[1..][i] == s[i + 1] && s[1..][j] == s[j + 1];
    }
  }

  lemma {:induction false} CollapseOfSingleSpaced(s: string)
    requires forall c :: c in s && IsSpace(c) ==> c == ' '
    requires NoSpaceRun(s)
    ensures CollapseSpaces(s) == s
    decreases |s|
  {
    if s != [] {
      assert s[0] in s;
      assert forall c :: c in s[1..] ==> c in s;
      NoSpaceRunTail(s);
      if IsSpace(s[0]) {
        assert |s| > 1 ==> !IsSpace(s[1]);
        assert LeadingSpaces(s) == 1;
      }
      CollapseOfSingleSpaced(s[1..]);
      assert s == [s[0]] + s[1..];
    }
  }

  /** A character of a normalised string is already decomposed, plain and lower-case. */
  lemma NormalizedCharIsPlain(c: char)
    requires c == ' ' || Settled(c)
    ensures Decompose(c) == [c] && !IsDiacritic(c) && Lower(c) == c
  {
  }

  lemma FoldOfNormalized(r: string)
    requires Normalized(r)
    ensures Fold(r) == r
  {
    forall c | c in r
      ensures Decompose(c) == [c] && !IsDiacritic(c)
    {
      NormalizedCharIsPlain(c);
    }
    NfdOfFinal(r);
    StripOfPlain(r);
    forall i | 0 <= i < |r|
      ensures Lower(r[i]) == r[i]
    {
      assert r[i] in r;
      NormalizedCharIsPlain(r[i]);
    }
    assert LowerCase(r) == r;
  }

  lemma SymbolsOfNormalized(r: string)
    requires Normalized(r)
    ensures ReplaceSymbols(r) == r
  {
    forall i | 0 <= i < |r|
      ensures IsWordChar(r[i]) || IsSpace(r[i])
    {
      assert r[i] in r;
    }
  }

  lemma CollapseOfNormalized(r: string)
    requires Normalized(r)
    ensures CollapseSpaces(r) == r
  {
    forall c | c in r && IsSpace(c)
      ensures c == ' '
    {
    }
    assert NoSpaceRun(r) by {
      forall i, j | 0 <= i && j == i + 1 < |r|
        ensures !IsSpace(r[i]) || !IsSpace(r[j])
      {
        assert r[i] in r && r[j] in r;
      }
    }
    CollapseOfSingleSpaced(r);
  }

  lemma TrimOfNormalized(r: string)
    requires Normalized(r)
    ensures Trim(r) == r
  {
    if r != [] {
      assert r[0] in r && r[|r| - 1] in r;
      assert LeadingSpaces(r) == 0;
      assert TrailingSpaces(r) == 0;
    }
  }

  /** A normalised string is left unchanged by the normaliser. */
  lemma NormalizeFixpoint(r: string)
    requires Normalized(r)
    ensures Normalize(r) == r
  {
    FoldOfNormalized(r);
    SymbolsOfNormalized(r);
    CollapseOfNormalized(r);
    TrimOfNormalized(r);
  }

  /** Normalising twice is the same as normalising once. */
  lemma NormalizeIdempotent(s: string)
    ensures Normalize(Normalize(s)) == Normalize(s)
  {
    NormalizeShape(s);
    NormalizeFixpoint(Normalize(s));
  }

  // ---------------------------------------------------------------------------
  // Case, accent and composition insensitivity.

  lemma {:induction false} NfdAppend(a: string, b: string)
    ensures Nfd(a + b) == Nfd(a) + Nfd(b)
  {
    if a == [] {
      assert a + b == b;
    } else {
      assert (a + b)[1..] == a[1..] + b;
      NfdAppend(a[1..], b);
    }
  }

  lemma {:induction false} StripAppend(a: string, b: string)
    ensures StripDiacritics(a + b) == StripDiacritics(a) + StripDiacritics(b)
  {
    if a == [] {
      assert a + b == b;
    } else {
      assert (a + b)[1..] == a[1..] + b;
      StripAppend(a[1..], b);
    }
  }

  lemma LowerCaseAppend(x: string, y: string)
    ensures LowerCase(x + y) == LowerCase(x) + LowerCase(y)
  {
  }

  /** The first three stages work character by character. */
  lemma FoldAppend(a: string, b: string)
    ensures Fold(a + b) == Fold(a) + Fold(b)
  {
    NfdAppend(a, b);
    StripAppend(Nfd(a), Nfd(b));
    LowerCaseAppend(StripDiacritics(Nfd(a)), StripDiacritics(Nfd(b)));
  }

  lemma FoldOne(c: char)
    ensures Fold([c]) == LowerCase(StripDiacritics(Decompose(c)))
  {
    assert [c][1..] == [];
    assert Nfd([c]) == Decompose(c) + Nfd([]);
    assert Decompose(c) + [] == Decompose(c);
  }

  lemma StripOne(c: char)
    ensures StripDiacritics([c]) == if IsDiacritic(c) then [] else [c]
  {
    assert [c][1..] == [];
  }

  lemma StripPair(b: char, m: char)
    requires !IsDiacritic(b) && IsDiacritic(m)
    ensures StripDiacritics([b, m]) == [b]
  {
    assert [b, m][1..] == [m];
    StripOne(m);
  }

  /** A character and its lower-case form fold to the same text. */
  lemma FoldLowerChar(c: char)
    ensures Fold([Lower(c)]) == Fold([c])
  {
    FoldOne(c);
    FoldOne(Lower(c));
    DecomposeLower(c);
    var d := Decompose(c);
    if |d| == 2 {
      LowerIdempotent(d[0]);
      assert d == [d[0], d[1]];
      StripPair(d[0], d[1]);
      StripPair(Lower(d[0]), d[1]);
    } else {
      LowerIdempotent(c);
      StripOne(c);
      StripOne(Lower(c));
    }
  }

  lemma {:induction false} FoldLowerCase(s: string)
    ensures Fold(LowerCase(s)) == Fold(s)
  {
    if s != [] {
      assert s == [s[0]] + s[1..];
      assert LowerCase(s) == [Lower(s[0])] + LowerCase(s[1..]);
      FoldAppend([s[0]], s[1..]);
      FoldAppend([Lower(s[0])], LowerCase(s[1..]));
      FoldLowerChar(s[0]);
      FoldLowerCase(s[1..]);
    }
  }

  /** Normalising ignores letter case. */
  lemma NormalizeIgnoresCase(s: string)
    ensures Normalize(LowerCase(s)) == Normalize(s)
  {
    FoldLowerCase(s);
  }

  /** Normalising ignores a diacritic wherever it is inserted. */
  lemma NormalizeIgnoresDiacritic(a: string, m: char, b: string)
    requires IsDiacritic(m)
    ensures Normalize(a + [m] + b) == Normalize(a + b)
  {
    FoldSkipsDiacritic(a, m, b);
  }

  lemma FoldSkipsDiacritic(a: string, m: char, b: string)
    requires IsDiacritic(m)
    ensures Fold(a + [m] + b) == Fold(a + b)
  {
    FoldAppend(a + [m], b);
    FoldAppend(a, [m]);
    FoldAppend(a, b);
    FoldOne(m);
    assert Decompose(m) == [m];
    StripOne(m);
    assert Fold([m]) == [];
    assert Fold(a) + [] == Fold(a);
  }

  /** A precomposed accented letter normalises like its base letter. */
  lemma NormalizeIgnoresAccent(a: string, c: char, b: string)
    requires |Decompose(c)| == 2
    ensures Normalize(a + [c] + b) == Normalize(a + [Decompose(c)[0]] + b)
  {
    var d := Decompose(c);
    FoldAppend(a + [c], b);
    FoldAppend(a, [c]);
    FoldAppend(a + [d[0]], b);
    FoldAppend(a, [d[0]]);
    FoldOne(c);
    FoldOne(d[0]);
    assert d == [d[0], d[1]];
    StripPair(d[0], d[1]);
    DecomposeIsFinal(c);
    assert d[0] in d;
    StripOne(d[0]);
  }

  /** For instance, "córona" normalises like "corona". */
  lemma AcuteOIsO(a: string, b: string)
    ensures Normalize(a + ['\U{F3}'] + b) == Normalize(a + ['o'] + b)
  {
    assert AccentRow(0x13) == (0x4F, 0x301);
    assert Decompose('\U{F3}') == ['o', '\U{301}'];
    NormalizeIgnoresAccent(a, '\U{F3}', b);
  }

  /** Normalising ignores whether accented letters arrive composed or decomposed. */
  lemma NormalizeIgnoresComposition(s: string)
    ensures Normalize(Nfd(s)) == Normalize(s)
  {
    NfdIsFinal(s);
    NfdOfFinal(Nfd(s));
  }

  // ---------------------------------------------------------------------------
  // What survives.

  lemma {:induction false} NfdKeeps(s: string, c: char)
    requires c in s && Decompose(c) == [c]
    ensures c in Nfd(s)
  {
    if s[0] != c {
      NfdKeeps(s[1..], c);
    }
  }

  lemma {:induction false} NonSpaceKeeps(s: string, c: char)
    requires c in s && !IsSpace(c)
    ensures c in NonSpace(s)
  {
    if s[0] != c {
      NonSpaceKeeps(s[1..], c);
    }
  }

  lemma {:induction false} NonSpaceComesFrom(s: string, c: char)
    requires c in NonSpace(s)
    ensures c in s && !IsSpace(c)
  {
    if s != [] && !(s[0] == c && !IsSpace(c)) {
      NonSpaceComesFrom(s[1..], c);
    }
  }

  /**
   * A letter or digit that has no decomposition keeps the normal form non-empty:
   * only strings of symbols, marks and white space normalise to `""`.
   */
  lemma WordCharSurvives(s: string, c: char)
    requires c in s && IsWordChar(c) && !IsDiacritic(c) && Decompose(c) == [c]
    ensures Normalize(s) != []
  {
    NfdKeeps(s, c);
    var t := StripDiacritics(Nfd(s));
    var i :| 0 <= i < |t| && t[i] == c;
    var v := ReplaceSymbols(LowerCase(t));
    assert v[i] == Lower(c);
    NonSpaceKeeps(v, Lower(c));
    NonSpaceComesFrom(CollapseSpaces(v), Lower(c));
    TrimEmptyIffBlank(CollapseSpaces(v));
  }

  /** When decomposition, diacritic removal and lower-casing leave no letter or digit, the normal form is empty. */
  lemma NoWordCharVanishes(s: string)
    requires forall i :: 0 <= i < |Fold(s)| ==> !IsWordChar(Fold(s)[i])
    ensures Normalize(s) == []
  {
    var f := Fold(s);
    var v := ReplaceSymbols(f);
    forall i | 0 <= i < |v|
      ensures IsSpace(v[i])
    {
      assert !IsWordChar(f[i]);
    }
    var w := CollapseSpaces(v);
    forall i | 0 <= i < |w|
      ensures IsSpace(w[i])
    {
      assert w[i] in w;
    }
    TrimEmptyIffBlank(w);
  }

  // ---------------------------------------------------------------------------
  // Plain spellings.

  /** Lower-case ASCII words separated by single spaces. */
  ghost predicate PlainWords(s: string) {
    && (forall i :: 0 <= i < |s| ==> 'a' <= s[i] <= 'z' || s[i] == ' ')
    && (s != [] ==> s[0] != ' ' && s[|s| - 1] != ' ')
    && (forall i, j :: 0 <= i && j == i + 1 < |s| ==> s[i] != ' ' || s[j] != ' ')
  }

  /** Plain lower-case words are already normalised. */
  lemma PlainWordsAreNormal(s: string)
    requires PlainWords(s)
    ensures Normalize(s) == s
  {
    forall c | c in s
      ensures c == ' ' || Settled(c)
    {
    }
    NormalizeFixpoint(s);
  }

  /** Any spelling whose lower-case form is plain words normalises to those words. */
  lemma SpellingNormalizes(s: string, t: string)
    requires PlainWords(t) && LowerCase(s) == t
    ensures Normalize(s) == t
  {
    NormalizeIgnoresCase(s);
    PlainWordsAreNormal(t);
  }
}
