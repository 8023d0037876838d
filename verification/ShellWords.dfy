/** What tokenize_shell of media/shell_source.rs means, said without its scanner: a command line is
    blanks and words, a word is characters, escapes and quote marks, and the tokens are the words'
    meanings. Every line is of this form, so this says what the tokens of every line are. */
module ShellWords {
  import opened Media
  import opened ShellSource

  /** A character as it stands, an escaped quote or backslash, or a quote mark. */
  datatype Atom = Char(c: char) | Escaped(c: char) | Mark

  function AtomText(a: Atom): (s: string)
    ensures s != ""
  {
    match a
    case Char(c) => [c]
    case Escaped(c) => ['\\', c]
    case Mark => ['"']
  }

  function AtomMeaning(a: Atom): string {
    if a.Mark? then "" else [a.c]
  }

  function Text(w: seq<Atom>): string {
    if w == [] then "" else AtomText(w[0]) + Text(w[1..])
  }

  function Meaning(w: seq<Atom>): string {
    if w == [] then "" else AtomMeaning(w[0]) + Meaning(w[1..])
  }

  predicate Blank(c: char) {
    c == ' ' || c == '\t' || c == '\n'
  }

  predicate Special(c: char) {
    c == '"' || c == '\\'
  }

  /** Only quotes and backslashes are escaped; a backslash that escapes nothing stands for itself; a
      quote is a mark; a blank belongs to a word between marks only. `after` follows in the line. */
  predicate AtomFits(a: Atom, inQuote: bool, after: string) {
    match a
    case Char(c) => c != '"' && (c == '\\' ==> after == "" || !Special(after[0])) && (Blank(c) ==> inQuote)
    case Escaped(c) => Special(c)
    case Mark => true
  }

  function Quoting(w: seq<Atom>, inQuote: bool): bool {
    if w == [] then inQuote else Quoting(w[1..], if w[0].Mark? then !inQuote else inQuote)
  }

  predicate Fits(w: seq<Atom>, inQuote: bool, after: string) {
    w == [] || (AtomFits(w[0], inQuote, Text(w[1..]) + after) && Fits(w[1..], if w[0].Mark? then !inQuote else inQuote, after))
  }

  predicate Blanks(s: string) {
    forall i :: 0 <= i < |s| ==> Blank(s[i])
  }

  /** Words, each with the blanks after it. */
  datatype Line = End | More(word: seq<Atom>, gap: string, rest: Line)

  function LineText(l: Line): string {
    match l
    case End => ""
    case More(word, gap, rest) => Text(word) + (gap + LineText(rest))
  }

  function Meanings(l: Line): seq<string> {
    match l
    case End => []
    case More(word, _, rest) => [Meaning(word)] + Meanings(rest)
  }

  /** Blanks stand between any two words; only the last word may leave its quote open, and then it
      runs to the end of the line. `inQuote` is the state in front. */
  predicate Laid(l: Line, inQuote: bool) {
    match l
    case End => true
    case More(word, gap, rest) =>
      && Fits(word, inQuote, gap + LineText(rest)) && Blanks(gap)
      && (rest.More? ==> gap != "" && rest.word != [])
      && (gap != "" ==> !Quoting(word, inQuote)) && Laid(rest, false)
  }

  // ----- The scanner reads any line so -----

  lemma ScanAtom(a: Atom, after: string, cur: string, inQuote: bool)
    requires AtomFits(a, inQuote, after)
    ensures Scan(AtomText(a) + after, cur, inQuote) == Scan(after, cur + AtomMeaning(a), if a.Mark? then !inQuote else inQuote)
  {
    var line := AtomText(a) + after;
    if a.Escaped? {
      assert line[2..] == after;
    } else {
      assert line[1..] == after;
      EmptyEnds(cur);
    }
  }

  lemma {:induction false} ScanWord(w: seq<Atom>, after: string, cur: string, inQuote: bool)
    requires Fits(w, inQuote, after)
    ensures Scan(Text(w) + after, cur, inQuote) == Scan(after, cur + Meaning(w), Quoting(w, inQuote))
  {
    if w == [] {
      EmptyEnds(after);
      EmptyEnds(cur);
    } else {
      Assoc(AtomText(w[0]), Text(w[1..]), after);
      ScanAtom(w[0], Text(w[1..]) + after, cur, inQuote);
      ScanWord(w[1..], after, cur + AtomMeaning(w[0]), if w[0].Mark? then !inQuote else inQuote);
      Assoc(cur, AtomMeaning(w[0]), Meaning(w[1..]));
    }
  }

  /** Blanks end the word begun; a run of them is no more than one. */
  lemma {:induction false} ScanBlanks(gap: string, after: string, cur: string)
    requires Blanks(gap) && gap != ""
    ensures Scan(gap + after, cur, false) == NonEmptyOf([cur]) + Scan(after, "", false)
  {
    var line := gap + after;
    assert line[0] == gap[0] && line[1..] == gap[1..] + after;
    assert [cur][1..] == [];
    if |gap| > 1 {
      ScanBlanks(gap[1..], after, "");
      assert [""][1..] == [];
      EmptyEnds(Scan(after, "", false));
    } else {
      assert line[1..] == after;
    }
  }

  lemma NonEmptyOfCons(x: string, ys: seq<string>)
    ensures NonEmptyOf([x] + ys) == NonEmptyOf([x]) + NonEmptyOf(ys)
  {
    assert ([x] + ys)[1..] == ys && [x][1..] == [];
  }

  lemma ScanNothing(cur: string, inQuote: bool)
    ensures Scan("", cur, inQuote) == NonEmptyOf([cur])
  {
    assert [cur][1..] == [];
  }

  lemma {:induction false} ScanLine(l: Line, cur: string, inQuote: bool)
    requires l.More? && Laid(l, inQuote)
    ensures Scan(LineText(l), cur, inQuote) == NonEmptyOf([cur + Meaning(l.word)] + Meanings(l.rest))
    decreases l
  {
    var after, token := l.gap + LineText(l.rest), cur + Meaning(l.word);
    ScanWord(l.word, after, cur, inQuote);
    if l.gap == "" {
      assert l.rest.End?;
      EmptyEnds("");
      ScanNothing(token, Quoting(l.word, inQuote));
      EmptyEnds([token]);
    } else {
      ScanBlanks(l.gap, LineText(l.rest), token);
      NonEmptyOfCons(token, Meanings(l.rest));
      if l.rest.More? {
        ScanLine(l.rest, "", false);
        EmptyEnds(Meaning(l.rest.word));
      } else {
        ScanNothing("", false);
      }
    }
  }

  /** The tokens of a line are the meanings of its words, but for empty ones; so exactly the words
      when each of them means something. */
  lemma TokensAreWords(lead: string, l: Line)
    requires Blanks(lead) && Laid(l, false)
    ensures Scan(lead + LineText(l), "", false) == NonEmptyOf(Meanings(l))
    ensures NonEmpty(Meanings(l)) <==> Scan(lead + LineText(l), "", false) == Meanings(l)
  {
    if lead == "" {
      EmptyEnds(LineText(l));
    } else {
      ScanBlanks(lead, LineText(l), "");
      assert [""][1..] == [];
      EmptyEnds(Scan(LineText(l), "", false));
    }
    if l.More? {
      ScanLine(l, "", false);
      EmptyEnds(Meaning(l.word));
    }
  }

  // ----- Every line is of this form -----

  /** A line read from the middle of a word on, whose state is `inQuote`. */
  predicate Reads(s: string, inQuote: bool, l: Line) {
    l.More? && Laid(l, inQuote) && LineText(l) == s
  }

  lemma ReadsAtom(a: Atom, l: Line, inQuote: bool)
    requires l.More? && Laid(l, if a.Mark? then !inQuote else inQuote) && AtomFits(a, inQuote, LineText(l))
    ensures Reads(AtomText(a) + LineText(l), inQuote, l.(word := [a] + l.word))
  {
    var w := [a] + l.word;
    assert w[1..] == l.word;
    Assoc(AtomText(a), Text(l.word), l.gap + LineText(l.rest));
  }

  lemma ReadsBlank(c: char, l: Line)
    requires Blank(c) && l.More? && Laid(l, false)
    ensures Reads([c] + LineText(l), false,
                  if l.word == [] then l.(gap := [c] + l.gap) else More([], [c], l))
  {
    if l.word == [] {
      Assoc([c], l.gap, LineText(l.rest));
      EmptyEnds(l.gap + LineText(l.rest));
      EmptyEnds([c] + l.gap + LineText(l.rest));
    } else {
      EmptyEnds([c] + LineText(l));
    }
  }

  lemma ReadsEscape(s: string, inQuote: bool, l: Line)
    requires |s| > 1 && s[0] == '\\' && Special(s[1]) && Reads(s[2..], inQuote, l)
    ensures exists m :: Reads(s, inQuote, m)
  {
    ReadsAtom(Escaped(s[1]), l, inQuote);
    assert s == ['\\', s[1]] + s[2..];
  }

  lemma ReadsGap(s: string, l: Line)
    requires s != "" && Blank(s[0]) && Reads(s[1..], false, l)
    ensures exists m :: Reads(s, false, m)
  {
    ReadsBlank(s[0], l);
    assert s == [s[0]] + s[1..];
  }

  function PlainAtom(c: char): Atom {
    if c == '"' then Mark else Char(c)
  }

  lemma ReadsPlain(s: string, inQuote: bool, l: Line)
    requires s != "" && (s[0] == '\\' && |s| > 1 ==> !Special(s[1])) && (Blank(s[0]) ==> inQuote)
    requires Reads(s[1..], inQuote != PlainAtom(s[0]).Mark?, l)
    ensures exists m :: Reads(s, inQuote, m)
  {
    ReadsAtom(PlainAtom(s[0]), l, inQuote);
    assert s == [s[0]] + s[1..];
  }

  lemma {:induction false} EveryRestReads(s: string, inQuote: bool)
    ensures exists l :: Reads(s, inQuote, l)
    decreases |s|
  {
    if s == "" {
      EmptyEnds("");
      assert Reads(s, inQuote, More([], "", End));
    } else if s[0] == '\\' && |s| > 1 && Special(s[1]) {
      EveryRestReads(s[2..], inQuote);
      var l :| Reads(s[2..], inQuote, l);
      ReadsEscape(s, inQuote, l);
    } else if Blank(s[0]) && !inQuote {
      EveryRestReads(s[1..], false);
      var l :| Reads(s[1..], false, l);
      ReadsGap(s, l);
    } else {
      EveryRestReads(s[1..], inQuote != PlainAtom(s[0]).Mark?);
      var l :| Reads(s[1..], inQuote != PlainAtom(s[0]).Mark?, l);
      ReadsPlain(s, inQuote, l);
    }
  }

  /** Every command line can be read as words between blanks, so its tokens are known. */
  lemma EveryLineReads(s: string)
    ensures exists l :: Laid(l, false) && LineText(l) == s && Scan(s, "", false) == NonEmptyOf(Meanings(l))
  {
    EveryRestReads(s, false);
    var l :| Reads(s, false, l);
    TokensAreWords("", l);
    EmptyEnds(s);
    assert Laid(l, false) && LineText(l) == s && Scan(s, "", false) == NonEmptyOf(Meanings(l));
  }
}
