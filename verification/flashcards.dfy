/** The notes-to-flashcards parser of the backend's checkpoint endpoint
    (`get_flashcards_for_checkpoint` with its inner `flush_card`). */
module Flashcards {
  import opened Wrappers
  import opened Text

  datatype Card = Card(front: string, back: string)

  /** The card returned when the notes yield no card at all. */
  const NoCardsFront: string := "No flashcards parsed from os-notes.txt"
  const NoCardsBack: string := "Check the note formatting or adjust get_flashcards_for_checkpoint."

  /** Front of the card returned when the notes file cannot be read. */
  const ReadErrorFront: string := "Error reading os-notes.txt"

  predicate AllDigits(s: string) {
    forall i :: 0 <= i < |s| ==> IsDigit(s[i])
  }

  /** k digits, a slash, then one or two digits and nothing else. */
  predicate SlashAt(s: string, k: nat) {
    k < |s| && s[k] == '/' && AllDigits(s[..k]) && 1 <= |s| - k - 1 <= 2 && AllDigits(s[k + 1..])
  }

  /** A date boundary: one or two digits, a slash, one or two digits, and
      nothing else (`^\d{1,2}/\d{1,2}$`). */
  predicate IsDateLine(s: string) {
    SlashAt(s, 1) || SlashAt(s, 2)
  }

  /** What one line of the notes is to the loop, once stripped. Bullet
      carries its cleaned text, Title its stripped text. */
  datatype Token = Blank | Date | Title(text: string) | Bullet(text: string)

  /** The text the loop works on: `line.rstrip()` from the read, then
      `.strip()` in the loop. */
  function Stripped(line: string): string {
    Strip(RStrip(line))
  }

  predicate IsBullet(s: string) {
    StartsWith(s, '*') || StartsWith(s, '-')
  }

  /** A bullet's text: leading '*'s, then leading '-'s, then surrounding
      whitespace removed. */
  function CleanBullet(s: string): string {
    Strip(LStripChar(LStripChar(s, '*'), '-'))
  }

  /** The branch of the loop body a line takes. */
  function Tokenize(line: string): (t: Token)
    ensures t == Blank <==> Stripped(line) == ""
    ensures t == Date <==> Stripped(line) != "" && IsDateLine(Stripped(line))
    ensures t.Title? <==> Stripped(line) != "" && !IsDateLine(Stripped(line)) && !IsBullet(Stripped(line))
    ensures t.Title? ==> t.text == Stripped(line) && t.text != ""
    ensures t.Bullet? ==> IsBullet(Stripped(line)) && t.text == CleanBullet(Stripped(line))
  {
    var s := Stripped(line);
    if s == "" then Blank
    else if IsDateLine(s) then Date
    else if !IsBullet(s) then Title(s)
    else Bullet(CleanBullet(s))
  }

  /** `[f(x) for x in xs]`. */
  function MapSeq<A, B>(f: A -> B, xs: seq<A>): (ys: seq<B>)
    ensures |ys| == |xs|
  {
    if |xs| == 0 then [] else [f(xs[0])] + MapSeq(f, xs[1..])
  }

  lemma {:induction false} MapSeqIndex<A, B>(f: A -> B, xs: seq<A>, i: nat)
    requires i < |xs|
    ensures MapSeq(f, xs)[i] == f(xs[i])
    decreases i
  {
    if i > 0 {
      MapSeqIndex(f, xs[1..], i - 1);
    }
  }

  lemma MapSeqOne<A, B>(f: A -> B, x: A)
    ensures MapSeq(f, [x]) == [f(x)]
  {
    assert [x][1..] == [];
  }

  lemma MapSeqTwo<A, B>(f: A -> B, x: A, y: A)
    ensures MapSeq(f, [x, y]) == [f(x), f(y)]
  {
    assert [x, y][1..] == [y];
    MapSeqOne(f, y);
  }

  lemma {:induction false} MapSeqAppend<A, B>(f: A -> B, a: seq<A>, b: seq<A>)
    ensures MapSeq(f, a + b) == MapSeq(f, a) + MapSeq(f, b)
    decreases |a|
  {
    if |a| == 0 {
      assert a + b == b;
    } else {
      assert (a + b)[0] == a[0] && (a + b)[1..] == a[1..] + b;
      MapSeqAppend(f, a[1..], b);
    }
  }

  /** The token of every line, in order. */
  function Lex(lines: seq<string>): (ts: seq<Token>)
    ensures |ts| == |lines|
  {
    MapSeq(Tokenize, lines)
  }

  /** A card in the making: its title and its cleaned bullet texts. */
  datatype Section = Section(title: string, bullets: seq<string>)

  /** The card a section becomes: the title in front, the bullets joined
      by newlines and stripped on the back. */
  function CardOf(s: Section): (c: Card)
    ensures c.front == s.title
  {
    Card(s.title, Strip(Join(s.bullets, "\n")))
  }

  /** The cards the recorded sections stand for, in order. */
  function Render(sections: seq<Section>): (cards: seq<Card>)
    ensures |cards| == |sections|
  {
    MapSeq(CardOf, sections)
  }

  lemma RenderIndex(sections: seq<Section>, i: nat)
    requires i < |sections|
    ensures Render(sections)[i] == CardOf(sections[i])
  {
    MapSeqIndex(CardOf, sections, i);
  }

  /** The loop's variables: the cards emitted so far (each kept as the
      section it is made from), `current_title` and `buffer`. */
  datatype Parser = Parser(sections: seq<Section>, title: Option<string>, buffer: seq<string>)

  const Start: Parser := Parser([], None, [])

  /** Python truthiness of `current_title`: present and non-empty. */
  predicate HasTitle(p: Parser) {
    p.title.Some? && p.title.value != ""
  }

  /** `flush_card`: a card is emitted only for a title with at least one
      bullet; either way title and buffer are cleared. */
  function Flush(p: Parser): (r: Parser)
    ensures r.title == None && r.buffer == []
    ensures HasTitle(p) && |p.buffer| > 0 ==> r.sections == p.sections + [Section(p.title.value, p.buffer)]
    ensures !(HasTitle(p) && |p.buffer| > 0) ==> r.sections == p.sections
  {
    var sections := if HasTitle(p) && |p.buffer| > 0
                    then p.sections + [Section(p.title.value, p.buffer)]
                    else p.sections;
    Parser(sections, None, [])
  }

  /** In terms of cards: `flush_card` appends the card whose front is the
      current title and whose back is the buffer joined by newlines and
      stripped, exactly when both title and buffer are non-empty. */
  lemma FlushEmitsCard(p: Parser)
    ensures HasTitle(p) && |p.buffer| > 0 ==>
              Render(Flush(p).sections) ==
              Render(p.sections) + [Card(p.title.value, Strip(Join(p.buffer, "\n")))]
    ensures !(HasTitle(p) && |p.buffer| > 0) ==> Render(Flush(p).sections) == Render(p.sections)
  {
    if HasTitle(p) && |p.buffer| > 0 {
      var s := Section(p.title.value, p.buffer);
      RenderAppend(p.sections, [s]);
      MapSeqOne(CardOf, s);
    }
  }

  /** One iteration of the `for line in lines` loop: a blank line is
      skipped, a date line flushes, a title line flushes and starts a new
      title, a bullet is kept only under a title. */
  function Step(p: Parser, t: Token): Parser {
    match t
    case Blank => p
    case Date => Flush(p)
    case Title(s) => Flush(p).(title := Some(s), buffer := [])
    case Bullet(s) => if !HasTitle(p) then p else p.(buffer := p.buffer + [s])
  }

  function Run(p: Parser, ts: seq<Token>): Parser
    decreases |ts|
  {
    if |ts| == 0 then p else Run(Step(p, ts[0]), ts[1..])
  }

  /** The sections a token sequence yields: the loop, then the final
      flush. */
  function Sections(ts: seq<Token>): seq<Section> {
    Flush(Run(Start, ts)).sections
  }

  /** The cards the notes yield. */
  function NoteCards(lines: seq<string>): seq<Card> {
    Render(Sections(Lex(lines)))
  }

  /** The parse result: never empty; a single placeholder card stands in
      when the notes yield no card. */
  function ParseNotes(lines: seq<string>): (r: seq<Card>)
    ensures |r| > 0
    ensures |NoteCards(lines)| > 0 ==> r == NoteCards(lines)
    ensures |NoteCards(lines)| == 0 ==> r == [Card(NoCardsFront, NoCardsBack)]
  {
    var cards := NoteCards(lines);
    if |cards| == 0 then [Card(NoCardsFront, NoCardsBack)] else cards
  }

  /** `get_flashcards_for_checkpoint`, given the outcome of reading the
      notes file as its lines or the error text. The session, lesson and
      checkpoint arguments do not influence the result, so they are absent. */
  function FlashcardsForCheckpoint(notes: Result<seq<string>, string>): (r: seq<Card>)
    ensures |r| > 0
    ensures notes.Failure? ==> r == [Card(ReadErrorFront, notes.error)]
    ensures notes.Success? ==> r == ParseNotes(notes.value)
  {
    match notes
    case Failure(e) => [Card(ReadErrorFront, e)]
    case Success(lines) => ParseNotes(lines)
  }

  // ---------------------------------------------------------------------
  // Structure of the loop
  // ---------------------------------------------------------------------

  lemma LexIndex(lines: seq<string>, i: nat)
    requires i < |lines|
    ensures Lex(lines)[i] == Tokenize(lines[i])
  {
    MapSeqIndex(Tokenize, lines, i);
  }

  lemma LexAppend(a: seq<string>, b: seq<string>)
    ensures Lex(a + b) == Lex(a) + Lex(b)
  {
    MapSeqAppend(Tokenize, a, b);
  }

  lemma LexAround(a: seq<string>, m: seq<string>, b: seq<string>)
    ensures Lex(a + m + b) == Lex(a) + Lex(m) + Lex(b)
  {
    LexAppend(a + m, b);
    LexAppend(a, m);
  }

  lemma LexOne(x: string)
    ensures Lex([x]) == [Tokenize(x)]
  {
    MapSeqOne(Tokenize, x);
  }

  lemma LexTwo(x: string, y: string)
    ensures Lex([x, y]) == [Tokenize(x), Tokenize(y)]
  {
    MapSeqTwo(Tokenize, x, y);
  }

  lemma RenderAppend(a: seq<Section>, b: seq<Section>)
    ensures Render(a + b) == Render(a) + Render(b)
  {
    MapSeqAppend(CardOf, a, b);
  }

  lemma {:induction false} RunAppend(p: Parser, a: seq<Token>, b: seq<Token>)
    ensures Run(p, a + b) == Run(Run(p, a), b)
    decreases |a|
  {
    if |a| == 0 {
      assert a + b == b;
    } else {
      assert (a + b)[0] == a[0] && (a + b)[1..] == a[1..] + b;
      RunAppend(Step(p, a[0]), a[1..], b);
    }
  }

  /** p with `pre` put in front of its sections. */
  function Shifted(p: Parser, pre: seq<Section>): Parser {
    p.(sections := pre + p.sections)
  }

  lemma StepShifted(p: Parser, pre: seq<Section>, t: Token)
    ensures Step(Shifted(p, pre), t) == Shifted(Step(p, t), pre)
  {
    if HasTitle(p) && |p.buffer| > 0 {
      assert (pre + p.sections) + [Section(p.title.value, p.buffer)] ==
             pre + (p.sections + [Section(p.title.value, p.buffer)]);
    }
    assert Flush(Shifted(p, pre)) == Shifted(Flush(p), pre);
  }

  /** The loop only ever appends sections, so those already present do
      not influence what it does next. */
  lemma {:induction false} RunShifted(p: Parser, pre: seq<Section>, ts: seq<Token>)
    ensures Run(Shifted(p, pre), ts) == Shifted(Run(p, ts), pre)
    decreases |ts|
  {
    if |ts| > 0 {
      StepShifted(p, pre, ts[0]);
      RunShifted(Step(p, ts[0]), pre, ts[1..]);
    }
  }

  lemma DateTokenSplits(a: seq<Token>, b: seq<Token>)
    ensures Sections(a + [Date] + b) == Sections(a) + Sections(b)
  {
    RunAppend(Start, a + [Date], b);
    RunAppend(Start, a, [Date]);
    assert Run(Start, a + [Date]) == Shifted(Start, Sections(a));
    RunShifted(Start, Sections(a), b);
  }

  /** A date line is a hard boundary: the cards of the notes are the cards
      before it followed by the cards after it. */
  lemma DateLineSplits(a: seq<string>, d: string, b: seq<string>)
    requires Tokenize(d) == Date
    ensures NoteCards(a + [d] + b) == NoteCards(a) + NoteCards(b)
  {
    LexAround(a, [d], b);
    LexOne(d);
    DateTokenSplits(Lex(a), Lex(b));
    RenderAppend(Sections(Lex(a)), Sections(Lex(b)));
  }

  predicate BlankOrBullets(lines: seq<string>) {
    forall i :: 0 <= i < |lines| ==> Tokenize(lines[i]) == Blank || Tokenize(lines[i]).Bullet?
  }

  /** Bullets with no title to belong to are discarded. */
  lemma {:induction false} UntitledBulletsIgnored(p: Parser, ts: seq<Token>)
    requires !HasTitle(p)
    requires forall i :: 0 <= i < |ts| ==> ts[i] == Blank || ts[i].Bullet?
    ensures Run(p, ts) == p
    decreases |ts|
  {
    if |ts| > 0 {
      UntitledBulletsIgnored(p, ts[1..]);
    }
  }

  /** Bullets right after a date line are discarded: they add nothing to
      the cards before the date or after them. */
  lemma DateThenBulletsDropped(a: seq<string>, d: string, bs: seq<string>, b: seq<string>)
    requires Tokenize(d) == Date && BlankOrBullets(bs)
    ensures NoteCards(a + [d] + bs + b) == NoteCards(a) + NoteCards(b)
  {
    assert a + [d] + bs + b == a + [d] + (bs + b);
    DateLineSplits(a, d, bs + b);
    LexAppend(bs, b);
    RunAppend(Start, Lex(bs), Lex(b));
    forall i | 0 <= i < |bs| ensures Lex(bs)[i] == Blank || Lex(bs)[i].Bullet? {
      LexIndex(bs, i);
    }
    UntitledBulletsIgnored(Start, Lex(bs));
  }

  lemma BareTitleTokenDropped(a: seq<Token>, k1: Token, k2: Token, b: seq<Token>)
    requires k1.Title? && k1.text != "" && k2.Title?
    ensures Sections(a + [k1, k2] + b) == Sections(a + [k2] + b)
  {
    var before := Run(Start, a);
    RunAppend(Start, a + [k1, k2], b);
    RunAppend(Start, a + [k2], b);
    RunAppend(Start, a, [k1, k2]);
    RunAppend(Start, a, [k2]);
    assert Step(Step(before, k1), k2) == Step(before, k2);
  }

  /** A title followed directly by another title yields no card: the notes
      read as if it were not there. */
  lemma BareTitleDropped(a: seq<string>, t1: string, t2: string, b: seq<string>)
    requires Tokenize(t1).Title? && Tokenize(t2).Title?
    ensures NoteCards(a + [t1, t2] + b) == NoteCards(a + [t2] + b)
  {
    LexAround(a, [t1, t2], b);
    LexAround(a, [t2], b);
    LexOne(t2);
    LexTwo(t1, t2);
    BareTitleTokenDropped(Lex(a), Tokenize(t1), Tokenize(t2), Lex(b));
  }

  lemma RunOne(p: Parser, t: Token)
    ensures Run(p, [t]) == Step(p, t)
  {
    assert [t][1..] == [];
  }

  /** Blank tokens leave the parser as it is. */
  lemma {:induction false} RunBlanks(p: Parser, ts: seq<Token>)
    requires forall i :: 0 <= i < |ts| ==> ts[i] == Blank
    ensures Run(p, ts) == p
    decreases |ts|
  {
    if |ts| > 0 {
      RunBlanks(p, ts[1..]);
    }
  }

  predicate AllBlank(lines: seq<string>) {
    forall i :: 0 <= i < |lines| ==> Tokenize(lines[i]) == Blank
  }

  lemma LexBlanks(lines: seq<string>)
    requires AllBlank(lines)
    ensures forall i :: 0 <= i < |Lex(lines)| ==> Lex(lines)[i] == Blank
  {
    forall i | 0 <= i < |lines| ensures Lex(lines)[i] == Blank {
      LexIndex(lines, i);
    }
  }

  lemma BlankTokensSkipped(a: seq<Token>, bl: seq<Token>, b: seq<Token>)
    requires forall i :: 0 <= i < |bl| ==> bl[i] == Blank
    ensures Sections(a + bl + b) == Sections(a + b)
  {
    RunAppend(Start, a + bl, b);
    RunAppend(Start, a, bl);
    RunAppend(Start, a, b);
    RunBlanks(Run(Start, a), bl);
  }

  /** Blank lines are skipped: the notes read as if they were not there. */
  lemma BlankLinesSkipped(a: seq<string>, es: seq<string>, b: seq<string>)
    requires AllBlank(es)
    ensures NoteCards(a + es + b) == NoteCards(a + b)
  {
    LexAround(a, es, b);
    LexAppend(a, b);
    LexBlanks(es);
    BlankTokensSkipped(Lex(a), Lex(es), Lex(b));
  }

  /** After a title, blank tokens and then a title or date, the parser is
      where the title or date alone would have left it. */
  lemma TitleWithoutBulletsTokens(a: seq<Token>, k: Token, bl: seq<Token>, x: Token, b: seq<Token>)
    requires k.Title? && (x.Title? || x == Date)
    requires forall i :: 0 <= i < |bl| ==> bl[i] == Blank
    ensures Sections(a + [k] + bl + [x] + b) == Sections(a + [x] + b)
  {
    var p := Run(Start, a);
    var q := Step(p, k);
    RunAppend(Start, a + [k] + bl + [x], b);
    RunAppend(Start, a + [k] + bl, [x]);
    RunAppend(Start, a + [k], bl);
    RunAppend(Start, a, [k]);
    RunAppend(Start, a + [x], b);
    RunAppend(Start, a, [x]);
    RunOne(p, k);
    RunOne(q, x);
    RunOne(p, x);
    RunBlanks(q, bl);
    assert Flush(q) == Flush(p);
    assert Step(q, x) == Step(p, x);
  }

  /** A title left without bullets at the end of the notes, blank lines
      aside, adds nothing. */
  lemma TrailingTitleTokens(a: seq<Token>, k: Token, bl: seq<Token>)
    requires k.Title?
    requires forall i :: 0 <= i < |bl| ==> bl[i] == Blank
    ensures Sections(a + [k] + bl) == Sections(a)
  {
    var p := Run(Start, a);
    var q := Step(p, k);
    RunAppend(Start, a + [k], bl);
    RunAppend(Start, a, [k]);
    RunOne(p, k);
    RunBlanks(q, bl);
    assert Flush(q) == Flush(p);
  }

  lemma TitleWithoutBulletsLines(a: seq<string>, t: string, es: seq<string>, x: string, b: seq<string>)
    requires Tokenize(t).Title? && AllBlank(es)
    requires Tokenize(x).Title? || Tokenize(x) == Date
    ensures NoteCards(a + [t] + es + [x] + b) == NoteCards(a + [x] + b)
  {
    LexAppend(a + [t] + es + [x], b);
    LexAppend(a + [t] + es, [x]);
    LexAppend(a + [t], es);
    LexAppend(a, [t]);
    LexAppend(a + [x], b);
    LexAppend(a, [x]);
    LexOne(t);
    LexOne(x);
    LexBlanks(es);
    TitleWithoutBulletsTokens(Lex(a), Tokenize(t), Lex(es), Tokenize(x), Lex(b));
  }

  /** A title with no bullet before the next title yields no card, however
      many blank lines come between: the notes read as if it were not
      there. */
  lemma TitleBeforeTitleDropped(a: seq<string>, t: string, es: seq<string>, x: string, b: seq<string>)
    requires Tokenize(t).Title? && AllBlank(es) && Tokenize(x).Title?
    ensures NoteCards(a + [t] + es + [x] + b) == NoteCards(a + [x] + b)
  {
    TitleWithoutBulletsLines(a, t, es, x, b);
  }

  /** A title with no bullet before the next date line yields no card,
      however many blank lines come between. */
  lemma TitleBeforeDateDropped(a: seq<string>, t: string, es: seq<string>, d: string, b: seq<string>)
    requires Tokenize(t).Title? && AllBlank(es) && Tokenize(d) == Date
    ensures NoteCards(a + [t] + es + [d] + b) == NoteCards(a + [d] + b)
  {
    TitleWithoutBulletsLines(a, t, es, d, b);
  }

  /** A title with no bullet after it before the end of the notes yields no
      card. */
  lemma TrailingTitleDropped(a: seq<string>, t: string, es: seq<string>)
    requires Tokenize(t).Title? && AllBlank(es)
    ensures NoteCards(a + [t] + es) == NoteCards(a)
  {
    LexAppend(a + [t], es);
    LexAppend(a, [t]);
    LexOne(t);
    LexBlanks(es);
    TrailingTitleTokens(Lex(a), Tokenize(t), Lex(es));
  }

  /** The cleaned text of each bullet line. */
  function CleanedBullets(lines: seq<string>): (r: seq<string>)
    ensures |r| == |lines|
  {
    seq(|lines|, i requires 0 <= i < |lines| => CleanBullet(Stripped(lines[i])))
  }

  predicate AllBullets(lines: seq<string>) {
    forall i :: 0 <= i < |lines| ==> Tokenize(lines[i]).Bullet?
  }

  function Texts(ts: seq<Token>): (r: seq<string>)
    requires forall i :: 0 <= i < |ts| ==> ts[i].Bullet?
    ensures |r| == |ts|
  {
    seq(|ts|, i requires 0 <= i < |ts| => ts[i].text)
  }

  /** Under a title, each bullet adds its text to the buffer. */
  lemma {:induction false} RunBullets(p: Parser, ts: seq<Token>)
    requires HasTitle(p)
    requires forall i :: 0 <= i < |ts| ==> ts[i].Bullet?
    ensures Run(p, ts) == p.(buffer := p.buffer + Texts(ts))
    decreases |ts|
  {
    var texts := Texts(ts);
    if |ts| == 0 {
      assert p.buffer + texts == p.buffer;
    } else {
      var q := Step(p, ts[0]);
      assert q == p.(buffer := p.buffer + [ts[0].text]);
      RunBullets(q, ts[1..]);
      var rest := Texts(ts[1..]);
      assert texts == [ts[0].text] + rest;
      assert q.buffer + rest == p.buffer + texts;
    }
  }

  lemma TitleThenBullets(k: Token, bs: seq<Token>)
    requires k.Title? && k.text != "" && |bs| > 0
    requires forall i :: 0 <= i < |bs| ==> bs[i].Bullet?
    ensures Sections([k] + bs) == [Section(k.text, Texts(bs))]
  {
    RunAppend(Start, [k], bs);
    var p := Run(Start, [k]);
    assert p == Parser([], Some(k.text), []);
    RunBullets(p, bs);
    assert [] + Texts(bs) == Texts(bs);
  }

  lemma LexBullets(bullets: seq<string>)
    requires AllBullets(bullets)
    ensures forall i :: 0 <= i < |bullets| ==> Lex(bullets)[i].Bullet?
    ensures Texts(Lex(bullets)) == CleanedBullets(bullets)
  {
    forall i | 0 <= i < |bullets| ensures Lex(bullets)[i] == Tokenize(bullets[i]) {
      LexIndex(bullets, i);
    }
  }

  /** One title with its bullets is one card: the stripped title in front,
      the cleaned bullets joined by newlines and stripped on the back. */
  lemma SingleSection(t: string, bullets: seq<string>)
    requires Tokenize(t).Title? && |bullets| > 0 && AllBullets(bullets)
    ensures NoteCards([t] + bullets) ==
            [Card(Stripped(t), Strip(Join(CleanedBullets(bullets), "\n")))]
  {
    LexAppend([t], bullets);
    LexOne(t);
    LexBullets(bullets);
    TitleThenBullets(Tokenize(t), Lex(bullets));
  }

  // ---------------------------------------------------------------------
  // Where cards come from
  // ---------------------------------------------------------------------

  /** The texts of the title tokens. */
  function TokenTitles(ts: seq<Token>): set<string> {
    set t | t in ts && t.Title? :: t.text
  }

  /** The stripped texts of the title lines. */
  function TitleTexts(lines: seq<string>): set<string> {
    TokenTitles(Lex(lines))
  }

  function TitleCount(ts: seq<Token>): nat {
    if |ts| == 0 then 0 else (if ts[0].Title? then 1 else 0) + TitleCount(ts[1..])
  }

  function BulletCount(ts: seq<Token>): nat {
    if |ts| == 0 then 0 else (if ts[0].Bullet? then 1 else 0) + BulletCount(ts[1..])
  }

  /** Titles drawn from `fronts`, never empty, with any pending title drawn
      from it too. */
  predicate TitlesFrom(p: Parser, fronts: set<string>) {
    && (forall s :: s in p.sections ==> s.title != "" && s.title in fronts)
    && (HasTitle(p) ==> p.title.value in fronts)
  }

  lemma {:induction false} RunTitles(p: Parser, ts: seq<Token>, fronts: set<string>)
    requires TitlesFrom(p, fronts)
    requires forall i :: 0 <= i < |ts| && ts[i].Title? ==> ts[i].text in fronts
    ensures TitlesFrom(Run(p, ts), fronts)
    decreases |ts|
  {
    if |ts| > 0 {
      assert TitlesFrom(Step(p, ts[0]), fronts);
      assert forall i :: 0 <= i < |ts[1..]| ==> ts[1..][i] == ts[i + 1];
      RunTitles(Step(p, ts[0]), ts[1..], fronts);
    }
  }

  lemma SectionTitles(ts: seq<Token>)
    ensures forall s :: s in Sections(ts) ==> s.title != "" && s.title in TokenTitles(ts)
  {
    forall i | 0 <= i < |ts| && ts[i].Title? ensures ts[i].text in TokenTitles(ts) {
      assert ts[i] in ts;
    }
    RunTitles(Start, ts, TokenTitles(ts));
  }

  /** Every card's front is the stripped text of a title line of the notes. */
  lemma CardFrontsAreTitles(lines: seq<string>)
    ensures forall c :: c in NoteCards(lines) ==> c.front != "" && c.front in TitleTexts(lines)
  {
    var secs := Sections(Lex(lines));
    SectionTitles(Lex(lines));
    var cards := NoteCards(lines);
    forall c | c in cards ensures c.front != "" && c.front in TitleTexts(lines) {
      var i :| 0 <= i < |cards| && cards[i] == c;
      RenderIndex(secs, i);
      assert c.front == secs[i].title && secs[i] in secs;
    }
  }

  function Pending(p: Parser): nat {
    if HasTitle(p) then 1 else 0
  }

  /** Each section uses up one title and at least one bullet. */
  lemma {:induction false} RunCounts(p: Parser, ts: seq<Token>)
    ensures var q := Run(p, ts);
            && |q.sections| + Pending(q) <= |p.sections| + Pending(p) + TitleCount(ts)
            && |q.sections| + |q.buffer| <= |p.sections| + |p.buffer| + BulletCount(ts)
    decreases |ts|
  {
    if |ts| > 0 {
      RunCounts(Step(p, ts[0]), ts[1..]);
    }
  }

  /** The notes never yield more cards than they have title lines, nor more
      than they have bullet lines. */
  lemma CardCountBounds(lines: seq<string>)
    ensures |NoteCards(lines)| <= TitleCount(Lex(lines))
    ensures |NoteCards(lines)| <= BulletCount(Lex(lines))
  {
    RunCounts(Start, Lex(lines));
  }
}
