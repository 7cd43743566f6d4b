/** The lexer of interface-compiler/src/parser.c: a state machine over characters with one character pushed back,
    proved to deliver the lexemes of a file as a plain definition reads them, whatever their layout. */
module Lexer {
  import opened Wrappers

  const MAX_LEXEME_SIZE: nat := 100

  /** What the lexer delivers besides the start and the end of the file. */
  datatype Lexeme = Open | Close | Id(name: string)

  /** What is to be read from a file: its lexemes, up to its end or to a place where the lexer gives up. */
  datatype Tokens = Eof | Garbage | Cons(head: Lexeme, tail: Tokens)

  // ---- characters, in the C locale ----

  predicate IsSpace(ch: char) {
    ch == ' ' || '\t' <= ch <= '\r'
  }

  predicate IsLetter(ch: char) {
    'a' <= ch <= 'z' || 'A' <= ch <= 'Z'
  }

  predicate IsIdChar(ch: char) {
    IsLetter(ch) || '0' <= ch <= '9' || ch == '_'
  }

  /** A character that may follow an identifier. */
  predicate EndsId(ch: char) {
    IsSpace(ch) || ch == '#' || ch == '{' || ch == '}'
  }

  // ---- what a file means ----

  /** The text after leading white space and comments; a comment runs to the end of its line. */
  function SkipLayout(s: string, inComment: bool): (r: string)
    ensures |r| <= |s| && (r != [] ==> !IsSpace(r[0]) && r[0] != '#')
  {
    if s == [] then []
    else if inComment then SkipLayout(s[1..], s[0] != '\n')
    else if s[0] == '#' then SkipLayout(s[1..], true)
    else if IsSpace(s[0]) then SkipLayout(s[1..], false)
    else s
  }

  /** The number of identifier characters a text starts with. */
  function IdLength(s: string): (n: nat)
    ensures n <= |s| && (forall i :: 0 <= i < n ==> IsIdChar(s[i])) && (n < |s| ==> !IsIdChar(s[n]))
  {
    if s == [] || !IsIdChar(s[0]) then 0 else 1 + IdLength(s[1..])
  }

  function View(s: string): Tokens
    decreases |s|
  {
    var t := SkipLayout(s, false);
    if t == [] then Eof
    else if t[0] == '{' then Cons(Open, View(t[1..]))
    else if t[0] == '}' then Cons(Close, View(t[1..]))
    else if IsLetter(t[0]) then
      var n := IdLength(t);
      if n >= MAX_LEXEME_SIZE || (n < |t| && !EndsId(t[n])) then Garbage else Cons(Id(t[..n]), View(t[n..]))
    else Garbage
  }

  predicate IsId(name: string) {
    0 < |name| < MAX_LEXEME_SIZE && IsLetter(name[0]) && forall i :: 0 <= i < |name| ==> IsIdChar(name[i])
  }

  // ---- the lexer ----

  datatype LexemeType = LexemeStart | LexemeStop | LexemeId | LexemeOpenBrace | LexemeCloseBrace

  datatype LexerState = StateStart | StateInComment | StateInId

  class Context {
    const input: string
    var at: nat                  // how many characters have been read and not pushed back
    var lexemeType: LexemeType
    var lexeme: string

    constructor (input: string)
      ensures this.input == input && at == 0 && lexemeType == LexemeStart
    {
      this.input := input;
      at, lexemeType, lexeme := 0, LexemeStart, "";
    }

    ghost predicate Valid()
      reads this
    {
      at <= |input|
    }

    ghost function Text(): string
      reads this
      requires Valid()
    {
      input[at..]
    }

    /** What is still to be read. */
    ghost function Rest(): Tokens
      reads this
      requires Valid()
    {
      View(Text())
    }

    ghost predicate Holds(l: Lexeme)
      reads this
    {
      match l
      case Open => lexemeType == LexemeOpenBrace
      case Close => lexemeType == LexemeCloseBrace
      case Id(name) => lexemeType == LexemeId && lexeme == name
    }

    method ReadNextChar() returns (ch: Option<char>)
      requires Valid()
      modifies `at
      ensures Valid() && at >= old(at)
      ensures ch.None? ==> old(Text()) == [] && at == old(at)
      ensures ch.Some? ==> old(Text()) == [ch.value] + Text() && at == old(at) + 1 && input[old(at)] == ch.value
    {
      if at == |input| {
        return None;
      }
      ch, at := Some(input[at]), at + 1;
    }

    /** One character can be pushed back. */
    method UnreadChar(ch: char)
      requires Valid() && at > 0 && input[at - 1] == ch
      modifies `at
      ensures Valid() && Text() == [ch] + old(Text())
    {
      at := at - 1;
    }

    /** Reads the next lexeme; at garbage the program dies. At the end of the file it reads the end again and again. */
    method ReadNextLexeme() returns (ok: bool)
      requires Valid()
      modifies this
      ensures Valid()
      ensures ok <==> !old(Rest()).Garbage?
      ensures old(Rest()).Eof? ==> lexemeType == LexemeStop && Rest() == Eof
      ensures old(Rest()).Cons? ==> Holds(old(Rest()).head) && Rest() == old(Rest()).tail
    {
      ghost var goal := Rest();
      lexeme := "";
      var state := StateStart;
      while true
        invariant Valid() && Reading(state, lexeme, Text(), goal)
        decreases |input| - at
      {
        var next := ReadNextChar();
        if next.None? {
          ReadingEnd(state, lexeme, goal);
          lexemeType := if state.StateInId? then LexemeId else LexemeStop;
          return true;
        }
        var ch := next.value;
        ghost var rest := Text();
        match state
        case StateStart =>
          ReadingStart(ch, rest, goal);
          if ch == '#' {
            state := StateInComment;
          } else if ch == '{' {
            lexeme, lexemeType := "{", LexemeOpenBrace;
            return true;
          } else if ch == '}' {
            lexeme, lexemeType := "}", LexemeCloseBrace;
            return true;
          } else if !IsSpace(ch) {
            if !IsLetter(ch) {
              return false;
            }
            lexeme, state := [ch], StateInId;
          }
        case StateInComment =>
          ReadingComment(ch, rest, goal);
          if ch == '\n' {
            state := StateStart;
          }
        case StateInId =>
          ReadingId(lexeme, ch, rest, goal);
          if EndsId(ch) {
            if !IsSpace(ch) {
              UnreadChar(ch);
            }
            lexemeType := LexemeId;
            return true;
          }
          if !IsIdChar(ch) || |lexeme| + 1 == MAX_LEXEME_SIZE {
            return false;
          }
          lexeme := lexeme + [ch];
      }
    }
  }

  // ---- what one character does to what is to be read ----

  lemma {:induction false} IdLengthOf(name: string, r: string)
    requires forall i :: 0 <= i < |name| ==> IsIdChar(name[i])
    ensures IdLength(name + r) == |name| + IdLength(r)
  {
    if name == [] {
      assert name + r == r;
    } else {
      assert (name + r)[1..] == name[1..] + r;
      IdLengthOf(name[1..], r);
    }
  }

  lemma AtEnd(name: string)
    ensures View("#" + []) == Eof && View([]) == Eof
    ensures IsId(name) ==> View(name + []) == Cons(Id(name), Eof)
  {
    assert ("#" + [])[1..] == [];
    if IsId(name) {
      IdLengthOf(name, []);
      assert name + [] == name && name[..|name|] == name;
    }
  }

  lemma StartStep(ch: char, r: string)
    ensures ch == '#' ==> View([ch] + r) == View("#" + r)
    ensures ch == '{' ==> View([ch] + r) == Cons(Open, View(r))
    ensures ch == '}' ==> View([ch] + r) == Cons(Close, View(r))
    ensures IsSpace(ch) ==> View([ch] + r) == View(r)
    ensures !EndsId(ch) && !IsLetter(ch) ==> View([ch] + r) == Garbage
  {
    assert ([ch] + r)[1..] == r;
  }

  lemma CommentStep(ch: char, r: string)
    ensures View("#" + ([ch] + r)) == if ch == '\n' then View(r) else View("#" + r)
  {
    assert ("#" + ([ch] + r))[1..] == [ch] + r && ([ch] + r)[1..] == r && ("#" + r)[1..] == r;
    assert SkipLayout("#" + ([ch] + r), false) == SkipLayout([ch] + r, true) == SkipLayout(r, ch != '\n');
    if ch != '\n' {
      assert SkipLayout("#" + r, false) == SkipLayout(r, true);
    }
  }

  lemma SpaceStep(ch: char, r: string)
    requires IsSpace(ch)
    ensures View([ch] + r) == View(r)
  {
    assert ([ch] + r)[1..] == r;
  }

  lemma ViewId(t: string, n: nat)
    requires t != [] && IsLetter(t[0]) && n == IdLength(t)
    ensures View(t) == if n >= MAX_LEXEME_SIZE || (n < |t| && !EndsId(t[n])) then Garbage
                       else Cons(Id(t[..n]), View(t[n..]))
  {
    assert SkipLayout(t, false) == t;
  }

  lemma IdEnds(name: string, ch: char, r: string)
    requires IsId(name) && EndsId(ch)
    ensures View(name + ([ch] + r)) == Cons(Id(name), View([ch] + r))
    ensures IsSpace(ch) ==> View([ch] + r) == View(r)
  {
    var t := name + ([ch] + r);
    IdLengthOf(name, [ch] + r);
    ViewId(t, |name|);
    assert t[..|name|] == name && t[|name|..] == [ch] + r;
    if IsSpace(ch) {
      SpaceStep(ch, r);
    }
  }

  lemma IdBreaks(name: string, ch: char, r: string)
    requires IsId(name) && !EndsId(ch) && (!IsIdChar(ch) || |name| + 1 == MAX_LEXEME_SIZE)
    ensures View(name + ([ch] + r)) == Garbage
  {
    var t := name + ([ch] + r);
    IdLengthOf(name, [ch] + r);
    ViewId(t, IdLength(t));
    assert t[|name|] == ch;
  }

  /** What the lexer has seen of the lexeme at hand, with what is to be read, is what there was to be read. */
  ghost predicate Reading(state: LexerState, lexeme: string, rest: string, goal: Tokens) {
    match state
    case StateStart => lexeme == "" && View(rest) == goal
    case StateInComment => lexeme == "" && View("#" + rest) == goal
    case StateInId => IsId(lexeme) && View(lexeme + rest) == goal
  }

  lemma ReadingEnd(state: LexerState, lexeme: string, goal: Tokens)
    requires Reading(state, lexeme, [], goal)
    ensures View([]) == Eof
    ensures goal == if state.StateInId? then Cons(Id(lexeme), Eof) else Eof
  {
    AtEnd(lexeme);
  }

  lemma ReadingStart(ch: char, r: string, goal: Tokens)
    requires Reading(StateStart, "", [ch] + r, goal)
    ensures ch == '#' ==> Reading(StateInComment, "", r, goal)
    ensures ch == '{' ==> goal == Cons(Open, View(r))
    ensures ch == '}' ==> goal == Cons(Close, View(r))
    ensures IsSpace(ch) ==> Reading(StateStart, "", r, goal)
    ensures !EndsId(ch) ==> if IsLetter(ch) then Reading(StateInId, [ch], r, goal) else goal == Garbage
  {
    StartStep(ch, r);
  }

  lemma ReadingComment(ch: char, r: string, goal: Tokens)
    requires Reading(StateInComment, "", [ch] + r, goal)
    ensures Reading(if ch == '\n' then StateStart else StateInComment, "", r, goal)
  {
    CommentStep(ch, r);
  }

  lemma ReadingId(lexeme: string, ch: char, r: string, goal: Tokens)
    requires Reading(StateInId, lexeme, [ch] + r, goal)
    ensures EndsId(ch) ==> goal == Cons(Id(lexeme), View([ch] + r)) && (IsSpace(ch) ==> View([ch] + r) == View(r))
    ensures !EndsId(ch) && (!IsIdChar(ch) || |lexeme| + 1 == MAX_LEXEME_SIZE) ==> goal == Garbage
    ensures !EndsId(ch) && IsIdChar(ch) && |lexeme| + 1 < MAX_LEXEME_SIZE ==> Reading(StateInId, lexeme + [ch], r, goal)
  {
    if EndsId(ch) {
      IdEnds(lexeme, ch, r);
    } else if !IsIdChar(ch) || |lexeme| + 1 == MAX_LEXEME_SIZE {
      IdBreaks(lexeme, ch, r);
    } else {
      assert lexeme + ([ch] + r) == lexeme + [ch] + r;
    }
  }

  // ---- layout ----

  function Spell(l: Lexeme): string {
    match l
    case Open => "{"
    case Close => "}"
    case Id(name) => name
  }

  /** White space and whole comments. */
  predicate IsGap(s: string, inComment: bool) {
    if s == [] then !inComment
    else if inComment then IsGap(s[1..], s[0] != '\n')
    else if s[0] == '#' then IsGap(s[1..], true)
    else IsSpace(s[0]) && IsGap(s[1..], false)
  }

  /** Lexemes written out with gaps before, between and after them. */
  function Render(ls: seq<Lexeme>, gaps: seq<string>): string
    requires |gaps| == |ls| + 1
  {
    if ls == [] then gaps[0] else gaps[0] + (Spell(ls[0]) + Render(ls[1..], gaps[1..]))
  }

  /** Gaps that may stand around the lexemes: two identifiers need one between them, and after the last lexeme a
      comment may run to the end of the file. */
  ghost predicate Spaced(ls: seq<Lexeme>, gaps: seq<string>) {
    && |gaps| == |ls| + 1
    && (forall i :: 0 <= i < |ls| ==> IsGap(gaps[i], false))
    && SkipLayout(gaps[|ls|], false) == []
    && (forall i :: 0 < i < |ls| && ls[i - 1].Id? && ls[i].Id? ==> gaps[i] != [])
  }

  /** The lexer knows all the identifiers. */
  ghost predicate AllIds(ls: seq<Lexeme>) {
    forall l :: l in ls && l.Id? ==> IsId(l.name)
  }

  ghost predicate Legal(ls: seq<Lexeme>, gaps: seq<string>) {
    Spaced(ls, gaps) && AllIds(ls)
  }

  function Cat(ls: seq<Lexeme>, ts: Tokens): Tokens {
    if ls == [] then ts else Cons(ls[0], Cat(ls[1..], ts))
  }

  lemma {:induction false} SkipGap(g: string, s: string, inComment: bool)
    requires IsGap(g, inComment)
    ensures SkipLayout(g + s, inComment) == SkipLayout(s, false)
  {
    if g == [] {
      assert g + s == s;
    } else {
      assert (g + s)[1..] == g[1..] + s;
      SkipGap(g[1..], s, if inComment then g[0] != '\n' else g[0] == '#');
    }
  }

  lemma GapEndsId(g: string, inComment: bool)
    requires g != [] && (IsGap(g, false) || SkipLayout(g, false) == [])
    ensures EndsId(g[0])
  {
  }

  lemma SpacedTail(ls: seq<Lexeme>, gaps: seq<string>)
    requires Spaced(ls, gaps) && ls != []
    ensures Spaced(ls[1..], gaps[1..])
  {
  }

  /** After an identifier, a rendering goes on with something that ends it. */
  lemma AfterId(ls: seq<Lexeme>, gaps: seq<string>)
    requires Spaced(ls, gaps) && ls != [] && ls[0].Id?
    ensures var r := Render(ls[1..], gaps[1..]); r != [] ==> EndsId(r[0])
  {
    if gaps[1] != [] {
      GapEndsId(gaps[1], false);
    }
  }

  lemma ViewAfterGap(g: string, s: string)
    requires IsGap(g, false)
    ensures View(g + s) == View(s)
  {
    SkipGap(g, s, false);
  }

  lemma ViewSpelled(l: Lexeme, r: string)
    requires l.Id? ==> IsId(l.name) && (r != [] ==> EndsId(r[0]))
    ensures View(Spell(l) + r) == Cons(l, View(r))
  {
    var t := Spell(l) + r;
    if l.Id? {
      IdLengthOf(l.name, r);
      ViewId(t, |l.name|);
      assert t[..|l.name|] == l.name && t[|l.name|..] == r;
    } else {
      StartStep(t[0], r);
      assert t == [t[0]] + r;
    }
  }

  /** Layout independence: lexemes rendered with any white space and comments are read back exactly, and then the
      end of the file. */
  lemma {:induction false} RenderedIsRead(ls: seq<Lexeme>, gaps: seq<string>)
    requires Legal(ls, gaps)
    ensures View(Render(ls, gaps)) == Cat(ls, Eof)
  {
    if ls != [] {
      SpacedTail(ls, gaps);
      var r := Render(ls[1..], gaps[1..]);
      if ls[0].Id? {
        AfterId(ls, gaps);
      }
      ViewAfterGap(gaps[0], Spell(ls[0]) + r);
      ViewSpelled(ls[0], r);
      RenderedIsRead(ls[1..], gaps[1..]);
    }
  }

  lemma {:induction false} SkippedIsSuffix(s: string, inComment: bool)
    ensures var t := SkipLayout(s, inComment); s == s[..|s| - |t|] + t
  {
    if s != [] && (inComment || s[0] == '#' || IsSpace(s[0])) {
      SkippedIsSuffix(s[1..], if inComment then s[0] != '\n' else s[0] == '#');
      assert s[..|s| - |SkipLayout(s, inComment)|] == [s[0]] + s[1..][..|s| - 1 - |SkipLayout(s, inComment)|];
      assert s == [s[0]] + s[1..];
    }
  }

  lemma {:induction false} SkippedIsGap(s: string, inComment: bool)
    requires SkipLayout(s, inComment) != []
    ensures IsGap(s[..|s| - |SkipLayout(s, inComment)|], inComment)
  {
    var t := SkipLayout(s, inComment);
    if inComment || s[0] == '#' || IsSpace(s[0]) {
      SkippedIsGap(s[1..], if inComment then s[0] != '\n' else s[0] == '#');
      assert s[..|s| - |t|][1..] == s[1..][..|s| - 1 - |t|];
    }
  }

  lemma IdSpelled(t: string)
    requires t != [] && IsLetter(t[0]) && View(t).Cons?
    ensures var n := IdLength(t);
            IsId(t[..n]) && View(t) == Cons(Id(t[..n]), View(t[n..])) && (n < |t| ==> EndsId(t[n]))
  {
    ViewId(t, IdLength(t));
    assert IdLength(t) > 0;
  }

  /** The head of what is read, spelled out, follows the layout. */
  lemma HeadSpelled(t: string, l: Lexeme, ts: Tokens)
    requires t != [] && SkipLayout(t, false) == t && View(t) == Cons(l, ts)
    ensures var n := |Spell(l)|;
            n <= |t| && t[..n] == Spell(l) && View(t[n..]) == ts
            && (l.Id? ==> IsId(l.name) && (n < |t| ==> EndsId(t[n])))
  {
    if IsLetter(t[0]) {
      IdSpelled(t);
    }
  }

  lemma LegalCons(g: string, ls: seq<Lexeme>, gaps: seq<string>)
    requires ls != [] && Legal(ls[1..], gaps) && IsGap(g, false) && (ls[0].Id? ==> IsId(ls[0].name))
    requires |ls| > 1 && ls[0].Id? && ls[1].Id? ==> gaps[0] != []
    ensures Legal(ls, [g] + gaps) && Render(ls, [g] + gaps) == g + (Spell(ls[0]) + Render(ls[1..], gaps))
  {
    var all := [g] + gaps;
    assert all[1..] == gaps;
    forall i | 0 < i < |ls| && ls[i - 1].Id? && ls[i].Id?
      ensures all[i] != []
    {
      if i > 1 { assert ls[1..][i - 1] == ls[i] && ls[1..][i - 2] == ls[i - 1] && gaps[i - 1] == all[i]; }
    }
    assert ls == [ls[0]] + ls[1..];
    forall i | 0 <= i < |ls|
      ensures IsGap(all[i], false)
    {
      if i > 0 { assert ls[1..][i - 1] == ls[i] && gaps[i - 1] == all[i]; }
    }
  }

  /** And the other way round: a file that is read to its end is a rendering of what is read. */
  lemma {:induction false} ReadIsRendered(s: string, ls: seq<Lexeme>) returns (gaps: seq<string>)
    requires View(s) == Cat(ls, Eof)
    ensures Legal(ls, gaps) && Render(ls, gaps) == s && gaps[0] == s[..|s| - |SkipLayout(s, false)|]
    decreases |ls|
  {
    var t := SkipLayout(s, false);
    var g := s[..|s| - |t|];
    SkippedIsSuffix(s, false);
    if ls == [] {
      gaps := [s];
    } else {
      SkippedIsGap(s, false);
      SkipTwice(s);
      HeadSpelled(t, ls[0], Cat(ls[1..], Eof));
      var r := t[|Spell(ls[0])|..];
      var rest := ReadIsRendered(r, ls[1..]);
      if |ls| > 1 && ls[0].Id? && ls[1].Id? {
        NextIsApart(r, ls[1..]);
      }
      LegalCons(g, ls, rest);
      gaps := [g] + rest;
      Split(t, Spell(ls[0]));
    }
  }

  lemma Split(t: string, p: string)
    requires |p| <= |t| && t[..|p|] == p
    ensures p + t[|p|..] == t
  {
  }

  lemma SkipTwice(s: string)
    ensures SkipLayout(SkipLayout(s, false), false) == SkipLayout(s, false)
    ensures View(SkipLayout(s, false)) == View(s)
  {
  }

  lemma NextIsApart(r: string, ls: seq<Lexeme>)
    requires View(r) == Cat(ls, Eof) && ls != [] && ls[0].Id? && (r != [] ==> EndsId(r[0]))
    ensures r[..|r| - |SkipLayout(r, false)|] != []
  {
    var t := SkipLayout(r, false);
    SkippedIsSuffix(r, false);
    assert t != [] && IsLetter(t[0]);
  }

  // ---- the characters, one by one ----

  /** Blank, tab, line feed, vertical tab, form feed, carriage return. */
  predicate White(ch: char) {
    ch == ' ' || ch == '\t' || ch == '\n' || ch == '\U{000B}' || ch == '\U{000C}' || ch == '\r'
  }

  /** Position i lies in a comment, or is the sign that begins one: no line ends between that sign and i. */
  predicate Commented(s: string, i: nat) {
    exists j :: 0 <= j <= i && j < |s| && s[j] == '#' && forall k :: j < k < i && k < |s| ==> s[k] != '\n'
  }

  /** The same for a text that begins in a comment. */
  predicate CommentedFrom(s: string, i: nat, inComment: bool) {
    Commented(s, i) || (inComment && forall k :: 0 <= k < i && k < |s| ==> s[k] != '\n')
  }

  lemma CommentedTail(s: string, i: nat, inComment: bool)
    requires s != [] && i > 0
    ensures CommentedFrom(s, i, inComment) <==>
            CommentedFrom(s[1..], i - 1, if inComment then s[0] != '\n' else s[0] == '#')
  {
    var t, open := s[1..], if inComment then s[0] != '\n' else s[0] == '#';
    if j :| 0 <= j <= i && j < |s| && s[j] == '#' && forall k :: j < k < i && k < |s| ==> s[k] != '\n' {
      if j > 0 {
        assert t[j - 1] == '#' && forall k :: j - 1 < k < i - 1 && k < |t| ==> t[k] != '\n';
      } else {
        assert open && forall k :: 0 <= k < i - 1 && k < |t| ==> t[k] != '\n';
      }
    }
    if j :| 0 <= j <= i - 1 && j < |t| && t[j] == '#' && forall k :: j < k < i - 1 && k < |t| ==> t[k] != '\n' {
      assert s[j + 1] == '#' && forall k :: j + 1 < k < i && k < |s| ==> s[k] != '\n';
    }
  }

  /** Every character is white space or in a comment. */
  predicate Blank(s: string, inComment: bool) {
    forall i :: 0 <= i < |s| ==> White(s[i]) || CommentedFrom(s, i, inComment)
  }

  lemma BlankTail(s: string, inComment: bool)
    requires s != []
    ensures Blank(s, inComment) <==> (inComment || White(s[0]) || s[0] == '#')
                                     && Blank(s[1..], if inComment then s[0] != '\n' else s[0] == '#')
  {
    var t, open := s[1..], if inComment then s[0] != '\n' else s[0] == '#';
    assert CommentedFrom(s, 0, inComment) <==> inComment || s[0] == '#';
    forall i | 0 < i < |s|
      ensures White(s[i]) || CommentedFrom(s, i, inComment) <==> White(t[i - 1]) || CommentedFrom(t, i - 1, open)
    {
      CommentedTail(s, i, inComment);
    }
    if Blank(s, inComment) {
      forall i | 0 <= i < |t| ensures White(t[i]) || CommentedFrom(t, i, open) { assert t[i] == s[i + 1]; }
    }
  }

  /** What the gaps between lexemes are: white space and comments, the last of which has ended; and what may follow the
      last lexeme: the same, ended or not. */
  lemma GapsAre(s: string)
    ensures IsGap(s, false) <==> (forall i :: 0 <= i < |s| ==> White(s[i]) || Commented(s, i)) && !Commented(s, |s|)
    ensures SkipLayout(s, false) == [] <==> forall i :: 0 <= i < |s| ==> White(s[i]) || Commented(s, i)
  {
    GapsFrom(s, false);
    assert forall i: nat :: CommentedFrom(s, i, false) <==> Commented(s, i);
  }

  lemma {:induction false} GapsFrom(s: string, inComment: bool)
    ensures IsGap(s, inComment) <==> Blank(s, inComment) && !CommentedFrom(s, |s|, inComment)
    ensures SkipLayout(s, inComment) == [] <==> Blank(s, inComment)
  {
    if s != [] {
      var open := if inComment then s[0] != '\n' else s[0] == '#';
      GapsFrom(s[1..], open);
      BlankTail(s, inComment);
      CommentedTail(s, |s|, inComment);
      GapTail(s, inComment);
    }
  }

  lemma GapTail(s: string, inComment: bool)
    requires s != []
    ensures var open := if inComment then s[0] != '\n' else s[0] == '#';
            && (IsGap(s, inComment) <==> (inComment || White(s[0]) || s[0] == '#') && IsGap(s[1..], open))
            && (SkipLayout(s, inComment) == [] <==>
                 (inComment || White(s[0]) || s[0] == '#') && SkipLayout(s[1..], open) == [])
  {
  }

  /** What the first character of a text, if it does not begin a name, means. */
  lemma FirstCharacter(ch: char, s: string)
    requires !('a' <= ch <= 'z') && !('A' <= ch <= 'Z')
    ensures View([ch] + s) == if White(ch) then View(s)
                              else if ch == '{' then Cons(Open, View(s))
                              else if ch == '}' then Cons(Close, View(s))
                              else if ch == '#' then View("#" + s)
                              else Garbage
  {
    StartStep(ch, s);
  }

  /** A name: a letter, then letters, digits and underscores, 99 characters at most. */
  predicate Name(name: string) {
    && 1 <= |name| <= 99 && ('a' <= name[0] <= 'z' || 'A' <= name[0] <= 'Z')
    && forall i :: 0 <= i < |name| ==>
         'a' <= name[i] <= 'z' || 'A' <= name[i] <= 'Z' || '0' <= name[i] <= '9' || name[i] == '_'
  }

  /** A text is read as itself, as one identifier, exactly if it is a name. */
  lemma NamesAre(name: string)
    ensures View(name) == Cons(Id(name), Eof) <==> Name(name)
  {
    if Name(name) {
      AtEnd(name);
      assert name + [] == name;
    }
    if View(name) == Cons(Id(name), Eof) {
      SkipTwice(name);
      HeadSpelled(SkipLayout(name, false), Id(name), Eof);
    }
  }

  /** Between two names, one character makes two identifiers of them exactly if it is white space. */
  lemma OnlyWhiteSeparates(a: string, ch: char, b: string)
    requires Name(a) && Name(b)
    ensures View(a + ([ch] + b)) == Cons(Id(a), Cons(Id(b), Eof)) <==> White(ch)
  {
    if EndsId(ch) {
      IdEnds(a, ch, b);
      EndBefore(ch, b);
    } else if IsIdChar(ch) {
      LongerName(a, ch, b);
    } else {
      IdBreaks(a, ch, b);
    }
  }

  lemma EndBefore(ch: char, b: string)
    requires Name(b) && EndsId(ch)
    ensures View([ch] + b) == Cons(Id(b), Eof) <==> White(ch)
  {
    NamesAre(b);
    StartStep(ch, b);
    if ch == '#' {
      NoLineIn(b);
      assert ("#" + b)[1..] == b;
    }
  }

  lemma LongerName(a: string, ch: char, b: string)
    requires Name(a) && IsIdChar(ch)
    ensures View(a + ([ch] + b)).Cons? ==> View(a + ([ch] + b)).head != Id(a)
  {
    var t := a + ([ch] + b);
    assert t == (a + [ch]) + b;
    IdLengthOf(a + [ch], b);
    ViewId(t, IdLength(t));
    assert |t[..IdLength(t)]| > |a|;
  }

  lemma NoLineIn(b: string)
    requires forall i :: 0 <= i < |b| ==> b[i] != '\n'
    ensures SkipLayout(b, true) == []
  {
  }

  // ---- identifiers as they are documented ----

  /** [a-z][a-z_\d]* */
  predicate DocumentedId(name: string) {
    && name != [] && 'a' <= name[0] <= 'z'
    && forall i :: 0 <= i < |name| ==> 'a' <= name[i] <= 'z' || '0' <= name[i] <= '9' || name[i] == '_'
  }

  ghost predicate AllDocumented(ls: seq<Lexeme>) {
    forall l :: l in ls && l.Id? ==> DocumentedId(l.name)
  }

  ghost predicate AllShort(ls: seq<Lexeme>) {
    forall l :: l in ls && l.Id? ==> |l.name| < MAX_LEXEME_SIZE
  }

  /** A documented identifier is read exactly if it has at most 99 characters. */
  lemma DocumentedIsRead(name: string)
    requires DocumentedId(name)
    ensures View(name) == if |name| < MAX_LEXEME_SIZE then Cons(Id(name), Eof) else Garbage
  {
    IdLengthOf(name, []);
    assert name + [] == name && name[..|name|] == name && name[|name|..] == [];
    ViewId(name, |name|);
  }

  lemma LongSpelled(name: string, r: string)
    requires DocumentedId(name) && |name| >= MAX_LEXEME_SIZE
    ensures View(name + r) == Garbage
  {
    IdLengthOf(name, r);
    ViewId(name + r, IdLength(name + r));
  }

  /** The lexer reaches the end of the file. */
  predicate Ends(ts: Tokens) {
    ts.Eof? || (ts.Cons? && Ends(ts.tail))
  }

  lemma {:induction false} CatEnds(ls: seq<Lexeme>)
    ensures Ends(Cat(ls, Eof))
  {
    if ls != [] {
      CatEnds(ls[1..]);
    }
  }

  /** Lexemes with documented identifiers, laid out in any way, are read to the end exactly if all are short. */
  lemma {:induction false} DocumentedEnds(ls: seq<Lexeme>, gaps: seq<string>)
    requires Spaced(ls, gaps) && AllDocumented(ls)
    ensures AllShort(ls) ==> Legal(ls, gaps)
    ensures Ends(View(Render(ls, gaps))) <==> AllShort(ls)
  {
    if AllShort(ls) {
      RenderedIsRead(ls, gaps);
      CatEnds(ls);
    } else {
      LongNeverEnds(ls, gaps);
    }
  }

  lemma {:induction false} LongNeverEnds(ls: seq<Lexeme>, gaps: seq<string>)
    requires Spaced(ls, gaps) && AllDocumented(ls) && !AllShort(ls)
    ensures !Ends(View(Render(ls, gaps)))
  {
    var l, r := ls[0], Render(ls[1..], gaps[1..]);
    SpacedTail(ls, gaps);
    ViewAfterGap(gaps[0], Spell(l) + r);
    if l.Id? && |l.name| >= MAX_LEXEME_SIZE {
      LongSpelled(l.name, r);
    } else {
      ShortHead(ls);
      if l.Id? {
        AfterId(ls, gaps);
      }
      ViewSpelled(l, r);
      LongNeverEnds(ls[1..], gaps[1..]);
    }
  }

  lemma ShortHead(ls: seq<Lexeme>)
    requires ls != [] && AllDocumented(ls) && !AllShort(ls) && (ls[0].Id? ==> |ls[0].name| < MAX_LEXEME_SIZE)
    ensures AllDocumented(ls[1..]) && !AllShort(ls[1..]) && (ls[0].Id? ==> IsId(ls[0].name))
  {
    assert ls == [ls[0]] + ls[1..];
  }

  /** One space everywhere is a layout of any lexemes. */
  lemma SpreadOut(ls: seq<Lexeme>) returns (gaps: seq<string>)
    ensures Spaced(ls, gaps)
  {
    gaps := seq(|ls| + 1, _ => " ");
    assert " "[1..] == [];
    assert IsGap(" ", false) && SkipLayout(" ", false) == [];
  }
}
